/** The repository's money operations, updating the tables in place inside begin / commit / rollback.
    Every method takes `failAt`, the position in its text of the statement the database fails
    (BEGIN is 0; a position the text does not have means that every statement answers). */
module Repository {
  import opened Prelude
  import opened Sums
  import opened Ids
  import opened Ledger

  // ---------- which failing statements a call reaches ----------

  /** The lock, the sum and, unless the sum already refuses, the write. */
  ghost predicate ReconcileFaults(ledger: map<string, Row>, a: string, failAt: int)
  {
    failAt in {0, 1} || (failAt == 2 && 0 <= LedgerSum(ledger, a) <= INT64_MAX)
  }

  /** The reconciliations, as far as none refuses, then reading the row back and COMMIT. */
  ghost predicate VisitFaults(accounts: map<string, Account>, ledger: map<string, Row>, visit: seq<string>, failAt: int)
  {
    if visit == [] then failAt in {0, 1}
    else
      || ReconcileFaults(ledger, visit[0], failAt)
      || (Refusal(accounts, ledger, visit[0]).None? && VisitFaults(accounts, ledger, visit[1..], failAt - 3))
  }

  ghost predicate SettleFaults(db: Db, id: string, visit: seq<string>, failAt: int)
  {
    || failAt in {0, 1}
    || (id !in db.ledger && failAt == 2 + 3 * |visit|)
    || (id in db.ledger && db.ledger[id].status != Pending && failAt - 2 - 3 * |visit| in {0, 1})
    || (id in db.ledger && db.ledger[id].status == Pending
        && VisitFaults(db.accounts, Flipped(db.ledger, id), visit, failAt - 2))
  }

  predicate CreateFaults(db: Db, id: string, kind: Kind, from: string, to: string, currency: string, amount: int, failAt: int)
  {
    || failAt in {0, 3}
    || (from != to && failAt in {1, 2})
    || (failAt == 4 && CreatePending(db, id, kind, from, to, currency, amount).1.Ok?)
  }

  predicate StatusFaults(db: Db, id: string, failAt: int)
  {
    failAt in {0, 1} || (failAt == 2 && id in db.ledger)
  }

  class WalletRepository {
    var accounts: map<string, Account>
    var ledger: map<string, Row>
    var held: set<string>  // idempotency keys present in Redis

    constructor (accounts: map<string, Account>, ledger: map<string, Row>)
      ensures Tables() == Db(accounts, ledger) && held == {}
    {
      this.accounts, this.ledger, this.held := accounts, ledger, {};
    }

    function Tables(): Db
      reads this`accounts, this`ledger
    {
      Db(accounts, ledger)
    }

    method FindAccountById(accountId: string, failAt: int) returns (r: Result<Account>)
      ensures r.Ok? <==> accountId in accounts && failAt != 0
      ensures r.Ok? ==> r.value == accounts[accountId]
    {
      if failAt == 0 || accountId !in accounts {
        return Err(DbFault);
      }
      return Ok(accounts[accountId]);
    }

    /** The SUM query, as seen by the running transaction. */
    method SelectSum(accountId: string) returns (sum: int)
      ensures sum == LedgerSum(ledger, accountId)
    {
      sum := 0;
      var todo := ledger.Keys;
      while todo != {}
        invariant todo <= ledger.Keys
        invariant sum + Sum(todo, Legs(ledger, accountId)) == LedgerSum(ledger, accountId)
        decreases |todo|
      {
        var id :| id in todo;
        SumTake(todo, Legs(ledger, accountId), id);
        sum := sum + Leg(ledger[id], accountId);
        todo := todo - {id};
      }
    }

    /** Lock, sum, write. The result is the number of account rows written. */
    method ReconcileBalance(accountId: string, failAt: int) returns (r: Result<nat>)
      modifies this`accounts
      ensures r == Ok(1) <==> failAt !in {0, 1, 2} && Refusal(old(accounts), ledger, accountId).None?
      ensures r == Ok(1) ==> accounts == Reconciled(old(accounts), ledger, accountId)
      ensures r != Ok(1) ==> accounts == old(accounts)
      ensures r == Err(DbFault) <==> ReconcileFaults(ledger, accountId, failAt)
      ensures r.Ok? && r.value != 1 ==> Refusal(old(accounts), ledger, accountId) == Some(AccountRejected(accountId))
      ensures r.Err? ==> (r == Err(DbFault) && failAt in {0, 1, 2}) || Refusal(old(accounts), ledger, accountId) == Some(r.error)
    {
      if failAt == 0 { return Err(DbFault); }
      if failAt == 1 { return Err(DbFault); }
      var balance := SelectSum(accountId);
      if !(INT64_MIN <= balance <= INT64_MAX) { return Err(SumOutOfRange(accountId)); }
      if balance < 0 {
        return Ok(0);
      }
      if failAt == 2 { return Err(DbFault); }
      if accountId !in accounts {
        return Ok(0);
      }
      accounts := accounts[accountId := accounts[accountId].(balance := balance)];
      return Ok(1);
    }

    method CreatePendingTransaction(id: string, kind: Kind, from: string, to: string, currency: string, amount: int, failAt: int)
      returns (r: Result<()>)
      modifies this`ledger
      ensures r == Err(DbFault) <==> CreateFaults(old(Tables()), id, kind, from, to, currency, amount, failAt)
      ensures r == Err(DbFault) ==> Tables() == old(Tables())
      ensures r != Err(DbFault) ==> (Tables(), r) == CreatePending(old(Tables()), id, kind, from, to, currency, amount)
      ensures failAt !in {0, 3, 4} && (from == to || failAt !in {1, 2}) ==>
                (r.Ok? <==> && amount > 0 && (kind == Transfer ==> from != to)
                            && (id in old(ledger) || (from in accounts && to in accounts)))
      ensures ledger == if r.Ok? && id !in old(ledger)
                        then old(ledger)[id := Row(kind, from, to, amount, currency, Pending)] else old(ledger)
    {
      var ledger0 := ledger;
      if failAt == 0 { return Err(DbFault); }
      if from != to && failAt in {1, 2} {
        return Err(DbFault);
      }
      if failAt == 3 { return Err(DbFault); }
      if amount <= 0 || (kind == Transfer && from == to) {
        return Err(CheckViolated);
      }
      if id !in ledger {
        if from !in accounts || to !in accounts {
          return Err(ForeignKeyViolated);
        }
        ledger := ledger[id := Row(kind, from, to, amount, currency, Pending)];
      }
      if failAt == 4 {
        ledger := ledger0;
        return Err(DbFault);
      }
      return Ok(());
    }

    method DepositFunds(id: string, accountId: string, failAt: int) returns (r: Result<Row>)
      modifies this`accounts, this`ledger
      ensures r == Err(DbFault) <==> SettleFaults(old(Tables()), id, [accountId], failAt)
      ensures r == Err(DbFault) ==> 0 <= failAt <= 6
      ensures r != Err(DbFault) ==> (Tables(), r) == Settle(old(Tables()), id, [accountId])
      ensures r.Err? ==> Tables() == old(Tables())
    {
      var accounts0, ledger0 := accounts, ledger;
      if failAt in {0, 1} { return Err(DbFault); }
      if id in ledger && ledger[id].status == Pending {
        ledger := Flipped(ledger, id);
        var rows := ReconcileBalance(accountId, failAt - 2);
        RefusalOfOne(accounts0, ledger, accountId);
        if rows != Ok(1) {
          ledger := ledger0;
          return Err(if rows.Err? then rows.error else AccountRejected(accountId));
        }
        assert accounts == Rebalanced(accounts0, ledger, [accountId]);
      }
      if failAt == 5 {
        accounts, ledger := accounts0, ledger0;
        return Err(DbFault);
      }
      if id !in ledger {
        return Err(NoSuchTransaction);
      }
      if failAt == 6 {
        accounts, ledger := accounts0, ledger0;
        return Err(DbFault);
      }
      return Ok(ledger[id]);
    }

    method WithdrawFunds(id: string, accountId: string, failAt: int) returns (r: Result<Row>)
      modifies this`accounts, this`ledger
      ensures r == Err(DbFault) <==> SettleFaults(old(Tables()), id, [accountId], failAt)
      ensures r == Err(DbFault) ==> 0 <= failAt <= 6
      ensures r != Err(DbFault) ==> (Tables(), r) == Settle(old(Tables()), id, [accountId])
      ensures r.Err? ==> Tables() == old(Tables())
    {
      var accounts0, ledger0 := accounts, ledger;
      if failAt in {0, 1} { return Err(DbFault); }
      if id in ledger && ledger[id].status == Pending {
        ledger := Flipped(ledger, id);
        var rows := ReconcileBalance(accountId, failAt - 2);
        RefusalOfOne(accounts0, ledger, accountId);
        if rows != Ok(1) {
          ledger := ledger0;
          return Err(if rows.Err? then rows.error else AccountRejected(accountId));
        }
        assert accounts == Rebalanced(accounts0, ledger, [accountId]);
      }
      if failAt == 5 {
        accounts, ledger := accounts0, ledger0;
        return Err(DbFault);
      }
      if id !in ledger {
        return Err(NoSuchTransaction);
      }
      if failAt == 6 {
        accounts, ledger := accounts0, ledger0;
        return Err(DbFault);
      }
      return Ok(ledger[id]);
    }

    method TransferFunds(id: string, from: string, to: string, amount: int, failAt: int) returns (r: Result<Row>)
      modifies this`accounts, this`ledger
      ensures r == Err(DbFault) <==> amount > 0 && SettleFaults(old(Tables()), id, Ordered(from, to), failAt)
      ensures r == Err(DbFault) ==> Tables() == old(Tables()) && 0 <= failAt <= 9
      ensures r != Err(DbFault) && amount <= 0 ==> r == Err(BadAmount) && Tables() == old(Tables())
      ensures r != Err(DbFault) && amount > 0 ==> (Tables(), r) == Settle(old(Tables()), id, Ordered(from, to))
    {
      hide FirstRefusal, Rebalanced, LedgerSum, VisitFaults, Less;
      if amount <= 0 {
        return Err(BadAmount);
      }
      var firstId, secondId := from, to;
      if Less(secondId, firstId) {
        firstId, secondId := secondId, firstId;
      }
      assert Ordered(from, to) == [firstId, secondId];
      var accounts0, ledger0 := accounts, ledger;
      if failAt in {0, 1} { return Err(DbFault); }
      if id in ledger && ledger[id].status == Pending {
        ledger := Flipped(ledger, id);
        ReconcileTwo(accounts0, ledger, firstId, secondId);
        var firstRows := ReconcileBalance(firstId, failAt - 2);
        if firstRows != Ok(1) {
          ledger := ledger0;
          return Err(if firstRows.Err? then firstRows.error else AccountRejected(firstId));
        }
        var secondRows := ReconcileBalance(secondId, failAt - 5);
        if secondRows != Ok(1) {
          accounts, ledger := accounts0, ledger0;
          return Err(if secondRows.Err? then secondRows.error else AccountRejected(secondId));
        }
      }
      if failAt == 8 {
        accounts, ledger := accounts0, ledger0;
        return Err(DbFault);
      }
      if id !in ledger {
        return Err(NoSuchTransaction);
      }
      if failAt == 9 {
        accounts, ledger := accounts0, ledger0;
        return Err(DbFault);
      }
      return Ok(ledger[id]);
    }

    /** Writes the status whatever it was, then frees the account for the user's next request. */
    method UpdateTransactionStatus(id: string, userId: string, accountId: string, status: Status, failAt: int, redisAnswers: bool)
      returns (r: Result<()>)
      modifies this`ledger, this`held
      ensures r == Err(DbFault) <==> StatusFaults(old(Tables()), id, failAt)
      ensures r == Err(DbFault) ==> Tables() == old(Tables())
      ensures r != Err(DbFault) ==> (Tables(), r) == SetStatus(old(Tables()), id, status)
      ensures r.Ok? <==> failAt !in {0, 1, 2} && id in old(ledger)
      ensures r.Ok? ==> id in old(ledger) && ledger == old(ledger)[id := old(ledger)[id].(status := status)]
      ensures r.Err? ==> ledger == old(ledger)
      ensures held == if r.Ok? && redisAnswers then old(held) - {Key(userId, accountId)} else old(held)
    {
      var ledger0 := ledger;
      if failAt in {0, 1} { return Err(DbFault); }
      if id !in ledger {
        return Err(NoSuchTransaction);
      }
      ledger := ledger[id := ledger[id].(status := status)];
      if failAt == 2 {
        ledger := ledger0;
        return Err(DbFault);
      }
      if redisAnswers {
        held := held - {Key(userId, accountId)};
      }
      return Ok(());
    }
  }

  lemma RefusalOfOne(accounts: map<string, Account>, ledger: map<string, Row>, a: string)
    ensures FirstRefusal(accounts, ledger, [a]) == Refusal(accounts, ledger, a)
    ensures forall failAt :: VisitFaults(accounts, ledger, [a], failAt) <==>
              ReconcileFaults(ledger, a, failAt) || (Refusal(accounts, ledger, a).None? && failAt in {3, 4})
  {
    assert [a][1..] == [];
    assert FirstRefusal(accounts, ledger, [a][1..]) == None;
    assert forall failAt {:trigger VisitFaults(accounts, ledger, [], failAt)} ::
      VisitFaults(accounts, ledger, [], failAt) <==> failAt in {0, 1};
  }

  ghost function Reconciled(accounts: map<string, Account>, ledger: map<string, Row>, a: string): map<string, Account>
    requires a in accounts
  {
    accounts[a := accounts[a].(balance := LedgerSum(ledger, a))]
  }

  /** Reconciling two accounts one after the other refuses, and writes, what reconciling both together does. */
  lemma ReconcileTwo(accounts: map<string, Account>, ledger: map<string, Row>, a: string, b: string)
    ensures Refusal(accounts, ledger, a).Some? ==> FirstRefusal(accounts, ledger, [a, b]) == Refusal(accounts, ledger, a)
    ensures Refusal(accounts, ledger, a).None? ==>
              var one := Reconciled(accounts, ledger, a);
              && Refusal(one, ledger, b) == FirstRefusal(accounts, ledger, [a, b])
              && (Refusal(one, ledger, b).None? ==> Reconciled(one, ledger, b) == Rebalanced(accounts, ledger, [a, b]))
    ensures forall failAt :: VisitFaults(accounts, ledger, [a, b], failAt) <==>
              || ReconcileFaults(ledger, a, failAt)
              || (Refusal(accounts, ledger, a).None?
                  && (ReconcileFaults(ledger, b, failAt - 3) || (Refusal(accounts, ledger, b).None? && failAt in {6, 7})))
  {
    assert [a, b][1..] == [b];
    RefusalOfOne(accounts, ledger, b);
  }
}
