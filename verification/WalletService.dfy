/** The event handlers: fixed sequences of repository calls with early returns. The contracts say what a
    handler does to the ledger on a fresh id whatever the database answers, and for which rows a
    redelivered handler keeps the balances exact. */
module Service {
  import opened Sums
  import opened Ids
  import opened Ledger
  import opened Repository

  const HIGH_BALANCE := 600_000

  /** The id has no row yet, or the pending row that an earlier attempt wrote for the same request. */
  predicate Fresh(db: Db, id: string, kind: Kind, from: string, to: string, amount: int)
  {
    id in db.ledger ==>
      var r := db.ledger[id];
      r.status == Pending && r.kind == kind && r.from == from && r.to == to && r.amount == amount
  }

  /** What a handler run may do to the tables: apply the request once and succeed, or fail without effect. */
  ghost predicate AppliedOrNot(db: Db, db': Db, id: string, kind: Kind, from: string, to: string, amount: int, r: Result<Row>)
  {
    && Backed(db') && Exact(db')
    && (r.Ok? ==> && id in db'.ledger && db'.ledger[id].status == Completed
                  && db'.ledger[id].(currency := "") == Row(kind, from, to, amount, "", Completed)
                  && forall a :: LedgerSum(db'.ledger, a) == LedgerSum(db.ledger, a) + Leg(db'.ledger[id], a))
    && (r.Err? ==> && (id in db'.ledger ==> db'.ledger[id].status in {Pending, Failed})
                   && forall a :: LedgerSum(db'.ledger, a) == LedgerSum(db.ledger, a))
  }

  // ---------- what a handler does when every statement answers, by the stored balances ----------

  /** The request's row: an earlier attempt may have written it, and then with the currency it had. */
  function RequestRow(db: Db, id: string, kind: Kind, from: string, to: string, currency: string, amount: int, status: Status)
    : Row
  {
    Row(kind, from, to, amount, if id in db.ledger then db.ledger[id].currency else currency, status)
  }

  /** The debited account covers the amount and the credited one stays within BIGINT; a withdrawal also needs that the
      balance the handler has seen is not above the limit. */
  predicate Accepted(db: Db, kind: Kind, from: string, to: string, amount: int, seen: int)
    requires from in db.accounts && to in db.accounts
  {
    && (kind != Deposit ==> amount <= db.accounts[from].balance)
    && (kind != Withdrawal ==> db.accounts[to].balance + amount <= 0x7FFF_FFFF_FFFF_FFFF)
    && (kind == Withdrawal ==> seen <= 600_000)
  }

  /** The accounts after the amount has moved. */
  function Paid(accounts: map<string, Account>, kind: Kind, from: string, to: string, amount: int): map<string, Account>
    requires from in accounts && to in accounts
  {
    var debited :=
      if kind == Deposit then accounts else accounts[from := accounts[from].(balance := accounts[from].balance - amount)];
    if kind == Withdrawal then debited else debited[to := debited[to].(balance := debited[to].balance + amount)]
  }

  /** The row exists, or is about to: completed with the money moved, or failed. */
  function Concluded(db: Db, id: string, kind: Kind, from: string, to: string, currency: string, amount: int, seen: int)
    : (Db, bool)
    requires from in db.accounts && to in db.accounts
  {
    if Accepted(db, kind, from, to, amount, seen) then
      (Db(Paid(db.accounts, kind, from, to, amount),
          db.ledger[id := RequestRow(db, id, kind, from, to, currency, amount, Completed)]), true)
    else (db.(ledger := db.ledger[id := RequestRow(db, id, kind, from, to, currency, amount, Failed)]), false)
  }

  /** From the creation of the row on: without both accounts, or for a transfer to itself, there is no row. */
  function Recorded(db: Db, id: string, kind: Kind, from: string, to: string, currency: string, amount: int, seen: int)
    : (Db, bool)
  {
    if amount <= 0 || from !in db.accounts || to !in db.accounts || (kind == Transfer && from == to) then (db, false)
    else Concluded(db, id, kind, from, to, currency, amount, seen)
  }

  /** The whole handler, on exact tables and an id whose row is absent or pending: the tables it leaves, and whether it
      reports success. A withdrawal first checks the owner and the balance, and takes the account's currency. */
  function Handled(db: Db, id: string, kind: Kind, user: string, from: string, to: string, currency: string, amount: int)
    : (Db, bool)
  {
    if amount <= 0 then (db, false)
    else if kind != Withdrawal then Recorded(db, id, kind, from, to, currency, amount, 0)
    else if from !in db.accounts || db.accounts[from].owner != user || db.accounts[from].balance < amount then (db, false)
    else Recorded(db, id, kind, from, to, db.accounts[from].currency, amount, db.accounts[from].balance)
  }

  /** Settling a pending row and recording the outcome, by the stored balances. */
  lemma SettleConcludes(db: Db, id: string)
    requires Backed(db) && Exact(db)
    requires id in db.ledger && db.ledger[id].status == Pending && ShapedRow(db.ledger[id])
    ensures BackedRow(db.accounts, db.ledger[id])
    ensures var r := db.ledger[id];
            var (db1, settled) := Settle(db, id, VisitOrder(r.kind, r.from, r.to));
            && (settled.Ok? <==> Accepted(db, r.kind, r.from, r.to, r.amount, 0))
            && (SetStatus(db1, id, if settled.Ok? then Completed else Failed).0, settled.Ok?)
               == Concluded(db, id, r.kind, r.from, r.to, r.currency, r.amount, 0)
            && (settled.Ok? ==> db1 == Concluded(db, id, r.kind, r.from, r.to, r.currency, r.amount, 0).0)
  {
    hide LedgerSum, FirstRefusal, Rebalanced, VisitOrder;
    var r := db.ledger[id];
    assert BackedRow(db.accounts, r) && ShapedRow(r);
    SettleDecides(db, id);
    SettleMovesMoney(db, id);
    PaidIsMoved(db, id);
    var db1 := Settle(db, id, VisitOrder(r.kind, r.from, r.to)).0;
    assert id in db1.ledger && db1.ledger[id].status == Completed ==>
      db1.ledger[id := db1.ledger[id].(status := Completed)] == db1.ledger;
  }

  lemma PaidIsMoved(db: Db, id: string)
    requires id in db.ledger && ShapedRow(db.ledger[id]) && BackedRow(db.accounts, db.ledger[id])
    ensures var r := db.ledger[id]; AfterMove(db, id).accounts == Paid(db.accounts, r.kind, r.from, r.to, r.amount)
  {
  }

  /** A pending row, if there is one, belongs to these two accounts. */
  predicate PendingJoins(db: Db, id: string, from: string, to: string)
  {
    id in db.ledger && db.ledger[id].status == Pending ==> {db.ledger[id].from, db.ledger[id].to} <= {from, to}
  }

  /** A redelivery that makes a balance wrong: the row had failed and the handler completes it, or the row was
      completed and the handler fails it because its funds call was not answered; and the status write succeeds. */
  predicate RedeliveryBreaks(db: Db, id: string, settleFaults: bool, statusFaults: bool)
  {
    && id in db.ledger && db.ledger[id].status != Pending && !statusFaults
    && (db.ledger[id].status == Completed <==> settleFaults)
  }

  // ---------- steps of a handler run, as facts about the tables ----------

  /** The row as the creating call leaves it. */
  lemma CreatedRow(db: Db, id: string, kind: Kind, from: string, to: string, currency: string, amount: int)
    requires Backed(db) && Exact(db)
    ensures var (db1, r) := CreatePending(db, id, kind, from, to, currency, amount);
            && Backed(db1) && Exact(db1)
            && (r.Ok? && Fresh(db, id, kind, from, to, amount) ==> Fresh(db1, id, kind, from, to, amount) && id in db1.ledger)
            && (r.Err? ==> db1 == db)
  {
    CreatePendingKeepsSums(db, id, kind, from, to, currency, amount);
    CreatePendingKeepsRows(db, id, kind, from, to, currency, amount);
  }

  /** Settling a fresh row adds its leg to every sum; it is then completed, and the cache still exact. */
  lemma Settled(db: Db, id: string, visit: seq<string>)
    requires Backed(db) && Exact(db)
    requires id in db.ledger && db.ledger[id].status == Pending
    requires db.ledger[id].from in visit && db.ledger[id].to in visit
    ensures var (db1, r) := Settle(db, id, visit);
            && Backed(db1) && Exact(db1)
            && (r.Ok? ==> && db1.ledger == Flipped(db.ledger, id)
                          && forall a :: LedgerSum(db1.ledger, a) == LedgerSum(db.ledger, a) + Leg(db1.ledger[id], a))
            && (r.Err? ==> db1 == db)
  {
    SettleKeepsBacked(db, id, visit);
    var (db1, r) := Settle(db, id, visit);
    if r.Ok? {
      SettleExactness(db, id, visit);
      forall a ensures LedgerSum(db1.ledger, a) == LedgerSum(db.ledger, a) + Leg(db1.ledger[id], a) {
        WriteRow(db.ledger, id, db.ledger[id].(status := Completed), a);
      }
    }
  }

  /** A neutral status write is invisible to every sum. */
  lemma NeutralMark(db: Db, id: string, status: Status)
    requires Backed(db) && Exact(db) && NeutralStatus(db, id, status)
    ensures var db1 := SetStatus(db, id, status).0;
            && Backed(db1) && Exact(db1)
            && forall a :: LedgerSum(db1.ledger, a) == LedgerSum(db.ledger, a)
  {
    SetStatusKeepsBacked(db, id, status);
    SetStatusExactness(db, id, status);
    NeutralStatusKeepsSums(db, id, status);
  }

  /** The part all handlers share: settle the created row, then record the outcome. On a fresh row any database
      answers give all or nothing; on any row, with any answers, the cache stays exact if and only if the status was
      not recorded, or the row was pending, or what is recorded is what the row already said. */
  lemma SettleThenMark(db: Db, id: string, visit: seq<string>, db1: Db, r: Result<Row>, db2: Db, marked: Result<()>)
    requires Backed(db) && Exact(db) && id in db.ledger
    requires db.ledger[id].status == Pending ==> db.ledger[id].from in visit && db.ledger[id].to in visit
    requires r == Err(DbFault) ==> db1 == db
    requires r != Err(DbFault) ==> (db1, r) == Settle(db, id, visit)
    requires marked == Err(DbFault) ==> db2 == db1
    requires marked != Err(DbFault) ==> (db2, marked) == SetStatus(db1, id, if r.Ok? then Completed else Failed)
    ensures db.ledger[id].status == Pending ==>
              var row := db.ledger[id];
              AppliedOrNot(db, db2, id, row.kind, row.from, row.to, row.amount, r)
    ensures Exact(db2) <==>
              marked == Err(DbFault) || db.ledger[id].status == Pending || (r.Ok? <==> db.ledger[id].status == Completed)
    ensures Exact(db2) <==> !RedeliveryBreaks(db, id, r == Err(DbFault), marked == Err(DbFault))
  {
    if db.ledger[id].status == Pending {
      Settled(db, id, visit);
      assert id in db1.ledger;
      if marked != Err(DbFault) {
        NeutralMark(db1, id, if r.Ok? then Completed else Failed);
      }
    } else if marked != Err(DbFault) {
      SetStatusExactness(db1, id, if r.Ok? then Completed else Failed);
    }
  }

  /** Creating the row, settling it and recording the outcome, all answered. */
  lemma AnsweredRun(db: Db, id: string, kind: Kind, from: string, to: string, currency: string, amount: int)
    requires Backed(db) && Exact(db) && Fresh(db, id, kind, from, to, amount)
    requires kind != Transfer ==> from == to
    ensures var (db1, created) := CreatePending(db, id, kind, from, to, currency, amount);
            var all := Recorded(db, id, kind, from, to, currency, amount, 0);
            && (created.Err? ==> all == (db, false))
            && (created.Ok? ==>
                  var (db2, settled) := Settle(db1, id, VisitOrder(kind, from, to));
                  (SetStatus(db2, id, if settled.Ok? then Completed else Failed).0, settled.Ok?) == all)
  {
    hide LedgerSum, Settle, SetStatus, VisitOrder;
    assert id in db.ledger ==> BackedRow(db.accounts, db.ledger[id]);
    CreatedRow(db, id, kind, from, to, currency, amount);
    var (db1, created) := CreatePending(db, id, kind, from, to, currency, amount);
    if created.Ok? {
      SettleConcludes(db1, id);
      assert db1.ledger[id := RequestRow(db1, id, kind, from, to, db1.ledger[id].currency, amount, Completed)]
          == db.ledger[id := RequestRow(db, id, kind, from, to, currency, amount, Completed)];
      assert db1.ledger[id := RequestRow(db1, id, kind, from, to, db1.ledger[id].currency, amount, Failed)]
          == db.ledger[id := RequestRow(db, id, kind, from, to, currency, amount, Failed)];
    }
  }

  // ---------- the calls of a handler, with whatever the database answers ----------

  /** Create the row, settle it, record the outcome: `r` is what the handler returns, `db'` the tables it leaves. */
  datatype Calls = Calls(created: Result<()>, db1: Db, r: Result<Row>, db2: Db, marked: Result<()>, db': Db)

  ghost predicate Ran(db: Db, id: string, kind: Kind, from: string, to: string, currency: string, amount: int, c: Calls)
  {
    && (c.created == Err(DbFault) ==> c.db1 == db)
    && (c.created != Err(DbFault) ==> (c.db1, c.created) == CreatePending(db, id, kind, from, to, currency, amount))
    && (c.created.Err? ==> c.r == Err(c.created.error) && c.db' == c.db1)
    && (c.created.Ok? ==>
          && (c.r == Err(DbFault) ==> c.db2 == c.db1)
          && (c.r != Err(DbFault) ==> (c.db2, c.r) == Settle(c.db1, id, VisitOrder(kind, from, to)))
          && (c.marked == Err(DbFault) ==> c.db' == c.db2)
          && (c.marked != Err(DbFault) ==>
                (c.db', c.marked) == SetStatus(c.db2, id, if c.r.Ok? then Completed else Failed)))
  }

  lemma RanFresh(db: Db, id: string, kind: Kind, from: string, to: string, currency: string, amount: int, c: Calls)
    requires Ran(db, id, kind, from, to, currency, amount, c) && (kind != Transfer ==> from == to)
    requires Backed(db) && Exact(db) && Fresh(db, id, kind, from, to, amount)
    ensures AppliedOrNot(db, c.db', id, kind, from, to, amount, c.r)
  {
    hide Settle, LedgerSum, SetStatus, VisitOrder, AppliedOrNot;
    CreatedRow(db, id, kind, from, to, currency, amount);
    CreatePendingKeepsSums(db, id, kind, from, to, currency, amount);
    if c.created.Ok? {
      VisitOrderCovers(kind, from, to);
      SettleThenMark(c.db1, id, VisitOrder(kind, from, to), c.db2, c.r, c.db', c.marked);
      AppliedSince(db, c.db1, c.db', id, kind, from, to, amount, c.r);
    } else {
      NothingApplied(db, id, kind, from, to, amount, c.r);
    }
  }

  lemma AppliedSince(db: Db, db1: Db, db': Db, id: string, kind: Kind, from: string, to: string, amount: int, r: Result<Row>)
    requires forall a :: LedgerSum(db1.ledger, a) == LedgerSum(db.ledger, a)
    requires AppliedOrNot(db1, db', id, kind, from, to, amount, r)
    ensures AppliedOrNot(db, db', id, kind, from, to, amount, r)
  {
    hide LedgerSum;
  }

  lemma NothingApplied(db: Db, id: string, kind: Kind, from: string, to: string, amount: int, r: Result<Row>)
    requires r.Err?
    ensures Backed(db) && Exact(db) && Fresh(db, id, kind, from, to, amount) ==>
              AppliedOrNot(db, db, id, kind, from, to, amount, r)
  {
  }

  lemma RanExact(db: Db, id: string, kind: Kind, from: string, to: string, currency: string, amount: int, c: Calls,
                 settleFaults: bool, statusFaults: bool)
    requires Ran(db, id, kind, from, to, currency, amount, c) && (kind != Transfer ==> from == to)
    requires Backed(db) && Exact(db) && PendingJoins(db, id, from, to)
    requires c.created.Ok? && id in db.ledger ==>
               (settleFaults <==> c.r == Err(DbFault)) && (statusFaults <==> c.marked == Err(DbFault))
    ensures Exact(c.db') <==> !(c.created.Ok? && RedeliveryBreaks(db, id, settleFaults, statusFaults))
  {
    hide Settle, LedgerSum, SetStatus, VisitOrder, AppliedOrNot;
    CreatedRow(db, id, kind, from, to, currency, amount);
    if c.created.Ok? {
      VisitOrderCovers(kind, from, to);
      assert c.db1.ledger[id].status == Pending ==> {c.db1.ledger[id].from, c.db1.ledger[id].to} <= {from, to};
      SettleThenMark(c.db1, id, VisitOrder(kind, from, to), c.db2, c.r, c.db', c.marked);
    }
  }

  /** If every statement is answered, a fresh id ends as the stored balances decide. */
  lemma RanAnswered(db: Db, id: string, kind: Kind, from: string, to: string, currency: string, amount: int, c: Calls)
    requires Ran(db, id, kind, from, to, currency, amount, c) && (kind != Transfer ==> from == to)
    requires Backed(db) && Exact(db) && Fresh(db, id, kind, from, to, amount)
    requires c.created != Err(DbFault) && (c.created.Ok? ==> c.r != Err(DbFault) && c.marked != Err(DbFault))
    ensures (c.db', c.r.Ok?) == Recorded(db, id, kind, from, to, currency, amount, 0)
  {
    hide Settle, LedgerSum, SetStatus, VisitOrder, Recorded;
    AnsweredRun(db, id, kind, from, to, currency, amount);
  }

  /** Once the row is created and the status write answered, the row says what the handler reports. */
  lemma RanMarked(db: Db, id: string, kind: Kind, from: string, to: string, currency: string, amount: int, c: Calls)
    requires Ran(db, id, kind, from, to, currency, amount, c)
    requires c.created.Ok? && c.marked != Err(DbFault)
    ensures id in c.db'.ledger && c.db'.ledger[id].status == if c.r.Ok? then Completed else Failed
  {
  }

  /** What creating the row can come to on an id that is known, and on one whose accounts exist. */
  lemma CreationDecides(db: Db, id: string, kind: Kind, from: string, to: string, currency: string, amount: int)
    ensures CreatePending(db, id, kind, from, to, currency, amount).1.Ok? <==>
              && amount > 0 && (kind == Transfer ==> from != to)
              && (id in db.ledger || (from in db.accounts && to in db.accounts))
    ensures CreatePending(db, id, kind, from, to, currency, amount).1 != Err(DbFault)
    ensures id in db.ledger ==> CreatePending(db, id, kind, from, to, currency, amount).0 == db
    ensures CreatePending(db, id, kind, from, to, currency, amount).1.Ok? ==>
              id in CreatePending(db, id, kind, from, to, currency, amount).0.ledger
  {
  }

  /** All of the above for one run. */
  lemma RunMeans(db: Db, id: string, kind: Kind, from: string, to: string, currency: string, amount: int, c: Calls,
                 settleFaults: bool, statusFaults: bool)
    requires Ran(db, id, kind, from, to, currency, amount, c) && (kind != Transfer ==> from == to)
    requires c.created.Ok? && id in db.ledger ==>
               (settleFaults <==> c.r == Err(DbFault)) && (statusFaults <==> c.marked == Err(DbFault))
    ensures Backed(db) && Exact(db) && Fresh(db, id, kind, from, to, amount) ==>
              AppliedOrNot(db, c.db', id, kind, from, to, amount, c.r)
    ensures Backed(db) && Exact(db) && PendingJoins(db, id, from, to) ==>
              (Exact(c.db') <==> !(c.created.Ok? && RedeliveryBreaks(db, id, settleFaults, statusFaults)))
    ensures Backed(db) && Exact(db) && Fresh(db, id, kind, from, to, amount)
            && c.created != Err(DbFault) && (c.created.Ok? ==> c.r != Err(DbFault) && c.marked != Err(DbFault)) ==>
              (c.db', c.r.Ok?) == Recorded(db, id, kind, from, to, currency, amount, 0)
    ensures c.created.Ok? && c.marked != Err(DbFault) ==>
              id in c.db'.ledger && c.db'.ledger[id].status == if c.r.Ok? then Completed else Failed
  {
    hide Ran, Exact, Backed, Fresh, PendingJoins, AppliedOrNot, Recorded;
    if Backed(db) && Exact(db) {
      if Fresh(db, id, kind, from, to, amount) {
        RanFresh(db, id, kind, from, to, currency, amount, c);
        if c.created != Err(DbFault) && (c.created.Ok? ==> c.r != Err(DbFault) && c.marked != Err(DbFault)) {
          RanAnswered(db, id, kind, from, to, currency, amount, c);
        }
      }
      if PendingJoins(db, id, from, to) {
        RanExact(db, id, kind, from, to, currency, amount, c, settleFaults, statusFaults);
      }
    }
    if c.created.Ok? && c.marked != Err(DbFault) {
      RanMarked(db, id, kind, from, to, currency, amount, c);
    }
  }

  /** A withdrawal stopped by the limit only records its failure. */
  lemma TooHigh(db: Db, id: string, kind: Kind, from: string, to: string, currency: string, amount: int,
                db1: Db, marked: Result<()>, db': Db)
    requires kind == Withdrawal && from == to && from in db.accounts && db.accounts[from].balance > 600_000
    requires CreatePending(db, id, kind, from, to, currency, amount).0 == db1
    requires CreatePending(db, id, kind, from, to, currency, amount).1.Ok?
    requires marked == Err(DbFault) ==> db' == db1
    requires marked != Err(DbFault) ==> (db', marked) == SetStatus(db1, id, Failed)
    ensures Backed(db) && Exact(db) && Fresh(db, id, kind, from, to, amount) ==>
              AppliedOrNot(db, db', id, kind, from, to, amount, Err(BalanceTooHigh))
    ensures Backed(db) && Exact(db) ==>
              (Exact(db') <==> !(id in db.ledger && db.ledger[id].status == Completed && marked != Err(DbFault)))
    ensures Backed(db) && Fresh(db, id, kind, from, to, amount) && marked != Err(DbFault) ==>
              (db', false) == Recorded(db, id, kind, from, to, currency, amount, db.accounts[from].balance)
    ensures marked != Err(DbFault) ==> id in db'.ledger && db'.ledger[id].status == Failed
  {
    hide LedgerSum;
    assert Backed(db) && id in db.ledger ==> BackedRow(db.accounts, db.ledger[id]);
    if Fresh(db, id, kind, from, to, amount) && marked != Err(DbFault) {
      assert db'.ledger == db.ledger[id := RequestRow(db, id, kind, from, to, currency, amount, Failed)];
    }
    if Backed(db) && Exact(db) {
      CreatedRow(db, id, kind, from, to, currency, amount);
      CreatePendingKeepsSums(db, id, kind, from, to, currency, amount);
      SetStatusExactness(db1, id, Failed);
      SetStatusKeepsBacked(db1, id, Failed);
      if NeutralStatus(db1, id, Failed) { NeutralStatusKeepsSums(db1, id, Failed); }
    }
  }

  lemma LimitUnreached(db: Db, id: string, kind: Kind, from: string, to: string, currency: string, amount: int, seen: int)
    requires kind == Withdrawal ==> seen <= 600_000
    ensures Recorded(db, id, kind, from, to, currency, amount, seen) == Recorded(db, id, kind, from, to, currency, amount, 0)
  {
  }

  lemma SettleKeepsIds(db: Db, id: string, visit: seq<string>)
    ensures id in Settle(db, id, visit).0.ledger <==> id in db.ledger
  {
  }

  /** Success, read off the request and the stored balances. */
  lemma HandledDecides(db: Db, id: string, kind: Kind, user: string, from: string, to: string, currency: string, amount: int)
    requires kind != Transfer ==> from == to
    ensures var ok := Handled(db, id, kind, user, from, to, currency, amount).1;
            && (kind == Deposit ==>
                  (ok <==> (amount > 0 && to in db.accounts && db.accounts[to].balance + amount <= 0x7FFF_FFFF_FFFF_FFFF)))
            && (kind == Withdrawal ==>
                  (ok <==> (amount > 0 && from in db.accounts && db.accounts[from].owner == user
                            && amount <= db.accounts[from].balance <= 600_000)))
            && (kind == Transfer ==>
                  (ok <==> (amount > 0 && from != to && from in db.accounts && to in db.accounts
                            && amount <= db.accounts[from].balance
                            && db.accounts[to].balance + amount <= 0x7FFF_FFFF_FFFF_FFFF)))
  {
  }

  /** The money it moves: all of the amount between the two accounts on success, none otherwise. */
  lemma HandledMoves(db: Db, id: string, kind: Kind, user: string, from: string, to: string, currency: string, amount: int)
    requires kind != Transfer ==> from == to
    ensures var (db', ok) := Handled(db, id, kind, user, from, to, currency, amount);
            && db'.accounts.Keys == db.accounts.Keys
            && (!ok ==> db'.accounts == db.accounts)
            && (ok ==> forall a <- db.accounts ::
                  db'.accounts[a].balance == db.accounts[a].balance
                    + (if a == to && kind != Withdrawal then amount else 0)
                    - (if a == from && kind != Deposit then amount else 0))
  {
    hide RequestRow;
  }

  /** The rows it leaves: a row for exactly the requests that pass the checks before its creation, completed on success
      and failed otherwise; every other row as it was. */
  lemma HandledRecords(db: Db, id: string, kind: Kind, user: string, from: string, to: string, currency: string, amount: int)
    requires kind != Transfer ==> from == to
    ensures var (db', ok) := Handled(db, id, kind, user, from, to, currency, amount);
            && (forall x <- db.ledger :: x != id ==> x in db'.ledger && db'.ledger[x] == db.ledger[x])
            && (ok ==> from in db.accounts && to in db.accounts && id in db'.ledger && db'.ledger[id].status == Completed)
            && (id !in db.ledger && id in db'.ledger ==>
                  && db'.ledger[id].kind == kind && db'.ledger[id].from == from && db'.ledger[id].to == to
                  && db'.ledger[id].amount == amount && db'.ledger[id].status == (if ok then Completed else Failed)
                  && db'.ledger[id].currency == (if kind == Withdrawal then db.accounts[from].currency else currency))
            && (id !in db.ledger ==> (id in db'.ledger <==>
                  && amount > 0 && from in db.accounts && to in db.accounts && (kind == Transfer ==> from != to)
                  && (kind == Withdrawal ==> db.accounts[from].owner == user && amount <= db.accounts[from].balance)))
  {
    hide Paid;
  }

  class WalletService {
    const repo: WalletRepository

    constructor (repo: WalletRepository)
      ensures this.repo == repo
    {
      this.repo := repo;
    }

    method Deposit(id: string, userId: string, accountId: string, currency: string, amount: int,
                   createFails: int, settleFails: int, markFails: int, redisAnswers: bool)
      returns (r: Result<Row>)
      modifies repo
      ensures amount <= 0 ==> r == Err(BadAmount) && repo.Tables() == old(repo.Tables()) && repo.held == old(repo.held)
      ensures old(Backed(repo.Tables()) && Exact(repo.Tables())
                  && Fresh(repo.Tables(), id, Kind.Deposit, accountId, accountId, amount)) ==>
                AppliedOrNot(old(repo.Tables()), repo.Tables(), id, Kind.Deposit, accountId, accountId, amount, r)
      ensures old(Backed(repo.Tables()) && Exact(repo.Tables()) && PendingJoins(repo.Tables(), id, accountId, accountId)) ==>
                var db := old(repo.Tables());
                (Exact(repo.Tables()) <==>
                  !(&& amount > 0
                    && !CreateFaults(db, id, Kind.Deposit, accountId, accountId, currency, amount, createFails)
                    && RedeliveryBreaks(db, id, SettleFaults(db, id, [accountId], settleFails), StatusFaults(db, id, markFails))))
      ensures old(Backed(repo.Tables()) && Exact(repo.Tables())
                  && Fresh(repo.Tables(), id, Kind.Deposit, accountId, accountId, amount))
              && !(0 <= createFails <= 4) && !(0 <= settleFails <= 6) && !(0 <= markFails <= 2) ==>
                && (repo.Tables(), r.Ok?)
                   == Handled(old(repo.Tables()), id, Kind.Deposit, userId, accountId, accountId, currency, amount)
                && (r.Ok? <==> (amount > 0 && accountId in old(repo.accounts)
                            && old(repo.accounts)[accountId].balance + amount <= 0x7FFF_FFFF_FFFF_FFFF))
      ensures amount > 0 && !(0 <= createFails <= 4) && markFails !in {0, 1, 2}
              && (id in old(repo.ledger) || accountId in old(repo.accounts)) ==>
                && id in repo.ledger && repo.ledger[id].status == (if r.Ok? then Completed else Failed)
                && repo.held == if redisAnswers then old(repo.held) - {Key(userId, accountId)} else old(repo.held)
    {
      hide CreatePending, Settle, SetStatus, Recorded, VisitFaults, SettleFaults;
      hide AppliedOrNot, Exact, Backed, Fresh, PendingJoins;
      ghost var db := repo.Tables();
      HandledDecides(db, id, Kind.Deposit, userId, accountId, accountId, currency, amount);
      NothingApplied(db, id, Kind.Deposit, accountId, accountId, amount, Err(BadAmount));
      if amount <= 0 {
        return Err(BadAmount);
      }
      CreationDecides(db, id, Kind.Deposit, accountId, accountId, currency, amount);
      var created := repo.CreatePendingTransaction(id, Kind.Deposit, accountId, accountId, currency, amount, createFails);
      if created.Err? {
        ghost var c := Calls(created, db, Err(created.error), db, created, db);
        RunMeans(db, id, Kind.Deposit, accountId, accountId, currency, amount, c, false, false);
        return Err(created.error);
      }
      ghost var db1 := repo.Tables();
      r := repo.DepositFunds(id, accountId, settleFails);
      ghost var db2 := repo.Tables();
      SettleKeepsIds(db1, id, [accountId]);
      var status := if r.Err? then Failed else Completed;
      var marked := repo.UpdateTransactionStatus(id, userId, accountId, status, markFails, redisAnswers);
      ghost var c := Calls(created, db1, r, db2, marked, repo.Tables());
      RunMeans(db, id, Kind.Deposit, accountId, accountId, currency, amount, c,
               SettleFaults(db, id, [accountId], settleFails), StatusFaults(db, id, markFails));
    }

    method Withdraw(id: string, userId: string, accountId: string, amount: int,
                    findFails: int, createFails: int, settleFails: int, markFails: int, redisAnswers: bool)
      returns (r: Result<Row>)
      modifies repo
      ensures amount <= 0 ==> r == Err(BadAmount)
      ensures !Admitted(old(repo.Tables()), userId, accountId, amount) ==>
                r.Err? && repo.Tables() == old(repo.Tables()) && repo.held == old(repo.held)
      ensures old(Backed(repo.Tables()) && Exact(repo.Tables())
                  && Fresh(repo.Tables(), id, Withdrawal, accountId, accountId, amount)) ==>
                AppliedOrNot(old(repo.Tables()), repo.Tables(), id, Withdrawal, accountId, accountId, amount, r)
      ensures old(Backed(repo.Tables()) && Exact(repo.Tables()) && PendingJoins(repo.Tables(), id, accountId, accountId)) ==>
                var db := old(repo.Tables());
                (Exact(repo.Tables()) <==>
                  !(&& findFails != 0 && Admitted(db, userId, accountId, amount)
                    && !CreateFaults(db, id, Withdrawal, accountId, accountId,
                                     db.accounts[accountId].currency, amount, createFails)
                    && if db.accounts[accountId].balance > HIGH_BALANCE
                       then id in db.ledger && db.ledger[id].status == Completed && !StatusFaults(db, id, markFails)
                       else RedeliveryBreaks(db, id, SettleFaults(db, id, [accountId], settleFails),
                                             StatusFaults(db, id, markFails))))
      ensures old(Backed(repo.Tables()) && Exact(repo.Tables())
                  && Fresh(repo.Tables(), id, Withdrawal, accountId, accountId, amount))
              && findFails != 0 && !(0 <= createFails <= 4) && !(0 <= settleFails <= 6) && !(0 <= markFails <= 2) ==>
                && (repo.Tables(), r.Ok?)
                   == Handled(old(repo.Tables()), id, Withdrawal, userId, accountId, accountId, "", amount)
                && (r.Ok? <==> (amount > 0 && accountId in old(repo.accounts) && old(repo.accounts)[accountId].owner == userId
                            && amount <= old(repo.accounts)[accountId].balance <= 600_000))
      ensures Admitted(old(repo.Tables()), userId, accountId, amount)
              && findFails != 0 && !(0 <= createFails <= 4) && markFails !in {0, 1, 2} ==>
                && id in repo.ledger && repo.ledger[id].status == (if r.Ok? then Completed else Failed)
                && repo.held == if redisAnswers then old(repo.held) - {Key(userId, accountId)} else old(repo.held)
    {
      hide CreatePending, Settle, SetStatus, Recorded, VisitFaults, SettleFaults;
      hide AppliedOrNot, Exact, Backed, Fresh, PendingJoins;
      ghost var db := repo.Tables();
      HandledDecides(db, id, Withdrawal, userId, accountId, accountId, "", amount);
      NothingApplied(db, id, Withdrawal, accountId, accountId, amount, Err(BadAmount));
      if amount <= 0 {
        return Err(BadAmount);
      }
      var found := repo.FindAccountById(accountId, findFails);
      if found.Err? || found.value.owner != userId {
        NothingApplied(db, id, Withdrawal, accountId, accountId, amount, Err(NotOwner));
        return Err(NotOwner);
      }
      var account := found.value;
      if account.balance < amount {
        NothingApplied(db, id, Withdrawal, accountId, accountId, amount, Err(InsufficientBalance));
        return Err(InsufficientBalance);
      }
      CreationDecides(db, id, Withdrawal, accountId, accountId, account.currency, amount);
      var created := repo.CreatePendingTransaction(id, Withdrawal, accountId, accountId, account.currency, amount, createFails);
      if created.Err? {
        ghost var c := Calls(created, db, Err(created.error), db, created, db);
        RunMeans(db, id, Withdrawal, accountId, accountId, account.currency, amount, c, false, false);
        return Err(created.error);
      }
      ghost var db1 := repo.Tables();
      if account.balance > HIGH_BALANCE {
        var marked := repo.UpdateTransactionStatus(id, userId, accountId, Failed, markFails, redisAnswers);
        TooHigh(db, id, Withdrawal, accountId, accountId, account.currency, amount, db1, marked, repo.Tables());
        return Err(BalanceTooHigh);
      }
      r := repo.WithdrawFunds(id, accountId, settleFails);
      ghost var db2 := repo.Tables();
      SettleKeepsIds(db1, id, [accountId]);
      var status := if r.Err? then Failed else Completed;
      var marked := repo.UpdateTransactionStatus(id, userId, accountId, status, markFails, redisAnswers);
      ghost var c := Calls(created, db1, r, db2, marked, repo.Tables());
      RunMeans(db, id, Withdrawal, accountId, accountId, account.currency, amount, c,
               SettleFaults(db, id, [accountId], settleFails), StatusFaults(db, id, markFails));
      LimitUnreached(db, id, Withdrawal, accountId, accountId, account.currency, amount, account.balance);
    }

    method Transfer(id: string, userId: string, from: string, to: string, currency: string, amount: int,
                    createFails: int, settleFails: int, markFails: int, redisAnswers: bool)
      returns (r: Result<Row>)
      modifies repo
      ensures amount <= 0 ==> r == Err(BadAmount) && repo.Tables() == old(repo.Tables()) && repo.held == old(repo.held)
      ensures from == to ==> r.Err? && repo.Tables() == old(repo.Tables()) && repo.held == old(repo.held)
      ensures old(Backed(repo.Tables()) && Exact(repo.Tables()) && Fresh(repo.Tables(), id, Kind.Transfer, from, to, amount)) ==>
                AppliedOrNot(old(repo.Tables()), repo.Tables(), id, Kind.Transfer, from, to, amount, r)
      ensures old(Backed(repo.Tables()) && Exact(repo.Tables()) && PendingJoins(repo.Tables(), id, from, to)) ==>
                var db := old(repo.Tables());
                (Exact(repo.Tables()) <==>
                  !(&& amount > 0 && from != to
                    && !CreateFaults(db, id, Kind.Transfer, from, to, currency, amount, createFails)
                    && RedeliveryBreaks(db, id, SettleFaults(db, id, Ordered(from, to), settleFails),
                                        StatusFaults(db, id, markFails))))
      ensures old(Backed(repo.Tables()) && Exact(repo.Tables())
                  && Fresh(repo.Tables(), id, Kind.Transfer, from, to, amount))
              && !(0 <= createFails <= 4) && !(0 <= settleFails <= 9) && !(0 <= markFails <= 2) ==>
                && (repo.Tables(), r.Ok?)
                   == Handled(old(repo.Tables()), id, Kind.Transfer, userId, from, to, currency, amount)
                && (r.Ok? <==> (amount > 0 && from != to && from in old(repo.accounts) && to in old(repo.accounts)
                            && amount <= old(repo.accounts)[from].balance
                            && old(repo.accounts)[to].balance + amount <= 0x7FFF_FFFF_FFFF_FFFF))
      ensures amount > 0 && from != to && !(0 <= createFails <= 4) && markFails !in {0, 1, 2}
              && (id in old(repo.ledger) || (from in old(repo.accounts) && to in old(repo.accounts))) ==>
                && id in repo.ledger && repo.ledger[id].status == (if r.Ok? then Completed else Failed)
                && repo.held == if redisAnswers then old(repo.held) - {Key(userId, from)} else old(repo.held)
    {
      hide CreatePending, Settle, SetStatus, Recorded, VisitFaults, SettleFaults;
      hide AppliedOrNot, Exact, Backed, Fresh, PendingJoins;
      ghost var db := repo.Tables();
      HandledDecides(db, id, Kind.Transfer, userId, from, to, currency, amount);
      NothingApplied(db, id, Kind.Transfer, from, to, amount, Err(BadAmount));
      if amount <= 0 {
        return Err(BadAmount);
      }
      CreationDecides(db, id, Kind.Transfer, from, to, currency, amount);
      var created := repo.CreatePendingTransaction(id, Kind.Transfer, from, to, currency, amount, createFails);
      if created.Err? {
        ghost var c := Calls(created, db, Err(created.error), db, created, db);
        RunMeans(db, id, Kind.Transfer, from, to, currency, amount, c, false, false);
        return Err(created.error);
      }
      ghost var db1 := repo.Tables();
      r := repo.TransferFunds(id, from, to, amount, settleFails);
      ghost var db2 := repo.Tables();
      SettleKeepsIds(db1, id, Ordered(from, to));
      var status := if r.Err? then Failed else Completed;
      var marked := repo.UpdateTransactionStatus(id, userId, from, status, markFails, redisAnswers);
      ghost var c := Calls(created, db1, r, db2, marked, repo.Tables());
      RunMeans(db, id, Kind.Transfer, from, to, currency, amount, c,
               SettleFaults(db, id, Ordered(from, to), settleFails), StatusFaults(db, id, markFails));
    }

  }

  /** The checks a withdrawal passes before it writes anything. */
  predicate Admitted(db: Db, userId: string, accountId: string, amount: int)
  {
    amount > 0 && accountId in db.accounts && db.accounts[accountId].owner == userId && db.accounts[accountId].balance >= amount
  }

  /** A concrete redelivery that breaks a balance: the row failed on its first delivery, the second one finds it
      neither absent nor pending, skips reconciliation and still records it as completed. */
  lemma RedeliveryAfterFailureBreaks()
    ensures var db := Db(map["a" := Account("u", 0, "USD")], map["t" := Row(Kind.Deposit, "a", "a", 5, "USD", Failed)]);
            var db1 := CreatePending(db, "t", Kind.Deposit, "a", "a", "USD", 5).0;
            var (db2, r) := Settle(db1, "t", ["a"]);
            Backed(db) && Exact(db) && r.Ok? && !Exact(SetStatus(db2, "t", Completed).0)
  {
    var db := Db(map["a" := Account("u", 0, "USD")], map["t" := Row(Kind.Deposit, "a", "a", 5, "USD", Failed)]);
    SumZero(db.ledger.Keys, Legs(db.ledger, "a"));
    assert forall a {:trigger ExactAt(db, a)} | a in db.accounts :: ExactAt(db, a);
    SetStatusExactness(db, "t", Completed);
  }

  /** A second one: the row was completed on its first delivery; on the second its funds call is not answered (the
      UPDATE fails), so the handler takes its error path and marks the completed row failed. */
  lemma RedeliveryDuringFaultBreaks()
    ensures var row := Row(Kind.Deposit, "a", "a", 5, "USD", Completed);
            var db := Db(map["a" := Account("u", 5, "USD")], map["t" := row]);
            && Backed(db) && Exact(db) && SettleFaults(db, "t", ["a"], 1) && RedeliveryBreaks(db, "t", true, false)
            && !Exact(SetStatus(CreatePending(db, "t", Kind.Deposit, "a", "a", "USD", 5).0, "t", Failed).0)
  {
    var row := Row(Kind.Deposit, "a", "a", 5, "USD", Completed);
    var db := Db(map["a" := Account("u", 5, "USD")], map["t" := row]);
    WriteRow(map[], "t", row, "a");
    assert map[]["t" := row] == db.ledger;
    assert forall a {:trigger ExactAt(db, a)} | a in db.accounts :: ExactAt(db, a);
    SetStatusExactness(db, "t", Failed);
  }

  /** A third one: a completed withdrawal redelivered to an account with a high balance is marked failed. */
  lemma RedeliveredWithdrawalBreaks()
    ensures var row := Row(Withdrawal, "a", "a", 5, "USD", Completed);
            var deposit := Row(Kind.Deposit, "a", "a", 700_005, "USD", Completed);
            var db := Db(map["a" := Account("u", 700_000, "USD")], map["d" := deposit, "t" := row]);
            && Backed(db) && Exact(db) && Admitted(db, "u", "a", 5) && db.accounts["a"].balance > HIGH_BALANCE
            && !Exact(SetStatus(CreatePending(db, "t", Withdrawal, "a", "a", "USD", 5).0, "t", Failed).0)
  {
    var deposit, row := Row(Kind.Deposit, "a", "a", 700_005, "USD", Completed), Row(Withdrawal, "a", "a", 5, "USD", Completed);
    var one: map<string, Row> := map["d" := deposit];
    var db := Db(map["a" := Account("u", 700_000, "USD")], map["d" := deposit, "t" := row]);
    WriteRow(map[], "d", deposit, "a");
    WriteRow(one, "t", row, "a");
    assert map[]["d" := deposit] == one && one["t" := row] == db.ledger;
    assert forall a {:trigger ExactAt(db, a)} | a in db.accounts :: ExactAt(db, a);
    SetStatusExactness(db, "t", Failed);
  }
}
