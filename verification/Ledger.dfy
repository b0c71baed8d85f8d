/** The ledger tables and what each repository call does to them as one atomic step.
    The stored balance of an account is a cache of the signed sum of its completed rows;
    the lemmas say which calls keep that cache exact, and what a settled row moves. */
module Ledger {
  import opened Prelude
  import opened Sums
  import opened Ids

  const INT64_MAX := 0x7FFF_FFFF_FFFF_FFFF
  const INT64_MIN := -0x8000_0000_0000_0000

  datatype Kind = Deposit | Withdrawal | Transfer

  datatype Status = Pending | Completed | Failed | Rejected

  datatype Row = Row(kind: Kind, from: string, to: string, amount: int, currency: string, status: Status)

  datatype Account = Account(owner: string, balance: int, currency: string)

  datatype Db = Db(accounts: map<string, Account>, ledger: map<string, Row>)

  datatype Error =
    | DbFault
    | BadAmount
    | CheckViolated
    | ForeignKeyViolated
    | NoSuchTransaction
    | SumOutOfRange(account: string)
    | AccountRejected(account: string)
    | NotOwner
    | InsufficientBalance
    | BalanceTooHigh

  datatype Result<+T> = Ok(value: T) | Err(error: Error)

  // ---------- the reconciliation query ----------

  /** What one row contributes to the balance of `a`: the query's filter and its CASE. */
  function Leg(r: Row, a: string): int
  {
    if r.status != Completed || (r.from != a && r.to != a) then 0
    else match r.kind
      case Deposit => r.amount
      case Withdrawal => -r.amount
      case Transfer => if r.to == a then r.amount else -r.amount
  }

  ghost function Legs(ledger: map<string, Row>, a: string): string -> int
  {
    id => if id in ledger then Leg(ledger[id], a) else 0
  }

  ghost function LedgerSum(ledger: map<string, Row>, a: string): int
  {
    Sum(ledger.Keys, Legs(ledger, a))
  }

  lemma LegNonZero(r: Row, a: string)
    requires r.amount > 0
    ensures Leg(r, a) != 0 <==> r.status == Completed && a in {r.from, r.to}
  {
  }

  /** Writing one row shifts a sum by the difference of the row's contributions. */
  lemma WriteRow(ledger: map<string, Row>, id: string, r: Row, a: string)
    ensures LedgerSum(ledger[id := r], a)
         == LedgerSum(ledger, a) + Leg(r, a) - (if id in ledger then Leg(ledger[id], a) else 0)
  {
    var after := ledger[id := r];
    var f, g := Legs(ledger, a), Legs(after, a);
    SumTake(after.Keys, g, id);
    if id in ledger {
      assert after.Keys == ledger.Keys;
      SumTake(ledger.Keys, f, id);
      SumSame(ledger.Keys - {id}, f, g);
    } else {
      assert after.Keys - {id} == ledger.Keys;
      SumSame(ledger.Keys, f, g);
    }
  }

  // ---------- the tables' constraints and the cache invariant ----------

  /** CHECK (amount > 0) and the two foreign keys. */
  predicate BackedRow(accounts: map<string, Account>, r: Row)
  {
    r.amount > 0 && r.from in accounts && r.to in accounts
  }

  ghost predicate Backed(db: Db)
  {
    forall id {:trigger BackedRow(db.accounts, db.ledger[id])} | id in db.ledger :: BackedRow(db.accounts, db.ledger[id])
  }

  /** Transfers join two accounts (a CHECK); deposits and withdrawals are written with one account twice. */
  predicate Shaped(kind: Kind, from: string, to: string)
  {
    kind == Transfer <==> from != to
  }

  predicate ShapedRow(r: Row)
  {
    Shaped(r.kind, r.from, r.to)
  }

  ghost predicate AllShaped(db: Db)
  {
    forall id {:trigger ShapedRow(db.ledger[id])} | id in db.ledger :: ShapedRow(db.ledger[id])
  }

  /** The stored balance of every account is the sum of its completed rows, and is a non-negative BIGINT. */
  ghost predicate ExactAt(db: Db, a: string)
    requires a in db.accounts
  {
    0 <= db.accounts[a].balance == LedgerSum(db.ledger, a) <= INT64_MAX
  }

  ghost predicate Exact(db: Db)
  {
    forall a {:trigger ExactAt(db, a)} | a in db.accounts :: ExactAt(db, a)
  }

  // ---------- CreatePendingTransaction ----------

  /** Row constraints are checked before the conflict clause, foreign keys only for a row really inserted. */
  function CreatePending(db: Db, id: string, kind: Kind, from: string, to: string, currency: string, amount: int)
    : (Db, Result<()>)
  {
    if amount <= 0 || (kind == Transfer && from == to) then (db, Err(CheckViolated))
    else if id in db.ledger then (db, Ok(()))
    else if from !in db.accounts || to !in db.accounts then (db, Err(ForeignKeyViolated))
    else (db.(ledger := db.ledger[id := Row(kind, from, to, amount, currency, Pending)]), Ok(()))
  }

  /** A pending row changes no sum. */
  lemma CreatePendingKeepsSums(db: Db, id: string, kind: Kind, from: string, to: string, currency: string, amount: int)
    ensures var db' := CreatePending(db, id, kind, from, to, currency, amount).0;
            && db'.accounts == db.accounts
            && (forall a :: LedgerSum(db'.ledger, a) == LedgerSum(db.ledger, a))
            && (Exact(db) <==> Exact(db'))
  {
    var db' := CreatePending(db, id, kind, from, to, currency, amount).0;
    forall a ensures LedgerSum(db'.ledger, a) == LedgerSum(db.ledger, a) {
      WriteRow(db.ledger, id, Row(kind, from, to, amount, currency, Pending), a);
    }
    SameSums(db, db');
  }

  lemma CreatePendingKeepsRows(db: Db, id: string, kind: Kind, from: string, to: string, currency: string, amount: int)
    ensures var db' := CreatePending(db, id, kind, from, to, currency, amount).0;
            && (Backed(db) ==> Backed(db'))
            && (AllShaped(db) && (kind != Transfer ==> from == to) ==> AllShaped(db'))
  {
    var db' := CreatePending(db, id, kind, from, to, currency, amount).0;
    if Backed(db) {
      forall x | x in db'.ledger ensures BackedRow(db'.accounts, db'.ledger[x]) {
        assert x in db.ledger ==> BackedRow(db.accounts, db.ledger[x]);
      }
    }
    if AllShaped(db) && (kind != Transfer ==> from == to) {
      forall x | x in db'.ledger ensures ShapedRow(db'.ledger[x]) {
        assert x in db.ledger ==> ShapedRow(db.ledger[x]);
      }
    }
  }

  /** The cache is as exact after a change of rows that no sum notices as it was before. */
  lemma SameSums(db: Db, db': Db)
    requires db'.accounts == db.accounts
    requires forall a <- db.accounts :: LedgerSum(db'.ledger, a) == LedgerSum(db.ledger, a)
    ensures Exact(db) <==> Exact(db')
  {
    forall a | a in db.accounts ensures ExactAt(db, a) <==> ExactAt(db', a) {
    }
  }

  // ---------- DepositFunds, WithdrawFunds, TransferFunds ----------

  /** The accounts a funds call reconciles, in order. */
  function VisitOrder(kind: Kind, from: string, to: string): seq<string>
  {
    if kind == Transfer then Ordered(from, to) else [from]
  }

  lemma VisitOrderCovers(kind: Kind, from: string, to: string)
    requires kind != Transfer ==> from == to
    ensures forall a :: a in VisitOrder(kind, from, to) <==> a in {from, to}
  {
    if kind == Transfer { OrderedIsSymmetric(from, to); }
  }

  function Flipped(ledger: map<string, Row>, id: string): map<string, Row>
    requires id in ledger
  {
    ledger[id := ledger[id].(status := Completed)]
  }

  /** Why reconciling `a` against `ledger` fails, if it does. */
  ghost function Refusal(accounts: map<string, Account>, ledger: map<string, Row>, a: string): Option<Error>
  {
    var sum := LedgerSum(ledger, a);
    if !(INT64_MIN <= sum <= INT64_MAX) then Some(SumOutOfRange(a))
    else if sum < 0 || a !in accounts then Some(AccountRejected(a))
    else None
  }

  ghost function FirstRefusal(accounts: map<string, Account>, ledger: map<string, Row>, visit: seq<string>): Option<Error>
  {
    if visit == [] then None
    else if Refusal(accounts, ledger, visit[0]).Some? then Refusal(accounts, ledger, visit[0])
    else FirstRefusal(accounts, ledger, visit[1..])
  }

  lemma {:induction false} NoRefusal(accounts: map<string, Account>, ledger: map<string, Row>, visit: seq<string>)
    ensures FirstRefusal(accounts, ledger, visit).None?
       <==> forall a <- visit :: a in accounts && 0 <= LedgerSum(ledger, a) <= INT64_MAX
  {
    if visit != [] {
      NoRefusal(accounts, ledger, visit[1..]);
      assert forall a :: a in visit <==> a == visit[0] || a in visit[1..];
    }
  }

  ghost function Rebalanced(accounts: map<string, Account>, ledger: map<string, Row>, visit: seq<string>)
    : map<string, Account>
  {
    map a | a in accounts :: if a in visit then accounts[a].(balance := LedgerSum(ledger, a)) else accounts[a]
  }

  /** All or nothing: complete a pending row and refresh the visited balances, or leave everything alone. */
  ghost function Settle(db: Db, id: string, visit: seq<string>): (Db, Result<Row>)
  {
    if id !in db.ledger then (db, Err(NoSuchTransaction))
    else if db.ledger[id].status != Pending then (db, Ok(db.ledger[id]))
    else
      var ledger := Flipped(db.ledger, id);
      match FirstRefusal(db.accounts, ledger, visit)
      case Some(e) => (db, Err(e))
      case None => (Db(Rebalanced(db.accounts, ledger, visit), ledger), Ok(ledger[id]))
  }

  /** The account exists and its sum is a balance it may have. */
  ghost predicate Affordable(accounts: map<string, Account>, ledger: map<string, Row>, a: string)
  {
    a in accounts && 0 <= LedgerSum(ledger, a) <= INT64_MAX
  }

  /** What a funds call does, account by account: without the row it errs, a row that is not pending it only reports, and
      a pending one it completes if every visited account can afford that, refreshing exactly their balances. */
  lemma SettleMeans(db: Db, id: string, visit: seq<string>)
    ensures var (db', r) := Settle(db, id, visit);
            && (r.Err? ==> db' == db)
            && (id !in db.ledger ==> r == Err(NoSuchTransaction))
            && (id in db.ledger && db.ledger[id].status != Pending ==> r == Ok(db.ledger[id]) && db' == db)
            && (id in db.ledger && db.ledger[id].status == Pending ==>
                  var row := db.ledger[id].(status := Completed);
                  && (r.Ok? <==> forall a <- visit :: Affordable(db.accounts, db.ledger[id := row], a))
                  && (r.Ok? ==>
                        && r.value == row && db'.ledger == db.ledger[id := row] && db'.accounts.Keys == db.accounts.Keys
                        && (forall a <- db.accounts :: a !in visit ==> db'.accounts[a] == db.accounts[a])
                        && (forall a <- visit :: db'.accounts[a]
                                              == db.accounts[a].(balance := LedgerSum(db.ledger[id := row], a)))))
  {
    if id in db.ledger && db.ledger[id].status == Pending {
      NoRefusal(db.accounts, Flipped(db.ledger, id), visit);
    }
  }

  lemma SettleKeepsBacked(db: Db, id: string, visit: seq<string>)
    requires Backed(db)
    ensures Backed(Settle(db, id, visit).0)
  {
    var db' := Settle(db, id, visit).0;
    forall x | x in db'.ledger ensures BackedRow(db'.accounts, db'.ledger[x]) {
      assert BackedRow(db.accounts, db.ledger[x]);
    }
  }

  /** A successful funds call keeps the cache exact if and only if it visits both ends of the row it completes. */
  lemma SettleExactness(db: Db, id: string, visit: seq<string>)
    requires Backed(db) && Exact(db)
    requires id in db.ledger && db.ledger[id].status == Pending
    requires Settle(db, id, visit).1.Ok?
    ensures Exact(Settle(db, id, visit).0) <==> db.ledger[id].from in visit && db.ledger[id].to in visit
  {
    var ledger, r := Flipped(db.ledger, id), db.ledger[id].(status := Completed);
    var db' := Settle(db, id, visit).0;
    assert BackedRow(db.accounts, db.ledger[id]);
    NoRefusal(db.accounts, ledger, visit);
    forall a | a in db.accounts ensures ExactAt(db', a) <==> a in visit || a !in {r.from, r.to} {
      assert ExactAt(db, a);
      WriteRow(db.ledger, id, r, a);
      LegNonZero(r, a);
    }
    assert r.from in db'.accounts && r.to in db'.accounts;
    if r.from !in visit {
      assert !ExactAt(db', r.from);
    } else if r.to !in visit {
      assert !ExactAt(db', r.to);
    }
  }

  /** The balance of `a` once row `r` has been settled, read off the stored balances. */
  function Moved(r: Row, a: string, balance: int): int
  {
    balance + Leg(r.(status := Completed), a)
  }

  /** The debited account covers the row and the credited one does not overflow, by stored balances. */
  predicate Covered(db: Db, r: Row)
    requires r.from in db.accounts && r.to in db.accounts
  {
    && (r.kind != Deposit ==> db.accounts[r.from].balance >= r.amount)
    && (r.kind != Withdrawal ==> db.accounts[r.to].balance + r.amount <= INT64_MAX)
  }

  /** The tables once row `id` has moved its money: only the row and the balances of its ends differ. */
  function AfterMove(db: Db, id: string): Db
    requires id in db.ledger
  {
    Db(map a | a in db.accounts :: db.accounts[a].(balance := Moved(db.ledger[id], a, db.accounts[a].balance)),
       Flipped(db.ledger, id))
  }

  /** On exact tables the new sum of every account is its stored balance moved by the row. */
  lemma SumsAfterFlip(db: Db, id: string, a: string)
    requires Exact(db) && id in db.ledger && db.ledger[id].status == Pending
    requires a in db.accounts
    ensures LedgerSum(Flipped(db.ledger, id), a) == Moved(db.ledger[id], a, db.accounts[a].balance)
    ensures 0 <= db.accounts[a].balance <= INT64_MAX
  {
    assert ExactAt(db, a);
    WriteRow(db.ledger, id, db.ledger[id].(status := Completed), a);
  }

  /** On exact tables the reconciliation decides by the stored balances alone: a row settles if and only
      if it is covered. */
  lemma SettleDecides(db: Db, id: string)
    requires Backed(db) && Exact(db)
    requires id in db.ledger && db.ledger[id].status == Pending && ShapedRow(db.ledger[id])
    ensures BackedRow(db.accounts, db.ledger[id])
    ensures var r := db.ledger[id]; Settle(db, id, VisitOrder(r.kind, r.from, r.to)).1.Ok? <==> Covered(db, r)
  {
    var r := db.ledger[id];
    var visit, ledger := VisitOrder(r.kind, r.from, r.to), Flipped(db.ledger, id);
    assert BackedRow(db.accounts, r);
    VisitOrderCovers(r.kind, r.from, r.to);
    NoRefusal(db.accounts, ledger, visit);
    SumsAfterFlip(db, id, r.from);
    SumsAfterFlip(db, id, r.to);
    assert r.from in visit && r.to in visit;
  }

  /** A settled row moves exactly its two ends, by the amount, and leaves every other record alone;
      a refused one changes nothing. */
  lemma SettleMovesMoney(db: Db, id: string)
    requires Backed(db) && Exact(db)
    requires id in db.ledger && db.ledger[id].status == Pending && ShapedRow(db.ledger[id])
    ensures var r := db.ledger[id];
            var (db', result) := Settle(db, id, VisitOrder(r.kind, r.from, r.to));
            && (result.Err? ==> db' == db)
            && (result.Ok? ==> Exact(db') && Backed(db') && db' == AfterMove(db, id))
  {
    var r := db.ledger[id];
    var visit := VisitOrder(r.kind, r.from, r.to);
    var (db', result) := Settle(db, id, visit);
    VisitOrderCovers(r.kind, r.from, r.to);
    if result.Ok? {
      assert r.from in visit && r.to in visit;
      SettleExactness(db, id, visit);
      SettleKeepsBacked(db, id, visit);
      forall a | a in db.accounts ensures db'.accounts[a] == AfterMove(db, id).accounts[a] {
        assert ExactAt(db', a);
        SumsAfterFlip(db, id, a);
      }
    }
  }

  /** Redelivery: creating and settling an id that has been settled changes nothing and reports the row. */
  lemma RedeliveryIsIdempotent(db: Db, id: string, kind: Kind, from: string, to: string, currency: string, amount: int)
    ensures var visit := VisitOrder(kind, from, to);
            var (db1, created) := CreatePending(db, id, kind, from, to, currency, amount);
            var (db2, settled) := Settle(db1, id, visit);
            created.Ok? && settled.Ok? ==>
              && CreatePending(db2, id, kind, from, to, currency, amount) == (db2, Ok(()))
              && Settle(db2, id, visit) == (db2, settled)
  {
  }

  // ---------- UpdateTransactionStatus ----------

  /** The status write has no guard on the status it replaces. */
  function SetStatus(db: Db, id: string, status: Status): (Db, Result<()>)
  {
    if id !in db.ledger then (db, Err(NoSuchTransaction))
    else (db.(ledger := db.ledger[id := db.ledger[id].(status := status)]), Ok(()))
  }

  /** A status write that neither completes an uncompleted row nor undoes a completed one. */
  predicate NeutralStatus(db: Db, id: string, status: Status)
  {
    id in db.ledger ==> (db.ledger[id].status == Completed <==> status == Completed)
  }

  /** Because it is unguarded, a status write keeps the cache exact if and only if it is neutral. */
  lemma SetStatusExactness(db: Db, id: string, status: Status)
    requires Backed(db) && Exact(db)
    ensures Exact(SetStatus(db, id, status).0) <==> NeutralStatus(db, id, status)
  {
    if id in db.ledger {
      var r := db.ledger[id];
      var r' := r.(status := status);
      var db' := SetStatus(db, id, status).0;
      assert BackedRow(db.accounts, r);
      if NeutralStatus(db, id, status) {
        NeutralStatusKeepsSums(db, id, status);
        SameSums(db, db');
      } else {
        WriteRow(db.ledger, id, r', r.from);
        LegNonZero(r, r.from);
        LegNonZero(r', r.from);
        assert ExactAt(db, r.from) && !ExactAt(db', r.from);
      }
    }
  }

  lemma SetStatusKeepsBacked(db: Db, id: string, status: Status)
    requires Backed(db)
    ensures Backed(SetStatus(db, id, status).0)
  {
    var db' := SetStatus(db, id, status).0;
    forall x | x in db'.ledger ensures BackedRow(db'.accounts, db'.ledger[x]) {
      assert BackedRow(db.accounts, db.ledger[x]);
    }
  }

  lemma NeutralStatusKeepsSums(db: Db, id: string, status: Status)
    requires NeutralStatus(db, id, status)
    ensures forall a :: LedgerSum(SetStatus(db, id, status).0.ledger, a) == LedgerSum(db.ledger, a)
  {
    if id in db.ledger {
      forall a ensures LedgerSum(SetStatus(db, id, status).0.ledger, a) == LedgerSum(db.ledger, a) {
        WriteRow(db.ledger, id, db.ledger[id].(status := status), a);
      }
    }
  }

  // ---------- conservation ----------

  ghost function BalanceOf(db: Db): string -> int
  {
    a => if a in db.accounts then db.accounts[a].balance else 0
  }

  ghost function TotalBalance(db: Db): int
  {
    Sum(db.accounts.Keys, BalanceOf(db))
  }

  /** What one row adds to the money held by all accounts together. */
  function Net(r: Row): int
  {
    if r.status != Completed then 0
    else match r.kind
      case Deposit => r.amount
      case Withdrawal => -r.amount
      case Transfer => 0
  }

  ghost function Nets(ledger: map<string, Row>): string -> int
  {
    id => if id in ledger then Net(ledger[id]) else 0
  }

  /** Completed deposits minus completed withdrawals. */
  ghost function NetInflow(ledger: map<string, Row>): int
  {
    Sum(ledger.Keys, Nets(ledger))
  }

  /** Over any set of accounts holding both ends, one row's contributions add up to its net inflow. */
  lemma RowTotal(accounts: set<string>, r: Row, f: string -> int)
    requires r.from in accounts && r.to in accounts && ShapedRow(r)
    requires forall a <- accounts :: f(a) == Leg(r, a)
    ensures Sum(accounts, f) == Net(r)
  {
    var ends := {r.from, r.to};
    SumSupport(accounts, ends, f);
    SumTake(ends, f, r.from);
    if r.from == r.to {
      assert ends - {r.from} == {};
    } else {
      assert ends - {r.from} == {r.to};
      SumTake({r.to}, f, r.to);
      assert {r.to} - {r.to} == {};
    }
  }

  /** All balances together equal completed deposits minus completed withdrawals. */
  lemma Conservation(db: Db)
    requires Backed(db) && AllShaped(db) && Exact(db)
    ensures TotalBalance(db) == NetInflow(db.ledger)
  {
    var f := (a: string) => Legs(db.ledger, a);
    var g := (id: string) => (a: string) => Legs(db.ledger, a)(id);
    forall a | a in db.accounts.Keys ensures BalanceOf(db)(a) == Sum(db.ledger.Keys, f(a)) {
      assert ExactAt(db, a);
    }
    forall id | id in db.ledger.Keys ensures Nets(db.ledger)(id) == Sum(db.accounts.Keys, g(id)) {
      assert BackedRow(db.accounts, db.ledger[id]) && ShapedRow(db.ledger[id]);
      RowTotal(db.accounts.Keys, db.ledger[id], g(id));
    }
    SumExchange(db.accounts.Keys, db.ledger.Keys, f, g, BalanceOf(db), Nets(db.ledger));
  }

  /** A settled transfer leaves the total alone; a deposit adds and a withdrawal removes its amount. */
  lemma SettleChangesTotalByNet(db: Db, id: string)
    requires Backed(db) && AllShaped(db) && Exact(db)
    requires id in db.ledger && db.ledger[id].status == Pending
    ensures var r := db.ledger[id];
            var (db', result) := Settle(db, id, VisitOrder(r.kind, r.from, r.to));
            TotalBalance(db') == TotalBalance(db) + if result.Ok? then Net(r.(status := Completed)) else 0
  {
    var r := db.ledger[id];
    var (db', result) := Settle(db, id, VisitOrder(r.kind, r.from, r.to));
    assert ShapedRow(r);
    SettleMovesMoney(db, id);
    if result.Ok? {
      forall x | x in db'.ledger ensures ShapedRow(db'.ledger[x]) {
        assert ShapedRow(db.ledger[x]);
      }
      Conservation(db);
      Conservation(db');
      assert db'.ledger.Keys == db.ledger.Keys;
      SumChange(db.ledger.Keys, Nets(db.ledger), Nets(db'.ledger), id);
    }
  }
}
