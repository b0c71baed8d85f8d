/** Interleaved handlers keep every balance exact: what an open transaction has summed and buffered is still
    right when it commits, because it holds the locks of the accounts involved. */
module LedgerSafety {
  import Sums
  import opened Ids
  import opened Ledger
  import opened Service
  import opened Interleaving

  /** The accounts, in visiting order, whose locks the handler's open transaction has taken. */
  function LockedCount(c: Proc): nat
  {
    match c.pc
    case LockAccount(k) => k
    case SumRows(k) => k + 1
    case Write(k, _) => k + 1
    case _ => |Visit(c.job)|
  }

  /** The accounts whose new balance it has buffered. */
  function WrittenCount(c: Proc): nat
  {
    match c.pc
    case LockAccount(k) => k
    case SumRows(k) => k
    case Write(k, _) => k
    case _ => |Visit(c.job)|
  }

  /** The ledger as the handler's open transaction sees it. */
  function OwnView(db: Db, c: Proc): map<string, Row>
    requires c.job.id in db.ledger
  {
    Flipped(db.ledger, c.job.id)
  }

  ghost predicate RightSum(db: Db, c: Proc, a: string, sum: int)
    requires c.job.id in db.ledger
  {
    0 <= sum == LedgerSum(OwnView(db, c), a) <= INT64_MAX
  }

  /** An open funds transaction holds its accounts, and what it buffered is what a sum would return now. */
  ghost predicate MoneyProc(s: State, p: nat)
    requires p in s.procs && ProcInv(s, p)
  {
    var c := s.procs[p];
    c.flipped ==>
      && LockedCount(c) <= |Visit(c.job)| && WrittenCount(c) <= |Visit(c.job)|
      && (forall a <- Visit(c.job)[..LockedCount(c)] :: AccountLock(a) in s.owner && s.owner[AccountLock(a)] == p)
      && (forall a :: a in c.writes <==> a in Visit(c.job)[..WrittenCount(c)])
      && (forall a <- c.writes :: RightSum(s.db, c, a, c.writes[a]))
      && (c.pc.Write? ==> RightSum(s.db, c, Visit(c.job)[c.pc.k], c.pc.sum))
  }

  ghost predicate MoneyInv(s: State)
  {
    && GeneralInv(s)
    && Backed(s.db) && AllShaped(s.db) && Exact(s.db)
    && (forall p {:trigger MoneyProc(s, p)} | p in s.procs :: ProcInv(s, p) && MoneyProc(s, p))
  }

  /** Status writes that neither complete an uncompleted row nor undo a completed one. */
  ghost predicate NeutralAct(s: State, act: Act)
  {
    act.Advance? && act.p in s.procs && s.procs[act.p].pc.Mark? ==>
      NeutralStatus(s.db, s.procs[act.p].job.id, s.procs[act.p].pc.status)
  }

  /** A write to another row is invisible in this handler's view of `a` if the row contributes to `a` what it did. */
  lemma ViewUnmoved(ledger: map<string, Row>, id: string, other: string, r: Row, a: string)
    requires id in ledger && other != id
    requires Leg(r, a) == if other in ledger then Leg(ledger[other], a) else 0
    ensures LedgerSum(Flipped(ledger[other := r], id), a) == LedgerSum(Flipped(ledger, id), a)
  {
    assert Flipped(ledger[other := r], id) == Flipped(ledger, id)[other := r];
    WriteRow(Flipped(ledger, id), other, r, a);
  }

  lemma MoneyFrame(s: State, s': State, q: nat)
    requires q in s.procs && ProcInv(s, q) && MoneyProc(s, q)
    requires q in s'.procs && s'.procs[q] == s.procs[q] && ProcInv(s', q)
    requires forall l <- s.owner :: s.owner[l] == q ==> l in s'.owner && s'.owner[l] == q
    requires s.procs[q].flipped ==>
               forall a :: AccountLock(a) in s.owner && s.owner[AccountLock(a)] == q ==>
                 LedgerSum(OwnView(s'.db, s.procs[q]), a) == LedgerSum(OwnView(s.db, s.procs[q]), a)
    ensures MoneyProc(s', q)
  {
    var c := s.procs[q];
    if c.flipped {
      var v := Visit(c.job);
      forall a | a in c.writes ensures RightSum(s'.db, c, a, c.writes[a]) {
        assert RightSum(s.db, c, a, c.writes[a]);
        assert a in v[..LockedCount(c)];
      }
      if c.pc.Write? {
        assert v[c.pc.k] in v[..LockedCount(c)];
      }
    }
  }

  /** The buffered balances are those a reconciliation would write now, and it would not refuse. */
  lemma BufferedIsRight(s: State, p: nat)
    requires MoneyInv(s) && p in s.procs && s.procs[p].pc.Commit? && s.procs[p].flipped
    ensures ProcInv(s, p)
    ensures var c := s.procs[p];
            && FirstRefusal(s.db.accounts, OwnView(s.db, c), Visit(c.job)).None?
            && Credited(s.db.accounts, c.writes) == Rebalanced(s.db.accounts, OwnView(s.db, c), Visit(c.job))
  {
    hide LocksInv, Exact, AllShaped, CreatePending, SetStatus, Admitted, AppliedOnce, Agrees;
    assert ProcInv(s, p) && MoneyProc(s, p);
    var c := s.procs[p];
    var v := Visit(c.job);
    assert v[..|v|] == v;
    forall a | a in v ensures a in s.db.accounts && 0 <= LedgerSum(OwnView(s.db, c), a) <= INT64_MAX {
      var k :| 0 <= k < |v| && v[k] == a;
      VisitedExist(s, p, k);
      assert RightSum(s.db, c, a, c.writes[a]);
    }
    NoRefusal(s.db.accounts, OwnView(s.db, c), v);
    forall a | a in s.db.accounts
      ensures Credited(s.db.accounts, c.writes)[a] == Rebalanced(s.db.accounts, OwnView(s.db, c), v)[a]
    {
      assert a in v ==> RightSum(s.db, c, a, c.writes[a]);
    }
  }

  /** Committing a funds transaction does to the tables exactly what the atomic operation would do now. */
  lemma CommitRefinesSettle(s: State, p: nat)
    requires MoneyInv(s) && p in s.procs && s.procs[p].pc.Commit?
    ensures var job := s.procs[p].job;
            var (db, r) := Settle(s.db, job.id, Visit(job));
            && r.Ok? && db == Advanced(s, p).db
            && (s.procs[p].flipped ==> r.value.status == Completed)
  {
    hide LedgerSum, LocksInv, Exact, Backed, AllShaped, CreatePending, SetStatus, Admitted, AppliedOnce, Agrees;
    hide Credited, Rebalanced, FirstRefusal;
    assert ProcInv(s, p);
    if s.procs[p].flipped {
      BufferedIsRight(s, p);
    }
  }

  /** When reconciliation refuses, the atomic operation would refuse now, too: the rollback hides nothing. */
  lemma RefusalRefinesSettle(s: State, p: nat)
    requires MoneyInv(s) && p in s.procs && (s.procs[p].pc.SumRows? || s.procs[p].pc.Write?)
    requires Advanced(s, p).procs[p].pc.Mark?
    ensures var job := s.procs[p].job; Settle(s.db, job.id, Visit(job)).1.Err?
    ensures Advanced(s, p).db == s.db
  {
    hide LocksInv, Exact, AllShaped, CreatePending, SetStatus, Admitted, Credited, AppliedOnce;
    assert ProcInv(s, p) && MoneyProc(s, p);
    var c := s.procs[p];
    var v := Visit(c.job);
    assert BackedRow(s.db.accounts, s.db.ledger[c.job.id]);
    VisitOrderCovers(c.job.kind, c.job.from, c.job.to);
    assert v[c.pc.k] in v && v[c.pc.k] in s.db.accounts;
    NoRefusal(s.db.accounts, OwnView(s.db, c), v);
  }

  /** A completed row of one handler touches no account another handler has locked. */
  lemma CommitLeavesOthersAlone(s: State, p: nat, q: nat, a: string)
    requires MoneyInv(s) && p in s.procs && q in s.procs && p != q
    requires s.procs[p].pc.Commit? && s.procs[p].flipped
    requires AccountLock(a) in s.owner && s.owner[AccountLock(a)] == q
    ensures a !in {s.procs[p].job.from, s.procs[p].job.to}
  {
    assert ProcInv(s, p) && MoneyProc(s, p);
    var job := s.procs[p].job;
    VisitOrderCovers(job.kind, job.from, job.to);
    assert Visit(job)[..|Visit(job)|] == Visit(job);
  }

  /** An insert or a neutral status write replaces a row by one that contributes the same. */
  lemma OthersRowsNeutral(s: State, p: nat, a: string)
    requires MoneyInv(s) && Enabled(s, Advance(p)) && NeutralAct(s, Advance(p)) && !s.procs[p].pc.Commit?
    requires Advanced(s, p).db.ledger != s.db.ledger
    ensures var id, ledger' := s.procs[p].job.id, Advanced(s, p).db.ledger;
            && id in ledger' && ledger' == s.db.ledger[id := ledger'[id]]
            && Leg(ledger'[id], a) == if id in s.db.ledger then Leg(s.db.ledger[id], a) else 0
  {
    hide LocksInv, Exact, Backed, AllShaped, Credited, Admitted, AppliedOnce, LedgerSum, ProcInv, MoneyProc, Agrees;
  }

  /** No step of another handler moves a sum this handler has locked, in this handler's view. */
  lemma OthersViewKept(s: State, act: Act, q: nat, a: string)
    requires MoneyInv(s) && Enabled(s, act) && NeutralAct(s, act)
    requires q in s.procs && s.procs[q].flipped
    requires act.Advance? || act.Fail? || act.Crash?
    requires q != act.p
    requires AccountLock(a) in s.owner && s.owner[AccountLock(a)] == q
    ensures ProcInv(s, q) && s.procs[q].job.id in Next(s, act).db.ledger
    ensures LedgerSum(OwnView(Next(s, act).db, s.procs[q]), a) == LedgerSum(OwnView(s.db, s.procs[q]), a)
  {
    hide LocksInv, Exact, Backed, AllShaped, Credited, Admitted, AppliedOnce, LedgerSum, MoneyProc, NeutralAct;
    assert ProcInv(s, q) && ProcInv(s, act.p);
    var c, id := s.procs[act.p], s.procs[q].job.id;
    var ledger' := Next(s, act).db.ledger;
    if ledger' != s.db.ledger {
      if c.pc.Commit? {
        CommitLeavesOthersAlone(s, act.p, q, a);
      } else {
        OthersRowsNeutral(s, act.p, a);
      }
      ViewUnmoved(s.db.ledger, id, c.job.id, ledger'[c.job.id], a);
    }
  }

  lemma OthersMoneyKept(s: State, act: Act, q: nat)
    requires MoneyInv(s) && Enabled(s, act) && NeutralAct(s, act)
    requires act.Advance? || act.Fail? || act.Crash?
    requires q in s.procs && q != act.p
    ensures var s' := Next(s, act); q in s'.procs && ProcInv(s', q) && MoneyProc(s', q)
  {
    hide LedgerSum, Agrees, LocksInv, Exact, Backed, AllShaped;
    var s' := Next(s, act);
    assert ProcInv(s, q) && MoneyProc(s, q);
    OtherProcsKept(s, act, q);
    LocksStepHolds(s, act);
    if s.procs[q].flipped {
      forall a | AccountLock(a) in s.owner && s.owner[AccountLock(a)] == q
        ensures LedgerSum(OwnView(s'.db, s.procs[q]), a) == LedgerSum(OwnView(s.db, s.procs[q]), a)
      {
        OthersViewKept(s, act, q, a);
      }
    }
    MoneyFrame(s, s', q);
  }

  /** The visited accounts of a row in the ledger exist. */
  lemma VisitedExist(s: State, p: nat, k: nat)
    requires p in s.procs && ProcInv(s, p) && PastInsert(s.procs[p].pc) && Backed(s.db)
    requires k < |Visit(s.procs[p].job)|
    ensures Visit(s.procs[p].job)[k] in s.db.accounts
  {
    var job := s.procs[p].job;
    assert BackedRow(s.db.accounts, s.db.ledger[job.id]);
    VisitOrderCovers(job.kind, job.from, job.to);
    assert Visit(job)[k] in Visit(job);
  }

  lemma LockKeepsMoney(s: State, p: nat)
    requires MoneyInv(s) && Enabled(s, Advance(p))
    requires s.procs[p].pc.LockAccount?
    requires p in Advanced(s, p).procs && ProcInv(Advanced(s, p), p)
    ensures MoneyProc(Advanced(s, p), p)
  {
    hide LedgerSum, LocksInv, Exact, AllShaped, Backed, Agrees, CreatePending, SetStatus, Credited, Admitted, Ordered;
    var s', c := Advanced(s, p), s.procs[p];
    assert ProcInv(s, p) && MoneyProc(s, p);
    var v, k := Visit(c.job), c.pc.k;
    VisitedExist(s, p, k);
    assert v[..k + 1] == v[..k] + [v[k]];
    assert s'.owner == s.owner[AccountLock(v[k]) := p];
    forall a | a in c.writes ensures RightSum(s'.db, c, a, c.writes[a]) {
      assert RightSum(s.db, c, a, c.writes[a]);
    }
  }

  lemma SumKeepsMoney(s: State, p: nat)
    requires MoneyInv(s) && Enabled(s, Advance(p))
    requires s.procs[p].pc.SumRows?
    requires p in Advanced(s, p).procs && ProcInv(Advanced(s, p), p)
    ensures MoneyProc(Advanced(s, p), p)
  {
    hide LedgerSum, Agrees, LocksInv, Exact, Backed, AllShaped;
    var s', c := Advanced(s, p), s.procs[p];
    assert ProcInv(s, p) && MoneyProc(s, p);
    forall a | a in c.writes ensures RightSum(s'.db, c, a, c.writes[a]) {
      assert RightSum(s.db, c, a, c.writes[a]);
    }
  }

  lemma WriteKeepsMoney(s: State, p: nat)
    requires MoneyInv(s) && Enabled(s, Advance(p))
    requires s.procs[p].pc.Write?
    requires p in Advanced(s, p).procs && ProcInv(Advanced(s, p), p)
    ensures MoneyProc(Advanced(s, p), p)
  {
    hide LedgerSum, Agrees, LocksInv, Exact, Backed, AllShaped;
    var s', c := Advanced(s, p), s.procs[p];
    assert ProcInv(s, p) && MoneyProc(s, p);
    var v, k := Visit(c.job), c.pc.k;
    if v[k] in s.db.accounts {
      var c' := s'.procs[p];
      assert v[..k + 1] == v[..k] + [v[k]];
      assert v[..|v|] == v;
      assert c'.writes == c.writes[v[k] := c.pc.sum];
      assert LockedCount(c') == WrittenCount(c') == k + 1;
      forall a | a in c'.writes ensures RightSum(s'.db, c', a, c'.writes[a]) {
        assert RightSum(s.db, c, v[k], c.pc.sum);
        assert a in c.writes ==> RightSum(s.db, c, a, c.writes[a]);
      }
    }
  }

  lemma OwnMoneyKept(s: State, p: nat)
    requires MoneyInv(s) && Enabled(s, Advance(p))
    ensures var s' := Advanced(s, p); p in s'.procs && ProcInv(s', p) && MoneyProc(s', p)
  {
    hide LedgerSum, Agrees, LocksInv, Exact, Backed, AllShaped;
    var s', c := Advanced(s, p), s.procs[p];
    assert s' == Next(s, Advance(p));
    assert ProcInv(s, p) && MoneyProc(s, p);
    OwnProcKept(s, Advance(p));
    match c.pc {
      case LockAccount(_) => LockKeepsMoney(s, p);
      case SumRows(_) => SumKeepsMoney(s, p);
      case Write(_, _) => WriteKeepsMoney(s, p);
      case ReadRow =>
        if c.flipped {
          forall a | a in c.writes ensures RightSum(s'.db, c, a, c.writes[a]) {
            assert RightSum(s.db, c, a, c.writes[a]);
          }
        }
      case Flip =>
        assert c.writes == map[];
        assert |Visit(c.job)| > 0;
      case _ =>
    }
  }

  ghost predicate SoundTables(db: Db)
  {
    Backed(db) && AllShaped(db) && Exact(db)
  }

  lemma NobodysSum(ledger: map<string, Row>, a: string)
    requires forall id <- ledger :: Leg(ledger[id], a) == 0
    ensures LedgerSum(ledger, a) == 0
  {
    Sums.SumZero(ledger.Keys, Legs(ledger, a));
  }

  /** The foreign keys guarantee that a new account starts without rows, so its zero balance is exact. */
  lemma OpeningKeepsTables(db: Db, a: string, account: Account)
    requires SoundTables(db) && a !in db.accounts && account.balance == 0
    ensures SoundTables(db.(accounts := db.accounts[a := account]))
  {
    var db' := db.(accounts := db.accounts[a := account]);
    forall id | id in db'.ledger
      ensures BackedRow(db'.accounts, db'.ledger[id]) && ShapedRow(db'.ledger[id]) && Leg(db.ledger[id], a) == 0
    {
      assert BackedRow(db.accounts, db.ledger[id]) && ShapedRow(db.ledger[id]);
    }
    NobodysSum(db.ledger, a);
    forall b | b in db'.accounts ensures ExactAt(db', b) {
      assert b != a ==> ExactAt(db, b);
    }
  }

  lemma StatusKeepsShapes(db: Db, id: string, status: Status)
    requires AllShaped(db)
    ensures AllShaped(SetStatus(db, id, status).0)
  {
    var db' := SetStatus(db, id, status).0;
    forall x | x in db'.ledger ensures ShapedRow(db'.ledger[x]) {
      assert ShapedRow(db.ledger[x]);
    }
  }

  lemma TablesKept(s: State, act: Act)
    requires MoneyInv(s) && Enabled(s, act) && NeutralAct(s, act)
    ensures SoundTables(Next(s, act).db)
  {
    match act
    case Open(a, user, currency) => OpeningKeepsTables(s.db, a, Account(user, 0, currency));
    case Advance(p) =>
      assert ProcInv(s, p);
      var c := s.procs[p];
      var job := c.job;
      if c.pc.Insert? {
        CreatePendingKeepsSums(s.db, job.id, job.kind, job.from, job.to, c.currency, job.amount);
        CreatePendingKeepsRows(s.db, job.id, job.kind, job.from, job.to, c.currency, job.amount);
      } else if c.pc.Commit? && c.flipped {
        CommitRefinesSettle(s, p);
        assert ShapedRow(s.db.ledger[job.id]);
        SettleMovesMoney(s.db, job.id);
        StatusKeepsShapes(s.db, job.id, Completed);
        assert SetStatus(s.db, job.id, Completed).0.ledger == Advanced(s, p).db.ledger;
        forall x | x in Advanced(s, p).db.ledger ensures ShapedRow(Advanced(s, p).db.ledger[x]) {
          assert ShapedRow(SetStatus(s.db, job.id, Completed).0.ledger[x]);
        }
      } else if c.pc.Mark? {
        SetStatusExactness(s.db, job.id, c.pc.status);
        SetStatusKeepsBacked(s.db, job.id, c.pc.status);
        StatusKeepsShapes(s.db, job.id, c.pc.status);
      }
    case _ =>
  }

  lemma MoneyProcArrival(s: State, act: Act, q: nat)
    requires MoneyInv(s) && Enabled(s, act)
    requires act.Arrive? || act.Open?
    requires q in Next(s, act).procs && ProcInv(Next(s, act), q)
    ensures MoneyProc(Next(s, act), q)
  {
    if q in s.procs {
      assert ProcInv(s, q) && MoneyProc(s, q);
      MoneyFrame(s, Next(s, act), q);
    }
  }

  /** Every step keeps every balance exact, unless it is a status write that is not neutral. */
  lemma MoneyInvKept(s: State, act: Act)
    requires MoneyInv(s) && Enabled(s, act) && NeutralAct(s, act)
    ensures MoneyInv(Next(s, act))
  {
    hide LedgerSum, Agrees, LocksInv, Exact, Backed, AllShaped, ProcInv;
    var s' := Next(s, act);
    GeneralInvKept(s, act);
    TablesKept(s, act);
    forall q | q in s'.procs ensures ProcInv(s', q) && MoneyProc(s', q) {
      assert ProcInv(s', q);
      if act.Arrive? || act.Open? {
        MoneyProcArrival(s, act, q);
      } else if q != act.p {
        LocksStepHolds(s, act);
        OthersMoneyKept(s, act, q);
      } else if act.Advance? {
        OwnMoneyKept(s, q);
      }
    }
  }

  /** ... and such a status write always breaks them. */
  lemma MoneyBreaksExactly(s: State, act: Act)
    requires MoneyInv(s) && Enabled(s, act)
    ensures Exact(Next(s, act).db) <==> NeutralAct(s, act)
  {
    if NeutralAct(s, act) {
      TablesKept(s, act);
    } else {
      var c := s.procs[act.p];
      SetStatusExactness(s.db, c.job.id, c.pc.status);
    }
  }
}
