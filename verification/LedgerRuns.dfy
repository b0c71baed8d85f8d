/** Theorems about whole runs: exact balances, serial equivalence, at-most-once settlement, no deadlock,
    bounded work, and what each handler's outcome means. */
module LedgerRuns {
  import Sums
  import opened Ids
  import opened Ledger
  import opened Service
  import opened Interleaving
  import opened LedgerSafety

  // ---------- theorems about whole runs ----------

  lemma InitialInv(s: State)
    requires Initial(s)
    ensures GeneralInv(s)
    ensures SoundTables(s.db) ==> MoneyInv(s)
  {
    assert forall id :: AppliedOnce(s, id);
  }

  /** The locks and program points are in order in every run, duplicates, failures and crashes included. */
  lemma {:induction false} AlwaysGeneral(s: State, acts: seq<Act>)
    requires Initial(s) && Runs(s, acts)
    ensures GeneralInv(After(s, acts))
    decreases |acts|
  {
    InitialInv(s);
    if acts != [] {
      AlwaysGeneral(s, acts[..|acts| - 1]);
      GeneralInvKept(After(s, acts[..|acts| - 1]), acts[|acts| - 1]);
    }
  }

  /** At most once: however often an id is delivered, retried, failed or re-marked, it is settled at most once. */
  lemma AppliedAtMostOnce(s: State, acts: seq<Act>, id: string)
    requires Initial(s) && Runs(s, acts)
    ensures Applications(After(s, acts).log, id) <= 1
  {
    AlwaysGeneral(s, acts);
    assert AppliedOnce(After(s, acts), id);
  }

  /** Every status write of the run is neutral. */
  ghost predicate NeutralRun(s: State, acts: seq<Act>)
    requires Runs(s, acts)
    decreases |acts|
  {
    acts == [] || (NeutralRun(s, acts[..|acts| - 1]) && NeutralAct(After(s, acts[..|acts| - 1]), acts[|acts| - 1]))
  }

  /** Serial execution of the commits, one atomic operation after the other. */
  ghost function Do(db: Db, e: Entry): Db
  {
    match e
    case Opened(a, user, currency) => db.(accounts := db.accounts[a := Account(user, 0, currency)])
    case Created(job, currency) => CreatePending(db, job.id, job.kind, job.from, job.to, currency, job.amount).0
    case Applied(job, _) => Settle(db, job.id, Visit(job)).0
    case Marked(id, status) => SetStatus(db, id, status).0
  }

  ghost function Replay(db: Db, log: seq<Entry>): Db
  {
    if log == [] then db else Do(Replay(db, log[..|log| - 1]), log[|log| - 1])
  }

  /** One step either leaves the committed tables alone or performs the one atomic operation it logs. */
  lemma StepRefinesAtomic(s: State, act: Act)
    requires MoneyInv(s) && Enabled(s, act)
    ensures var s' := Next(s, act);
            || (s'.log == s.log && s'.db == s.db)
            || (|s'.log| == |s.log| + 1 && s'.log[..|s.log|] == s.log && s'.db == Do(s.db, s'.log[|s.log|]))
  {
    hide LocksInv, Agrees, Exact, Backed, AllShaped;
    if act.Advance? && s.procs[act.p].pc.Commit? {
      CommitRefinesSettle(s, act.p);
    }
  }

  /** The main theorem for runs whose status writes are neutral: at every point each stored balance is the
      non-negative sum of the account's completed rows, money is conserved, and the tables are those of the
      serial execution of the committed operations in commit order. */
  lemma {:induction false} NeutralRunsAreExact(s: State, acts: seq<Act>)
    requires Initial(s) && SoundTables(s.db)
    requires Runs(s, acts) && NeutralRun(s, acts)
    ensures MoneyInv(After(s, acts))
    ensures TotalBalance(After(s, acts).db) == NetInflow(After(s, acts).db.ledger)
    ensures After(s, acts).db == Replay(s.db, After(s, acts).log)
    decreases |acts|
  {
    InitialInv(s);
    if acts != [] {
      var s0 := After(s, acts[..|acts| - 1]);
      NeutralRunsAreExact(s, acts[..|acts| - 1]);
      MoneyInvKept(s0, acts[|acts| - 1]);
      StepRefinesAtomic(s0, acts[|acts| - 1]);
    }
    Conservation(After(s, acts).db);
  }

  /** The committed tables are exact after the first `n` actions. */
  ghost predicate ExactAfter(s: State, acts: seq<Act>, n: nat)
  {
    n <= |acts| && Runs(s, acts[..n]) && Exact(After(s, acts[..n]).db)
  }

  lemma {:induction false} PrefixRuns(s: State, acts: seq<Act>, n: nat)
    requires Runs(s, acts) && n <= |acts|
    ensures Runs(s, acts[..n])
  {
    if n < |acts| {
      var init := acts[..|acts| - 1];
      PrefixRuns(s, init, n);
      assert init[..n] == acts[..n];
    } else {
      assert acts[..n] == acts;
    }
  }

  lemma SoundIsExact(db: Db)
    requires SoundTables(db)
    ensures Exact(db)
  {
  }

  /** The exact condition for whole runs, with any redelivery, overlap, failure and crash: the balances are exact at
      every point if and only if every status write of the run is neutral. */
  lemma {:induction false} RunsExactIff(s: State, acts: seq<Act>)
    requires Initial(s) && SoundTables(s.db) && Runs(s, acts)
    ensures (forall n :: 0 <= n <= |acts| ==> ExactAfter(s, acts, n)) <==> NeutralRun(s, acts)
    decreases |acts|
  {
    hide Exact, NeutralAct, SoundTables, MoneyInv, GeneralInv, Enabled, Next, Initial;
    assert acts[..|acts|] == acts;
    if acts == [] {
      assert Exact(s.db) by { SoundIsExact(s.db); }
      assert ExactAfter(s, acts, 0);
    } else {
      var k, act := |acts| - 1, acts[|acts| - 1];
      var init := acts[..k];
      RunsExactIff(s, init);
      forall n | 0 <= n <= k ensures ExactAfter(s, acts, n) <==> ExactAfter(s, init, n) {
        assert acts[..n] == init[..n];
      }
      if NeutralRun(s, init) {
        NeutralRunsAreExact(s, init);
        MoneyBreaksExactly(After(s, init), act);
        assert ExactAfter(s, acts, k + 1) <==> NeutralAct(After(s, init), act);
      }
    }
  }

  // ---------- no deadlock, and bounded work ----------

  /** Transaction rows come before accounts, accounts in increasing id order. */
  predicate LockLess(l: Lock, m: Lock)
  {
    m.AccountLock? && (l.RowLock? || Less(l.account, m.account))
  }

  lemma LockOrder(l: Lock, m: Lock, n: Lock)
    ensures !LockLess(l, l)
    ensures LockLess(l, m) && LockLess(m, n) ==> LockLess(l, n)
  {
    if l.AccountLock? { LessIrreflexive(l.account); }
    if l.AccountLock? && m.AccountLock? && n.AccountLock? && Less(l.account, m.account) && Less(m.account, n.account) {
      LessTransitive(l.account, m.account, n.account);
    }
  }

  /** A locking statement that is answered leaves the handler with the row it names locked, beside those it had: the
      accounts of a transfer in increasing order before its row is inserted, a pending row before it is completed, and
      an account before its rows are summed. */
  lemma LocksTaken(s: State, p: nat)
    requires Enabled(s, Advance(p)) && ProcInv(s, p)
    requires s.procs[p].pc.CreateLock? || s.procs[p].pc.Flip? || s.procs[p].pc.LockAccount?
    ensures var c, owner' := s.procs[p], Advanced(s, p).owner;
            && (forall l <- s.owner :: l in owner' && owner'[l] == s.owner[l])
            && (c.pc.CreateLock? ==>
                  var a := Ordered(c.job.from, c.job.to)[c.pc.k];
                  a in s.db.accounts ==> AccountLock(a) in owner' && owner'[AccountLock(a)] == p)
            && (c.pc.LockAccount? ==>
                  var a := VisitOrder(c.job.kind, c.job.from, c.job.to)[c.pc.k];
                  a in s.db.accounts ==> AccountLock(a) in owner' && owner'[AccountLock(a)] == p)
            && (c.pc.Flip? && c.job.id in s.db.ledger && s.db.ledger[c.job.id].status == Pending ==>
                  RowLock(c.job.id) in owner' && owner'[RowLock(c.job.id)] == p)
  {
    hide LedgerSum, Agrees, Ordered, VisitOrder;
  }

  /** A handler that waits for a lock holds only smaller ones. */
  lemma HoldsSmaller(s: State, p: nat, l: Lock)
    requires GeneralInv(s) && p in s.procs && Blocked(s, p)
    requires l in s.owner && s.owner[l] == p
    ensures LockLess(l, Wants(s.db, s.procs[p]).value)
  {
    assert ProcInv(s, p);
    var c := s.procs[p];
    OrderedIsSymmetric(c.job.from, c.job.to);
    if c.pc.CreateLock? {
      var order := Ordered(c.job.from, c.job.to);
      assert l in AccountLocks(order[..c.pc.k]);
      assert l.account in order[..c.pc.k];
    } else if l.AccountLock? {
      assert l in AccountLocks(Visit(c.job)[..c.pc.k]);
      assert l.account in Visit(c.job)[..c.pc.k];
    }
  }

  /** Each handler of the chain waits for a lock the next one holds; the last one waits for nothing. */
  ghost predicate WaitChain(s: State, chain: seq<nat>)
  {
    && |chain| > 0
    && (forall i :: 0 <= i < |chain| ==> chain[i] in s.procs && !Finished(s.procs[chain[i]]))
    && (forall i :: 0 <= i < |chain| - 1 ==>
          Blocked(s, chain[i]) && s.owner[Wants(s.db, s.procs[chain[i]]).value] == chain[i + 1])
    && !Blocked(s, chain[|chain| - 1])
  }

  ghost function Above(s: State, l: Lock): set<Lock>
  {
    set m | m in s.owner && LockLess(l, m)
  }

  lemma HoldersAreActive(s: State, l: Lock)
    requires GeneralInv(s) && l in s.owner
    ensures s.owner[l] in s.procs && !Finished(s.procs[s.owner[l]])
  {
  }

  /** No deadlock: the wait-for chain of any blocked handler ends in one that can run. */
  lemma {:induction false} ChainEnds(s: State, p: nat) returns (chain: seq<nat>)
    requires GeneralInv(s) && p in s.procs && Blocked(s, p)
    ensures WaitChain(s, chain) && chain[0] == p
    decreases |Above(s, Wants(s.db, s.procs[p]).value)|
  {
    hide LedgerSum, Agrees, ProcInv, LocksInv;
    var l := Wants(s.db, s.procs[p]).value;
    var q := s.owner[l];
    HoldersAreActive(s, l);
    if Blocked(s, q) {
      var m := Wants(s.db, s.procs[q]).value;
      HoldsSmaller(s, q, l);
      LockOrder(m, m, m);
      forall n | n in Above(s, m) ensures n in Above(s, l) { LockOrder(l, m, n); }
      assert m in Above(s, l) && m !in Above(s, m);
      Sums.SubsetCount(Above(s, m), Above(s, l));
      var rest := ChainEnds(s, q);
      chain := [p] + rest;
    } else {
      chain := [p, q];
    }
  }

  /** In every reachable state, if any handler is unfinished then some handler can take its next statement. */
  lemma SomeoneCanRun(s: State, acts: seq<Act>, p: nat)
    requires Initial(s) && Runs(s, acts)
    requires p in After(s, acts).procs && !Finished(After(s, acts).procs[p])
    ensures exists q :: Enabled(After(s, acts), Advance(q))
  {
    AlwaysGeneral(s, acts);
    var t := After(s, acts);
    if Blocked(t, p) {
      var chain := ChainEnds(t, p);
      assert Enabled(t, Advance(chain[|chain| - 1]));
    } else {
      assert Enabled(t, Advance(p));
    }
  }

  /** Statements a handler can still run, at most. */
  function Rank(pc: Pc): nat
  {
    match pc
    case Start => 15
    case CreateLock(k) => if k == 0 then 14 else 13
    case Insert => 12
    case Guard => 11
    case Flip => 10
    case LockAccount(k) => if k == 0 then 9 else 6
    case SumRows(k) => if k == 0 then 8 else 5
    case Write(k, _) => if k == 0 then 7 else 4
    case ReadRow => 3
    case Commit => 2
    case Mark(_) => 1
    case Done(_) => 0
    case Crashed => 0
  }

  ghost function Ranks(s: State): nat -> int
  {
    p => if p in s.procs then Rank(s.procs[p].pc) else 0
  }

  ghost function Work(s: State): int
  {
    Sums.Sum(s.procs.Keys, Ranks(s))
  }

  lemma RankDropsInFunds(s: State, p: nat)
    requires p in s.procs && ProcInv(s, p) && InFunds(s.procs[p].pc)
    ensures p in Advanced(s, p).procs && Rank(Advanced(s, p).procs[p].pc) < Rank(s.procs[p].pc)
  {
    hide LedgerSum, Agrees;
    assert |Visit(s.procs[p].job)| <= 2;
  }

  lemma RankDropsOutsideFunds(s: State, p: nat)
    requires p in s.procs && ProcInv(s, p) && !InFunds(s.procs[p].pc) && !Finished(s.procs[p])
    ensures p in Advanced(s, p).procs && Rank(Advanced(s, p).procs[p].pc) < Rank(s.procs[p].pc)
  {
    hide LedgerSum, Agrees;
  }

  lemma RankDrops(s: State, act: Act)
    requires GeneralInv(s) && Enabled(s, act)
    requires act.Advance? || act.Fail? || act.Crash?
    ensures act.p in Next(s, act).procs && Rank(Next(s, act).procs[act.p].pc) < Rank(s.procs[act.p].pc)
  {
    hide LedgerSum, Agrees;
    assert ProcInv(s, act.p);
    if act.Advance? {
      if InFunds(s.procs[act.p].pc) { RankDropsInFunds(s, act.p); } else { RankDropsOutsideFunds(s, act.p); }
    }
  }

  /** Every step uses up work, so handlers always come to an end: from any reachable state the handlers
      present take at most `Work` steps, however they interleave, fail or crash. */
  lemma {:induction false} WorkIsBounded(s: State, acts: seq<Act>)
    requires GeneralInv(s) && Runs(s, acts)
    requires forall i :: 0 <= i < |acts| ==> !acts[i].Arrive? && !acts[i].Open?
    ensures GeneralInv(After(s, acts))
    ensures |acts| + Work(After(s, acts)) <= Work(s)
    decreases |acts|
  {
    if acts != [] {
      var act, s0 := acts[|acts| - 1], After(s, acts[..|acts| - 1]);
      WorkIsBounded(s, acts[..|acts| - 1]);
      GeneralInvKept(s0, act);
      LocksStepHolds(s0, act);
      RankDrops(s0, act);
      Sums.SumChange(s0.procs.Keys, Ranks(s0), Ranks(Next(s0, act)), act.p);
    }
  }

  // ---------- one unfinished handler per id ----------

  /** Earlier handlers of the id have crashed or returned, if there are any, and its row is absent or pending. */
  ghost predicate FreshArrival(s: State, act: Act)
  {
    act.Arrive? ==>
      && (forall q <- s.procs :: s.procs[q].job.id == act.job.id ==> Finished(s.procs[q]))
      && (act.job.id in s.db.ledger ==> s.db.ledger[act.job.id].status == Pending)
  }

  ghost predicate FreshRun(s: State, acts: seq<Act>)
    requires Runs(s, acts)
    decreases |acts|
  {
    acts == [] || (FreshRun(s, acts[..|acts| - 1]) && FreshArrival(After(s, acts[..|acts| - 1]), acts[|acts| - 1]))
  }

  /** Settlements committed by handler `p`. */
  function AppliedBy(log: seq<Entry>, p: nat): nat
  {
    if log == [] then 0
    else AppliedBy(log[..|log| - 1], p) + if log[|log| - 1].Applied? && log[|log| - 1].settler == p then 1 else 0
  }

  /** The handler has settled its request, by where it stands. */
  predicate HasSettled(pc: Pc)
  {
    pc == Mark(Completed) || pc == Done(true)
  }

  /** Where a handler stands, what its row says and whether it settled the row go together. */
  ghost predicate OutcomeInv(s: State, p: nat)
    requires p in s.procs
  {
    var c := s.procs[p];
    var id := c.job.id;
    && (!c.pc.Mark? && !Finished(c) ==> (id in s.db.ledger ==> s.db.ledger[id].status == Pending))
    && (c.pc.ReadRow? || c.pc.Commit? ==> c.flipped)
    && (c.pc.Mark? ==> id in s.db.ledger && s.db.ledger[id].status == if c.pc.status == Completed then Completed else Pending)
    && (HasSettled(c.pc) ==> Applications(s.log, id) == 1)
    && (!c.pc.Crashed? ==> AppliedBy(s.log, p) == if HasSettled(c.pc) then 1 else 0)
  }

  ghost predicate FreshInv(s: State)
  {
    && (forall p, q :: p in s.procs && q in s.procs && p != q && s.procs[p].job.id == s.procs[q].job.id ==>
          Finished(s.procs[p]) || Finished(s.procs[q]))
    && (forall p {:trigger OutcomeInv(s, p)} | p in s.procs :: OutcomeInv(s, p))
    && (forall p {:trigger AppliedBy(s.log, p)} :: p !in s.procs ==> AppliedBy(s.log, p) == 0)
  }

  /** Some handler of `id` committed its settlement. */
  ghost predicate SettledBy(s: State, id: string, p: nat)
  {
    p in s.procs && s.procs[p].job.id == id && AppliedBy(s.log, p) >= 1
  }

  /** A handler writes and logs no id but its own. */
  lemma OnlyOwnRow(s: State, act: Act, id: string)
    requires Enabled(s, act)
    requires act.Advance? || act.Fail? || act.Crash?
    requires id != s.procs[act.p].job.id
    ensures id in Next(s, act).db.ledger <==> id in s.db.ledger
    ensures id in s.db.ledger ==> Next(s, act).db.ledger[id] == s.db.ledger[id]
  {
    hide Next, Agrees;
    LedgerAfter(s, act);
  }

  /** The entry a step logs, if it logs one; a settlement is logged by the handler of its request. */
  lemma NewEntry(s: State, act: Act)
    requires Enabled(s, act)
    ensures var log, log' := s.log, Next(s, act).log;
            || log' == log
            || (&& |log'| == |log| + 1 && log' == log + [log'[|log|]]
                && (log'[|log|].Applied? ==> && act.Advance? && log'[|log|].settler == act.p
                                             && log'[|log|].job == s.procs[act.p].job))
  {
    hide LedgerSum, Agrees, Credited, Admitted, CreatePending, SetStatus, Wants, Visit, Release;
  }

  lemma OnlyOwnEntry(s: State, act: Act, id: string, q: nat)
    requires Enabled(s, act)
    ensures act.Arrive? || act.Open? || id != s.procs[act.p].job.id ==>
              Applications(Next(s, act).log, id) == Applications(s.log, id)
    ensures act.Arrive? || act.Open? || q != act.p ==> AppliedBy(Next(s, act).log, q) == AppliedBy(s.log, q)
    ensures Applications(Next(s, act).log, id) >= Applications(s.log, id)
    ensures AppliedBy(Next(s, act).log, q) >= AppliedBy(s.log, q)
    ensures Applications(Next(s, act).log, id) > Applications(s.log, id) ==>
              act.Advance? && s.procs[act.p].job.id == id && AppliedBy(Next(s, act).log, act.p) >= 1
  {
    hide Next, Agrees, Applications, AppliedBy;
    NewEntry(s, act);
    var s' := Next(s, act);
    if s'.log != s.log {
      CountAfter(s.log, s'.log[|s.log|], id, q);
      if act.Advance? { CountAfter(s.log, s'.log[|s.log|], id, act.p); }
    }
  }

  lemma CountAfter(log: seq<Entry>, e: Entry, id: string, q: nat)
    ensures Applications(log + [e], id) == Applications(log, id) + if e.Applied? && e.job.id == id then 1 else 0
    ensures AppliedBy(log + [e], q) == AppliedBy(log, q) + if e.Applied? && e.settler == q then 1 else 0
  {
    assert (log + [e])[..|log|] == log;
  }

  /** While a handler has not marked its row, the row has not been applied. */
  lemma NotYetApplied(s: State, p: nat)
    requires GeneralInv(s) && p in s.procs && OutcomeInv(s, p)
    requires s.procs[p].pc != Mark(Completed) && !Finished(s.procs[p])
    ensures Applications(s.log, s.procs[p].job.id) == 0
  {
    assert AppliedOnce(s, s.procs[p].job.id);
  }

  lemma OutcomeOnLeaving(s: State, act: Act)
    requires GeneralInv(s) && Enabled(s, act)
    requires act.Fail? || act.Crash?
    requires OutcomeInv(s, act.p)
    ensures act.p in Next(s, act).procs && OutcomeInv(Next(s, act), act.p)
  {
    assert ProcInv(s, act.p);
    if s.procs[act.p].pc != Mark(Completed) { NotYetApplied(s, act.p); }
  }

  lemma OutcomeInFunds(s: State, p: nat)
    requires GeneralInv(s) && p in s.procs && OutcomeInv(s, p)
    requires InFunds(s.procs[p].pc)
    ensures p in Advanced(s, p).procs && OutcomeInv(Advanced(s, p), p)
  {
    hide LedgerSum, Agrees, LocksInv, Credited, AppliedOnce, Applications, AppliedBy, Reach;
    assert ProcInv(s, p);
    NotYetApplied(s, p);
    CountAfter(s.log, Applied(s.procs[p].job, p), s.procs[p].job.id, p);
  }

  lemma OutcomeCreating(s: State, p: nat)
    requires GeneralInv(s) && p in s.procs && OutcomeInv(s, p)
    requires s.procs[p].pc.Start? || s.procs[p].pc.CreateLock? || s.procs[p].pc.Insert?
    ensures p in Advanced(s, p).procs && OutcomeInv(Advanced(s, p), p)
  {
    hide LedgerSum, Agrees, LocksInv, Credited, SetStatus, Admitted, AppliedOnce, Applications, AppliedBy, Reach;
    NotYetApplied(s, p);
    CountAfter(s.log, Created(s.procs[p].job, s.procs[p].currency), s.procs[p].job.id, p);
  }

  lemma OutcomeMarking(s: State, p: nat)
    requires GeneralInv(s) && p in s.procs && OutcomeInv(s, p)
    requires s.procs[p].pc.Guard? || s.procs[p].pc.Mark?
    ensures p in Advanced(s, p).procs && OutcomeInv(Advanced(s, p), p)
  {
    hide LedgerSum, Agrees, LocksInv, Credited, CreatePending, AppliedOnce, Applications, AppliedBy, Reach;
    assert ProcInv(s, p);
    var c := s.procs[p];
    if c.pc != Mark(Completed) { NotYetApplied(s, p); }
    if c.pc.Mark? { CountAfter(s.log, Marked(c.job.id, c.pc.status), c.job.id, p); }
  }

  lemma OwnOutcomeKept(s: State, act: Act)
    requires GeneralInv(s) && FreshInv(s) && Enabled(s, act)
    requires act.Advance? || act.Fail? || act.Crash?
    ensures act.p in Next(s, act).procs && OutcomeInv(Next(s, act), act.p)
  {
    assert OutcomeInv(s, act.p);
    if !act.Advance? {
      OutcomeOnLeaving(s, act);
    } else if InFunds(s.procs[act.p].pc) {
      OutcomeInFunds(s, act.p);
    } else {
      var pc := s.procs[act.p].pc;
      if pc.Guard? || pc.Mark? { OutcomeMarking(s, act.p); } else { OutcomeCreating(s, act.p); }
    }
  }

  lemma OtherOutcomeKept(s: State, act: Act, p: nat)
    requires GeneralInv(s) && FreshInv(s) && Enabled(s, act)
    requires act.Advance? || act.Fail? || act.Crash?
    requires p in s.procs && p != act.p
    ensures p in Next(s, act).procs && OutcomeInv(Next(s, act), p)
  {
    assert OutcomeInv(s, p);
    LocksStepHolds(s, act);
    var id := s.procs[p].job.id;
    OnlyOwnEntry(s, act, id, p);
    if Finished(s.procs[p]) {
      AppliedOnceKept(s, act, id);
    } else {
      OnlyOwnRow(s, act, id);
    }
  }

  lemma OutcomeOnArrival(s: State, act: Act, p: nat)
    requires GeneralInv(s) && FreshInv(s) && Enabled(s, act) && FreshArrival(s, act)
    requires act.Arrive? || act.Open?
    requires p in Next(s, act).procs
    ensures OutcomeInv(Next(s, act), p)
  {
    if p in s.procs {
      assert OutcomeInv(s, p);
    }
    OnlyOwnEntry(s, act, Next(s, act).procs[p].job.id, p);
  }

  /** With one unfinished handler per id every status write is neutral. */
  lemma FreshIsNeutral(s: State, act: Act)
    requires GeneralInv(s) && FreshInv(s) && Enabled(s, act)
    ensures NeutralAct(s, act)
  {
    if act.Advance? {
      assert ProcInv(s, act.p) && OutcomeInv(s, act.p);
    }
  }

  lemma OneUnfinishedHandler(s: State, act: Act, p: nat, q: nat)
    requires FreshInv(s) && Enabled(s, act) && FreshArrival(s, act)
    requires act.Advance? || act.Fail? || act.Crash? ==>
               Next(s, act).procs == s.procs[act.p := Next(s, act).procs[act.p]]
               && Next(s, act).procs[act.p].job == s.procs[act.p].job
    requires p in Next(s, act).procs && q in Next(s, act).procs && p != q
    requires Next(s, act).procs[p].job.id == Next(s, act).procs[q].job.id
    ensures Finished(Next(s, act).procs[p]) || Finished(Next(s, act).procs[q])
  {
    hide LedgerSum, Agrees, OutcomeInv, Advanced, RolledBack;
  }

  lemma FreshInvKept(s: State, act: Act)
    requires GeneralInv(s) && FreshInv(s) && Enabled(s, act) && FreshArrival(s, act)
    ensures FreshInv(Next(s, act))
  {
    hide LedgerSum, Agrees, LocksInv, ProcInv, OutcomeInv, AppliedOnce, Advanced, RolledBack, Blocked;
    var s' := Next(s, act);
    if act.Advance? || act.Fail? || act.Crash? {
      LocksStepHolds(s, act);
    }
    forall p | p in s'.procs ensures OutcomeInv(s', p) {
      if act.Open? || act.Arrive? {
        OutcomeOnArrival(s, act, p);
      } else if p == act.p {
        OwnOutcomeKept(s, act);
      } else {
        OtherOutcomeKept(s, act, p);
      }
    }
    forall p, q | p in s'.procs && q in s'.procs && p != q && s'.procs[p].job.id == s'.procs[q].job.id
      ensures Finished(s'.procs[p]) || Finished(s'.procs[q])
    {
      OneUnfinishedHandler(s, act, p, q);
    }
    forall p | p !in s'.procs ensures AppliedBy(s'.log, p) == 0 {
      OnlyOwnEntry(s, act, "", p);
    }
  }

  lemma SettlerKept(s: State, act: Act, id: string)
    requires GeneralInv(s) && Enabled(s, act)
    requires Applications(s.log, id) == 0 || exists p :: SettledBy(s, id, p)
    ensures Applications(Next(s, act).log, id) == 0 || exists p :: SettledBy(Next(s, act), id, p)
  {
    hide Agrees, LocksInv, ProcInv, AppliedOnce, Advanced, RolledBack, Applications, AppliedBy;
    var s' := Next(s, act);
    if act.Advance? || act.Fail? || act.Crash? {
      LocksStepHolds(s, act);
    }
    if Applications(s.log, id) > 0 {
      var p :| SettledBy(s, id, p);
      OnlyOwnEntry(s, act, id, p);
      assert SettledBy(s', id, p);
    } else if Applications(s'.log, id) > 0 {
      OnlyOwnEntry(s, act, id, 0);
      assert SettledBy(s', id, act.p);
    }
  }

  /** In every run, a settled id was settled by one of its handlers. */
  lemma {:induction false} SettledBySomeone(s: State, acts: seq<Act>, id: string)
    requires Initial(s) && Runs(s, acts)
    ensures Applications(After(s, acts).log, id) == 0 || exists p :: SettledBy(After(s, acts), id, p)
    decreases |acts|
  {
    if acts != [] {
      var init := acts[..|acts| - 1];
      SettledBySomeone(s, init, id);
      AlwaysGeneral(s, init);
      SettlerKept(After(s, init), acts[|acts| - 1], id);
    }
  }

  /** The contributions of the settled requests to account `a`. */
  function AppliedLegs(log: seq<Entry>, a: string): int
  {
    if log == [] then 0
    else
      var e := log[|log| - 1];
      AppliedLegs(log[..|log| - 1], a)
      + if e.Applied? then Leg(Row(e.job.kind, e.job.from, e.job.to, e.job.amount, "", Completed), a) else 0
  }

  lemma LegsAfter(log: seq<Entry>, e: Entry, a: string)
    ensures AppliedLegs(log + [e], a)
         == AppliedLegs(log, a)
         + if e.Applied? then Leg(Row(e.job.kind, e.job.from, e.job.to, e.job.amount, "", Completed), a) else 0
  {
    assert (log + [e])[..|log|] == log;
  }

  lemma CommitAfter(s: State, p: nat)
    requires p in s.procs && ProcInv(s, p) && s.procs[p].pc.Commit? && s.procs[p].flipped
    ensures var s', job := Advanced(s, p), s.procs[p].job;
            && s'.log == s.log + [Applied(job, p)]
            && job.id in s.db.ledger && s'.db.ledger == Flipped(s.db.ledger, job.id)
            && s.db.ledger[job.id].status == Pending && Fits(job, s.db.ledger[job.id])
  {
    hide Credited, Release;
  }

  lemma SettledLeg(r: Row, a: string)
    ensures Leg(r.(status := Completed), a) == Leg(Row(r.kind, r.from, r.to, r.amount, "", Completed), a)
    ensures r.status != Completed ==> Leg(r, a) == 0
  {
  }

  lemma CommitMovesSums(s: State, p: nat, a: string)
    requires p in s.procs && ProcInv(s, p) && s.procs[p].pc.Commit?
    ensures var s' := Advanced(s, p);
            LedgerSum(s'.db.ledger, a) - LedgerSum(s.db.ledger, a) == AppliedLegs(s'.log, a) - AppliedLegs(s.log, a)
  {
    hide Credited, Release, LedgerSum, Leg, Agrees, AppliedLegs;
    var job := s.procs[p].job;
    if s.procs[p].flipped {
      hide Advanced;
      CommitAfter(s, p);
      SettledLeg(s.db.ledger[job.id], a);
      LegsAfter(s.log, Applied(job, p), a);
      WriteRow(s.db.ledger, job.id, s.db.ledger[job.id].(status := Completed), a);
    }
  }

  lemma InsertMovesNoSum(s: State, p: nat, a: string)
    requires p in s.procs && s.procs[p].pc.Insert?
    ensures var s' := Advanced(s, p);
            LedgerSum(s'.db.ledger, a) == LedgerSum(s.db.ledger, a) && AppliedLegs(s'.log, a) == AppliedLegs(s.log, a)
  {
    hide CreatePending;
    var c := s.procs[p];
    CreatePendingKeepsSums(s.db, c.job.id, c.job.kind, c.job.from, c.job.to, c.currency, c.job.amount);
    LegsAfter(s.log, Created(c.job, c.currency), a);
  }

  lemma MarkMovesNoSum(s: State, p: nat, a: string)
    requires p in s.procs && s.procs[p].pc.Mark? && NeutralAct(s, Advance(p))
    ensures var s' := Advanced(s, p);
            LedgerSum(s'.db.ledger, a) == LedgerSum(s.db.ledger, a) && AppliedLegs(s'.log, a) == AppliedLegs(s.log, a)
  {
    hide SetStatus;
    var c := s.procs[p];
    NeutralStatusKeepsSums(s.db, c.job.id, c.pc.status);
    LegsAfter(s.log, Marked(c.job.id, c.pc.status), a);
  }

  lemma StepMovesSums(s: State, act: Act, a: string)
    requires MoneyInv(s) && Enabled(s, act) && NeutralAct(s, act)
    ensures var s' := Next(s, act);
            LedgerSum(s'.db.ledger, a) - LedgerSum(s.db.ledger, a) == AppliedLegs(s'.log, a) - AppliedLegs(s.log, a)
  {
    hide LocksInv, Exact, Backed, AllShaped, Credited, Admitted, AppliedOnce, CreatePending, SetStatus, LedgerSum;
    if act.Advance? && s.procs[act.p].pc.Commit? {
      assert ProcInv(s, act.p);
      CommitMovesSums(s, act.p, a);
    } else if act.Advance? && s.procs[act.p].pc.Insert? {
      InsertMovesNoSum(s, act.p, a);
    } else if act.Advance? && s.procs[act.p].pc.Mark? {
      MarkMovesNoSum(s, act.p, a);
    } else if act.Open? {
      LegsAfter(s.log, Opened(act.account, act.user, act.currency), a);
    }
  }

  /** The main theorem for handlers that crash and fail anywhere, and of which an id has a new one only after all its
      earlier ones crashed or returned and its row is absent or pending: every status write is neutral, so the run is
      exact and serial; every sum is the initial one plus the settled requests; all handlers of an id together settle
      it at most once, and if it is settled one of them did it; a handler that ended in error settled nothing, and one
      that ended well settled its request. */
  lemma {:induction false} FreshRunsAreExact(s: State, acts: seq<Act>)
    requires Initial(s) && SoundTables(s.db)
    requires Runs(s, acts) && FreshRun(s, acts)
    ensures NeutralRun(s, acts) && MoneyInv(After(s, acts)) && FreshInv(After(s, acts))
    ensures var t := After(s, acts); forall a :: LedgerSum(t.db.ledger, a) == LedgerSum(s.db.ledger, a) + AppliedLegs(t.log, a)
    ensures var t := After(s, acts);
            forall p <- t.procs :: t.procs[p].pc.Done? ==>
              && AppliedBy(t.log, p) == (if t.procs[p].pc.ok then 1 else 0)
              && (t.procs[p].pc.ok ==> Applications(t.log, t.procs[p].job.id) == 1)
    ensures var t := After(s, acts);
            forall id :: Applications(t.log, id) == 0 || (Applications(t.log, id) == 1 && exists p :: SettledBy(t, id, p))
    decreases |acts|
  {
    hide MoneyInv, FreshInv, SettledBy, AppliedBy, Applications, AppliedLegs, LedgerSum, NeutralAct, FreshArrival;
    InitialInv(s);
    FreshAtFirst(s);
    var t := After(s, acts);
    if acts != [] {
      var act, s0 := acts[|acts| - 1], After(s, acts[..|acts| - 1]);
      FreshRunsAreExact(s, acts[..|acts| - 1]);
      AlwaysGeneral(s, acts[..|acts| - 1]);
      FreshInvKept(s0, act);
      FreshIsNeutral(s0, act);
      MoneyInvKept(s0, act);
      forall a ensures LedgerSum(t.db.ledger, a) == LedgerSum(s.db.ledger, a) + AppliedLegs(t.log, a) {
        StepMovesSums(s0, act, a);
        assert LedgerSum(s0.db.ledger, a) == LedgerSum(s.db.ledger, a) + AppliedLegs(s0.log, a);
      }
    }
    forall id ensures Applications(t.log, id) == 0 || (Applications(t.log, id) == 1 && exists p :: SettledBy(t, id, p)) {
      AppliedAtMostOnce(s, acts, id);
      SettledBySomeone(s, acts, id);
    }
    FreshOutcomes(t);
  }

  lemma FreshAtFirst(s: State)
    requires Initial(s)
    ensures FreshInv(s)
    ensures forall a :: AppliedLegs(s.log, a) == 0
  {
  }

  lemma FreshOutcomes(t: State)
    requires FreshInv(t)
    ensures forall p <- t.procs :: t.procs[p].pc.Done? ==>
              && AppliedBy(t.log, p) == (if t.procs[p].pc.ok then 1 else 0)
              && (t.procs[p].pc.ok ==> Applications(t.log, t.procs[p].job.id) == 1)
  {
    forall p | p in t.procs ensures OutcomeInv(t, p) {
    }
  }

  /** Outside those assumptions: a handler that takes the error path although its commit took effect (the
      acknowledgement was lost) marks a completed row failed, and the balance it moved is wrong from then on. */
  lemma LostAcknowledgementBreaks(s: State, p: nat)
    requires MoneyInv(s) && p in s.procs && s.procs[p].pc.Commit? && s.procs[p].flipped
    ensures !Exact(SetStatus(Advanced(s, p).db, s.procs[p].job.id, Failed).0)
  {
    assert ProcInv(s, p);
    TablesKept(s, Advance(p));
    assert Enabled(s, Advance(p));
    SetStatusExactness(Advanced(s, p).db, s.procs[p].job.id, Failed);
  }
}
