/** What an interleaved handler comes to when from some point on nobody else moves: exactly what the sequential handler
    computes from the stored balances. This fixes where every statement leads, with or without refused statements. */
module Undisturbed {
  import opened Ids
  import opened Ledger
  import opened Service
  import opened Interleaving
  import opened LedgerSafety
  import opened LedgerRuns

  // ---------- the high-balance limit, in every run ----------

  predicate PastLimitCheck(pc: Pc)
  {
    InFunds(pc) || pc == Mark(Completed) || pc == Done(true)
  }

  /** A withdrawal that has got past the check saw a balance within the limit. */
  predicate WithinLimit(c: Proc)
  {
    && (c.job.kind == Withdrawal && PastLimitCheck(c.pc) ==> c.seen <= 600_000)
    && (c.pc.Guard? ==> c.job.kind == Withdrawal)
  }

  lemma LimitOnLeaving(s: State, p: nat)
    requires p in s.procs && WithinLimit(s.procs[p])
    ensures p in RolledBack(s, p).procs && WithinLimit(RolledBack(s, p).procs[p])
    ensures p in Leave(s, p, Crashed).procs && WithinLimit(Leave(s, p, Crashed).procs[p])
  {
    hide Release;
  }

  lemma LimitInFunds(s: State, p: nat)
    requires p in s.procs && WithinLimit(s.procs[p]) && InFunds(s.procs[p].pc)
    ensures p in Advanced(s, p).procs && WithinLimit(Advanced(s, p).procs[p])
  {
    hide LedgerSum, Credited, Release, Wants, Visit, CreatePending, SetStatus, Admitted;
  }

  lemma LimitOutsideFunds(s: State, p: nat)
    requires p in s.procs && WithinLimit(s.procs[p]) && !InFunds(s.procs[p].pc)
    ensures p in Advanced(s, p).procs && WithinLimit(Advanced(s, p).procs[p])
  {
    hide LedgerSum, Credited, Release, Wants, Visit, CreatePending, SetStatus, Admitted;
  }

  lemma LimitStep(s: State, act: Act, p: nat)
    requires Enabled(s, act)
    requires p in s.procs ==> WithinLimit(s.procs[p])
    requires p in Next(s, act).procs
    ensures WithinLimit(Next(s, act).procs[p])
  {
    hide Agrees, Advanced, RolledBack;
    if act.Advance? || act.Fail? || act.Crash? {
      LocksStepHolds(s, act);
      if p == act.p {
        LimitOnLeaving(s, p);
        if InFunds(s.procs[p].pc) { LimitInFunds(s, p); } else { LimitOutsideFunds(s, p); }
      }
    }
  }

  /** In every run, with any redelivery, refusal and crash. */
  lemma {:induction false} LimitHolds(s: State, acts: seq<Act>, p: nat)
    requires Initial(s) && Runs(s, acts) && p in After(s, acts).procs
    ensures WithinLimit(After(s, acts).procs[p])
    decreases |acts|
  {
    hide Enabled, Next, WithinLimit;
    if acts != [] {
      var init := acts[..|acts| - 1];
      if p in After(s, init).procs { LimitHolds(s, init, p); }
      LimitStep(After(s, init), acts[|acts| - 1], p);
    }
  }

  // ---------- what the handler will come to ----------

  /** The tables `p` will leave and the success it will report if only it moves from here on. */
  ghost function Expected(s: State, p: nat): (Db, bool)
    requires p in s.procs
  {
    var c := s.procs[p];
    var job, db := c.job, s.db;
    match c.pc
    case Start => Handled(db, job.id, job.kind, job.user, job.from, job.to, job.currency, job.amount)
    case CreateLock(_) => Recorded(db, job.id, job.kind, job.from, job.to, c.currency, job.amount, c.seen)
    case Insert => Recorded(db, job.id, job.kind, job.from, job.to, c.currency, job.amount, c.seen)
    case Mark(status) => (SetStatus(db, job.id, status).0, status == Completed)
    case Done(ok) => (db, ok)
    case Crashed => (db, false)
    case _ => Recorded(db, job.id, job.kind, job.from, job.to, c.currency, job.amount, c.seen)
  }

  /** Everything the run theorems keep, for handler `p`. */
  ghost predicate Steady(s: State, p: nat)
  {
    MoneyInv(s) && FreshInv(s) && p in s.procs && WithinLimit(s.procs[p])
  }

  lemma ExpectedAtStart(s: State, p: nat)
    requires Steady(s, p) && s.procs[p].pc.Start?
    ensures p in Advanced(s, p).procs && Expected(Advanced(s, p), p) == Expected(s, p)
  {
    hide LedgerSum, Agrees, LocksInv, Exact, Backed, AllShaped, MoneyProc, SetStatus, Paid, RequestRow, Ordered;
    assert ProcInv(s, p);
  }

  lemma ExpectedAtCreation(s: State, p: nat)
    requires Steady(s, p) && (s.procs[p].pc.CreateLock? || s.procs[p].pc.Insert?)
    ensures p in Advanced(s, p).procs && Expected(Advanced(s, p), p) == Expected(s, p)
  {
    hide LedgerSum, Agrees, LocksInv, Exact, MoneyProc, SetStatus, Paid, Release;
    assert ProcInv(s, p) && OutcomeInv(s, p);
    var c, job, db := s.procs[p], s.procs[p].job, s.db;
    CreationDecides(db, job.id, job.kind, job.from, job.to, c.currency, job.amount);
    assert job.id in db.ledger ==> BackedRow(db.accounts, db.ledger[job.id]);
    var db1 := CreatePending(db, job.id, job.kind, job.from, job.to, c.currency, job.amount).0;
    forall status
      ensures db1.ledger[job.id := RequestRow(db1, job.id, job.kind, job.from, job.to, c.currency, job.amount, status)]
           == db.ledger[job.id := RequestRow(db, job.id, job.kind, job.from, job.to, c.currency, job.amount, status)]
    {
    }
  }

  /** While the row is pending, the expectation is the conclusion about that row. */
  lemma ExpectedOfRow(s: State, p: nat)
    requires Steady(s, p) && (s.procs[p].pc.Guard? || InFunds(s.procs[p].pc))
    ensures var job, db := s.procs[p].job, s.db;
            && job.id in db.ledger && db.ledger[job.id].status == Pending && Fits(job, db.ledger[job.id])
            && ShapedRow(db.ledger[job.id]) && BackedRow(db.accounts, db.ledger[job.id])
            && Expected(s, p) == Concluded(db, job.id, job.kind, job.from, job.to, db.ledger[job.id].currency, job.amount,
                                           s.procs[p].seen)
  {
    hide LedgerSum, LocksInv, Exact, MoneyProc, Concluded;
    assert ProcInv(s, p) && OutcomeInv(s, p);
    var job, db := s.procs[p].job, s.db;
    assert ShapedRow(db.ledger[job.id]) && BackedRow(db.accounts, db.ledger[job.id]);
    CurrencyOfRow(db, job.id, job.kind, job.from, job.to, s.procs[p].currency, job.amount, s.procs[p].seen);
  }

  lemma CurrencyOfRow(
    db: Db, id: string, kind: Kind, from: string, to: string, currency: string, amount: int, seen: int)
    requires id in db.ledger && from in db.accounts && to in db.accounts
    ensures Concluded(db, id, kind, from, to, currency, amount, seen)
         == Concluded(db, id, kind, from, to, db.ledger[id].currency, amount, seen)
  {
  }

  /** A row that is not accepted ends as the failed mark leaves it. */
  lemma NotAccepted(db: Db, id: string, seen: int)
    requires id in db.ledger && db.ledger[id].from in db.accounts && db.ledger[id].to in db.accounts
    requires var r := db.ledger[id]; !Accepted(db, r.kind, r.from, r.to, r.amount, seen)
    ensures var r := db.ledger[id];
            Concluded(db, id, r.kind, r.from, r.to, r.currency, r.amount, seen) == (SetStatus(db, id, Failed).0, false)
  {
  }

  lemma ExpectedAtGuard(s: State, p: nat)
    requires Steady(s, p) && s.procs[p].pc.Guard?
    ensures p in Advanced(s, p).procs && Expected(Advanced(s, p), p) == Expected(s, p)
  {
    hide LedgerSum, Agrees, LocksInv, Exact, Backed, AllShaped, MoneyInv, FreshInv, SetStatus, Concluded;
    ExpectedOfRow(s, p);
    if s.procs[p].seen > HIGH_BALANCE {
      NotAccepted(s.db, s.procs[p].job.id, s.procs[p].seen);
    }
  }

  /** A statement of the funds call that neither commits nor gives up. */
  lemma ExpectedOnward(s: State, p: nat)
    requires Steady(s, p) && InFunds(s.procs[p].pc) && p in Advanced(s, p).procs
    requires InFunds(Advanced(s, p).procs[p].pc)
    ensures Expected(Advanced(s, p), p) == Expected(s, p)
  {
    hide LedgerSum, Agrees, LocksInv, Exact, Backed, AllShaped, MoneyInv, FreshInv, Recorded, SetStatus, Wants;
  }

  lemma ExpectedOnRefusal(s: State, p: nat)
    requires Steady(s, p) && (s.procs[p].pc.SumRows? || s.procs[p].pc.Write?)
    requires p in Advanced(s, p).procs && Advanced(s, p).procs[p].pc == Mark(Failed)
    ensures Expected(Advanced(s, p), p) == Expected(s, p)
  {
    hide LedgerSum, Agrees, LocksInv, Exact, Backed, AllShaped, FreshInv, SetStatus, Concluded, Settle, Advanced;
    ExpectedOfRow(s, p);
    RefusalRefinesSettle(s, p);
    SettleConcludes(s.db, s.procs[p].job.id);
    NotAccepted(s.db, s.procs[p].job.id, s.procs[p].seen);
    KeepsJob(s, p);
  }

  lemma KeepsJob(s: State, p: nat)
    requires p in s.procs && Enabled(s, Advance(p))
    ensures p in Advanced(s, p).procs && Advanced(s, p).procs[p].job == s.procs[p].job
  {
    hide Advanced;
    LocksStepHolds(s, Advance(p));
  }

  lemma ExpectedAtCommit(s: State, p: nat)
    requires Steady(s, p) && s.procs[p].pc.Commit?
    ensures p in Advanced(s, p).procs && Expected(Advanced(s, p), p) == Expected(s, p)
  {
    hide LedgerSum, Agrees, LocksInv, Exact, Backed, AllShaped, FreshInv, SetStatus, Concluded, Recorded, Settle, Credited;
    hide Release;
    var job := s.procs[p].job;
    ExpectedOfRow(s, p);
    assert OutcomeInv(s, p) by { OutcomeKnown(s, p); }
    CommitRefinesSettle(s, p);
    SettleConcludes(s.db, job.id);
    LimitUnreachedConclusion(s.db, job.id, job.kind, job.from, job.to, s.db.ledger[job.id].currency, job.amount, s.procs[p].seen);
  }

  lemma OutcomeKnown(s: State, p: nat)
    requires FreshInv(s) && p in s.procs
    ensures OutcomeInv(s, p)
  {
  }

  lemma LimitUnreachedConclusion(
    db: Db, id: string, kind: Kind, from: string, to: string, currency: string, amount: int, seen: int)
    requires from in db.accounts && to in db.accounts && (kind == Withdrawal ==> seen <= 600_000)
    ensures Concluded(db, id, kind, from, to, currency, amount, seen)
         == Concluded(db, id, kind, from, to, currency, amount, 0)
  {
  }

  lemma ExpectedAtMark(s: State, p: nat)
    requires Steady(s, p) && s.procs[p].pc.Mark?
    ensures p in Advanced(s, p).procs && Expected(Advanced(s, p), p) == Expected(s, p)
  {
    hide LedgerSum, Agrees, LocksInv, Exact, Backed, AllShaped, FreshInv, MoneyProc, Release;
    assert ProcInv(s, p);
  }

  /** No statement of the handler changes what it will come to. */
  lemma ExpectedKept(s: State, p: nat)
    requires Steady(s, p) && Enabled(s, Advance(p))
    ensures p in Advanced(s, p).procs && Expected(Advanced(s, p), p) == Expected(s, p)
  {
    hide LedgerSum, Agrees, LocksInv, Exact, Backed, AllShaped, FreshInv, MoneyInv, Expected, SetStatus, CreatePending;
    hide Credited;
    KeepsJob(s, p);
    var pc := s.procs[p].pc;
    if InFunds(pc) && !pc.Commit? {
      FundsStep(s, p);
      if InFunds(Advanced(s, p).procs[p].pc) { ExpectedOnward(s, p); } else { ExpectedOnRefusal(s, p); }
    } else if pc.Commit? {
      ExpectedAtCommit(s, p);
    } else if pc.Mark? {
      ExpectedAtMark(s, p);
    } else if pc.Guard? {
      ExpectedAtGuard(s, p);
    } else if pc.Start? {
      ExpectedAtStart(s, p);
    } else {
      ExpectedAtCreation(s, p);
    }
  }

  /** Before the commit a funds call goes on, or a reconciliation refuses. */
  lemma FundsStep(s: State, p: nat)
    requires Steady(s, p) && InFunds(s.procs[p].pc) && !s.procs[p].pc.Commit?
    ensures p in Advanced(s, p).procs
    ensures InFunds(Advanced(s, p).procs[p].pc)
         || ((s.procs[p].pc.SumRows? || s.procs[p].pc.Write?) && Advanced(s, p).procs[p].pc == Mark(Failed))
  {
    hide LedgerSum, Agrees, LocksInv, Exact, Backed, AllShaped, FreshInv, MoneyProc, Release, Wants, Visit;
    assert ProcInv(s, p);
  }

  // ---------- running alone ----------

  /** The locks of this handler are the only ones. */
  ghost predicate LocksOnly(s: State, p: nat)
  {
    forall l <- s.owner :: s.owner[l] == p
  }

  lemma AloneCanRun(s: State, p: nat)
    requires Steady(s, p) && LocksOnly(s, p) && !Finished(s.procs[p])
    ensures Enabled(s, Advance(p))
    ensures Steady(Advanced(s, p), p) && LocksOnly(Advanced(s, p), p)
    ensures Rank(Advanced(s, p).procs[p].pc) < Rank(s.procs[p].pc)
  {
    hide LedgerSum, Agrees, LocksInv, Exact, Backed, AllShaped, FreshInv, MoneyProc, Advanced, ProcInv;
    assert Next(s, Advance(p)) == Advanced(s, p);
    LocksStepHolds(s, Advance(p));
    FreshIsNeutral(s, Advance(p));
    MoneyInvKept(s, Advance(p));
    FreshInvKept(s, Advance(p));
    RankDrops(s, Advance(p));
    LimitStep(s, Advance(p), p);
  }

  lemma {:induction false} Prepend(s: State, act: Act, acts: seq<Act>)
    requires Enabled(s, act) && Runs(Next(s, act), acts)
    ensures Runs(s, [act] + acts) && After(s, [act] + acts) == After(Next(s, act), acts)
    decreases |acts|
  {
    hide Enabled, Next;
    var all := [act] + acts;
    if acts == [] {
      assert all[..0] == [] && all == [act];
    } else {
      Prepend(s, act, acts[..|acts| - 1]);
      assert all[..|all| - 1] == [act] + acts[..|acts| - 1];
    }
  }

  /** A handler that nobody disturbs ends, within the statements its program has left, exactly as expected. */
  lemma {:induction false} RunsAlone(s: State, p: nat) returns (acts: seq<Act>)
    requires Steady(s, p) && LocksOnly(s, p) && !s.procs[p].pc.Crashed?
    ensures |acts| <= Rank(s.procs[p].pc) && (forall i :: 0 <= i < |acts| ==> acts[i] == Advance(p))
    ensures Runs(s, acts) && p in After(s, acts).procs && After(s, acts).procs[p].pc.Done?
    ensures (After(s, acts).db, After(s, acts).procs[p].pc.ok) == Expected(s, p)
    decreases Rank(s.procs[p].pc)
  {
    if s.procs[p].pc.Done? {
      acts := [];
    } else {
      hide Steady, LocksOnly, Expected, Enabled, Advanced;
      assert p in s.procs && !Finished(s.procs[p]) by { SteadyKnown(s, p); }
      AloneCanRun(s, p);
      ExpectedKept(s, p);
      NotCrashing(s, p);
      var rest := RunsAlone(Advanced(s, p), p);
      assert Next(s, Advance(p)) == Advanced(s, p);
      Prepend(s, Advance(p), rest);
      acts := [Advance(p)] + rest;
    }
  }

  lemma SteadyKnown(s: State, p: nat)
    requires Steady(s, p)
    ensures p in s.procs
  {
  }

  lemma NotCrashing(s: State, p: nat)
    requires p in s.procs && !s.procs[p].pc.Crashed?
    ensures p in Advanced(s, p).procs && !Advanced(s, p).procs[p].pc.Crashed?
  {
    hide LedgerSum, Credited, Release, Wants, Visit, CreatePending, SetStatus, Admitted;
  }

  /** Of a run as `FreshRunsAreExact` allows, with any other handlers before: if no other handler is left in a
      transaction and a handler has just arrived, then, undisturbed and with every statement answered, it ends exactly
      as the sequential handler, and succeeds exactly if the request and the stored balances allow it. */
  lemma UndisturbedHandler(s: State, acts: seq<Act>, p: nat) returns (more: seq<Act>)
    requires Initial(s) && SoundTables(s.db) && Runs(s, acts) && FreshRun(s, acts)
    requires p in After(s, acts).procs && After(s, acts).procs[p].pc.Start? && LocksOnly(After(s, acts), p)
    ensures |more| <= 15 && forall i :: 0 <= i < |more| ==> more[i] == Advance(p)
    ensures var t, job := After(s, acts), After(s, acts).procs[p].job;
            && Runs(t, more) && p in After(t, more).procs && After(t, more).procs[p].pc.Done?
            && (After(t, more).db, After(t, more).procs[p].pc.ok)
               == Handled(t.db, job.id, job.kind, job.user, job.from, job.to, job.currency, job.amount)
  {
    hide SoundTables, Handled, FreshRun;
    FreshRunsAreExact(s, acts);
    LimitHolds(s, acts, p);
    more := RunsAlone(After(s, acts), p);
  }

  /** Any statement can be refused, and a handler can crash at any point before it ends. */
  lemma AnyStatementCanFail(s: State, p: nat)
    requires p in s.procs
    ensures Enabled(s, Crash(p)) <==> !s.procs[p].pc.Done? && !s.procs[p].pc.Crashed?
    ensures Enabled(s, Fail(p)) <==>
              && !s.procs[p].pc.Done? && !s.procs[p].pc.Crashed? && !s.procs[p].pc.Guard?
              && !(s.procs[p].pc.Start? && s.procs[p].job.kind != Withdrawal)
  {
  }

  /** A refused statement: before the row is inserted the handler ends in error and leaves the tables alone, in the
      funds call it will record the row as failed, and a refused status write records nothing. */
  lemma RefusedHandler(s: State, p: nat)
    requires Steady(s, p) && Enabled(s, Fail(p))
    ensures var t, c, job := RolledBack(s, p), s.procs[p], s.procs[p].job;
            && p in t.procs && !t.procs[p].pc.Crashed? && t.db == s.db && t.log == s.log
            && (forall l <- t.owner :: t.owner[l] != p)
            && (c.pc.Start? || c.pc.CreateLock? || c.pc.Insert? ==> Expected(t, p) == (s.db, false))
            && (InFunds(c.pc) ==>
                  job.id in s.db.ledger
                  && Expected(t, p)
                     == (s.db.(ledger := s.db.ledger[job.id := s.db.ledger[job.id].(status := Failed)]), false))
            && (c.pc.Mark? ==> Expected(t, p) == (s.db, c.pc.status == Completed))
  {
    hide LedgerSum, Agrees, LocksInv, Exact, Backed, AllShaped, FreshInv, MoneyProc, Handled, Recorded;
    assert ProcInv(s, p);
  }
}
