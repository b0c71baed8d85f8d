/** Any number of handlers, interleaved statement by statement under READ COMMITTED: each statement sees the
    committed tables plus its own transaction's writes, row locks are held to commit or rollback, buffered
    writes appear at commit. A handler may be refused a statement by the database, or crash, anywhere. */
module Interleaving {
  import opened Prelude
  import opened Ids
  import opened Ledger
  import opened Service

  /** A delivered request. */
  datatype Job = Job(kind: Kind, id: string, user: string, from: string, to: string, currency: string, amount: int)

  datatype Lock = RowLock(id: string) | AccountLock(account: string)

  /** The statement a handler runs next; `k` counts accounts in visiting order. */
  datatype Pc =
    | Start                        // argument checks, and a withdrawal's read of its account
    | CreateLock(k: nat)           // CreatePendingTransaction: lock an account of a transfer
    | Insert                       //   insert the pending row and commit
    | Guard                        // a withdrawal's high-balance check
    | Flip                         // funds call: complete the row if it is pending
    | LockAccount(k: nat)          //   reconcile: SELECT ... FOR UPDATE
    | SumRows(k: nat)              //   reconcile: SELECT SUM
    | Write(k: nat, sum: int)      //   reconcile: UPDATE accounts
    | ReadRow                      //   read the row back
    | Commit
    | Mark(status: Status)         // UpdateTransactionStatus
    | Done(ok: bool)
    | Crashed

  /** A handler: what it read (`seen`, `currency`) and what its open transaction has written but not committed. */
  datatype Proc = Proc(job: Job, pc: Pc, seen: int, currency: string, flipped: bool, writes: map<string, int>)

  /** What a commit did, in commit order. */
  datatype Entry =
    | Opened(account: string, user: string, currency: string)
    | Created(job: Job, currency: string)
    | Applied(job: Job, settler: nat)
    | Marked(id: string, status: Status)

  /** The committed tables, the row locks, the handlers and the history of commits. */
  datatype State = State(db: Db, owner: map<Lock, nat>, procs: map<nat, Proc>, log: seq<Entry>)

  datatype Act =
    | Advance(p: nat)
    | Fail(p: nat)
    | Crash(p: nat)
    | Arrive(p: nat, job: Job)
    | Open(account: string, user: string, currency: string)

  // ---------- statements ----------

  function Visit(job: Job): seq<string>
  {
    VisitOrder(job.kind, job.from, job.to)
  }

  /** The lock the next statement needs, if it needs one; rows that do not exist lock nothing. */
  function Wants(db: Db, c: Proc): Option<Lock>
  {
    match c.pc
    case CreateLock(k) =>
      var order := Ordered(c.job.from, c.job.to);
      if k < 2 && order[k] in db.accounts then Some(AccountLock(order[k])) else None
    case Flip =>
      if c.job.id in db.ledger && db.ledger[c.job.id].status == Pending then Some(RowLock(c.job.id)) else None
    case LockAccount(k) =>
      if k < |Visit(c.job)| && Visit(c.job)[k] in db.accounts then Some(AccountLock(Visit(c.job)[k])) else None
    case Mark(_) =>
      if c.job.id in db.ledger then Some(RowLock(c.job.id)) else None
    case _ => None
  }

  predicate Blocked(s: State, p: nat)
    requires p in s.procs
  {
    var want := Wants(s.db, s.procs[p]);
    want.Some? && want.value in s.owner && s.owner[want.value] != p
  }

  predicate Finished(c: Proc)
  {
    c.pc.Done? || c.pc.Crashed?
  }

  function Release(owner: map<Lock, nat>, p: nat): map<Lock, nat>
  {
    map l | l in owner && owner[l] != p :: owner[l]
  }

  /** The statement succeeds and takes its lock. */
  function Acquire(s: State, p: nat, c: Proc): State
    requires p in s.procs
  {
    var want := Wants(s.db, s.procs[p]);
    s.(procs := s.procs[p := c], owner := if want.Some? then s.owner[want.value := p] else s.owner)
  }

  /** The handler leaves its transaction: locks go, buffered writes go. */
  function Leave(s: State, p: nat, pc: Pc): State
    requires p in s.procs
  {
    s.(procs := s.procs[p := s.procs[p].(pc := pc, flipped := false, writes := map[])], owner := Release(s.owner, p))
  }

  function Goto(s: State, p: nat, pc: Pc): State
    requires p in s.procs
  {
    s.(procs := s.procs[p := s.procs[p].(pc := pc)])
  }

  function Credited(accounts: map<string, Account>, writes: map<string, int>): map<string, Account>
  {
    map a | a in accounts :: if a in writes then accounts[a].(balance := writes[a]) else accounts[a]
  }

  /** One statement of handler `p`, answered by the database. */
  ghost function Advanced(s: State, p: nat): State
    requires p in s.procs
  {
    var c := s.procs[p];
    var job := c.job;
    match c.pc
    case Start =>
      if job.amount <= 0 then Goto(s, p, Done(false))
      else if job.kind == Withdrawal && !Admitted(s.db, job.user, job.from, job.amount) then Goto(s, p, Done(false))
      else
        var read :=
          if job.kind == Withdrawal then
            c.(seen := s.db.accounts[job.from].balance, currency := s.db.accounts[job.from].currency)
          else c.(currency := job.currency);
        s.(procs := s.procs[p := read.(pc := if job.from != job.to then CreateLock(0) else Insert)])
    case CreateLock(k) =>
      Acquire(s, p, c.(pc := if k == 0 then CreateLock(1) else Insert))
    case Insert =>
      var (db, r) := CreatePending(s.db, job.id, job.kind, job.from, job.to, c.currency, job.amount);
      if r.Err? then Leave(s, p, Done(false))
      else Leave(s.(db := db, log := s.log + [Created(job, c.currency)]), p, if job.kind == Withdrawal then Guard else Flip)
    case Guard =>
      Goto(s, p, if c.seen > HIGH_BALANCE then Mark(Failed) else Flip)
    case Flip =>
      if Wants(s.db, c).Some? then Acquire(s, p, c.(pc := LockAccount(0), flipped := true)) else Goto(s, p, ReadRow)
    case LockAccount(k) =>
      Acquire(s, p, c.(pc := SumRows(k)))
    case SumRows(k) =>
      var sum :=
        if k < |Visit(job)| && job.id in s.db.ledger then LedgerSum(Flipped(s.db.ledger, job.id), Visit(job)[k]) else 0;
      if 0 <= sum <= INT64_MAX then Goto(s, p, Write(k, sum)) else Leave(s, p, Mark(Failed))
    case Write(k, sum) =>
      if k >= |Visit(job)| || Visit(job)[k] !in s.db.accounts then Leave(s, p, Mark(Failed))
      else s.(procs := s.procs[p := c.(writes := c.writes[Visit(job)[k] := sum],
                                      pc := if k + 1 < |Visit(job)| then LockAccount(k + 1) else ReadRow)])
    case ReadRow =>
      if job.id in s.db.ledger then Goto(s, p, Commit) else Leave(s, p, Mark(Failed))
    case Commit =>
      if c.flipped && job.id in s.db.ledger then
        var db := Db(Credited(s.db.accounts, c.writes), Flipped(s.db.ledger, job.id));
        Leave(s.(db := db, log := s.log + [Applied(job, p)]), p, Mark(Completed))
      else Leave(s, p, Mark(Completed))
    case Mark(status) =>
      var ended := Leave(s, p, Done(status == Completed));
      if job.id in s.db.ledger then
        ended.(db := SetStatus(s.db, job.id, status).0, log := s.log + [Marked(job.id, status)])
      else ended
    case Done(_) => s
    case Crashed => s
  }

  /** The database refuses the statement: an open transaction rolls back and the handler takes its error path. */
  function RolledBack(s: State, p: nat): State
    requires p in s.procs
  {
    match s.procs[p].pc
    case Start => Leave(s, p, Done(false))
    case CreateLock(_) => Leave(s, p, Done(false))
    case Insert => Leave(s, p, Done(false))
    case Mark(status) => Leave(s, p, Done(status == Completed))
    case _ => Leave(s, p, Mark(Failed))
  }

  predicate CanFail(c: Proc)
  {
    !Finished(c) && !c.pc.Guard? && (c.pc.Start? ==> c.job.kind == Withdrawal)
  }

  predicate Fits(job: Job, r: Row)
  {
    r.kind == job.kind && r.from == job.from && r.to == job.to && r.amount == job.amount
  }

  /** The same id always carries the same request, also towards the rows already in the ledger. */
  ghost predicate Agrees(s: State, job: Job)
  {
    && (job.id in s.db.ledger ==> Fits(job, s.db.ledger[job.id]))
    && forall q <- s.procs :: s.procs[q].job.id == job.id ==> s.procs[q].job == job
  }

  ghost predicate Enabled(s: State, act: Act)
  {
    match act
    case Advance(p) => p in s.procs && !Finished(s.procs[p]) && !Blocked(s, p)
    case Fail(p) => p in s.procs && CanFail(s.procs[p])
    case Crash(p) => p in s.procs && !Finished(s.procs[p])
    case Arrive(p, job) => p !in s.procs && (job.kind != Transfer ==> job.from == job.to) && Agrees(s, job)
    case Open(account, _, _) => account !in s.db.accounts
  }

  ghost function Next(s: State, act: Act): State
    requires Enabled(s, act)
  {
    match act
    case Advance(p) => Advanced(s, p)
    case Fail(p) => RolledBack(s, p)
    case Crash(p) => Leave(s, p, Crashed)
    case Arrive(p, job) => s.(procs := s.procs[p := Proc(job, Start, 0, "", false, map[])])
    case Open(a, user, currency) =>
      s.(db := s.db.(accounts := s.db.accounts[a := Account(user, 0, currency)]), log := s.log + [Opened(a, user, currency)])
  }

  // ---------- runs ----------

  ghost predicate Runs(s: State, acts: seq<Act>)
    decreases |acts|, 0
  {
    acts == [] || (Runs(s, acts[..|acts| - 1]) && Enabled(After(s, acts[..|acts| - 1]), acts[|acts| - 1]))
  }

  ghost function After(s: State, acts: seq<Act>): State
    requires Runs(s, acts)
    decreases |acts|, 1
  {
    if acts == [] then s else Next(After(s, acts[..|acts| - 1]), acts[|acts| - 1])
  }

  /** No handler has started and nothing is locked. */
  predicate Initial(s: State)
  {
    s.owner == map[] && s.procs == map[] && s.log == []
  }

  // ---------- invariant of every run: locks, program points, at most one application ----------

  function AccountLocks(accounts: seq<string>): set<Lock>
  {
    set a <- accounts :: AccountLock(a)
  }

  /** The locks a handler may hold where it stands. */
  function Reach(c: Proc): set<Lock>
  {
    var order, visit := Ordered(c.job.from, c.job.to), Visit(c.job);
    match c.pc
    case CreateLock(k) => if k < 2 then AccountLocks(order[..k]) else {}
    case Insert => if c.job.from != c.job.to then AccountLocks(order) else {}
    case LockAccount(k) => if k < |visit| then {RowLock(c.job.id)} + AccountLocks(visit[..k]) else {}
    case SumRows(k) => if k < |visit| then {RowLock(c.job.id)} + AccountLocks(visit[..k + 1]) else {}
    case Write(k, _) => if k < |visit| then {RowLock(c.job.id)} + AccountLocks(visit[..k + 1]) else {}
    case ReadRow => if c.flipped then {RowLock(c.job.id)} + AccountLocks(visit) else {}
    case Commit => if c.flipped then {RowLock(c.job.id)} + AccountLocks(visit) else {}
    case _ => {}
  }

  predicate InFunds(pc: Pc)
  {
    pc.Flip? || pc.LockAccount? || pc.SumRows? || pc.Write? || pc.ReadRow? || pc.Commit?
  }

  predicate Reconciling(pc: Pc)
  {
    pc.LockAccount? || pc.SumRows? || pc.Write?
  }

  predicate PastInsert(pc: Pc)
  {
    !(pc.Start? || pc.CreateLock? || pc.Insert? || pc.Done? || pc.Crashed?)
  }

  ghost predicate ProcInv(s: State, p: nat)
    requires p in s.procs
  {
    var c := s.procs[p];
    && (c.job.kind != Transfer ==> c.job.from == c.job.to)
    && (!c.pc.Start? && !Finished(c) ==> c.job.amount > 0)
    && (PastInsert(c.pc) ==> Shaped(c.job.kind, c.job.from, c.job.to) && c.job.id in s.db.ledger)
    && (c.pc.CreateLock? ==> c.pc.k < 2 && c.job.from != c.job.to)
    && (c.pc.LockAccount? || c.pc.SumRows? || c.pc.Write? ==> c.pc.k < |Visit(c.job)| && c.flipped)
    && (c.pc.Mark? ==> c.pc.status in {Completed, Failed})
    && (!c.flipped ==> c.writes == map[])
    && (c.flipped ==> && (c.pc.LockAccount? || c.pc.SumRows? || c.pc.Write? || c.pc.ReadRow? || c.pc.Commit?)
                      && s.db.ledger[c.job.id].status == Pending
                      && RowLock(c.job.id) in s.owner && s.owner[RowLock(c.job.id)] == p)
    && ((c.pc.ReadRow? || c.pc.Commit?) && !c.flipped ==> s.db.ledger[c.job.id].status != Pending)
    && Agrees(s, c.job)
  }

  function Applications(log: seq<Entry>, id: string): nat
  {
    if log == [] then 0
    else Applications(log[..|log| - 1], id) + if log[|log| - 1].Applied? && log[|log| - 1].job.id == id then 1 else 0
  }

  /** The row `id` was settled at most once, and if it was it is not pending. */
  ghost predicate AppliedOnce(s: State, id: string)
  {
    && Applications(s.log, id) <= 1
    && (Applications(s.log, id) == 1 ==> id in s.db.ledger && s.db.ledger[id].status != Pending)
  }

  ghost predicate LocksInv(s: State)
  {
    forall l <- s.owner :: s.owner[l] in s.procs && l in Reach(s.procs[s.owner[l]])
  }

  ghost predicate GeneralInv(s: State)
  {
    && LocksInv(s)
    && (forall p {:trigger ProcInv(s, p)} | p in s.procs :: ProcInv(s, p))
    && (forall id :: AppliedOnce(s, id))
  }

  /** The row a step of another handler may write is not one this handler has locked; everything else its
      program point says survives. */
  lemma OthersKeepProcInv(s: State, s': State, q: nat)
    requires q in s.procs && ProcInv(s, q)
    requires q in s'.procs && s'.procs[q] == s.procs[q]
    requires Agrees(s', s.procs[q].job)
    requires s.procs[q].job.id in s.db.ledger ==>
               s.procs[q].job.id in s'.db.ledger
               && (s.procs[q].flipped ==> s'.db.ledger[s.procs[q].job.id].status == Pending)
               && (s.db.ledger[s.procs[q].job.id].status != Pending ==> s'.db.ledger[s.procs[q].job.id].status != Pending)
    requires s.procs[q].flipped ==> RowLock(s.procs[q].job.id) in s'.owner && s'.owner[RowLock(s.procs[q].job.id)] == q
    ensures ProcInv(s', q)
  {
  }

  /** A step by handler `p` changes no other handler, and moves no lock of another handler. */
  ghost predicate LocksStep(s: State, s': State, p: nat)
  {
    && p in s.procs
    && s'.procs.Keys == s.procs.Keys
    && s'.procs[p].job == s.procs[p].job
    && (forall q <- s.procs :: q != p ==> s'.procs[q] == s.procs[q])
    && (forall l <- s.owner :: s.owner[l] != p ==> l in s'.owner && s'.owner[l] == s.owner[l])
    && (forall l <- s'.owner :: s'.owner[l] != p ==> l in s.owner && s.owner[l] == s'.owner[l])
  }

  /** What one step may do to row `id`: change its status, but not to pending, and not under another's lock. */
  predicate RowStep(s: State, s': State, p: nat, id: string)
    requires p in s.procs
  {
    && (id in s.db.ledger ==>
          && id in s'.db.ledger
          && s'.db.ledger[id].(status := Pending) == s.db.ledger[id].(status := Pending)
          && (s.db.ledger[id].status != Pending ==> s'.db.ledger[id].status != Pending)
          && (s'.db.ledger[id] != s.db.ledger[id] ==> RowLock(id) !in s.owner || s.owner[RowLock(id)] == p))
    && (id !in s.db.ledger && id in s'.db.ledger ==> id == s.procs[p].job.id && Fits(s.procs[p].job, s'.db.ledger[id]))
  }

  ghost predicate RowsStep(s: State, s': State, p: nat)
    requires p in s.procs
  {
    forall id {:trigger RowStep(s, s', p, id)} :: RowStep(s, s', p, id)
  }

  lemma LeaveStep(s: State, t: State, p: nat, pc: Pc)
    requires p in s.procs && t.procs == s.procs && t.owner == s.owner
    ensures LocksStep(s, Leave(t, p, pc), p)
  {
  }

  lemma AcquireStep(s: State, p: nat, c: Proc)
    requires p in s.procs && c.job == s.procs[p].job && !Blocked(s, p)
    ensures LocksStep(s, Acquire(s, p, c), p)
  {
  }

  lemma LocksStepReconciling(s: State, p: nat)
    requires p in s.procs && !Blocked(s, p) && Reconciling(s.procs[p].pc)
    ensures LocksStep(s, Advanced(s, p), p)
  {
    hide LedgerSum;
    var c' := Advanced(s, p).procs[p];
    match s.procs[p].pc
    case LockAccount(_) => AcquireStep(s, p, c');
    case _ => LeaveStep(s, s, p, Mark(Failed));
  }

  lemma LocksStepAroundReconcile(s: State, p: nat)
    requires p in s.procs && !Blocked(s, p) && InFunds(s.procs[p].pc) && !Reconciling(s.procs[p].pc)
    ensures LocksStep(s, Advanced(s, p), p)
  {
    hide Credited;
    var s' := Advanced(s, p);
    match s.procs[p].pc
    case Flip => if Wants(s.db, s.procs[p]).Some? { AcquireStep(s, p, s'.procs[p]); }
    case ReadRow => LeaveStep(s, s, p, Mark(Failed));
    case Commit => LeaveStep(s, s.(db := s'.db, log := s'.log), p, Mark(Completed));
  }

  lemma LocksStepOutsideFunds(s: State, p: nat)
    requires p in s.procs && !Blocked(s, p) && !InFunds(s.procs[p].pc)
    ensures LocksStep(s, Advanced(s, p), p)
  {
    hide CreatePending, SetStatus, Admitted;
    var s' := Advanced(s, p);
    match s.procs[p].pc
    case CreateLock(_) => AcquireStep(s, p, s'.procs[p]);
    case Insert => LeaveStep(s, s.(db := s'.db, log := s'.log), p, s'.procs[p].pc);
    case Mark(_) => LeaveStep(s, s.(db := s'.db, log := s'.log), p, s'.procs[p].pc);
    case _ =>
  }

  lemma LocksStepHolds(s: State, act: Act)
    requires Enabled(s, act)
    requires act.Advance? || act.Fail? || act.Crash?
    ensures LocksStep(s, Next(s, act), act.p)
  {
    hide Advanced;
    match act
    case Fail(p) => LeaveStep(s, s, p, Next(s, act).procs[p].pc);
    case Crash(p) => LeaveStep(s, s, p, Crashed);
    case Advance(p) =>
      if Reconciling(s.procs[p].pc) {
        LocksStepReconciling(s, p);
      } else if InFunds(s.procs[p].pc) {
        LocksStepAroundReconcile(s, p);
      } else {
        LocksStepOutsideFunds(s, p);
      }
  }

  /** The three ways a step writes the ledger: insert, commit of a completed row, status write. */
  lemma LedgerAfter(s: State, act: Act)
    requires Enabled(s, act)
    requires act.Advance? || act.Fail? || act.Crash?
    ensures var c, ledger, ledger' := s.procs[act.p], s.db.ledger, Next(s, act).db.ledger;
            var job := c.job;
            || ledger' == ledger
            || (act.Advance? && c.pc.Insert?
                && ledger' == CreatePending(s.db, job.id, job.kind, job.from, job.to, c.currency, job.amount).0.ledger)
            || (act.Advance? && c.pc.Commit? && c.flipped && job.id in ledger && ledger' == Flipped(ledger, job.id))
            || (act.Advance? && c.pc.Mark? && job.id in ledger && ledger' == SetStatus(s.db, job.id, c.pc.status).0.ledger)
  {
    hide LedgerSum, Credited, Admitted, Agrees, CreatePending, SetStatus, Visit, Release, Ordered;
  }

  lemma RowsStepHolds(s: State, act: Act)
    requires GeneralInv(s) && Enabled(s, act)
    requires act.Advance? || act.Fail? || act.Crash?
    ensures RowsStep(s, Next(s, act), act.p)
  {
    hide Next, Advanced, RolledBack, Agrees, LocksInv, AppliedOnce;
    assert ProcInv(s, act.p);
    LedgerAfter(s, act);
    forall id ensures RowStep(s, Next(s, act), act.p, id) {
    }
  }

  lemma AccountLocksGrow(accounts: seq<string>, k: nat)
    requires k < |accounts|
    ensures AccountLocks(accounts[..k + 1]) == AccountLocks(accounts[..k]) + {AccountLock(accounts[k])}
  {
    assert accounts[..k + 1] == accounts[..k] + [accounts[k]];
  }

  lemma AccountLocksWhole(accounts: seq<string>)
    ensures accounts[..|accounts|] == accounts
    ensures AccountLocks(accounts[..0]) == {}
  {
  }

  /** A handler that moves to its next statement may still hold what it held, and the lock it took. */
  lemma ReachGrowsCreating(s: State, p: nat)
    requires p in s.procs && ProcInv(s, p) && s.procs[p].pc.CreateLock?
    ensures Reach(s.procs[p]) <= Reach(Advanced(s, p).procs[p])
    ensures var want := Wants(s.db, s.procs[p]); want.Some? ==> want.value in Reach(Advanced(s, p).procs[p])
  {
    hide LedgerSum, CreatePending, SetStatus, Credited, Admitted, Agrees;
    var order := Ordered(s.procs[p].job.from, s.procs[p].job.to);
    AccountLocksWhole(order);
    AccountLocksGrow(order, s.procs[p].pc.k);
  }

  lemma ReachGrowsInFunds(s: State, p: nat)
    requires p in s.procs && ProcInv(s, p) && InFunds(s.procs[p].pc) && !s.procs[p].pc.Commit?
    requires !Advanced(s, p).procs[p].pc.Mark?
    ensures Reach(s.procs[p]) <= Reach(Advanced(s, p).procs[p])
    ensures var want := Wants(s.db, s.procs[p]); want.Some? ==> want.value in Reach(Advanced(s, p).procs[p])
  {
    hide LedgerSum, CreatePending, SetStatus, Credited, Admitted, Agrees;
    var visit := Visit(s.procs[p].job);
    AccountLocksWhole(visit);
    if s.procs[p].pc.LockAccount? { AccountLocksGrow(visit, s.procs[p].pc.k); }
  }

  /** A handler that ends its transaction, by commit, rollback or crash, holds nothing. */
  predicate Leaves(s: State, s': State, p: nat)
    requires p in s.procs && p in s'.procs
  {
    var c, c' := s.procs[p], s'.procs[p];
    c.pc.Insert? || c.pc.Mark? || c.pc.Commit? || c'.pc.Mark? || c'.pc.Done? || c'.pc.Crashed?
  }

  lemma LeavingHoldsNothing(s: State, act: Act, l: Lock)
    requires LocksInv(s) && Enabled(s, act)
    requires act.Advance? || act.Fail? || act.Crash?
    requires act.p in Next(s, act).procs && Leaves(s, Next(s, act), act.p)
    ensures l in Next(s, act).owner ==> Next(s, act).owner[l] != act.p
  {
    hide LedgerSum, CreatePending, SetStatus, Credited, Admitted, Agrees, Visit, Ordered;
  }

  lemma OwnLocksKept(s: State, act: Act, l: Lock)
    requires GeneralInv(s) && Enabled(s, act)
    requires act.Advance? || act.Fail? || act.Crash?
    requires l in Next(s, act).owner && Next(s, act).owner[l] == act.p
    ensures l in Reach(Next(s, act).procs[act.p])
  {
    hide LedgerSum, CreatePending, SetStatus, Credited, Admitted, Agrees;
    assert ProcInv(s, act.p);
    var pc := s.procs[act.p].pc;
    if Leaves(s, Next(s, act), act.p) {
      LeavingHoldsNothing(s, act, l);
    } else if pc.CreateLock? {
      ReachGrowsCreating(s, act.p);
    } else if InFunds(pc) {
      ReachGrowsInFunds(s, act.p);
    }
  }

  lemma LocksInvKept(s: State, act: Act)
    requires GeneralInv(s) && Enabled(s, act)
    requires act.Advance? || act.Fail? || act.Crash?
    ensures LocksInv(Next(s, act))
  {
    hide LedgerSum, CreatePending, SetStatus, Credited, Admitted, Agrees;
    var s' := Next(s, act);
    LocksStepHolds(s, act);
    forall l | l in s'.owner ensures s'.owner[l] in s'.procs && l in Reach(s'.procs[s'.owner[l]]) {
      if s'.owner[l] == act.p { OwnLocksKept(s, act, l); }
    }
  }

  lemma AgreesKept(s: State, act: Act, job: Job)
    requires GeneralInv(s) && Enabled(s, act)
    requires act.Advance? || act.Fail? || act.Crash?
    requires Agrees(s, job)
    ensures Agrees(Next(s, act), job)
  {
    LocksStepHolds(s, act);
    RowsStepHolds(s, act);
    assert RowStep(s, Next(s, act), act.p, job.id);
    assert ProcInv(s, act.p);
  }

  lemma OtherProcsKept(s: State, act: Act, q: nat)
    requires GeneralInv(s) && Enabled(s, act)
    requires act.Advance? || act.Fail? || act.Crash?
    requires q in s.procs && q != act.p
    ensures q in Next(s, act).procs && ProcInv(Next(s, act), q)
  {
    var s' := Next(s, act);
    assert ProcInv(s, q);
    LocksStepHolds(s, act);
    RowsStepHolds(s, act);
    assert RowStep(s, s', act.p, s.procs[q].job.id);
    AgreesKept(s, act, s.procs[q].job);
    OthersKeepProcInv(s, s', q);
  }

  lemma OwnProcLeaves(s: State, act: Act)
    requires GeneralInv(s) && Enabled(s, act)
    requires act.Fail? || act.Crash?
    ensures act.p in Next(s, act).procs && ProcInv(Next(s, act), act.p)
  {
    hide LedgerSum, CreatePending, SetStatus, Credited, Admitted, LocksInv, Agrees, Advanced, Visit;
    assert ProcInv(s, act.p);
    AgreesKept(s, act, s.procs[act.p].job);
    assert Agrees(Next(s, act), Next(s, act).procs[act.p].job);
  }

  lemma OwnProcReconciling(s: State, p: nat)
    requires GeneralInv(s) && Enabled(s, Advance(p))
    requires Reconciling(s.procs[p].pc)
    requires Agrees(Advanced(s, p), s.procs[p].job)
    ensures p in Advanced(s, p).procs && ProcInv(Advanced(s, p), p)
  {
    hide LedgerSum, CreatePending, SetStatus, Credited, Admitted, LocksInv, Agrees;
    assert ProcInv(s, p);
    assert Agrees(Advanced(s, p), Advanced(s, p).procs[p].job);
  }

  lemma OwnProcAroundReconcile(s: State, p: nat)
    requires GeneralInv(s) && Enabled(s, Advance(p))
    requires InFunds(s.procs[p].pc) && !Reconciling(s.procs[p].pc)
    requires Agrees(Advanced(s, p), s.procs[p].job)
    ensures p in Advanced(s, p).procs && ProcInv(Advanced(s, p), p)
  {
    hide LedgerSum, CreatePending, SetStatus, Credited, Admitted, LocksInv, Agrees;
    assert ProcInv(s, p);
    assert |Visit(s.procs[p].job)| > 0;
    assert Agrees(Advanced(s, p), Advanced(s, p).procs[p].job);
  }

  lemma OwnProcCreating(s: State, p: nat)
    requires GeneralInv(s) && Enabled(s, Advance(p))
    requires s.procs[p].pc.Start? || s.procs[p].pc.CreateLock? || s.procs[p].pc.Insert?
    requires Agrees(Advanced(s, p), s.procs[p].job)
    ensures p in Advanced(s, p).procs && ProcInv(Advanced(s, p), p)
  {
    hide LedgerSum, SetStatus, Credited, LocksInv, Agrees;
    assert ProcInv(s, p);
    assert Agrees(Advanced(s, p), Advanced(s, p).procs[p].job);
  }

  lemma OwnProcMarking(s: State, p: nat)
    requires GeneralInv(s) && Enabled(s, Advance(p))
    requires s.procs[p].pc.Guard? || s.procs[p].pc.Mark?
    requires Agrees(Advanced(s, p), s.procs[p].job)
    ensures p in Advanced(s, p).procs && ProcInv(Advanced(s, p), p)
  {
    hide LedgerSum, CreatePending, Credited, Admitted, LocksInv, Agrees;
    assert ProcInv(s, p);
    assert Agrees(Advanced(s, p), Advanced(s, p).procs[p].job);
  }

  lemma OwnProcKept(s: State, act: Act)
    requires GeneralInv(s) && Enabled(s, act)
    requires act.Advance? || act.Fail? || act.Crash?
    ensures act.p in Next(s, act).procs && ProcInv(Next(s, act), act.p)
  {
    if !act.Advance? {
      OwnProcLeaves(s, act);
    } else {
      var pc := s.procs[act.p].pc;
      assert ProcInv(s, act.p);
      AgreesKept(s, act, s.procs[act.p].job);
      if Reconciling(pc) {
        OwnProcReconciling(s, act.p);
      } else if InFunds(pc) {
        OwnProcAroundReconcile(s, act.p);
      } else if pc.Guard? || pc.Mark? {
        OwnProcMarking(s, act.p);
      } else {
        OwnProcCreating(s, act.p);
      }
    }
  }

  /** Only a commit that found the row pending adds an application, and no step makes a row pending again. */
  lemma AppliedOnceKept(s: State, act: Act, id: string)
    requires GeneralInv(s) && Enabled(s, act)
    ensures AppliedOnce(Next(s, act), id)
  {
    hide LedgerSum, CreatePending, SetStatus, Credited, Admitted, Agrees, LocksInv;
    var s' := Next(s, act);
    assert AppliedOnce(s, id);
    assert s'.log == s.log || (|s'.log| == |s.log| + 1 && s'.log[..|s.log|] == s.log);
    if act.Advance? || act.Fail? || act.Crash? {
      assert ProcInv(s, act.p);
      RowsStepHolds(s, act);
      assert RowStep(s, s', act.p, id);
    }
  }

  lemma ArrivalKeepsProcs(s: State, act: Act, q: nat)
    requires GeneralInv(s) && Enabled(s, act)
    requires act.Arrive? || act.Open?
    requires q in Next(s, act).procs
    ensures ProcInv(Next(s, act), q)
  {
    hide Reach;
    assert q in s.procs ==> ProcInv(s, q);
  }

  lemma GeneralInvKept(s: State, act: Act)
    requires GeneralInv(s) && Enabled(s, act)
    ensures GeneralInv(Next(s, act))
  {
    hide LedgerSum, CreatePending, SetStatus, Credited, Admitted, ProcInv;
    var s' := Next(s, act);
    forall id ensures AppliedOnce(s', id) { AppliedOnceKept(s, act, id); }
    if act.Arrive? || act.Open? {
      forall q | q in s'.procs ensures ProcInv(s', q) { ArrivalKeepsProcs(s, act, q); }
    } else {
      LocksStepHolds(s, act);
      LocksInvKept(s, act);
      forall q | q in s'.procs ensures ProcInv(s', q) {
        if q == act.p { OwnProcKept(s, act); } else { OtherProcsKept(s, act, q); }
      }
    }
  }
}
