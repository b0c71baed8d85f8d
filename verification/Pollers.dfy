/** Several relay processes polling one outbox. A claim is a transaction of three statements - reclaim, select and
    claim, commit - whose row locks other pollers skip; the relays' status writes come in between. */
module Pollers {
  import opened Outbox

  datatype Stage = Begun | Swept | Selected

  /** An open claim transaction: its time, its query's limit, what it has reclaimed and what it has claimed. */
  datatype Txn = Txn(now: int, limit: nat, stage: Stage, reclaimed: set<string>, chosen: set<string>)

  datatype Event =
    | Returned(poller: nat, batch: set<string>)
    | Requeued(ids: set<string>)    // stale claims put back by a committed reclaim
    | Refused(id: string)           // a recorded publish failure

  datatype State = State(rows: Table, clock: int, txns: map<nat, Txn>, log: seq<Event>)

  datatype Act =
    | Tick(time: int)
    | Insert(id: string, row: Row)
    | Begin(p: nat, limit: nat)
    | Reclaim(p: nat)
    | Select(p: nat, chosen: set<string>)
    | Commit(p: nat)
    | Rollback(p: nat)
    | Finish(id: string, status: Status)                  // OutboxUpdate to a terminal status
    | RecordFailure(id: string, maxRetries: int, cap: int)

  /** Rows locked by the poller's open transaction. */
  function Locks(t: Txn): set<string>
  {
    t.reclaimed + t.chosen
  }

  ghost predicate LockedByOther(s: State, p: nat, id: string)
  {
    exists q :: q in s.txns && q != p && id in Locks(s.txns[q])
  }

  ghost predicate Free(s: State, id: string)
  {
    forall q <- s.txns :: id !in Locks(s.txns[q])
  }

  ghost function LockedElsewhere(s: State, p: nat): set<string>
  {
    set id | id in s.rows && LockedByOther(s, p, id)
  }

  function StaleRows(rows: Table, now: int): set<string>
  {
    set id | id in rows && Stale(rows[id], now)
  }

  /** The table as the open transaction sees it: its own reclaims on top of what is committed. */
  function View(rows: Table, t: Txn): Table
  {
    map id | id in rows :: if id in t.reclaimed then rows[id].(status := Pending, updated := t.now) else rows[id]
  }

  ghost predicate Enabled(s: State, act: Act)
  {
    match act
    case Tick(time) => s.clock <= time
    case Insert(id, row) => id !in s.rows && row.status == Pending
    case Begin(p, _) => p !in s.txns
    case Reclaim(p) =>
      // the reclaim waits for locked stale rows
      p in s.txns && s.txns[p].stage == Begun
      && forall id <- StaleRows(s.rows, s.txns[p].now) :: !LockedByOther(s, p, id)
    case Select(p, chosen) =>
      p in s.txns && s.txns[p].stage == Swept
      && Oldest(View(s.rows, s.txns[p]), s.txns[p].now, LockedElsewhere(s, p), s.txns[p].limit, chosen)
    case Commit(p) => p in s.txns && s.txns[p].stage == Selected
    case Rollback(p) => p in s.txns
    case Finish(id, status) => id in s.rows && Free(s, id) && (status == Published || status == Failed)
    case RecordFailure(id, _, _) => id in s.rows && Free(s, id)
  }

  function Next(s: State, act: Act): State
    requires (act.Reclaim? || act.Select? || act.Commit?) ==> act.p in s.txns
    requires (act.Finish? || act.RecordFailure?) ==> act.id in s.rows
  {
    match act
    case Tick(time) => s.(clock := time)
    case Insert(id, row) => s.(rows := s.rows[id := row])
    case Begin(p, limit) => s.(txns := s.txns[p := Txn(s.clock, limit, Begun, {}, {})])
    case Reclaim(p) => s.(txns := s.txns[p := s.txns[p].(stage := Swept, reclaimed := StaleRows(s.rows, s.txns[p].now))])
    case Select(p, chosen) => s.(txns := s.txns[p := s.txns[p].(stage := Selected, chosen := chosen)])
    case Commit(p) =>
      var t := s.txns[p];
      State(WithClaims(View(s.rows, t), t.chosen, t.now), s.clock, s.txns - {p},
            s.log + [Requeued(t.reclaimed), Returned(p, t.chosen)])
    case Rollback(p) => s.(txns := s.txns - {p})
    case Finish(id, status) => s.(rows := s.rows[id := s.rows[id].(status := status, updated := s.clock)])
    case RecordFailure(id, maxRetries, cap) =>
      s.(rows := s.rows[id := AfterFailure(s.rows[id], s.clock, maxRetries, cap)], log := s.log + [Refused(id)])
  }

  ghost predicate Runs(s: State, acts: seq<Act>)
    decreases |acts|, 0
  {
    acts == [] || (Runs(s, acts[..|acts| - 1]) && Enabled(After(s, acts[..|acts| - 1]), acts[|acts| - 1]))
  }

  ghost function After(s: State, acts: seq<Act>): State
    requires Runs(s, acts)
    decreases |acts|, 1
  {
    if acts == [] then s else Next(After(s, acts[..|acts| - 1]), acts[|acts| - 1])
  }

  predicate Initial(s: State)
  {
    s.txns == map[] && s.log == []
  }

  // ---------- claim exclusivity ----------

  predicate PutsBack(e: Event, id: string)
  {
    (e.Requeued? && id in e.ids) || (e.Refused? && e.id == id)
  }

  predicate Returns(e: Event, id: string)
  {
    e.Returned? && id in e.batch
  }

  /** The last thing the history says about `id` is that a poller got it. */
  predicate Taken(log: seq<Event>, id: string)
  {
    if log == [] then false
    else if PutsBack(log[|log| - 1], id) then false
    else Returns(log[|log| - 1], id) || Taken(log[..|log| - 1], id)
  }

  ghost predicate ReturnsUntaken(before: seq<Event>, e: Event)
  {
    forall id :: Returns(e, id) ==> !Taken(before, id)
  }

  /** No batch returns a row that was taken. */
  ghost predicate Exclusive(log: seq<Event>)
  {
    log == [] || (Exclusive(log[..|log| - 1]) && ReturnsUntaken(log[..|log| - 1], log[|log| - 1]))
  }

  /** A row is returned twice only if in between it was put back. */
  lemma {:induction false} TakenUntilPutBack(log: seq<Event>, i: nat, id: string)
    requires i < |log| && Returns(log[i], id)
    ensures Taken(log, id) || exists k :: i < k < |log| && PutsBack(log[k], id)
    decreases |log|
  {
    if i == |log| - 1 {
    } else if !PutsBack(log[|log| - 1], id) {
      TakenUntilPutBack(log[..|log| - 1], i, id);
    }
  }

  lemma {:induction false} ExclusiveMeans(log: seq<Event>, i: nat, j: nat, id: string)
    requires Exclusive(log)
    requires i < j < |log| && Returns(log[i], id) && Returns(log[j], id)
    ensures exists k :: i < k < j && PutsBack(log[k], id)
    decreases |log|
  {
    var init := log[..|log| - 1];
    if j < |log| - 1 {
      ExclusiveMeans(init, i, j, id);
      var k :| i < k < j && PutsBack(init[k], id);
      assert PutsBack(log[k], id);
    } else {
      TakenUntilPutBack(init, i, id);
      var k :| i < k < |init| && PutsBack(init[k], id);
      assert PutsBack(log[k], id);
    }
  }

  // ---------- the invariant ----------

  ghost predicate TxnInv(s: State, p: nat)
    requires p in s.txns
  {
    var t := s.txns[p];
    && t.reclaimed <= s.rows.Keys && t.chosen <= s.rows.Keys
    && |t.chosen| <= t.limit
    && (t.stage == Begun ==> t.reclaimed == {})
    && (t.stage != Selected ==> t.chosen == {})
    && (forall id <- t.reclaimed :: s.rows[id].status == Claimed)
    && (forall id <- t.chosen :: Due(View(s.rows, t)[id], t.now))
  }

  ghost predicate Disjoint(s: State, p: nat, q: nat)
    requires p in s.txns && q in s.txns
  {
    Locks(s.txns[p]) !! Locks(s.txns[q])
  }

  ghost predicate TakenInv(s: State, id: string)
  {
    Taken(s.log, id) ==> id in s.rows && s.rows[id].status != Pending
  }

  ghost predicate Inv(s: State)
  {
    && Exclusive(s.log)
    && (forall p {:trigger TxnInv(s, p)} | p in s.txns :: TxnInv(s, p))
    && (forall p, q {:trigger Disjoint(s, p, q)} | p in s.txns && q in s.txns && p != q :: Disjoint(s, p, q))
    && (forall id {:trigger TakenInv(s, id)} :: TakenInv(s, id))
  }

  lemma TakenAfter(log: seq<Event>, e: Event, id: string)
    ensures Taken(log + [e], id) <==> !PutsBack(e, id) && (Returns(e, id) || Taken(log, id))
  {
    assert (log + [e])[..|log|] == log;
  }

  lemma ExclusiveAfter(log: seq<Event>, e: Event)
    requires Exclusive(log) && ReturnsUntaken(log, e)
    ensures Exclusive(log + [e])
  {
    assert (log + [e])[..|log|] == log;
  }

  /** A transaction's facts survive any step that leaves it and the rows it has locked alone. */
  lemma TxnFrame(s: State, s': State, p: nat)
    requires p in s.txns && TxnInv(s, p)
    requires p in s'.txns && s'.txns[p] == s.txns[p]
    requires s.rows.Keys <= s'.rows.Keys
    requires forall id <- Locks(s.txns[p]) :: id in s.rows ==> s'.rows[id] == s.rows[id]
    ensures TxnInv(s', p)
  {
    var t := s.txns[p];
    forall id | id in t.reclaimed ensures s'.rows[id].status == Claimed {
      assert id in Locks(t);
    }
    forall id | id in t.chosen ensures Due(View(s'.rows, t)[id], t.now) {
      assert id in Locks(t) && Due(View(s.rows, t)[id], t.now);
    }
  }

  /** Steps that open no transaction and lock nothing keep the locks disjoint. */
  lemma DisjointFrame(s: State, s': State)
    requires Inv(s)
    requires forall p <- s'.txns :: p in s.txns && s'.txns[p] == s.txns[p]
    ensures forall p, q {:trigger Disjoint(s', p, q)} | p in s'.txns && q in s'.txns && p != q :: Disjoint(s', p, q)
  {
    forall p, q | p in s'.txns && q in s'.txns && p != q ensures Disjoint(s', p, q) {
      assert Disjoint(s, p, q);
    }
  }

  lemma FailureKeepsInv(s: State, act: Act)
    requires Inv(s) && Enabled(s, act) && act.RecordFailure?
    ensures Inv(Next(s, act))
  {
    hide AfterFailure, Taken, Exclusive, Due;
    var s' := Next(s, act);
    ExclusiveAfter(s.log, Refused(act.id));
    DisjointFrame(s, s');
    forall p | p in s'.txns ensures TxnInv(s', p) {
      assert TxnInv(s, p);
      TxnFrame(s, s', p);
    }
    forall id ensures TakenInv(s', id) {
      assert TakenInv(s, id);
      TakenAfter(s.log, Refused(act.id), id);
    }
  }

  lemma WriteKeepsInv(s: State, act: Act)
    requires Inv(s) && Enabled(s, act)
    requires act.Finish? || act.Insert? || act.Tick?
    ensures Inv(Next(s, act))
  {
    hide AfterFailure, Taken, Exclusive;
    var s' := Next(s, act);
    DisjointFrame(s, s');
    forall p | p in s'.txns ensures TxnInv(s', p) {
      assert TxnInv(s, p);
      TxnFrame(s, s', p);
    }
    forall id ensures TakenInv(s', id) { assert TakenInv(s, id); }
  }

  lemma BeginOrRollbackKeepsInv(s: State, act: Act)
    requires Inv(s) && Enabled(s, act)
    requires act.Begin? || act.Rollback?
    ensures Inv(Next(s, act))
  {
    var s' := Next(s, act);
    forall p | p in s'.txns ensures TxnInv(s', p) {
      if p in s.txns {
        assert TxnInv(s, p);
        TxnFrame(s, s', p);
      }
    }
    forall p, q | p in s'.txns && q in s'.txns && p != q ensures Disjoint(s', p, q) {
      assert p in s.txns && q in s.txns ==> Disjoint(s, p, q);
    }
    forall id ensures TakenInv(s', id) { assert TakenInv(s, id); }
  }

  /** Taking locks nobody else holds keeps the locks disjoint. */
  lemma LockingKeepsInv(s: State, p: nat, t: Txn)
    requires Inv(s) && p in s.txns
    requires forall id <- Locks(t) - Locks(s.txns[p]) :: !LockedByOther(s, p, id)
    requires TxnInv(s.(txns := s.txns[p := t]), p)
    ensures Inv(s.(txns := s.txns[p := t]))
  {
    var s' := s.(txns := s.txns[p := t]);
    forall q | q in s'.txns ensures TxnInv(s', q) {
      if q != p {
        assert TxnInv(s, q);
        TxnFrame(s, s', q);
      }
    }
    forall q, r | q in s'.txns && r in s'.txns && q != r ensures Disjoint(s', q, r) {
      assert Disjoint(s, q, r) && Disjoint(s, r, q);
      forall id | id in Locks(s'.txns[q]) ensures id !in Locks(s'.txns[r]) {
        var other := if q == p then r else q;
        assert id in Locks(s.txns[other]) && other != p ==> LockedByOther(s, p, id);
      }
    }
    forall id ensures TakenInv(s', id) { assert TakenInv(s, id); }
  }

  lemma ReclaimKeepsInv(s: State, p: nat)
    requires Inv(s) && Enabled(s, Reclaim(p))
    ensures Inv(Next(s, Reclaim(p)))
  {
    assert TxnInv(s, p);
    LockingKeepsInv(s, p, Next(s, Reclaim(p)).txns[p]);
  }

  lemma SelectKeepsInv(s: State, p: nat, chosen: set<string>)
    requires Inv(s) && Enabled(s, Select(p, chosen))
    ensures Inv(Next(s, Select(p, chosen)))
  {
    assert TxnInv(s, p);
    var t := Next(s, Select(p, chosen)).txns[p];
    forall id | id in chosen ensures Due(View(s.rows, t)[id], t.now) && !LockedByOther(s, p, id) && id in s.rows {
      assert id in Eligible(View(s.rows, s.txns[p]), s.txns[p].now, LockedElsewhere(s, p));
      assert View(s.rows, t) == View(s.rows, s.txns[p]);
    }
    LockingKeepsInv(s, p, t);
  }

  /** What a poller gets was pending and due in its view, so nobody else still has it. */
  lemma CommitReturnsUntaken(s: State, p: nat)
    requires Inv(s) && Enabled(s, Commit(p))
    ensures ReturnsUntaken(s.log + [Requeued(s.txns[p].reclaimed)], Returned(p, s.txns[p].chosen))
  {
    assert TxnInv(s, p);
    var t := s.txns[p];
    forall id | id in t.chosen ensures !Taken(s.log + [Requeued(t.reclaimed)], id) {
      TakenAfter(s.log, Requeued(t.reclaimed), id);
      assert TakenInv(s, id) && Due(View(s.rows, t)[id], t.now);
    }
  }

  lemma CommitKeepsInv(s: State, p: nat)
    requires Inv(s) && Enabled(s, Commit(p))
    ensures Inv(Next(s, Commit(p)))
  {
    var s', t := Next(s, Commit(p)), s.txns[p];
    var swept := s.log + [Requeued(t.reclaimed)];
    assert TxnInv(s, p);
    CommitReturnsUntaken(s, p);
    ExclusiveAfter(s.log, Requeued(t.reclaimed));
    ExclusiveAfter(swept, Returned(p, t.chosen));
    assert s'.log == swept + [Returned(p, t.chosen)];
    DisjointFrame(s, s');
    forall q | q in s'.txns ensures TxnInv(s', q) {
      assert TxnInv(s, q) && Disjoint(s, p, q);
      TxnFrame(s, s', q);
    }
    forall id ensures TakenInv(s', id) {
      assert TakenInv(s, id);
      TakenAfter(s.log, Requeued(t.reclaimed), id);
      TakenAfter(swept, Returned(p, t.chosen), id);
    }
  }

  lemma InvKept(s: State, act: Act)
    requires Inv(s) && Enabled(s, act)
    ensures Inv(Next(s, act))
  {
    match act
    case Begin(_, _) => BeginOrRollbackKeepsInv(s, act);
    case Rollback(_) => BeginOrRollbackKeepsInv(s, act);
    case Reclaim(p) => ReclaimKeepsInv(s, p);
    case Select(p, chosen) => SelectKeepsInv(s, p, chosen);
    case Commit(p) => CommitKeepsInv(s, p);
    case RecordFailure(_, _, _) => FailureKeepsInv(s, act);
    case _ => WriteKeepsInv(s, act);
  }

  // ---------- whole runs ----------

  lemma {:induction false} AlwaysInv(s: State, acts: seq<Act>)
    requires Initial(s) && Runs(s, acts)
    ensures Inv(After(s, acts))
    decreases |acts|
  {
    if acts == [] {
      assert forall id :: TakenInv(s, id);
    } else {
      AlwaysInv(s, acts[..|acts| - 1]);
      InvKept(After(s, acts[..|acts| - 1]), acts[|acts| - 1]);
    }
  }

  /** Claim exclusivity: in every run, a row is in two returned batches only if a recorded publish failure or
      a stale-claim reclaim put it back in between. */
  lemma NoDoubleClaim(s: State, acts: seq<Act>, i: nat, j: nat, id: string)
    requires Initial(s) && Runs(s, acts)
    requires i < j < |After(s, acts).log|
    requires Returns(After(s, acts).log[i], id) && Returns(After(s, acts).log[j], id)
    ensures exists k :: i < k < j && PutsBack(After(s, acts).log[k], id)
  {
    AlwaysInv(s, acts);
    ExclusiveMeans(After(s, acts).log, i, j, id);
  }

  /** The relays' writes: a finished row has its final status, a failed publish is counted and recorded. */
  lemma WritesShow(s: State, act: Act)
    requires Enabled(s, act) && (act.Finish? || act.RecordFailure?)
    ensures var s', r := Next(s, act), s.rows[act.id];
            && act.id in s'.rows && s'.rows.Keys == s.rows.Keys
            && (forall id <- s.rows :: id != act.id ==> s'.rows[id] == s.rows[id])
            && s'.rows[act.id].updated == s.clock
            && (act.Finish? ==> s'.rows[act.id].status == act.status && s'.rows[act.id].retries == r.retries && s'.log == s.log)
            && (act.RecordFailure? ==>
                  && s'.rows[act.id].retries == r.retries + 1 && s'.log == s.log + [Refused(act.id)]
                  && s'.rows[act.id].status == if r.retries + 1 >= act.maxRetries then Failed else Pending)
  {
    hide DelaySeconds;
  }

  /** A reclaim puts back exactly the rows claimed more than 30 seconds ago. */
  lemma ReclaimIsOfStale(s: State, p: nat)
    requires Enabled(s, Reclaim(p))
    ensures forall id :: id in Next(s, Reclaim(p)).txns[p].reclaimed <==>
              id in s.rows && s.rows[id].status == Claimed && s.rows[id].updated < s.txns[p].now - 30_000_000
  {
  }

  /** A returned batch respects its limit, and each of its rows was pending and due for the poller, and is
      now claimed. */
  lemma BatchWasDue(s: State, acts: seq<Act>, p: nat)
    requires Initial(s) && Runs(s, acts) && Enabled(After(s, acts), Commit(p))
    ensures var t, t' := After(s, acts), Next(After(s, acts), Commit(p));
            var batch := t.txns[p].chosen;
            && t'.log[|t'.log| - 1] == Returned(p, batch) && |batch| <= t.txns[p].limit
            && forall id <- batch ::
                 && id in t.rows && Due(View(t.rows, t.txns[p])[id], t.txns[p].now)
                 && t.rows[id].nextAttempt <= t.txns[p].now
                 && (t.rows[id].status == Pending || id in t.txns[p].reclaimed)
                 && t'.rows[id] == t.rows[id].(status := Claimed, updated := t.txns[p].now)
    ensures var t, t' := After(s, acts), Next(After(s, acts), Commit(p));
            forall id <- t.rows :: id !in t.txns[p].chosen ==>
              t'.rows[id] == if id in t.txns[p].reclaimed then t.rows[id].(status := Pending, updated := t.txns[p].now)
                             else t.rows[id]
  {
    AlwaysInv(s, acts);
    assert TxnInv(After(s, acts), p);
  }
}
