/** The outbox relay: one claimed batch processed row by row, and the loop that drains the outbox. */
module Relay {
  import opened Prelude
  import opened Sums
  import opened Ids
  import opened Outbox

  /** How publishing one row goes. */
  datatype Outcome = Sent | Refused | Unencodable

  /** What one goroutine meets: the publish outcome, the time of its status write, and whether the database
      answers that write and Redis the release of the lock. */
  datatype Attempt = Attempt(outcome: Outcome, at: int, writes: bool, frees: bool)

  /** What the outside world does during one pass: whether the claim query is answered and at what time, and what
      the goroutine of each row meets. */
  datatype Pass = Pass(answers: bool, now: int, attempt: string -> Attempt)

  // ---------- the effect of processing one row ----------

  /** A status write that is not answered leaves the row claimed. */
  function Processed(r: Row, a: Attempt, maxRetries: int, cap: int): Row
  {
    if !a.writes then r
    else match a.outcome
      case Sent => r.(status := Published, updated := a.at)
      case Refused => AfterFailure(r, a.at, maxRetries, cap)
      case Unencodable => r.(status := Failed, updated := a.at)
  }

  /** The goroutine goes on to free the lock: always for an unencodable row, otherwise if the recorded failure was
      the last one allowed. */
  predicate GivesUp(r: Row, a: Attempt, maxRetries: int)
  {
    a.outcome == Unencodable || (a.outcome == Refused && a.writes && r.retries + 1 >= maxRetries)
  }

  predicate Releases(r: Row, a: Attempt, maxRetries: int)
  {
    a.frees && GivesUp(r, a, maxRetries)
  }

  function LockOf(r: Row): string
  {
    ReleasedKey(r.key, r.partition)
  }

  /** A goroutine gives up exactly when its row has failed for good - unless the row was unencodable and writing
      that down was not answered: then the lock goes although the row will be tried again. */
  lemma ReleasesWhenFailed(r: Row, a: Attempt, maxRetries: int, cap: int)
    requires r.status != Failed
    ensures (GivesUp(r, a, maxRetries) <==> Processed(r, a, maxRetries, cap).status == Failed)
       <==> (a.outcome == Unencodable ==> a.writes)
    ensures LockOf(Processed(r, a, maxRetries, cap)) == LockOf(r)
  {
    hide DelaySeconds;
  }

  function AfterBatch(t: Table, batch: set<string>, pass: Pass, maxRetries: int, cap: int): Table
  {
    map id | id in t :: if id in batch then Processed(t[id], pass.attempt(id), maxRetries, cap) else t[id]
  }

  function FreedLocks(t: Table, batch: set<string>, pass: Pass, maxRetries: int): set<string>
  {
    set id | id in batch && id in t && Releases(t[id], pass.attempt(id), maxRetries) :: LockOf(t[id])
  }

  lemma NextElement(batch: seq<string>, i: nat)
    requires Distinct(batch) && i < |batch|
    ensures batch[i] in Elements(batch) && batch[i] !in Elements(batch[..i])
    ensures Elements(batch[..i + 1]) == Elements(batch[..i]) + {batch[i]}
  {
    assert batch[..i + 1] == batch[..i] + [batch[i]];
  }

  lemma NoRowYet(t: Table, held: set<string>, pass: Pass, maxRetries: int, cap: int)
    ensures AfterBatch(t, {}, pass, maxRetries, cap) == t && held - FreedLocks(t, {}, pass, maxRetries) == held
  {
  }

  /** Processing one more row: order does not matter, only which rows are done. */
  lemma OneMoreRow(t: Table, done: set<string>, id: string, pass: Pass, maxRetries: int, cap: int)
    requires id in t && id !in done
    ensures id in AfterBatch(t, done, pass, maxRetries, cap) && AfterBatch(t, done, pass, maxRetries, cap)[id] == t[id]
    ensures AfterBatch(t, done + {id}, pass, maxRetries, cap)
         == AfterBatch(t, done, pass, maxRetries, cap)[id := Processed(t[id], pass.attempt(id), maxRetries, cap)]
    ensures FreedLocks(t, done + {id}, pass, maxRetries)
         == FreedLocks(t, done, pass, maxRetries) + if Releases(t[id], pass.attempt(id), maxRetries) then {LockOf(t[id])} else {}
  {
    hide DelaySeconds;
    var freed := if Releases(t[id], pass.attempt(id), maxRetries) then {LockOf(t[id])} else {};
    forall k | k in FreedLocks(t, done, pass, maxRetries) + freed ensures k in FreedLocks(t, done + {id}, pass, maxRetries) {
      if k in freed {
        assert id in done + {id};
      } else {
        var x :| x in done && x in t && Releases(t[x], pass.attempt(x), maxRetries) && LockOf(t[x]) == k;
        assert x in done + {id};
      }
    }
  }

  // ---------- remaining attempts ----------

  /** Rows still to be published have attempts left. */
  ghost predicate Live(t: Table, maxRetries: int)
  {
    forall id <- t :: Terminal(t[id]) || t[id].retries < maxRetries
  }

  ghost function Attempts(t: Table, maxRetries: int): string -> int
  {
    id => if id in t && !Terminal(t[id]) then maxRetries - t[id].retries else 0
  }

  ghost function Budget(t: Table, maxRetries: int): int
  {
    Sum(t.Keys, Attempts(t, maxRetries))
  }

  ghost predicate Unpublished(t: Table, batch: set<string>)
  {
    forall id <- batch :: id in t && !Terminal(t[id])
  }

  /** The rows of a batch whose status write is answered. */
  function Answered(batch: set<string>, pass: Pass): set<string>
  {
    set id | id in batch && pass.attempt(id).writes
  }

  /** Every row whose status is written uses up at least one attempt, whatever that status is. */
  lemma BatchUsesAttempts(t: Table, batch: set<string>, pass: Pass, maxRetries: int, cap: int)
    requires Live(t, maxRetries) && Unpublished(t, batch)
    ensures Live(AfterBatch(t, batch, pass, maxRetries, cap), maxRetries)
    ensures Budget(AfterBatch(t, batch, pass, maxRetries, cap), maxRetries) + |Answered(batch, pass)| <= Budget(t, maxRetries)
  {
    hide DelaySeconds;
    var t' := AfterBatch(t, batch, pass, maxRetries, cap);
    assert t'.Keys == t.Keys;
    SumDrops(t.Keys, Answered(batch, pass), Attempts(t, maxRetries), Attempts(t', maxRetries));
  }

  lemma ClaimedStatus(t: Table, batch: set<string>, now: int, id: string)
    requires batch <= Eligible(Reclaimed(t, now), now, {}) && id in t
    ensures var t' := WithClaims(Reclaimed(t, now), batch, now);
            && id in t' && t'[id].retries == t[id].retries && (Terminal(t'[id]) <==> Terminal(t[id]))
            && (id in batch ==> !Terminal(t'[id]))
  {
  }

  lemma EligibleExist(t: Table, now: int)
    ensures Eligible(Reclaimed(t, now), now, {}) <= t.Keys
  {
  }

  /** Reclaiming and claiming use up nothing. */
  lemma ClaimUsesNothing(t: Table, batch: set<string>, now: int, maxRetries: int)
    requires Live(t, maxRetries)
    requires batch <= Eligible(Reclaimed(t, now), now, {})
    ensures var t' := WithClaims(Reclaimed(t, now), batch, now);
            && t'.Keys == t.Keys && Live(t', maxRetries) && Unpublished(t', batch)
            && Budget(t', maxRetries) == Budget(t, maxRetries)
  {
    var t' := WithClaims(Reclaimed(t, now), batch, now);
    assert t'.Keys == t.Keys;
    hide WithClaims, Reclaimed, Eligible;
    forall id | id in t
      ensures Attempts(t', maxRetries)(id) == Attempts(t, maxRetries)(id)
      ensures t'[id].retries == t[id].retries && (Terminal(t'[id]) <==> Terminal(t[id]))
      ensures id in batch ==> !Terminal(t'[id])
    {
      ClaimedStatus(t, batch, now, id);
    }
    assert forall id <- batch :: id in t by { EligibleExist(t, now); }
    SumSame(t.Keys, Attempts(t, maxRetries), Attempts(t', maxRetries));
  }

  lemma BudgetNonNegative(t: Table, maxRetries: int)
    requires Live(t, maxRetries)
    ensures Budget(t, maxRetries) >= 0
  {
    SumZero(t.Keys, (id: string) => 0);
    SumDrops(t.Keys, {}, Attempts(t, maxRetries), (id: string) => 0);
  }

  /** The clock of the writes does not run behind the claim, and backoff delays stay clear of the sign bit. */
  ghost predicate Timely(pass: Pass, maxRetries: int, cap: int)
  {
    cap >= 1 && maxRetries <= 30 && forall id :: pass.attempt(id).at >= pass.now
  }

  /** Nothing is left that was due when the claim was made. */
  predicate NothingDue(t: Table, now: int)
  {
    forall id <- t :: t[id].status == Pending ==> t[id].nextAttempt > now
  }

  /** A batch as claimed: stale claims put back, then the chosen rows claimed. */
  function ClaimedTable(t: Table, chosen: set<string>, now: int): Table
  {
    WithClaims(Reclaimed(t, now), chosen, now)
  }

  lemma DrainedTable(t: Table, batch: set<string>, pass: Pass, maxRetries: int, cap: int)
    requires batch == Eligible(Reclaimed(t, pass.now), pass.now, {})
    requires Live(t, maxRetries) && Timely(pass, maxRetries, cap)
    ensures NothingDue(AfterBatch(ClaimedTable(t, batch, pass.now), batch, pass, maxRetries, cap), pass.now)
  {
    hide DelaySeconds;
    var t1 := ClaimedTable(t, batch, pass.now);
    var t' := AfterBatch(t1, batch, pass, maxRetries, cap);
    forall id | id in t' && t'[id].status == Pending ensures t'[id].nextAttempt > pass.now {
      if id in batch {
        DelayPositive(t1[id].retries, cap);
        assert (t1[id].retries + 1) % 32 != 31;
      } else {
        assert id !in Eligible(Reclaimed(t, pass.now), pass.now, {});
      }
    }
  }

  // ---------- passes ----------

  /** The rows a pass claims from `t`. */
  ghost predicate Takes(t: Table, chosen: set<string>, pass: Pass, limit: nat)
  {
    if pass.answers then Oldest(Reclaimed(t, pass.now), pass.now, {}, limit, chosen) else chosen == {}
  }

  function TableAfter(t: Table, chosen: set<string>, pass: Pass, maxRetries: int, cap: int): Table
  {
    if pass.answers then AfterBatch(ClaimedTable(t, chosen, pass.now), chosen, pass, maxRetries, cap) else t
  }

  function HeldAfter(t: Table, held: set<string>, chosen: set<string>, pass: Pass, maxRetries: int): set<string>
  {
    if pass.answers then held - FreedLocks(ClaimedTable(t, chosen, pass.now), chosen, pass, maxRetries) else held
  }

  /** What a pass does to one row. */
  lemma RowAfter(t: Table, chosen: set<string>, pass: Pass, limit: nat, maxRetries: int, cap: int, id: string)
    requires Takes(t, chosen, pass, limit) && id in t
    ensures var t' := TableAfter(t, chosen, pass, maxRetries, cap);
            && t'.Keys == t.Keys && LockOf(t'[id]) == LockOf(t[id])
            && (Terminal(t[id]) ==> id !in chosen && t'[id] == t[id])
            && (id !in chosen ==> t'[id].retries == t[id].retries && (Terminal(t'[id]) <==> Terminal(t[id])))
            && (id in chosen ==> t'[id] == Processed(ClaimedTable(t, chosen, pass.now)[id], pass.attempt(id), maxRetries, cap))
            && (id in chosen ==> ClaimedTable(t, chosen, pass.now)[id].status == Claimed)
            && (id in chosen ==> ClaimedTable(t, chosen, pass.now)[id].retries == t[id].retries)
            && (id in chosen ==> LockOf(ClaimedTable(t, chosen, pass.now)[id]) == LockOf(t[id]))
  {
    hide DelaySeconds;
  }

  /** One pass: rows kept, attempts used up, and nothing due left if it was short. */
  lemma PassEffects(t: Table, chosen: set<string>, pass: Pass, limit: nat, maxRetries: int, cap: int)
    requires Live(t, maxRetries) && Takes(t, chosen, pass, limit)
    ensures var t' := TableAfter(t, chosen, pass, maxRetries, cap);
            && t'.Keys == t.Keys && Live(t', maxRetries)
            && 0 <= Budget(t', maxRetries) && Budget(t', maxRetries) + |Answered(chosen, pass)| <= Budget(t, maxRetries)
            && (pass.answers && |chosen| < limit && Timely(pass, maxRetries, cap) ==> NothingDue(t', pass.now))
  {
    hide Live, Unpublished, Budget, NothingDue, Timely, Processed, Eligible, Reclaimed;
    if pass.answers {
      var claimed := ClaimedTable(t, chosen, pass.now);
      ClaimUsesNothing(t, chosen, pass.now, maxRetries);
      BatchUsesAttempts(claimed, chosen, pass, maxRetries, cap);
      if |chosen| < limit && Timely(pass, maxRetries, cap) {
        DrainedTable(t, chosen, pass, maxRetries, cap);
      }
    } else {
      assert Answered(chosen, pass) == {};
    }
    BudgetNonNegative(TableAfter(t, chosen, pass, maxRetries, cap), maxRetries);
  }

  // ---------- the lock over whole runs of passes ----------

  /** No other unfinished row uses this row's lock: what the admission of requests guarantees. */
  ghost predicate Sole(t: Table, id: string)
  {
    id in t && forall o <- t :: o != id && LockOf(t[o]) == LockOf(t[id]) ==> Terminal(t[o])
  }

  /** The lock of row `id` is not given away before the row has failed for good. Only the relay's own releases are
      counted here: what the handler of a published row gives back is part of `InFlight`. */
  ghost predicate HeldUntilFailed(t: Table, held: set<string>, id: string)
  {
    id in t && (t[id].status == Failed || LockOf(t[id]) in held)
  }

  /** ... and it is not kept longer. */
  ghost predicate Guarded(t: Table, held: set<string>, id: string)
  {
    Sole(t, id) && (LockOf(t[id]) in held <==> t[id].status != Failed)
  }

  /** The row cannot be encoded, marking it failed is not answered, and Redis frees its lock. */
  predicate Early(a: Attempt)
  {
    a.outcome == Unencodable && !a.writes && a.frees
  }

  /** On giving up, the status write and the release of the lock are answered both or neither. */
  predicate EvenHanded(r: Row, a: Attempt, maxRetries: int)
  {
    GivesUp(r, a, maxRetries) ==> (a.frees <==> a.writes)
  }

  lemma SoleKept(t: Table, chosen: set<string>, pass: Pass, limit: nat, maxRetries: int, cap: int, id: string)
    requires Sole(t, id) && Takes(t, chosen, pass, limit)
    ensures Sole(TableAfter(t, chosen, pass, maxRetries, cap), id)
  {
    hide TableAfter, Takes, LockOf, Processed, ClaimedTable;
    RowAfter(t, chosen, pass, limit, maxRetries, cap, id);
    forall o | o in t && o != id && LockOf(TableAfter(t, chosen, pass, maxRetries, cap)[o]) == LockOf(t[id])
      ensures o in TableAfter(t, chosen, pass, maxRetries, cap) && Terminal(TableAfter(t, chosen, pass, maxRetries, cap)[o])
    {
      RowAfter(t, chosen, pass, limit, maxRetries, cap, o);
    }
  }

  /** A pass frees the lock of a sole row exactly if it processes the row and gives up on it. */
  lemma LockAfter(t: Table, held: set<string>, chosen: set<string>, pass: Pass, limit: nat, maxRetries: int, id: string)
    requires Sole(t, id) && Takes(t, chosen, pass, limit)
    ensures LockOf(t[id]) in HeldAfter(t, held, chosen, pass, maxRetries)
       <==> LockOf(t[id]) in held && !(id in chosen && Releases(t[id], pass.attempt(id), maxRetries))
  {
    hide LockOf, Releases, Stale, Due;
    if pass.answers {
      var claimed := ClaimedTable(t, chosen, pass.now);
      forall o | o in chosen
        ensures o in t && !Terminal(t[o]) && LockOf(claimed[o]) == LockOf(t[o])
        ensures Releases(claimed[o], pass.attempt(o), maxRetries) <==> Releases(t[o], pass.attempt(o), maxRetries)
      {
        ClaimedRow(t, chosen, pass.now, o);
      }
    }
  }

  lemma ClaimedRow(t: Table, chosen: set<string>, now: int, o: string)
    requires chosen <= Eligible(Reclaimed(t, now), now, {}) && o in chosen
    ensures o in t && !Terminal(t[o])
    ensures ClaimedTable(t, chosen, now)[o] == t[o].(status := Claimed, updated := now)
    ensures LockOf(ClaimedTable(t, chosen, now)[o]) == LockOf(t[o])
    ensures forall a: Attempt, maxRetries: int ::
              Releases(ClaimedTable(t, chosen, now)[o], a, maxRetries) <==> Releases(t[o], a, maxRetries)
  {
  }

  /** What a pass does to one row and its lock. */
  lemma RowAndLockAfter(
    t: Table, held: set<string>, chosen: set<string>, pass: Pass, limit: nat, maxRetries: int, cap: int, id: string)
    requires Sole(t, id) && Takes(t, chosen, pass, limit)
    ensures var t', held', a := TableAfter(t, chosen, pass, maxRetries, cap),
                                HeldAfter(t, held, chosen, pass, maxRetries), pass.attempt(id);
            && id in t' && Sole(t', id) && (id in chosen ==> t[id].status != Failed)
            && (t'[id].status == Failed <==>
                  t[id].status == Failed || (id in chosen && a.writes && GivesUp(t[id], a, maxRetries)))
            && (LockOf(t'[id]) in held' <==>
                  LockOf(t[id]) in held && !(id in chosen && a.frees && GivesUp(t[id], a, maxRetries)))
  {
    hide TableAfter, HeldAfter, Takes, LockOf, Processed, ClaimedTable, AfterFailure;
    SoleKept(t, chosen, pass, limit, maxRetries, cap, id);
    LockAfter(t, held, chosen, pass, limit, maxRetries, id);
    RowAfter(t, chosen, pass, limit, maxRetries, cap, id);
    if id in chosen {
      assert pass.answers && id in ClaimedTable(t, chosen, pass.now) by { TakesKnown(t, chosen, pass, limit, id); }
      FailedByWriting(ClaimedTable(t, chosen, pass.now)[id], pass.attempt(id), maxRetries, cap);
    } else {
      StatusKept(t, chosen, pass, maxRetries, cap, id);
    }
  }

  lemma FailedByWriting(r: Row, a: Attempt, maxRetries: int, cap: int)
    requires r.status != Failed
    ensures Processed(r, a, maxRetries, cap).status == Failed <==> a.writes && GivesUp(r, a, maxRetries)
  {
    hide DelaySeconds;
  }

  /** A pass keeps a row guarded if and only if, should it process the row and give up on it, it gets both the status
      write and the release answered, or neither. */
  lemma GuardedKept(
    t: Table, held: set<string>, chosen: set<string>, pass: Pass, limit: nat, maxRetries: int, cap: int, id: string)
    requires Guarded(t, held, id) && Takes(t, chosen, pass, limit)
    ensures Guarded(TableAfter(t, chosen, pass, maxRetries, cap), HeldAfter(t, held, chosen, pass, maxRetries), id)
       <==> (id in chosen ==> EvenHanded(t[id], pass.attempt(id), maxRetries))
  {
    hide TableAfter, HeldAfter, Takes, LockOf, GivesUp;
    RowAndLockAfter(t, held, chosen, pass, limit, maxRetries, cap, id);
  }

  /** A pass gives a lock away too early if and only if it processes the row and that ends early. */
  lemma HeldUntilFailedKept(
    t: Table, held: set<string>, chosen: set<string>, pass: Pass, limit: nat, maxRetries: int, cap: int, id: string)
    requires Sole(t, id) && HeldUntilFailed(t, held, id) && Takes(t, chosen, pass, limit)
    ensures HeldUntilFailed(TableAfter(t, chosen, pass, maxRetries, cap), HeldAfter(t, held, chosen, pass, maxRetries), id)
       <==> !(id in chosen && Early(pass.attempt(id)))
  {
    hide TableAfter, HeldAfter, Takes, LockOf;
    RowAndLockAfter(t, held, chosen, pass, limit, maxRetries, cap, id);
  }

  lemma TakesKnown(t: Table, chosen: set<string>, pass: Pass, limit: nat, id: string)
    requires Takes(t, chosen, pass, limit) && id in chosen
    ensures pass.answers && id in ClaimedTable(t, chosen, pass.now)
  {
  }

  /** Every lock freed since `before` belongs to a row that has failed for good. */
  ghost predicate FreedByFailure(before: set<string>, held: set<string>, t: Table)
  {
    held <= before
    && forall k <- before - held :: exists id :: id in t && t[id].status == Failed && LockOf(t[id]) == k
  }

  lemma FreedByFailureKept(
    before: set<string>, t: Table, held: set<string>, chosen: set<string>, pass: Pass, limit: nat, maxRetries: int, cap: int)
    requires FreedByFailure(before, held, t) && Takes(t, chosen, pass, limit)
    requires forall id <- chosen :: !Early(pass.attempt(id))
    ensures FreedByFailure(before, HeldAfter(t, held, chosen, pass, maxRetries), TableAfter(t, chosen, pass, maxRetries, cap))
  {
    hide LockOf, DelaySeconds, Oldest;
    var held', t' := HeldAfter(t, held, chosen, pass, maxRetries), TableAfter(t, chosen, pass, maxRetries, cap);
    forall k | k in before - held' ensures exists id :: id in t' && t'[id].status == Failed && LockOf(t'[id]) == k {
      if k in before - held {
        var id :| id in t && t[id].status == Failed && LockOf(t[id]) == k;
        RowAfter(t, chosen, pass, limit, maxRetries, cap, id);
        assert t'[id] == t[id];
      } else {
        var claimed := ClaimedTable(t, chosen, pass.now);
        var id :| id in chosen && id in claimed
                  && Releases(claimed[id], pass.attempt(id), maxRetries) && LockOf(claimed[id]) == k;
        RowAfter(t, chosen, pass, limit, maxRetries, cap, id);
        ReleasesWhenFailed(claimed[id], pass.attempt(id), maxRetries, cap);
        assert t'[id].status == Failed && LockOf(t'[id]) == k;
      }
    }
  }

  /** The other half: an unencodable row whose failed mark is not answered gives its lock away while it is still
      claimed, to be reclaimed and tried again. */
  lemma LockFreedTooEarly(
    t: Table, held: set<string>, chosen: set<string>, pass: Pass, limit: nat, maxRetries: int, cap: int, id: string)
    requires Takes(t, chosen, pass, limit) && id in chosen
    requires pass.attempt(id).outcome == Unencodable && !pass.attempt(id).writes && pass.attempt(id).frees
    ensures id in t && LockOf(t[id]) !in HeldAfter(t, held, chosen, pass, maxRetries)
    ensures TableAfter(t, chosen, pass, maxRetries, cap)[id].status == Claimed
  {
    hide LockOf;
    TakesKnown(t, chosen, pass, limit, id);
    ClaimedRow(t, chosen, pass.now, id);
    assert LockOf(t[id]) in FreedLocks(ClaimedTable(t, chosen, pass.now), chosen, pass, maxRetries);
  }

  /** A pass together with the rows it claimed. */
  datatype Step = Step(pass: Pass, chosen: set<string>)

  function TableAt(t: Table, steps: seq<Step>, maxRetries: int, cap: int): Table
  {
    if steps == [] then t
    else
      var last := steps[|steps| - 1];
      TableAfter(TableAt(t, steps[..|steps| - 1], maxRetries, cap), last.chosen, last.pass, maxRetries, cap)
  }

  function HeldAt(t: Table, held: set<string>, steps: seq<Step>, maxRetries: int, cap: int): set<string>
  {
    if steps == [] then held
    else
      var init, last := steps[..|steps| - 1], steps[|steps| - 1];
      HeldAfter(TableAt(t, init, maxRetries, cap), HeldAt(t, held, init, maxRetries, cap), last.chosen, last.pass, maxRetries)
  }

  /** Each pass claims what the claim query would. */
  ghost predicate PassesRun(t: Table, steps: seq<Step>, limit: nat, maxRetries: int, cap: int)
  {
    steps == [] ||
      (var init, last := steps[..|steps| - 1], steps[|steps| - 1];
       PassesRun(t, init, limit, maxRetries, cap) && Takes(TableAt(t, init, maxRetries, cap), last.chosen, last.pass, limit))
  }

  /** Publish failures of row `id` that were recorded. */
  function Recordings(steps: seq<Step>, id: string): nat
  {
    if steps == [] then 0
    else
      var last := steps[|steps| - 1];
      Recordings(steps[..|steps| - 1], id) + if id in last.chosen && last.pass.attempt(id).writes then 1 else 0
  }

  /** A row whose publishes always fail, over any sequence of passes with any other rows in the table, reclaims and
      unanswered status writes: it fails on exactly the last allowed recorded failure. */
  lemma {:induction false} RefusedRowFailsLast(
    t: Table, steps: seq<Step>, limit: nat, maxRetries: int, cap: int, id: string)
    requires id in t && t[id].status == Pending && t[id].retries == 0 && maxRetries >= 1
    requires PassesRun(t, steps, limit, maxRetries, cap)
    requires forall i :: 0 <= i < |steps| && id in steps[i].chosen ==> steps[i].pass.attempt(id).outcome == Refused
    ensures var t' := TableAt(t, steps, maxRetries, cap);
            && id in t' && t'[id].status != Published
            && t'[id].retries == Recordings(steps, id) <= maxRetries
            && (t'[id].status == Failed <==> Recordings(steps, id) == maxRetries)
  {
    hide TableAfter, HeldAfter, Takes, LockOf, ClaimedTable, DelaySeconds;
    if steps != [] {
      var init, last := steps[..|steps| - 1], steps[|steps| - 1];
      RefusedRowFailsLast(t, init, limit, maxRetries, cap, id);
      RowAfter(TableAt(t, init, maxRetries, cap), last.chosen, last.pass, limit, maxRetries, cap, id);
      if id in last.chosen {
        assert steps[|steps| - 1].pass.attempt(id).outcome == Refused;
      } else {
        StatusKept(TableAt(t, init, maxRetries, cap), last.chosen, last.pass, maxRetries, cap, id);
      }
    }
  }

  lemma StatusKept(t: Table, chosen: set<string>, pass: Pass, maxRetries: int, cap: int, id: string)
    requires id in t && id !in chosen
    ensures id in TableAfter(t, chosen, pass, maxRetries, cap)
    ensures TableAfter(t, chosen, pass, maxRetries, cap)[id].status in {Pending, t[id].status}
    ensures Terminal(t[id]) ==> TableAfter(t, chosen, pass, maxRetries, cap)[id] == t[id]
  {
  }

  /** The state after the first `n` passes. */
  ghost predicate GuardedAt(t: Table, held: set<string>, steps: seq<Step>, n: nat, maxRetries: int, cap: int, id: string)
    requires n <= |steps|
  {
    Guarded(TableAt(t, steps[..n], maxRetries, cap), HeldAt(t, held, steps[..n], maxRetries, cap), id)
  }

  ghost predicate HeldUntilFailedAt(
    t: Table, held: set<string>, steps: seq<Step>, n: nat, maxRetries: int, cap: int, id: string)
    requires n <= |steps|
  {
    HeldUntilFailed(TableAt(t, steps[..n], maxRetries, cap), HeldAt(t, held, steps[..n], maxRetries, cap), id)
  }

  /** Pass `i` does not process the row, or is even-handed about giving up on it. */
  predicate EvenHandedAt(t: Table, steps: seq<Step>, i: nat, maxRetries: int, cap: int, id: string)
    requires i < |steps|
  {
    var t1 := TableAt(t, steps[..i], maxRetries, cap);
    id in steps[i].chosen && id in t1 ==> EvenHanded(t1[id], steps[i].pass.attempt(id), maxRetries)
  }

  lemma {:induction false} AlwaysSole(t: Table, steps: seq<Step>, limit: nat, maxRetries: int, cap: int, id: string)
    requires Sole(t, id) && PassesRun(t, steps, limit, maxRetries, cap)
    ensures Sole(TableAt(t, steps, maxRetries, cap), id)
    ensures LockOf(TableAt(t, steps, maxRetries, cap)[id]) == LockOf(t[id])
  {
    hide TableAfter, Takes, LockOf;
    if steps != [] {
      var init, last := steps[..|steps| - 1], steps[|steps| - 1];
      AlwaysSole(t, init, limit, maxRetries, cap, id);
      SoleKept(TableAt(t, init, maxRetries, cap), last.chosen, last.pass, limit, maxRetries, cap, id);
      RowAfter(TableAt(t, init, maxRetries, cap), last.chosen, last.pass, limit, maxRetries, cap, id);
    }
  }

  /** Over any sequence of passes, whatever becomes of the other rows: the lock of a sole row is at every point held
      until the row has failed for good, and not longer, if and only if every pass that gives up on the row gets both
      the status write and the release answered, or neither. */
  lemma {:induction false} AlwaysGuarded(
    t: Table, held: set<string>, steps: seq<Step>, limit: nat, maxRetries: int, cap: int, id: string)
    requires Guarded(t, held, id) && PassesRun(t, steps, limit, maxRetries, cap)
    ensures (forall n :: 0 <= n <= |steps| ==> GuardedAt(t, held, steps, n, maxRetries, cap, id))
       <==> (forall i :: 0 <= i < |steps| ==> EvenHandedAt(t, steps, i, maxRetries, cap, id))
  {
    hide TableAfter, HeldAfter, Takes, LockOf, Guarded, EvenHanded;
    if steps == [] {
      assert steps[..0] == [];
    } else {
      var k := |steps| - 1;
      var init, last := steps[..k], steps[k];
      AlwaysGuarded(t, held, init, limit, maxRetries, cap, id);
      forall n | 0 <= n <= k
        ensures GuardedAt(t, held, steps, n, maxRetries, cap, id) <==> GuardedAt(t, held, init, n, maxRetries, cap, id)
      {
        assert steps[..n] == init[..n];
      }
      forall i | 0 <= i < k
        ensures EvenHandedAt(t, steps, i, maxRetries, cap, id) <==> EvenHandedAt(t, init, i, maxRetries, cap, id)
      {
        assert steps[..i] == init[..i];
      }
      assert init[..k] == init && steps[..k + 1] == steps;
      if GuardedAt(t, held, init, k, maxRetries, cap, id) {
        var t1, held1 := TableAt(t, init, maxRetries, cap), HeldAt(t, held, init, maxRetries, cap);
        GuardedKnown(t1, held1, id);
        GuardedKept(t1, held1, last.chosen, last.pass, limit, maxRetries, cap, id);
        assert GuardedAt(t, held, steps, k + 1, maxRetries, cap, id) <==> EvenHandedAt(t, steps, k, maxRetries, cap, id);
      }
      assert GuardedAt(t, held, steps, k, maxRetries, cap, id) <==> GuardedAt(t, held, init, k, maxRetries, cap, id);
    }
  }

  lemma GuardedKnown(t: Table, held: set<string>, id: string)
    requires Guarded(t, held, id)
    ensures id in t
  {
  }

  /** ... and it is never given away too early if and only if no pass processes the row and ends early. */
  lemma {:induction false} NeverFreedEarly(
    t: Table, held: set<string>, steps: seq<Step>, limit: nat, maxRetries: int, cap: int, id: string)
    requires Sole(t, id) && HeldUntilFailed(t, held, id) && PassesRun(t, steps, limit, maxRetries, cap)
    ensures (forall n :: 0 <= n <= |steps| ==> HeldUntilFailedAt(t, held, steps, n, maxRetries, cap, id))
       <==> (forall i :: 0 <= i < |steps| ==> !(id in steps[i].chosen && Early(steps[i].pass.attempt(id))))
  {
    hide TableAfter, HeldAfter, Takes, LockOf, HeldUntilFailed, Sole;
    if steps == [] {
      assert steps[..0] == [];
    } else {
      var k := |steps| - 1;
      var init, last := steps[..k], steps[k];
      NeverFreedEarly(t, held, init, limit, maxRetries, cap, id);
      forall n | 0 <= n <= k
        ensures HeldUntilFailedAt(t, held, steps, n, maxRetries, cap, id)
           <==> HeldUntilFailedAt(t, held, init, n, maxRetries, cap, id)
      {
        assert steps[..n] == init[..n];
      }
      assert init[..k] == init && steps[..k + 1] == steps;
      AlwaysSole(t, init, limit, maxRetries, cap, id);
      if HeldUntilFailedAt(t, held, init, k, maxRetries, cap, id) {
        HeldUntilFailedKept(TableAt(t, init, maxRetries, cap), HeldAt(t, held, init, maxRetries, cap),
                            last.chosen, last.pass, limit, maxRetries, cap, id);
        assert HeldUntilFailedAt(t, held, steps, k + 1, maxRetries, cap, id)
          <==> !(id in last.chosen && Early(last.pass.attempt(id)));
      }
      assert HeldUntilFailedAt(t, held, steps, k, maxRetries, cap, id)
        <==> HeldUntilFailedAt(t, held, init, k, maxRetries, cap, id);
    }
  }

  /** A new row whose publishes always fail keeps its lock until the last allowed failure is recorded, and has lost it
      from then on: with `c` failures recorded, it is failed, and its lock free, if and only if `c` is the maximum. */
  lemma LockHeldUntilLastFailure(
    t: Table, held: set<string>, steps: seq<Step>, limit: nat, maxRetries: int, cap: int, id: string)
    requires Sole(t, id) && t[id].status == Pending && t[id].retries == 0 && maxRetries >= 1
    requires LockOf(t[id]) in held
    requires PassesRun(t, steps, limit, maxRetries, cap)
    requires forall i :: 0 <= i < |steps| && id in steps[i].chosen ==>
               steps[i].pass.attempt(id).outcome == Refused && steps[i].pass.attempt(id).frees
    ensures var t', c := TableAt(t, steps, maxRetries, cap), Recordings(steps, id);
            && id in t' && t'[id].retries == c <= maxRetries && t'[id].status != Published
            && (t'[id].status == Failed <==> c == maxRetries)
            && (LockOf(t[id]) in HeldAt(t, held, steps, maxRetries, cap) <==> c < maxRetries)
  {
    hide TableAt, HeldAt, PassesRun, Recordings, LockOf;
    AlwaysGuarded(t, held, steps, limit, maxRetries, cap, id);
    AlwaysSole(t, steps, limit, maxRetries, cap, id);
    RefusedRowFailsLast(t, steps, limit, maxRetries, cap, id);
    assert steps[..|steps|] == steps;
    assert GuardedAt(t, held, steps, |steps|, maxRetries, cap, id);
  }

  /** If no pass ends early for any row it processes, all locks freed are those of failed rows. */
  lemma {:induction false} OnlyFailedFreed(
    t: Table, held: set<string>, steps: seq<Step>, limit: nat, maxRetries: int, cap: int)
    requires PassesRun(t, steps, limit, maxRetries, cap)
    requires forall i, id :: 0 <= i < |steps| && id in steps[i].chosen ==> !Early(steps[i].pass.attempt(id))
    ensures FreedByFailure(held, HeldAt(t, held, steps, maxRetries, cap), TableAt(t, steps, maxRetries, cap))
  {
    hide TableAfter, HeldAfter, Takes;
    if steps != [] {
      var init, last := steps[..|steps| - 1], steps[|steps| - 1];
      OnlyFailedFreed(t, held, init, limit, maxRetries, cap);
      FreedByFailureKept(held, TableAt(t, init, maxRetries, cap), HeldAt(t, held, init, maxRetries, cap),
                         last.chosen, last.pass, limit, maxRetries, cap);
    }
  }

  lemma NoPassYet(t: Table, held: set<string>, limit: nat, maxRetries: int, cap: int)
    ensures PassesRun(t, [], limit, maxRetries, cap)
    ensures TableAt(t, [], maxRetries, cap) == t && HeldAt(t, held, [], maxRetries, cap) == held
  {
  }

  /** One pass more. */
  lemma PassAdded(t: Table, held: set<string>, steps: seq<Step>, step: Step, limit: nat, maxRetries: int, cap: int)
    requires PassesRun(t, steps, limit, maxRetries, cap)
    requires Takes(TableAt(t, steps, maxRetries, cap), step.chosen, step.pass, limit)
    ensures PassesRun(t, steps + [step], limit, maxRetries, cap)
    ensures TableAt(t, steps + [step], maxRetries, cap)
         == TableAfter(TableAt(t, steps, maxRetries, cap), step.chosen, step.pass, maxRetries, cap)
    ensures HeldAt(t, held, steps + [step], maxRetries, cap)
         == HeldAfter(TableAt(t, steps, maxRetries, cap), HeldAt(t, held, steps, maxRetries, cap),
                      step.chosen, step.pass, maxRetries)
  {
    hide TableAfter, HeldAfter, Takes;
    assert (steps + [step])[..|steps|] == steps;
  }

  // ---------- draining ----------

  /** Rows guarded before are guarded still if every pass was even-handed about them, and if no pass ended early all
      locks freed are those of failed rows. */
  ghost predicate LocksFollow(
    t: Table, held0: set<string>, steps: seq<Step>, held: set<string>, maxRetries: int, cap: int)
  {
    var t' := TableAt(t, steps, maxRetries, cap);
    && (forall id :: Guarded(t, held0, id)
                     && (forall i :: 0 <= i < |steps| ==> EvenHandedAt(t, steps, i, maxRetries, cap, id)) ==>
                       Guarded(t', held, id))
    && ((forall i, id :: 0 <= i < |steps| && id in steps[i].chosen ==> !Early(steps[i].pass.attempt(id))) ==>
          FreedByFailure(held0, held, t'))
  }

  lemma RunsFollow(t: Table, held: set<string>, steps: seq<Step>, limit: nat, maxRetries: int, cap: int)
    requires PassesRun(t, steps, limit, maxRetries, cap)
    ensures LocksFollow(t, held, steps, HeldAt(t, held, steps, maxRetries, cap), maxRetries, cap)
  {
    hide TableAt, HeldAt, PassesRun, Guarded, FreedByFailure, Early, EvenHandedAt;
    assert steps[..|steps|] == steps;
    forall id | Guarded(t, held, id) && (forall i :: 0 <= i < |steps| ==> EvenHandedAt(t, steps, i, maxRetries, cap, id))
      ensures Guarded(TableAt(t, steps, maxRetries, cap), HeldAt(t, held, steps, maxRetries, cap), id)
    {
      AlwaysGuarded(t, held, steps, limit, maxRetries, cap, id);
      assert GuardedAt(t, held, steps, |steps|, maxRetries, cap, id);
    }
    if forall i, id :: 0 <= i < |steps| && id in steps[i].chosen ==> !Early(steps[i].pass.attempt(id)) {
      OnlyFailedFreed(t, held, steps, limit, maxRetries, cap);
    }
  }

  lemma TakesAtMost(t: Table, chosen: set<string>, pass: Pass, limit: nat)
    requires Takes(t, chosen, pass, limit)
    ensures |chosen| <= limit
  {
  }

  /** Full passes fit into the attempts used up. */
  predicate Fits(passes: int, batchSize: nat, used: int)
  {
    passes <= 0 || passes * batchSize <= used
  }

  lemma OnePassMore(passes: int, batchSize: nat, used: nat, used': nat)
    requires Fits(passes, batchSize, used) && used <= used'
    ensures Fits(passes, batchSize, used')
    ensures passes < 0 || used + batchSize <= used' ==> Fits(passes + 1, batchSize, used')
  {
    assert (passes + 1) * batchSize == passes * batchSize + batchSize;
  }

  lemma NoPass(passes: int, batchSize: nat)
    requires passes <= 0
    ensures Fits(passes, batchSize, 0)
  {
  }

  lemma FitsMeans(passes: int, batchSize: nat, used: nat, total: nat)
    requires Fits(passes, batchSize, used) && used <= total
    ensures passes * batchSize <= total
  {
    assert passes <= 0 ==> passes * batchSize <= 0;
  }

  lemma AllAnswered(batch: seq<string>, pass: Pass)
    requires Distinct(batch) && forall id :: pass.attempt(id).writes
    ensures |Answered(Elements(batch), pass)| == |batch|
  {
    DistinctCount(batch);
    assert Answered(Elements(batch), pass) == Elements(batch);
  }

  class OutboxRelay {
    const table: OutboxTable
    const batchSize: nat
    const maxRetries: int
    const cap: int
    var held: set<string>  // idempotency keys present in Redis

    constructor (table: OutboxTable, batchSize: nat, maxRetries: int, cap: int, held: set<string>)
      ensures this.table == table && this.batchSize == batchSize && this.maxRetries == maxRetries
      ensures this.cap == cap && this.held == held
    {
      this.table, this.batchSize, this.maxRetries, this.cap, this.held := table, batchSize, maxRetries, cap, held;
    }

    method ReleaseIdempotency(r: Row, answers: bool)
      modifies this
      ensures held == if answers then old(held) - {LockOf(r)} else old(held)
    {
      var userId := TrimSuffix(r.key, "_" + r.partition);
      if answers {
        held := held - {Key(userId, r.partition)};
      }
    }

    /** The body of one goroutine. An unencodable row gives its lock back even if marking it failed was not answered. */
    method RelayRow(id: string, a: Attempt)
      requires id in table.rows
      modifies this, table
      ensures table.rows == old(table.rows)[id := Processed(old(table.rows)[id], a, maxRetries, cap)]
      ensures held == if Releases(old(table.rows)[id], a, maxRetries) then old(held) - {LockOf(old(table.rows)[id])}
                      else old(held)
      ensures a.writes && a.outcome == Sent ==>
                table.rows[id] == old(table.rows)[id].(status := Published, updated := a.at) && held == old(held)
      ensures a.writes && a.outcome == Unencodable ==>
                table.rows[id] == old(table.rows)[id].(status := Failed, updated := a.at)
      ensures a.writes && a.outcome == Refused ==>
                && table.rows[id].retries == old(table.rows)[id].retries + 1
                && table.rows[id].status == if old(table.rows)[id].retries + 1 >= maxRetries then Failed else Pending
      ensures !a.writes ==> table.rows == old(table.rows)
      ensures held == if a.frees && (a.outcome == Unencodable || (a.outcome == Refused && table.rows[id].status == Failed
                                                                  && a.writes))
                      then old(held) - {LockOf(old(table.rows)[id])} else old(held)
    {
      var row := table.rows[id];
      if a.outcome == Unencodable {
        if a.writes {
          var found := table.Update(id, Failed, a.at);
        }
        ReleaseIdempotency(row, a.frees);
        return;
      }
      if a.outcome == Refused {
        if !a.writes {
          return;
        }
        var status := table.MarkPublishFailure(id, a.at, maxRetries, cap);
        if status == Some(Failed) {
          ReleaseIdempotency(row, a.frees);
        }
        return;
      }
      if a.writes {
        var found := table.Update(id, Published, a.at);
      }
    }

    /** Claim one batch and process its rows, here one after the other. */
    method ReadAndRelay(pass: Pass) returns (n: nat, batch: seq<string>)
      modifies this, table
      ensures n == |batch| && Distinct(batch)
      ensures Takes(old(table.rows), Elements(batch), pass, batchSize)
      ensures table.rows == TableAfter(old(table.rows), Elements(batch), pass, maxRetries, cap)
      ensures held == HeldAfter(old(table.rows), old(held), Elements(batch), pass, maxRetries)
      ensures !pass.answers ==> batch == [] && table.rows == old(table.rows) && held == old(held)
      ensures table.rows.Keys == old(table.rows).Keys
      ensures forall id <- batch :: id in old(table.rows) && pass.answers
                && (pass.attempt(id).outcome == Sent && pass.attempt(id).writes ==> table.rows[id].status == Published)
                && (!pass.attempt(id).writes ==> table.rows[id].status == Claimed && table.rows[id].updated == pass.now)
      ensures forall id <- batch ::
                id in old(table.rows)
                && (pass.attempt(id).outcome == Refused && pass.attempt(id).writes ==>
                      table.rows[id].retries == old(table.rows)[id].retries + 1)
    {
      if !pass.answers {
        return 0, [];
      }
      batch := table.PendingGetBatch(batchSize, pass.now);
      ghost var claimed := table.rows;
      RelayBatch(batch, pass);
      forall id | id in batch
        ensures id in Elements(batch) && table.rows[id] == Processed(claimed[id], pass.attempt(id), maxRetries, cap)
      {
      }
      return |batch|, batch;
    }

    method RelayBatch(batch: seq<string>, pass: Pass)
      requires Distinct(batch) && Elements(batch) <= table.rows.Keys
      modifies this, table
      ensures table.rows == AfterBatch(old(table.rows), Elements(batch), pass, maxRetries, cap)
      ensures held == old(held) - FreedLocks(old(table.rows), Elements(batch), pass, maxRetries)
    {
      hide AfterBatch, FreedLocks, Processed, Releases, LockOf;
      ghost var t, held0 := table.rows, held;
      var i := 0;
      NoRowYet(t, held, pass, maxRetries, cap);
      assert Elements(batch[..0]) == {};
      while i < |batch|
        invariant 0 <= i <= |batch|
        invariant table.rows == AfterBatch(t, Elements(batch[..i]), pass, maxRetries, cap)
        invariant held == held0 - FreedLocks(t, Elements(batch[..i]), pass, maxRetries)
      {
        var id := batch[i];
        NextElement(batch, i);
        OneMoreRow(t, Elements(batch[..i]), id, pass, maxRetries, cap);
        RelayRow(id, pass.attempt(id));
        i := i + 1;
      }
      assert batch[..i] == batch;
    }

    /** The inner loop of CheckAndRelay: relay full batches until one comes back short, or until cancelled. It ends
        whatever the clock does once the database answers the status writes again (`outage` is the number of passes
        until then), after at most `Budget / batchSize + 1` further passes; `steps` are the passes it made. */
    method Drain(passes: nat -> Pass, cancelled: nat -> bool, ghost outage: nat)
      returns (count: nat, short: bool, ghost steps: seq<Step>)
      requires batchSize >= 1 && Live(table.rows, maxRetries)
      requires forall n, id :: n >= outage ==> passes(n).attempt(id).writes
      modifies this, table
      ensures 1 <= count && (count - 1 - outage) * batchSize <= old(Budget(table.rows, maxRetries))
      ensures short || cancelled(count)
      ensures forall n :: 0 < n < count ==> !cancelled(n)
      ensures table.rows.Keys == old(table.rows.Keys) && Live(table.rows, maxRetries)
      ensures short && passes(count - 1).answers && Timely(passes(count - 1), maxRetries, cap) ==>
                NothingDue(table.rows, passes(count - 1).now)
      ensures |steps| == count && forall i :: 0 <= i < count ==> steps[i].pass == passes(i)
      ensures forall i :: 0 <= i < count - 1 ==> |steps[i].chosen| == batchSize
      ensures short <==> |steps[count - 1].chosen| < batchSize
      ensures PassesRun(old(table.rows), steps, batchSize, maxRetries, cap)
      ensures table.rows == TableAt(old(table.rows), steps, maxRetries, cap)
      ensures held == HeldAt(old(table.rows), old(held), steps, maxRetries, cap)
      ensures LocksFollow(old(table.rows), old(held), steps, held, maxRetries, cap)
    {
      hide Live, Budget, NothingDue, Timely, TableAfter, HeldAfter, Takes, LocksFollow, Distinct, Answered, Elements, Fits;
      hide PassesRun, TableAt, HeldAt;
      count, short, steps := 0, false, [];
      ghost var t0, total := table.rows, Budget(table.rows, maxRetries);
      NoPassYet(t0, held, batchSize, maxRetries, cap);
      BudgetNonNegative(t0, maxRetries);
      assert Fits(0 - outage, batchSize, 0) by { NoPass(0 - outage, batchSize); }
      while true
        invariant Budget(table.rows, maxRetries) <= total
        invariant Fits(count - outage, batchSize, total - Budget(table.rows, maxRetries))
        invariant table.rows.Keys == t0.Keys && Live(table.rows, maxRetries)
        invariant |steps| == count && forall i :: 0 <= i < count ==> steps[i].pass == passes(i)
        invariant forall i :: 0 <= i < count ==> |steps[i].chosen| == batchSize
        invariant forall n :: 0 < n <= count ==> !cancelled(n)
        invariant PassesRun(t0, steps, batchSize, maxRetries, cap)
        invariant table.rows == TableAt(t0, steps, maxRetries, cap)
        invariant held == HeldAt(t0, old(held), steps, maxRetries, cap)
        decreases if count < outage then outage - count else 0, Budget(table.rows, maxRetries)
      {
        var pass := passes(count);
        ghost var t := table.rows;
        BudgetNonNegative(t, maxRetries);
        FitsMeans(count - outage, batchSize, total - Budget(t, maxRetries), total);
        var n, batch := ReadAndRelay(pass);
        PassEffects(t, Elements(batch), pass, batchSize, maxRetries, cap);
        PassAdded(t0, old(held), steps, Step(pass, Elements(batch)), batchSize, maxRetries, cap);
        steps := steps + [Step(pass, Elements(batch))];
        DistinctCount(batch);
        TakesAtMost(t, Elements(batch), pass, batchSize);
        if count >= outage {
          AllAnswered(batch, pass);
        }
        OnePassMore(count - outage, batchSize, total - Budget(t, maxRetries), total - Budget(table.rows, maxRetries));
        count := count + 1;
        if n < batchSize {
          short := true;
          break;
        }
        if cancelled(count) {
          break;
        }
      }
      RunsFollow(t0, old(held), steps, batchSize, maxRetries, cap);
    }
  }
}
