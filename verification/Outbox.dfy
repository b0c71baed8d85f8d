/** The transaction outbox: rows, the publish-failure write with its backoff, and the batch claim.
    Time is in microseconds, the resolution of the database's timestamps. */
module Outbox {
  import opened Prelude

  const SECOND := 1_000_000
  const STALE_AFTER := 30 * SECOND

  datatype Status = Pending | Claimed | Published | Failed

  datatype Row = Row(partition: string, key: string, status: Status, retries: nat, nextAttempt: int, created: int, updated: int)

  type Table = map<string, Row>

  // ---------- backoff ----------

  /** `1 << n` on a 32-bit integer; the shift count is taken modulo 32. */
  function Shift32(n: nat): int
  {
    if n % 32 == 31 then -0x8000_0000 else Pow2(n % 32)
  }

  /** Seconds until the next attempt, recorded with failure number `retries + 1`. */
  function DelaySeconds(retries: nat, cap: int): int
  {
    Min(Shift32(retries + 1), cap)
  }

  /** A retry is put in the future exactly as long as the shift stays clear of the sign bit. */
  lemma DelayPositive(retries: nat, cap: int)
    requires cap >= 1
    ensures 1 <= DelaySeconds(retries, cap) <= cap <==> (retries + 1) % 32 != 31
  {
  }

  lemma SmallShift(n: nat)
    requires n <= 30
    ensures Shift32(n) == Pow2(n)
  {
    assert n % 32 == n;
  }

  /** Within 30 recorded failures the delays never shrink. */
  lemma DelayNonDecreasing(retries: nat, later: nat, cap: int)
    requires retries <= later <= 29
    ensures DelaySeconds(retries, cap) <= DelaySeconds(later, cap)
  {
    hide Shift32, Pow2;
    SmallShift(retries + 1);
    SmallShift(later + 1);
    Pow2Increasing(retries + 1, later + 1);
  }

  /** The total delay of the first `k` failures. */
  function TotalDelay(k: nat, cap: int): int
  {
    if k == 0 then 0 else TotalDelay(k - 1, cap) + DelaySeconds(k - 1, cap)
  }

  lemma DelayWithin(retries: nat, cap: int)
    requires retries <= 29 && cap >= 1
    ensures 1 <= DelaySeconds(retries, cap) <= Min(Pow2(retries + 1), cap)
  {
    SmallShift(retries + 1);
  }

  lemma OneDelayMore(k: nat, cap: int)
    requires 1 <= k <= 30 && cap >= 1
    ensures 1 <= TotalDelay(k, cap) - TotalDelay(k - 1, cap) <= Pow2(k)
    ensures TotalDelay(k, cap) - TotalDelay(k - 1, cap) <= cap
    ensures Pow2(k + 1) == 2 * Pow2(k) && k * cap == (k - 1) * cap + cap
  {
    hide DelaySeconds;
    DelayWithin(k - 1, cap);
  }

  lemma {:induction false} TotalDelayBounded(k: nat, cap: int)
    requires k <= 30 && cap >= 1
    ensures k <= TotalDelay(k, cap) <= Pow2(k + 1) - 2
    ensures TotalDelay(k, cap) <= k * cap
  {
    if k > 0 {
      hide TotalDelay, Pow2;
      TotalDelayBounded(k - 1, cap);
      OneDelayMore(k, cap);
    } else {
      assert Pow2(1) == 2 * Pow2(0);
    }
  }

  // ---------- single-row writes ----------

  function AfterFailure(r: Row, now: int, maxRetries: int, cap: int): Row
  {
    r.(retries := r.retries + 1,
       status := if r.retries + 1 >= maxRetries then Failed else Pending,
       nextAttempt := now + DelaySeconds(r.retries, cap) * SECOND,
       updated := now)
  }

  predicate Terminal(r: Row)
  {
    r.status == Published || r.status == Failed
  }

  // ---------- the claim ----------

  predicate Stale(r: Row, now: int)
  {
    r.status == Claimed && r.updated < now - STALE_AFTER
  }

  /** Stale claims go back to pending. */
  function Reclaimed(t: Table, now: int): Table
  {
    map id | id in t :: if Stale(t[id], now) then t[id].(status := Pending, updated := now) else t[id]
  }

  predicate Due(r: Row, now: int)
  {
    r.status == Pending && r.nextAttempt <= now
  }

  /** Rows a claim may take: due, and not locked by another poller (SKIP LOCKED). */
  function Eligible(t: Table, now: int, locked: set<string>): set<string>
  {
    set id | id in t && Due(t[id], now) && id !in locked
  }

  /** `chosen` holds the oldest eligible rows, as many as there are up to the limit. */
  ghost predicate Oldest(t: Table, now: int, locked: set<string>, limit: nat, chosen: set<string>)
  {
    && chosen <= Eligible(t, now, locked)
    && |chosen| <= limit
    && (|chosen| < limit ==> chosen == Eligible(t, now, locked))
    && (forall x <- chosen, y <- Eligible(t, now, locked) - chosen :: t[x].created <= t[y].created)
  }

  function WithClaims(t: Table, chosen: set<string>, now: int): Table
  {
    map id | id in t :: if id in chosen then t[id].(status := Claimed, updated := now) else t[id]
  }

  function Elements(batch: seq<string>): set<string>
  {
    set id <- batch
  }

  predicate Distinct(batch: seq<string>)
  {
    forall i, j :: 0 <= i < j < |batch| ==> batch[i] != batch[j]
  }

  lemma {:induction false} DistinctCount(batch: seq<string>)
    requires Distinct(batch)
    ensures |Elements(batch)| == |batch|
  {
    if batch != [] {
      var rest, last := batch[..|batch| - 1], batch[|batch| - 1];
      DistinctCount(rest);
      assert Elements(batch) == Elements(rest) + {last};
      assert last !in Elements(rest);
    }
  }

  /** A row claimed more than 30 seconds ago. */
  predicate Abandoned(r: Row, now: int)
  {
    r.status == Claimed && r.updated < now - 30_000_000
  }

  /** What a claim does to one row, and why. */
  ghost predicate RowClaimed(t: Table, id: string, now: int, limit: nat, chosen: set<string>)
    requires id in t
  {
    var t' := WithClaims(Reclaimed(t, now), chosen, now);
    var open := t[id].nextAttempt <= now && (t[id].status == Pending || Abandoned(t[id], now));
    && id in t'
    && (id in chosen ==> open && t'[id] == t[id].(status := Claimed, updated := now))
    && (id !in chosen ==> t'[id] == if Abandoned(t[id], now) then t[id].(status := Pending, updated := now) else t[id])
    && (open && id !in chosen ==>
          |chosen| == limit && forall x <- chosen :: x in t && t[x].created <= t[id].created)
  }

  lemma ClaimMeans(t: Table, id: string, now: int, limit: nat, chosen: set<string>)
    requires id in t && Oldest(Reclaimed(t, now), now, {}, limit, chosen)
    ensures RowClaimed(t, id, now, limit, chosen)
  {
    if t[id].nextAttempt <= now && (t[id].status == Pending || Abandoned(t[id], now)) && id !in chosen {
      assert id in Eligible(Reclaimed(t, now), now, {}) - chosen;
    }
  }

  class OutboxTable {
    var rows: Table

    constructor (rows: Table)
      ensures this.rows == rows
    {
      this.rows := rows;
    }

    /** OutboxUpdate: unguarded status write. */
    method Update(id: string, status: Status, now: int) returns (found: bool)
      modifies this
      ensures found <==> id in old(rows)
      ensures rows == if found then old(rows)[id := old(rows)[id].(status := status, updated := now)] else old(rows)
    {
      found := id in rows;
      if found {
        rows := rows[id := rows[id].(status := status, updated := now)];
      }
    }

    method MarkPublishFailure(id: string, now: int, maxRetries: int, cap: int) returns (status: Option<Status>)
      modifies this
      ensures status.Some? <==> id in old(rows)
      ensures rows == if id in old(rows) then old(rows)[id := AfterFailure(old(rows)[id], now, maxRetries, cap)] else old(rows)
      ensures status.Some? ==> status.value == rows[id].status
      ensures id in old(rows) ==>
                var r, r' := old(rows)[id], rows[id];
                && r'.retries == r.retries + 1 && r'.updated == now
                && r'.status == (if r.retries + 1 >= maxRetries then Failed else Pending)
                && (r.retries <= 29 ==> r'.nextAttempt == now + Min(Pow2(r.retries + 1), cap) * 1_000_000)
                && r'.partition == r.partition && r'.key == r.key && r'.created == r.created
    {
      if id in rows && rows[id].retries <= 29 { SmallShift(rows[id].retries + 1); }
      if id !in rows {
        return None;
      }
      rows := rows[id := AfterFailure(rows[id], now, maxRetries, cap)];
      return Some(rows[id].status);
    }

    /** The oldest of a non-empty set of rows. */
    method FindOldest(ids: set<string>) returns (oldest: string)
      requires ids != {} && ids <= rows.Keys
      ensures oldest in ids
      ensures forall id <- ids :: rows[oldest].created <= rows[id].created
    {
      oldest :| oldest in ids;
      var todo := ids - {oldest};
      while todo != {}
        invariant todo <= ids && oldest in ids
        invariant forall id <- ids - todo :: rows[oldest].created <= rows[id].created
        decreases |todo|
      {
        var id :| id in todo;
        if rows[id].created < rows[oldest].created {
          oldest := id;
        }
        todo := todo - {id};
      }
    }

    /** OutboxPendingGetBatch without concurrent pollers: reclaim stale claims, then claim the oldest due rows. */
    method PendingGetBatch(limit: nat, now: int) returns (batch: seq<string>)
      modifies this
      ensures Distinct(batch) && |batch| <= limit
      ensures Oldest(Reclaimed(old(rows), now), now, {}, limit, Elements(batch))
      ensures rows == WithClaims(Reclaimed(old(rows), now), Elements(batch), now)
      ensures rows.Keys == old(rows).Keys && forall id <- batch :: id in old(rows)
      ensures forall id <- batch ::
                && old(rows)[id].nextAttempt <= now
                && (old(rows)[id].status == Pending
                    || (old(rows)[id].status == Claimed && old(rows)[id].updated < now - 30_000_000))
                && rows[id] == old(rows)[id].(status := Claimed, updated := now)
      ensures forall id <- old(rows) | id !in batch ::
                if old(rows)[id].status == Claimed && old(rows)[id].updated < now - 30_000_000
                then rows[id] == old(rows)[id].(status := Pending, updated := now)
                else rows[id] == old(rows)[id]
      ensures forall id <- old(rows) | id !in batch && old(rows)[id].nextAttempt <= now
                && (old(rows)[id].status == Pending
                    || (old(rows)[id].status == Claimed && old(rows)[id].updated < now - 30_000_000)) ::
                |batch| == limit && forall x <- batch :: old(rows)[x].created <= old(rows)[id].created
    {
      ghost var before := rows;
      rows := Reclaimed(rows, now);
      batch := SelectOldest(now, limit);
      rows := WithClaims(rows, Elements(batch), now);
      DistinctCount(batch);
      assert forall id :: id in batch <==> id in Elements(batch);
      forall id | id in before ensures RowClaimed(before, id, now, limit, Elements(batch)) {
        ClaimMeans(before, id, now, limit, Elements(batch));
      }
    }

    /** The claim's inner query: due rows ordered by creation, up to the limit. */
    method SelectOldest(now: int, limit: nat) returns (batch: seq<string>)
      ensures Distinct(batch) && |batch| <= limit
      ensures Oldest(rows, now, {}, limit, Elements(batch))
    {
      hide Eligible, Distinct, Elements, Oldest;
      var eligible := Eligible(rows, now, {});
      assert eligible <= rows.Keys by { EligibleKnown(rows, now); }
      var todo := eligible;
      batch := [];
      NothingChosen();
      ghost var chosen: set<string> := {};
      while todo != {} && |batch| < limit
        invariant Distinct(batch) && |batch| <= limit
        invariant chosen == Elements(batch)
        invariant todo <= eligible && chosen == eligible - todo
        invariant forall x, y :: x in chosen && y in todo ==> rows[x].created <= rows[y].created
        decreases |todo|
      {
        var id := FindOldest(todo);
        DistinctAppend(batch, id);
        batch := batch + [id];
        todo := todo - {id};
        chosen := chosen + {id};
      }
      DistinctCount(batch);
      ChosenAreOldest(rows, now, limit, chosen, todo);
    }
  }

  lemma EligibleKnown(t: Table, now: int)
    ensures Eligible(t, now, {}) <= t.Keys
  {
  }

  lemma ChosenAreOldest(t: Table, now: int, limit: nat, chosen: set<string>, todo: set<string>)
    requires todo <= Eligible(t, now, {}) && chosen == Eligible(t, now, {}) - todo
    requires |chosen| <= limit && (todo == {} || |chosen| == limit)
    requires forall x, y :: x in chosen && y in todo ==> x in t && y in t && t[x].created <= t[y].created
    ensures Oldest(t, now, {}, limit, chosen)
  {
  }

  lemma NothingChosen()
    ensures Distinct([]) && Elements([]) == {}
  {
  }

  lemma DistinctAppend(batch: seq<string>, id: string)
    requires Distinct(batch) && id !in Elements(batch)
    ensures Distinct(batch + [id]) && Elements(batch + [id]) == Elements(batch) + {id}
  {
    assert id !in batch;
  }
}
