/** The Redis client's idempotency and balance operations, and how stale a cached balance can be. */
module BalanceCache {
  import opened Prelude

  const IDEMPOTENCY_TTL := 24 * 60 * 60

  /** A key's value and the time at which Redis drops it. */
  datatype Entry = Entry(value: int, expires: int)

  function IdempotencyKey(id: string): string
  {
    "idempotency:tx:" + id
  }

  function BalanceKey(accountId: string): string
  {
    "balance:account:" + accountId
  }

  predicate Present(store: map<string, Entry>, key: string, now: int)
  {
    key in store && now < store[key].expires
  }

  /** Locks and cached balances never collide, and distinct ids have distinct keys. */
  lemma KeysApart(a: string, b: string)
    ensures IdempotencyKey(a) != BalanceKey(b)
    ensures IdempotencyKey(a) == IdempotencyKey(b) ==> a == b
    ensures BalanceKey(a) == BalanceKey(b) ==> a == b
  {
    assert IdempotencyKey(a)[0] == 'i' && BalanceKey(b)[0] == 'b';
    assert IdempotencyKey(a)[15..] == a && IdempotencyKey(b)[15..] == b;
    assert BalanceKey(a)[16..] == a && BalanceKey(b)[16..] == b;
  }

  class CacheClient {
    var store: map<string, Entry>
    const balanceTTL: int

    constructor (balanceTTL: int)
      ensures store == map[] && this.balanceTTL == balanceTTL
    {
      this.balanceTTL := balanceTTL;
      store := map[];
    }

    /** SETNX: true exactly for the first caller since the key was last free; no result is a Redis error. */
    method TransactionIdempotencyCheck(id: string, now: int, redisAnswers: bool) returns (ok: Option<bool>)
      modifies this
      ensures ok.Some? <==> redisAnswers
      ensures ok.None? ==> store == old(store)
      ensures ok.Some? ==> (ok.value <==> !Present(old(store), IdempotencyKey(id), now))
      ensures ok.Some? ==> Present(store, IdempotencyKey(id), now)
      ensures redisAnswers ==>
                (ok == Some(false) <==>
                   IdempotencyKey(id) in old(store) && now < old(store)[IdempotencyKey(id)].expires)
      ensures ok == Some(true) ==> store == old(store)[IdempotencyKey(id) := Entry(0, now + 86_400)]
      ensures store == if ok == Some(true) then old(store)[IdempotencyKey(id) := Entry(0, now + IDEMPOTENCY_TTL)]
                       else old(store)
    {
      if !redisAnswers {
        return None;
      }
      if Present(store, IdempotencyKey(id), now) {
        return Some(false);
      }
      store := store[IdempotencyKey(id) := Entry(0, now + IDEMPOTENCY_TTL)];
      return Some(true);
    }

    method TransactionIdempotencyRelease(id: string, redisAnswers: bool) returns (ok: bool)
      modifies this
      ensures ok <==> redisAnswers
      ensures store == if ok then old(store) - {IdempotencyKey(id)} else old(store)
    {
      if redisAnswers {
        store := store - {IdempotencyKey(id)};
      }
      return redisAnswers;
    }

    /** Read-through: a live entry wins over the amount just read from the database. No result is a Redis error, of
        the GET or of the SET that a missing entry needs. */
    method GetOrStoreAccountBalance(accountId: string, amount: int, now: int, getAnswers: bool, setAnswers: bool)
      returns (balance: Option<int>)
      modifies this
      ensures balance.Some? <==> getAnswers && (setAnswers || Present(old(store), BalanceKey(accountId), now))
      ensures balance.None? ==> store == old(store)
      ensures BalanceKey(accountId) in old(store) && now < old(store)[BalanceKey(accountId)].expires && getAnswers ==>
                balance == Some(old(store)[BalanceKey(accountId)].value) && store == old(store)
      ensures !(BalanceKey(accountId) in old(store) && now < old(store)[BalanceKey(accountId)].expires)
              && getAnswers && setAnswers ==>
                balance == Some(amount) && store == old(store)[BalanceKey(accountId) := Entry(amount, now + balanceTTL)]
      ensures balance.Some? ==> (store, balance.value) == ReadThrough(old(store), BalanceKey(accountId), amount, now, balanceTTL)
    {
      var key := BalanceKey(accountId);
      if !getAnswers {
        return None;
      }
      if Present(store, key, now) {
        return Some(store[key].value);
      }
      if !setAnswers {
        return None;
      }
      store := store[key := Entry(amount, now + balanceTTL)];
      return Some(amount);
    }
  }

  function ReadThrough(store: map<string, Entry>, key: string, amount: int, now: int, ttl: int): (map<string, Entry>, int)
  {
    if Present(store, key, now) then (store, store[key].value) else (store[key := Entry(amount, now + ttl)], amount)
  }

  // ---------- staleness ----------

  /** A GetBalance call between its database read and its cache access. */
  datatype Reader = Reader(at: int, account: string, balance: int)

  /** A balance handed to a caller. */
  datatype Answer = Answer(at: int, account: string, balance: int)

  datatype State = State(now: int, store: map<string, Entry>, readers: map<nat, Reader>, answers: seq<Answer>)

  /** `balances(t)(a)` is the committed balance of `a` at time `t`; `slack` bounds the time between a call's
      database read and its cache access (0 if the two are atomic). */
  datatype World = World(balances: int -> string -> int, ttl: int, slack: int)

  datatype Act =
    | Tick(now: int)
    | ReadAccount(p: nat, account: string)
    | Access(p: nat, redisAnswers: bool)
    | Evict(key: string)

  predicate Enabled(w: World, s: State, act: Act)
  {
    match act
    case Tick(now) => s.now <= now
    case ReadAccount(p, _) => p !in s.readers
    case Access(p, _) => p in s.readers && s.now <= s.readers[p].at + w.slack
    case Evict(_) => true
  }

  /** A Redis error falls back to the amount read. */
  function Next(w: World, s: State, act: Act): State
    requires Enabled(w, s, act)
  {
    match act
    case Tick(now) => s.(now := now)
    case ReadAccount(p, account) => s.(readers := s.readers[p := Reader(s.now, account, w.balances(s.now)(account))])
    case Access(p, redisAnswers) =>
      var r := s.readers[p];
      var (store, balance) :=
        if redisAnswers then ReadThrough(s.store, BalanceKey(r.account), r.balance, s.now, w.ttl) else (s.store, r.balance);
      State(s.now, store, s.readers - {p}, s.answers + [Answer(s.now, r.account, balance)])
    case Evict(key) => s.(store := s.store - {key})
  }

  ghost predicate Runs(w: World, s: State, acts: seq<Act>)
    decreases |acts|, 0
  {
    acts == [] || (Runs(w, s, acts[..|acts| - 1]) && Enabled(w, After(w, s, acts[..|acts| - 1]), acts[|acts| - 1]))
  }

  ghost function After(w: World, s: State, acts: seq<Act>): State
    requires Runs(w, s, acts)
    decreases |acts|, 1
  {
    if acts == [] then s else Next(w, After(w, s, acts[..|acts| - 1]), acts[|acts| - 1])
  }

  /** `balance` was the account's committed balance at some moment of the interval. */
  ghost predicate WasCommitted(w: World, account: string, balance: int, from: int, to: int)
  {
    exists t :: from <= t <= to && w.balances(t)(account) == balance
  }

  /** An entry that is live until `expires` was read from the database at most `ttl + slack` before that. */
  ghost predicate EntryInv(w: World, s: State, account: string)
  {
    BalanceKey(account) in s.store ==>
      var e := s.store[BalanceKey(account)];
      WasCommitted(w, account, e.value, e.expires - w.ttl - w.slack, s.now)
  }

  ghost predicate Inv(w: World, s: State)
  {
    && (forall p <- s.readers ::
          s.readers[p].at <= s.now && s.readers[p].balance == w.balances(s.readers[p].at)(s.readers[p].account))
    && (forall a {:trigger EntryInv(w, s, a)} :: EntryInv(w, s, a))
    && (forall i :: 0 <= i < |s.answers| ==> s.answers[i].at <= s.now && Fresh(w, s.answers[i]))
  }

  /** The answer was the committed balance at some moment no more than the TTL, and the call's own slack, earlier. */
  ghost predicate Fresh(w: World, a: Answer)
  {
    WasCommitted(w, a.account, a.balance, a.at - w.ttl - w.slack, a.at)
  }

  lemma Widen(w: World, account: string, balance: int, from: int, to: int, from': int, to': int)
    requires WasCommitted(w, account, balance, from, to) && from' <= from && to <= to'
    ensures WasCommitted(w, account, balance, from', to')
  {
    var t :| from <= t <= to && w.balances(t)(account) == balance;
    assert from' <= t <= to' && w.balances(t)(account) == balance;
  }

  lemma AccessKeepsInv(w: World, s: State, p: nat, redisAnswers: bool)
    requires w.ttl >= 0 && w.slack >= 0
    requires Inv(w, s) && Enabled(w, s, Access(p, redisAnswers))
    ensures Inv(w, Next(w, s, Access(p, redisAnswers)))
  {
    var s', r := Next(w, s, Access(p, redisAnswers)), s.readers[p];
    var key := BalanceKey(r.account);
    assert w.balances(r.at)(r.account) == r.balance;
    assert WasCommitted(w, r.account, r.balance, s.now - w.slack, s.now);
    Widen(w, r.account, r.balance, s.now - w.slack, s.now, s.now - w.ttl - w.slack, s.now);
    assert EntryInv(w, s, r.account);
    if redisAnswers && Present(s.store, key, s.now) {
      var e := s.store[key];
      Widen(w, r.account, e.value, e.expires - w.ttl - w.slack, s.now, s.now - w.ttl - w.slack, s.now);
    }
    forall a ensures EntryInv(w, s', a) {
      assert EntryInv(w, s, a);
      KeysApart(a, r.account);
    }
  }

  lemma InvKept(w: World, s: State, act: Act)
    requires w.ttl >= 0 && w.slack >= 0
    requires Inv(w, s) && Enabled(w, s, act)
    ensures Inv(w, Next(w, s, act))
  {
    match act
    case Access(p, redisAnswers) => AccessKeepsInv(w, s, p, redisAnswers);
    case _ =>
      var s' := Next(w, s, act);
      forall a ensures EntryInv(w, s', a) {
        assert EntryInv(w, s, a);
        if BalanceKey(a) in s'.store {
          var e := s.store[BalanceKey(a)];
          Widen(w, a, e.value, e.expires - w.ttl - w.slack, s.now, e.expires - w.ttl - w.slack, s'.now);
        }
      }
  }

  /** A call that finds no live entry answers with what it read, and stores it for the TTL. */
  lemma MissStores(w: World, s: State, p: nat)
    requires Enabled(w, s, Access(p, true))
    requires var key := BalanceKey(s.readers[p].account); key !in s.store || s.store[key].expires <= s.now
    ensures var s', r := Next(w, s, Access(p, true)), s.readers[p];
            && s'.answers == s.answers + [Answer(s.now, r.account, r.balance)]
            && s'.store == s.store[BalanceKey(r.account) := Entry(r.balance, s.now + w.ttl)]
  {
  }

  /** ... and from then on, until it expires or is evicted, every call that Redis answers gets that balance. */
  lemma {:induction false} CachedUntilExpiry(w: World, s: State, acts: seq<Act>, account: string)
    requires Runs(w, s, acts) && BalanceKey(account) in s.store
    requires forall i :: 0 <= i < |acts| ==> acts[i] != Evict(BalanceKey(account)) && (acts[i].Access? ==> acts[i].redisAnswers)
    requires After(w, s, acts).now < s.store[BalanceKey(account)].expires
    ensures var t, e := After(w, s, acts), s.store[BalanceKey(account)];
            && s.now <= t.now && BalanceKey(account) in t.store && t.store[BalanceKey(account)] == e
            && s.answers <= t.answers
            && forall i :: |s.answers| <= i < |t.answers| && t.answers[i].account == account ==> t.answers[i].balance == e.value
    decreases |acts|
  {
    if acts != [] {
      var init, act := acts[..|acts| - 1], acts[|acts| - 1];
      assert After(w, s, init).now <= After(w, s, acts).now;
      CachedUntilExpiry(w, s, init, account);
      if act.Access? {
        KeysApart(After(w, s, init).readers[act.p].account, account);
      }
    }
  }

  /** Bounded staleness: in every run of reads, expiries, evictions and Redis failures, every balance returned was
      committed at some moment no more than TTL plus slack before it was returned. */
  lemma {:induction false} BoundedStaleness(w: World, s: State, acts: seq<Act>)
    requires w.ttl >= 0 && w.slack >= 0
    requires s.store == map[] && s.readers == map[] && s.answers == []
    requires Runs(w, s, acts)
    ensures Inv(w, After(w, s, acts))
    ensures forall i :: 0 <= i < |After(w, s, acts).answers| ==> Fresh(w, After(w, s, acts).answers[i])
    decreases |acts|
  {
    if acts != [] {
      BoundedStaleness(w, s, acts[..|acts| - 1]);
      InvKept(w, After(w, s, acts[..|acts| - 1]), acts[|acts| - 1]);
    }
  }
}
