/** The per-(user, account) idempotency lock over whole runs: taken with SETNX before the outbox insert, given back
    by a failed insert, by the handler that records the outcome, or by the relay after a terminal failure.
    Redis answers and keeps its keys, and each row is delivered once. */
module InFlight {
  import opened Ids

  datatype Stage = Queued | Handling | Abandoned | Failing | Ended

  /** An outbox row and the progress of its request. */
  datatype Flight = Flight(user: string, account: string, stage: Stage)

  /** A request that has taken its lock and not yet inserted its row. */
  datatype Taker = Taker(user: string, account: string, id: string)

  datatype State = State(held: set<string>, flights: map<string, Flight>, takers: map<nat, Taker>)

  datatype Act =
    | Take(p: nat, user: string, account: string, id: string)  // SETNX succeeds
    | Insert(p: nat)             // the outbox row is inserted
    | InsertFails(p: nat)        // it is not: the lock is given back
    | Deliver(id: string)        // published and consumed
    | RecordOutcome(id: string)  // UpdateTransactionStatus: status written, lock given back
    | Quit(id: string)           // early return, crash or failed status write: the lock stays
    | FailForGood(id: string)    // the relay records a terminal failure
    | FreeFailed(id: string)     // and gives the lock back, from the row's stored key

  datatype Holder = Taking(p: nat) | Riding(id: string)

  predicate Enabled(s: State, act: Act)
  {
    match act
    case Take(p, user, account, _) => p !in s.takers && Key(user, account) !in s.held
    case Insert(p) => p in s.takers && s.takers[p].id !in s.flights
    case InsertFails(p) => p in s.takers
    case Deliver(id) => id in s.flights && s.flights[id].stage == Queued
    case RecordOutcome(id) => id in s.flights && s.flights[id].stage == Handling
    case Quit(id) => id in s.flights && s.flights[id].stage == Handling
    case FailForGood(id) => id in s.flights && s.flights[id].stage == Queued
    case FreeFailed(id) => id in s.flights && s.flights[id].stage == Failing
  }

  function Staged(s: State, id: string, stage: Stage): State
    requires id in s.flights
  {
    s.(flights := s.flights[id := s.flights[id].(stage := stage)])
  }

  function Next(s: State, act: Act): State
    requires Enabled(s, act)
  {
    match act
    case Take(p, user, account, id) =>
      s.(held := s.held + {Key(user, account)}, takers := s.takers[p := Taker(user, account, id)])
    case Insert(p) =>
      var t := s.takers[p];
      s.(flights := s.flights[t.id := Flight(t.user, t.account, Queued)], takers := s.takers - {p})
    case InsertFails(p) => s.(held := s.held - {Key(s.takers[p].user, s.takers[p].account)}, takers := s.takers - {p})
    case Deliver(id) => Staged(s, id, Handling)
    case RecordOutcome(id) => Staged(s, id, Ended).(held := s.held - {Key(s.flights[id].user, s.flights[id].account)})
    case Quit(id) => Staged(s, id, Abandoned)
    case FailForGood(id) => Staged(s, id, Failing)
    case FreeFailed(id) =>
      var f := s.flights[id];
      Staged(s, id, Ended).(held := s.held - {ReleasedKey(Key(f.user, f.account), f.account)})
  }

  ghost predicate Runs(s: State, acts: seq<Act>)
    decreases |acts|, 0
  {
    acts == [] || (Runs(s, acts[..|acts| - 1]) && Enabled(After(s, acts[..|acts| - 1]), acts[|acts| - 1]))
  }

  ghost function After(s: State, acts: seq<Act>): State
    requires Runs(s, acts)
    decreases |acts|, 1
  {
    if acts == [] then s else Next(After(s, acts[..|acts| - 1]), acts[|acts| - 1])
  }

  /** In flight: from taking the lock until its release. */
  predicate Active(s: State, h: Holder)
  {
    match h
    case Taking(p) => p in s.takers
    case Riding(id) => id in s.flights && s.flights[id].stage != Ended
  }

  function LockKey(s: State, h: Holder): string
    requires Active(s, h)
  {
    match h
    case Taking(p) => Key(s.takers[p].user, s.takers[p].account)
    case Riding(id) => Key(s.flights[id].user, s.flights[id].account)
  }

  ghost predicate Covered(s: State, h: Holder)
  {
    Active(s, h) ==> LockKey(s, h) in s.held
  }

  ghost predicate Alone(s: State, h: Holder, g: Holder)
  {
    Active(s, h) && Active(s, g) && LockKey(s, h) == LockKey(s, g) ==> h == g
  }

  ghost predicate Owned(s: State, k: string)
  {
    k in s.held ==> exists h :: Active(s, h) && LockKey(s, h) == k
  }

  /** The keys in Redis are exactly the keys of the requests in flight, one request to a key. */
  ghost predicate Inv(s: State)
  {
    && (forall h {:trigger Covered(s, h)} :: Covered(s, h))
    && (forall h, g {:trigger Alone(s, h, g)} :: Alone(s, h, g))
    && (forall k {:trigger Owned(s, k)} :: Owned(s, k))
  }

  /** The holder a step works for, before and after it. */
  function Before(s: State, act: Act): Holder
  {
    match act
    case Take(p, _, _, _) => Taking(p)
    case Insert(p) => Taking(p)
    case InsertFails(p) => Taking(p)
    case Deliver(id) => Riding(id)
    case RecordOutcome(id) => Riding(id)
    case Quit(id) => Riding(id)
    case FailForGood(id) => Riding(id)
    case FreeFailed(id) => Riding(id)
  }

  function Then(s: State, act: Act): Holder
    requires Enabled(s, act)
  {
    if act.Insert? then Riding(s.takers[act.p].id) else Before(s, act)
  }

  predicate Freeing(act: Act)
  {
    act.InsertFails? || act.RecordOutcome? || act.FreeFailed?
  }

  /** A step moves one holder; all others stay as they were. */
  lemma OthersStay(s: State, act: Act, h: Holder)
    requires Enabled(s, act)
    requires h != Before(s, act) && h != Then(s, act)
    ensures Active(Next(s, act), h) <==> Active(s, h)
    ensures Active(s, h) ==> LockKey(Next(s, act), h) == LockKey(s, h)
  {
  }

  lemma HolderMoves(s: State, act: Act)
    requires Enabled(s, act)
    ensures act.Take? <==> !Active(s, Before(s, act))
    ensures Freeing(act) <==> !Active(Next(s, act), Then(s, act))
    ensures act.Insert? ==> !Active(Next(s, act), Before(s, act)) && !Active(s, Then(s, act))
    ensures act.Take? ==> var k := LockKey(Next(s, act), Then(s, act)); k !in s.held && Next(s, act).held == s.held + {k}
    ensures Freeing(act) ==> Next(s, act).held == s.held - {LockKey(s, Before(s, act))}
    ensures !act.Take? && !Freeing(act) ==>
              LockKey(Next(s, act), Then(s, act)) == LockKey(s, Before(s, act)) && Next(s, act).held == s.held
  {
    if act.FreeFailed? {
      ReleaseOfTakenKey(s.flights[act.id].user, s.flights[act.id].account);
    }
  }

  /** An active holder after the step goes back to one before it with the same key, unless it has just taken it. */
  lemma Origin(s: State, act: Act, h: Holder) returns (g: Holder)
    requires Enabled(s, act) && Active(Next(s, act), h)
    requires !(act.Take? && h == Then(s, act))
    ensures Active(s, g) && LockKey(s, g) == LockKey(Next(s, act), h)
    ensures g == if h == Then(s, act) then Before(s, act) else h
    ensures h != Then(s, act) ==> h != Before(s, act)
  {
    HolderMoves(s, act);
    if h == Then(s, act) {
      g := Before(s, act);
    } else {
      g := h;
      OthersStay(s, act, h);
    }
  }

  lemma CoveredKept(s: State, act: Act, h: Holder)
    requires Inv(s) && Enabled(s, act)
    ensures Covered(Next(s, act), h)
  {
    var s' := Next(s, act);
    HolderMoves(s, act);
    if Active(s', h) && !(act.Take? && h == Then(s, act)) {
      var g := Origin(s, act, h);
      assert Covered(s, g) && Alone(s, g, Before(s, act));
    }
  }

  lemma AloneKept(s: State, act: Act, h: Holder, g: Holder)
    requires Inv(s) && Enabled(s, act)
    ensures Alone(Next(s, act), h, g)
  {
    var s' := Next(s, act);
    HolderMoves(s, act);
    if Active(s', h) && Active(s', g) && h != g {
      if act.Take? && h == Then(s, act) {
        var g0 := Origin(s, act, g);
        assert Covered(s, g0);
      } else if act.Take? && g == Then(s, act) {
        var h0 := Origin(s, act, h);
        assert Covered(s, h0);
      } else {
        var h0 := Origin(s, act, h);
        var g0 := Origin(s, act, g);
        assert Alone(s, h0, g0);
      }
    }
  }

  lemma OwnedKept(s: State, act: Act, k: string)
    requires Inv(s) && Enabled(s, act)
    ensures Owned(Next(s, act), k)
  {
    var s' := Next(s, act);
    HolderMoves(s, act);
    if k in s'.held {
      if act.Take? && k == LockKey(s', Then(s, act)) {
        assert Active(s', Then(s, act));
      } else {
        assert Owned(s, k);
        var h :| Active(s, h) && LockKey(s, h) == k;
        if h == Before(s, act) {
          assert Active(s', Then(s, act)) && LockKey(s', Then(s, act)) == k;
        } else {
          OthersStay(s, act, h);
          assert Active(s', h) && LockKey(s', h) == k;
        }
      }
    }
  }

  lemma InvKept(s: State, act: Act)
    requires Inv(s) && Enabled(s, act)
    ensures Inv(Next(s, act))
  {
    forall h ensures Covered(Next(s, act), h) { CoveredKept(s, act, h); }
    forall h, g ensures Alone(Next(s, act), h, g) { AloneKept(s, act, h, g); }
    forall k ensures Owned(Next(s, act), k) { OwnedKept(s, act, k); }
  }

  lemma {:induction false} AlwaysInv(s: State, acts: seq<Act>)
    requires s == State({}, map[], map[]) && Runs(s, acts)
    ensures Inv(After(s, acts))
    decreases |acts|
  {
    if acts == [] {
      assert forall h :: !Active(s, h);
    } else {
      AlwaysInv(s, acts[..|acts| - 1]);
      InvKept(After(s, acts[..|acts| - 1]), acts[|acts| - 1]);
    }
  }

  /** Lock exclusion: in every run two requests in flight never share a key, and a key is in Redis exactly
      when a request in flight holds it. */
  lemma LockExclusion(s: State, acts: seq<Act>)
    requires s == State({}, map[], map[]) && Runs(s, acts)
    ensures var t := After(s, acts);
            && (forall h, g :: Active(t, h) && Active(t, g) && LockKey(t, h) == LockKey(t, g) ==> h == g)
            && (forall k :: k in t.held <==> exists h :: Active(t, h) && LockKey(t, h) == k)
  {
    AlwaysInv(s, acts);
    var t := After(s, acts);
    forall h, g | Active(t, h) && Active(t, g) && LockKey(t, h) == LockKey(t, g) ensures h == g {
      assert Alone(t, h, g);
    }
    forall k ensures k in t.held <==> exists h :: Active(t, h) && LockKey(t, h) == k {
      assert Owned(t, k);
      if h :| Active(t, h) && LockKey(t, h) == k {
        assert Covered(t, h);
      }
    }
  }

  /** A request gives its lock back by a failed insert, by recording its outcome, or by the relay after its row failed
      for good; no other step of its own does, early returns, crashes and failed status writes included. */
  lemma LockLifetime(s: State, act: Act)
    requires Inv(s) && Enabled(s, act) && !act.Take?
    ensures Active(s, Before(s, act))
    ensures LockKey(s, Before(s, act)) in s.held
    ensures LockKey(s, Before(s, act)) in Next(s, act).held
       <==> act.Insert? || act.Deliver? || act.Quit? || act.FailForGood?
    ensures forall k :: k != LockKey(s, Before(s, act)) ==> (k in Next(s, act).held <==> k in s.held)
  {
    assert Covered(s, Before(s, act));
    HolderMoves(s, act);
  }

  /** A queued request whose outcome is recorded, or whose row fails for good, makes room for the next of its pair. */
  lemma NextIsAdmitted(s: State, id: string, p: nat, next: string)
    requires Inv(s) && id in s.flights && s.flights[id].stage == Queued && p !in s.takers
    ensures var f := s.flights[id];
            && !Enabled(s, Take(p, f.user, f.account, next))
            && Runs(s, [Deliver(id), RecordOutcome(id), Take(p, f.user, f.account, next)])
            && Runs(s, [FailForGood(id), FreeFailed(id), Take(p, f.user, f.account, next)])
  {
    var f := s.flights[id];
    assert Covered(s, Riding(id));
    ReleaseOfTakenKey(f.user, f.account);
    ThreeSteps(s, Deliver(id), RecordOutcome(id), Take(p, f.user, f.account, next));
    ThreeSteps(s, FailForGood(id), FreeFailed(id), Take(p, f.user, f.account, next));
  }

  lemma ThreeSteps(s: State, a: Act, b: Act, c: Act)
    requires Enabled(s, a) && Enabled(Next(s, a), b) && Enabled(Next(Next(s, a), b), c)
    ensures Runs(s, [a, b, c])
  {
    assert [a][..0] == [] && [a, b][..1] == [a] && [a, b, c][..2] == [a, b];
    assert Runs(s, []) && After(s, []) == s;
    assert Runs(s, [a]) && After(s, [a]) == Next(s, a);
    assert Runs(s, [a, b]) && After(s, [a, b]) == Next(Next(s, a), b);
  }

  function UserOf(s: State, h: Holder): string
    requires Active(s, h)
  {
    match h case Taking(p) => s.takers[p].user case Riding(id) => s.flights[id].user
  }

  function AccountOf(s: State, h: Holder): string
    requires Active(s, h)
  {
    match h case Taking(p) => s.takers[p].account case Riding(id) => s.flights[id].account
  }

  /** With user ids free of underscores a new request is admitted exactly when its own (user, account) pair has
      nothing in flight: nobody else can block it. */
  lemma AdmissionIsPerPair(s: State, acts: seq<Act>, user: string, account: string)
    requires s == State({}, map[], map[]) && Runs(s, acts)
    requires '_' !in user && forall h :: Active(After(s, acts), h) ==> '_' !in UserOf(After(s, acts), h)
    ensures var t := After(s, acts);
            Key(user, account) !in t.held
            <==> forall h :: Active(t, h) ==> !(UserOf(t, h) == user && AccountOf(t, h) == account)
  {
    AlwaysInv(s, acts);
    var t := After(s, acts);
    var k := Key(user, account);
    assert Owned(t, k);
    if k in t.held {
      var h :| Active(t, h) && LockKey(t, h) == k;
      KeyInjective(UserOf(t, h), AccountOf(t, h), user, account);
    } else if h :| Active(t, h) && UserOf(t, h) == user && AccountOf(t, h) == account {
      assert Covered(t, h);
    }
  }

  /** Outside those assumptions: a release by a handler that no longer owns the key (a second delivery of a finished
      row) is harmless exactly when nobody holds the key; otherwise it frees somebody else's lock. */
  lemma StaleReleaseExactness(s: State, k: string)
    requires Inv(s)
    ensures Inv(s.(held := s.held - {k})) <==> k !in s.held
  {
    var s' := s.(held := s.held - {k});
    assert Owned(s, k);
    if k in s.held {
      var h :| Active(s, h) && LockKey(s, h) == k;
      assert Active(s', h) && !Covered(s', h);
    } else {
      assert s' == s;
    }
  }
}
