/** The consumer of one partition: fetch, dispatch, dead-letter, commit, over any number of sessions. A session ends
    when the reader closes or the process stops; the next one starts again at the committed offset. */
module Consumer {
  import opened Prelude
  import opened Retry

  const INITIAL_BACKOFF := 1_000_000_000
  const MAX_BACKOFF := 30_000_000_000

  /** How the handler ends: a panic is recovered into an ordinary error. */
  datatype Handling = Handled | Invalid | Errored | Panicked

  /** What one turn of the loop meets. */
  datatype Turn =
    | Closed                          // EOF, closed pipe or cancelled: the loop returns
    | FetchError(cancelled: bool)     // another error; the context may end during the wait
    | Message(handling: Handling, dlqAnswers: bool, commitAnswers: bool)

  // ---------- what a session does, from its turns ----------

  predicate Stops(t: Turn)
  {
    t.Closed? || (t.FetchError? && t.cancelled)
  }

  /** The offset is committed after a handled message, and after an invalid one that reached the DLQ. */
  predicate Commits(t: Turn)
  {
    t.Message? && t.commitAnswers && (t.handling == Handled || (t.handling == Invalid && t.dlqAnswers))
  }

  /** Fetch failures since the last fetched message. */
  function Streak(turns: seq<Turn>): nat
  {
    if turns == [] || !turns[|turns| - 1].FetchError? then 0 else 1 + Streak(turns[..|turns| - 1])
  }

  /** The waits of a session: each is the initial backoff doubled once per earlier failure of its streak, capped. */
  function Waits(turns: seq<Turn>): seq<int>
  {
    if turns == [] then []
    else
      var init, last := turns[..|turns| - 1], turns[|turns| - 1];
      Waits(init) + if last.FetchError? then [Wait(INITIAL_BACKOFF, MAX_BACKOFF, Streak(init))] else []
  }

  function PositionAfter(turns: seq<Turn>, start: nat): nat
  {
    if turns == [] then start
    else PositionAfter(turns[..|turns| - 1], start) + if turns[|turns| - 1].Message? then 1 else 0
  }

  function CommittedAfter(turns: seq<Turn>, start: nat, committed: nat): nat
  {
    if turns == [] then committed
    else if Commits(turns[|turns| - 1]) then PositionAfter(turns, start)
    else CommittedAfter(turns[..|turns| - 1], start, committed)
  }

  /** The turns up to and including the one that ends the session. */
  function Session(turns: seq<Turn>): seq<Turn>
  {
    if turns == [] then [] else if Stops(turns[0]) then [turns[0]] else [turns[0]] + Session(turns[1..])
  }

  lemma OneMoreTurn(past: seq<Turn>, t: Turn, start: nat, committed: nat)
    ensures PositionAfter(past + [t], start) == PositionAfter(past, start) + if t.Message? then 1 else 0
    ensures CommittedAfter(past + [t], start, committed)
         == if Commits(t) then PositionAfter(past, start) + 1 else CommittedAfter(past, start, committed)
    ensures Waits(past + [t])
         == Waits(past) + if t.FetchError? then [Wait(INITIAL_BACKOFF, MAX_BACKOFF, Streak(past))] else []
    ensures Streak(past + [t]) == if t.FetchError? then Streak(past) + 1 else 0
    ensures AckedOffsets(past + [t], start)
         == AckedOffsets(past, start) + if Acknowledged(t) then {PositionAfter(past, start)} else {}
  {
    assert (past + [t])[..|past|] == past;
  }

  lemma NoTurns(start: nat, committed: nat)
    ensures PositionAfter([], start) == start && CommittedAfter([], start, committed) == committed
    ensures Waits([]) == [] && Streak([]) == 0 && AckedOffsets([], start) == {}
    ensures Wait(INITIAL_BACKOFF, MAX_BACKOFF, 0) == INITIAL_BACKOFF
  {
  }

  lemma {:induction false} SessionStops(turns: seq<Turn>, i: nat)
    requires i < |turns| && Stops(turns[i])
    requires forall j :: 0 <= j < i ==> !Stops(turns[j])
    ensures Session(turns) == turns[..i] + [turns[i]]
  {
    if i > 0 {
      SessionStops(turns[1..], i - 1);
      assert [turns[0]] + turns[1..][..i - 1] == turns[..i];
    } else {
      assert turns[..0] == [];
    }
  }

  lemma {:induction false} SessionRunsOut(turns: seq<Turn>)
    requires forall j :: 0 <= j < |turns| ==> !Stops(turns[j])
    ensures Session(turns) == turns
  {
    if turns != [] {
      SessionRunsOut(turns[1..]);
    }
  }

  /** A session goes on until the reader is closed or a wait is cancelled, whatever else happens. */
  lemma {:induction false} SessionEnds(turns: seq<Turn>)
    ensures Session(turns) <= turns
    ensures Session(turns) == turns || Session(turns)[|Session(turns)| - 1] in {Closed, FetchError(true)}
    ensures forall i :: 0 <= i < |Session(turns)| - 1 ==> turns[i] !in {Closed, FetchError(true)}
  {
    if turns != [] && !Stops(turns[0]) {
      SessionEnds(turns[1..]);
      assert Session(turns)[1..] == Session(turns[1..]);
      forall i | 0 <= i < |Session(turns)| - 1 ensures turns[i] !in {Closed, FetchError(true)} {
        assert i > 0 ==> turns[i] == turns[1..][i - 1];
      }
    }
  }

  lemma {:induction false} StreakIs(turns: seq<Turn>, k: nat)
    requires k <= |turns| && forall i :: |turns| - k <= i < |turns| ==> turns[i].FetchError?
    requires k < |turns| ==> turns[|turns| - k - 1].Message?
    ensures Streak(turns) == k
  {
    if k > 0 { StreakIs(turns[..|turns| - 1], k - 1); }
  }

  /** The wait after failure number `k + 1` in a row is one second doubled `k` times, and at most thirty seconds; a
      fetched message starts the count anew. */
  lemma WaitOfStreak(turns: seq<Turn>, k: nat, cancelled: bool)
    requires k <= |turns| && forall i :: |turns| - k <= i < |turns| ==> turns[i].FetchError?
    requires k < |turns| ==> turns[|turns| - k - 1].Message?
    ensures Waits(turns + [FetchError(cancelled)])
         == Waits(turns) + [Min(1_000_000_000 * Pow2(k), 30_000_000_000)]
  {
    hide Waits, Streak, PositionAfter, CommittedAfter, AckedOffsets;
    StreakIs(turns, k);
    OneMoreTurn(turns, FetchError(cancelled), 0, 0);
    assert Pow2(0) == 1;
  }

  // ---------- which messages a session loses ----------

  /** The message reached its handler without error, or the DLQ. */
  predicate Acknowledged(t: Turn)
  {
    t.Message? && (t.handling == Handled || (t.handling == Invalid && t.dlqAnswers))
  }

  /** The offset a turn's message has. */
  function OffsetOf(turns: seq<Turn>, j: nat, start: nat): nat
    requires j < |turns|
  {
    PositionAfter(turns[..j], start)
  }

  /** Offsets acknowledged during a session. */
  function AckedOffsets(turns: seq<Turn>, start: nat): set<nat>
  {
    if turns == [] then {}
    else
      var init, last := turns[..|turns| - 1], turns[|turns| - 1];
      AckedOffsets(init, start) + if Acknowledged(last) then {PositionAfter(init, start)} else {}
  }

  predicate CommitsFrom(turns: seq<Turn>, j: nat)
  {
    exists k :: j <= k < |turns| && Commits(turns[k])
  }

  /** An unacknowledged message that a later turn commits past. */
  predicate SkippedTurn(turns: seq<Turn>, j: nat)
  {
    j < |turns| && turns[j].Message? && !Acknowledged(turns[j]) && CommitsFrom(turns, j + 1)
  }

  /** The offsets a session commits past without acknowledging them. */
  ghost predicate Skipped(turns: seq<Turn>, start: nat, o: nat)
  {
    exists j {:trigger SkippedTurn(turns, j)} :: SkippedTurn(turns, j) && OffsetOf(turns, j, start) == o
  }

  lemma {:induction false} PositionGrows(turns: seq<Turn>, j: nat, start: nat)
    requires j <= |turns|
    ensures start <= PositionAfter(turns[..j], start) <= PositionAfter(turns, start)
    ensures j < |turns| && turns[j].Message? ==> OffsetOf(turns, j, start) < PositionAfter(turns, start)
  {
    if j < |turns| {
      var init := turns[..|turns| - 1];
      PositionGrows(init, j, start);
      assert init[..j] == turns[..j];
    } else if j > 0 {
      PositionGrows(turns[..j - 1], j - 1, start);
      assert turns[..j] == turns && turns[..j - 1][..j - 1] == turns[..j - 1];
    } else {
      assert turns[..j] == turns;
    }
  }

  /** A message lies below the committed offset exactly when its own turn or a later one commits. */
  lemma {:induction false} CommittedPast(turns: seq<Turn>, j: nat, start: nat, committed: nat)
    requires j < |turns| && turns[j].Message? && committed <= start
    ensures OffsetOf(turns, j, start) < CommittedAfter(turns, start, committed) <==> CommitsFrom(turns, j)
  {
    var n := |turns| - 1;
    var init := turns[..n];
    PositionGrows(turns, j, start);
    if Commits(turns[n]) {
      assert CommitsFrom(turns, j);
    } else if j < n {
      CommittedPast(init, j, start, committed);
      assert init[..j] == turns[..j];
      assert CommitsFrom(turns, j) ==> CommitsFrom(init, j);
      assert CommitsFrom(init, j) ==> CommitsFrom(turns, j) by {
        if CommitsFrom(init, j) {
          var k :| j <= k < |init| && Commits(init[k]);
          assert Commits(turns[k]);
        }
      }
    } else {
      CommittedBelow(init, start, committed);
    }
  }

  lemma {:induction false} CommittedBelow(turns: seq<Turn>, start: nat, committed: nat)
    requires committed <= start
    ensures committed <= CommittedAfter(turns, start, committed) <= PositionAfter(turns, start)
  {
    PositionGrows(turns, 0, start);
    if turns != [] {
      CommittedBelow(turns[..|turns| - 1], start, committed);
    }
  }

  /** No unacknowledged message lies below the committed offset if and only if no commit follows an unacknowledged
      message: failing is harmless exactly until the next success. */
  lemma NothingLostIff(turns: seq<Turn>, start: nat, committed: nat)
    requires committed <= start
    ensures (forall j :: 0 <= j < |turns| && turns[j].Message? && !Acknowledged(turns[j]) ==>
               OffsetOf(turns, j, start) >= CommittedAfter(turns, start, committed))
       <==> (forall j, k :: 0 <= j < k < |turns| && turns[j].Message? && Commits(turns[k]) ==> Acknowledged(turns[j]))
  {
    forall j | 0 <= j < |turns| && turns[j].Message? && !Acknowledged(turns[j])
      ensures OffsetOf(turns, j, start) < CommittedAfter(turns, start, committed)
         <==> exists k :: j < k < |turns| && Commits(turns[k])
    {
      CommittedPast(turns, j, start, committed);
    }
  }

  predicate CommitsAnswered(turns: seq<Turn>)
  {
    forall i :: 0 <= i < |turns| && turns[i].Message? ==> turns[i].commitAnswers
  }

  /** If every commit is answered, what is acknowledged is also committed. */
  lemma {:induction false} AckedAreCommitted(turns: seq<Turn>, start: nat)
    requires CommitsAnswered(turns)
    ensures forall o <- AckedOffsets(turns, start) :: o < CommittedAfter(turns, start, start)
  {
    if turns != [] {
      var init := turns[..|turns| - 1];
      AckedAreCommitted(init, start);
      AckedWithin(init, start);
    }
  }

  /** Every offset of the session is that of one message, and it is acknowledged exactly if that message was. */
  lemma {:induction false} OffsetsOfTurns(turns: seq<Turn>, start: nat, o: nat) returns (j: nat)
    requires start <= o < PositionAfter(turns, start)
    ensures j < |turns| && turns[j].Message? && OffsetOf(turns, j, start) == o
    ensures o in AckedOffsets(turns, start) <==> Acknowledged(turns[j])
  {
    var n := |turns| - 1;
    var init := turns[..n];
    if o < PositionAfter(init, start) {
      j := OffsetsOfTurns(init, start, o);
      assert init[..j] == turns[..j];
    } else {
      j := n;
      AckedWithin(init, start);
    }
  }

  lemma {:induction false} AckedWithin(turns: seq<Turn>, start: nat)
    ensures forall o <- AckedOffsets(turns, start) :: start <= o < PositionAfter(turns, start)
  {
    if turns != [] {
      AckedWithin(turns[..|turns| - 1], start);
      PositionGrows(turns, |turns| - 1, start);
    }
  }

  lemma {:induction false} SameOffset(turns: seq<Turn>, i: nat, j: nat, start: nat)
    requires i < j < |turns| && turns[i].Message?
    ensures OffsetOf(turns, i, start) < OffsetOf(turns, j, start)
  {
    PositionGrows(turns[..j], i, start);
    assert turns[..j][..i] == turns[..i];
  }

  /** The offsets that end up below the committed offset without an acknowledgement are the skipped ones. */
  lemma LostAreSkipped(turns: seq<Turn>, start: nat, o: nat)
    ensures start <= o < CommittedAfter(turns, start, start) && o !in AckedOffsets(turns, start) <==> Skipped(turns, start, o)
  {
    CommittedBelow(turns, start, start);
    if start <= o < CommittedAfter(turns, start, start) && o !in AckedOffsets(turns, start) {
      var j := OffsetsOfTurns(turns, start, o);
      CommittedPast(turns, j, start, start);
      assert SkippedTurn(turns, j);
    }
    if Skipped(turns, start, o) {
      var j :| SkippedTurn(turns, j) && OffsetOf(turns, j, start) == o;
      PositionGrows(turns, j, start);
      CommittedPast(turns, j, start, start);
      var i := OffsetsOfTurns(turns, start, o);
      if i < j { SameOffset(turns, i, j, start); }
      if j < i { SameOffset(turns, j, i, start); }
    }
  }

  /** A failed message is not retried: the next success commits past it. */
  lemma FailedMessageIsSkipped(start: nat, committed: nat, dlqAnswers: bool, commitAnswers: bool)
    ensures var turns := [Message(Errored, dlqAnswers, commitAnswers), Message(Handled, dlqAnswers, true)];
            CommittedAfter(turns, start, committed) == start + 2 && Skipped(turns, start, start)
  {
    var turns := [Message(Errored, dlqAnswers, commitAnswers), Message(Handled, dlqAnswers, true)];
    assert turns[..1] == [turns[0]];
    assert turns[..1][..0] == [];
    assert PositionAfter(turns[..1], start) == start + 1;
    assert Commits(turns[1]) && SkippedTurn(turns, 0);
  }

  // ---------- several sessions ----------

  /** The committed offset after some sessions; each starts at the offset the one before it left. */
  function CommittedThrough(sessions: seq<seq<Turn>>, committed: nat): nat
  {
    if sessions == [] then committed
    else
      var start := CommittedThrough(sessions[..|sessions| - 1], committed);
      CommittedAfter(Session(sessions[|sessions| - 1]), start, start)
  }

  function AckedThrough(sessions: seq<seq<Turn>>, committed: nat): set<nat>
  {
    if sessions == [] then {}
    else
      var init := sessions[..|sessions| - 1];
      AckedThrough(init, committed) + AckedOffsets(Session(sessions[|sessions| - 1]), CommittedThrough(init, committed))
  }

  /** Session `i` commits past `o` without acknowledging it. */
  ghost predicate SkippedIn(sessions: seq<seq<Turn>>, committed: nat, i: nat, o: nat)
  {
    i < |sessions| && Skipped(Session(sessions[i]), CommittedThrough(sessions[..i], committed), o)
  }

  /** ... and no session before it had acknowledged it. */
  ghost predicate LostIn(sessions: seq<seq<Turn>>, committed: nat, i: nat, o: nat)
  {
    SkippedIn(sessions, committed, i, o) && o !in AckedThrough(sessions[..i], committed)
  }

  class PartitionConsumer {
    var position: nat            // next offset to fetch
    var committed: nat           // group offset kept by the broker
    var dlq: seq<nat>            // offsets written to the dead-letter topic, in order
    ghost var dispatched: set<nat>
    ghost var handled: set<nat>  // handler returned no error
    ghost var invalid: set<nat>  // handler returned ErrInvalidMessage
    ghost var failed: set<nat>   // handler returned another error, or panicked
    ghost var refused: set<nat>  // invalid, and the DLQ write failed
    ghost var direct: set<nat>   // committed by their own turn

    ghost predicate Valid()
      reads this
    {
      && committed <= position
      && (forall o: nat :: o < position ==> o in dispatched)
      && (forall o <- dispatched :: o in handled || o in invalid || o in failed)
      && (forall o <- invalid :: o in dlq || o in refused)
      && (forall o <- direct :: o in handled || o in dlq)
      && (forall o <- dlq :: o in invalid)
      && (committed > 0 ==> committed - 1 in direct)
    }

    constructor ()
      ensures Valid() && position == committed == 0 && dlq == []
    {
      position, committed, dlq := 0, 0, [];
      dispatched, handled, invalid, failed, refused, direct := {}, {}, {}, {}, {}, {};
    }

    ghost predicate Acked(o: nat)
      reads this
    {
      o in handled || o in dlq
    }

    /** Committed past, but neither handled nor dead-lettered in any delivery. */
    ghost predicate Lost(o: nat)
      reads this
    {
      o < committed && !Acked(o)
    }

    /** One fetched message. */
    method Deliver(t: Turn)
      requires Valid() && t.Message?
      modifies this
      ensures Valid()
      ensures position == old(position) + 1
      ensures committed == if Commits(t) then position else old(committed)
      ensures committed == if t.commitAnswers && (t.handling == Handled || (t.handling == Invalid && t.dlqAnswers))
                           then old(position) + 1 else old(committed)
      ensures dlq == if t.handling == Invalid && t.dlqAnswers then old(dlq) + [old(position)] else old(dlq)
      ensures dispatched == old(dispatched) + {old(position)}
      ensures handled == if t.handling == Handled then old(handled) + {old(position)} else old(handled)
      ensures old(position) in direct <==> Commits(t) || old(position) in old(direct)
      ensures old(handled) <= handled && old(dispatched) <= dispatched && old(direct) <= direct
    {
      var offset := position;
      position := position + 1;
      dispatched := dispatched + {offset};
      if t.handling == Handled {
        handled := handled + {offset};
        if t.commitAnswers {
          committed, direct := offset + 1, direct + {offset};
        }
        return;
      }
      if t.handling == Invalid {
        invalid := invalid + {offset};
        if !t.dlqAnswers {
          refused := refused + {offset};
          return;
        }
        dlq := dlq + [offset];
        if t.commitAnswers {
          committed, direct := offset + 1, direct + {offset};
        }
        return;
      }
      failed := failed + {offset};
    }

    /** The fetch loop, on the turns the outside world gives it. */
    method FetchLoop(turns: seq<Turn>) returns (waits: seq<int>)
      requires Valid() && position == committed
      modifies this
      ensures Valid()
      ensures position == PositionAfter(Session(turns), old(committed))
      ensures committed == CommittedAfter(Session(turns), old(committed), old(committed)) >= old(committed)
      ensures waits == Waits(Session(turns))
      ensures forall o: nat :: Acked(o) <==> old(Acked(o)) || o in AckedOffsets(Session(turns), old(committed))
      ensures old(dlq) <= dlq && old(handled) <= handled && old(dispatched) <= dispatched && old(direct) <= direct
    {
      hide Valid, PositionAfter, CommittedAfter, Waits, Streak, AckedOffsets, Session, Wait;
      var backoff := INITIAL_BACKOFF;
      waits := [];
      var i := 0;
      ghost var past: seq<Turn> := [];
      ghost var start := committed;
      NoTurns(start, start);
      while i < |turns|
        invariant 0 <= i <= |turns| && past == turns[..i] && Valid()
        invariant forall j :: 0 <= j < i ==> !Stops(turns[j])
        invariant position == PositionAfter(past, start)
        invariant committed == CommittedAfter(past, start, start)
        invariant forall o: nat :: Acked(o) <==> old(Acked(o)) || o in AckedOffsets(past, start)
        invariant waits == Waits(past)
        invariant backoff == Wait(INITIAL_BACKOFF, MAX_BACKOFF, Streak(past))
        invariant old(dlq) <= dlq && old(handled) <= handled && old(dispatched) <= dispatched && old(direct) <= direct
      {
        var t := turns[i];
        OneMoreTurn(past, t, start, start);
        past := past + [t];
        i := i + 1;
        match t {
          case Closed =>
            SessionStops(turns, i - 1);
            break;
          case FetchError(cancelled) =>
            waits := waits + [backoff];
            if cancelled {
              SessionStops(turns, i - 1);
              break;
            }
            DoublingClosedForm(INITIAL_BACKOFF, MAX_BACKOFF, Streak(turns[..i - 1]));
            backoff := Doubled(backoff, MAX_BACKOFF);
          case Message(_, _, _) =>
            backoff := INITIAL_BACKOFF;
            NoTurns(start, start);
            Deliver(t);
        }
      }
      if forall j :: 0 <= j < i ==> !Stops(turns[j]) {
        SessionRunsOut(turns);
      }
      assert past == Session(turns);
      CommittedBelow(past, start, start);
    }

    /** One session. A new reader starts at the committed offset, so after a crash or a shutdown the next session does.
        The messages lost are exactly those that no delivery acknowledged before a later message of the same session
        was committed. */
    method Consume(turns: seq<Turn>) returns (waits: seq<int>)
      requires Valid()
      modifies this
      ensures Valid()
      ensures position == PositionAfter(Session(turns), old(committed))
      ensures committed == CommittedAfter(Session(turns), old(committed), old(committed)) >= old(committed)
      ensures waits == Waits(Session(turns))
      ensures forall o: nat :: Acked(o) <==> old(Acked(o)) || o in AckedOffsets(Session(turns), old(committed))
      ensures forall o: nat ::
                Lost(o) <==> old(Lost(o)) || (Skipped(Session(turns), old(committed), o) && !old(Acked(o)))
      ensures CommitsAnswered(turns) ==>
                forall o: nat :: Acked(o) && !old(Acked(o)) ==> o < committed
      ensures old(dlq) <= dlq && old(handled) <= handled && old(dispatched) <= dispatched && old(direct) <= direct
    {
      ghost var session, start := Session(turns), committed;
      position := committed;
      waits := FetchLoop(turns);
      AckedWithin(session, start);
      SessionEnds(turns);
      if CommitsAnswered(turns) {
        AckedAreCommitted(session, start);
      }
      forall o: nat ensures Lost(o) <==> old(Lost(o)) || (Skipped(session, start, o) && !old(Acked(o))) {
        LostAreSkipped(session, start, o);
      }
    }

    /** Any number of sessions, ended by crashes or shutdowns: the committed offset never moves back, and a message is
        lost exactly if some session committed past it and neither that session nor an earlier one acknowledged it. */
    method ConsumeSessions(sessions: seq<seq<Turn>>)
      requires Valid()
      modifies this
      ensures Valid() && committed == CommittedThrough(sessions, old(committed)) >= old(committed)
      ensures forall o: nat :: Acked(o) <==> old(Acked(o)) || o in AckedThrough(sessions, old(committed))
      ensures forall o: nat ::
                Lost(o) <==> old(Lost(o)) || (!old(Acked(o)) && exists i :: LostIn(sessions, old(committed), i, o))
      ensures (forall k :: 0 <= k < |sessions| ==> CommitsAnswered(sessions[k])) ==>
                forall o: nat :: Acked(o) && !old(Acked(o)) ==> o < committed
      ensures old(dlq) <= dlq && old(handled) <= handled && old(dispatched) <= dispatched && old(direct) <= direct
    {
      hide Valid, Skipped, CommittedAfter, AckedOffsets, Session, PositionAfter;
      ghost var start := committed;
      for i := 0 to |sessions|
        invariant Valid() && committed == CommittedThrough(sessions[..i], start) >= start
        invariant forall o: nat :: Acked(o) <==> old(Acked(o)) || o in AckedThrough(sessions[..i], start)
        invariant forall o: nat ::
                    Lost(o) <==> old(Lost(o)) || (!old(Acked(o)) && exists k: nat :: k < i && LostIn(sessions, start, k, o))
        invariant (forall k :: 0 <= k < |sessions| ==> CommitsAnswered(sessions[k])) ==>
                    forall o: nat :: Acked(o) && !old(Acked(o)) ==> o < committed
        invariant old(dlq) <= dlq && old(handled) <= handled && old(dispatched) <= dispatched && old(direct) <= direct
      {
        assert sessions[..i + 1][..i] == sessions[..i];
        ghost var acked0 := AckedThrough(sessions[..i], start);
        var waits := Consume(sessions[i]);
        forall o: nat
          ensures LostIn(sessions, start, i, o) <==>
                    Skipped(Session(sessions[i]), CommittedThrough(sessions[..i], start), o) && o !in acked0
        {
        }
      }
      assert sessions[..|sessions|] == sessions;
    }
  }
}
