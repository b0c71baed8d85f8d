/** One goroutine per claimed row, at most 32 of them past the semaphore: every interleaving ends in the table
    and the locks that processing the batch from left to right ends in. */
module RelayGoroutines {
  import Sums
  import opened Outbox
  import opened Relay

  const MAX_CONCURRENCY := 32

  /** Where a row's goroutine stands. */
  datatype Stage = Waiting | Publishing | Writing | Freeing | Through

  type Places = map<string, Stage>

  /** The batch as claimed, and the fixed publish outcomes and write times. */
  datatype Batch = Batch(table: Table, ids: set<string>, held: set<string>, pass: Pass, maxRetries: int, cap: int)

  datatype State = State(rows: Table, held: set<string>, at: Places)

  datatype Move = Enter(id: string) | Publish(id: string) | Record(id: string) | Free(id: string)

  /** The goroutines past the semaphore. */
  function Inside(at: Places): set<string>
  {
    set id | id in at && at[id] in {Publishing, Writing, Freeing}
  }

  function StageBefore(m: Move): Stage
  {
    match m
    case Enter(_) => Waiting
    case Publish(_) => Publishing
    case Record(_) => Writing
    case Free(_) => Freeing
  }

  /** After its status write a goroutine still has to free the lock if it `gaveUp`. */
  function StageAfter(m: Move, gaveUp: bool): Stage
  {
    match m
    case Enter(_) => Publishing
    case Publish(_) => Writing
    case Record(_) => if gaveUp then Freeing else Through
    case Free(_) => Through
  }

  predicate Enabled(s: State, m: Move)
  {
    && m.id in s.at && s.at[m.id] == StageBefore(m)
    && (m.Enter? ==> |Inside(s.at)| < MAX_CONCURRENCY)
    && m.id in s.rows
  }

  /** Whether the goroutine goes on to free the lock: if the row is unencodable, or if the answered failure write says
      that the row has failed. */
  predicate FreesNext(a: Attempt, written: Row)
  {
    a.outcome == Unencodable || (a.outcome == Refused && a.writes && written.status == Failed)
  }

  /** The status write reads and writes the row in place. */
  function Next(b: Batch, s: State, m: Move): State
    requires Enabled(s, m)
  {
    var row, a := s.rows[m.id], b.pass.attempt(m.id);
    match m
    case Record(id) =>
      var written := Processed(row, a, b.maxRetries, b.cap);
      State(s.rows[id := written], s.held, s.at[id := StageAfter(m, FreesNext(a, written))])
    case Free(id) =>
      State(s.rows, if a.frees then s.held - {LockOf(row)} else s.held, s.at[id := StageAfter(m, true)])
    case _ => s.(at := s.at[m.id := StageAfter(m, false)])
  }

  function Start(b: Batch): State
  {
    State(b.table, b.held, map id | id in b.ids :: Waiting)
  }

  ghost predicate Runs(b: Batch, moves: seq<Move>)
    decreases |moves|, 0
  {
    moves == [] || (Runs(b, moves[..|moves| - 1]) && Enabled(After(b, moves[..|moves| - 1]), moves[|moves| - 1]))
  }

  ghost function After(b: Batch, moves: seq<Move>): State
    requires Runs(b, moves)
    decreases |moves|, 1
  {
    if moves == [] then Start(b) else Next(b, After(b, moves[..|moves| - 1]), moves[|moves| - 1])
  }

  // ---------- invariant ----------

  /** Rows whose status has been written. */
  function Recorded(at: Places): set<string>
  {
    set id | id in at && at[id] in {Freeing, Through}
  }

  function Finished(at: Places): set<string>
  {
    set id | id in at && at[id] == Through
  }

  /** The table depends only on which rows are recorded, the locks only on which goroutines are through. */
  predicate Effects(b: Batch, s: State)
  {
    && s.rows == AfterBatch(b.table, Recorded(s.at), b.pass, b.maxRetries, b.cap)
    && s.held == b.held - FreedLocks(b.table, Finished(s.at), b.pass, b.maxRetries)
  }

  predicate MustFree(b: Batch, id: string)
  {
    id in b.table && GivesUp(b.table[id], b.pass.attempt(id), b.maxRetries)
  }

  ghost predicate FreeingReleases(b: Batch, at: Places)
  {
    forall id {:trigger MustFree(b, id)} | id in at && at[id] == Freeing :: MustFree(b, id)
  }

  ghost predicate Inv(b: Batch, s: State)
  {
    && b.ids <= b.table.Keys && s.at.Keys == b.ids && |Inside(s.at)| <= MAX_CONCURRENCY
    && Effects(b, s) && FreeingReleases(b, s.at)
  }

  lemma InsideAfter(at: Places, id: string, stage: Stage)
    requires id in at && at[id] != Through
    ensures |Inside(at[id := stage])| <= |Inside(at)| + if at[id] == Waiting then 1 else 0
  {
    var before, after := Inside(at), Inside(at[id := stage]);
    assert after <= before + {id};
    Sums.SubsetCount(after, before + {id});
    if at[id] != Waiting {
      assert before + {id} == before;
    }
  }

  /** Only recording adds to the recorded rows, and each row is recorded once. */
  lemma RecordedAfter(at: Places, m: Move, gaveUp: bool)
    requires m.id in at && at[m.id] == StageBefore(m)
    ensures Recorded(at[m.id := StageAfter(m, gaveUp)]) == if m.Record? then Recorded(at) + {m.id} else Recorded(at)
    ensures Finished(at[m.id := StageAfter(m, gaveUp)])
         == if m.Free? || (m.Record? && !gaveUp) then Finished(at) + {m.id} else Finished(at)
    ensures m.Record? ==> m.id !in Recorded(at)
    ensures m.Record? || m.Free? ==> m.id !in Finished(at)
  {
  }

  lemma WrittenRow(r: Row, a: Attempt, maxRetries: int, cap: int)
    ensures FreesNext(a, Processed(r, a, maxRetries, cap)) <==> GivesUp(r, a, maxRetries)
    ensures LockOf(Processed(r, a, maxRetries, cap)) == LockOf(r)
  {
    hide DelaySeconds;
  }

  lemma RecordKeepsEffects(b: Batch, s: State, id: string)
    requires Effects(b, s) && Enabled(s, Record(id)) && id in b.table
    ensures Effects(b, Next(b, s, Record(id)))
    ensures Next(b, s, Record(id)).at[id] == Freeing ==> MustFree(b, id)
  {
    var a := b.pass.attempt(id);
    OneMoreRow(b.table, Recorded(s.at), id, b.pass, b.maxRetries, b.cap);
    OneMoreRow(b.table, Finished(s.at), id, b.pass, b.maxRetries, b.cap);
    WrittenRow(b.table[id], a, b.maxRetries, b.cap);
    RecordedAfter(s.at, Record(id), FreesNext(a, Processed(s.rows[id], a, b.maxRetries, b.cap)));
  }

  lemma FreeKeepsEffects(b: Batch, s: State, id: string)
    requires Effects(b, s) && Enabled(s, Free(id)) && MustFree(b, id)
    ensures Effects(b, Next(b, s, Free(id)))
  {
    OneMoreRow(b.table, Finished(s.at), id, b.pass, b.maxRetries, b.cap);
    WrittenRow(b.table[id], b.pass.attempt(id), b.maxRetries, b.cap);
    RecordedAfter(s.at, Free(id), true);
  }

  lemma EffectsKept(b: Batch, s: State, m: Move)
    requires Inv(b, s) && Enabled(s, m)
    ensures Effects(b, Next(b, s, m))
    ensures m.Record? && Next(b, s, m).at[m.id] == Freeing ==> MustFree(b, m.id)
  {
    match m
    case Record(id) => RecordKeepsEffects(b, s, id);
    case Free(id) =>
      assert MustFree(b, id);
      FreeKeepsEffects(b, s, id);
    case _ => RecordedAfter(s.at, m, false);
  }

  /** A move changes the stage of its own row only, and frees only rows that must. */
  lemma PlaceAfter(b: Batch, s: State, m: Move)
    requires Enabled(s, m)
    ensures m.id in Next(b, s, m).at && Next(b, s, m).at == s.at[m.id := Next(b, s, m).at[m.id]]
    ensures Next(b, s, m).at[m.id] == Freeing ==> m.Record?
    ensures MovesLeft(Next(b, s, m).at[m.id]) < MovesLeft(s.at[m.id])
  {
  }

  lemma InvKept(b: Batch, s: State, m: Move)
    requires Inv(b, s) && Enabled(s, m)
    ensures Inv(b, Next(b, s, m))
  {
    EffectsKept(b, s, m);
    PlaceAfter(b, s, m);
    var s' := Next(b, s, m);
    InsideAfter(s.at, m.id, s'.at[m.id]);
    forall id | id in s'.at && s'.at[id] == Freeing ensures MustFree(b, id) {
      assert id in s.at && s.at[id] == Freeing ==> MustFree(b, id);
    }
  }

  lemma StartInv(b: Batch)
    requires b.ids <= b.table.Keys
    ensures Inv(b, Start(b))
  {
    assert Recorded(Start(b).at) == Finished(Start(b).at) == Inside(Start(b).at) == {};
    assert FreedLocks(b.table, {}, b.pass, b.maxRetries) == {};
    assert AfterBatch(b.table, {}, b.pass, b.maxRetries, b.cap) == b.table;
  }

  // ---------- whole runs ----------

  lemma {:induction false} AlwaysInv(b: Batch, moves: seq<Move>)
    requires b.ids <= b.table.Keys
    requires Runs(b, moves)
    ensures Inv(b, After(b, moves))
    decreases |moves|
  {
    if moves == [] {
      StartInv(b);
    } else {
      AlwaysInv(b, moves[..|moves| - 1]);
      InvKept(b, After(b, moves[..|moves| - 1]), moves[|moves| - 1]);
    }
  }

  /** All goroutines are through: `wg.Wait` returns. */
  predicate Joined(at: Places)
  {
    forall id <- at :: at[id] == Through
  }

  /** Order independence: whenever all goroutines are through, table and locks are those of the left-to-right
      method; and at no point are more than 32 goroutines inside. */
  lemma AnyInterleaving(b: Batch, moves: seq<Move>)
    requires b.ids <= b.table.Keys
    requires Runs(b, moves)
    ensures |Inside(After(b, moves).at)| <= 32
    ensures Joined(After(b, moves).at) ==>
              && After(b, moves).rows == AfterBatch(b.table, b.ids, b.pass, b.maxRetries, b.cap)
              && After(b, moves).held == b.held - FreedLocks(b.table, b.ids, b.pass, b.maxRetries)
  {
    AlwaysInv(b, moves);
    var at := After(b, moves).at;
    if Joined(at) {
      assert Recorded(at) == Finished(at) == b.ids;
    }
  }

  /** The semaphore never wedges: until all goroutines are through, one of them can move. */
  lemma SomeMove(b: Batch, s: State)
    requires Inv(b, s) && !Joined(s.at)
    ensures exists m :: Enabled(s, m)
    ensures forall id <- s.at :: s.at[id] == Waiting ==> (Enabled(s, Enter(id)) <==> |Inside(s.at)| < 32)
  {
    assert s.rows.Keys == b.table.Keys;
    var id :| id in s.at && s.at[id] != Through;
    var next := if Inside(s.at) == {} then id else var inside :| inside in Inside(s.at); inside;
    assert |Inside(s.at)| == 0 || next in Inside(s.at);
    match s.at[next]
    case Waiting => assert Enabled(s, Enter(next));
    case Publishing => assert Enabled(s, Publish(next));
    case Writing => assert Enabled(s, Record(next));
    case Freeing => assert Enabled(s, Free(next));
  }

  function MovesLeft(stage: Stage): int
  {
    match stage case Waiting => 4 case Publishing => 3 case Writing => 2 case Freeing => 1 case Through => 0
  }

  ghost function Left(at: Places): string -> int
  {
    id => if id in at then MovesLeft(at[id]) else 0
  }

  /** ... and every run ends: a batch takes at most four moves a row. */
  lemma {:induction false} MovesBounded(b: Batch, moves: seq<Move>)
    requires b.ids <= b.table.Keys
    requires Runs(b, moves)
    ensures |moves| + Sums.Sum(b.ids, Left(After(b, moves).at)) <= 4 * |b.ids|
    decreases |moves|
  {
    if moves == [] {
      FourEach(b.ids, Left(Start(b).at));
    } else {
      var s, m := After(b, moves[..|moves| - 1]), moves[|moves| - 1];
      MovesBounded(b, moves[..|moves| - 1]);
      AlwaysInv(b, moves[..|moves| - 1]);
      PlaceAfter(b, s, m);
      Sums.SumChange(b.ids, Left(s.at), Left(Next(b, s, m).at), m.id);
    }
  }

  lemma {:induction false} FourEach(s: set<string>, f: string -> int)
    requires forall id <- s :: f(id) == 4
    ensures Sums.Sum(s, f) == 4 * |s|
    decreases |s|
  {
    if s != {} {
      var x :| x in s;
      Sums.SumTake(s, f, x);
      FourEach(s - {x}, f);
    }
  }
}
