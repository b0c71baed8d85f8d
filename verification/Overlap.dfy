/** A run in which two deliveries of one request overlap and leave a wrong balance: the first handler's funds call is
    refused, the second handler settles the row, and then the first one's error path marks it failed. */
module Overlap {
  import Sums
  import opened Ids
  import opened Ledger
  import opened Service
  import opened Interleaving
  import opened LedgerSafety
  import opened LedgerRuns

  const JOB := Job(Deposit, "t", "u", "a", "a", "USD", 5)

  const SCRIPT: seq<Act> := [
    Arrive(0, JOB), Advance(0), Advance(0),          // the first handler creates the row
    Arrive(1, JOB), Fail(0),                         // the request is delivered again; the first UPDATE is refused
    Advance(1), Advance(1), Advance(1), Advance(1),  // the second handler completes the row, locks the account,
    Advance(1), Advance(1), Advance(1), Advance(1),  // sums, writes, reads back and commits
    Advance(0)]                                      // the first handler records its failure

  function Tables(balance: int, status: Status): Db
  {
    Db(map["a" := Account("u", balance, "USD")], map["t" := Row(Deposit, "a", "a", 5, "USD", status)])
  }

  function Arrived(): Proc
  {
    Proc(JOB, Start, 0, "", false, map[])
  }

  function At(pc: Pc): Proc
  {
    Proc(JOB, pc, 0, "USD", false, map[])
  }

  function Writing(pc: Pc, writes: map<string, int>): Proc
  {
    Proc(JOB, pc, 0, "USD", true, writes)
  }

  /** The second handler at work, the first about to mark the row failed. */
  function Second(c: Proc, owner: map<Lock, nat>, creations: nat): State
  {
    State(Tables(0, Pending), owner, map[0 := At(Mark(Failed)), 1 := c], seq(creations, _ => Created(JOB, "USD")))
  }

  /** The state before action `k` of the script. */
  function Scene(k: nat): State
  {
    var empty := Db(map["a" := Account("u", 0, "USD")], map[]);
    var row, both := map[RowLock("t") := 1], map[RowLock("t") := 1, AccountLock("a") := 1];
    match k
    case 0 => State(empty, map[], map[], [])
    case 1 => State(empty, map[], map[0 := Arrived()], [])
    case 2 => State(empty, map[], map[0 := At(Insert)], [])
    case 3 => State(Tables(0, Pending), map[], map[0 := At(Flip)], [Created(JOB, "USD")])
    case 4 => State(Tables(0, Pending), map[], map[0 := At(Flip), 1 := Arrived()], [Created(JOB, "USD")])
    case 5 => Second(Arrived(), map[], 1)
    case 6 => Second(At(Insert), map[], 1)
    case 7 => Second(At(Flip), map[], 2)
    case 8 => Second(Writing(LockAccount(0), map[]), row, 2)
    case 9 => Second(Writing(SumRows(0), map[]), both, 2)
    case 10 => Second(Writing(Write(0, 5), map[]), both, 2)
    case 11 => Second(Writing(ReadRow, map["a" := 5]), both, 2)
    case 12 => Second(Writing(Commit, map["a" := 5]), both, 2)
    case 13 =>
      State(Tables(5, Completed), map[], map[0 := At(Mark(Failed)), 1 := At(Mark(Completed))],
            [Created(JOB, "USD"), Created(JOB, "USD"), Applied(JOB, 1)])
    case _ =>
      State(Tables(5, Failed), map[], map[0 := At(Done(false)), 1 := At(Mark(Completed))],
            [Created(JOB, "USD"), Created(JOB, "USD"), Applied(JOB, 1), Marked("t", Failed)])
  }

  ghost predicate Goes(k: nat)
    requires k < |SCRIPT|
  {
    Enabled(Scene(k), SCRIPT[k]) && Next(Scene(k), SCRIPT[k]) == Scene(k + 1)
  }

  lemma SumOfOne(status: Status)
    ensures LedgerSum(Tables(0, status).ledger, "a") == if status == Completed then 5 else 0
  {
    var none: map<string, Row> := map[];
    WriteRow(none, "t", Row(Deposit, "a", "a", 5, "USD", status), "a");
    assert none["t" := Row(Deposit, "a", "a", 5, "USD", status)] == Tables(0, status).ledger;
  }

  lemma FirstActs(k: nat)
    requires k < 5
    ensures Goes(k)
  {
    hide LedgerSum;
  }

  lemma SecondCreates(k: nat)
    requires 5 <= k < 9
    ensures Goes(k)
  {
    hide LedgerSum;
  }

  lemma SecondSums()
    ensures Goes(9)
  {
    SumOfOne(Completed);
    assert Flipped(Tables(0, Pending).ledger, "t") == Tables(0, Completed).ledger;
    hide LedgerSum;
  }

  lemma SecondWrites(k: nat)
    requires 10 <= k < 12
    ensures Goes(k)
  {
    hide LedgerSum, Credited, SetStatus, CreatePending;
  }

  lemma SecondCommits()
    ensures Goes(12)
  {
    hide LedgerSum, SetStatus, CreatePending;
  }

  lemma FirstFails()
    ensures Goes(13)
  {
    hide LedgerSum, Credited, CreatePending;
  }

  /** The script can be played to any point. */
  lemma {:induction false} Play(k: nat)
    requires k <= |SCRIPT|
    ensures Runs(Scene(0), SCRIPT[..k]) && After(Scene(0), SCRIPT[..k]) == Scene(k)
  {
    hide Enabled, Next, Scene;
    if k > 0 {
      Play(k - 1);
      assert SCRIPT[..k][..k - 1] == SCRIPT[..k - 1];
      assert Goes(k - 1) by {
        if k - 1 < 5 { FirstActs(k - 1); }
        else if k - 1 < 9 { SecondCreates(k - 1); }
        else if k - 1 == 9 { SecondSums(); }
        else if k - 1 < 12 { SecondWrites(k - 1); }
        else if k - 1 == 12 { SecondCommits(); }
        else { FirstFails(); }
      }
    }
  }

  /** Every handler by itself is one the handlers' contracts call safe, but their overlap is not. */
  lemma OverlappingDeliveriesBreak()
    ensures Initial(Scene(0)) && SoundTables(Scene(0).db)
    ensures Runs(Scene(0), SCRIPT) && !Exact(After(Scene(0), SCRIPT).db)
  {
    Play(|SCRIPT|);
    assert SCRIPT[..|SCRIPT|] == SCRIPT;
    Sums.SumZero({}, Legs(map[], "a"));
    assert forall a {:trigger ExactAt(Scene(0).db, a)} | a in Scene(0).db.accounts :: ExactAt(Scene(0).db, a);
    SumOfOne(Failed);
    assert !ExactAt(Scene(14).db, "a");
  }
}
