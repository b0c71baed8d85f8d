/** Bounded retry with doubling waits. Durations are 64-bit nanosecond counts that wrap around. */
module Retry {
  import opened Prelude

  datatype Config = Config(maxRetries: int, initialWait: int, maxWait: int)

  /** How a call of WithBackoff ends. */
  datatype Ending = Succeeded | OperationError(error: int) | ContextError

  function Wrap64(x: int): int
  {
    (x + 0x8000_0000_0000_0000) % 0x1_0000_0000_0000_0000 - 0x8000_0000_0000_0000
  }

  /** One doubling, then the cap. */
  function Doubled(wait: int, max: int): int
  {
    var twice := Wrap64(wait * 2);
    if twice > max then max else twice
  }

  /** The wait before retry number `k + 1`. */
  function Wait(initial: int, max: int, k: nat): int
  {
    if k == 0 then initial else Min(initial * Pow2(k), max)
  }

  /** A duration that can be doubled without wrapping around. */
  predicate Doubles(x: int)
  {
    0 <= x < 0x4000_0000_0000_0000
  }

  lemma WrapSmall(x: int)
    requires -0x8000_0000_0000_0000 <= x < 0x8000_0000_0000_0000
    ensures Wrap64(x) == x
  {
  }

  /** Doubling and capping step by step is one power of two, capped once. */
  lemma DoublingClosedForm(initial: int, max: int, k: nat)
    requires Doubles(initial) && Doubles(max)
    ensures 0 <= Wait(initial, max, k) && Doubles(Wait(initial, max, k))
    ensures Doubled(Wait(initial, max, k), max) == Wait(initial, max, k + 1)
  {
    var power := initial * Pow2(k);
    assert Pow2(k + 1) == 2 * Pow2(k);
    assert initial * Pow2(k + 1) == 2 * power;
    assert power >= 0 by { Scaled(initial, Pow2(k)); }
    assert Pow2(0) == 1;
    WrapSmall(2 * Wait(initial, max, k));
  }

  lemma Scaled(x: int, y: int)
    requires x >= 0 && y >= 0
    ensures x * y >= 0
  {
  }

  /** `op(i)` is the outcome of call `i`, and `cancelled(i)` whether the context ends during the wait before it. */
  method WithBackoff(cfg: Config, op: nat -> Option<int>, cancelled: nat -> bool)
    returns (end: Ending, calls: nat, waits: seq<int>)
    ensures cfg.maxRetries < 0 ==> end == Succeeded && calls == 0
    ensures cfg.maxRetries >= 0 ==> 1 <= calls <= cfg.maxRetries + 1
    ensures forall i :: 0 <= i < calls - 1 ==> op(i).Some?
    ensures cfg.maxRetries >= 0 ==>
              match end
              case Succeeded => op(calls - 1).None?
              case OperationError(e) => calls == cfg.maxRetries + 1 && op(calls - 1) == Some(e)
              case ContextError => calls <= cfg.maxRetries && cancelled(calls) && op(calls - 1).Some?
    ensures |waits| == if end == ContextError then calls else if calls == 0 then 0 else calls - 1
    ensures forall i :: 0 < i < calls ==> !cancelled(i)
    ensures Doubles(cfg.initialWait) && Doubles(cfg.maxWait) ==>
              forall k :: 0 <= k < |waits| ==> waits[k] == Wait(cfg.initialWait, cfg.maxWait, k)
    ensures Doubles(cfg.initialWait) && Doubles(cfg.maxWait) && cfg.initialWait <= cfg.maxWait ==>
              forall k :: 0 <= k < |waits| ==> waits[k] == Min(cfg.initialWait * Pow2(k), cfg.maxWait)
  {
    var wait := cfg.initialWait;
    var err: Option<int> := None;
    var attempt := 0;
    calls, waits := 0, [];
    while attempt <= cfg.maxRetries
      invariant 0 <= attempt == calls && (cfg.maxRetries >= 0 ==> attempt <= cfg.maxRetries + 1)
      invariant cfg.maxRetries < 0 ==> attempt == 0
      invariant |waits| == if attempt == 0 then 0 else attempt - 1
      invariant forall i :: 0 <= i < calls ==> op(i).Some?
      invariant forall i :: 0 < i < calls ==> !cancelled(i)
      invariant err == if attempt == 0 then None else op(attempt - 1)
      invariant Doubles(cfg.initialWait) && Doubles(cfg.maxWait) ==> wait == Wait(cfg.initialWait, cfg.maxWait, |waits|)
      invariant Doubles(cfg.initialWait) && Doubles(cfg.maxWait) ==>
                  forall k :: 0 <= k < |waits| ==> waits[k] == Wait(cfg.initialWait, cfg.maxWait, k)
      decreases cfg.maxRetries - attempt
    {
      if attempt > 0 {
        waits := waits + [wait];
        if cancelled(attempt) {
          return ContextError, calls, waits;
        }
        if Doubles(cfg.initialWait) && Doubles(cfg.maxWait) {
          DoublingClosedForm(cfg.initialWait, cfg.maxWait, |waits| - 1);
        }
        wait := Doubled(wait, cfg.maxWait);
      }
      err := op(attempt);
      calls := calls + 1;
      if err.None? {
        return Succeeded, calls, waits;
      }
      attempt := attempt + 1;
    }
    end := if err.Some? then OperationError(err.value) else Succeeded;
  }
}
