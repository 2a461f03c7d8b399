/** The retry loop of internal/retry: how often the operation runs, when it stops, how long it
    waits. Time is in milliseconds. */
module Retry {
  import opened Powers

  /** What one execution of the operation returned. */
  datatype Outcome<E> = Succeeded | Failed(error: E) | Unrecoverable(error: E)

  datatype Config = Config(attempts: int, delay: int, maxDelay: int, backOff: bool, lastErrorOnly: bool)

  /** How Do ended: the operation succeeded, its error was handed on as it is or with the number of
      attempts, or the context ended. */
  datatype Ending<E> = Ok | Error(error: E) | Wrapped(attempts: nat, error: E) | Cancelled

  function Limit(c: Config): nat {
    if c.attempts <= 0 then 1 else c.attempts
  }

  /** The wait before attempt k + 1 (k = 1, 2, ...). */
  function DelayAfter(c: Config, k: nat): int {
    if k <= 1 then c.delay
    else var d := DelayAfter(c, k - 1);
      if c.backOff && d > 0 then (if c.maxDelay > 0 && 2 * d > c.maxDelay then c.maxDelay else 2 * d)
      else if !c.backOff && c.maxDelay > 0 && d > c.maxDelay then c.maxDelay
      else d
  }

  /** With back-off the waits double up to the cap. The first wait is not capped: a delay above
      the cap is used once as it is. */
  lemma {:induction false} BackOffDoublesUpToCap(c: Config, k: nat)
    requires c.backOff && c.delay > 0 && c.maxDelay > 0 && k >= 1
    ensures k >= 2 ==>
      DelayAfter(c, k) == (if c.delay * Pow2(k - 1) <= c.maxDelay then c.delay * Pow2(k - 1) else c.maxDelay)
    ensures k == 1 ==> DelayAfter(c, k) == c.delay
  {
    if k >= 2 {
      assert Pow2(k - 1) == 2 * Pow2(k - 2);
      assert c.delay * Pow2(k - 1) == 2 * (c.delay * Pow2(k - 2));
      if k >= 3 {
        BackOffDoublesUpToCap(c, k - 1);
      }
    }
  }

  /** Without back-off all waits after the first are the delay or the cap, whichever is less; a cap that is
      not positive is none. */
  lemma {:induction false} FixedDelay(c: Config, k: nat)
    requires !c.backOff && k >= 1
    ensures DelayAfter(c, k) == if k == 1 || c.maxDelay <= 0 || c.delay <= c.maxDelay then c.delay else c.maxDelay
  {
    if k >= 2 {
      FixedDelay(c, k - 1);
    }
  }

  /** With back-off and no cap they double without end; a delay that is not positive stays as it is. */
  lemma {:induction false} UncappedBackOff(c: Config, k: nat)
    requires c.backOff && k >= 1 && (c.delay <= 0 || c.maxDelay <= 0)
    ensures DelayAfter(c, k) == if c.delay <= 0 then c.delay else c.delay * Pow2(k - 1)
  {
    if k >= 2 {
      UncappedBackOff(c, k - 1);
      assert c.delay * Pow2(k - 1) == 2 * (c.delay * Pow2(k - 2));
      assert c.delay > 0 ==> c.delay * Pow2(k - 2) > 0;
    }
  }

  /** Do: op(k) is what the k-th execution returns, retryIf the caller's filter of errors, ctxDone(k)
      whether the context has ended before execution k, sleepCut(k, d) whether it ends during the
      wait of d after it. */
  method Do<E>(c: Config, op: nat -> Outcome<E>, retryIf: E -> bool, ctxDone: nat -> bool,
               sleepCut: (nat, int) -> bool)
    returns (r: Ending<E>, runs: nat, delays: seq<int>)
    ensures runs <= Limit(c) && |delays| == if r.Cancelled? then runs else runs - 1
    ensures forall k :: 1 <= k < runs ==> !ctxDone(k) && op(k).Failed? && retryIf(op(k).error)
    ensures forall i :: 0 <= i < runs - 1 ==> !(delays[i] > 0 && sleepCut(i + 1, delays[i]))
    ensures forall i :: 0 <= i < |delays| ==> delays[i] == DelayAfter(c, i + 1)
    ensures r.Ok? <==> runs >= 1 && !ctxDone(runs) && op(runs).Succeeded?
    ensures r.Error? || r.Wrapped? ==>
      && runs >= 1 && !ctxDone(runs)
      && (|| (op(runs).Unrecoverable? && r == Error(op(runs).error))
          || (op(runs).Failed? && (runs == Limit(c) || !retryIf(op(runs).error)) &&
              r == if c.lastErrorOnly then Error(op(runs).error) else Wrapped(Limit(c), op(runs).error)))
    ensures r.Cancelled? ==> runs < Limit(c)
    ensures r.Cancelled? && runs >= 1 ==> !ctxDone(runs) && op(runs).Failed? && retryIf(op(runs).error)
    ensures r.Cancelled? ==>
      (runs >= 1 && delays[runs - 1] > 0 && sleepCut(runs, delays[runs - 1])) || ctxDone(runs + 1)
  {
    runs, delays := 0, [];
    var delay := c.delay;
    var limit := Limit(c);
    while true
      invariant runs == |delays| < limit
      invariant delay == DelayAfter(c, runs + 1)
      invariant forall k :: 1 <= k <= runs ==> !ctxDone(k) && op(k).Failed? && retryIf(op(k).error)
      invariant forall i :: 0 <= i < runs ==> !(delays[i] > 0 && sleepCut(i + 1, delays[i]))
      invariant forall i :: 0 <= i < |delays| ==> delays[i] == DelayAfter(c, i + 1)
      decreases limit - runs
    {
      if ctxDone(runs + 1) {
        return Cancelled, runs, delays;
      }
      runs := runs + 1;
      match op(runs) {
        case Succeeded => return Ok, runs, delays;
        case Unrecoverable(e) => return Error(e), runs, delays;
        case Failed(e) =>
          if !retryIf(e) || runs == limit {
            return if c.lastErrorOnly then Error(e) else Wrapped(limit, e), runs, delays;
          }
      }
      delays := delays + [delay];
      if delay > 0 && sleepCut(runs, delay) {
        return Cancelled, runs, delays;
      }
      if c.backOff && delay > 0 {
        delay := delay * 2;
        if c.maxDelay > 0 && delay > c.maxDelay {
          delay := c.maxDelay;
        }
      }
      if !c.backOff && c.maxDelay > 0 && delay > c.maxDelay {
        delay := c.maxDelay;
      }
    }
  }

  /** Attempts(uint(c.retries) + 1), read back as a signed 64-bit number, then clamped by Do. */
  function AttemptsFor(retries: int): (n: nat)
    requires -0x8000_0000_0000_0000 <= retries < 0x8000_0000_0000_0000
  {
    var unsigned := (retries % 0x1_0000_0000_0000_0000 + 1) % 0x1_0000_0000_0000_0000;
    var signed := if unsigned < 0x8000_0000_0000_0000 then unsigned else unsigned - 0x1_0000_0000_0000_0000;
    Limit(Config(signed, 0, 0, true, true))
  }

  /** A negative retry count means one attempt; only the largest count wraps around to one too. */
  lemma AttemptsForRetries(retries: int)
    requires -0x8000_0000_0000_0000 <= retries < 0x8000_0000_0000_0000
    ensures AttemptsFor(retries) == if retries < 0 || retries == 0x7fff_ffff_ffff_ffff then 1 else retries + 1
  {
  }
}
