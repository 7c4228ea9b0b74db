/** Capped exponential backoff (bin/tracker/src/upstream/retry.rs). Durations are counted in
    nanoseconds; the largest one is 2^64 - 1 seconds and 999999999 nanoseconds. */
module Backoff {
  import opened Base

  const NANOS_PER_SEC := 1_000_000_000

  const DURATION_END := TWO_TO_THE_64 * NANOS_PER_SEC

  type Duration = d: int | 0 <= d < DURATION_END

  function CheckedDouble(d: Duration): Option<Duration> {
    if 2 * d < DURATION_END then Some(2 * d) else None
  }

  function Min(a: Duration, b: Duration): Duration {
    if a <= b then a else b
  }

  function Pow2(k: nat): nat {
    if k == 0 then 1 else 2 * Pow2(k - 1)
  }

  /** The schedule a maintainer would write down: the `k`-th delay since the last reset. The
      first one is not capped. */
  ghost function Scheduled(initial: Duration, max: Duration, k: nat): nat {
    if k == 0 then initial
    else if initial * Pow2(k) <= max then initial * Pow2(k)
    else max
  }

  class Backoff {
    var current: Duration
    const initial: Duration
    const max: Duration
    ghost var failures: nat

    /** `failures` delays were handed out since the last reset. */
    ghost predicate Valid()
      reads this
    {
      current == Scheduled(initial, max, failures)
    }

    constructor (initial: Duration, max: Duration)
      ensures Valid() && failures == 0
      ensures this.initial == initial && this.max == max
    {
      this.current, this.initial, this.max := initial, initial, max;
      this.failures := 0;
    }

    method NextDelay() returns (delay: Duration)
      requires Valid()
      modifies this
      ensures Valid() && failures == old(failures) + 1
      ensures delay == Scheduled(initial, max, old(failures))
    {
      delay := current;
      ScheduledStep(initial, max, failures);
      var doubled := CheckedDouble(current);
      current := Min(if doubled.Some? then doubled.value else max, max);
      failures := failures + 1;
    }

    method Reset()
      requires Valid()
      modifies this
      ensures Valid() && failures == 0
    {
      current := initial;
      failures := 0;
    }
  }

  lemma {:induction false} PowMonotone(initial: nat, k: nat)
    ensures initial * Pow2(k + 1) == 2 * (initial * Pow2(k))
    ensures initial * Pow2(k) <= initial * Pow2(k + 1)
    ensures initial <= initial * Pow2(k)
  {
    if k > 0 { PowMonotone(initial, k - 1); }
    assert initial * Pow2(k + 1) == initial * (2 * Pow2(k)) == 2 * (initial * Pow2(k));
  }

  /** Doubling with overflow check and cap advances the schedule by one, also where doubling
      overflows. */
  lemma {:induction false} ScheduledStep(initial: Duration, max: Duration, k: nat)
    ensures 0 <= Scheduled(initial, max, k) < DURATION_END
    ensures var current: Duration := Scheduled(initial, max, k);
      Scheduled(initial, max, k + 1) ==
        Min(match CheckedDouble(current) case Some(d) => d case None => max, max)
  {
    PowMonotone(initial, k);
  }

  /** The closed form: the delay after `k` failures is `min(initial * 2^k, max)`, for every
      `k`, exactly when the initial delay is within the cap. */
  lemma {:induction false} ClosedForm(initial: Duration, max: Duration)
    ensures initial <= max <==>
      forall k: nat :: Scheduled(initial, max, k) == if initial * Pow2(k) <= max then initial * Pow2(k) else max
  {
    assert initial * Pow2(0) == initial;
    assert initial > max ==> Scheduled(initial, max, 0) != max;
  }

  // ----- runs

  datatype Op = Fail | Healthy

  /** How many failures there were since the last reset. */
  function Since(ops: seq<Op>): nat {
    if ops == [] || ops[|ops| - 1].Healthy? then 0 else 1 + Since(ops[..|ops| - 1])
  }

  /** Any run of failures and resets: the delay at each failure is the scheduled one for the
      number of failures since the last reset. */
  method RunOps(ops: seq<Op>, initial: Duration, max: Duration) returns (delays: seq<Option<Duration>>)
    ensures |delays| == |ops|
    ensures forall i | 0 <= i < |ops| ::
      delays[i] == if ops[i].Fail? then Some(Scheduled(initial, max, Since(ops[..i]))) else None
  {
    var b := new Backoff(initial, max);
    delays := [];
    for i := 0 to |ops|
      invariant b.Valid() && b.initial == initial && b.max == max && b.failures == Since(ops[..i])
      invariant fresh(b)
      invariant |delays| == i
      invariant forall j | 0 <= j < i ::
        delays[j] == if ops[j].Fail? then Some(Scheduled(initial, max, Since(ops[..j]))) else None
    {
      assert ops[..i + 1][..i] == ops[..i];
      match ops[i]
      case Fail =>
        var d := b.NextDelay();
        delays := delays + [Some(d)];
      case Healthy =>
        b.Reset();
        delays := delays + [None];
    }
  }
}
