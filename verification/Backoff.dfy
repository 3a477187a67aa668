/** The reconnect loop of `ServeRemote`: sleeps in nanoseconds, in the 64-bit arithmetic of `time.Duration`. */
module Backoff {
  const SECOND: int := 1_000_000_000
  const TWO_62: int := 0x4000_0000_0000_0000
  const TWO_63: int := 0x8000_0000_0000_0000
  const TWO_64: int := 0x1_0000_0000_0000_0000

  type Duration = d: int | -TWO_63 <= d < TWO_63

  /** Go's `delay * 2` on a signed 64-bit value: wraps around by 2^64 when it leaves the range. */
  function Double(d: Duration): Duration {
    if 2 * d >= TWO_63 then 2 * d - TWO_64
    else if 2 * d < -TWO_63 then 2 * d + TWO_64
    else 2 * d
  }

  function Initial(initialDelay: Duration): Duration {
    if initialDelay <= 0 then SECOND else initialDelay
  }

  function Cap(maxDelay: Duration): Duration {
    if maxDelay <= 0 then 30 * SECOND else maxDelay
  }

  function Pow2(n: nat): (p: nat)
    ensures p > 0
  {
    if n == 0 then 1 else 2 * Pow2(n - 1)
  }

  /** Iterations since the last established connection, or since the start. */
  function Since(connected: seq<bool>, i: nat): nat
    requires i < |connected|
  {
    if i == 0 || connected[i] then 0 else Since(connected, i - 1) + 1
  }

  /** The delay after `n` doublings, exactly as the machine computes it. */
  function Delay(initial: Duration, cap: Duration, n: nat): Duration {
    if n == 0 then initial
    else
      var d := Double(Delay(initial, cap, n - 1));
      if d > cap then cap else d
  }

  /** What the loop sleeps after attempt `i`. */
  function SleepAfter(initial: Duration, cap: Duration, connected: seq<bool>, i: nat): Duration
    requires i < |connected|
  {
    Delay(initial, cap, Since(connected, i))
  }

  /** Reset to the first delay by a connection, otherwise doubled from the sleep before and capped. */
  ghost predicate Schedule(first: Duration, cap: Duration, connected: seq<bool>, sleeps: seq<Duration>) {
    && |sleeps| == |connected|
    && (forall i :: 0 <= i < |sleeps| && (i == 0 || connected[i]) ==> sleeps[i] == first)
    && (forall i :: 0 < i < |sleeps| && !connected[i] ==> sleeps[i] == Min(Double(sleeps[i - 1]), cap))
  }

  /** The loop for a given history of connection attempts; the source loops forever. */
  method Reconnect(initialDelay: Duration, maxDelay: Duration, connected: seq<bool>) returns (sleeps: seq<Duration>)
    ensures |sleeps| == |connected|
    ensures forall i :: 0 <= i < |sleeps| ==>
      sleeps[i] == SleepAfter(Initial(initialDelay), Cap(maxDelay), connected, i)
    ensures Schedule(if initialDelay > 0 then initialDelay else 1_000_000_000,
                     if maxDelay > 0 then maxDelay else 30_000_000_000, connected, sleeps)
  {
    var initial := initialDelay;
    if initial <= 0 {
      initial := SECOND;
    }
    var cap := maxDelay;
    if cap <= 0 {
      cap := 30 * SECOND;
    }
    sleeps := ReconnectLoop(initial, cap, connected);
  }

  method ReconnectLoop(initial: Duration, cap: Duration, connected: seq<bool>) returns (sleeps: seq<Duration>)
    ensures |sleeps| == |connected|
    ensures forall i :: 0 <= i < |sleeps| ==> sleeps[i] == SleepAfter(initial, cap, connected, i)
    ensures Schedule(initial, cap, connected, sleeps)
  {
    var delay := initial;
    sleeps := [];
    ghost var since := 0;
    for i := 0 to |connected|
      invariant |sleeps| == i
      invariant forall j :: 0 <= j < i ==> sleeps[j] == SleepAfter(initial, cap, connected, j)
      invariant since == if i == 0 then 0 else Since(connected, i - 1) + 1
      invariant delay == Delay(initial, cap, since)
    {
      if connected[i] {
        delay, since := initial, 0;
      }
      sleeps := sleeps + [delay];
      delay := Double(delay);
      if delay > cap {
        delay := cap;
      }
      since := since + 1;
    }
  }

  function Min(a: int, b: int): int {
    if a <= b then a else b
  }

  /** `initial` doubled `n` times without overflow. */
  function Doubled(initial: int, n: nat): (d: int)
    ensures initial > 0 ==> d >= initial
  {
    if n == 0 then initial else 2 * Doubled(initial, n - 1)
  }

  lemma {:induction false} DoubledIsPower(initial: int, n: nat)
    ensures Doubled(initial, n) == initial * Pow2(n)
  {
    if n > 0 {
      DoubledIsPower(initial, n - 1);
      assert initial * Pow2(n) == 2 * (initial * Pow2(n - 1));
    }
  }

  lemma {:induction false} DelayIsDoubled(initial: Duration, cap: Duration, n: nat)
    requires 0 < initial <= cap < TWO_62
    ensures Delay(initial, cap, n) == Min(Doubled(initial, n), cap)
  {
    if n > 0 {
      DelayIsDoubled(initial, cap, n - 1);
    }
  }

  /** With a cap of 2^62 or more some doubling turns the delay negative. */
  lemma {:induction false} Overflows(initial: Duration, cap: Duration, n: nat) returns (k: nat)
    requires 0 < initial <= cap && TWO_62 <= cap
    requires Delay(initial, cap, n) == Min(Doubled(initial, n), cap)
    ensures Delay(initial, cap, k) < 0
    decreases TWO_62 - Doubled(initial, n)
  {
    if Doubled(initial, n) < TWO_62 {
      k := Overflows(initial, cap, n + 1);
    } else {
      k := n + 1;
    }
  }

  /** Sleep n follows min(initial * 2^n, cap). */
  ghost predicate FollowsClosedForm(initial: Duration, cap: Duration, n: nat) {
    Delay(initial, cap, n) == Min(initial * Pow2(n), cap)
  }

  /** Exactly when every sleep follows the closed form: the cap covers the first delay and is below 2^62 ns. */
  lemma ClosedFormIff(initial: Duration, cap: Duration)
    requires 0 < initial && 0 < cap
    ensures (forall n: nat :: FollowsClosedForm(initial, cap, n)) <==> initial <= cap < TWO_62
  {
    if initial <= cap < TWO_62 {
      forall n: nat ensures FollowsClosedForm(initial, cap, n) {
        DelayIsDoubled(initial, cap, n);
        DoubledIsPower(initial, n);
      }
    } else if initial > cap {
      assert !FollowsClosedForm(initial, cap, 0);
    } else {
      var k := Overflows(initial, cap, 0);
      DoubledIsPower(initial, k);
      assert !FollowsClosedForm(initial, cap, k);
    }
  }

  lemma {:induction false} DelayPositive(initial: Duration, cap: Duration, n: nat)
    requires 0 < initial < TWO_62 && 0 < cap < TWO_62
    ensures 0 < Delay(initial, cap, n) < TWO_62
  {
    if n > 0 {
      DelayPositive(initial, cap, n - 1);
    }
  }

  /**
   Exactly when the loop always sleeps: both delays are below 2^62 ns. A larger first delay wraps at its first doubling,
   whatever the cap; a larger cap lets the delay grow until it wraps.
   */
  lemma DelaysPositiveIff(initial: Duration, cap: Duration)
    requires 0 < initial && 0 < cap
    ensures (forall n: nat :: Delay(initial, cap, n) > 0) <==> initial < TWO_62 && cap < TWO_62
    ensures initial >= TWO_62 ==> Delay(initial, cap, 1) < 0
  {
    if initial < TWO_62 && cap < TWO_62 {
      forall n: nat ensures Delay(initial, cap, n) > 0 {
        DelayPositive(initial, cap, n);
      }
    } else if initial >= TWO_62 {
      assert Delay(initial, cap, 0) == initial;
      assert Delay(initial, cap, 1) < 0;
    } else {
      var k := Overflows(initial, cap, 0);
    }
  }

  /** With `initial <= cap < 2^62` no sleep leaves [initial, cap], and sleeps never shrink between connections. */
  lemma SleepsBounded(initial: Duration, cap: Duration, n: nat)
    requires 0 < initial <= cap < TWO_62
    ensures initial <= Delay(initial, cap, n) <= Delay(initial, cap, n + 1) <= cap
  {
    DelayIsDoubled(initial, cap, n);
    DelayIsDoubled(initial, cap, n + 1);
  }

  /**
   Whole schedules in closed form: k failed attempts after the start or after a connection, the loop sleeps
   min(first * 2^k, cap).
   */
  lemma {:induction false} ScheduleClosedForm(first: Duration, cap: Duration, connected: seq<bool>,
                                              sleeps: seq<Duration>, j: nat, k: nat)
    requires Schedule(first, cap, connected, sleeps) && 0 < first <= cap < TWO_62
    requires j + k < |connected| && (j == 0 || connected[j])
    requires forall x :: j < x <= j + k ==> !connected[x]
    ensures sleeps[j + k] == Min(first * Pow2(k), cap)
  {
    if k > 0 {
      ScheduleClosedForm(first, cap, connected, sleeps, j, k - 1);
      assert sleeps[j + k - 1] == Min(first * Pow2(k - 1), cap);
      assert first * Pow2(k) == 2 * (first * Pow2(k - 1));
    }
  }

  /** `Since` counts back to the start or to the last connection, and no further. */
  lemma {:induction false} SinceIs(connected: seq<bool>, i: nat)
    requires i < |connected|
    ensures Since(connected, i) <= i
    ensures var j := i - Since(connected, i); j == 0 || connected[j]
    ensures forall x :: i - Since(connected, i) < x <= i ==> !connected[x]
  {
    if i > 0 && !connected[i] {
      SinceIs(connected, i - 1);
    }
  }

  /** Unconfigured, or configured within the limits: whole histories of the loop, in closed form. */
  lemma HistoryClosedForm(initialDelay: Duration, maxDelay: Duration, connected: seq<bool>, i: nat)
    requires i < |connected| && Initial(initialDelay) <= Cap(maxDelay) < TWO_62
    ensures SleepAfter(Initial(initialDelay), Cap(maxDelay), connected, i)
      == Min(Initial(initialDelay) * Pow2(Since(connected, i)), Cap(maxDelay))
  {
    ClosedFormIff(Initial(initialDelay), Cap(maxDelay));
    assert FollowsClosedForm(Initial(initialDelay), Cap(maxDelay), Since(connected, i));
  }

  /** An adapter that configures neither delay backs off 1s, 2s, 4s and so on, capped at 30s. */
  lemma DefaultBackoff(initialDelay: Duration, maxDelay: Duration, connected: seq<bool>, i: nat)
    requires i < |connected| && initialDelay <= 0 && maxDelay <= 0
    ensures SleepAfter(Initial(initialDelay), Cap(maxDelay), connected, i)
      == Min(1_000_000_000 * Pow2(Since(connected, i)), 30_000_000_000)
  {
    HistoryClosedForm(initialDelay, maxDelay, connected, i);
  }

  /** A sleep is longer than the cap exactly at the start or after a connection, when the first delay is. */
  lemma ExceedsCapIff(initial: Duration, cap: Duration, connected: seq<bool>, i: nat)
    requires i < |connected|
    ensures SleepAfter(initial, cap, connected, i) > cap <==> (i == 0 || connected[i]) && initial > cap
  {
  }
}
