/** Saturating doubling: the retry ladder three loops of the exporter share
    (internal/shellycloud/names.go, internal/discovery/shellycloud/shellycloud.go and
    internal/discovery/avahi/avahi.go). Durations are in nanoseconds. */
module Ladders {
  import opened Common

  const SECOND := 1_000_000_000
  const RETRY_INITIAL := 30 * SECOND

  function Doubled(initial: int, n: nat): int {
    if n == 0 then initial else 2 * Doubled(initial, n - 1)
  }

  /** What the loop variable holds after n failures. */
  function Climb(initial: int, cap: int, n: nat): int {
    if n == 0 then initial else Min(2 * Climb(initial, cap, n - 1), cap)
  }

  lemma {:induction false} DoubledSign(initial: int, n: nat)
    ensures initial >= 0 ==> Doubled(initial, n) >= initial
    ensures initial < 0 ==> Doubled(initial, n) <= initial
  {
    if n > 0 { DoubledSign(initial, n - 1); }
  }

  /** The closed form of a wait that is capped itself, whatever the first rung. */
  lemma {:induction false} CappedClimb(initial: int, cap: int, n: nat)
    requires initial > 0 && cap > 0
    ensures Min(Climb(initial, cap, n), cap) == Min(Doubled(initial, n), cap)
  {
    if n > 0 {
      CappedClimb(initial, cap, n - 1);
      DoubledSign(initial, n - 1);
    }
  }

  /** The closed form of a wait that is not: right from the first rung on exactly when the
      first rung does not exceed the cap. */
  lemma ClimbIsCappedDoubling(initial: int, cap: int)
    ensures (forall n: nat :: Climb(initial, cap, n) == Min(Doubled(initial, n), cap)) <==> initial <= cap
  {
    if initial <= cap {
      forall n: nat ensures Climb(initial, cap, n) == Min(Doubled(initial, n), cap) { ClimbFrom(initial, cap, n); }
    } else {
      assert Climb(initial, cap, 0) != Min(Doubled(initial, 0), cap);
    }
  }

  lemma {:induction false} ClimbFrom(initial: int, cap: int, n: nat)
    requires initial <= cap || (n > 0 && cap >= 0)
    ensures Climb(initial, cap, n) == Min(Doubled(initial, n), cap)
  {
    if n > 0 {
      DoubledSign(initial, n - 1);
      if initial <= cap || n > 1 { ClimbFrom(initial, cap, n - 1); }
    }
  }

  /** What the cloud loops wait after the k-th failure in a row; k is zero after a success. */
  function RetryWait(interval: int, k: nat): int {
    if k == 0 then interval else Min(Doubled(RETRY_INITIAL, k - 1), interval)
  }

  /** The ladder never falls while failures go on, and never exceeds the interval. */
  lemma RetryWaitClimbs(interval: int, k: nat)
    requires interval > 0 && k > 0
    ensures 0 < RetryWait(interval, k) <= RetryWait(interval, k + 1) <= interval
  {
    DoubledSign(RETRY_INITIAL, k - 1);
  }

  /** Half a minute after the first failure, twice as long after each further one, and never
      longer than the interval, which is the wait after a success. */
  lemma RetryWaitDoubles(interval: int, k: nat)
    requires interval > 0
    ensures RetryWait(interval, 0) == interval
    ensures RetryWait(interval, 1) == if interval < 30_000_000_000 then interval else 30_000_000_000
    ensures k > 0 ==>
              RetryWait(interval, k + 1) == if 2 * RetryWait(interval, k) < interval then 2 * RetryWait(interval, k) else interval
  {
    if k > 0 { DoubledSign(RETRY_INITIAL, k - 1); }
  }

  /** Failures in a row, up to and including the last of these. */
  function Streak(ok: seq<bool>): nat {
    if ok == [] || ok[|ok| - 1] then 0 else Streak(ok[..|ok| - 1]) + 1
  }

  lemma {:induction false} StreakIsARun(ok: seq<bool>)
    ensures Streak(ok) <= |ok|
    ensures forall i :: |ok| - Streak(ok) <= i < |ok| ==> !ok[i]
    ensures Streak(ok) < |ok| ==> ok[|ok| - Streak(ok) - 1]
  {
    if ok != [] && !ok[|ok| - 1] {
      StreakIsARun(ok[..|ok| - 1]);
    }
  }

  /** The waits after a run of outcomes, one each. */
  function WaitsAfter(interval: int, ok: seq<bool>): (w: seq<int>)
    ensures |w| == |ok|
  {
    if ok == [] then [] else WaitsAfter(interval, ok[..|ok| - 1]) + [RetryWait(interval, Streak(ok))]
  }

  /** After the k-th failure in a row the wait is thirty seconds doubled k - 1 times, or the
      interval if that is shorter; after a success it is the interval. */
  lemma {:induction false} WaitAt(interval: int, ok: seq<bool>, i: nat)
    requires i < |ok|
    ensures WaitsAfter(interval, ok)[i] == RetryWait(interval, Streak(Upto(ok, i)))
  {
    if i == |ok| - 1 {
      assert Upto(ok, i) == ok;
    } else {
      WaitAt(interval, ok[..|ok| - 1], i);
      assert Upto(ok[..|ok| - 1], i) == Upto(ok, i);
    }
  }

  /** One turn of a cloud loop, with its retry variable. */
  lemma LadderTurn(interval: int, before: seq<bool>, ok: bool)
    requires interval > 0
    ensures var retry, k := Climb(RETRY_INITIAL, interval, Streak(before)), Streak(before + [ok]);
            && WaitsAfter(interval, before + [ok]) == WaitsAfter(interval, before) + [if ok then interval else Min(retry, interval)]
            && Climb(RETRY_INITIAL, interval, k) == (if ok then RETRY_INITIAL else Min(retry * 2, interval))
  {
    assert (before + [ok])[..|before|] == before;
    CappedClimb(RETRY_INITIAL, interval, Streak(before));
  }
}
