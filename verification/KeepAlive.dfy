/**
 How a supervisor restarts one ghost: the loop with its backoff and its count of failures, and
 the arithmetic of the sleeps between two healthy runs.
 */
module KeepAlive {
  // Durations are in nanoseconds.
  const MILLISECOND := 1_000_000
  const SECOND := 1_000_000_000
  const MIN_BACKOFF := 200_000_000
  const MAX_BACKOFF := 30_000_000_000
  const HEALTHY_RUN := 30_000_000_000
  const MAX_FAILURES := 8

  datatype Cancelled = Never | DuringRun | DuringSleep

  /** One run of the ghost: how long it lived, and whether the supervisor was told to stop in it
      or in the sleep that follows. */
  datatype Run = Run(lived: int, cancelled: Cancelled) {
    predicate Healthy() { lived >= HEALTHY_RUN }
  }

  datatype End = Cancelled | GaveUp | StillWanted

  function Pow2(n: nat): nat { if n == 0 then 1 else 2 * Pow2(n - 1) }

  /** How many short runs end the first `n`. */
  function Short(runs: seq<Run>, n: nat): nat
    requires n <= |runs|
  {
    if n == 0 || runs[n - 1].Healthy() then 0 else 1 + Short(runs, n - 1)
  }

  /** How many runs the stretch at the end of the first `n` has: from the last healthy run, or
      from the beginning. */
  function Stretch(runs: seq<Run>, n: nat): nat
    requires n <= |runs|
  {
    if n == 0 then 0 else if runs[n - 1].Healthy() then 1 else 1 + Stretch(runs, n - 1)
  }

  /** The k-th sleep of a stretch. */
  function Sleep(k: nat): nat
    requires k > 0
  {
    MIN_BACKOFF * Pow2(k - 1)
  }

  lemma {:induction false} StretchIsShort(runs: seq<Run>, n: nat)
    requires n <= |runs|
    ensures Short(runs, n) <= Stretch(runs, n) <= Short(runs, n) + 1
  {
    if n > 0 && !runs[n - 1].Healthy() { StretchIsShort(runs, n - 1); }
  }

  lemma {:induction false} Pow2Monotone(m: nat, n: nat)
    requires m <= n
    ensures Pow2(m) <= Pow2(n)
    decreases n
  {
    if m < n { Pow2Monotone(m, n - 1); }
  }

  lemma SleepBound(k: nat)
    requires 0 < k <= 8
    ensures Sleep(k) <= 25_600 * MILLISECOND < MAX_BACKOFF
  {
    Pow2Monotone(k - 1, 7);
    assert Pow2(7) == 2 * (2 * Pow2(5)) && Pow2(5) == 2 * (2 * Pow2(3)) && Pow2(3) == 8;
  }

  /** The backoff after the k-th sleep of a stretch. */
  function NextBackoff(k: nat): nat
  {
    if k <= 7 then MIN_BACKOFF * Pow2(k) else MAX_BACKOFF
  }

  lemma Doubling(k: nat)
    requires 0 < k <= 8
    ensures Sleep(k) < MAX_BACKOFF
    ensures NextBackoff(k) == if 2 * Sleep(k) > MAX_BACKOFF then MAX_BACKOFF else 2 * Sleep(k)
  {
    SleepBound(k);
    if k < 8 {
      SleepBound(k + 1);
      assert Pow2(k) == 2 * Pow2(k - 1);
    } else {
      assert Pow2(7) == 2 * (2 * Pow2(5)) && Pow2(5) == 2 * (2 * Pow2(3)) && Pow2(3) == 8;
    }
  }

  /** Sleep `j` follows run `j`, and fewer than eight short runs ended there. */
  predicate SleptAfter(runs: seq<Run>, j: nat, sleep: nat)
    requires j < |runs|
  {
    0 < Stretch(runs, j + 1) <= 8 && sleep == Sleep(Stretch(runs, j + 1)) && Short(runs, j + 1) < MAX_FAILURES
  }

  predicate SleepsAre(runs: seq<Run>, sleeps: seq<nat>) {
    |sleeps| <= |runs| && forall j :: 0 <= j < |sleeps| ==> SleptAfter(runs, j, sleeps[j])
  }

  /** The restart loop over the runs that happen while the ghost is wanted; `sleeps` are the sleeps
      it completed, one after each run it did not stop at. */
  method RestartLoop(runs: seq<Run>) returns (sleeps: seq<nat>, done: nat, end: End)
    ensures done <= |runs| && |sleeps| == (if end.StillWanted? then done else done - 1)
    ensures SleepsAre(runs, sleeps)
    ensures forall j :: 0 <= j <= done ==> Short(runs, j) <= MAX_FAILURES
    ensures forall j :: 0 <= j < |sleeps| ==> sleeps[j] <= 25_600 * MILLISECOND && runs[j].cancelled.Never?
    ensures end.GaveUp? <==> done > 0 && Short(runs, done) == MAX_FAILURES && !runs[done - 1].cancelled.DuringRun?
    ensures end.Cancelled? ==> done > 0 && !runs[done - 1].cancelled.Never?
    ensures end.StillWanted? ==> done == |runs|
  {
    var backoff := MIN_BACKOFF;
    var failures := 0;
    sleeps := [];
    done := 0;
    while done < |runs|
      invariant done <= |runs| && |sleeps| == done
      invariant failures == Short(runs, done) < MAX_FAILURES
      invariant backoff == NextBackoff(Stretch(runs, done)) && Stretch(runs, done) <= 8
      invariant SleepsAre(runs, sleeps)
      invariant forall j :: 0 <= j <= done ==> Short(runs, j) < MAX_FAILURES
      invariant forall j :: 0 <= j < done ==> sleeps[j] <= 25_600 * MILLISECOND && runs[j].cancelled.Never?
    {
      var r := runs[done];
      StretchIsShort(runs, done);
      done := done + 1;
      if r.cancelled.DuringRun? {
        return sleeps, done, End.Cancelled;
      }
      if r.lived >= HEALTHY_RUN {
        failures := 0;
        backoff := MIN_BACKOFF;
      } else {
        failures := failures + 1;
      }
      if failures >= MAX_FAILURES {
        return sleeps, done, GaveUp;
      }
      StretchIsShort(runs, done);
      var k := Stretch(runs, done);
      assert backoff == Sleep(k);
      SleepBound(k);
      if r.cancelled.DuringSleep? {
        return sleeps, done, End.Cancelled;
      }
      assert SleptAfter(runs, done - 1, backoff);
      sleeps := sleeps + [backoff];
      Doubling(k);
      if backoff < MAX_BACKOFF {
        backoff := backoff * 2;
        if backoff > MAX_BACKOFF {
          backoff := MAX_BACKOFF;
        }
      }
    }
    return sleeps, done, StillWanted;
  }

  function Sum(xs: seq<nat>): nat { if xs == [] then 0 else Sum(xs[..|xs| - 1]) + xs[|xs| - 1] }

  /** The runs from `lo` on are one stretch: none after the first is healthy. */
  predicate OneStretch(runs: seq<Run>, lo: nat, hi: nat)
    requires hi <= |runs|
  {
    && lo <= hi
    && (lo == 0 || (lo < hi ==> runs[lo].Healthy()))
    && forall j :: lo < j < hi ==> !runs[j].Healthy()
  }

  lemma {:induction false} StretchWithin(runs: seq<Run>, lo: nat, hi: nat)
    requires lo < hi <= |runs| && OneStretch(runs, lo, hi)
    ensures Stretch(runs, hi) == hi - lo
  {
    if lo + 1 < hi { StretchWithin(runs, lo, hi - 1); }
  }

  /** The sleeps of one stretch sum to a geometric series. */
  lemma {:induction false} StretchSum(runs: seq<Run>, sleeps: seq<nat>, lo: nat, hi: nat)
    requires SleepsAre(runs, sleeps) && lo <= hi <= |sleeps| && OneStretch(runs, lo, hi)
    ensures Sum(sleeps[lo..hi]) == MIN_BACKOFF * (Pow2(hi - lo) - 1)
    decreases hi
  {
    if lo < hi {
      StretchSum(runs, sleeps, lo, hi - 1);
      StretchWithin(runs, lo, hi);
      assert SleptAfter(runs, hi - 1, sleeps[hi - 1]);
      var part := sleeps[lo..hi];
      assert part[..|part| - 1] == sleeps[lo..hi - 1];
      assert part[|part| - 1] == sleeps[hi - 1];
    }
  }

  /** One stretch has at most eight sleeps, each of them is twice the one before, from 200 ms on, and
      together they are at most 51 s. */
  lemma StretchTotal(runs: seq<Run>, sleeps: seq<nat>, lo: nat, hi: nat)
    requires SleepsAre(runs, sleeps) && lo <= hi <= |sleeps| && OneStretch(runs, lo, hi)
    ensures hi - lo <= 8
    ensures forall j: nat :: j < hi - lo ==> sleeps[lo + j] == 200_000_000 * Pow2(j)
    ensures Sum(sleeps[lo..hi]) <= 51 * SECOND
  {
    forall j: nat | j < hi - lo ensures sleeps[lo + j] == 200_000_000 * Pow2(j) {
      StretchWithin(runs, lo, lo + j + 1);
      assert SleptAfter(runs, lo + j, sleeps[lo + j]);
    }
    StretchSum(runs, sleeps, lo, hi);
    if lo < hi {
      StretchWithin(runs, lo, hi);
      assert SleptAfter(runs, hi - 1, sleeps[hi - 1]);
    }
    Pow2Monotone(hi - lo, 8);
    Pow2Eight();
  }

  lemma Pow2Eight()
    ensures Pow2(8) == 256
  {
    assert Pow2(8) == 4 * Pow2(6) && Pow2(6) == 4 * Pow2(4) && Pow2(4) == 16;
  }
}
