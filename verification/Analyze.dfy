/** The figures start_analyzing_ccc computes from the per-zone counters of an analysis run. */
module Analyze {
  import opened Paging

  // ---------- dead zones ----------

  /** Zone i was attempted and never read. */
  predicate Dead(attempts: seq<int>, good: seq<int>, i: nat)
    requires i < |attempts| == |good|
  {
    attempts[i] > 0 && good[i] == 0
  }

  /** Zones lo up to hi are all dead. */
  predicate DeadBlock(attempts: seq<int>, good: seq<int>, lo: nat, hi: nat)
    requires |attempts| == |good| && lo <= hi <= |attempts|
  {
    forall k :: lo <= k < hi ==> Dead(attempts, good, k)
  }

  /**
   The run-length scan: highest is the length of the longest contiguous block of dead
   zones, consecutive that of the block touching the last zone, and highestTime the longest
   read time of any dead zone, or 0.
   */
  method ScanDeadZones(attempts: seq<int>, good: seq<int>, high: seq<int>)
    returns (consecutive: nat, highest: nat, highestTime: int)
    requires |attempts| == |good| == |high|
    ensures consecutive <= |attempts| && DeadBlock(attempts, good, |attempts| - consecutive, |attempts|)
    ensures consecutive < |attempts| ==> !Dead(attempts, good, |attempts| - consecutive - 1)
    ensures forall lo, hi :: 0 <= lo <= hi <= |attempts| && DeadBlock(attempts, good, lo, hi) ==> hi - lo <= highest
    ensures exists lo, hi :: 0 <= lo <= hi <= |attempts| && DeadBlock(attempts, good, lo, hi) && hi - lo == highest
    ensures highestTime >= 0
    ensures forall k :: 0 <= k < |attempts| && Dead(attempts, good, k) ==> high[k] <= highestTime
    ensures highestTime == 0 || exists k :: 0 <= k < |attempts| && Dead(attempts, good, k) && high[k] == highestTime
  {
    consecutive, highest, highestTime := 0, 0, 0;
    ghost var best := 0;
    assert DeadBlock(attempts, good, 0, 0);
    var i := 0;
    while i < |attempts|
      invariant i <= |attempts| && consecutive <= i
      invariant DeadBlock(attempts, good, i - consecutive, i)
      invariant consecutive < i ==> !Dead(attempts, good, i - consecutive - 1)
      invariant forall lo, hi :: 0 <= lo <= hi <= i && DeadBlock(attempts, good, lo, hi) ==> hi - lo <= highest
      invariant 0 <= best <= best + highest <= i && DeadBlock(attempts, good, best, best + highest)
      invariant highestTime >= 0
      invariant forall k :: 0 <= k < i && Dead(attempts, good, k) ==> high[k] <= highestTime
      invariant highestTime == 0 || exists k :: 0 <= k < i && Dead(attempts, good, k) && high[k] == highestTime
    {
      ghost var before := consecutive;
      if attempts[i] > 0 && good[i] == 0 {
        assert Dead(attempts, good, i);
        consecutive := consecutive + 1;
        if highest < consecutive {
          highest := consecutive;
          best := i + 1 - consecutive;
        }
        if highestTime < high[i] {
          highestTime := high[i];
        }
      } else {
        consecutive := 0;
      }
      forall lo, hi | 0 <= lo <= hi <= i + 1 && DeadBlock(attempts, good, lo, hi)
        ensures hi - lo <= highest
      {
        assert before < i ==> !Dead(attempts, good, i - before - 1);
        assert lo < hi == i + 1 ==> Dead(attempts, good, i);
        if lo == hi {
          assert DeadBlock(attempts, good, 0, 0);
        } else if hi <= i {
          assert DeadBlock(attempts, good, lo, hi);
        }
      }
      i := i + 1;
    }
  }

  // ---------- averages ----------

  function Sum(s: seq<int>): int {
    if s == [] then 0 else Sum(s[..|s| - 1]) + s[|s| - 1]
  }

  lemma {:induction false} SumBetween(s: seq<int>, low: int, high: int)
    requires forall k :: 0 <= k < |s| ==> low <= s[k] <= high
    ensures low * |s| <= Sum(s) <= high * |s|
  {
    if s != [] {
      var n := |s| - 1;
      SumBetween(s[..n], low, high);
      assert low * |s| == low * n + low && high * |s| == high * n + high;
    }
  }

  /** A quotient lies between the bounds its dividend's multiples have. */
  lemma QuotientBetween(total: int, count: int, low: int, high: int)
    requires count > 0
    requires low * count <= total <= high * count
    ensures low <= total / count <= high
  {
    var q := total / count;
    assert total == count * q + total % count;
    assert count * (q - low) == count * q - low * count;
    assert count * (q - high) == count * q - high * count;
    MulSign(count, q - low);
    MulSign(count, q - high);
  }

  /** Whole-zone times that are consistent with the times of the single reads. */
  ghost predicate Consistent(attempts: seq<nat>, time: seq<nat>, low: seq<nat>, high: seq<nat>) {
    && |attempts| == |time| == |low| == |high|
    && forall i :: 0 <= i < |attempts| && attempts[i] > 0 ==> attempts[i] * low[i] <= time[i] <= attempts[i] * high[i]
  }

  /**
   The zone table's totals, through two integer divisions. The reported average never
   exceeds the reported high, and when every zone was attempted it is never below the
   reported low; low and high are the extremes over the zones.
   */
  method ZoneTotals(attempts: seq<nat>, time: seq<nat>, low: seq<nat>, high: seq<nat>)
    returns (average: seq<int>, totalAverage: int, totalLow: int, totalHigh: int)
    requires 0 < |attempts| && Consistent(attempts, time, low, high)
    ensures |average| == |attempts|
    ensures forall i :: 0 <= i < |attempts| && attempts[i] > 0 ==> low[i] <= average[i] <= high[i]
    ensures forall i :: 0 <= i < |attempts| ==> average[i] == if attempts[i] > 0 then time[i] / attempts[i] else 0
    ensures totalAverage == Sum(average) / |average|
    ensures (forall i :: 0 <= i < |low| ==> totalLow <= low[i]) && totalLow in low
    ensures (forall i :: 0 <= i < |high| ==> high[i] <= totalHigh) && totalHigh in high
    ensures 0 <= totalAverage <= totalHigh
    ensures (forall i :: 0 <= i < |attempts| ==> attempts[i] > 0) ==> totalLow <= totalAverage
  {
    average := [];
    for i := 0 to |attempts|
      invariant |average| == i
      invariant forall k :: 0 <= k < i && attempts[k] > 0 ==> low[k] <= average[k] <= high[k]
      invariant forall k :: 0 <= k < i ==> average[k] == if attempts[k] > 0 then time[k] / attempts[k] else 0
    {
      if attempts[i] != 0 {
        assert low[i] * attempts[i] <= time[i] <= high[i] * attempts[i];
        QuotientBetween(time[i], attempts[i], low[i], high[i]);
        average := average + [time[i] / attempts[i]];
      } else {
        average := average + [0];
      }
    }
    totalAverage := 0;
    for i := 0 to |average|
      invariant totalAverage == Sum(average[..i])
    {
      assert average[..i + 1][..i] == average[..i];
      totalAverage := totalAverage + average[i];
    }
    assert average[..|average|] == average;
    totalAverage := totalAverage / |average|;
    totalLow := low[0];
    for i := 0 to |low|
      invariant totalLow in low && forall k :: 0 <= k < i ==> totalLow <= low[k]
    {
      if low[i] < totalLow {
        totalLow := low[i];
      }
    }
    totalHigh := high[0];
    for i := 0 to |high|
      invariant totalHigh in high && forall k :: 0 <= k < i ==> high[k] <= totalHigh
    {
      if high[i] > totalHigh {
        totalHigh := high[i];
      }
    }
    assert forall i :: 0 <= i < |average| ==> 0 <= average[i] <= totalHigh;
    SumBetween(average, 0, totalHigh);
    QuotientBetween(Sum(average), |average|, 0, totalHigh);
    if forall i :: 0 <= i < |attempts| ==> attempts[i] > 0 {
      SumBetween(average, totalLow, totalHigh);
      QuotientBetween(Sum(average), |average|, totalLow, totalHigh);
    }
  }
}
