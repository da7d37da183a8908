/**
 * The two order-dependent stages of the divergence pipeline: the forward moving average of the
 * transit time (Dia_2/divergence_model.py, _calculate_trends) and the running-maximum ratchet
 * over the divergence ratios (_calculate_divergence).
 */
module Trends {
  import opened Extremes

  /** The moving-average window holds up to this many samples. */
  const Window: nat := 101

  function Sum(s: seq<real>): real
  {
    if s == [] then 0.0 else s[0] + Sum(s[1..])
  }

  /** numpy's mean of a non-empty slice. */
  function Mean(s: seq<real>): real
    requires |s| > 0
  {
    Sum(s) / |s| as real
  }

  /** `min(i + 101, n)`: the exclusive end of the window that starts at row i. */
  function WindowEnd(i: nat, n: nat): (e: nat)
    requires i < n
    ensures i < e <= n
    ensures e - i == if Window < n - i then Window else n - i
  {
    if i + Window < n then i + Window else n
  }

  /** The smoothed transit time at row i: the mean of `dtc[i .. min(i + 101, n))`. */
  function ForwardMean(dtc: seq<real>, i: nat): real
    requires i < |dtc|
  {
    Mean(dtc[i..WindowEnd(i, |dtc|)])
  }

  lemma {:induction false} SumBounds(s: seq<real>, lo: real, hi: real)
    requires forall k :: 0 <= k < |s| ==> lo <= s[k] <= hi
    ensures |s| as real * lo <= Sum(s) <= |s| as real * hi
  {
    if s != [] {
      SumBounds(s[1..], lo, hi);
    }
  }

  /** A mean lies between any lower and upper bound of its samples. */
  lemma MeanBounds(s: seq<real>, lo: real, hi: real)
    requires |s| > 0
    requires forall k :: 0 <= k < |s| ==> lo <= s[k] <= hi
    ensures lo <= Mean(s) <= hi
  {
    SumBounds(s, lo, hi);
    DivBounds(Sum(s), |s| as real, lo, hi);
  }

  /** A mean lies between the smallest and the largest of its samples. */
  lemma MeanWithinExtremes(s: seq<real>)
    requires |s| > 0
    ensures Lowest(s) <= Mean(s) <= Highest(s)
  {
    MeanBounds(s, Lowest(s), Highest(s));
  }

  lemma DivBounds(a: real, n: real, lo: real, hi: real)
    requires n > 0.0 && n * lo <= a <= n * hi
    ensures lo <= a / n <= hi
  {
    var q := a / n;
    assert q * n == a;
    MulOrder(lo, q, n);
    MulOrder(q, hi, n);
  }

  /** Multiplying by a positive factor preserves order, in both directions. */
  lemma MulOrder(x: real, y: real, n: real)
    requires n > 0.0
    ensures x <= y <==> x * n <= y * n
  {
    assert (y - x) * n == y * n - x * n;
  }

  lemma {:induction false} SumPositive(s: seq<real>)
    requires |s| > 0
    requires forall k :: 0 <= k < |s| ==> s[k] > 0.0
    ensures Sum(s) > 0.0
  {
    if |s| > 1 {
      SumPositive(s[1..]);
    }
  }

  /** The mean of positive samples is positive. */
  lemma MeanPositive(s: seq<real>)
    requires |s| > 0
    requires forall k :: 0 <= k < |s| ==> s[k] > 0.0
    ensures Mean(s) > 0.0
  {
    SumPositive(s);
  }

  /** The window at row i holds min(101, n - i) samples; the last row's window is that row alone. */
  lemma ForwardMeanWindow(dtc: seq<real>, i: nat)
    requires i < |dtc|
    ensures |dtc[i..WindowEnd(i, |dtc|)]| == if Window < |dtc| - i then Window else |dtc| - i
    ensures i == |dtc| - 1 ==> ForwardMean(dtc, i) == dtc[i]
  {
    if i == |dtc| - 1 {
      assert dtc[i..WindowEnd(i, |dtc|)] == [dtc[i]];
      assert Sum([dtc[i]]) == dtc[i] + Sum([]);
    }
  }

  /**
   * `_calculate_trends`' loop: for every row, append the mean of the forward window.
   */
  method ForwardMovingAverage(dtc: seq<real>) returns (prom: seq<real>)
    ensures |prom| == |dtc|
    ensures forall i :: 0 <= i < |dtc| ==> prom[i] == Mean(dtc[i..WindowEnd(i, |dtc|)])
  {
    prom := [];
    var n := |dtc|;
    for i := 0 to n
      invariant |prom| == i
      invariant forall j :: 0 <= j < i ==> prom[j] == Mean(dtc[j..WindowEnd(j, n)])
    {
      var end := if i + Window < n then i + Window else n;
      prom := prom + [Mean(dtc[i..end])];
    }
  }

  /**
   * `div_dt[i]`: the ratchet value after row i. It starts at `ratios[0]` and moves to
   * `ratios[i]` only when that is strictly greater than the value carried so far.
   */
  function RunningMax(ratios: seq<real>, i: nat): real
    requires i < |ratios|
  {
    if i == 0 then ratios[0]
    else
      var prev := RunningMax(ratios, i - 1);
      if ratios[i] > prev then ratios[i] else prev
  }

  /** The running maximum up to row i bounds every ratio up to i and is one of them. */
  lemma {:induction false} RunningMaxIsMaximum(ratios: seq<real>, i: nat)
    requires i < |ratios|
    ensures forall j :: 0 <= j <= i ==> ratios[j] <= RunningMax(ratios, i)
    ensures exists j :: 0 <= j <= i && RunningMax(ratios, i) == ratios[j]
  {
    if i == 0 {
      assert RunningMax(ratios, 0) == ratios[0];
    } else {
      RunningMaxIsMaximum(ratios, i - 1);
      var prev := RunningMax(ratios, i - 1);
      var j :| 0 <= j <= i - 1 && prev == ratios[j];
      if ratios[i] <= prev {
        assert RunningMax(ratios, i) == ratios[j];
      } else {
        assert RunningMax(ratios, i) == ratios[i];
      }
    }
  }

  /** The ratchet never goes down. */
  lemma {:induction false} RunningMaxMonotone(ratios: seq<real>, i: nat, j: nat)
    requires i <= j < |ratios|
    ensures RunningMax(ratios, i) <= RunningMax(ratios, j)
  {
    if i < j {
      RunningMaxMonotone(ratios, i, j - 1);
    }
  }

  /**
   * `_calculate_divergence`' loop: `div_dt` starts as `[ratios[0]]` and each later row appends
   * either the new ratio, when it exceeds `div_dt[-1]`, or `div_dt[-1]` again.
   */
  method Ratchet(ratios: seq<real>) returns (divDt: seq<real>)
    requires |ratios| > 0
    ensures |divDt| == |ratios|
    ensures divDt[0] == ratios[0]
    ensures forall i :: 0 <= i < |ratios| ==> divDt[i] == RunningMax(ratios, i)
    ensures forall i, j :: 0 <= j <= i < |ratios| ==> ratios[j] <= divDt[i]
    ensures forall i :: 0 <= i < |ratios| ==> exists j :: 0 <= j <= i && divDt[i] == ratios[j]
    ensures forall i, j :: 0 <= i <= j < |ratios| ==> divDt[i] <= divDt[j]
  {
    divDt := [ratios[0]];
    var i := 1;
    while i < |ratios|
      invariant 1 <= i <= |ratios|
      invariant |divDt| == i
      invariant forall k :: 0 <= k < i ==> divDt[k] == RunningMax(ratios, k)
    {
      var last := divDt[|divDt| - 1];
      assert last == RunningMax(ratios, i - 1);
      if ratios[i] > last {
        divDt := divDt + [ratios[i]];
      } else {
        divDt := divDt + [last];
      }
      assert divDt[i] == RunningMax(ratios, i);
      i := i + 1;
    }
    forall i, j | 0 <= j <= i < |ratios|
      ensures ratios[j] <= divDt[i]
    {
      RunningMaxIsMaximum(ratios, i);
    }
    forall i | 0 <= i < |ratios|
      ensures exists j :: 0 <= j <= i && divDt[i] == ratios[j]
    {
      RunningMaxIsMaximum(ratios, i);
    }
    forall i, j | 0 <= i <= j < |ratios|
      ensures divDt[i] <= divDt[j]
    {
      RunningMaxMonotone(ratios, i, j);
    }
  }
}
