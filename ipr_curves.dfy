/**
 * `DatosCurvas.CURVAS`: the five dimensionless IPR curves, each six points
 * `(Pwf/Pws, Qo/Qmax)` as digitised (Dia_4/backend.py and, identically, Dia_4/codigos_ipr.py).
 */
module IprCurves {
  import opened Interpolation
  import opened Extremes

  const Curve05: seq<Point> := [
      Point(0.6739349, 0.00052),
      Point(0.6041, 0.18117839),
      Point(0.49477935, 0.37965602),
      Point(0.35427386, 0.60046196),
      Point(0.22216843, 0.75701785),
      Point(0.000643, 0.99402404)]

  const Curve06: seq<Point> := [
      Point(0.7580445, 0.002266205),
      Point(0.6101795, 0.28583047),
      Point(0.51651496, 0.4290484),
      Point(0.40416315, 0.5692209),
      Point(0.24604554, 0.76157355),
      Point(0.00168109, 0.99402714)]

  const Curve075: seq<Point> := [
      Point(0.88162, 0.0),
      Point(0.720243, 0.292139),
      Point(0.547549, 0.511354),
      Point(0.434189, 0.630596),
      Point(0.266775, 0.7618188),
      Point(0.004796, 0.994037)]

  const Curve085: seq<Point> := [
      Point(0.9376863, 0.00579279),
      Point(0.8730867, 0.15657145),
      Point(0.7534185, 0.32960704),
      Point(0.55995375, 0.55025464),
      Point(0.3280805, 0.7618188),
      Point(0.007913752, 0.992551)]

  const Curve1: seq<Point> := [
      Point(0.9968761, 0.00596974),
      Point(0.880196, 0.2672057),
      Point(0.7407785, 0.45363516),
      Point(0.5733799, 0.60111696),
      Point(0.41328245, 0.72619903),
      Point(0.00479419, 0.9955312)]

  /** The curves by name. */
  const Curves: map<string, seq<Point>> := map[
    "curva 0.5" := Curve05,
    "curva 0.6" := Curve06,
    "Curva 0.75" := Curve075,
    "Curva 0.85" := Curve085,
    "Curva 1" := Curve1
  ]

  /** The curve's points are listed right to left, with the flow fraction rising. */
  predicate ListedRightToLeft(s: seq<Point>)
  {
    && DescendingX(s)
    && forall i, j :: 0 <= i < j < |s| ==> s[i].y <= s[j].y
  }

  /** Every curve has six points, listed from the largest Pwf/Pws down. */
  lemma CurvesShape(name: string)
    requires name in Curves
    ensures CurveShape(Curves[name])
  {
    if name == "curva 0.5" {
      CurveShapeOf(Curve05);
    } else if name == "curva 0.6" {
      CurveShapeOf(Curve06);
    } else if name == "Curva 0.75" {
      CurveShapeOf(Curve075);
    } else if name == "Curva 0.85" {
      CurveShapeOf(Curve085);
    } else {
      CurveShapeOf(Curve1);
    }
  }

  /** Six points, listed right to left, with Pwf/Pws in (0, 1] and Qo/Qmax in [0, 1]. */
  predicate CurveShape(s: seq<Point>)
  {
    && |s| == 6
    && ListedRightToLeft(s)
    && forall k :: 0 <= k < 6 ==> 0.0 < s[k].x <= 1.0 && 0.0 <= s[k].y <= 1.0
  }

  lemma CurveShapeOf(s: seq<Point>)
    requires s == Curve05 || s == Curve06 || s == Curve075 || s == Curve085 || s == Curve1
    ensures CurveShape(s)
  {
    assert forall k :: 0 <= k < 5 ==> s[k].x > s[k + 1].x && s[k].y <= s[k + 1].y;
    ChainDescending(s);
  }

  /** Neighbour-wise order gives the order of every pair. */
  lemma {:induction false} ChainDescending(s: seq<Point>)
    requires forall k :: 0 <= k < |s| - 1 ==> s[k].x > s[k + 1].x && s[k].y <= s[k + 1].y
    ensures ListedRightToLeft(s)
  {
    if |s| > 1 {
      ChainDescending(s[1..]);
      forall j | 1 <= j < |s|
        ensures s[0].x > s[j].x && s[0].y <= s[j].y
      {
        assert s[1..][j - 1] == s[j];
        if j > 1 {
          assert s[1].x > s[j].x && s[1].y <= s[j].y;
        }
      }
    }
  }

  /** `curva_ord`, the named curve sorted ascending by Pwf/Pws. */
  function SortedCurve(name: string): (r: seq<Point>)
    requires name in Curves
    ensures |r| == 6 && SortedByX(r)
    ensures r == SortByX(Curves[name])
  {
    SortedCurveFacts(name);
    SortByX(Curves[name])
  }

  /**
   * After the ascending sort a curve is its listing reversed, so `y_ref` runs from
   * the largest flow fraction (Pwf/Pws near 0) down to the smallest (Pwf/Pws near 1).
   */
  lemma SortedCurveFacts(name: string)
    requires name in Curves
    ensures var r := SortByX(Curves[name]);
      && |r| == 6 && SortedByX(r)
      && (forall k :: 0 <= k < 6 ==> r[k] == Curves[name][5 - k])
      && Ordinates(r)[0] == Highest(Ordinates(r))
      && Ordinates(r)[5] == Lowest(Ordinates(r))
  {
    CurvesShape(name);
    SortedListing(Curves[name]);
  }

  lemma SortedListing(s: seq<Point>)
    requires CurveShape(s)
    ensures var r := SortByX(s);
      && |r| == 6 && SortedByX(r)
      && (forall k :: 0 <= k < 6 ==> r[k] == s[5 - k])
      && Ordinates(r)[0] == Highest(Ordinates(r))
      && Ordinates(r)[5] == Lowest(Ordinates(r))
  {
    SortDescending(s);
    ReverseIndex(s);
    SortByXSorts(s);
    ReversedExtremes(s, SortByX(s));
  }

  /** Reversing a listing with rising ordinates puts the largest ordinate first. */
  lemma ReversedExtremes(s: seq<Point>, r: seq<Point>)
    requires |s| == 6 && ListedRightToLeft(s)
    requires |r| == 6 && forall k :: 0 <= k < 6 ==> r[k] == s[5 - k]
    ensures Ordinates(r)[0] == Highest(Ordinates(r))
    ensures Ordinates(r)[5] == Lowest(Ordinates(r))
  {
    var ys := Ordinates(r);
    forall k | 0 <= k < 6
      ensures ys[k] <= ys[0] && ys[5] <= ys[k]
    {
      assert r[k] == s[5 - k] && r[0] == s[5] && r[5] == s[0];
    }
    HighestIsBound(ys, ys[0]);
    LowestIsBound(ys, ys[5]);
  }

  /** A member at or above every element is the maximum. */
  lemma HighestIsBound(s: seq<real>, v: real)
    requires |s| > 0 && v in s && forall k :: 0 <= k < |s| ==> s[k] <= v
    ensures Highest(s) == v
  {
  }

  /** A member at or below every element is the minimum. */
  lemma LowestIsBound(s: seq<real>, v: real)
    requires |s| > 0 && v in s && forall k :: 0 <= k < |s| ==> v <= s[k]
    ensures Lowest(s) == v
  {
  }
}
