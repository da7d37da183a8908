/**
 * The curve machinery of the IPR table (Dia_4/backend.py, generar_tabla): Python's stable
 * `sorted(curva, key=lambda p: p[0])` and numpy's `interp` over the sorted points, which clamps
 * to the end values outside the abscissae and is linear between neighbouring points.
 */
module Interpolation {
  import opened Extremes

  /** One digitised curve point `(Pwf/Pws, Qo/Qmax)`. */
  datatype Point = Point(x: real, y: real)

  predicate SortedByX(s: seq<Point>)
  {
    forall i, j :: 0 <= i < j < |s| ==> s[i].x <= s[j].x
  }

  /** Every point lies strictly to the left of its predecessor, as the curves are listed. */
  predicate DescendingX(s: seq<Point>)
  {
    forall i, j :: 0 <= i < j < |s| ==> s[i].x > s[j].x
  }

  /** `x_ref`: the abscissae of the points, in order. */
  function Abscissae(s: seq<Point>): (xs: seq<real>)
    ensures |xs| == |s| && forall i :: 0 <= i < |s| ==> xs[i] == s[i].x
  {
    seq(|s|, i requires 0 <= i < |s| => s[i].x)
  }

  /** `y_ref`: the ordinates of the points, in order. */
  function Ordinates(s: seq<Point>): (ys: seq<real>)
    ensures |ys| == |s| && forall i :: 0 <= i < |s| ==> ys[i] == s[i].y
  {
    seq(|s|, i requires 0 <= i < |s| => s[i].y)
  }

  function Reverse(s: seq<Point>): seq<Point>
  {
    if s == [] then [] else Reverse(s[1..]) + [s[0]]
  }

  // ---------------------------------------------------------------------------------------
  // sorted(curva, key=lambda p: p[0])

  /** Inserts p before the first point whose x is at least p's. */
  function Insert(p: Point, s: seq<Point>): (r: seq<Point>)
    ensures |r| == |s| + 1
  {
    if s == [] then [p]
    else if p.x <= s[0].x then [p] + s
    else [s[0]] + Insert(p, s[1..])
  }

  /**
   * Insertion sort by x. The head goes in front of every later point with the same x, so
   * points with equal keys keep their order, as Python's sort does.
   */
  function SortByX(s: seq<Point>): (r: seq<Point>)
    ensures |r| == |s|
  {
    if s == [] then [] else Insert(s[0], SortByX(s[1..]))
  }

  lemma {:induction false} InsertPermutes(p: Point, s: seq<Point>)
    ensures multiset(Insert(p, s)) == multiset(s) + multiset{p}
  {
    if s != [] && p.x > s[0].x {
      InsertPermutes(p, s[1..]);
      assert s == [s[0]] + s[1..];
    }
  }

  lemma {:induction false} InsertSorted(p: Point, s: seq<Point>)
    requires SortedByX(s)
    ensures SortedByX(Insert(p, s))
    ensures s != [] ==> Insert(p, s)[0] == (if p.x <= s[0].x then p else s[0])
  {
    if s != [] && p.x > s[0].x {
      InsertSorted(p, s[1..]);
      var r := Insert(p, s[1..]);
      assert s[0].x <= r[0].x;
      assert [s[0]] + r == Insert(p, s);
    }
  }

  /** The sort yields the same points, ascending by x. */
  lemma {:induction false} SortByXSorts(s: seq<Point>)
    ensures SortedByX(SortByX(s))
    ensures multiset(SortByX(s)) == multiset(s)
  {
    if s != [] {
      SortByXSorts(s[1..]);
      InsertSorted(s[0], SortByX(s[1..]));
      InsertPermutes(s[0], SortByX(s[1..]));
      assert s == [s[0]] + s[1..];
    }
  }

  /** Inserting a point right of every point of a sorted sequence appends it. */
  lemma {:induction false} InsertAtEnd(p: Point, s: seq<Point>)
    requires forall k :: 0 <= k < |s| ==> s[k].x < p.x
    ensures Insert(p, s) == s + [p]
  {
    if s != [] {
      InsertAtEnd(p, s[1..]);
      assert [s[0]] + (s[1..] + [p]) == s + [p];
    }
  }

  lemma {:induction false} ReverseIndex(s: seq<Point>)
    ensures |Reverse(s)| == |s|
    ensures forall k :: 0 <= k < |s| ==> Reverse(s)[k] == s[|s| - 1 - k]
  {
    if s != [] {
      ReverseIndex(s[1..]);
    }
  }

  /** A curve listed from right to left is sorted by reversing it. */
  lemma {:induction false} SortDescending(s: seq<Point>)
    requires DescendingX(s)
    ensures SortByX(s) == Reverse(s)
  {
    if s != [] {
      assert DescendingX(s[1..]);
      SortDescending(s[1..]);
      ReverseIndex(s[1..]);
      forall k | 0 <= k < |Reverse(s[1..])|
        ensures Reverse(s[1..])[k].x < s[0].x
      {
        assert Reverse(s[1..])[k] == s[|s| - 1 - k];
      }
      InsertAtEnd(s[0], Reverse(s[1..]));
    }
  }

  // ---------------------------------------------------------------------------------------
  // np.interp(x, x_ref, y_ref)

  /** numpy's linear piece between two neighbouring points: `slope * (x - a.x) + a.y`. */
  function Segment(a: Point, b: Point, x: real): real
    requires a.x < b.x
  {
    (b.y - a.y) / (b.x - a.x) * (x - a.x) + a.y
  }

  /**
   * `np.interp` at one abscissa: numpy finds the rightmost point whose abscissa is at most x
   * and takes the linear piece from it to its right neighbour; left of the first point it
   * answers the first ordinate, at or right of the last point the last ordinate.
   */
  function Interp(x: real, pts: seq<Point>): real
    requires |pts| > 0 && SortedByX(pts)
    decreases |pts|
  {
    if |pts| == 1 || x < pts[0].x then pts[0].y
    else if x >= pts[1].x then Interp(x, pts[1..])
    else Segment(pts[0], pts[1], x)
  }

  /** Clamping: left of the curve the first ordinate, right of it the last one. */
  lemma {:induction false} InterpClamps(x: real, pts: seq<Point>)
    requires |pts| > 0 && SortedByX(pts)
    ensures x < pts[0].x ==> Interp(x, pts) == pts[0].y
    ensures x >= pts[|pts| - 1].x ==> Interp(x, pts) == pts[|pts| - 1].y
  {
    if |pts| > 1 && x >= pts[|pts| - 1].x {
      assert pts[0].x <= pts[1].x <= pts[|pts| - 1].x;
      var rest := pts[1..];
      assert SortedByX(rest);
      InterpClamps(x, rest);
      assert rest[|rest| - 1] == pts[|pts| - 1];
    }
  }

  /** From a point up to (not including) its right neighbour the value is their linear piece. */
  lemma {:induction false} InterpBetween(x: real, pts: seq<Point>, j: nat)
    requires |pts| > 0 && SortedByX(pts)
    requires j + 1 < |pts| && pts[j].x <= x < pts[j + 1].x
    ensures Interp(x, pts) == Segment(pts[j], pts[j + 1], x)
  {
    if j > 0 {
      assert pts[0].x <= pts[1].x <= pts[j].x;
      var rest := pts[1..];
      assert SortedByX(rest);
      InterpBetween(x, rest, j - 1);
    }
  }

  /** At a point with no other point on its abscissa to its right, the value is its ordinate. */
  lemma InterpAtPoint(pts: seq<Point>, j: nat)
    requires |pts| > 0 && SortedByX(pts) && j < |pts|
    requires j == |pts| - 1 || pts[j].x < pts[j + 1].x
    ensures Interp(pts[j].x, pts) == pts[j].y
  {
    if j == |pts| - 1 {
      InterpClamps(pts[j].x, pts);
    } else {
      InterpBetween(pts[j].x, pts, j);
    }
  }

  /** Bounds on every ordinate bound the interpolated value. */
  lemma {:induction false} InterpBounded(x: real, pts: seq<Point>, lo: real, hi: real)
    requires |pts| > 0 && SortedByX(pts)
    requires forall k :: 0 <= k < |pts| ==> lo <= pts[k].y <= hi
    ensures lo <= Interp(x, pts) <= hi
  {
    if |pts| > 1 && x >= pts[0].x {
      assert lo <= pts[1].y <= hi;
      if x >= pts[1].x {
        var rest := pts[1..];
        assert SortedByX(rest);
        InterpBounded(x, rest, lo, hi);
      } else if x > pts[0].x {
        SegmentBetween(pts[0], pts[1], x, lo, hi);
      }
    }
  }

  /** The interpolated value never leaves the range of the curve's ordinates. */
  lemma InterpWithinRange(x: real, pts: seq<Point>)
    requires |pts| > 0 && SortedByX(pts)
    ensures Lowest(Ordinates(pts)) <= Interp(x, pts) <= Highest(Ordinates(pts))
  {
    var ys := Ordinates(pts);
    InterpBounded(x, pts, Lowest(ys), Highest(ys));
  }

  /** Strictly inside a segment the linear piece lies between the two ordinates' bounds. */
  lemma SegmentBetween(a: Point, b: Point, x: real, lo: real, hi: real)
    requires a.x < x < b.x
    requires lo <= a.y <= hi && lo <= b.y <= hi
    ensures lo <= Segment(a, b, x) <= hi
  {
    var w, u := b.x - a.x, x - a.x;
    var t := u / w;
    FractionInUnit(u, w);
    SlopeTimesRun(b.y - a.y, u, w);
    assert Segment(a, b, x) == t * (b.y - a.y) + a.y;
    assert Segment(a, b, x) == (1.0 - t) * a.y + t * b.y;
    MulAtMost(lo, a.y, 1.0 - t);
    MulAtMost(a.y, hi, 1.0 - t);
    MulAtMost(lo, b.y, t);
    MulAtMost(b.y, hi, t);
  }

  lemma FractionInUnit(u: real, w: real)
    requires 0.0 < u < w
    ensures 0.0 < u / w < 1.0
  {
    var t := u / w;
    assert t * w == u;
    if t <= 0.0 {
      MulAtMost(t, 0.0, w);
    }
    if t >= 1.0 {
      MulAtMost(1.0, t, w);
    }
  }

  lemma SlopeTimesRun(rise: real, u: real, w: real)
    requires w > 0.0
    ensures rise / w * u == u / w * rise
  {
    assert rise / w * u * w == rise * u;
    assert u / w * rise * w == u * rise;
  }

  lemma MulAtMost(a: real, b: real, w: real)
    requires a <= b && w >= 0.0
    ensures a * w <= b * w
  {
  }

  /** The element-wise `np.interp` of a column of abscissae. */
  function InterpAll(xs: seq<real>, pts: seq<Point>): (r: seq<real>)
    requires |pts| > 0 && SortedByX(pts)
    ensures |r| == |xs|
  {
    seq(|xs|, i requires 0 <= i < |xs| => Interp(xs[i], pts))
  }
}
