/**
 * `CalculadoraIPR.generar_tabla` (Dia_4/backend.py, Dia_4/codigos_ipr.py): the well test's
 * Pwf/Pws is looked up on a sorted curve to give the test's flow fraction z; the fixed pressure
 * steps are looked up the same way; the last step's fraction is overwritten; and every
 * fraction is scaled by the well's maximum rate `qo_z`.
 */
module IprTable {
  import opened Interpolation
  import opened Extremes

  /** `pasos_presion`: the table's flowing pressures, from 137.5 down to 0. */
  const PressureSteps: seq<real> := [137.5, 120.0, 100.0, 80.0, 60.0, 40.0, 0.0]

  /** The selected well-test row: its `Pws_Final`, `Pwf_Final` and `Qo (BPD)`. */
  datatype WellTest = WellTest(pws: real, pwf: real, qoTest: real)

  /** One row of the table: `Pwf`, `Pwf/Pws`, `qo/qomax` and `Qo (BPD)`. */
  datatype TableRow = TableRow(pwf: real, pwfPws: real, qoQomax: real, qo: real)

  /** What `generar_tabla` returns: the table, `z_calc` and the test's `pwf_pws_ratio`. */
  datatype Ipr = Ipr(table: seq<TableRow>, z: real, ratio: real)

  /** `qo_z`: the test rate over its flow fraction, the well's maximum rate; 0 when z is 0. */
  function MaxRate(qoTest: real, z: real): (q: real)
    ensures z == 0.0 ==> q == 0.0
    ensures z != 0.0 ==> q * z == qoTest
  {
    if z != 0.0 then qoTest / z else 0.0
  }

  /**
   * The table `generar_tabla` builds over the sorted points `pts`: seven rows at the pressure
   * steps, each with its Pwf/Pws and the interpolated fraction, except that the last row's
   * fraction is `forced`; every rate is the fraction times `qo_z`.
   */
  predicate IsTable(test: WellTest, pts: seq<Point>, forced: real, t: Ipr)
    requires test.pws != 0.0 && |pts| > 0 && SortedByX(pts)
  {
    && t.ratio == test.pwf / test.pws
    && t.z == Interp(t.ratio, pts)
    && |t.table| == |PressureSteps|
    && forall i :: 0 <= i < |t.table| ==>
         && t.table[i].pwf == PressureSteps[i]
         && t.table[i].pwfPws == PressureSteps[i] / test.pws
         && t.table[i].qoQomax == (if i < |t.table| - 1 then Interp(t.table[i].pwfPws, pts) else forced)
         && t.table[i].qo == t.table[i].qoQomax * MaxRate(test.qoTest, t.z)
  }

  /** The table over sorted points, built column by column; the forced fraction is written last. */
  method BuildTable(test: WellTest, pts: seq<Point>, forced: real) returns (t: Ipr)
    requires test.pws != 0.0 && |pts| > 0 && SortedByX(pts)
    ensures IsTable(test, pts, forced, t)
  {
    var ratio := test.pwf / test.pws;
    var z := Interp(ratio, pts);
    var qoZ := MaxRate(test.qoTest, z);
    var pwfPws := seq(|PressureSteps|, i requires 0 <= i < |PressureSteps| => PressureSteps[i] / test.pws);
    var fraction := InterpAll(pwfPws, pts);
    fraction := fraction[|fraction| - 1 := forced];
    var rows := seq(|PressureSteps|, i requires 0 <= i < |PressureSteps| =>
      TableRow(PressureSteps[i], pwfPws[i], fraction[i], fraction[i] * qoZ));
    t := Ipr(rows, z, ratio);
    ColumnsMakeTable(test, pts, forced, pwfPws, fraction, t);
  }

  lemma ColumnsMakeTable(test: WellTest, pts: seq<Point>, forced: real, pwfPws: seq<real>, fraction: seq<real>, t: Ipr)
    requires test.pws != 0.0 && |pts| > 0 && SortedByX(pts)
    requires |pwfPws| == |PressureSteps| && forall i :: 0 <= i < |pwfPws| ==> pwfPws[i] == PressureSteps[i] / test.pws
    requires |fraction| == |PressureSteps| && fraction[|fraction| - 1] == forced
    requires forall i :: 0 <= i < |fraction| - 1 ==> fraction[i] == Interp(pwfPws[i], pts)
    requires t.ratio == test.pwf / test.pws && t.z == Interp(t.ratio, pts) && |t.table| == |PressureSteps|
    requires forall i :: 0 <= i < |t.table| ==>
      t.table[i] == TableRow(PressureSteps[i], pwfPws[i], fraction[i], fraction[i] * MaxRate(test.qoTest, t.z))
    ensures IsTable(test, pts, forced, t)
  {
    forall i | 0 <= i < |t.table|
      ensures t.table[i].qoQomax == (if i < |t.table| - 1 then Interp(t.table[i].pwfPws, pts) else forced)
    {
    }
  }

  /** The table's rate at the test's own fraction is the test rate, unless that fraction is 0. */
  lemma MaxRateReproducesTest(test: WellTest, pts: seq<Point>, forced: real, t: Ipr)
    requires test.pws != 0.0 && |pts| > 0 && SortedByX(pts) && IsTable(test, pts, forced, t)
    ensures t.z != 0.0 ==> t.z * MaxRate(test.qoTest, t.z) == test.qoTest
    ensures t.z == 0.0 ==> forall i :: 0 <= i < |t.table| ==> t.table[i].qo == 0.0
  {
  }

  /** Each step's `Pwf/Pws` times Pws is the step's Pwf. */
  lemma StepRatios(test: WellTest, pts: seq<Point>, forced: real, t: Ipr)
    requires test.pws != 0.0 && |pts| > 0 && SortedByX(pts) && IsTable(test, pts, forced, t)
    ensures forall i :: 0 <= i < |t.table| ==> t.table[i].pwfPws * test.pws == t.table[i].pwf
  {
    forall i | 0 <= i < |t.table|
      ensures t.table[i].pwfPws * test.pws == t.table[i].pwf
    {
      assert t.table[i].pwfPws == PressureSteps[i] / test.pws;
    }
  }

  /** Every fraction but the forced one, and z itself, lies within the curve's range. */
  lemma FractionsWithinCurve(test: WellTest, pts: seq<Point>, forced: real, t: Ipr)
    requires test.pws != 0.0 && |pts| > 0 && SortedByX(pts) && IsTable(test, pts, forced, t)
    ensures Lowest(Ordinates(pts)) <= t.z <= Highest(Ordinates(pts))
    ensures forall i :: 0 <= i < |t.table| - 1 ==>
      Lowest(Ordinates(pts)) <= t.table[i].qoQomax <= Highest(Ordinates(pts))
  {
    InterpWithinRange(t.ratio, pts);
    forall i | 0 <= i < |t.table| - 1
      ensures Lowest(Ordinates(pts)) <= t.table[i].qoQomax <= Highest(Ordinates(pts))
    {
      InterpWithinRange(t.table[i].pwfPws, pts);
    }
  }

  /** The last step is Pwf = 0, Pwf/Pws = 0, and its fraction is the forced one. */
  lemma LastRowForced(test: WellTest, pts: seq<Point>, forced: real, t: Ipr)
    requires test.pws != 0.0 && |pts| > 0 && SortedByX(pts) && IsTable(test, pts, forced, t)
    ensures t.table[6].pwf == 0.0 && t.table[6].pwfPws == 0.0
    ensures t.table[6].qoQomax == forced
  {
  }

  /** Left of a curve that starts right of 0, the curve's value at Pwf/Pws = 0 is its first ordinate. */
  lemma InterpAtZero(pts: seq<Point>)
    requires |pts| > 0 && SortedByX(pts) && 0.0 < pts[0].x
    ensures Interp(0.0, pts) == pts[0].y
  {
    InterpClamps(0.0, pts);
  }
}
