/**
 * The geopressure divergence pipeline of Dia_2/divergence_model.py.
 *
 * `DivergenceAnalysis` holds the results table and fills it column by column, one stage at a
 * time, exactly as `run_analysis` does. `Expected` is the table that run produces, stated as a
 * function of the inputs and the parameters; the lemmas after it are the properties of that table.
 */
module DivergenceModel {
  import opened Transcendental
  import opened Geopressure
  import opened Trends
  import opened Extremes
  import opened Wrappers

  /** The columns of the results table, in the order the pipeline adds them. */
  datatype Column =
    | Depth | DTC | MW
    | Vp | RhoGardner | RhoTrougott | SV | GSV | DTCProm | DTN
    | DivDTRatio | DivFactor | DTSH | PpUncal | PpCal | ParamV | Pf

  const InputColumns: seq<Column> := [Depth, DTC, MW]

  /** The columns the eight stages add, stage by stage: Vp, Gardner, Troughton, overburden,
   *  trends, divergence, pore pressure, fracture pressure. */
  const StageColumns: seq<Column> :=
    [Vp, RhoGardner, RhoTrougott, SV, GSV, DTCProm, DTN, DivDTRatio, DivFactor, DTSH, PpUncal, PpCal, ParamV, Pf]

  /** Assigning a pandas column: a new name goes to the end, an existing one keeps its place. */
  function WithColumn(columns: seq<Column>, c: Column): seq<Column>
  {
    if c in columns then columns else columns + [c]
  }

  /** The column order once the first k stage columns have been assigned. */
  function ColumnsAfter(columns: seq<Column>, k: nat): seq<Column>
    requires k <= |StageColumns|
  {
    if k == 0 then columns else WithColumn(ColumnsAfter(columns, k - 1), StageColumns[k - 1])
  }

  /** What the formulas need of a run: well-defined parameters, sound transcendentals, three
   *  columns of one length, and per row a positive depth, a positive transit time and a
   *  parameter V other than 1. */
  ghost predicate Admissible(p: Params, m: Transcendentals, depth: seq<real>, dtc: seq<real>, mw: seq<real>)
  {
    && m.Sound() && p.WellDefined()
    && |dtc| == |depth| && |mw| == |depth|
    && (forall i :: 0 <= i < |depth| ==> depth[i] > 0.0 && dtc[i] > 0.0 && ParameterV(m, depth[i]) != 1.0)
  }

  // ---------------------------------------------------------------------------------------
  // Columns, one function per vectorised expression of the source.

  function VpColumn(dtc: seq<real>): seq<real>
    requires forall i :: 0 <= i < |dtc| ==> dtc[i] > 0.0
  {
    seq(|dtc|, i requires 0 <= i < |dtc| => Velocity(dtc[i]))
  }

  function GardnerColumn(m: Transcendentals, vp: seq<real>): seq<real>
    requires m.Sound()
  {
    seq(|vp|, i requires 0 <= i < |vp| => GardnerDensity(m, vp[i]))
  }

  function TroughtonColumn(p: Params, m: Transcendentals, depth: seq<real>): seq<real>
    requires m.Sound()
  {
    seq(|depth|, i requires 0 <= i < |depth| => TroughtonDensity(p, m, depth[i]))
  }

  function OverburdenColumn(p: Params, m: Transcendentals, depth: seq<real>): seq<real>
    requires m.Sound() && p.WellDefined()
  {
    seq(|depth|, i requires 0 <= i < |depth| => Overburden(p, m, depth[i]))
  }

  function GradientColumn(sv: seq<real>, depth: seq<real>): seq<real>
    requires |sv| == |depth|
    requires forall i :: 0 <= i < |depth| ==> depth[i] > 0.0
  {
    seq(|depth|, i requires 0 <= i < |depth| => OverburdenGradient(sv[i], depth[i]))
  }

  function ForwardMeanColumn(dtc: seq<real>): seq<real>
  {
    seq(|dtc|, i requires 0 <= i < |dtc| => ForwardMean(dtc, i))
  }

  function NormalTrendColumn(p: Params, m: Transcendentals, depth: seq<real>): seq<real>
    requires m.Sound() && p.WellDefined()
  {
    seq(|depth|, i requires 0 <= i < |depth| => NormalTrend(p, m, depth[i]))
  }

  /** `ratios = dtc_prom / dtn`. */
  function RatioColumn(prom: seq<real>, dtn: seq<real>): seq<real>
    requires |prom| == |dtn|
    requires forall i :: 0 <= i < |dtn| ==> dtn[i] != 0.0
  {
    seq(|dtn|, i requires 0 <= i < |dtn| => prom[i] / dtn[i])
  }

  function RatchetColumn(ratios: seq<real>): seq<real>
  {
    seq(|ratios|, i requires 0 <= i < |ratios| => RunningMax(ratios, i))
  }

  function FactorColumn(p: Params, depth: seq<real>, divDt: seq<real>): seq<real>
    requires |divDt| == |depth|
  {
    seq(|depth|, i requires 0 <= i < |depth| => DivergenceFactor(p, depth[i], divDt[i]))
  }

  /** `DTSH = Div_Factor * DTN`. */
  function ShaleColumn(factor: seq<real>, dtn: seq<real>): seq<real>
    requires |factor| == |dtn|
  {
    seq(|dtn|, i requires 0 <= i < |dtn| => factor[i] * dtn[i])
  }

  function PoreColumn(p: Params, m: Transcendentals, gsv: seq<real>, dtn: seq<real>, dtsh: seq<real>): seq<real>
    requires m.Sound() && |gsv| == |dtn| == |dtsh|
    requires forall i :: 0 <= i < |dtsh| ==> dtsh[i] != 0.0
  {
    seq(|dtsh|, i requires 0 <= i < |dtsh| => PorePressure(p, m, gsv[i], dtn[i], dtsh[i]))
  }

  function CalibratedColumn(p: Params, depth: seq<real>, ppUncal: seq<real>, mw: seq<real>): seq<real>
    requires |ppUncal| == |depth| && |mw| == |depth|
  {
    seq(|depth|, i requires 0 <= i < |depth| => CalibratedPorePressure(p, depth[i], ppUncal[i], mw[i]))
  }

  function ParamVColumn(m: Transcendentals, depth: seq<real>): seq<real>
  {
    seq(|depth|, i requires 0 <= i < |depth| => ParameterV(m, depth[i]))
  }

  function FractureColumn(ppUncal: seq<real>, v: seq<real>, gsv: seq<real>): seq<real>
    requires |ppUncal| == |v| == |gsv|
    requires forall i :: 0 <= i < |v| ==> v[i] != 1.0
  {
    seq(|v|, i requires 0 <= i < |v| => FracturePressure(ppUncal[i], v[i], gsv[i]))
  }

  // ---------------------------------------------------------------------------------------
  // The table a run produces.

  /** The overburden gradient `GSV` of a run. */
  function RunGradient(p: Params, m: Transcendentals, depth: seq<real>, dtc: seq<real>, mw: seq<real>): (r: seq<real>)
    requires Admissible(p, m, depth, dtc, mw)
    ensures |r| == |depth|
  {
    GradientColumn(OverburdenColumn(p, m, depth), depth)
  }

  /** The divergence ratios `DTC_Prom / DTN` of a run. */
  function Ratios(p: Params, m: Transcendentals, depth: seq<real>, dtc: seq<real>): (r: seq<real>)
    requires m.Sound() && p.WellDefined() && |dtc| == |depth|
    ensures |r| == |depth|
  {
    RatioColumn(ForwardMeanColumn(dtc), NormalTrendColumn(p, m, depth))
  }

  /** The ratcheted ratio `Div_DT_Ratio` of a run. */
  function RunRatchet(p: Params, m: Transcendentals, depth: seq<real>, dtc: seq<real>): (r: seq<real>)
    requires m.Sound() && p.WellDefined() && |dtc| == |depth|
    ensures |r| == |depth|
  {
    RatchetColumn(Ratios(p, m, depth, dtc))
  }

  /** The divergence factor `Div_Factor` of a run. */
  function RunFactor(p: Params, m: Transcendentals, depth: seq<real>, dtc: seq<real>): (r: seq<real>)
    requires m.Sound() && p.WellDefined() && |dtc| == |depth|
    ensures |r| == |depth|
  {
    FactorColumn(p, depth, RunRatchet(p, m, depth, dtc))
  }

  /** The shale transit-time trend `DTSH` of a run. */
  function ShaleTrend(p: Params, m: Transcendentals, depth: seq<real>, dtc: seq<real>): (r: seq<real>)
    requires m.Sound() && p.WellDefined() && |dtc| == |depth|
    ensures |r| == |depth|
  {
    ShaleColumn(RunFactor(p, m, depth, dtc), NormalTrendColumn(p, m, depth))
  }

  /**
   * DTSH never vanishes, so the Eaton quotient `DTN / DTSH` is always defined: every ratio is
   * positive, hence so is the ratchet and the divergence factor, and DTN is positive.
   */
  lemma ShaleTrendPositive(p: Params, m: Transcendentals, depth: seq<real>, dtc: seq<real>, mw: seq<real>)
    requires Admissible(p, m, depth, dtc, mw)
    ensures forall i :: 0 <= i < |depth| ==> ShaleTrend(p, m, depth, dtc)[i] > 0.0
  {
    var prom := ForwardMeanColumn(dtc);
    var dtn := NormalTrendColumn(p, m, depth);
    forall i | 0 <= i < |depth|
      ensures prom[i] > 0.0
    {
      var window := dtc[i..WindowEnd(i, |dtc|)];
      assert forall k :: 0 <= k < |window| ==> window[k] == dtc[i + k];
      MeanPositive(window);
    }
    RatioColumnPositive(prom, dtn);
    var ratios := RatioColumn(prom, dtn);
    var ratchet := RatchetColumn(ratios);
    var factor := FactorColumn(p, depth, ratchet);
    forall i | 0 <= i < |depth|
      ensures factor[i] > 0.0
    {
      RunningMaxIsMaximum(ratios, i);
      assert ratchet[i] == RunningMax(ratios, i) >= ratios[0];
    }
    ShaleColumnPositive(factor, dtn);
  }

  lemma RatioColumnPositive(prom: seq<real>, dtn: seq<real>)
    requires |prom| == |dtn|
    requires forall i :: 0 <= i < |dtn| ==> prom[i] > 0.0 && dtn[i] > 0.0
    ensures forall i :: 0 <= i < |dtn| ==> RatioColumn(prom, dtn)[i] > 0.0
  {
    forall i | 0 <= i < |dtn|
      ensures RatioColumn(prom, dtn)[i] > 0.0
    {
      assert (prom[i] / dtn[i]) * dtn[i] == prom[i];
    }
  }

  lemma ShaleColumnPositive(factor: seq<real>, dtn: seq<real>)
    requires |factor| == |dtn|
    requires forall i :: 0 <= i < |dtn| ==> factor[i] > 0.0 && dtn[i] > 0.0
    ensures forall i :: 0 <= i < |dtn| ==> ShaleColumn(factor, dtn)[i] > 0.0
  {
  }

  /** The uncalibrated Eaton pore pressure `Pp_Uncal` of a run. */
  function RunPorePressure(p: Params, m: Transcendentals, depth: seq<real>, dtc: seq<real>, mw: seq<real>): (r: seq<real>)
    requires Admissible(p, m, depth, dtc, mw)
    ensures |r| == |depth|
  {
    ShaleTrendPositive(p, m, depth, dtc, mw);
    PoreColumn(p, m, RunGradient(p, m, depth, dtc, mw), NormalTrendColumn(p, m, depth), ShaleTrend(p, m, depth, dtc))
  }

  /** The fracture pressure `Pf` of a run. */
  function RunFracture(p: Params, m: Transcendentals, depth: seq<real>, dtc: seq<real>, mw: seq<real>): (r: seq<real>)
    requires Admissible(p, m, depth, dtc, mw)
    ensures |r| == |depth|
  {
    FractureColumn(RunPorePressure(p, m, depth, dtc, mw), ParamVColumn(m, depth), RunGradient(p, m, depth, dtc, mw))
  }

  /** The results table of `run_analysis`, column by column. */
  function Expected(p: Params, m: Transcendentals, depth: seq<real>, dtc: seq<real>, mw: seq<real>): map<Column, seq<real>>
    requires Admissible(p, m, depth, dtc, mw)
  {
    map[
      Depth := depth, DTC := dtc, MW := mw,
      Vp := VpColumn(dtc),
      RhoGardner := GardnerColumn(m, VpColumn(dtc)),
      RhoTrougott := TroughtonColumn(p, m, depth),
      SV := OverburdenColumn(p, m, depth),
      GSV := RunGradient(p, m, depth, dtc, mw),
      DTCProm := ForwardMeanColumn(dtc),
      DTN := NormalTrendColumn(p, m, depth),
      DivDTRatio := RunRatchet(p, m, depth, dtc),
      DivFactor := RunFactor(p, m, depth, dtc),
      DTSH := ShaleTrend(p, m, depth, dtc),
      PpUncal := RunPorePressure(p, m, depth, dtc, mw),
      PpCal := CalibratedColumn(p, depth, RunPorePressure(p, m, depth, dtc, mw), mw),
      ParamV := ParamVColumn(m, depth),
      Pf := RunFracture(p, m, depth, dtc, mw)
    ]
  }

  // ---------------------------------------------------------------------------------------
  // Properties of the results table.

  /** One output row per input row, with Depth, DTC and MW copied unchanged. */
  lemma OneRowPerInputRow(p: Params, m: Transcendentals, depth: seq<real>, dtc: seq<real>, mw: seq<real>, e: map<Column, seq<real>>)
    requires Admissible(p, m, depth, dtc, mw) && e == Expected(p, m, depth, dtc, mw)
    ensures forall c: Column :: c in e && |e[c]| == |depth|
    ensures e[Depth] == depth && e[DTC] == dtc && e[MW] == mw
  {
    forall c: Column
      ensures c in e && |e[c]| == |depth|
    {
      ColumnOfTable(p, m, depth, dtc, mw, e, c);
    }
  }

  lemma ColumnOfTable(p: Params, m: Transcendentals, depth: seq<real>, dtc: seq<real>, mw: seq<real>, e: map<Column, seq<real>>, c: Column)
    requires Admissible(p, m, depth, dtc, mw) && e == Expected(p, m, depth, dtc, mw)
    ensures c in e && |e[c]| == |depth|
  {
    match c
    case Depth => case DTC => case MW => case Vp => case RhoGardner => case RhoTrougott =>
    case SV => case GSV => case DTCProm => case DTN => case DivDTRatio => case DivFactor =>
    case DTSH => case PpUncal => case PpCal => case ParamV => case Pf =>
  }

  /**
   * `DTC_Prom[i]` is the mean of `dtc[i .. min(i + 101, n))`: a forward window of min(101, n - i)
   * samples, so the smoothed value lies between the window's smallest and largest transit time,
   * and on the last row it is that row's DTC exactly.
   */
  lemma SmoothedTransitTime(p: Params, m: Transcendentals, depth: seq<real>, dtc: seq<real>, mw: seq<real>, e: map<Column, seq<real>>, i: nat)
    requires Admissible(p, m, depth, dtc, mw) && e == Expected(p, m, depth, dtc, mw) && i < |depth|
    ensures
      && e[DTCProm][i] == Mean(dtc[i..WindowEnd(i, |dtc|)])
      && |dtc[i..WindowEnd(i, |dtc|)]| == (if Window < |dtc| - i then Window else |dtc| - i)
      && Lowest(dtc[i..WindowEnd(i, |dtc|)]) <= e[DTCProm][i] <= Highest(dtc[i..WindowEnd(i, |dtc|)])
      && (i == |dtc| - 1 ==> e[DTCProm][i] == dtc[i])
  {
    assert e[DTCProm][i] == ForwardMean(dtc, i);
    MeanWithinExtremes(dtc[i..WindowEnd(i, |dtc|)]);
    ForwardMeanWindow(dtc, i);
  }

  /**
   * `Div_DT_Ratio` is the running maximum of the ratios `DTC_Prom / DTN`: it starts at the
   * first ratio, never decreases, bounds every ratio at or above its row and equals one of them.
   */
  lemma DivergenceRatchet(p: Params, m: Transcendentals, depth: seq<real>, dtc: seq<real>, mw: seq<real>, e: map<Column, seq<real>>, i: nat, j: nat)
    requires Admissible(p, m, depth, dtc, mw) && e == Expected(p, m, depth, dtc, mw) && i <= j < |depth|
    ensures
      && e[DivDTRatio][0] == e[DTCProm][0] / e[DTN][0]
      && e[DivDTRatio][i] <= e[DivDTRatio][j]
      && (forall k :: 0 <= k <= j ==> e[DTCProm][k] / e[DTN][k] <= e[DivDTRatio][j])
      && (exists k :: 0 <= k <= j && e[DivDTRatio][j] == e[DTCProm][k] / e[DTN][k])
  {
    assert e[DivDTRatio] == RatchetColumn(RatioColumn(e[DTCProm], e[DTN]));
    RatchetOfRatios(e[DTCProm], e[DTN], e[DivDTRatio], i, j);
  }

  /** The running-maximum facts for a ratchet over the ratios `prom[k] / dtn[k]`. */
  lemma RatchetOfRatios(prom: seq<real>, dtn: seq<real>, ratchet: seq<real>, i: nat, j: nat)
    requires |prom| == |dtn| && i <= j < |dtn|
    requires forall k :: 0 <= k < |dtn| ==> dtn[k] != 0.0
    requires ratchet == RatchetColumn(RatioColumn(prom, dtn))
    ensures ratchet[0] == prom[0] / dtn[0]
    ensures ratchet[i] <= ratchet[j]
    ensures forall k :: 0 <= k <= j ==> prom[k] / dtn[k] <= ratchet[j]
    ensures exists k :: 0 <= k <= j && ratchet[j] == prom[k] / dtn[k]
  {
    var ratios := RatioColumn(prom, dtn);
    forall k | 0 <= k < |dtn|
      ensures ratios[k] == prom[k] / dtn[k]
    {
      RatioAt(prom, dtn, ratios, k);
    }
    assert ratchet[0] == RunningMax(ratios, 0);
    RunningMaxMonotone(ratios, i, j);
    RunningMaxIsMaximum(ratios, j);
    var k :| 0 <= k <= j && RunningMax(ratios, j) == ratios[k];
    assert ratchet[j] == prom[k] / dtn[k];
  }

  lemma RatioAt(prom: seq<real>, dtn: seq<real>, r: seq<real>, k: nat)
    requires |prom| == |dtn| && k < |dtn|
    requires forall i :: 0 <= i < |dtn| ==> dtn[i] != 0.0
    requires r == RatioColumn(prom, dtn)
    ensures r[k] == prom[k] / dtn[k]
  {
  }

  /** The divergence factor switches sharply at prf: 1.0 at or above it, the ratchet below it. */
  lemma DivergenceFactorSwitch(p: Params, m: Transcendentals, depth: seq<real>, dtc: seq<real>, mw: seq<real>, e: map<Column, seq<real>>, i: nat)
    requires Admissible(p, m, depth, dtc, mw) && e == Expected(p, m, depth, dtc, mw) && i < |depth|
    ensures depth[i] <= p.prf ==> e[DivFactor][i] == 1.0
    ensures depth[i] > p.prf ==> e[DivFactor][i] == e[DivDTRatio][i]
  {
    assert e[DivFactor] == FactorColumn(p, depth, e[DivDTRatio]);
  }

  /** The shale trend is the divergence factor times the normal trend, row by row. */
  lemma ShaleTrendScalesNormal(p: Params, m: Transcendentals, depth: seq<real>, dtc: seq<real>, mw: seq<real>, e: map<Column, seq<real>>, i: nat)
    requires Admissible(p, m, depth, dtc, mw) && e == Expected(p, m, depth, dtc, mw) && i < |depth|
    ensures e[DTSH][i] == e[DivFactor][i] * e[DTN][i]
  {
    assert e[DTSH] == ShaleColumn(e[DivFactor], e[DTN]);
    ShaleAt(e[DivFactor], e[DTN], e[DTSH], i);
  }

  lemma ShaleAt(factor: seq<real>, dtn: seq<real>, r: seq<real>, k: nat)
    requires |factor| == |dtn| && k < |dtn|
    requires r == ShaleColumn(factor, dtn)
    ensures r[k] == factor[k] * dtn[k]
  {
  }

  /**
   * The Troughton density uses `max(Depth - z, 0)` as its base: it is the surface term po down
   * to the reference depth z = ta + rkb, and never below po when k is non-negative.
   */
  lemma TroughtonClamp(p: Params, m: Transcendentals, depth: seq<real>, dtc: seq<real>, mw: seq<real>, e: map<Column, seq<real>>, i: nat)
    requires Admissible(p, m, depth, dtc, mw) && e == Expected(p, m, depth, dtc, mw) && i < |depth|
    ensures
      && e[RhoTrougott][i] == TroughtonDensity(p, m, depth[i])
      && TroughtonBase(p, depth[i]) == (if depth[i] - (p.ta + p.rkb) < 0.0 then 0.0 else depth[i] - (p.ta + p.rkb))
      && (depth[i] <= p.ta + p.rkb && p.c > 0.0 ==> e[RhoTrougott][i] == p.po)
      && (p.k >= 0.0 ==> e[RhoTrougott][i] >= p.po)
  {
    assert e[RhoTrougott][i] == TroughtonDensity(p, m, depth[i]);
  }

  /**
   * Pore pressure: the calibrated value is the Eaton value above ms and exactly `MW - 0.03`
   * from ms down; where the divergence factor is off (Depth <= prf) the shale trend equals
   * the normal trend and the Eaton value is the normal gradient ppn.
   */
  lemma PorePressureSwitches(p: Params, m: Transcendentals, depth: seq<real>, dtc: seq<real>, mw: seq<real>, e: map<Column, seq<real>>, i: nat)
    requires Admissible(p, m, depth, dtc, mw) && e == Expected(p, m, depth, dtc, mw) && i < |depth|
    ensures
      && (depth[i] < p.ms ==> e[PpCal][i] == e[PpUncal][i])
      && (depth[i] >= p.ms ==> e[PpCal][i] == mw[i] - 0.03)
      && (depth[i] <= p.prf ==> e[DTSH][i] == e[DTN][i] && e[PpUncal][i] == p.ppn)
  {
    DivergenceFactorSwitch(p, m, depth, dtc, mw, e, i);
    ShaleTrendScalesNormal(p, m, depth, dtc, mw, e, i);
    ShaleTrendPositive(p, m, depth, dtc, mw);
    assert e[PpUncal] == PoreColumn(p, m, e[GSV], e[DTN], e[DTSH]);
    assert e[PpUncal][i] == PorePressure(p, m, e[GSV][i], e[DTN][i], e[DTSH][i]);
    assert e[PpCal] == CalibratedColumn(p, depth, e[PpUncal], mw);
    assert e[PpCal][i] == CalibratedPorePressure(p, depth[i], e[PpUncal][i], mw[i]);
    if depth[i] <= p.prf {
      OneTimes(e[DivFactor][i], e[DTN][i], e[DTSH][i]);
    }
  }

  lemma OneTimes(f: real, d: real, x: real)
    requires f == 1.0 && x == f * d
    ensures x == d
  {
  }

  /**
   * Fracture pressure is built on the uncalibrated pore pressure:
   * `Pf = Pp_Uncal + v / (1 - v) * (GSV - Pp_Uncal)` with `v = 0.0645 * ln(Depth) - 0.067`.
   */
  lemma FractureFromUncalibrated(p: Params, m: Transcendentals, depth: seq<real>, dtc: seq<real>, mw: seq<real>, e: map<Column, seq<real>>, i: nat)
    requires Admissible(p, m, depth, dtc, mw) && e == Expected(p, m, depth, dtc, mw) && i < |depth|
    ensures
      && e[ParamV][i] == 0.0645 * m.ln(depth[i]) - 0.067
      && e[Pf][i] == e[PpUncal][i] + e[ParamV][i] / (1.0 - e[ParamV][i]) * (e[GSV][i] - e[PpUncal][i])
  {
    assert e[ParamV][i] == ParameterV(m, depth[i]);
    assert e[Pf] == FractureColumn(e[PpUncal], e[ParamV], e[GSV]);
    FractureAt(e[PpUncal], e[ParamV], e[GSV], e[Pf], i);
  }

  lemma FractureAt(pp: seq<real>, v: seq<real>, gsv: seq<real>, r: seq<real>, k: nat)
    requires |pp| == |v| == |gsv| && k < |v|
    requires forall i :: 0 <= i < |v| ==> v[i] != 1.0
    requires r == FractureColumn(pp, v, gsv)
    ensures r[k] == pp[k] + v[k] / (1.0 - v[k]) * (gsv[k] - pp[k])
  {
  }

  /**
   * Pf never sees the calibrated pore pressure: changing the mud weights changes `Pp_Cal`
   * from ms down but leaves the whole fracture-pressure column as it was.
   */
  lemma FractureIgnoresMudWeight(p: Params, m: Transcendentals, depth: seq<real>, dtc: seq<real>, mw1: seq<real>, mw2: seq<real>,
                                 e1: map<Column, seq<real>>, e2: map<Column, seq<real>>, i: nat)
    requires Admissible(p, m, depth, dtc, mw1) && e1 == Expected(p, m, depth, dtc, mw1)
    requires Admissible(p, m, depth, dtc, mw2) && e2 == Expected(p, m, depth, dtc, mw2)
    requires i < |depth| && depth[i] >= p.ms && mw1[i] != mw2[i]
    ensures e1[Pf] == e2[Pf]
    ensures e1[PpCal][i] != e2[PpCal][i]
  {
    PorePressureSwitches(p, m, depth, dtc, mw1, e1, i);
    PorePressureSwitches(p, m, depth, dtc, mw2, e2, i);
  }

  // ---------------------------------------------------------------------------------------
  // Column order of the results table.

  lemma {:induction false} ColumnsAfterPresent(columns: seq<Column>, k: nat)
    requires k <= |StageColumns|
    requires forall c :: c in StageColumns ==> c in columns
    ensures ColumnsAfter(columns, k) == columns
  {
    if k > 0 {
      ColumnsAfterPresent(columns, k - 1);
      assert StageColumns[k - 1] in StageColumns;
    }
  }

  lemma {:induction false} ColumnsAfterFresh(columns: seq<Column>, k: nat)
    requires k <= |StageColumns|
    requires forall c :: c in StageColumns ==> c !in columns
    ensures ColumnsAfter(columns, k) == columns + StageColumns[..k]
  {
    if k > 0 {
      ColumnsAfterFresh(columns, k - 1);
      var c := StageColumns[k - 1];
      assert c in StageColumns;
      assert c !in StageColumns[..k - 1] by {
        StageColumnsDistinct();
      }
      assert StageColumns[..k] == StageColumns[..k - 1] + [c];
    }
  }

  /** No column name occurs twice. */
  predicate Distinct(columns: seq<Column>)
  {
    forall i, j :: 0 <= i < j < |columns| ==> columns[i] != columns[j]
  }

  /** Assigning a column never duplicates a name. */
  lemma WithColumnDistinct(columns: seq<Column>, c: Column)
    requires Distinct(columns)
    ensures Distinct(WithColumn(columns, c))
  {
    if c !in columns {
      var s := columns + [c];
      forall i, j | 0 <= i < j < |s|
        ensures s[i] != s[j]
      {
        if j == |columns| {
          assert s[i] == columns[i];
        }
      }
    }
  }

  /** Any number of stages keeps the column names distinct. */
  lemma {:induction false} ColumnsAfterDistinct(columns: seq<Column>, k: nat)
    requires k <= |StageColumns| && Distinct(columns)
    ensures Distinct(ColumnsAfter(columns, k))
  {
    if k > 0 {
      ColumnsAfterDistinct(columns, k - 1);
      WithColumnDistinct(ColumnsAfter(columns, k - 1), StageColumns[k - 1]);
    }
  }

  lemma StageColumnsDistinct()
    ensures forall i, j :: 0 <= i < j < |StageColumns| ==> StageColumns[i] != StageColumns[j]
  {
  }

  /** A first run appends the fourteen stage columns after Depth, DTC and MW, in stage order;
   *  a second run finds them all present and leaves the order as it was. */
  lemma ColumnOrder()
    ensures ColumnsAfter(InputColumns, |StageColumns|) == InputColumns + StageColumns
    ensures ColumnsAfter(InputColumns + StageColumns, |StageColumns|) == InputColumns + StageColumns
  {
    ColumnsAfterFresh(InputColumns, |StageColumns|);
    assert StageColumns[..|StageColumns|] == StageColumns;
    ColumnsAfterPresent(InputColumns + StageColumns, |StageColumns|);
  }

  // ---------------------------------------------------------------------------------------
  // The analysis object.

  /** One row of the input sheet: its first three columns. */
  datatype SheetRow = SheetRow(depth: real, dtc: real, mw: real)

  /** `run_analysis` reads `ratios[0]` of an empty table and raises IndexError. */
  datatype AnalysisError = IndexError

  /**
   * `DivergenceAnalysis`: the parameters and the three input columns are fixed at construction;
   * `results` is the DataFrame the stages extend, `columns` its column order.
   */
  class DivergenceAnalysis {
    const params: Params
    const z: real
    const math: Transcendentals
    const depth: seq<real>
    const dtc: seq<real>
    const mw: seq<real>
    var columns: seq<Column>
    var results: map<Column, seq<real>>

    /** The frame is well formed: one column per name, every column one value per input row,
     *  and the input columns as read. */
    ghost predicate Valid()
      reads this
    {
      && z == params.Z()
      && |dtc| == |depth| && |mw| == |depth|
      && (forall c :: c in results <==> c in columns)
      && (forall c :: c in results ==> |results[c]| == |depth|)
      && Depth in results && DTC in results && MW in results
      && results[Depth] == depth && results[DTC] == dtc && results[MW] == mw
    }

    /** Reads the sheet's first three columns as Depth, DTC and MW. */
    constructor(sheet: seq<SheetRow>, math: Transcendentals, params: Params := Defaults)
      ensures Valid()
      ensures this.params == params && this.math == math && z == params.ta + params.rkb
      ensures |depth| == |sheet|
      ensures forall i :: 0 <= i < |sheet| ==> depth[i] == sheet[i].depth && dtc[i] == sheet[i].dtc && mw[i] == sheet[i].mw
      ensures columns == InputColumns
      ensures results == map[Depth := depth, DTC := dtc, MW := mw]
    {
      this.params := params;
      this.z := params.ta + params.rkb;
      this.math := math;
      var d := seq(|sheet|, i requires 0 <= i < |sheet| => sheet[i].depth);
      var t := seq(|sheet|, i requires 0 <= i < |sheet| => sheet[i].dtc);
      var w := seq(|sheet|, i requires 0 <= i < |sheet| => sheet[i].mw);
      depth, dtc, mw := d, t, w;
      columns := InputColumns;
      results := map[Depth := d, DTC := t, MW := w];
    }

    /** Assigns one column: its values replace the old ones, a new name goes to the end. */
    method SetColumn(c: Column, values: seq<real>)
      requires Valid() && c !in InputColumns && |values| == |depth|
      modifies this
      ensures Valid()
      ensures results == old(results)[c := values]
      ensures columns == WithColumn(old(columns), c)
    {
      results := results[c := values];
      columns := WithColumn(columns, c);
    }

    /** `Vp = 304878.05 / DTC`. */
    method CalculateVp()
      requires Valid() && forall i :: 0 <= i < |dtc| ==> dtc[i] > 0.0
      modifies this
      ensures Valid()
      ensures results == old(results)[Vp := VpColumn(dtc)]
      ensures columns == WithColumn(old(columns), Vp)
    {
      SetColumn(Vp, VpColumn(results[DTC]));
    }

    /** `Rho_Gardner = 0.31 * Vp ** 0.25`. */
    method CalculateGardnerDensity()
      requires Valid() && Vp in results && math.Sound()
      modifies this
      ensures Valid()
      ensures results == old(results)[RhoGardner := GardnerColumn(math, old(results)[Vp])]
      ensures columns == WithColumn(old(columns), RhoGardner)
    {
      SetColumn(RhoGardner, GardnerColumn(math, results[Vp]));
    }

    /** `Rho_Trougott = po + k * max(Depth - z, 0) ** c`. */
    method CalculateTrougottDensity()
      requires Valid() && math.Sound()
      modifies this
      ensures Valid()
      ensures results == old(results)[RhoTrougott := TroughtonColumn(params, math, depth)]
      ensures columns == WithColumn(old(columns), RhoTrougott)
    {
      SetColumn(RhoTrougott, TroughtonColumn(params, math, results[Depth]));
    }

    /** `SV` and then `GSV = SV / (Depth * 1.422)`. */
    method CalculateOverburden()
      requires Valid() && math.Sound() && params.WellDefined()
      requires forall i :: 0 <= i < |depth| ==> depth[i] > 0.0
      modifies this
      ensures Valid()
      ensures results == old(results)[SV := OverburdenColumn(params, math, depth)]
                                     [GSV := GradientColumn(OverburdenColumn(params, math, depth), depth)]
      ensures columns == WithColumn(WithColumn(old(columns), SV), GSV)
    {
      var sv := OverburdenColumn(params, math, results[Depth]);
      SetColumn(SV, sv);
      SetColumn(GSV, GradientColumn(sv, results[Depth]));
    }

    /** `DTC_Prom` by the forward moving-average loop, then the Athy trend `DTN`. */
    method CalculateTrends()
      requires Valid() && math.Sound() && params.WellDefined()
      modifies this
      ensures Valid()
      ensures results == old(results)[DTCProm := ForwardMeanColumn(dtc)][DTN := NormalTrendColumn(params, math, depth)]
      ensures columns == WithColumn(WithColumn(old(columns), DTCProm), DTN)
    {
      var prom := ForwardMovingAverage(results[DTC]);
      assert prom == ForwardMeanColumn(dtc);
      SetColumn(DTCProm, prom);
      SetColumn(DTN, NormalTrendColumn(params, math, results[Depth]));
    }

    /**
     * The ratchet loop over `DTC_Prom / DTN`, then `Div_Factor` and `DTSH`. An empty table fails
     * at `ratios[0]` before any column is assigned.
     */
    method CalculateDivergence() returns (ok: bool)
      requires Valid() && DTCProm in results && DTN in results
      requires forall i :: 0 <= i < |depth| ==> results[DTN][i] != 0.0
      modifies this
      ensures Valid()
      ensures ok <==> |depth| > 0
      ensures !ok ==> results == old(results) && columns == old(columns)
      ensures ok ==>
        var divDt := RatchetColumn(RatioColumn(old(results)[DTCProm], old(results)[DTN]));
        var factor := FactorColumn(params, depth, divDt);
        && results == old(results)[DivDTRatio := divDt][DivFactor := factor][DTSH := ShaleColumn(factor, old(results)[DTN])]
        && columns == WithColumn(WithColumn(WithColumn(old(columns), DivDTRatio), DivFactor), DTSH)
    {
      var prom, dtn := results[DTCProm], results[DTN];
      var ratios := RatioColumn(prom, dtn);
      if |ratios| == 0 {
        return false;
      }
      var divDt := Ratchet(ratios);
      assert divDt == RatchetColumn(ratios);
      SetColumn(DivDTRatio, divDt);
      var factor := FactorColumn(params, results[Depth], divDt);
      SetColumn(DivFactor, factor);
      SetColumn(DTSH, ShaleColumn(factor, dtn));
      ok := true;
    }

    /** Eaton's `Pp_Uncal`, then `Pp_Cal`: the Eaton value above ms, `MW - 0.03` from ms down. */
    method CalculatePorePressure()
      requires Valid() && math.Sound() && GSV in results && DTN in results && DTSH in results
      requires forall i :: 0 <= i < |depth| ==> results[DTSH][i] != 0.0
      modifies this
      ensures Valid()
      ensures
        var ppUncal := PoreColumn(params, math, old(results)[GSV], old(results)[DTN], old(results)[DTSH]);
        results == old(results)[PpUncal := ppUncal][PpCal := CalibratedColumn(params, depth, ppUncal, mw)]
      ensures columns == WithColumn(WithColumn(old(columns), PpUncal), PpCal)
    {
      var ppUncal := PoreColumn(params, math, results[GSV], results[DTN], results[DTSH]);
      SetColumn(PpUncal, ppUncal);
      SetColumn(PpCal, CalibratedColumn(params, results[Depth], ppUncal, results[MW]));
    }

    /** `Param_V` and then `Pf`, built on the uncalibrated pore pressure. */
    method CalculateFracturePressure()
      requires Valid() && PpUncal in results && GSV in results
      requires forall i :: 0 <= i < |depth| ==> ParameterV(math, depth[i]) != 1.0
      modifies this
      ensures Valid()
      ensures results == old(results)[ParamV := ParamVColumn(math, depth)]
                                     [Pf := FractureColumn(old(results)[PpUncal], ParamVColumn(math, depth), old(results)[GSV])]
      ensures columns == WithColumn(WithColumn(old(columns), ParamV), Pf)
    {
      var v := ParamVColumn(math, results[Depth]);
      SetColumn(ParamV, v);
      SetColumn(Pf, FractureColumn(results[PpUncal], v, results[GSV]));
    }

    /**
     * `run_analysis`: the eight stages in order, returning the results table. On a non-empty
     * table that is `Expected` of the inputs, whatever earlier run the object saw, with the stage
     * columns assigned in stage order. An empty table fails at the divergence stage, after the
     * first four stages have assigned their (empty) columns.
     */
    method RunAnalysis() returns (r: Result<map<Column, seq<real>>, AnalysisError>)
      requires Valid() && Admissible(params, math, depth, dtc, mw)
      modifies this
      ensures Valid()
      ensures |depth| > 0 ==> r == Success(results) && results == Expected(params, math, depth, dtc, mw)
      ensures |depth| > 0 ==> columns == ColumnsAfter(old(columns), 14)
      ensures |depth| == 0 ==> r == Failure(IndexError) && columns == ColumnsAfter(old(columns), 7)
    {
      ghost var r0, c0 := results, columns;
      CalculateVp();
      ghost var r1, c1 := results, columns;
      CalculateGardnerDensity();
      ghost var r2, c2 := results, columns;
      CalculateTrougottDensity();
      ghost var r3, c3 := results, columns;
      CalculateOverburden();
      ghost var r4, c4 := results, columns;
      CalculateTrends();
      ghost var r5, c5 := results, columns;
      EarlyColumns(c0, c1, c2, c3, c4, c5);
      EarlyTable(params, math, depth, dtc, mw, r0, r1, r2, r3, r4, r5);
      var ok := CalculateDivergence();
      if !ok {
        return Failure(IndexError);
      }
      ghost var r6, c6 := results, columns;
      assert results[DTSH] == ShaleTrend(params, math, depth, dtc);
      ShaleTrendPositive(params, math, depth, dtc, mw);
      CalculatePorePressure();
      ghost var r7, c7 := results, columns;
      CalculateFracturePressure();
      PipelineColumns(c0, c5, c6, c7, columns);
      LateTable(params, math, depth, dtc, mw, r5, r6, r7, results);
      SameTable(params, math, depth, dtc, mw, results);
      r := Success(results);
    }
  }

  /** The column order after the first five stages. */
  lemma EarlyColumns(c0: seq<Column>, c1: seq<Column>, c2: seq<Column>, c3: seq<Column>, c4: seq<Column>, c5: seq<Column>)
    requires c1 == WithColumn(c0, Vp) && c2 == WithColumn(c1, RhoGardner) && c3 == WithColumn(c2, RhoTrougott)
    requires c4 == WithColumn(WithColumn(c3, SV), GSV) && c5 == WithColumn(WithColumn(c4, DTCProm), DTN)
    ensures c5 == ColumnsAfter(c0, 7)
  {
    assert ColumnsAfter(c0, 1) == c1;
    assert ColumnsAfter(c0, 2) == c2;
    assert ColumnsAfter(c0, 3) == c3;
    assert ColumnsAfter(c0, 4) == WithColumn(c3, SV);
    assert ColumnsAfter(c0, 5) == c4;
    assert ColumnsAfter(c0, 6) == WithColumn(c4, DTCProm);
  }

  /** The column order after all eight stages. */
  lemma PipelineColumns(c0: seq<Column>, c5: seq<Column>, c6: seq<Column>, c7: seq<Column>, c8: seq<Column>)
    requires c5 == ColumnsAfter(c0, 7)
    requires c6 == WithColumn(WithColumn(WithColumn(c5, DivDTRatio), DivFactor), DTSH)
    requires c7 == WithColumn(WithColumn(c6, PpUncal), PpCal) && c8 == WithColumn(WithColumn(c7, ParamV), Pf)
    ensures c8 == ColumnsAfter(c0, 14)
  {
    assert ColumnsAfter(c0, 8) == WithColumn(c5, DivDTRatio);
    assert ColumnsAfter(c0, 9) == WithColumn(ColumnsAfter(c0, 8), DivFactor);
    assert ColumnsAfter(c0, 10) == c6;
    assert ColumnsAfter(c0, 11) == WithColumn(c6, PpUncal);
    assert ColumnsAfter(c0, 12) == c7;
    assert ColumnsAfter(c0, 13) == WithColumn(c7, ParamV);
  }

  /** The results after the first five stages hold the run's first seven derived columns. */
  lemma EarlyTable(p: Params, m: Transcendentals, depth: seq<real>, dtc: seq<real>, mw: seq<real>,
                   r0: map<Column, seq<real>>, r1: map<Column, seq<real>>, r2: map<Column, seq<real>>,
                   r3: map<Column, seq<real>>, r4: map<Column, seq<real>>, r5: map<Column, seq<real>>)
    requires Admissible(p, m, depth, dtc, mw)
    requires Depth in r0 && DTC in r0 && MW in r0 && r0[Depth] == depth && r0[DTC] == dtc && r0[MW] == mw
    requires r1 == r0[Vp := VpColumn(dtc)]
    requires r2 == r1[RhoGardner := GardnerColumn(m, r1[Vp])]
    requires r3 == r2[RhoTrougott := TroughtonColumn(p, m, depth)]
    requires r4 == r3[SV := OverburdenColumn(p, m, depth)][GSV := GradientColumn(OverburdenColumn(p, m, depth), depth)]
    requires r5 == r4[DTCProm := ForwardMeanColumn(dtc)][DTN := NormalTrendColumn(p, m, depth)]
    ensures r5.Keys == r0.Keys + {Vp, RhoGardner, RhoTrougott, SV, GSV, DTCProm, DTN}
    ensures r5[Depth] == depth && r5[DTC] == dtc && r5[MW] == mw
    ensures r5[Vp] == VpColumn(dtc) && r5[RhoGardner] == GardnerColumn(m, VpColumn(dtc))
    ensures r5[RhoTrougott] == TroughtonColumn(p, m, depth) && r5[SV] == OverburdenColumn(p, m, depth)
    ensures r5[GSV] == RunGradient(p, m, depth, dtc, mw)
    ensures r5[DTCProm] == ForwardMeanColumn(dtc) && r5[DTN] == NormalTrendColumn(p, m, depth)
  {
  }

  /** The last three stages complete the table. */
  lemma LateTable(p: Params, m: Transcendentals, depth: seq<real>, dtc: seq<real>, mw: seq<real>,
                  r5: map<Column, seq<real>>, r6: map<Column, seq<real>>, r7: map<Column, seq<real>>, r8: map<Column, seq<real>>)
    requires Admissible(p, m, depth, dtc, mw)
    requires Depth in r5 && DTC in r5 && MW in r5 && r5[Depth] == depth && r5[DTC] == dtc && r5[MW] == mw
    requires Vp in r5 && RhoGardner in r5 && RhoTrougott in r5 && SV in r5 && GSV in r5 && DTCProm in r5 && DTN in r5
    requires r5[Vp] == VpColumn(dtc) && r5[RhoGardner] == GardnerColumn(m, VpColumn(dtc))
    requires r5[RhoTrougott] == TroughtonColumn(p, m, depth) && r5[SV] == OverburdenColumn(p, m, depth)
    requires r5[GSV] == RunGradient(p, m, depth, dtc, mw)
    requires r5[DTCProm] == ForwardMeanColumn(dtc) && r5[DTN] == NormalTrendColumn(p, m, depth)
    requires
      var divDt := RatchetColumn(RatioColumn(r5[DTCProm], r5[DTN]));
      var factor := FactorColumn(p, depth, divDt);
      r6 == r5[DivDTRatio := divDt][DivFactor := factor][DTSH := ShaleColumn(factor, r5[DTN])]
    requires forall i :: 0 <= i < |depth| ==> r6[DTSH][i] != 0.0
    requires
      var ppUncal := PoreColumn(p, m, r6[GSV], r6[DTN], r6[DTSH]);
      r7 == r6[PpUncal := ppUncal][PpCal := CalibratedColumn(p, depth, ppUncal, mw)]
    requires r8 == r7[ParamV := ParamVColumn(m, depth)][Pf := FractureColumn(r7[PpUncal], ParamVColumn(m, depth), r7[GSV])]
    ensures r8.Keys == {Depth, DTC, MW, Vp, RhoGardner, RhoTrougott, SV, GSV, DTCProm, DTN,
                        DivDTRatio, DivFactor, DTSH, PpUncal, PpCal, ParamV, Pf}
    ensures r8[Depth] == depth && r8[DTC] == dtc && r8[MW] == mw
    ensures r8[Vp] == VpColumn(dtc) && r8[RhoGardner] == GardnerColumn(m, VpColumn(dtc))
    ensures r8[RhoTrougott] == TroughtonColumn(p, m, depth) && r8[SV] == OverburdenColumn(p, m, depth)
    ensures r8[GSV] == RunGradient(p, m, depth, dtc, mw)
    ensures r8[DTCProm] == ForwardMeanColumn(dtc) && r8[DTN] == NormalTrendColumn(p, m, depth)
    ensures r8[DivDTRatio] == RunRatchet(p, m, depth, dtc) && r8[DivFactor] == RunFactor(p, m, depth, dtc)
    ensures r8[DTSH] == ShaleTrend(p, m, depth, dtc)
    ensures r8[PpUncal] == RunPorePressure(p, m, depth, dtc, mw)
    ensures r8[PpCal] == CalibratedColumn(p, depth, RunPorePressure(p, m, depth, dtc, mw), mw)
    ensures r8[ParamV] == ParamVColumn(m, depth) && r8[Pf] == RunFracture(p, m, depth, dtc, mw)
  {
    AllColumns(r8);
    assert r6[DTSH] == ShaleTrend(p, m, depth, dtc);
    assert r7[PpUncal] == RunPorePressure(p, m, depth, dtc, mw);
  }

  /** A table holding every column name has exactly the seventeen names as keys. */
  lemma AllColumns(r: map<Column, seq<real>>)
    requires Depth in r && DTC in r && MW in r && Vp in r && RhoGardner in r && RhoTrougott in r
    requires SV in r && GSV in r && DTCProm in r && DTN in r && DivDTRatio in r && DivFactor in r
    requires DTSH in r && PpUncal in r && PpCal in r && ParamV in r && Pf in r
    ensures r.Keys == {Depth, DTC, MW, Vp, RhoGardner, RhoTrougott, SV, GSV, DTCProm, DTN,
                       DivDTRatio, DivFactor, DTSH, PpUncal, PpCal, ParamV, Pf}
  {
    forall c | c in r.Keys
      ensures c in {Depth, DTC, MW, Vp, RhoGardner, RhoTrougott, SV, GSV, DTCProm, DTN,
                    DivDTRatio, DivFactor, DTSH, PpUncal, PpCal, ParamV, Pf}
    {
      match c
      case Depth => case DTC => case MW => case Vp => case RhoGardner => case RhoTrougott =>
      case SV => case GSV => case DTCProm => case DTN => case DivDTRatio => case DivFactor =>
      case DTSH => case PpUncal => case PpCal => case ParamV => case Pf =>
    }
  }

  /** A table whose every column is the one a run computes is the table of that run. */
  lemma SameTable(p: Params, m: Transcendentals, depth: seq<real>, dtc: seq<real>, mw: seq<real>, r: map<Column, seq<real>>)
    requires Admissible(p, m, depth, dtc, mw)
    requires r.Keys == {Depth, DTC, MW, Vp, RhoGardner, RhoTrougott, SV, GSV, DTCProm, DTN,
                        DivDTRatio, DivFactor, DTSH, PpUncal, PpCal, ParamV, Pf}
    requires r[Depth] == depth && r[DTC] == dtc && r[MW] == mw
    requires r[Vp] == VpColumn(dtc) && r[RhoGardner] == GardnerColumn(m, VpColumn(dtc))
    requires r[RhoTrougott] == TroughtonColumn(p, m, depth) && r[SV] == OverburdenColumn(p, m, depth)
    requires r[GSV] == RunGradient(p, m, depth, dtc, mw)
    requires r[DTCProm] == ForwardMeanColumn(dtc) && r[DTN] == NormalTrendColumn(p, m, depth)
    requires r[DivDTRatio] == RunRatchet(p, m, depth, dtc) && r[DivFactor] == RunFactor(p, m, depth, dtc)
    requires r[DTSH] == ShaleTrend(p, m, depth, dtc)
    requires r[PpUncal] == RunPorePressure(p, m, depth, dtc, mw)
    requires r[PpCal] == CalibratedColumn(p, depth, RunPorePressure(p, m, depth, dtc, mw), mw)
    requires r[ParamV] == ParamVColumn(m, depth) && r[Pf] == RunFracture(p, m, depth, dtc, mw)
    ensures r == Expected(p, m, depth, dtc, mw)
  {
  }
}
