/**
 * The per-row formulas of the divergence method (Dia_2/divergence_model.py): velocity,
 * Gardner and Troughton densities, overburden, the Athy normal-compaction trend, the
 * divergence factor, Eaton pore pressure with its depth calibration, and fracture pressure.
 * Each is what one vectorised pandas expression computes for a single row.
 */
module Geopressure {
  import opened Transcendental

  /** The constructor's keyword parameters of `DivergenceAnalysis`. */
  datatype Params = Params(
    rkb: real,       // rotary-kelly-bushing elevation
    ta: real,        // water depth
    po: real,        // Troughton surface density
    k: real,         // Troughton coefficient
    c: real,         // Troughton exponent
    dtco: real,      // Athy surface transit time
    c1: real,        // Athy compaction coefficient
    prf: real,       // depth below which the divergence factor applies
    ppn: real,       // normal pore-pressure gradient
    expEaton: real,  // Eaton exponent
    ms: real)        // depth from which pore pressure is calibrated to mud weight
  {
    /** The reference depth `z = ta + rkb`. */
    function Z(): real
    {
      ta + rkb
    }

    /**
     * What the formulas need to be defined: the Athy trend must be non-zero (it divides the
     * smoothed transit time) and the overburden integral divides by `c + 1`.
     */
    predicate WellDefined()
    {
      dtco > 0.0 && c != -1.0
    }
  }

  /** The keyword defaults of the constructor. */
  const Defaults: Params := Params(30.2, 3014.0, 1.95, 0.01, 0.5, 180.0, -0.0004, 3329.0, 1.03, 0.5, 1784.0)

  const VelocityConstant: real := 304878.05
  const GardnerCoefficient: real := 0.31
  const GardnerExponent: real := 0.25
  const StressConversion: real := 0.145
  const Gravity: real := 9.81
  const GradientConversion: real := 1.422
  const MudWeightOffset: real := 0.03
  const ParamVSlope: real := 0.0645
  const ParamVIntercept: real := 0.067

  /** `Vp = 304878.05 / DTC`: velocity and transit time are inversely proportional. */
  function Velocity(dtc: real): (vp: real)
    requires dtc > 0.0
    ensures vp > 0.0
    ensures vp * dtc == VelocityConstant
  {
    VelocityConstant / dtc
  }

  /** `Rho_Gardner = 0.31 * Vp ** 0.25`, non-negative for a non-negative velocity. */
  function GardnerDensity(m: Transcendentals, vp: real): (rho: real)
    requires m.Sound()
    ensures vp >= 0.0 ==> rho >= 0.0
  {
    GardnerCoefficient * m.pow(vp, GardnerExponent)
  }

  /** The Troughton base `np.where(Depth - z < 0, 0, Depth - z)`, i.e. `max(Depth - z, 0)`. */
  function TroughtonBase(p: Params, depth: real): (b: real)
    ensures b >= 0.0
    ensures b >= depth - p.Z()
    ensures b == 0.0 || b == depth - p.Z()
  {
    var term := depth - p.Z();
    if term < 0.0 then 0.0 else term
  }

  /**
   * `Rho_Trougott = po + k * base ** c`. Above the reference depth the compaction term
   * vanishes, and a non-negative k never takes the density below the surface term.
   */
  function TroughtonDensity(p: Params, m: Transcendentals, depth: real): (rho: real)
    requires m.Sound()
    ensures p.k >= 0.0 ==> rho >= p.po
    ensures depth <= p.Z() && p.c > 0.0 ==> rho == p.po
  {
    p.po + p.k * m.pow(TroughtonBase(p, depth), p.c)
  }

  /**
   * `SV = 0.145 * (po * 9.81 * Depth + k * 9.81 * Depth ** (c + 1) / (c + 1))`: the closed-form
   * integral of the Troughton law from the surface, without the clamp at z.
   */
  function Overburden(p: Params, m: Transcendentals, depth: real): (sv: real)
    requires m.Sound() && p.WellDefined()
    ensures p.po >= 0.0 && p.k >= 0.0 && p.c > -1.0 && depth >= 0.0 ==> sv >= 0.0
  {
    var surface := p.po * Gravity * depth;
    var compaction := p.k * Gravity * m.pow(depth, p.c + 1.0) / (p.c + 1.0);
    assert p.k >= 0.0 && p.c > -1.0 && depth >= 0.0 ==> compaction >= 0.0 by {
      if p.k >= 0.0 && p.c > -1.0 && depth >= 0.0 {
        var w := m.pow(depth, p.c + 1.0);
        assert w >= 0.0;
        MulNonNegative(p.k * Gravity, w);
        DivNonNegative(p.k * Gravity * w, p.c + 1.0);
      }
    }
    StressConversion * (surface + compaction)
  }

  /** `GSV = SV / (Depth * 1.422)`: the overburden stress as a gradient. */
  function OverburdenGradient(sv: real, depth: real): (gsv: real)
    requires depth > 0.0
    ensures gsv * (depth * GradientConversion) == sv
  {
    sv / (depth * GradientConversion)
  }

  /** `DTN = dtco * exp(c1 * (Depth - z))`: the Athy trend is positive. */
  function NormalTrend(p: Params, m: Transcendentals, depth: real): (dtn: real)
    requires m.Sound() && p.WellDefined()
    ensures dtn > 0.0
  {
    p.dtco * m.exp(p.c1 * (depth - p.Z()))
  }

  /** `np.where(Depth > prf, Div_DT_Ratio, 1.0)`: a sharp switch at prf. */
  function DivergenceFactor(p: Params, depth: real, divDt: real): (f: real)
    ensures depth <= p.prf ==> f == 1.0
    ensures depth > p.prf ==> f == divDt
  {
    if depth > p.prf then divDt else 1.0
  }

  /**
   * Eaton: `Pp_Uncal = GSV - (GSV - ppn) * (DTN / DTSH) ** exp_eaton`. Where the shale trend
   * equals the normal trend this is the normal gradient ppn; it never exceeds an overburden
   * gradient that is at least ppn.
   */
  function PorePressure(p: Params, m: Transcendentals, gsv: real, dtn: real, dtsh: real): (pp: real)
    requires m.Sound() && dtsh != 0.0
    ensures dtn == dtsh ==> pp == p.ppn
    ensures dtn / dtsh >= 0.0 && gsv >= p.ppn ==> pp <= gsv
  {
    var w := m.pow(dtn / dtsh, p.expEaton);
    assert dtn == dtsh ==> w == 1.0 by {
      if dtn == dtsh {
        assert dtn / dtsh == 1.0;
      }
    }
    assert dtn / dtsh >= 0.0 && gsv >= p.ppn ==> (gsv - p.ppn) * w >= 0.0;
    gsv - (gsv - p.ppn) * w
  }

  /** `np.where(Depth < ms, Pp_Uncal, MW - 0.03)`: no blending across ms. */
  function CalibratedPorePressure(p: Params, depth: real, ppUncal: real, mw: real): (pp: real)
    ensures depth < p.ms ==> pp == ppUncal
    ensures depth >= p.ms ==> pp == mw - MudWeightOffset
  {
    if depth < p.ms then ppUncal else mw - MudWeightOffset
  }

  /** `v = 0.0645 * ln(Depth) - 0.067`. */
  function ParameterV(m: Transcendentals, depth: real): real
  {
    ParamVSlope * m.ln(depth) - ParamVIntercept
  }

  /**
   * `Pf = Pp + v / (1 - v) * (GSV - Pp)`: Pf divides the span from Pp to GSV in the ratio
   * v : (1 - v); with 0 <= v <= 1/2 it lies between them.
   */
  function FracturePressure(pp: real, v: real, gsv: real): (pf: real)
    requires v != 1.0
    ensures (1.0 - v) * (pf - pp) == v * (gsv - pp)
    ensures 0.0 <= v <= 0.5 && pp <= gsv ==> pp <= pf <= gsv
  {
    var ratio := v / (1.0 - v);
    assert ratio * (1.0 - v) == v;
    assert 0.0 <= v <= 0.5 && pp <= gsv ==> 0.0 <= ratio * (gsv - pp) <= gsv - pp by {
      if 0.0 <= v <= 0.5 && pp <= gsv {
        ParamVFraction(v);
        MulNonNegative(ratio, gsv - pp);
        MulAtMost(ratio, 1.0, gsv - pp);
      }
    }
    pp + ratio * (gsv - pp)
  }

  /** For 0 <= v <= 1/2 the factor v / (1 - v) lies in [0, 1]. */
  lemma ParamVFraction(v: real)
    requires 0.0 <= v <= 0.5
    ensures 0.0 <= v / (1.0 - v) <= 1.0
  {
    var ratio := v / (1.0 - v);
    DivNonNegative(v, 1.0 - v);
    assert ratio * (1.0 - v) == v;
    if ratio > 1.0 {
      MulStrict(ratio, 1.0, 1.0 - v);
      assert false;
    }
  }

  lemma MulNonNegative(a: real, b: real)
    requires a >= 0.0 && b >= 0.0
    ensures a * b >= 0.0
  {
  }

  lemma DivNonNegative(a: real, b: real)
    requires a >= 0.0 && b > 0.0
    ensures a / b >= 0.0
  {
    assert (a / b) * b == a;
  }

  lemma MulStrict(a: real, b: real, w: real)
    requires a > b && w > 0.0
    ensures a * w > b * w
  {
  }

  lemma MulAtMost(a: real, b: real, w: real)
    requires a <= b && w >= 0.0
    ensures a * w <= b * w
  {
  }
}
