/** The three numbers screening takes from a report, in rounded double arithmetic. */
module ReportMetrics {
  import opened Basics
  import opened Floats
  import opened Json
  import opened Outcome
  import opened OutcomeProperties
  import Anomaly

  /** A finite result is rounded; infinities and NaN are as they come. */
  function Rounded(fl: Floating, x: F64): F64 {
    if x.Finite? then fl.round(x.r) else x
  }

  function Plus(fl: Floating, x: F64, y: F64): F64 {
    Rounded(fl, Add(x, y))
  }

  /** Division; the sign of a zero divisor is taken as positive. */
  function Over(fl: Floating, x: F64, y: F64): F64 {
    match (x, y)
    case (Finite(a), Finite(b)) =>
      if b == 0.0 then (if a == 0.0 then NaN else Infinite(a < 0.0)) else fl.round(a / b)
    case (Infinite(n), Finite(b)) => Infinite(n != (b < 0.0))
    case (Finite(_), Infinite(_)) => Finite(0.0)
    case _ => NaN
  }

  /** `yield_rate`. */
  function YieldRate(fl: Floating, y: Yield): F64 {
    if y.started == 0 then Finite(0.0) else Over(fl, FromU64(fl, y.good), FromU64(fl, y.started))
  }

  /** The sum of a list, added up from the left. */
  function SumFrom(fl: Floating, acc: F64, xs: seq<F64>): F64
    decreases xs
  {
    if xs == [] then acc else SumFrom(fl, Plus(fl, acc, xs[0]), xs[1..])
  }

  function Mean(fl: Floating, xs: seq<F64>): Option<F64> {
    if xs == [] then None else Some(Over(fl, SumFrom(fl, Finite(0.0), xs), fl.round(|xs| as real)))
  }

  function AbsDeviation(fl: Floating, g: Geometry): F64 {
    Abs(Plus(fl, g.measured, Neg(g.designed)))
  }

  /** `mean_abs_geometry_deviation_um`. */
  function GeometryDeviation(fl: Floating, gs: seq<Geometry>): Option<F64> {
    Mean(fl, Map(g => AbsDeviation(fl, g), gs))
  }

  /** The ratios of the entries whose designed value is not zero. */
  function Ratios(fl: Floating, es: seq<Electrical>): seq<F64> {
    if es == [] then [] else
    (if es[0].designed != Finite(0.0) then [Over(fl, es[0].measured, es[0].designed)] else []) + Ratios(fl, es[1..])
  }

  /** `mean_electrical_ratio`. */
  function ElectricalRatio(fl: Floating, es: seq<Electrical>): Option<F64> {
    Mean(fl, Ratios(fl, es))
  }

  function MetricsOf(fl: Floating, r: Report): Anomaly.Metrics {
    Anomaly.Metrics(YieldRate(fl, r.outcome), GeometryDeviation(fl, r.geometry), ElectricalRatio(fl, r.electrical))
  }

  lemma OverIsF64(fl: Floating, x: F64, y: F64)
    requires Lawful(fl)
    ensures IsF64(fl, Over(fl, x, y)) && IsF64(fl, Finite(0.0))
  {
    assert IntegerIsDouble(fl, 0);
  }

  /** Every metric is a value a double can have. */
  lemma MetricsTyped(fl: Floating, r: Report)
    requires Lawful(fl)
    ensures var m := MetricsOf(fl, r);
            && IsF64(fl, m.yieldRate)
            && (m.geometry.Some? ==> IsF64(fl, m.geometry.value))
            && (m.electrical.Some? ==> IsF64(fl, m.electrical.value))
  {
    OverIsF64(fl, FromU64(fl, r.outcome.good), FromU64(fl, r.outcome.started));
    var gs, es := Map(g => AbsDeviation(fl, g), r.geometry), Ratios(fl, r.electrical);
    OverIsF64(fl, SumFrom(fl, Finite(0.0), gs), fl.round(|gs| as real));
    OverIsF64(fl, SumFrom(fl, Finite(0.0), es), fl.round(|es| as real));
  }
}
