/** What screening reports, in terms of each metric's own history. */
module Screening {
  import opened Basics
  import opened Floats
  import opened Json
  import opened Schema
  import opened Outcome
  import opened OutcomeProperties
  import opened Signing
  import opened Anomaly
  import opened ReportMetrics
  import opened Intake
  import opened IntakeProperties
  import opened WireForms
  import Utf8

  // ----- the median -----

  /** The value of rank `k`, from 0: at most `k` values are below it and enough are not above it. */
  predicate Ranked(values: seq<real>, x: real, k: nat) {
    x in values && CountBelow(values, x) <= k < |values| - CountAbove(values, x)
  }

  lemma {:induction false} BelowOrAbove(values: seq<real>, x: real, y: real)
    requires x < y
    ensures CountBelow(values, y) + CountAbove(values, x) >= |values|
  {
    if values != [] {
      BelowOrAbove(values[1..], x, y);
    }
  }

  lemma RankedOnce(values: seq<real>, x: real, y: real, k: nat)
    requires Ranked(values, x, k) && Ranked(values, y, k)
    ensures x == y
  {
    if x < y {
      BelowOrAbove(values, x, y);
    } else if y < x {
      BelowOrAbove(values, y, x);
    }
  }

  lemma SortedIsRanked(values: seq<real>, k: nat)
    requires k < |values|
    ensures |Sort(values)| == |values| && Ranked(values, Sort(values)[k], k)
  {
    var s := Sort(values);
    SortIsSorted(values);
    assert |s| == |values| by {
      assert |multiset(s)| == |multiset(values)|;
    }
    CountsOfSort(values, s[k], s[k]);
    SortedCounts(s, s[k], s[k], k);
    assert s[k] in multiset(values);
  }

  /** The median is the middle value, or half way between the two in the middle. */
  lemma MedianRanks(values: seq<real>) returns (a: real, b: real)
    requires values != []
    ensures Ranked(values, a, (|values| - 1) / 2) && Ranked(values, b, |values| / 2)
    ensures Median(values) == (a + b) / 2.0
  {
    var n := |values|;
    SortedIsRanked(values, n / 2);
    SortedIsRanked(values, (n - 1) / 2);
    hide Sort, Ranked;
    a, b := Sort(values)[(n - 1) / 2], Sort(values)[n / 2];
  }

  // ----- one metric -----

  /** Is the value too far from the median of its history, and the history long enough? Infinities are
      always too far; a NaN is, exactly when the history is constant. */
  predicate Outlying(values: seq<real>, v: F64, threshold: F64, minHistory: nat) {
    && |values| >= minHistory
    && match threshold
       case Finite(t) =>
         (match v
          case Finite(x) => t < 0.0 || Anomaly.Abs(x - Median(values)) > t * (MAD_SCALE * Mad(values))
          case Infinite(_) => true
          case NaN => Mad(values) == 0.0)
       case Infinite(negative) => negative && (v.NaN? ==> Mad(values) == 0.0)
       case NaN => false
  }

  /** The signed score: the distance from the median in scaled deviations; against a constant history, none
      for its own value, and otherwise infinite with the sign of the side. */
  predicate IsScore(values: seq<real>, v: F64, z: F64) {
    var med, mad := Median(values), Mad(values);
    if mad == 0.0 then
      if v == Finite(med) then z == Finite(0.0)
      else z == Infinite(!(v == Infinite(false) || (v.Finite? && v.r > med)))
    else
      match v
      case Finite(x) => z.Finite? && z.r * (MAD_SCALE * mad) == x - med
      case Infinite(_) => z == v
      case NaN => z == NaN
  }

  lemma QuotientIs(d: real, k: real, z: real)
    requires k > 0.0
    ensures z == d / k <==> z * k == d
  {
    if z * k == d {
      assert (d / k) * k == z * k;
      assert (d / k - z) * k == 0.0;
    }
  }

  lemma ScoreExactly(values: seq<real>, v: F64, z: F64)
    ensures RobustZ(values, v) == z <==> IsScore(values, v, z)
  {
    MadNotNegative(values);
    hide Median, Mad;
    var mad := Mad(values);
    if mad > 0.0 && v.Finite? {
      var d, k := v.r - Median(values), MAD_SCALE * mad;
      assert RobustZ(values, v) == Finite(d / k);
      if z.Finite? {
        QuotientIs(d, k, z.r);
      }
      hide RobustZ;
    }
  }

  lemma FlagsExactly(values: seq<real>, v: F64, threshold: F64, minHistory: nat)
    ensures Flags(values, v, threshold, minHistory) <==> Outlying(values, v, threshold, minHistory)
  {
    MadNotNegative(values);
    if v.Finite? && threshold.Finite? {
      FlaggedExactly(values, v.r, threshold.r, minHistory);
    }
    hide Median, Mad;
  }

  // ----- one report -----

  /** Is there a value, and is it outlying? */
  predicate Stands(values: seq<real>, v: Option<F64>, threshold: F64, minHistory: nat) {
    v.Some? && Outlying(values, v.value, threshold, minHistory)
  }

  /** The findings of a report: a metric is reported, under its own name and with its signed score, exactly
      when it is outlying against its own history; each at most once, and nothing else. */
  lemma FindingsExactly(h: History, m: Metrics, threshold: F64, minHistory: nat, name: string, z: F64)
    ensures var fs := Findings(h, m, threshold, minHistory);
            (name, z) in fs <==>
              || (name == "yield_rate" && Stands(h.yieldRates, Some(m.yieldRate), threshold, minHistory)
                  && IsScore(h.yieldRates, m.yieldRate, z))
              || (name == "geometry_deviation_um" && Stands(h.geometry, m.geometry, threshold, minHistory)
                  && IsScore(h.geometry, m.geometry.value, z))
              || (name == "electrical_ratio" && Stands(h.electrical, m.electrical, threshold, minHistory)
                  && IsScore(h.electrical, m.electrical.value, z))
  {
    hide Outlying, IsScore, Flags, RobustZ;
    FindingExactly("yield_rate", h.yieldRates, Some(m.yieldRate), threshold, minHistory, name, z);
    FindingExactly("geometry_deviation_um", h.geometry, m.geometry, threshold, minHistory, name, z);
    FindingExactly("electrical_ratio", h.electrical, m.electrical, threshold, minHistory, name, z);
    hide Finding;
  }

  lemma FindingExactly(own: string, values: seq<real>, v: Option<F64>, threshold: F64, minHistory: nat, name: string, z: F64)
    ensures (name, z) in Finding(own, values, v, threshold, minHistory) <==>
              name == own && Stands(values, v, threshold, minHistory) && IsScore(values, v.value, z)
  {
    hide Outlying, IsScore, Flags, RobustZ;
    if v.Some? {
      FlagsExactly(values, v.value, threshold, minHistory);
      ScoreExactly(values, v.value, z);
    }
  }

  /** Is any metric outlying? */
  predicate AnyStands(h: History, m: Metrics, threshold: F64, minHistory: nat) {
    || Stands(h.yieldRates, Some(m.yieldRate), threshold, minHistory)
    || Stands(h.geometry, m.geometry, threshold, minHistory)
    || Stands(h.electrical, m.electrical, threshold, minHistory)
  }

  lemma FindingsNotEmptyExactly(h: History, m: Metrics, threshold: F64, minHistory: nat)
    ensures Findings(h, m, threshold, minHistory) != [] <==> AnyStands(h, m, threshold, minHistory)
    ensures |Findings(h, m, threshold, minHistory)|
            == (if Stands(h.yieldRates, Some(m.yieldRate), threshold, minHistory) then 1 else 0)
               + (if Stands(h.geometry, m.geometry, threshold, minHistory) then 1 else 0)
               + (if Stands(h.electrical, m.electrical, threshold, minHistory) then 1 else 0)
  {
    hide Outlying, Flags, RobustZ;
    FlagsExactly(h.yieldRates, m.yieldRate, threshold, minHistory);
    if m.geometry.Some? {
      FlagsExactly(h.geometry, m.geometry.value, threshold, minHistory);
    }
    if m.electrical.Some? {
      FlagsExactly(h.electrical, m.electrical.value, threshold, minHistory);
    }
  }

  // ----- one delivery -----

  lemma SigningKeepsMetrics(fl: Floating, r: Report, keyId: string, key: bytes)
    ensures MetricsOf(fl, Signed(fl, r, keyId, key)) == MetricsOf(fl, r)
  {
  }

  /** A signed, storable, screenable report is flagged exactly when one of its metrics is outlying against the
      history of that metric, and accepted otherwise; either way it arrives as it was signed. */
  lemma SignedDeliveryIsJudged(fl: Floating, cfg: Config, h: History, r: Report, keyId: string, key: bytes)
    requires Lawful(fl) && NumbersTyped(fl, r) && Storable(fl, r) && Screenable(r) && cfg.keyOf(keyId) == Some(key)
    ensures var signed := Signed(fl, r, keyId, key);
            var d := Decide(fl, cfg, h, Utf8.Encode(WriteReport(fl, signed)));
            d.report == Some(signed)
            && d.disposition == if AnyStands(h, MetricsOf(fl, r), cfg.threshold, cfg.minHistory) then Flagged else Accepted
  {
    SigningKeepsMetrics(fl, r, keyId, key);
    hide Lawful, NumbersTyped, Storable, WriteReport, Findings, MetricsOf, AnyStands, Decide, Screenable, Signed;
    SignedDeliveryIsScreened(fl, cfg, h, r, keyId, key);
    FindingsNotEmptyExactly(h, MetricsOf(fl, r), cfg.threshold, cfg.minHistory);
  }

  /** No minority of recorded values, however extreme, lets an outlier pass: if most of a metric's history lies
      in a range and the report's value lies beyond it by more than the slack, the delivery is flagged. */
  lemma OutlyingDeliveryIsFlagged(fl: Floating, cfg: Config, h: History, r: Report, keyId: string, key: bytes,
                                  values: seq<real>, v: F64, lo: real, hi: real)
    requires Lawful(fl) && NumbersTyped(fl, r) && Storable(fl, r) && Screenable(r) && cfg.keyOf(keyId) == Some(key)
    requires var m := MetricsOf(fl, r);
             || (values == h.yieldRates && v == m.yieldRate)
             || (values == h.geometry && m.geometry == Some(v))
             || (values == h.electrical && m.electrical == Some(v))
    requires cfg.threshold.Finite? && |values| >= cfg.minHistory && MostlyWithin(values, lo, hi) && Beyond(v, lo, hi, cfg.threshold.r)
    ensures Decide(fl, cfg, h, Utf8.Encode(WriteReport(fl, Signed(fl, r, keyId, key)))).disposition == Flagged
  {
    OutliersAreFlagged(values, lo, hi, v, cfg.threshold.r, cfg.minHistory);
    FlagsExactly(values, v, cfg.threshold, cfg.minHistory);
    hide Lawful, NumbersTyped, Storable, WriteReport, Findings, MetricsOf, Outlying, Flags, Beyond, MostlyWithin, Decide;
    SignedDeliveryIsJudged(fl, cfg, h, r, keyId, key);
  }

  // ----- any file -----

  /** The file is well-formed text, JSON, and says this report, of the current version or after migration,
      with a signature the configuration takes. */
  ghost predicate Delivers(fl: Floating, cfg: Config, content: bytes, r: Report) {
    && Utf8.IllFormed(content) == 0 && Parse(fl, Utf8.Lossy(content)).Some?
    && var j := EnsureCurrent(Parse(fl, Utf8.Lossy(content)).value);
       j.Some? && SaysReport(j.value, r) && Verify(fl, r, cfg.keyOf, cfg.policy) == Valid
  }

  /** May the report be processed at all? */
  predicate Sane(r: Report) {
    r.manifest != "" && r.outcome.good <= r.outcome.started && r.consent != NoSharing
  }

  lemma ReadsDelivered(fl: Floating, cfg: Config, content: bytes, r: Report)
    ensures ReadVerified(fl, cfg, content) == Some(r) <==> Delivers(fl, cfg, content, r)
  {
    hide Parse, EnsureCurrent, FromCurrent, SaysReport, Verify, Utf8.Lossy, Utf8.IllFormed;
    if Parse(fl, Utf8.Lossy(content)).Some? {
      var j := Parse(fl, Utf8.Lossy(content)).value;
      if EnsureCurrent(j).Some? {
        EnsureCurrentSettles(j);
        ReadExactly(EnsureCurrent(j).value, r);
      }
    }
  }

  /** What becomes of a file that delivers a report: rejected when it may not be processed, flagged when one
      of its metrics is outlying, accepted otherwise; and exactly the reports that are screened enter the
      screening history. */
  lemma DeliveredFile(fl: Floating, cfg: Config, h: History, content: bytes, r: Report)
    requires Delivers(fl, cfg, content, r)
    ensures var d := Decide(fl, cfg, h, content);
            && d.report == Some(r)
            && d.disposition == (if !Sane(r) then Rejected
                                 else if AnyStands(h, MetricsOf(fl, r), cfg.threshold, cfg.minHistory) then Flagged else Accepted)
            && HistoryAfter(fl, cfg, h, content) == if Sane(r) then Absorb(h, MetricsOf(fl, r)) else h
  {
    ReadsDelivered(fl, cfg, content, r);
    FindingsNotEmptyExactly(h, MetricsOf(fl, r), cfg.threshold, cfg.minHistory);
    hide ReadVerified, Findings, AnyStands, MetricsOf, Absorb, Delivers;
  }

  /** Every other file is rejected, and leaves the screening history alone. */
  lemma UndeliveredFile(fl: Floating, cfg: Config, h: History, content: bytes)
    requires forall r :: !Delivers(fl, cfg, content, r)
    ensures Decide(fl, cfg, h, content) == Decision(Rejected, [], None) && HistoryAfter(fl, cfg, h, content) == h
  {
    var read := ReadVerified(fl, cfg, content);
    if read.Some? {
      ReadsDelivered(fl, cfg, content, read.value);
    }
    hide ReadVerified, Delivers;
  }

  /** What a screened report adds: to each history its own metric, if there is one and it is finite. */
  lemma AbsorbedExactly(h: History, m: Metrics)
    ensures var h' := Absorb(h, m);
            && h'.yieldRates == h.yieldRates + (match m.yieldRate case Finite(x) => [x] case _ => [])
            && h'.geometry == h.geometry + (match m.geometry case Some(Finite(x)) => [x] case _ => [])
            && h'.electrical == h.electrical + (match m.electrical case Some(Finite(x)) => [x] case _ => [])
  {
    assert h.yieldRates + [] == h.yieldRates && h.geometry + [] == h.geometry && h.electrical + [] == h.electrical;
  }

  // ----- the metrics themselves -----

  /** Arithmetic without rounding. */
  ghost predicate Exact(fl: Floating) {
    forall x: real :: fl.round(x) == Finite(x)
  }

  predicate AllFinite(xs: seq<F64>) {
    forall i :: 0 <= i < |xs| ==> xs[i].Finite?
  }

  function Total(xs: seq<F64>): real
    requires AllFinite(xs)
  {
    if xs == [] then 0.0 else xs[0].r + Total(xs[1..])
  }

  lemma {:induction false} SumIsTotal(fl: Floating, acc: real, xs: seq<F64>)
    requires Exact(fl) && AllFinite(xs)
    ensures SumFrom(fl, Finite(acc), xs) == Finite(acc + Total(xs))
    decreases xs
  {
    if xs != [] {
      SumIsTotal(fl, acc + xs[0].r, xs[1..]);
    }
  }

  lemma MeanIsAverage(fl: Floating, xs: seq<F64>)
    requires Exact(fl) && AllFinite(xs) && xs != []
    ensures Mean(fl, xs) == Some(Finite(Total(xs) / |xs| as real))
  {
    SumIsTotal(fl, 0.0, xs);
    hide SumFrom, Total;
  }

  /** Distances between built and drawn. */
  function Distances(gs: seq<Geometry>): seq<F64>
    requires forall i :: 0 <= i < |gs| ==> gs[i].measured.Finite? && gs[i].designed.Finite?
  {
    if gs == [] then [] else [Finite(Anomaly.Abs(gs[0].measured.r - gs[0].designed.r))] + Distances(gs[1..])
  }

  lemma {:induction false} DeviationsAreDistances(fl: Floating, gs: seq<Geometry>)
    requires Exact(fl) && forall i :: 0 <= i < |gs| ==> gs[i].measured.Finite? && gs[i].designed.Finite?
    ensures Map(g => AbsDeviation(fl, g), gs) == Distances(gs) && AllFinite(Distances(gs))
  {
    if gs != [] {
      DeviationsAreDistances(fl, gs[1..]);
      assert Map(g => AbsDeviation(fl, g), gs) == [AbsDeviation(fl, gs[0])] + Map(g => AbsDeviation(fl, g), gs[1..]);
    }
  }

  /** Measured over designed, where something was designed. */
  function Quotients(es: seq<Electrical>): seq<F64>
    requires forall i :: 0 <= i < |es| ==> es[i].measured.Finite? && es[i].designed.Finite?
  {
    if es == [] then []
    else if es[0].designed.r == 0.0 then Quotients(es[1..])
    else [Finite(es[0].measured.r / es[0].designed.r)] + Quotients(es[1..])
  }

  lemma {:induction false} RatiosAreQuotients(fl: Floating, es: seq<Electrical>)
    requires Exact(fl) && forall i :: 0 <= i < |es| ==> es[i].measured.Finite? && es[i].designed.Finite?
    ensures Ratios(fl, es) == Quotients(es) && AllFinite(Quotients(es))
  {
    if es != [] {
      RatiosAreQuotients(fl, es[1..]);
    }
  }

  /** Rounding apart, the metrics are the share of good units, the average distance from the drawing, and the
      average ratio to what was designed; a report without such entries has no such metric. */
  lemma MetricsMean(fl: Floating, r: Report)
    requires Exact(fl)
    requires forall i :: 0 <= i < |r.geometry| ==> r.geometry[i].measured.Finite? && r.geometry[i].designed.Finite?
    requires forall i :: 0 <= i < |r.electrical| ==> r.electrical[i].measured.Finite? && r.electrical[i].designed.Finite?
    ensures var m, ds, qs := MetricsOf(fl, r), Distances(r.geometry), Quotients(r.electrical);
            && m.yieldRate == Finite(if r.outcome.started == 0 then 0.0 else r.outcome.good as real / r.outcome.started as real)
            && AllFinite(ds) && AllFinite(qs)
            && m.geometry == (if ds == [] then None else Some(Finite(Total(ds) / |ds| as real)))
            && m.electrical == (if qs == [] then None else Some(Finite(Total(qs) / |qs| as real)))
  {
    DeviationsAreDistances(fl, r.geometry);
    RatiosAreQuotients(fl, r.electrical);
    var ds, qs := Distances(r.geometry), Quotients(r.electrical);
    if ds != [] {
      MeanIsAverage(fl, ds);
    }
    if qs != [] {
      MeanIsAverage(fl, qs);
    }
    hide SumFrom, Total, Distances, Quotients, Ratios;
  }
}
