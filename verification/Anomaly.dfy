/** Robust screening: medians, deviations from them, and when a value is flagged. Values are exact reals;
    rounding of the statistics is not modelled. */
module Anomaly {
  import opened Basics
  import opened Floats

  // ----- order statistics -----

  predicate Sorted(s: seq<real>) {
    forall i, j :: 0 <= i < j < |s| ==> s[i] <= s[j]
  }

  function Insert(x: real, s: seq<real>): (r: seq<real>)
    ensures |r| == |s| + 1
  {
    if s == [] || x <= s[0] then [x] + s else [s[0]] + Insert(x, s[1..])
  }

  /** The sorted copy. */
  function Sort(s: seq<real>): (r: seq<real>)
    ensures |r| == |s|
  {
    if s == [] then [] else Insert(s[0], Sort(s[1..]))
  }

  lemma {:induction false} InsertSorted(x: real, s: seq<real>)
    requires Sorted(s)
    ensures Sorted(Insert(x, s))
    ensures Insert(x, s)[0] == if s == [] || x <= s[0] then x else s[0]
  {
    if s != [] && x > s[0] {
      InsertSorted(x, s[1..]);
      var rest := Insert(x, s[1..]);
      forall j | 0 <= j < |rest| ensures s[0] <= rest[j] {
        assert rest[0] <= rest[j];
      }
    }
  }

  lemma {:induction false} InsertKeeps(x: real, s: seq<real>)
    ensures multiset(Insert(x, s)) == multiset(s) + multiset{x}
  {
    if s != [] && x > s[0] {
      InsertKeeps(x, s[1..]);
      assert s == [s[0]] + s[1..];
    }
  }

  /** Sorting gives the one sorted arrangement of the same values. */
  lemma {:induction false} SortIsSorted(s: seq<real>)
    ensures Sorted(Sort(s)) && multiset(Sort(s)) == multiset(s)
  {
    if s != [] {
      SortIsSorted(s[1..]);
      InsertSorted(s[0], Sort(s[1..]));
      InsertKeeps(s[0], Sort(s[1..]));
      assert s == [s[0]] + s[1..];
    }
  }

  lemma HeadIsLeast(a: seq<real>, x: real)
    requires Sorted(a) && x in multiset(a)
    ensures a != [] && a[0] <= x
  {
    var i :| 0 <= i < |a| && a[i] == x;
  }

  lemma TailOf(a: seq<real>)
    requires a != []
    ensures multiset(a[1..]) == multiset(a) - multiset{a[0]} && a[0] in multiset(a)
  {
    assert a == [a[0]] + a[1..];
  }

  lemma SortedTail(a: seq<real>)
    requires Sorted(a) && a != []
    ensures Sorted(a[1..])
  {
  }

  lemma EqualHeads(a: seq<real>, b: seq<real>)
    requires Sorted(a) && Sorted(b) && multiset(a) == multiset(b) && a != []
    ensures b != [] && a[0] == b[0] && multiset(a[1..]) == multiset(b[1..])
  {
    TailOf(a);
    HeadIsLeast(b, a[0]);
    TailOf(b);
    HeadIsLeast(a, b[0]);
  }

  /** Any sorted arrangement of the values is that one. */
  lemma {:induction false} SortedUnique(a: seq<real>, b: seq<real>)
    requires Sorted(a) && Sorted(b) && multiset(a) == multiset(b)
    ensures a == b
    decreases |a|
  {
    hide Sorted;
    if a == [] {
      if b != [] {
        TailOf(b);
      }
    } else {
      EqualHeads(a, b);
      SortedTail(a);
      SortedTail(b);
      SortedUnique(a[1..], b[1..]);
      assert a == [a[0]] + a[1..] && b == [b[0]] + b[1..];
    }
  }

  /** `median_of`. */
  function MedianOf(sorted: seq<real>): real {
    var n := |sorted|;
    if n == 0 then 0.0
    else if n % 2 == 1 then sorted[n / 2]
    else (sorted[n / 2 - 1] + sorted[n / 2]) / 2.0
  }

  function Median(values: seq<real>): real {
    MedianOf(Sort(values))
  }

  function Abs(x: real): real {
    if x < 0.0 then -x else x
  }

  function Deviations(values: seq<real>, center: real): (d: seq<real>)
    ensures |d| == |values|
  {
    seq(|values|, i requires 0 <= i < |values| => Abs(values[i] - center))
  }

  /** Median absolute deviation. */
  function Mad(values: seq<real>): real {
    if values == [] then 0.0 else Median(Deviations(values, Median(values)))
  }

  // ----- majorities -----

  function CountBelow(s: seq<real>, lo: real): (n: nat)
    ensures n <= |s|
  {
    if s == [] then 0 else (if s[0] < lo then 1 else 0) + CountBelow(s[1..], lo)
  }

  function CountAbove(s: seq<real>, hi: real): (n: nat)
    ensures n <= |s|
  {
    if s == [] then 0 else (if s[0] > hi then 1 else 0) + CountAbove(s[1..], hi)
  }

  /** How many values lie in the range, ends included. */
  function CountWithin(s: seq<real>, lo: real, hi: real): (n: nat)
    ensures n <= |s|
  {
    if s == [] then 0 else (if lo <= s[0] <= hi then 1 else 0) + CountWithin(s[1..], lo, hi)
  }

  /** More than half of the values lie in the range. */
  predicate MostlyWithin(s: seq<real>, lo: real, hi: real) {
    2 * CountWithin(s, lo, hi) > |s|
  }

  lemma {:induction false} CountsAddUp(s: seq<real>, lo: real, hi: real)
    requires lo <= hi
    ensures CountBelow(s, lo) + CountWithin(s, lo, hi) + CountAbove(s, hi) == |s|
  {
    if s != [] {
      CountsAddUp(s[1..], lo, hi);
    }
  }

  lemma {:induction false} SomeoneWithin(s: seq<real>, lo: real, hi: real)
    requires CountWithin(s, lo, hi) > 0
    ensures lo <= hi
  {
    if !(lo <= s[0] <= hi) {
      SomeoneWithin(s[1..], lo, hi);
    }
  }

  lemma {:induction false} CountsOfInsert(x: real, s: seq<real>, lo: real, hi: real)
    ensures CountBelow(Insert(x, s), lo) == CountBelow(s, lo) + if x < lo then 1 else 0
    ensures CountAbove(Insert(x, s), hi) == CountAbove(s, hi) + if x > hi then 1 else 0
  {
    if s == [] || x <= s[0] {
      assert ([x] + s)[1..] == s;
    } else {
      CountsOfInsert(x, s[1..], lo, hi);
      assert ([s[0]] + Insert(x, s[1..]))[1..] == Insert(x, s[1..]);
    }
  }

  lemma {:induction false} CountsOfSort(s: seq<real>, lo: real, hi: real)
    ensures CountBelow(Sort(s), lo) == CountBelow(s, lo) && CountAbove(Sort(s), hi) == CountAbove(s, hi)
  {
    if s != [] {
      CountsOfSort(s[1..], lo, hi);
      CountsOfInsert(s[0], Sort(s[1..]), lo, hi);
    }
  }

  /** In sorted order, the values below a bound come first and the values above one come last. */
  lemma {:induction false} SortedCounts(s: seq<real>, lo: real, hi: real, i: nat)
    requires Sorted(s) && i < |s|
    ensures s[i] < lo <==> i < CountBelow(s, lo)
    ensures s[i] > hi <==> i >= |s| - CountAbove(s, hi)
  {
    if i > 0 {
      SortedCounts(s[1..], lo, hi, i - 1);
      if s[0] >= lo {
        NoneBelow(s, lo);
      }
    } else {
      if s[0] >= lo {
        NoneBelow(s, lo);
      }
      if s[0] > hi {
        AllAbove(s, hi);
      }
    }
  }

  lemma {:induction false} NoneBelow(s: seq<real>, lo: real)
    requires forall i :: 0 <= i < |s| ==> s[i] >= lo
    ensures CountBelow(s, lo) == 0
  {
    if s != [] {
      NoneBelow(s[1..], lo);
    }
  }

  lemma {:induction false} AllAbove(s: seq<real>, hi: real)
    requires forall i :: 0 <= i < |s| ==> s[i] > hi
    ensures CountAbove(s, hi) == |s|
  {
    if s != [] {
      AllAbove(s[1..], hi);
    }
  }

  /** If more than half of the values lie in a range, so does the median, whatever the others are. */
  lemma MajorityHoldsMedian(values: seq<real>, lo: real, hi: real)
    requires MostlyWithin(values, lo, hi)
    ensures lo <= Median(values) <= hi
  {
    SomeoneWithin(values, lo, hi);
    CountsAddUp(values, lo, hi);
    CountsOfSort(values, lo, hi);
    SortIsSorted(values);
    var s := Sort(values);
    var m := |s| / 2;
    SortedCounts(s, lo, hi, m);
    if |s| % 2 == 0 {
      SortedCounts(s, lo, hi, m - 1);
    }
  }

  lemma {:induction false} DeviationsWithin(values: seq<real>, lo: real, hi: real, center: real)
    requires lo <= center <= hi
    ensures CountWithin(Deviations(values, center), 0.0, hi - lo) >= CountWithin(values, lo, hi)
  {
    if values != [] {
      DeviationsWithin(values[1..], lo, hi, center);
      assert Deviations(values, center)[1..] == Deviations(values[1..], center);
    }
  }

  /** Then the median absolute deviation is at most the width of the range. */
  lemma MajorityBoundsMad(values: seq<real>, lo: real, hi: real)
    requires MostlyWithin(values, lo, hi)
    ensures 0.0 <= Mad(values) <= hi - lo
  {
    MajorityHoldsMedian(values, lo, hi);
    DeviationsWithin(values, lo, hi, Median(values));
    MajorityHoldsMedian(Deviations(values, Median(values)), 0.0, hi - lo);
  }

  // ----- scores -----

  const MAD_SCALE := 1.4826

  /** `robust_z`. A constant history scores any other value as infinite; a NaN against it scores as if
      it were below. */
  function RobustZ(values: seq<real>, v: F64): F64 {
    var med, mad := Median(values), Mad(values);
    if mad == 0.0 then
      if v == Finite(med) then Finite(0.0) else if Gt(v, Finite(med)) then Infinite(false) else Infinite(true)
    else
      match v
      case Finite(x) => Finite((x - med) / (MAD_SCALE * mad))
      case Infinite(_) => v
      case NaN => NaN
  }

  /** Is the value flagged against this history? */
  predicate Flags(values: seq<real>, v: F64, threshold: F64, minHistory: nat) {
    |values| >= minHistory && Gt(Floats.Abs(RobustZ(values, v)), threshold)
  }

  lemma Quotient(d: real, k: real, t: real)
    requires k > 0.0
    ensures d / k > t <==> d > t * k
    ensures d / k < t <==> d < t * k
  {
    var q := d / k;
    assert q * k == d;
    if q > t {
      assert (q - t) * k > 0.0;
    } else if q < t {
      assert (t - q) * k > 0.0;
    }
  }

  /** How far outside a range of the given width a value must lie to be flagged for certain. */
  function Slack(t: real, width: real): real {
    MAD_SCALE * t * width
  }

  /** Scaled deviations of at most the width stay within the slack. */
  lemma SlackCovers(t: real, mad: real, width: real)
    requires t >= 0.0 && 0.0 <= mad <= width
    ensures 0.0 <= t * (MAD_SCALE * mad) <= Slack(t, width)
  {
    var p, q := t * mad, t * width;
    assert t * (width - mad) >= 0.0;
    assert p >= 0.0;
    assert t * (MAD_SCALE * mad) == MAD_SCALE * p;
    assert MAD_SCALE * t * width == MAD_SCALE * q;
  }

  /** Strictly outside the range by more than the slack; infinities always are. */
  predicate Beyond(v: F64, lo: real, hi: real, t: real) {
    match v
    case Finite(x) => x > hi + Slack(t, hi - lo) || x < lo - Slack(t, hi - lo)
    case Infinite(_) => true
    case NaN => false
  }

  /** A score is beyond the threshold when the value is further from the median than the threshold times
      the scaled deviation. */
  lemma ScoreBeyond(x: real, med: real, mad: real, t: real)
    requires mad > 0.0
    ensures var z := (x - med) / (MAD_SCALE * mad);
            z > t || z < -t <==> x - med > t * (MAD_SCALE * mad) || x - med < -(t * (MAD_SCALE * mad))
  {
    var k := MAD_SCALE * mad;
    Quotient(x - med, k, t);
    Quotient(x - med, k, -t);
    assert (-t) * k == -(t * k);
  }

  /** A history with a majority in a range flags every value that lies outside it by more than the scaled
      threshold times its width: no minority of recorded values, however extreme, can prevent it. This
      includes a constant history, and infinite values. */
  lemma OutliersAreFlagged(values: seq<real>, lo: real, hi: real, v: F64, t: real, minHistory: nat)
    requires |values| >= minHistory && MostlyWithin(values, lo, hi) && Beyond(v, lo, hi, t)
    ensures Flags(values, v, Finite(t), minHistory)
  {
    var med, mad := Median(values), Mad(values);
    MajorityHoldsMedian(values, lo, hi);
    MajorityBoundsMad(values, lo, hi);
    hide Median, Mad, Slack;
    if v.Finite? && t >= 0.0 {
      SlackCovers(t, mad, hi - lo);
      assert v.r > hi || v.r < lo;
      if mad > 0.0 {
        ScoreBeyond(v.r, med, mad, t);
      }
    }
  }

  lemma MedianNotNegative(ds: seq<real>)
    requires forall i :: 0 <= i < |ds| ==> ds[i] >= 0.0
    ensures Median(ds) >= 0.0
  {
    var sorted := Sort(ds);
    SortIsSorted(ds);
    hide Sort;
    forall i | 0 <= i < |sorted| ensures sorted[i] >= 0.0 {
      assert sorted[i] in multiset(ds);
    }
  }

  /** The median of absolute values is never negative. */
  lemma MadNotNegative(values: seq<real>)
    ensures Mad(values) >= 0.0
  {
    MedianNotNegative(Deviations(values, Median(values)));
    hide Median;
  }

  /** Conversely a finite value is left alone exactly when it is no further from the median than the
      threshold times the scaled deviation; a negative threshold flags every finite value. */
  lemma FlaggedExactly(values: seq<real>, x: real, t: real, minHistory: nat)
    ensures Flags(values, Finite(x), Finite(t), minHistory) <==>
              |values| >= minHistory && (t < 0.0 || Abs(x - Median(values)) > t * (MAD_SCALE * Mad(values)))
  {
    MadNotNegative(values);
    var med, mad := Median(values), Mad(values);
    hide Median, Mad;
    if mad > 0.0 {
      ScoreBeyond(x, med, mad, t);
    }
  }

  // ----- the detector -----

  /** What one report contributes: a metric may be absent. */
  datatype Metrics = Metrics(yieldRate: F64, geometry: Option<F64>, electrical: Option<F64>)

  datatype History = History(yieldRates: seq<real>, geometry: seq<real>, electrical: seq<real>)

  const NO_HISTORY := History([], [], [])

  /** `observe`: values that are not finite are dropped. */
  function Observe(values: seq<real>, v: F64): seq<real> {
    if v.Finite? then values + [v.r] else values
  }

  function ObserveOption(values: seq<real>, v: Option<F64>): seq<real> {
    if v.Some? then Observe(values, v.value) else values
  }

  function Absorb(h: History, m: Metrics): History {
    History(Observe(h.yieldRates, m.yieldRate), ObserveOption(h.geometry, m.geometry), ObserveOption(h.electrical, m.electrical))
  }

  function Finding(name: string, values: seq<real>, v: Option<F64>, threshold: F64, minHistory: nat): seq<(string, F64)> {
    if v.Some? && Flags(values, v.value, threshold, minHistory) then [(name, RobustZ(values, v.value))] else []
  }

  /** The findings of `screen`, against the history before the report. */
  function Findings(h: History, m: Metrics, threshold: F64, minHistory: nat): seq<(string, F64)> {
    Finding("yield_rate", h.yieldRates, Some(m.yieldRate), threshold, minHistory)
    + Finding("geometry_deviation_um", h.geometry, m.geometry, threshold, minHistory)
    + Finding("electrical_ratio", h.electrical, m.electrical, threshold, minHistory)
  }

  class AnomalyDetector {
    var yieldRates: seq<real>
    var geometry: seq<real>
    var electrical: seq<real>
    var threshold: F64
    var minHistory: nat

    function View(): History
      reads this
    {
      History(yieldRates, geometry, electrical)
    }

    constructor ()
      ensures View() == NO_HISTORY && threshold == Finite(4.0) && minHistory == 8
    {
      yieldRates, geometry, electrical := [], [], [];
      threshold, minHistory := Finite(4.0), 8;
    }

    /** `screen`: judged by what came before, recorded either way. */
    method Screen(m: Metrics) returns (findings: seq<(string, F64)>)
      modifies `yieldRates, `geometry, `electrical
      ensures findings == Findings(old(View()), m, threshold, minHistory)
      ensures View() == Absorb(old(View()), m)
    {
      hide RobustZ;
      findings := [];
      if |yieldRates| >= minHistory {
        var z := RobustZ(yieldRates, m.yieldRate);
        if Gt(Floats.Abs(z), threshold) {
          findings := findings + [("yield_rate", z)];
        }
      }
      if m.geometry.Some? && |geometry| >= minHistory {
        var z := RobustZ(geometry, m.geometry.value);
        if Gt(Floats.Abs(z), threshold) {
          findings := findings + [("geometry_deviation_um", z)];
        }
      }
      if m.electrical.Some? && |electrical| >= minHistory {
        var z := RobustZ(electrical, m.electrical.value);
        if Gt(Floats.Abs(z), threshold) {
          findings := findings + [("electrical_ratio", z)];
        }
      }
      yieldRates := Observe(yieldRates, m.yieldRate);
      if m.geometry.Some? {
        geometry := Observe(geometry, m.geometry.value);
      }
      if m.electrical.Some? {
        electrical := Observe(electrical, m.electrical.value);
      }
    }

    /** `with_history`. */
    method WithHistory(ys: seq<F64>, gs: seq<F64>, es: seq<F64>)
      modifies `yieldRates, `geometry, `electrical
      ensures View() == History(ObserveAll(old(yieldRates), ys), ObserveAll(old(geometry), gs), ObserveAll(old(electrical), es))
    {
      var i := 0;
      while i < |ys|
        invariant 0 <= i <= |ys| && geometry == old(geometry) && electrical == old(electrical)
        invariant ObserveAll(old(yieldRates), ys) == ObserveAll(yieldRates, ys[i..])
      {
        assert ys[i..][0] == ys[i] && ys[i..][1..] == ys[i + 1..];
        yieldRates := Observe(yieldRates, ys[i]);
        i := i + 1;
      }
      i := 0;
      while i < |gs|
        invariant 0 <= i <= |gs| && yieldRates == ObserveAll(old(yieldRates), ys) && electrical == old(electrical)
        invariant ObserveAll(old(geometry), gs) == ObserveAll(geometry, gs[i..])
      {
        assert gs[i..][0] == gs[i] && gs[i..][1..] == gs[i + 1..];
        geometry := Observe(geometry, gs[i]);
        i := i + 1;
      }
      i := 0;
      while i < |es|
        invariant 0 <= i <= |es| && yieldRates == ObserveAll(old(yieldRates), ys) && geometry == ObserveAll(old(geometry), gs)
        invariant ObserveAll(old(electrical), es) == ObserveAll(electrical, es[i..])
      {
        assert es[i..][0] == es[i] && es[i..][1..] == es[i + 1..];
        electrical := Observe(electrical, es[i]);
        i := i + 1;
      }
    }
  }

  function ObserveAll(values: seq<real>, vs: seq<F64>): seq<real>
    decreases vs
  {
    if vs == [] then values else ObserveAll(Observe(values, vs[0]), vs[1..])
  }

  /** Recorded values as they are persisted. */
  function AsF64(values: seq<real>): (r: seq<F64>)
    ensures |r| == |values|
  {
    seq(|values|, i requires 0 <= i < |values| => Finite(values[i]))
  }

  /** A persisted history, replayed, is the history. */
  lemma {:induction false} ReplayRestores(before: seq<real>, values: seq<real>)
    ensures ObserveAll(before, AsF64(values)) == before + values
    decreases values
  {
    if values == [] {
      assert before + values == before;
    } else {
      ReplayRestores(before + [values[0]], values[1..]);
      assert AsF64(values)[1..] == AsF64(values[1..]);
      assert before + [values[0]] + values[1..] == before + values;
    }
  }
}
