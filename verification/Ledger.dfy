/** The intake ledger: decisions and screening history as they are persisted between runs. */
module Ledger {
  import opened Basics
  import opened Floats
  import opened Json
  import opened JsonProperties
  import opened Outcome
  import opened OutcomeProperties
  import opened Anomaly
  import opened Schema

  datatype Record = Record(file: string, disposition: string, reason: string, at: u64, consent: string)

  datatype Ledger = Ledger(decisions: seq<Record>, yieldRates: seq<F64>, geometry: seq<F64>, electrical: seq<F64>)

  const EMPTY := Ledger([], [], [], [])

  /** `observe_metrics`: whatever the value, finite or not. */
  function ObserveMetrics(l: Ledger, m: Metrics): Ledger {
    l.(yieldRates := l.yieldRates + [m.yieldRate],
       geometry := l.geometry + (if m.geometry.Some? then [m.geometry.value] else []),
       electrical := l.electrical + (if m.electrical.Some? then [m.electrical.value] else []))
  }

  // ----- writing and reading -----

  function RecordJson(fl: Floating, d: Record): Json {
    Obj([Entry("file", Str(d.file)), Entry("disposition", Str(d.disposition)), Entry("reason", Str(d.reason)),
         Entry("at_unix", Num(FromU64(fl, d.at))), Entry("consent", Str(d.consent))])
  }

  function NumJson(x: F64): Json {
    Num(x)
  }

  function HistoryJson(l: Ledger): Json {
    Obj([Entry("yield", Arr(Map(NumJson, l.yieldRates))), Entry("geometry", Arr(Map(NumJson, l.geometry))),
         Entry("electrical", Arr(Map(NumJson, l.electrical)))])
  }

  /** `to_json`. */
  function LedgerJson(fl: Floating, l: Ledger): Json {
    Obj([Entry("decisions", Arr(Map(d => RecordJson(fl, d), l.decisions))), Entry("history", HistoryJson(l))])
  }

  /** What `save` writes. */
  function LedgerText(fl: Floating, l: Ledger): string {
    Print(fl, LedgerJson(fl, l))
  }

  function ReadRecord(j: Json): Record {
    Record(StrOr(j, "file", ""), StrOr(j, "disposition", ""), StrOr(j, "reason", ""), ToU64(NumOr0(j, "at_unix")),
           StrOr(j, "consent", ""))
  }

  /** The numbers of an array, in order; other elements are skipped. */
  function Numbers(items: seq<Json>): seq<F64> {
    if items == [] then [] else (if items[0].Num? then [items[0].n] else []) + Numbers(items[1..])
  }

  function Pull(h: Json, key: string): seq<F64> {
    var a := AsArr(Get(h, key));
    if a.Some? then Numbers(a.value) else []
  }

  function FromLedgerJson(j: Json): Ledger {
    var ds, h := AsArr(Get(j, "decisions")), Get(j, "history");
    var l := Ledger(if ds.Some? then Map(ReadRecord, ds.value) else [], [], [], []);
    if h.Some? then l.(yieldRates := Pull(h.value, "yield"), geometry := Pull(h.value, "geometry"),
                       electrical := Pull(h.value, "electrical"))
    else l
  }

  /** `load`, on the text of a file, or on no file. */
  function LoadLedger(fl: Floating, text: Option<string>): Option<Ledger> {
    match text
    case None => Some(EMPTY)
    case Some(t) =>
      match Parse(fl, t)
      case None => None
      case Some(j) => Some(FromLedgerJson(j))
  }

  class IntakeLedger {
    var decisions: seq<Record>
    var yieldRates: seq<F64>
    var geometry: seq<F64>
    var electrical: seq<F64>

    function View(): Ledger
      reads this
    {
      Ledger(decisions, yieldRates, geometry, electrical)
    }

    constructor (l: Ledger)
      ensures View() == l
    {
      decisions, yieldRates, geometry, electrical := l.decisions, l.yieldRates, l.geometry, l.electrical;
    }

    method Append(d: Record)
      modifies `decisions
      ensures decisions == old(decisions) + [d]
    {
      decisions := decisions + [d];
    }

    method Observe(m: Metrics)
      modifies `yieldRates, `geometry, `electrical
      ensures View() == ObserveMetrics(old(View()), m)
    {
      yieldRates := yieldRates + [m.yieldRate];
      if m.geometry.Some? {
        geometry := geometry + [m.geometry.value];
      } else {
        assert geometry + [] == geometry;
      }
      if m.electrical.Some? {
        electrical := electrical + [m.electrical.value];
      } else {
        assert electrical + [] == electrical;
      }
    }
  }

  /** The parsing loop of `load`. */
  method Load(fl: Floating, text: Option<string>) returns (r: Option<Ledger>)
    ensures r == LoadLedger(fl, text)
  {
    hide Get, ReadRecord, Pull;
    if text.None? {
      return Some(EMPTY);
    }
    var parsed := Parse(fl, text.value);
    if parsed.None? {
      return None;
    }
    var j := parsed.value;
    var l := EMPTY;
    var ds := AsArr(Get(j, "decisions"));
    if ds.Some? {
      var i := 0;
      while i < |ds.value|
        invariant 0 <= i <= |ds.value| && l == EMPTY.(decisions := Map(ReadRecord, ds.value[..i]))
      {
        l := l.(decisions := l.decisions + [ReadRecord(ds.value[i])]);
        i := i + 1;
      }
      assert ds.value[..i] == ds.value;
    }
    var h := Get(j, "history");
    if h.Some? {
      l := l.(yieldRates := Pull(h.value, "yield"), geometry := Pull(h.value, "geometry"),
              electrical := Pull(h.value, "electrical"));
    }
    r := Some(l);
  }

  // ----- the ledger survives its file -----

  lemma {:induction false} NumbersOfMap(xs: seq<F64>)
    ensures Numbers(Map(NumJson, xs)) == xs
  {
    if xs != [] {
      NumbersOfMap(xs[1..]);
      assert Map(NumJson, xs)[1..] == Map(NumJson, xs[1..]);
      assert [xs[0]] + xs[1..] == xs;
    }
  }

  lemma HistoryRead(l: Ledger)
    ensures var h := HistoryJson(l);
            Pull(h, "yield") == l.yieldRates && Pull(h, "geometry") == l.geometry && Pull(h, "electrical") == l.electrical
  {
    var es := HistoryJson(l).entries;
    assert es[0].key[0] == 'y' && es[1].key[0] == 'g' && es[2].key[0] == 'e';
    LookupAt(es, 0);
    LookupAt(es, 1);
    LookupAt(es, 2);
    NumbersOfMap(l.yieldRates);
    NumbersOfMap(l.geometry);
    NumbersOfMap(l.electrical);
    hide Lookup, Numbers, Map;
  }

  function RecordAfter(fl: Floating, d: Record): Record {
    d.(at := ToU64(FromU64(fl, d.at)))
  }

  lemma RecordRead(fl: Floating, d: Record)
    ensures ReadRecord(RecordJson(fl, d)) == RecordAfter(fl, d)
  {
    var es := RecordJson(fl, d).entries;
    assert es[0].key[0] == 'f' && es[1].key[0] == 'd' && es[2].key[0] == 'r' && es[3].key[0] == 'a' && es[4].key[0] == 'c';
    LookupAt(es, 0);
    LookupAt(es, 1);
    LookupAt(es, 2);
    LookupAt(es, 3);
    LookupAt(es, 4);
    hide Lookup, ToU64, FromU64;
  }

  function LedgerAfter(fl: Floating, l: Ledger): Ledger {
    l.(decisions := Map(d => RecordAfter(fl, d), l.decisions))
  }

  lemma LedgerRead(fl: Floating, l: Ledger)
    ensures FromLedgerJson(LedgerJson(fl, l)) == LedgerAfter(fl, l)
  {
    var es := LedgerJson(fl, l).entries;
    assert es[0].key[0] == 'd' && es[1].key[0] == 'h';
    LookupAt(es, 0);
    LookupAt(es, 1);
    HistoryRead(l);
    hide Lookup, HistoryJson, Pull, ReadRecord, RecordJson, RecordAfter;
    var js := Map(d => RecordJson(fl, d), l.decisions);
    forall i | 0 <= i < |js| ensures ReadRecord(js[i]) == RecordAfter(fl, l.decisions[i]) {
      RecordRead(fl, l.decisions[i]);
    }
    assert Map(ReadRecord, js) == Map(d => RecordAfter(fl, d), l.decisions);
  }

  predicate AllF64(fl: Floating, xs: seq<F64>) {
    forall i :: 0 <= i < |xs| ==> IsF64(fl, xs[i])
  }

  predicate AllFinite(xs: seq<F64>) {
    forall i :: 0 <= i < |xs| ==> xs[i].Finite?
  }

  /** Every recorded value is a double, an infinity or a NaN. */
  predicate LedgerTyped(fl: Floating, l: Ledger) {
    AllF64(fl, l.yieldRates) && AllF64(fl, l.geometry) && AllF64(fl, l.electrical)
  }

  predicate HistoryFinite(l: Ledger) {
    AllFinite(l.yieldRates) && AllFinite(l.geometry) && AllFinite(l.electrical)
  }

  /** Every time stamp survives as a double. */
  predicate TimesSurvive(fl: Floating, l: Ledger) {
    forall i :: 0 <= i < |l.decisions| ==> CountSurvives(fl, l.decisions[i].at) && IsDouble(fl, FromU64(fl, l.decisions[i].at))
  }

  lemma NumsDoubles(fl: Floating, xs: seq<F64>)
    requires AllF64(fl, xs)
    ensures AllDoubles(fl, Arr(Map(NumJson, xs))) <==> AllFinite(xs)
    ensures Representable(fl, Arr(Map(NumJson, xs)))
  {
    var js := Map(NumJson, xs);
    ItemsDoubles(fl, js);
    forall i | 0 <= i < |xs| ensures AllDoubles(fl, js[i]) <==> xs[i].Finite?
                             ensures Representable(fl, js[i]) {
      assert js[i] == Num(xs[i]);
    }
  }

  lemma HistoryDoubles(fl: Floating, l: Ledger)
    requires LedgerTyped(fl, l)
    ensures AllDoubles(fl, HistoryJson(l)) <==> HistoryFinite(l)
    ensures Representable(fl, HistoryJson(l))
  {
    var es := HistoryJson(l).entries;
    EntriesDoubles(fl, es);
    NumsDoubles(fl, l.yieldRates);
    NumsDoubles(fl, l.geometry);
    NumsDoubles(fl, l.electrical);
    assert AllDoubles(fl, HistoryJson(l)) == AllEntriesDoubles(fl, es);
    assert Representable(fl, HistoryJson(l)) == EntriesRepresentable(fl, es);
    hide AllDoubles, Representable, AllFinite, Map, AllEntriesDoubles, EntriesRepresentable, AllF64;
    assert es[0].value == Arr(Map(NumJson, l.yieldRates)) && es[1].value == Arr(Map(NumJson, l.geometry))
           && es[2].value == Arr(Map(NumJson, l.electrical));
  }

  lemma RecordDoubles(fl: Floating, d: Record)
    requires IsDouble(fl, FromU64(fl, d.at))
    ensures AllDoubles(fl, RecordJson(fl, d))
  {
    var es := RecordJson(fl, d).entries;
    EntriesDoubles(fl, es);
    hide FromU64, AllEntriesDoubles;
    assert es[3].value == Num(FromU64(fl, d.at));
  }

  lemma RecordsDoubles(fl: Floating, ds: seq<Record>)
    requires forall i :: 0 <= i < |ds| ==> IsDouble(fl, FromU64(fl, ds[i].at))
    ensures AllDoubles(fl, Arr(Map(d => RecordJson(fl, d), ds)))
  {
    var js := Map(d => RecordJson(fl, d), ds);
    ItemsDoubles(fl, js);
    forall i | 0 <= i < |js| ensures AllDoubles(fl, js[i]) {
      RecordDoubles(fl, ds[i]);
    }
  }

  lemma LedgerDoubles(fl: Floating, l: Ledger)
    requires LedgerTyped(fl, l) && TimesSurvive(fl, l)
    ensures AllDoubles(fl, LedgerJson(fl, l)) <==> HistoryFinite(l)
    ensures Representable(fl, LedgerJson(fl, l))
  {
    var es := LedgerJson(fl, l).entries;
    EntriesDoubles(fl, es);
    RecordsDoubles(fl, l.decisions);
    DoublesAreRepresentable(fl, es[0].value);
    HistoryDoubles(fl, l);
    assert AllDoubles(fl, LedgerJson(fl, l)) == AllEntriesDoubles(fl, es);
    assert Representable(fl, LedgerJson(fl, l)) == EntriesRepresentable(fl, es);
    hide AllDoubles, Representable, HistoryFinite, HistoryJson, Map, AllEntriesDoubles, EntriesRepresentable;
    assert es[1].value == HistoryJson(l);
  }

  /** A saved ledger is loaded as it was if and only if its whole history is finite; one infinite or NaN
      metric in it, and the file can no longer be loaded at all. */
  lemma LedgerSurvivesExactlyWhenFinite(fl: Floating, l: Ledger)
    requires Lawful(fl) && LedgerTyped(fl, l) && TimesSurvive(fl, l)
    ensures LoadLedger(fl, Some(LedgerText(fl, l))) == if HistoryFinite(l) then Some(l) else None
  {
    LedgerDoubles(fl, l);
    LedgerRead(fl, l);
    assert LedgerAfter(fl, l).decisions == l.decisions;
    hide Lawful, LedgerJson, Print, Parse, FromLedgerJson, HistoryFinite, LedgerTyped, TimesSurvive;
    ParsesBackExactlyWhenFinite(fl, LedgerJson(fl, l));
  }
}
