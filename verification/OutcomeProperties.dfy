/** Reports survive their JSON text exactly when nothing in them is lost on the way. */
module OutcomeProperties {
  import opened Basics
  import opened Floats
  import opened Json
  import opened JsonProperties
  import opened Schema
  import opened Outcome

  // ----- lookups -----

  lemma {:induction false} LookupAt(entries: seq<Entry>, i: nat)
    requires i < |entries| && forall j :: 0 <= j < i ==> entries[j].key != entries[i].key
    ensures Lookup(entries, entries[i].key) == Some(entries[i].value)
    decreases i
  {
    if i > 0 {
      LookupAt(entries[1..], i - 1);
    }
  }

  lemma {:induction false} LookupMissing(entries: seq<Entry>, key: string)
    requires forall j :: 0 <= j < |entries| ==> entries[j].key != key
    ensures Lookup(entries, key) == None
  {
    if entries != [] {
      LookupMissing(entries[1..], key);
    }
  }

  /** The names of the fields, in order. */
  const FIELDS: seq<string> := [
    "payload_manifest_id", "track", "measured_geometry", "electrical_test", "yield_outcome", "process_notes", "consent",
    "schema_version", "signature"]

  lemma FieldNamesDiffer(i: nat, j: nat)
    requires i < j < |FIELDS|
    ensures FIELDS[i] != FIELDS[j]
  {
    assert |FIELDS[0]| == 19 && |FIELDS[1]| == 5 && |FIELDS[2]| == 17 && |FIELDS[3]| == 15 && |FIELDS[4]| == 13
           && |FIELDS[5]| == 13 && |FIELDS[6]| == 7 && |FIELDS[7]| == 14 && |FIELDS[8]| == 9;
    assert FIELDS[4][0] == 'y' && FIELDS[5][0] == 'p';
  }

  /** Each field of a written report is found under its name, and the signature only when there is one. */
  lemma FieldLookups(fl: Floating, r: Report, k: nat)
    requires k < 9
    ensures k < 8 ==> Get(ToJson(fl, r), FIELDS[k]) == Some(Fields(fl, r)[k].value)
    ensures Get(ToJson(fl, r), "signature") == if r.signature.Some? then Some(SignatureJson(r.signature.value)) else None
  {
    var es := Fields(fl, r) + SignatureFields(r.signature);
    KeysInOrder(fl, r);
    hide Fields, SignatureJson;
    forall i, j | 0 <= i < j < |es| ensures es[i].key != es[j].key {
      FieldNamesDiffer(i, j);
    }
    if k < 8 {
      LookupAt(es, k);
    }
    if r.signature.Some? {
      LookupAt(es, 8);
    } else {
      forall j | 0 <= j < |es| ensures es[j].key != "signature" {
        FieldNamesDiffer(j, 8);
      }
      LookupMissing(es, "signature");
    }
  }

  lemma KeysInOrder(fl: Floating, r: Report)
    ensures var es := Fields(fl, r) + SignatureFields(r.signature);
            && |es| == (if r.signature.Some? then 9 else 8) && |Fields(fl, r)| == 8
            && (forall i :: 0 <= i < |es| ==> es[i].key == FIELDS[i])
            && (forall i :: 0 <= i < 8 ==> es[i] == Fields(fl, r)[i])
            && (r.signature.Some? ==> es[8].value == SignatureJson(r.signature.value))
  {
    hide Show, ShowTrack, ShowConsent, YieldJson, SignatureJson;
  }

  // ----- parts -----

  lemma {:induction false} ReadEachMap<T>(read: Json -> Option<T>, write: T -> Json, xs: seq<T>)
    requires forall i :: 0 <= i < |xs| ==> read(write(xs[i])) == Some(xs[i])
    ensures ReadEach(read, Map(write, xs)) == Some(xs)
  {
    if xs != [] {
      ReadEachMap(read, write, xs[1..]);
      assert Map(write, xs)[1..] == Map(write, xs[1..]);
      assert [xs[0]] + xs[1..] == xs;
    }
  }

  lemma {:induction false} ReadEachFails<T>(read: Json -> Option<T>, items: seq<Json>, i: nat)
    requires i < |items| && read(items[i]).None?
    ensures ReadEach(read, items) == None
    decreases i
  {
    if i > 0 {
      ReadEachFails(read, items[1..], i - 1);
    }
  }

  lemma GeometryRoundTrip(g: Geometry)
    ensures ReadGeometry(GeometryJson(g)) == if g.featureId == "" then None else Some(g)
  {
    var es := GeometryJson(g).entries;
    LookupAt(es, 0);
    LookupAt(es, 1);
    LookupAt(es, 2);
    hide Lookup;
  }

  lemma ElectricalRoundTrip(e: Electrical)
    ensures ReadElectrical(ElectricalJson(e)) == if e.linkId == "" then None else Some(e)
  {
    var es := ElectricalJson(e).entries;
    LookupAt(es, 0);
    LookupAt(es, 1);
    assert es[0].key != es[2].key && es[1].key != es[2].key;
    assert es[2].key[0] == 'd' && es[3].key[0] == 'm' && es[1].key[0] == 'q';
    LookupAt(es, 2);
    LookupAt(es, 3);
    LookupAt(es, 4);
    hide Lookup;
  }

  lemma NoteRoundTrip(n: Note)
    ensures ReadNote(NoteJson(n)) == n
  {
    var es := NoteJson(n).entries;
    assert es[1].key[0] == 't' && es[2].key[0] == 'a';
    LookupAt(es, 0);
    LookupAt(es, 1);
    LookupAt(es, 2);
    LookupAt(es, 3);
    hide Lookup;
  }

  lemma YieldAfter(fl: Floating, y: Yield)
    ensures ReadYield(YieldJson(fl, y)) == Yield(ToU64(FromU64(fl, y.started)), ToU64(FromU64(fl, y.good)), y.mode)
  {
    var es := YieldJson(fl, y).entries;
    LookupAt(es, 0);
    LookupAt(es, 1);
    LookupAt(es, 2);
    hide Lookup, ToU64, FromU64;
  }

  lemma SignatureRoundTrip(s: Signature)
    ensures ReadSignature(SignatureJson(s)) == Some(s)
  {
    var es := SignatureJson(s).entries;
    LookupAt(es, 0);
    LookupAt(es, 1);
    LookupAt(es, 2);
    hide Lookup;
  }

  lemma GeometriesRead(gs: seq<Geometry>)
    ensures ReadEach(ReadGeometry, Map(GeometryJson, gs)) ==
              if exists i :: 0 <= i < |gs| && gs[i].featureId == "" then None else Some(gs)
  {
    hide ReadGeometry, GeometryJson;
    forall i | 0 <= i < |gs|
      ensures ReadGeometry(GeometryJson(gs[i])) == if gs[i].featureId == "" then None else Some(gs[i]) {
      GeometryRoundTrip(gs[i]);
    }
    if i :| 0 <= i < |gs| && gs[i].featureId == "" {
      ReadEachFails(ReadGeometry, Map(GeometryJson, gs), i);
    } else {
      ReadEachMap(ReadGeometry, GeometryJson, gs);
    }
  }

  lemma ElectricalsRead(es: seq<Electrical>)
    ensures ReadEach(ReadElectrical, Map(ElectricalJson, es)) ==
              if exists i :: 0 <= i < |es| && es[i].linkId == "" then None else Some(es)
  {
    hide ReadElectrical, ElectricalJson;
    forall i | 0 <= i < |es|
      ensures ReadElectrical(ElectricalJson(es[i])) == if es[i].linkId == "" then None else Some(es[i]) {
      ElectricalRoundTrip(es[i]);
    }
    if i :| 0 <= i < |es| && es[i].linkId == "" {
      ReadEachFails(ReadElectrical, Map(ElectricalJson, es), i);
    } else {
      ReadEachMap(ReadElectrical, ElectricalJson, es);
    }
  }

  lemma NotesRead(ns: seq<Note>)
    ensures Map(ReadNote, Map(NoteJson, ns)) == ns
  {
    hide ReadNote, NoteJson;
    forall i | 0 <= i < |ns| ensures Map(ReadNote, Map(NoteJson, ns))[i] == ns[i] {
      NoteRoundTrip(ns[i]);
    }
  }

  // ----- the value -----

  predicate IdsPresent(r: Report) {
    && (forall i :: 0 <= i < |r.geometry| ==> r.geometry[i].featureId != "")
    && (forall i :: 0 <= i < |r.electrical| ==> r.electrical[i].linkId != "")
  }

  function AfterCounts(fl: Floating, r: Report): Report {
    r.(outcome := r.outcome.(started := ToU64(FromU64(fl, r.outcome.started)), good := ToU64(FromU64(fl, r.outcome.good))))
  }

  lemma FieldsFound(fl: Floating, r: Report)
    ensures var j := ToJson(fl, r);
            && Get(j, "payload_manifest_id") == Some(Str(r.manifest))
            && Get(j, "track") == Some(Str(ShowTrack(r.track)))
            && Get(j, "measured_geometry") == Some(Arr(Map(GeometryJson, r.geometry)))
            && Get(j, "electrical_test") == Some(Arr(Map(ElectricalJson, r.electrical)))
            && Get(j, "yield_outcome") == Some(YieldJson(fl, r.outcome))
            && Get(j, "process_notes") == Some(Arr(Map(NoteJson, r.notes)))
            && Get(j, "consent") == Some(Str(ShowConsent(r.consent)))
            && Get(j, "schema_version") == Some(Str(Show(r.version)))
            && Get(j, "signature") == (if r.signature.Some? then Some(SignatureJson(r.signature.value)) else None)
  {
    hide Get, ToJson, ShowTrack, ShowConsent, YieldJson, SignatureJson, Show, Map;
    forall k: nat | k < 8 ensures Get(ToJson(fl, r), FIELDS[k]) == Some(Fields(fl, r)[k].value) {
      FieldLookups(fl, r, k);
    }
    FieldLookups(fl, r, 8);
    assert FIELDS[0] == "payload_manifest_id" && FIELDS[1] == "track" && FIELDS[2] == "measured_geometry"
           && FIELDS[3] == "electrical_test" && FIELDS[4] == "yield_outcome" && FIELDS[5] == "process_notes"
           && FIELDS[6] == "consent" && FIELDS[7] == "schema_version";
  }

  /** What reading makes of a written report of the current version: the report with its counts as
      doubles leave them, or nothing when an identifier is empty. */
  lemma ReadOfWritten(fl: Floating, r: Report)
    requires r.version == CURRENT
    ensures FromJson(ToJson(fl, r)) == if IdsPresent(r) then Some(AfterCounts(fl, r)) else None
  {
    hide Get, ParseTrack, ShowTrack, ParseConsent, ShowConsent, ReadEach, Map, ReadYield, YieldJson, ReadSignature,
      SignatureJson, ParseVersion, Show, ToU64, FromU64, ToJson;
    FieldsFound(fl, r);
    VersionRoundTrip(CURRENT);
    TrackRoundTrip(r.track);
    ConsentRoundTrip(r.consent);
    GeometriesRead(r.geometry);
    ElectricalsRead(r.electrical);
    NotesRead(r.notes);
    YieldAfter(fl, r.outcome);
    if r.signature.Some? {
      SignatureRoundTrip(r.signature.value);
    }
  }

  lemma ReadIsCurrent(j: Json)
    ensures FromJson(j).Some? ==> FromJson(j).value.version == CURRENT
  {
    hide EnsureCurrent, ReadEach, ParseTrack, ParseConsent, ReadYield, ReadSignature, Get;
  }

  // ----- numbers -----

  lemma {:induction false} EntriesDoubles(fl: Floating, es: seq<Entry>)
    ensures AllEntriesDoubles(fl, es) <==> forall i :: 0 <= i < |es| ==> AllDoubles(fl, es[i].value)
    ensures EntriesRepresentable(fl, es) <==> forall i :: 0 <= i < |es| ==> Representable(fl, es[i].value)
  {
    hide AllDoubles, Representable;
    if es != [] {
      EntriesDoubles(fl, es[1..]);
      assert forall i :: 0 < i < |es| ==> es[i] == es[1..][i - 1];
    }
  }

  lemma {:induction false} ItemsDoubles(fl: Floating, js: seq<Json>)
    ensures AllItemsDoubles(fl, js) <==> forall i :: 0 <= i < |js| ==> AllDoubles(fl, js[i])
    ensures ItemsRepresentable(fl, js) <==> forall i :: 0 <= i < |js| ==> Representable(fl, js[i])
  {
    hide AllDoubles, Representable;
    if js != [] {
      ItemsDoubles(fl, js[1..]);
      assert forall i :: 0 < i < |js| ==> js[i] == js[1..][i - 1];
    }
  }

  /** A double, an infinity or NaN: what a field of type f64 can hold. */
  predicate IsF64(fl: Floating, x: F64) {
    x.Finite? ==> fl.isDouble(x.r)
  }

  predicate GeometryNumbers(fl: Floating, g: Geometry) {
    IsDouble(fl, g.designed) && IsDouble(fl, g.measured)
  }

  predicate ElectricalNumbers(fl: Floating, e: Electrical) {
    IsDouble(fl, e.designed) && IsDouble(fl, e.measured)
  }

  predicate NoteNumbers(fl: Floating, n: Note) {
    IsDouble(fl, n.target) && IsDouble(fl, n.actual)
  }

  /** All measured values are finite, and so are the counts as doubles. */
  predicate NumbersFinite(fl: Floating, r: Report) {
    && (forall i :: 0 <= i < |r.geometry| ==> GeometryNumbers(fl, r.geometry[i]))
    && (forall i :: 0 <= i < |r.electrical| ==> ElectricalNumbers(fl, r.electrical[i]))
    && (forall i :: 0 <= i < |r.notes| ==> NoteNumbers(fl, r.notes[i]))
    && IsDouble(fl, FromU64(fl, r.outcome.started)) && IsDouble(fl, FromU64(fl, r.outcome.good))
  }

  predicate NumbersTyped(fl: Floating, r: Report) {
    && (forall i :: 0 <= i < |r.geometry| ==> IsF64(fl, r.geometry[i].designed) && IsF64(fl, r.geometry[i].measured))
    && (forall i :: 0 <= i < |r.electrical| ==> IsF64(fl, r.electrical[i].designed) && IsF64(fl, r.electrical[i].measured))
    && (forall i :: 0 <= i < |r.notes| ==> IsF64(fl, r.notes[i].target) && IsF64(fl, r.notes[i].actual))
  }

  lemma GeometryDoubles(fl: Floating, g: Geometry)
    ensures AllDoubles(fl, GeometryJson(g)) <==> GeometryNumbers(fl, g)
    ensures IsF64(fl, g.designed) && IsF64(fl, g.measured) ==> Representable(fl, GeometryJson(g))
  {
    EntriesDoubles(fl, GeometryJson(g).entries);
    hide AllEntriesDoubles, EntriesRepresentable;
    var es := GeometryJson(g).entries;
    assert es[1].value == Num(g.designed) && es[2].value == Num(g.measured);
  }

  lemma ElectricalDoubles(fl: Floating, e: Electrical)
    ensures AllDoubles(fl, ElectricalJson(e)) <==> ElectricalNumbers(fl, e)
    ensures IsF64(fl, e.designed) && IsF64(fl, e.measured) ==> Representable(fl, ElectricalJson(e))
  {
    EntriesDoubles(fl, ElectricalJson(e).entries);
    hide AllEntriesDoubles, EntriesRepresentable;
    var es := ElectricalJson(e).entries;
    assert es[2].value == Num(e.designed) && es[3].value == Num(e.measured);
  }

  lemma NoteDoubles(fl: Floating, n: Note)
    ensures AllDoubles(fl, NoteJson(n)) <==> NoteNumbers(fl, n)
    ensures IsF64(fl, n.target) && IsF64(fl, n.actual) ==> Representable(fl, NoteJson(n))
  {
    EntriesDoubles(fl, NoteJson(n).entries);
    hide AllEntriesDoubles, EntriesRepresentable;
    var es := NoteJson(n).entries;
    assert es[1].value == Num(n.target) && es[2].value == Num(n.actual);
  }

  lemma YieldDoubles(fl: Floating, y: Yield)
    requires Lawful(fl)
    ensures AllDoubles(fl, YieldJson(fl, y)) <==> IsDouble(fl, FromU64(fl, y.started)) && IsDouble(fl, FromU64(fl, y.good))
    ensures Representable(fl, YieldJson(fl, y))
  {
    EntriesDoubles(fl, YieldJson(fl, y).entries);
    hide AllEntriesDoubles, EntriesRepresentable;
    var es := YieldJson(fl, y).entries;
    assert es[0].value == Num(FromU64(fl, y.started)) && es[1].value == Num(FromU64(fl, y.good));
    assert FromU64(fl, y.started) == fl.round(y.started as real) && FromU64(fl, y.good) == fl.round(y.good as real);
  }

  lemma SignatureDoubles(fl: Floating, s: Signature)
    ensures AllDoubles(fl, SignatureJson(s)) && Representable(fl, SignatureJson(s))
  {
    EntriesDoubles(fl, SignatureJson(s).entries);
    hide AllEntriesDoubles, EntriesRepresentable;
  }

  lemma GeometriesDoubles(fl: Floating, gs: seq<Geometry>)
    ensures AllDoubles(fl, Arr(Map(GeometryJson, gs))) <==> forall i :: 0 <= i < |gs| ==> GeometryNumbers(fl, gs[i])
    ensures (forall i :: 0 <= i < |gs| ==> IsF64(fl, gs[i].designed) && IsF64(fl, gs[i].measured))
            ==> Representable(fl, Arr(Map(GeometryJson, gs)))
  {
    var js := Map(GeometryJson, gs);
    ItemsDoubles(fl, js);
    assert AllDoubles(fl, Arr(js)) == AllItemsDoubles(fl, js) && Representable(fl, Arr(js)) == ItemsRepresentable(fl, js);
    hide AllDoubles, Representable, GeometryJson, GeometryNumbers, IsF64;
    forall i | 0 <= i < |gs|
      ensures AllDoubles(fl, js[i]) <==> GeometryNumbers(fl, gs[i])
      ensures IsF64(fl, gs[i].designed) && IsF64(fl, gs[i].measured) ==> Representable(fl, js[i]) {
      GeometryDoubles(fl, gs[i]);
    }
  }

  lemma ElectricalsDoubles(fl: Floating, es: seq<Electrical>)
    ensures AllDoubles(fl, Arr(Map(ElectricalJson, es))) <==> forall i :: 0 <= i < |es| ==> ElectricalNumbers(fl, es[i])
    ensures (forall i :: 0 <= i < |es| ==> IsF64(fl, es[i].designed) && IsF64(fl, es[i].measured))
            ==> Representable(fl, Arr(Map(ElectricalJson, es)))
  {
    var js := Map(ElectricalJson, es);
    ItemsDoubles(fl, js);
    assert AllDoubles(fl, Arr(js)) == AllItemsDoubles(fl, js) && Representable(fl, Arr(js)) == ItemsRepresentable(fl, js);
    hide AllDoubles, Representable, ElectricalJson, ElectricalNumbers, IsF64;
    forall i | 0 <= i < |es|
      ensures AllDoubles(fl, js[i]) <==> ElectricalNumbers(fl, es[i])
      ensures IsF64(fl, es[i].designed) && IsF64(fl, es[i].measured) ==> Representable(fl, js[i]) {
      ElectricalDoubles(fl, es[i]);
    }
  }

  lemma NotesDoubles(fl: Floating, ns: seq<Note>)
    ensures AllDoubles(fl, Arr(Map(NoteJson, ns))) <==> forall i :: 0 <= i < |ns| ==> NoteNumbers(fl, ns[i])
    ensures (forall i :: 0 <= i < |ns| ==> IsF64(fl, ns[i].target) && IsF64(fl, ns[i].actual))
            ==> Representable(fl, Arr(Map(NoteJson, ns)))
  {
    var js := Map(NoteJson, ns);
    ItemsDoubles(fl, js);
    assert AllDoubles(fl, Arr(js)) == AllItemsDoubles(fl, js) && Representable(fl, Arr(js)) == ItemsRepresentable(fl, js);
    hide AllDoubles, Representable, NoteJson, NoteNumbers, IsF64;
    forall i | 0 <= i < |ns|
      ensures AllDoubles(fl, js[i]) <==> NoteNumbers(fl, ns[i])
      ensures IsF64(fl, ns[i].target) && IsF64(fl, ns[i].actual) ==> Representable(fl, js[i]) {
      NoteDoubles(fl, ns[i]);
    }
  }

  lemma ReportDoubles(fl: Floating, r: Report)
    requires Lawful(fl) && NumbersTyped(fl, r)
    ensures AllDoubles(fl, ToJson(fl, r)) <==> NumbersFinite(fl, r)
    ensures Representable(fl, ToJson(fl, r))
  {
    hide Lawful, Map, GeometryNumbers, ElectricalNumbers, NoteNumbers, IsF64, IsDouble, FromU64, ShowTrack, Show, ShowConsent,
      AllEntriesDoubles, EntriesRepresentable, AllItemsDoubles, ItemsRepresentable, YieldJson, SignatureJson;
    var es := Fields(fl, r) + SignatureFields(r.signature);
    EntriesDoubles(fl, es);
    GeometriesDoubles(fl, r.geometry);
    ElectricalsDoubles(fl, r.electrical);
    NotesDoubles(fl, r.notes);
    YieldDoubles(fl, r.outcome);
    if r.signature.Some? {
      SignatureDoubles(fl, r.signature.value);
    }
    assert es[2] == Fields(fl, r)[2] && es[3] == Fields(fl, r)[3] && es[4] == Fields(fl, r)[4] && es[5] == Fields(fl, r)[5];
  }

  // ----- the file -----

  /** The current version, no empty identifier, finite numbers, and counts that a double can hold. */
  predicate Storable(fl: Floating, r: Report) {
    && r.version == CURRENT && IdsPresent(r) && NumbersFinite(fl, r)
    && CountSurvives(fl, r.outcome.started) && CountSurvives(fl, r.outcome.good)
  }

  /** A report written to a file is read back unchanged if and only if it says the current version, none of
      its identifiers is empty, all its numbers are finite, and its unit counts survive as doubles. */
  lemma ReportRoundTripsExactlyWhenStorable(fl: Floating, r: Report)
    requires Lawful(fl) && NumbersTyped(fl, r)
    ensures ReadReport(fl, WriteReport(fl, r)) == Some(r) <==> Storable(fl, r)
  {
    hide Lawful, ToJson, FromJson, Print, Parse, NumbersFinite, NumbersTyped, IdsPresent, ToU64, FromU64;
    ReportDoubles(fl, r);
    ParsesBackExactlyWhenFinite(fl, ToJson(fl, r));
    ReadIsCurrent(ToJson(fl, r));
    if r.version == CURRENT {
      ReadOfWritten(fl, r);
    }
  }

  /** In particular every finite report of the current version with identifiers and counts up to 2^53. */
  lemma OrdinaryReportsAreStorable(fl: Floating, r: Report)
    requires Lawful(fl) && r.version == CURRENT && IdsPresent(r)
    requires forall i :: 0 <= i < |r.geometry| ==> GeometryNumbers(fl, r.geometry[i])
    requires forall i :: 0 <= i < |r.electrical| ==> ElectricalNumbers(fl, r.electrical[i])
    requires forall i :: 0 <= i < |r.notes| ==> NoteNumbers(fl, r.notes[i])
    requires r.outcome.started <= EXACT && r.outcome.good <= EXACT
    ensures Storable(fl, r)
  {
    SmallCountsSurvive(fl, r.outcome.started);
    SmallCountsSurvive(fl, r.outcome.good);
  }
}
