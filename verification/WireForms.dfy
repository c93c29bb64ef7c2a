/** What reports and ledgers say on the wire, name by name. */
module WireForms {
  import opened Basics
  import opened Floats
  import opened Json
  import opened Schema
  import opened Outcome
  import opened OutcomeProperties
  import opened Anomaly
  import opened Ledger
  import opened Intake

  // ----- names -----

  /** The names of tracks, processes, consents and folders, and the present version. */
  lemma Names()
    ensures ShowTrack(Pcb) == "pcb" && ShowTrack(WaferLitho(DuvMultiPattern)) == "wafer-litho:duv-multi-pattern"
    ensures ShowTrack(WaferLitho(Euv)) == "wafer-litho:euv" && ShowTrack(WaferLitho(Nil)) == "wafer-litho:nil"
    ensures ShowTrack(WaferLitho(Ebeam)) == "wafer-litho:ebeam"
    ensures ShowConsent(PrivateBilateral) == "private-bilateral" && ShowConsent(NoSharing) == "no-sharing"
    ensures ShowConsent(AggregatedContribution) == "aggregated-contribution"
    ensures DirName(Accepted) == "accepted" && DirName(Flagged) == "flagged" && DirName(Rejected) == "rejected"
    ensures Show(CURRENT) == "0.2"
  {
    assert "wafer-litho:" + "euv" == "wafer-litho:euv" && "wafer-litho:" + "nil" == "wafer-litho:nil";
    assert "wafer-litho:" + "ebeam" == "wafer-litho:ebeam";
    assert "wafer-litho:" + "duv-multi-pattern" == "wafer-litho:duv-multi-pattern";
  }

  /** Only these names are consents. */
  lemma ConsentNames(s: string, c: Consent)
    ensures ParseConsent(s) == Some(c) <==> s == ShowConsent(c)
  {
  }

  /** The prefix may stand more than once; after it, only these names are processes. */
  lemma TrackNames(s: string, t: Track)
    ensures ParseTrack(s) == Some(t) <==>
              match t
              case Pcb => s == "pcb"
              case WaferLitho(tech) => WAFER_PREFIX <= s && TrimPrefix(s) == ShowTech(tech)
  {
    assert "pcb"[0] == 'p' && WAFER_PREFIX[0] == 'w';
    hide TrimPrefix;
  }

  // ----- what a field of a report says -----

  /** The text under a key, the first of that name. */
  predicate SaysText(j: Json, key: string, s: string) {
    Get(j, key) == Some(Str(s))
  }

  /** The text under a key, or nothing where there is none. */
  predicate SaysTextOr(j: Json, key: string, s: string) {
    if Get(j, key).Some? && Get(j, key).value.Str? then Get(j, key).value.s == s else s == ""
  }

  /** The number under a key, or zero where there is none. */
  predicate SaysNumber(j: Json, key: string, n: F64) {
    if Get(j, key).Some? && Get(j, key).value.Num? then Get(j, key).value.n == n else n == Finite(0.0)
  }

  predicate SaysGeometry(j: Json, g: Geometry) {
    && SaysText(j, "feature_id", g.featureId) && g.featureId != ""
    && SaysNumber(j, "designed_um", g.designed) && SaysNumber(j, "measured_um", g.measured)
  }

  predicate SaysElectrical(j: Json, e: Electrical) {
    && SaysText(j, "link_id", e.linkId) && e.linkId != ""
    && SaysTextOr(j, "quantity", e.quantity) && SaysNumber(j, "designed", e.designed)
    && SaysNumber(j, "measured", e.measured) && SaysTextOr(j, "unit", e.unit)
  }

  predicate SaysNote(j: Json, n: Note) {
    && SaysTextOr(j, "parameter", n.parameter) && SaysNumber(j, "target", n.target)
    && SaysNumber(j, "actual", n.actual) && SaysTextOr(j, "unit", n.unit)
  }

  /** A whole number of units, however the number is written: cut towards zero, and into 64 bits. */
  ghost predicate SaysUnits(j: Json, key: string, n: u64) {
    exists x :: SaysNumber(j, key, x) && n == ToU64(x)
  }

  ghost predicate SaysYield(j: Json, y: Yield) {
    && SaysUnits(j, "units_started", y.started) && SaysUnits(j, "units_good", y.good)
    && (match y.mode
        case Some(m) => SaysText(j, "dominant_failure_mode", m)
        case None => forall m :: !SaysText(j, "dominant_failure_mode", m))
  }

  predicate SaysSignature(j: Json, s: Signature) {
    SaysText(j, "algorithm", s.algorithm) && SaysText(j, "key_id", s.keyId) && SaysText(j, "mac_hex", s.macHex)
  }

  /** An array whose elements say these, one by one. */
  ghost predicate SaysList<T(!new)>(j: Option<Json>, xs: seq<T>, says: (Json, T) -> bool) {
    && j.Some? && j.value.Arr? && |j.value.items| == |xs|
    && forall i :: 0 <= i < |xs| ==> says(j.value.items[i], xs[i])
  }

  ghost predicate SaysTrack(j: Json, t: Track) {
    exists s :: SaysText(j, "track", s) && ParseTrack(s) == Some(t)
  }

  /** What a report of the current version says, field by field; anything else in it does not matter. */
  ghost predicate SaysReport(v: Json, r: Report) {
    && SaysText(v, "payload_manifest_id", r.manifest)
    && SaysTrack(v, r.track)
    && SaysList(Get(v, "measured_geometry"), r.geometry, SaysGeometry)
    && SaysList(Get(v, "electrical_test"), r.electrical, SaysElectrical)
    && Get(v, "yield_outcome").Some? && SaysYield(Get(v, "yield_outcome").value, r.outcome)
    && Get(v, "process_notes").Some?
    && (if Get(v, "process_notes").value.Arr? then SaysList(Get(v, "process_notes"), r.notes, SaysNote) else r.notes == [])
    && SaysText(v, "consent", ShowConsent(r.consent))
    && r.version == CURRENT
    && (match r.signature
        case Some(s) => Get(v, "signature").Some? && SaysSignature(Get(v, "signature").value, s)
        case None => Get(v, "signature").None?)
  }

  // ----- reading takes exactly what is said -----

  lemma GeometryExactly(j: Json, g: Geometry)
    ensures ReadGeometry(j) == Some(g) <==> SaysGeometry(j, g)
  {
    hide Get;
  }

  lemma ElectricalExactly(j: Json, e: Electrical)
    ensures ReadElectrical(j) == Some(e) <==> SaysElectrical(j, e)
  {
    hide Get;
  }

  lemma NoteExactly(j: Json, n: Note)
    ensures ReadNote(j) == n <==> SaysNote(j, n)
  {
    hide Get;
  }

  lemma UnitsExactly(j: Json, key: string, n: u64)
    ensures ToU64(NumOr0(j, key)) == n <==> SaysUnits(j, key, n)
  {
    hide Get, ToU64;
    assert SaysNumber(j, key, NumOr0(j, key));
    assert forall x :: SaysNumber(j, key, x) ==> x == NumOr0(j, key);
  }

  lemma YieldExactly(j: Json, y: Yield)
    ensures ReadYield(j) == y <==> SaysYield(j, y)
  {
    UnitsExactly(j, "units_started", y.started);
    UnitsExactly(j, "units_good", y.good);
    hide Get, ToU64, SaysUnits, NumOr0;
    var m := Get(j, "dominant_failure_mode");
    if m.Some? && m.value.Str? {
      assert SaysText(j, "dominant_failure_mode", m.value.s);
    }
  }

  lemma SignatureExactly(j: Json, s: Signature)
    ensures ReadSignature(j) == Some(s) <==> SaysSignature(j, s)
  {
    hide Get;
  }

  lemma {:induction false} EachExactly<T>(read: Json -> Option<T>, says: (Json, T) -> bool, items: seq<Json>, xs: seq<T>)
    requires forall j, x :: read(j) == Some(x) <==> says(j, x)
    ensures ReadEach(read, items) == Some(xs) <==>
              |items| == |xs| && forall i :: 0 <= i < |xs| ==> says(items[i], xs[i])
    decreases items
  {
    if items == [] {
      assert ReadEach(read, items) == Some([]);
    } else if xs != [] {
      EachExactly(read, says, items[1..], xs[1..]);
      assert xs == [xs[0]] + xs[1..];
      assert says(items[0], xs[0]) <==> read(items[0]) == Some(xs[0]);
      if |items| == |xs| && forall i :: 0 <= i < |xs| ==> says(items[i], xs[i]) {
        assert forall i :: 0 <= i < |xs[1..]| ==> items[1..][i] == items[i + 1] && xs[1..][i] == xs[i + 1];
      }
      if ReadEach(read, items) == Some(xs) {
        var ys := ReadEach(read, items[1..]).value;
        assert ([read(items[0]).value] + ys)[1..] == ys;
        forall i | 0 <= i < |xs| ensures says(items[i], xs[i]) {
          if i > 0 {
            assert items[1..][i - 1] == items[i] && xs[1..][i - 1] == xs[i];
          }
        }
      }
    }
  }

  lemma GeometriesExactly(j: Option<Json>, gs: seq<Geometry>)
    ensures SaysList(j, gs, SaysGeometry) <==> AsArr(j).Some? && ReadEach(ReadGeometry, AsArr(j).value) == Some(gs)
  {
    forall x, g ensures ReadGeometry(x) == Some(g) <==> SaysGeometry(x, g) {
      GeometryExactly(x, g);
    }
    hide ReadGeometry, SaysGeometry, ReadEach;
    if AsArr(j).Some? {
      EachExactly(ReadGeometry, SaysGeometry, j.value.items, gs);
    }
  }

  lemma ElectricalsExactly(j: Option<Json>, es: seq<Electrical>)
    ensures SaysList(j, es, SaysElectrical) <==> AsArr(j).Some? && ReadEach(ReadElectrical, AsArr(j).value) == Some(es)
  {
    forall x, e ensures ReadElectrical(x) == Some(e) <==> SaysElectrical(x, e) {
      ElectricalExactly(x, e);
    }
    hide ReadElectrical, SaysElectrical, ReadEach;
    if AsArr(j).Some? {
      EachExactly(ReadElectrical, SaysElectrical, j.value.items, es);
    }
  }

  lemma NotesExactly(items: seq<Json>, ns: seq<Note>)
    ensures Map(ReadNote, items) == ns <==> |items| == |ns| && forall i :: 0 <= i < |ns| ==> SaysNote(items[i], ns[i])
  {
    forall x, n ensures ReadNote(x) == n <==> SaysNote(x, n) {
      NoteExactly(x, n);
    }
    hide ReadNote, SaysNote;
    var read := Map(ReadNote, items);
    if |items| == |ns| && forall i :: 0 <= i < |ns| ==> SaysNote(items[i], ns[i]) {
      assert forall i :: 0 <= i < |ns| ==> read[i] == ns[i];
    }
  }

  lemma TrackExactly(j: Json, t: Track)
    ensures SaysTrack(j, t) <==> AsStr(Get(j, "track")).Some? && ParseTrack(AsStr(Get(j, "track")).value) == Some(t)
  {
    hide Get, ParseTrack;
    var s := AsStr(Get(j, "track"));
    if s.Some? {
      assert SaysText(j, "track", s.value);
    }
  }

  /** A report of the current version is read exactly as what its fields say: so it is refused when a field
      that must be there is missing or of another kind, when an identifier is empty, or when a track, a
      consent or a signature is not one; and missing numbers and texts are zero and empty. */
  lemma ReadExactly(v: Json, r: Report)
    ensures FromCurrent(v) == Some(r) <==> SaysReport(v, r)
  {
    GeometriesExactly(Get(v, "measured_geometry"), r.geometry);
    ElectricalsExactly(Get(v, "electrical_test"), r.electrical);
    var y, ns, c, s := Get(v, "yield_outcome"), Get(v, "process_notes"), AsStr(Get(v, "consent")), Get(v, "signature");
    hide Get, ReadEach, ReadYield, SaysYield, ReadSignature, SaysSignature, ParseTrack, ParseConsent, ShowConsent, Map;
    TrackExactly(v, r.track);
    hide SaysTrack;
    if y.Some? {
      YieldExactly(y.value, r.outcome);
    }
    if AsArr(ns).Some? {
      NotesExactly(ns.value.items, r.notes);
    }
    if c.Some? {
      ConsentNames(c.value, r.consent);
    }
    if s.Some? && r.signature.Some? {
      SignatureExactly(s.value, r.signature.value);
    }
  }

  // ----- older reports -----

  /** Migration keeps every other field, says the current version, and turns a text of notes into one note. */
  lemma MigrationKeeps(j: Json, key: string)
    requires j.Obj?
    ensures Get(Migrate(j), key) ==
              if Get(j, key).None? then None
              else if key == "schema_version" then Some(Str("0.2"))
              else if key == "process_notes" && Get(j, key).value.Str? then Some(LegacyNote(Get(j, key).value.s))
              else Get(j, key)
  {
    Names();
    hide Show, LegacyNote;
    MigrationLooksUp(j.entries, key);
  }

  lemma {:induction false} MigrationLooksUp(es: seq<Entry>, key: string)
    ensures Lookup(RefreshVersions(MigrateNotes(es)), key) ==
              if Lookup(es, key).None? then None
              else if key == "schema_version" then Some(Str(Show(CURRENT)))
              else if key == "process_notes" && Lookup(es, key).value.Str? then Some(LegacyNote(Lookup(es, key).value.s))
              else Lookup(es, key)
  {
    hide Show, LegacyNote;
    if es != [] {
      var ms := MigrateNotes(es);
      assert RefreshVersions(ms)[1..] == RefreshVersions(ms[1..]);
      if es[0].key == "process_notes" {
        assert ms[1..] == es[1..];
        RefreshLooksUp(es[1..], key);
      } else {
        assert ms[1..] == MigrateNotes(es[1..]);
        MigrationLooksUp(es[1..], key);
      }
    }
  }

  lemma {:induction false} RefreshLooksUp(es: seq<Entry>, key: string)
    ensures Lookup(RefreshVersions(es), key) ==
              if Lookup(es, key).None? then None
              else if key == "schema_version" then Some(Str(Show(CURRENT))) else Lookup(es, key)
  {
    hide Show;
    if es != [] {
      assert RefreshVersions(es)[1..] == RefreshVersions(es[1..]);
      RefreshLooksUp(es[1..], key);
    }
  }

  /** What a migrated text of notes is read as: one note without name or numbers. */
  lemma LegacyNoteRead(text: string)
    ensures SaysList(Some(LegacyNote(text)), [Note("", Finite(0.0), Finite(0.0), "-")], SaysNote)
  {
    var es := LegacyNote(text).items[0].entries;
    LookupAt(es, 0);
    LookupAt(es, 1);
    LookupAt(es, 2);
    LookupAt(es, 3);
    hide Lookup;
  }

  // ----- the ledger -----

  /** Each list of a saved ledger stands under its own name. */
  lemma LedgerNames(fl: Floating, l: Ledger)
    ensures var j := LedgerJson(fl, l);
            var h := Get(j, "history");
            && h.Some? && Get(j, "decisions") == Some(Arr(Map(d => RecordJson(fl, d), l.decisions)))
            && Get(h.value, "yield") == Some(Arr(Map(NumJson, l.yieldRates)))
            && Get(h.value, "geometry") == Some(Arr(Map(NumJson, l.geometry)))
            && Get(h.value, "electrical") == Some(Arr(Map(NumJson, l.electrical)))
  {
    hide RecordJson, Map;
    LookupAt(LedgerJson(fl, l).entries, 0);
    LookupAt(LedgerJson(fl, l).entries, 1);
    LookupAt(HistoryJson(l).entries, 0);
    LookupAt(HistoryJson(l).entries, 1);
    LookupAt(HistoryJson(l).entries, 2);
    hide Lookup;
  }
}
