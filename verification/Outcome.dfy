/** Outcome reports and their JSON form. */
module Outcome {
  import opened Basics
  import opened Floats
  import opened Json
  import opened JsonProperties
  import opened Schema

  type u64 = n: int | 0 <= n < 0x1_0000_0000_0000_0000

  datatype WaferTech = DuvMultiPattern | Euv | Nil | Ebeam

  datatype Track = Pcb | WaferLitho(tech: WaferTech)

  datatype Geometry = Geometry(featureId: string, designed: F64, measured: F64)

  datatype Electrical = Electrical(linkId: string, quantity: string, designed: F64, measured: F64, unit: string)

  datatype Yield = Yield(started: u64, good: u64, mode: Option<string>)

  datatype Note = Note(parameter: string, target: F64, actual: F64, unit: string)

  datatype Consent = PrivateBilateral | AggregatedContribution | NoSharing

  datatype Signature = Signature(algorithm: string, keyId: string, macHex: string)

  datatype Report = Report(
    manifest: string,
    track: Track,
    geometry: seq<Geometry>,
    electrical: seq<Electrical>,
    outcome: Yield,
    notes: seq<Note>,
    consent: Consent,
    version: Version,
    signature: Option<Signature>)

  // ----- wire names -----

  function ShowTech(t: WaferTech): string {
    match t
    case DuvMultiPattern => "duv-multi-pattern"
    case Euv => "euv"
    case Nil => "nil"
    case Ebeam => "ebeam"
  }

  function ParseTech(s: string): Option<WaferTech> {
    if s == "duv-multi-pattern" then Some(DuvMultiPattern)
    else if s == "euv" then Some(Euv)
    else if s == "nil" then Some(Nil)
    else if s == "ebeam" then Some(Ebeam)
    else None
  }

  const WAFER_PREFIX := "wafer-litho:"

  function ShowTrack(t: Track): string {
    match t
    case Pcb => "pcb"
    case WaferLitho(tech) => WAFER_PREFIX + ShowTech(tech)
  }

  /** `trim_start_matches`: the prefix goes as often as it stands there. */
  function TrimPrefix(s: string): string {
    if WAFER_PREFIX <= s then TrimPrefix(s[|WAFER_PREFIX|..]) else s
  }

  function ParseTrack(s: string): Option<Track> {
    if s == "pcb" then Some(Pcb)
    else if WAFER_PREFIX <= s then
      (match ParseTech(TrimPrefix(s)) case None => None case Some(tech) => Some(WaferLitho(tech)))
    else None
  }

  function ShowConsent(c: Consent): string {
    match c
    case PrivateBilateral => "private-bilateral"
    case AggregatedContribution => "aggregated-contribution"
    case NoSharing => "no-sharing"
  }

  function ParseConsent(s: string): Option<Consent> {
    if s == "private-bilateral" then Some(PrivateBilateral)
    else if s == "aggregated-contribution" then Some(AggregatedContribution)
    else if s == "no-sharing" then Some(NoSharing)
    else None
  }

  lemma TechRoundTrip(t: WaferTech)
    ensures ParseTech(ShowTech(t)) == Some(t) && TrimPrefix(ShowTech(t)) == ShowTech(t)
  {
    assert ShowTech(t)[0] != 'w';
  }

  lemma TrackRoundTrip(t: Track)
    ensures ParseTrack(ShowTrack(t)) == Some(t)
  {
    match t
    case Pcb =>
    case WaferLitho(tech) =>
      TechRoundTrip(tech);
      var s := ShowTrack(t);
      assert WAFER_PREFIX <= s && s[|WAFER_PREFIX|..] == ShowTech(tech);
      assert s[0] == 'w';
      hide ShowTech, ParseTech;
  }

  lemma ConsentRoundTrip(c: Consent)
    ensures ParseConsent(ShowConsent(c)) == Some(c)
  {
  }

  // ----- counts -----

  /** `as f64`. */
  function FromU64(fl: Floating, n: u64): F64 {
    fl.round(n as real)
  }

  const MAX_U64 := 0xFFFF_FFFF_FFFF_FFFF

  /** `as u64`: towards zero, saturating, with NaN as zero. */
  function ToU64(x: F64): u64 {
    match x
    case Finite(r) => if r < 0.0 then 0 else if r.Floor > MAX_U64 then MAX_U64 else r.Floor
    case Infinite(negative) => if negative then 0 else MAX_U64
    case NaN => 0
  }

  /** A count that survives the trip through a double; every one up to 2^53 does. */
  predicate CountSurvives(fl: Floating, n: u64) {
    ToU64(FromU64(fl, n)) == n
  }

  lemma SmallCountsSurvive(fl: Floating, n: u64)
    requires Lawful(fl) && n <= EXACT
    ensures CountSurvives(fl, n) && IsDouble(fl, FromU64(fl, n))
  {
    assert IntegerIsDouble(fl, n);
    assert (n as real).Floor == n;
  }

  // ----- writing -----

  function GeometryJson(g: Geometry): Json {
    Obj([Entry("feature_id", Str(g.featureId)), Entry("designed_um", Num(g.designed)), Entry("measured_um", Num(g.measured))])
  }

  function ElectricalJson(e: Electrical): Json {
    Obj([Entry("link_id", Str(e.linkId)), Entry("quantity", Str(e.quantity)), Entry("designed", Num(e.designed)),
         Entry("measured", Num(e.measured)), Entry("unit", Str(e.unit))])
  }

  function NoteJson(n: Note): Json {
    Obj([Entry("parameter", Str(n.parameter)), Entry("target", Num(n.target)), Entry("actual", Num(n.actual)),
         Entry("unit", Str(n.unit))])
  }

  function YieldJson(fl: Floating, y: Yield): Json {
    Obj([Entry("units_started", Num(FromU64(fl, y.started))), Entry("units_good", Num(FromU64(fl, y.good))),
         Entry("dominant_failure_mode", if y.mode.Some? then Str(y.mode.value) else Null)])
  }

  function SignatureJson(s: Signature): Json {
    Obj([Entry("algorithm", Str(s.algorithm)), Entry("key_id", Str(s.keyId)), Entry("mac_hex", Str(s.macHex))])
  }

  function Map<T, U>(f: T -> U, xs: seq<T>): (ys: seq<U>)
    ensures |ys| == |xs| && forall i :: 0 <= i < |xs| ==> ys[i] == f(xs[i])
  {
    seq(|xs|, i requires 0 <= i < |xs| => f(xs[i]))
  }

  /** Every field but the signature, in their fixed order. */
  function Fields(fl: Floating, r: Report): seq<Entry> {
    [Entry("payload_manifest_id", Str(r.manifest)),
     Entry("track", Str(ShowTrack(r.track))),
     Entry("measured_geometry", Arr(Map(GeometryJson, r.geometry))),
     Entry("electrical_test", Arr(Map(ElectricalJson, r.electrical))),
     Entry("yield_outcome", YieldJson(fl, r.outcome)),
     Entry("process_notes", Arr(Map(NoteJson, r.notes))),
     Entry("consent", Str(ShowConsent(r.consent))),
     Entry("schema_version", Str(Show(r.version)))]
  }

  function SignatureFields(s: Option<Signature>): seq<Entry> {
    if s.Some? then [Entry("signature", SignatureJson(s.value))] else []
  }

  /** `to_json`. */
  function ToJson(fl: Floating, r: Report): Json {
    Obj(Fields(fl, r) + SignatureFields(r.signature))
  }

  // ----- reading -----

  function StrOr(j: Json, key: string, other: string): string {
    var s := AsStr(Get(j, key));
    if s.Some? then s.value else other
  }

  function NumOr0(j: Json, key: string): F64 {
    var n := Get(j, key);
    if n.Some? && n.value.Num? then n.value.n else Finite(0.0)
  }

  function ReadGeometry(j: Json): Option<Geometry> {
    match AsStr(Get(j, "feature_id"))
    case None => None
    case Some(id) => if id == "" then None else Some(Geometry(id, NumOr0(j, "designed_um"), NumOr0(j, "measured_um")))
  }

  function ReadElectrical(j: Json): Option<Electrical> {
    match AsStr(Get(j, "link_id"))
    case None => None
    case Some(id) =>
      if id == "" then None
      else Some(Electrical(id, StrOr(j, "quantity", ""), NumOr0(j, "designed"), NumOr0(j, "measured"), StrOr(j, "unit", "")))
  }

  function ReadNote(j: Json): Note {
    Note(StrOr(j, "parameter", ""), NumOr0(j, "target"), NumOr0(j, "actual"), StrOr(j, "unit", ""))
  }

  function ReadYield(j: Json): Yield {
    Yield(ToU64(NumOr0(j, "units_started")), ToU64(NumOr0(j, "units_good")), AsStr(Get(j, "dominant_failure_mode")))
  }

  function ReadSignature(j: Json): Option<Signature> {
    match (AsStr(Get(j, "algorithm")), AsStr(Get(j, "key_id")), AsStr(Get(j, "mac_hex")))
    case (Some(a), Some(k), Some(m)) => Some(Signature(a, k, m))
    case _ => None
  }

  /** Every element read, or nothing: the loop with `?` in it. */
  function ReadEach<T>(read: Json -> Option<T>, items: seq<Json>): Option<seq<T>> {
    if items == [] then Some([]) else
    match read(items[0])
    case None => None
    case Some(x) =>
      match ReadEach(read, items[1..])
      case None => None
      case Some(xs) => Some([x] + xs)
  }

  function AsArr(j: Option<Json>): Option<seq<Json>> {
    if j.Some? && j.value.Arr? then Some(j.value.items) else None
  }

  /** `from_json`, on a value that says the current version. */
  function FromCurrent(v: Json): Option<Report> {
    match (AsStr(Get(v, "payload_manifest_id")), AsStr(Get(v, "track")), AsArr(Get(v, "measured_geometry")),
           AsArr(Get(v, "electrical_test")), Get(v, "yield_outcome"), Get(v, "process_notes"), AsStr(Get(v, "consent")))
    case (Some(manifest), Some(trackText), Some(gs), Some(es), Some(y), Some(ns), Some(consentText)) =>
      var signature := Get(v, "signature");
      (match (ParseTrack(trackText), ReadEach(ReadGeometry, gs), ReadEach(ReadElectrical, es), ParseConsent(consentText))
       case (Some(track), Some(geometry), Some(electrical), Some(consent)) =>
         if signature.Some? && ReadSignature(signature.value).None? then None else
         Some(Report(manifest, track, geometry, electrical, ReadYield(y),
                     if ns.Arr? then Map(ReadNote, ns.items) else [],
                     consent, CURRENT, if signature.Some? then ReadSignature(signature.value) else None))
       case _ => None)
    case _ => None
  }

  /** `from_json`. */
  function FromJson(j: Json): Option<Report> {
    match EnsureCurrent(j)
    case None => None
    case Some(v) => FromCurrent(v)
  }

  /** Reading a report file. */
  function ReadReport(fl: Floating, text: string): Option<Report> {
    match Parse(fl, text)
    case None => None
    case Some(j) => FromJson(j)
  }

  function WriteReport(fl: Floating, r: Report): string {
    Print(fl, ToJson(fl, r))
  }

  // ----- reading, as the loops do it -----

  method ReadAll<T>(read: Json -> Option<T>, items: seq<Json>) returns (r: Option<seq<T>>)
    ensures r == ReadEach(read, items)
  {
    var xs: seq<T> := [];
    var i := 0;
    assert items[0..] == items;
    assert ReadEach(read, items).Some? ==> xs + ReadEach(read, items).value == ReadEach(read, items).value;
    while i < |items|
      invariant 0 <= i <= |items|
      invariant ReadEach(read, items) == match ReadEach(read, items[i..]) case None => None case Some(ys) => Some(xs + ys)
    {
      assert items[i..][0] == items[i] && items[i..][1..] == items[i + 1..];
      var x := read(items[i]);
      if x.None? {
        return None;
      }
      ghost var rest := ReadEach(read, items[i + 1..]);
      assert rest.Some? ==> xs + ([x.value] + rest.value) == (xs + [x.value]) + rest.value;
      xs := xs + [x.value];
      i := i + 1;
    }
    assert items[i..] == [] && xs + [] == xs;
    r := Some(xs);
  }

  /** `from_json`. */
  method Load(j: Json) returns (r: Option<Report>)
    ensures r == FromJson(j)
  {
    hide Get, ReadEach, ParseTrack, ParseConsent, ReadYield, ReadSignature, EnsureCurrent;
    var current := EnsureCurrent(j);
    if current.None? {
      return None;
    }
    var v := current.value;
    var manifest, trackText := AsStr(Get(v, "payload_manifest_id")), AsStr(Get(v, "track"));
    var gs, es := AsArr(Get(v, "measured_geometry")), AsArr(Get(v, "electrical_test"));
    var y, ns, consentText := Get(v, "yield_outcome"), Get(v, "process_notes"), AsStr(Get(v, "consent"));
    if manifest.None? || trackText.None? || gs.None? || es.None? || y.None? || ns.None? || consentText.None? {
      return None;
    }
    var track := ParseTrack(trackText.value);
    if track.None? {
      return None;
    }
    var geometry := ReadAll(ReadGeometry, gs.value);
    if geometry.None? {
      return None;
    }
    var electrical := ReadAll(ReadElectrical, es.value);
    if electrical.None? {
      return None;
    }
    var notes: seq<Note> := [];
    if ns.value.Arr? {
      var i := 0;
      while i < |ns.value.items|
        invariant 0 <= i <= |ns.value.items| && notes == Map(ReadNote, ns.value.items[..i])
      {
        notes := notes + [ReadNote(ns.value.items[i])];
        i := i + 1;
      }
      assert ns.value.items[..i] == ns.value.items;
    }
    var consent := ParseConsent(consentText.value);
    if consent.None? {
      return None;
    }
    var signature := Get(v, "signature");
    if signature.Some? && ReadSignature(signature.value).None? {
      return None;
    }
    r := Some(Report(manifest.value, track.value, geometry.value, electrical.value, ReadYield(y.value), notes,
                     consent.value, CURRENT, if signature.Some? then ReadSignature(signature.value) else None));
  }
}
