/** Schema versions and the migration of older reports. */
module Schema {
  import opened Basics
  import opened Floats
  import opened Json
  import opened JsonProperties
  import Decimals

  datatype Version = Version(major: u32, minor: u32)

  const CURRENT := Version(0, 2)

  function Show(v: Version): string {
    Decimals.Print(v.major) + "." + Decimals.Print(v.minor)
  }

  /** Integer parsing of an unsigned 32-bit number: an optional plus sign and at least one digit. */
  function ParseU32(s: string): Option<u32> {
    var digits := if s != "" && s[0] == '+' then s[1..] else s;
    if digits == "" || DigitSpan(digits) < |digits| || Decimals.Value(digits) >= 0x1_0000_0000 then None
    else Some(Decimals.Value(digits))
  }

  /** The text before and after the first dot. */
  function SplitDot(s: string): Option<(string, string)> {
    if s == "" then None
    else if s[0] == '.' then Some(("", s[1..]))
    else
      match SplitDot(s[1..])
      case None => None
      case Some((a, b)) => Some(([s[0]] + a, b))
  }

  /** `SchemaVersion::parse`. */
  function ParseVersion(s: string): Option<Version> {
    match SplitDot(s)
    case None => None
    case Some((major, minor)) =>
      match (ParseU32(major), ParseU32(minor))
      case (Some(a), Some(b)) => Some(Version(a, b))
      case _ => None
  }

  lemma {:induction false} SplitDotAt(a: string, b: string)
    requires forall i :: 0 <= i < |a| ==> a[i] != '.'
    ensures SplitDot(a + "." + b) == Some((a, b))
  {
    var s := a + "." + b;
    if a == "" {
      assert s[1..] == b;
    } else {
      assert s[1..] == a[1..] + "." + b;
      SplitDotAt(a[1..], b);
      assert [a[0]] + a[1..] == a;
    }
  }

  lemma ParseU32OfPrint(n: u32)
    ensures ParseU32(Decimals.Print(n)) == Some(n)
  {
    var s := Decimals.Print(n);
    DigitSpanAll(s);
    Decimals.ValueOfPrint(n);
    assert Decimals.IsDigit(s[0]);
  }

  /** Every version is read back from its text. */
  lemma VersionRoundTrip(v: Version)
    ensures ParseVersion(Show(v)) == Some(v)
  {
    ParseU32OfPrint(v.major);
    ParseU32OfPrint(v.minor);
    SplitDotAt(Decimals.Print(v.major), Decimals.Print(v.minor));
  }

  // ----- migration -----

  /** `Json::as_str`. */
  function AsStr(j: Option<Json>): Option<string> {
    if j.Some? && j.value.Str? then Some(j.value.s) else None
  }

  function LegacyNote(text: string): Json {
    Arr([Obj([Entry("parameter", Str("")), Entry("target", Num(Finite(0.0))), Entry("actual", Num(Finite(0.0))),
              Entry("unit", Str("-")), Entry("legacy_note", Str(text))])])
  }

  /** The first `process_notes` becomes an array of one note if it is text. */
  function MigrateNotes(entries: seq<Entry>): (r: seq<Entry>)
    ensures |r| == |entries|
  {
    if entries == [] then []
    else if entries[0].key == "process_notes" then
      [if entries[0].value.Str? then Entry("process_notes", LegacyNote(entries[0].value.s)) else entries[0]] + entries[1..]
    else [entries[0]] + MigrateNotes(entries[1..])
  }

  /** Every `schema_version` says the current one. */
  function RefreshVersion(e: Entry): Entry {
    if e.key == "schema_version" then Entry(e.key, Str(Show(CURRENT))) else e
  }

  function RefreshVersions(entries: seq<Entry>): (r: seq<Entry>)
    ensures |r| == |entries|
  {
    seq(|entries|, i requires 0 <= i < |entries| => RefreshVersion(entries[i]))
  }

  /** `migrate_from_0_1`. */
  function Migrate(j: Json): Json {
    if j.Obj? then Obj(RefreshVersions(MigrateNotes(j.entries))) else j
  }

  /** `ensure_current`. */
  function EnsureCurrent(j: Json): Option<Json> {
    match AsStr(Get(j, "schema_version"))
    case None => None
    case Some(text) =>
      match ParseVersion(text)
      case None => None
      case Some(v) => if v == CURRENT then Some(j) else if v == Version(0, 1) then Some(Migrate(j)) else None
  }

  function MigrateNote(e: Entry): Entry {
    if e.value.Str? then Entry("process_notes", LegacyNote(e.value.s)) else e
  }

  /** Only the first `process_notes` is touched. */
  lemma {:induction false} MigrateNotesAt(es: seq<Entry>, i: nat)
    requires i <= |es| && forall k :: 0 <= k < i ==> es[k].key != "process_notes"
    requires i < |es| ==> es[i].key == "process_notes"
    ensures MigrateNotes(es) == if i < |es| then es[i := MigrateNote(es[i])] else es
    decreases i
  {
    hide LegacyNote;
    if i > 0 {
      MigrateNotesAt(es[1..], i - 1);
      assert [es[0]] + es[1..] == es;
    } else if es != [] {
      assert [MigrateNote(es[0])] + es[1..] == es[0 := MigrateNote(es[0])];
    }
  }

  /** `migrate_from_0_1`, entry by entry in the object's own storage. */
  method MigrateInPlace(entries: array<Entry>)
    modifies entries
    ensures entries[..] == RefreshVersions(MigrateNotes(old(entries[..])))
  {
    hide LegacyNote, MigrateNotes, RefreshVersions;
    ghost var es := entries[..];
    var i := 0;
    while i < entries.Length && entries[i].key != "process_notes"
      invariant 0 <= i <= entries.Length && entries[..] == es
      invariant forall k :: 0 <= k < i ==> es[k].key != "process_notes"
    {
      i := i + 1;
    }
    MigrateNotesAt(es, i);
    if i < entries.Length && entries[i].value.Str? {
      entries[i] := Entry("process_notes", LegacyNote(entries[i].value.s));
    }
    assert entries[..] == MigrateNotes(es);
    RefreshInPlace(entries);
  }

  method RefreshInPlace(entries: array<Entry>)
    modifies entries
    ensures entries[..] == RefreshVersions(old(entries[..]))
  {
    hide Show;
    ghost var es := entries[..];
    var j := 0;
    while j < entries.Length
      invariant 0 <= j <= entries.Length
      invariant forall k :: 0 <= k < entries.Length ==> entries[k] == if k < j then RefreshVersion(es[k]) else es[k]
    {
      if entries[j].key == "schema_version" {
        entries[j] := Entry(entries[j].key, Str(Show(CURRENT)));
      }
      j := j + 1;
    }
  }

  lemma {:induction false} MigrateNotesKeepsKeys(entries: seq<Entry>)
    ensures forall i :: 0 <= i < |entries| ==> MigrateNotes(entries)[i].key == entries[i].key
  {
    if entries != [] && entries[0].key != "process_notes" {
      MigrateNotesKeepsKeys(entries[1..]);
      var r := MigrateNotes(entries[1..]);
      assert forall i :: 0 < i < |entries| ==> MigrateNotes(entries)[i] == r[i - 1] && entries[i] == entries[1..][i - 1];
    }
  }

  lemma {:induction false} LookupRefreshed(entries: seq<Entry>)
    ensures Lookup(RefreshVersions(entries), "schema_version") ==
              if Lookup(entries, "schema_version").Some? then Some(Str(Show(CURRENT))) else None
  {
    var r := RefreshVersions(entries);
    if entries != [] {
      LookupRefreshed(entries[1..]);
      assert r[1..] == RefreshVersions(entries[1..]);
    }
  }

  lemma {:induction false} LookupSameKeys(a: seq<Entry>, b: seq<Entry>, key: string)
    requires |a| == |b| && forall i :: 0 <= i < |a| ==> a[i].key == b[i].key
    ensures Lookup(a, key).Some? == Lookup(b, key).Some?
  {
    if a != [] {
      LookupSameKeys(a[1..], b[1..], key);
    }
  }

  /** Whatever passes says the current version, and passes again unchanged. */
  lemma EnsureCurrentSettles(j: Json)
    requires EnsureCurrent(j).Some?
    ensures var k := EnsureCurrent(j).value;
            EnsureCurrent(k) == Some(k)
            && AsStr(Get(k, "schema_version")).Some? && ParseVersion(AsStr(Get(k, "schema_version")).value) == Some(CURRENT)
  {
    VersionRoundTrip(CURRENT);
    if ParseVersion(AsStr(Get(j, "schema_version")).value) == Some(Version(0, 1)) {
      MigrateNotesKeepsKeys(j.entries);
      LookupSameKeys(j.entries, MigrateNotes(j.entries), "schema_version");
      LookupRefreshed(MigrateNotes(j.entries));
    }
    hide ParseVersion, Lookup, Show, MigrateNotes, RefreshVersions;
  }
}
