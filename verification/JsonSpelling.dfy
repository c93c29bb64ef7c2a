/** Every way of writing a JSON value, and what each means: the texts the parser takes, and nothing else. */
module JsonSpelling {
  import opened Basics
  import opened Floats
  import opened Json
  import opened JsonProperties
  import opened JsonNumbers
  import Decimals

  // ----- strings -----

  /** One character of a string as it may be written. */
  datatype Piece = Plain(c: char) | Short(letter: char) | Unicode(digits: string)

  predicate PieceFormed(p: Piece) {
    match p
    case Plain(c) => c != '"' && c != '\\'
    case Short(letter) => letter in {'"', '\\', '/', 'b', 'f', 'n', 'r', 't'}
    case Unicode(digits) => |digits| == 4 && forall i :: 0 <= i < 4 ==> Decimals.HexValue(digits[i]).Some?
  }

  function PieceText(p: Piece): (t: string)
    ensures t != ""
  {
    match p
    case Plain(c) => [c]
    case Short(letter) => ['\\', letter]
    case Unicode(digits) => ['\\', 'u'] + digits
  }

  /** The character meant; a code that is no character, a half of a surrogate pair, means U+FFFD. */
  function PieceMeaning(p: Piece): char
    requires PieceFormed(p)
  {
    match p
    case Plain(c) => c
    case Short(letter) =>
      if letter == 'b' then 8 as char else if letter == 'f' then 12 as char else if letter == 'n' then 10 as char
      else if letter == 'r' then 13 as char else if letter == 't' then 9 as char else letter
    case Unicode(ds) =>
      var code := ((Decimals.HexValue(ds[0]).value * 16 + Decimals.HexValue(ds[1]).value) * 16
                   + Decimals.HexValue(ds[2]).value) * 16 + Decimals.HexValue(ds[3]).value;
      if 0xD800 <= code < 0xE000 then 0xFFFD as char else code as char
  }

  predicate PiecesFormed(ps: seq<Piece>) {
    ps == [] || (PieceFormed(ps[0]) && PiecesFormed(ps[1..]))
  }

  function PiecesText(ps: seq<Piece>): string {
    if ps == [] then "" else PieceText(ps[0]) + PiecesText(ps[1..])
  }

  function PiecesMeaning(ps: seq<Piece>): string
    requires PiecesFormed(ps)
  {
    if ps == [] then "" else [PieceMeaning(ps[0])] + PiecesMeaning(ps[1..])
  }

  function StringText(ps: seq<Piece>): string {
    "\"" + (PiecesText(ps) + "\"")
  }

  // ----- values -----

  datatype Spelled =
    | SpelledNull
    | SpelledBool(b: bool)
    | SpelledNum(n: Numeral)
    | SpelledStr(pieces: seq<Piece>)
    | SpelledArr(inner: string, items: seq<Member>)
    | SpelledObj(inner: string, fields: seq<Field>)

  /** An item with the white space around it. */
  datatype Member = Member(before: string, value: Spelled, after: string)

  /** An entry with the white space before and after its key, before its value, and after it. */
  datatype Field = Field(before: string, key: seq<Piece>, middle: string, gap: string, value: Spelled, after: string)

  predicate AllSpace(s: string) {
    forall i :: 0 <= i < |s| ==> IsSpace(s[i])
  }

  /** White space where it is written, and numbers that open as JSON numbers do. */
  predicate SpelledWell(d: Spelled)
    decreases d, 0
  {
    match d
    case SpelledNum(n) => Formed(n) && (Show(n)[0] == '-' || Decimals.IsDigit(Show(n)[0]))
    case SpelledStr(ps) => PiecesFormed(ps)
    case SpelledArr(inner, items) => AllSpace(inner) && MembersWell(items)
    case SpelledObj(inner, fields) => AllSpace(inner) && FieldsWell(fields)
    case _ => true
  }

  predicate MembersWell(ms: seq<Member>)
    decreases ms, 1
  {
    ms == [] || (AllSpace(ms[0].before) && SpelledWell(ms[0].value) && AllSpace(ms[0].after) && MembersWell(ms[1..]))
  }

  predicate FieldsWell(fs: seq<Field>)
    decreases fs, 1
  {
    fs == [] ||
    (AllSpace(fs[0].before) && PiecesFormed(fs[0].key) && AllSpace(fs[0].middle) && AllSpace(fs[0].gap)
     && SpelledWell(fs[0].value) && AllSpace(fs[0].after) && FieldsWell(fs[1..]))
  }

  function Text(d: Spelled): string
    decreases d, 0
  {
    match d
    case SpelledNull => "null"
    case SpelledBool(b) => if b then "true" else "false"
    case SpelledNum(n) => Show(n)
    case SpelledStr(ps) => StringText(ps)
    case SpelledArr(inner, items) => "[" + (if items == [] then inner + "]" else MembersText(items))
    case SpelledObj(inner, fields) => "{" + (if fields == [] then inner + "}" else FieldsText(fields))
  }

  /** From one item on, the closing bracket included. */
  function MembersText(ms: seq<Member>): string
    requires ms != []
    decreases ms, 1
  {
    ms[0].before + (Text(ms[0].value) + (ms[0].after + (if |ms| == 1 then "]" else "," + MembersText(ms[1..]))))
  }

  function FieldsText(fs: seq<Field>): string
    requires fs != []
    decreases fs, 1
  {
    var f := fs[0];
    f.before + (StringText(f.key) + (f.middle + (":" + (f.gap + (Text(f.value)
      + (f.after + (if |fs| == 1 then "}" else "," + FieldsText(fs[1..]))))))))
  }

  /** The value meant: white space means nothing, and entries stay in order, repeated keys included. */
  function ValueOf(fl: Floating, d: Spelled): Json
    requires SpelledWell(d)
    decreases d, 0
  {
    match d
    case SpelledNull => Null
    case SpelledBool(b) => Bool(b)
    case SpelledNum(n) => Num(fl.round(Meaning(n)))
    case SpelledStr(ps) => Str(PiecesMeaning(ps))
    case SpelledArr(_, items) => Arr(ItemsOf(fl, items))
    case SpelledObj(_, fields) => Obj(EntriesOf(fl, fields))
  }

  function ItemsOf(fl: Floating, ms: seq<Member>): seq<Json>
    requires MembersWell(ms)
    decreases ms, 1
  {
    if ms == [] then [] else [ValueOf(fl, ms[0].value)] + ItemsOf(fl, ms[1..])
  }

  function EntriesOf(fl: Floating, fs: seq<Field>): seq<Entry>
    requires FieldsWell(fs)
    decreases fs, 1
  {
    if fs == [] then [] else [Entry(PiecesMeaning(fs[0].key), ValueOf(fl, fs[0].value))] + EntriesOf(fl, fs[1..])
  }

  // ----- white space -----

  lemma {:induction false} SpaceSkipped(space: string, s: string)
    requires AllSpace(space) && (s != "" ==> !IsSpace(s[0]))
    ensures SkipSpace(space + s) == s
  {
    if space == "" {
      assert space + s == s;
    } else {
      assert (space + s)[1..] == space[1..] + s;
      SpaceSkipped(space[1..], s);
    }
  }

  lemma {:induction false} SpaceSplits(s: string) returns (space: string)
    ensures AllSpace(space) && s == space + SkipSpace(s)
  {
    if s != "" && IsSpace(s[0]) {
      var more := SpaceSplits(s[1..]);
      space := [s[0]] + more;
      assert s == [s[0]] + s[1..];
    } else {
      space := "";
    }
  }

  // ----- every spelling of a string is read -----

  lemma UnicodeRead(ds: string, rest: string)
    requires PieceFormed(Unicode(ds))
    ensures Unescape(['u'] + ds + rest) == Some(Parsed(PieceMeaning(Unicode(ds)), rest))
  {
    var s := ['u'] + ds + rest;
    assert s[1..5] == ds && s[5..] == rest;
    assert ds == [ds[0], ds[1], ds[2], ds[3]];
    HexCodeOf4(ds[0], ds[1], ds[2], ds[3]);
    hide HexCode, Decimals.HexValue;
  }

  lemma PieceRead(p: Piece, rest: string)
    requires PieceFormed(p)
    ensures var s := PieceText(p) + rest;
            s[0] != '"' && (if s[0] == '\\' then Unescape(s[1..]) else Some(Parsed(s[0], s[1..]))) == Some(Parsed(PieceMeaning(p), rest))
  {
    var s := PieceText(p) + rest;
    match p
    case Plain(c) => assert s[1..] == rest;
    case Short(letter) => assert s[1..] == [letter] + rest && s[1..][1..] == rest;
    case Unicode(ds) =>
      assert s[1..] == ['u'] + ds + rest;
      UnicodeRead(ds, rest);
      hide Unescape;
  }

  lemma {:induction false} PiecesRead(ps: seq<Piece>, rest: string)
    requires PiecesFormed(ps)
    ensures ParseChars(PiecesText(ps) + ("\"" + rest)) == Some(Parsed(PiecesMeaning(ps), rest))
  {
    hide PieceText, PieceMeaning, Unescape, PieceFormed;
    var tail := "\"" + rest;
    if ps == [] {
      assert PiecesText(ps) + tail == tail && tail[1..] == rest;
    } else {
      var more := PiecesText(ps[1..]) + tail;
      assert PiecesText(ps) + tail == PieceText(ps[0]) + more;
      PieceRead(ps[0], more);
      PiecesRead(ps[1..], rest);
    }
  }

  lemma StringRead(ps: seq<Piece>, rest: string)
    requires PiecesFormed(ps)
    ensures var s := StringText(ps) + rest; s[0] == '"' && ParseString(s) == Some(Parsed(PiecesMeaning(ps), rest))
  {
    hide ParseChars, PiecesText;
    PiecesRead(ps, rest);
    assert (StringText(ps) + rest)[1..] == PiecesText(ps) + ("\"" + rest);
  }

  // ----- every spelling of a value is read -----

  /** No spelling opens with white space or with a character that closes or separates. */
  lemma TextOpens(d: Spelled)
    requires SpelledWell(d)
    ensures var t := Text(d); t != "" && !IsSpace(t[0]) && t[0] != ']' && t[0] != '}' && t[0] != ','
  {
    assert d.SpelledNum? ==> Show(d.n) != "" && !IsSpace(Show(d.n)[0]) && Show(d.n)[0] != ']' && Show(d.n)[0] != '}'
                             && Show(d.n)[0] != ',' by {
      if d.SpelledNum? {
        TailOpens(d.n);
      }
      hide ShowTail;
    }
    hide PiecesText, MembersText, FieldsText, Show;
  }

  /** White space before a value does not matter. */
  lemma ParseSkips(fl: Floating, space: string, s: string)
    requires AllSpace(space) && (s != "" ==> !IsSpace(s[0]))
    ensures ParseValue(fl, space + s) == ParseValue(fl, s)
  {
    SpaceSkipped(space, s);
    SpaceSkipped("", s);
    assert "" + s == s;
    hide SkipSpace, ParseItems, ParseEntries, ParseString, ParseNumber, ParseLiteral;
  }

  /** White space or a character that closes or separates ends a number. */
  lemma TailStops(after: string, next: string)
    requires AllSpace(after) && next != "" && (next[0] == ',' || next[0] == ']' || next[0] == '}')
    ensures Stops(after + next) && SkipSpace(after + next) == next
  {
    SpaceSkipped(after, next);
  }

  lemma ItemsStepSpaced(fl: Floating, s: string, item: Json, tail: string)
    requires ParseValue(fl, s) == Some(Parsed(item, tail)) && SkipSpace(tail) != ""
    ensures var next := SkipSpace(tail);
            && (next[0] == ']' ==> ParseItems(fl, s) == Some(Parsed([item], next[1..])))
            && (next[0] == ',' ==>
                  ParseItems(fl, s) == match ParseItems(fl, next[1..])
                                       case None => None
                                       case Some(Parsed(items, rest)) => Some(Parsed([item] + items, rest)))
  {
    hide ParseValue, SkipSpace;
  }

  lemma EntriesStepSpaced(fl: Floating, s: string, key: string, middle: string, value: string, v: Json, tail: string)
    requires ParseString(SkipSpace(s)) == Some(Parsed(key, middle)) && SkipSpace(middle) == ":" + value
    requires ParseValue(fl, value) == Some(Parsed(v, tail)) && SkipSpace(tail) != ""
    ensures var next := SkipSpace(tail);
            && (next[0] == '}' ==> ParseEntries(fl, s) == Some(Parsed([Entry(key, v)], next[1..])))
            && (next[0] == ',' ==>
                  ParseEntries(fl, s) == match ParseEntries(fl, next[1..])
                                         case None => None
                                         case Some(Parsed(entries, rest)) => Some(Parsed([Entry(key, v)] + entries, rest)))
  {
    assert (":" + value)[1..] == value;
    hide ParseValue, ParseString, SkipSpace;
  }

  lemma LiteralRead(fl: Floating, d: Spelled, rest: string)
    requires d.SpelledNull? || d.SpelledBool?
    ensures ParseValue(fl, Text(d) + rest) == Some(Parsed(ValueOf(fl, d), rest))
  {
    LiteralRoundTrip(fl, ValueOf(fl, d), rest);
    hide ParseValue;
  }

  lemma StringValueRead(fl: Floating, ps: seq<Piece>, rest: string)
    requires PiecesFormed(ps)
    ensures ParseValue(fl, StringText(ps) + rest) == Some(Parsed(Str(PiecesMeaning(ps)), rest))
  {
    StringRead(ps, rest);
    var s := StringText(ps) + rest;
    hide StringText, ParseItems, ParseEntries, ParseString, ParseNumber, ParseLiteral;
    assert SkipSpace(s) == s;
  }

  /** An array opens, and is empty if nothing but white space stands before the closing bracket. */
  lemma ArrayOpens(fl: Floating, inner: string, body: string)
    requires AllSpace(inner) && body != "" && !IsSpace(body[0])
    ensures ParseValue(fl, "[" + (inner + body)) ==
              if body[0] == ']' then Some(Parsed(Arr([]), body[1..]))
              else match ParseItems(fl, inner + body)
                   case None => None
                   case Some(Parsed(items, rest)) => Some(Parsed(Arr(items), rest))
  {
    var s := "[" + (inner + body);
    assert s[1..] == inner + body;
    SpaceSkipped(inner, body);
    assert SkipSpace(s) == s;
    hide SkipSpace, ParseItems, ParseEntries, ParseString, ParseNumber, ParseLiteral;
  }

  lemma ObjectOpens(fl: Floating, inner: string, body: string)
    requires AllSpace(inner) && body != "" && !IsSpace(body[0])
    ensures ParseValue(fl, "{" + (inner + body)) ==
              if body[0] == '}' then Some(Parsed(Obj([]), body[1..]))
              else match ParseEntries(fl, inner + body)
                   case None => None
                   case Some(Parsed(entries, rest)) => Some(Parsed(Obj(entries), rest))
  {
    var s := "{" + (inner + body);
    assert s[1..] == inner + body;
    SpaceSkipped(inner, body);
    assert SkipSpace(s) == s;
    hide SkipSpace, ParseItems, ParseEntries, ParseString, ParseNumber, ParseLiteral;
  }

  /** What follows an item: the closing bracket, or a comma and the rest of the array. */
  function AfterMember(ms: seq<Member>, rest: string): string
    requires ms != []
  {
    if |ms| == 1 then "]" + rest else "," + (MembersText(ms[1..]) + rest)
  }

  lemma MembersFallApart(ms: seq<Member>, rest: string)
    requires ms != []
    ensures MembersText(ms) + rest == ms[0].before + (Text(ms[0].value) + (ms[0].after + AfterMember(ms, rest)))
  {
    var end := if |ms| == 1 then "]" else "," + MembersText(ms[1..]);
    assert MembersText(ms) == ms[0].before + (Text(ms[0].value) + (ms[0].after + end));
    hide MembersText, Text;
    Reassociate4(ms[0].before, Text(ms[0].value), ms[0].after, end, rest);
    if |ms| > 1 {
      CommaFirst(MembersText(ms[1..]), rest);
    }
  }

  lemma CommaFirst(more: string, rest: string)
    ensures ("," + more) + rest == "," + (more + rest)
  {
  }

  lemma Reassociate4(a: string, b: string, c: string, d: string, e: string)
    ensures (a + (b + (c + d))) + e == a + (b + (c + (d + e)))
  {
    assert (c + d) + e == c + (d + e);
    assert (b + (c + d)) + e == b + ((c + d) + e);
    assert (a + (b + (c + d))) + e == a + ((b + (c + d)) + e);
  }

  function AfterField(fs: seq<Field>, rest: string): string
    requires fs != []
  {
    if |fs| == 1 then "}" + rest else "," + (FieldsText(fs[1..]) + rest)
  }

  lemma FieldsFallApart(fs: seq<Field>, rest: string)
    requires fs != []
    ensures var f := fs[0];
            FieldsText(fs) + rest ==
              f.before + (StringText(f.key) + (f.middle + (":" + (f.gap + (Text(f.value) + (f.after + AfterField(fs, rest)))))))
  {
    var f := fs[0];
    var end := if |fs| == 1 then "}" else "," + FieldsText(fs[1..]);
    var inner := f.gap + (Text(f.value) + (f.after + end));
    assert FieldsText(fs) == f.before + (StringText(f.key) + (f.middle + (":" + inner)));
    hide FieldsText, Text, StringText;
    if |fs| > 1 {
      CommaFirst(FieldsText(fs[1..]), rest);
    }
    Reassociate4(f.gap, Text(f.value), f.after, end, rest);
    Reassociate4(f.before, StringText(f.key), f.middle, ":" + inner, rest);
    ColonFirst(inner, rest);
  }

  lemma ColonFirst(more: string, rest: string)
    ensures (":" + more) + rest == ":" + (more + rest)
  {
  }

  lemma {:induction false} SpellingRead(fl: Floating, d: Spelled, rest: string)
    requires SpelledWell(d) && (d.SpelledNum? ==> Stops(rest))
    ensures ParseValue(fl, Text(d) + rest) == Some(Parsed(ValueOf(fl, d), rest))
    decreases d, 0
  {
    hide ParseValue, ParseItems, ParseEntries, MembersText, FieldsText, StringText, Show, Meaning, Formed, IsSpace;
    match d
    case SpelledNull => LiteralRead(fl, d, rest);
    case SpelledBool(_) => LiteralRead(fl, d, rest);
    case SpelledNum(n) => NumeralInText(fl, n, rest);
    case SpelledStr(ps) => StringValueRead(fl, ps, rest);
    case SpelledArr(inner, items) => ArraySpellingRead(fl, inner, items, rest);
    case SpelledObj(inner, fields) => ObjectSpellingRead(fl, inner, fields, rest);
  }

  lemma {:induction false} ArraySpellingRead(fl: Floating, inner: string, items: seq<Member>, rest: string)
    requires AllSpace(inner) && MembersWell(items)
    ensures ParseValue(fl, Text(SpelledArr(inner, items)) + rest) == Some(Parsed(Arr(ItemsOf(fl, items)), rest))
    decreases items, 4
  {
    hide ParseValue, ParseItems;
    if items == [] {
      assert Text(SpelledArr(inner, items)) + rest == "[" + (inner + ("]" + rest));
      ArrayOpens(fl, inner, "]" + rest);
      assert ("]" + rest)[1..] == rest;
    } else {
      MembersRead(fl, items, rest);
      var m := items[0];
      var body := Text(m.value) + (m.after + AfterMember(items, rest));
      MembersFallApart(items, rest);
      TextOpens(m.value);
      hide MembersText, Text;
      assert body[0] == Text(m.value)[0];
      assert ("[" + MembersText(items)) + rest == "[" + (MembersText(items) + rest);
      ArrayOpens(fl, m.before, body);
      TextOfArray(inner, items);
    }
  }

  lemma TextOfArray(inner: string, items: seq<Member>)
    requires items != []
    ensures Text(SpelledArr(inner, items)) == "[" + MembersText(items)
  {
  }

  lemma {:induction false} ObjectSpellingRead(fl: Floating, inner: string, fields: seq<Field>, rest: string)
    requires AllSpace(inner) && FieldsWell(fields)
    ensures ParseValue(fl, Text(SpelledObj(inner, fields)) + rest) == Some(Parsed(Obj(EntriesOf(fl, fields)), rest))
    decreases fields, 4
  {
    hide ParseValue, ParseEntries;
    if fields == [] {
      assert Text(SpelledObj(inner, fields)) + rest == "{" + (inner + ("}" + rest));
      ObjectOpens(fl, inner, "}" + rest);
      assert ("}" + rest)[1..] == rest;
    } else {
      FieldsRead(fl, fields, rest);
      var f := fields[0];
      var body := StringText(f.key) + (f.middle + (":" + (f.gap + (Text(f.value) + (f.after + AfterField(fields, rest))))));
      FieldsFallApart(fields, rest);
      assert StringText(f.key)[0] == '"';
      hide FieldsText, Text, StringText;
      assert body[0] == '"';
      assert ("{" + FieldsText(fields)) + rest == "{" + (FieldsText(fields) + rest);
      ObjectOpens(fl, f.before, body);
      TextOfObject(inner, fields);
    }
  }

  lemma TextOfObject(inner: string, fields: seq<Field>)
    requires fields != []
    ensures Text(SpelledObj(inner, fields)) == "{" + FieldsText(fields)
  {
  }

  lemma {:induction false} MembersRead(fl: Floating, ms: seq<Member>, rest: string)
    requires MembersWell(ms) && ms != []
    ensures ParseItems(fl, MembersText(ms) + rest) == Some(Parsed(ItemsOf(fl, ms), rest))
    decreases ms, 2
  {
    var m, next := ms[0], AfterMember(ms, rest);
    var tail := m.after + next;
    TailStops(m.after, next);
    SpellingRead(fl, m.value, tail);
    TextOpens(m.value);
    MembersFallApart(ms, rest);
    if |ms| > 1 {
      MembersRead(fl, ms[1..], rest);
      assert next[1..] == MembersText(ms[1..]) + rest;
    } else {
      assert ms[1..] == [] && next[1..] == rest;
      assert [ValueOf(fl, m.value)] + [] == [ValueOf(fl, m.value)];
    }
    hide Text, MembersText, ParseValue, ParseItems, SpelledWell, Stops, AllSpace, SkipSpace, ValueOf;
    ParseSkips(fl, m.before, Text(m.value) + tail);
    ItemsStepSpaced(fl, MembersText(ms) + rest, ValueOf(fl, m.value), tail);
  }

  lemma {:induction false} FieldsRead(fl: Floating, fs: seq<Field>, rest: string)
    requires FieldsWell(fs) && fs != []
    ensures ParseEntries(fl, FieldsText(fs) + rest) == Some(Parsed(EntriesOf(fl, fs), rest))
    decreases fs, 2
  {
    var f, next := fs[0], AfterField(fs, rest);
    var tail := f.after + next;
    var value := f.gap + (Text(f.value) + tail);
    var middle := f.middle + (":" + value);
    TailStops(f.after, next);
    SpellingRead(fl, f.value, tail);
    TextOpens(f.value);
    FieldsFallApart(fs, rest);
    StringRead(f.key, middle);
    if |fs| > 1 {
      FieldsRead(fl, fs[1..], rest);
      assert next[1..] == FieldsText(fs[1..]) + rest;
    } else {
      assert fs[1..] == [] && next[1..] == rest;
      var e := Entry(PiecesMeaning(f.key), ValueOf(fl, f.value));
      assert [e] + [] == [e];
    }
    hide Text, FieldsText, StringText, ParseValue, ParseEntries, ParseString, SpelledWell, Stops, AllSpace, SkipSpace, ValueOf;
    ParseSkips(fl, f.gap, Text(f.value) + tail);
    SpaceSkipped(f.before, StringText(f.key) + middle);
    SpaceSkipped(f.middle, ":" + value);
    EntriesStepSpaced(fl, FieldsText(fs) + rest, PiecesMeaning(f.key), middle, value, ValueOf(fl, f.value), tail);
  }

  /** A document in any spelling, with white space around it, is read as the value it means. */
  lemma DocumentRead(fl: Floating, before: string, d: Spelled, after: string)
    requires AllSpace(before) && SpelledWell(d) && AllSpace(after)
    ensures Parse(fl, before + (Text(d) + after)) == Some(ValueOf(fl, d))
  {
    assert Stops(after);
    SpellingRead(fl, d, after);
    TextOpens(d);
    hide ParseValue, Text, ValueOf, SpelledWell;
    ParseSkips(fl, before, Text(d) + after);
    SpaceSkipped(after, "");
    assert after + "" == after;
  }

  // ----- nothing else is read -----

  lemma PieceParse(s: string) returns (p: Piece)
    requires s != "" && s[0] != '"' && (s[0] == '\\' ==> Unescape(s[1..]).Some?)
    ensures PieceFormed(p)
    ensures s == PieceText(p) + (if s[0] == '\\' then Unescape(s[1..]).value.rest else s[1..])
  {
    if s[0] != '\\' {
      p := Plain(s[0]);
    } else if s[1] == 'u' {
      var u := s[1..];
      p := Unicode(u[1..5]);
      FourHexDigits(u[1..5]);
      assert s == ['\\', 'u'] + u[1..5] + u[5..];
    } else {
      p := Short(s[1]);
      assert s[1..][1..] == s[2..] && s == ['\\', s[1]] + s[2..];
    }
  }

  lemma FourHexDigits(ds: string)
    requires |ds| == 4 && HexCode(ds).Some?
    ensures PieceFormed(Unicode(ds))
  {
    assert ds[..3][..2] == ds[..2] && ds[..2][..1] == ds[..1];
    assert ds[..3][2] == ds[2] && ds[..2][1] == ds[1] && ds[..1][0] == ds[0];
    assert HexCode(ds[..3]).Some? && HexCode(ds[..2]).Some? && HexCode(ds[..1]).Some?;
    hide Decimals.HexValue;
  }

  lemma {:induction false} PiecesParse(s: string) returns (ps: seq<Piece>)
    requires ParseChars(s).Some?
    ensures PiecesFormed(ps) && s == PiecesText(ps) + ("\"" + ParseChars(s).value.rest)
    decreases |s|
  {
    hide Unescape, PieceText, PieceFormed;
    if s[0] == '"' {
      ps := [];
      assert s == "" + ("\"" + s[1..]);
    } else {
      var rest := if s[0] == '\\' then Unescape(s[1..]).value.rest else s[1..];
      var p := PieceParse(s);
      var more := PiecesParse(rest);
      ps := [p] + more;
      assert ps[1..] == more;
      var end := "\"" + ParseChars(s).value.rest;
      assert PieceText(p) + (PiecesText(more) + end) == PiecesText(ps) + end;
    }
  }

  lemma StringParse(s: string) returns (ps: seq<Piece>)
    requires ParseString(s).Some?
    ensures PiecesFormed(ps) && s == StringText(ps) + ParseString(s).value.rest
  {
    ps := PiecesParse(s[1..]);
    hide PiecesText, ParseChars;
    var rest := ParseString(s).value.rest;
    assert s == "\"" + s[1..];
    assert "\"" + (PiecesText(ps) + ("\"" + rest)) == ("\"" + (PiecesText(ps) + "\"")) + rest;
  }

  lemma NumberParse(fl: Floating, t: string) returns (n: Numeral)
    requires ParseNumber(fl, t).Some? && t != "" && (t[0] == '-' || Decimals.IsDigit(t[0]))
    ensures SpelledWell(SpelledNum(n)) && t == Show(n) + ParseNumber(fl, t).value.rest && Stops(ParseNumber(fl, t).value.rest)
  {
    var k := NumberSpan(t);
    hide DecimalOf;
    n := Parts(t[..k]);
    assert t == t[..k] + t[k..] && k > 0;
    hide Show, Formed;
  }

  /** A bracketed text with what follows the bracket. */
  lemma Opening(bracket: string, s: string, body: string, rest: string)
    requires |bracket| == 1 && s != "" && s[0] == bracket[0] && s[1..] == body + rest
    ensures s == (bracket + body) + rest
  {
    assert s == bracket + s[1..];
  }

  lemma {:induction false} ArrayParse(fl: Floating, t: string) returns (d: Spelled)
    requires t != "" && t[0] == '[' && ParseValue(fl, t).Some?
    ensures SpelledWell(d) && !d.SpelledNum? && t == Text(d) + ParseValue(fl, t).value.rest
    decreases |t|, 3
  {
    var rest := ParseValue(fl, t).value.rest;
    var space := SpaceSplits(t[1..]);
    var body := SkipSpace(t[1..]);
    ArrayStart(fl, t, space, body);
    hide ParseValue, ParseItems, MembersText;
    if body[0] == ']' {
      d := SpelledArr(space, []);
      assert body == "]" + rest;
      assert t[1..] == (space + "]") + rest;
      Opening("[", t, space + "]", rest);
    } else {
      var ms := MembersParse(fl, t[1..]);
      d := SpelledArr("", ms);
      TextOfArray("", ms);
      Opening("[", t, MembersText(ms), rest);
    }
  }

  lemma ArrayStart(fl: Floating, t: string, space: string, body: string)
    requires t != "" && t[0] == '[' && ParseValue(fl, t).Some?
    requires AllSpace(space) && t[1..] == space + body && body == SkipSpace(t[1..])
    ensures body != "" && (body[0] == ']' ==> ParseValue(fl, t).value.rest == body[1..])
    ensures body[0] != ']' ==> ParseItems(fl, t[1..]).Some? && ParseItems(fl, t[1..]).value.rest == ParseValue(fl, t).value.rest
  {
    assert t == "[" + (space + body);
    assert SkipSpace(t) == t;
    if body == "" {
      assert t[1..] == space;
      SpaceSkipped(space, "");
      assert space + "" == space;
      NothingThere(fl, t[1..], space);
    } else {
      ArrayOpens(fl, space, body);
    }
    hide ParseItems, ParseEntries, ParseString, ParseNumber, ParseLiteral, SkipSpace;
  }

  /** White space alone holds no value and no entry. */
  lemma NothingThere(fl: Floating, s: string, space: string)
    requires AllSpace(space) && s == space
    ensures ParseValue(fl, s).None? && ParseItems(fl, s).None? && ParseEntries(fl, s).None?
  {
    SpaceSkipped(space, "");
    assert space + "" == space;
  }

  lemma {:induction false} ObjectParse(fl: Floating, t: string) returns (d: Spelled)
    requires t != "" && t[0] == '{' && ParseValue(fl, t).Some?
    ensures SpelledWell(d) && !d.SpelledNum? && t == Text(d) + ParseValue(fl, t).value.rest
    decreases |t|, 3
  {
    var rest := ParseValue(fl, t).value.rest;
    var space := SpaceSplits(t[1..]);
    var body := SkipSpace(t[1..]);
    ObjectStart(fl, t, space, body);
    hide ParseValue, ParseEntries, FieldsText;
    if body[0] == '}' {
      d := SpelledObj(space, []);
      assert body == "}" + rest;
      assert t[1..] == (space + "}") + rest;
      Opening("{", t, space + "}", rest);
    } else {
      var fs := FieldsParse(fl, t[1..]);
      d := SpelledObj("", fs);
      TextOfObject("", fs);
      Opening("{", t, FieldsText(fs), rest);
    }
  }

  lemma ObjectStart(fl: Floating, t: string, space: string, body: string)
    requires t != "" && t[0] == '{' && ParseValue(fl, t).Some?
    requires AllSpace(space) && t[1..] == space + body && body == SkipSpace(t[1..])
    ensures body != "" && (body[0] == '}' ==> ParseValue(fl, t).value.rest == body[1..])
    ensures body[0] != '}' ==> ParseEntries(fl, t[1..]).Some? && ParseEntries(fl, t[1..]).value.rest == ParseValue(fl, t).value.rest
  {
    assert t == "{" + (space + body);
    assert SkipSpace(t) == t;
    if body == "" {
      assert t[1..] == space;
      SpaceSkipped(space, "");
      assert space + "" == space;
      NothingThere(fl, t[1..], space);
    } else {
      ObjectOpens(fl, space, body);
    }
    hide ParseItems, ParseEntries, ParseString, ParseNumber, ParseLiteral, SkipSpace;
  }

  lemma LiteralParse(fl: Floating, t: string) returns (d: Spelled)
    requires t != "" && (t[0] == 't' || t[0] == 'f' || t[0] == 'n') && ParseValue(fl, t).Some?
    ensures SpelledWell(d) && !d.SpelledNum? && t == Text(d) + ParseValue(fl, t).value.rest
  {
    assert SkipSpace(t) == t;
    d := if t[0] == 't' then SpelledBool(true) else if t[0] == 'f' then SpelledBool(false) else SpelledNull;
    hide ParseItems, ParseEntries, ParseString, ParseNumber, SkipSpace;
    assert t == t[..|Text(d)|] + t[|Text(d)|..];
  }

  /** Whatever the parser takes is a spelling, after white space. */
  lemma {:induction false} SpellingParse(fl: Floating, s: string) returns (before: string, d: Spelled)
    requires ParseValue(fl, s).Some?
    ensures var rest := ParseValue(fl, s).value.rest;
            AllSpace(before) && SpelledWell(d) && s == before + (Text(d) + rest) && (d.SpelledNum? ==> Stops(rest))
    decreases |s|, 4
  {
    before := SpaceSplits(s);
    var t := SkipSpace(s);
    SameParse(fl, s, before, t);
    hide SpelledWell, Text, Stops;
    if t[0] == '[' {
      d := ArrayParse(fl, t);
    } else if t[0] == '{' {
      d := ObjectParse(fl, t);
    } else if t[0] == '"' {
      d := QuotedParse(fl, t);
    } else if t[0] == '-' || Decimals.IsDigit(t[0]) {
      d := NumberValueParse(fl, t);
    } else {
      d := LiteralParse(fl, t);
    }
  }

  lemma SameParse(fl: Floating, s: string, before: string, t: string)
    requires ParseValue(fl, s).Some? && AllSpace(before) && s == before + t && t == SkipSpace(s)
    ensures t != "" && ParseValue(fl, t) == ParseValue(fl, s)
    ensures t[0] == '[' || t[0] == '{' || t[0] == '"' || t[0] == 't' || t[0] == 'f' || t[0] == 'n' || t[0] == '-'
            || Decimals.IsDigit(t[0])
  {
    ParseSkips(fl, before, t);
    hide SkipSpace, ParseItems, ParseEntries, ParseString, ParseNumber, ParseLiteral;
  }

  lemma QuotedParse(fl: Floating, t: string) returns (d: Spelled)
    requires t != "" && t[0] == '"' && ParseValue(fl, t).Some?
    ensures SpelledWell(d) && !d.SpelledNum? && t == Text(d) + ParseValue(fl, t).value.rest
  {
    assert SkipSpace(t) == t;
    hide ParseItems, ParseEntries, ParseString, ParseNumber, ParseLiteral, SkipSpace, StringText;
    var ps := StringParse(t);
    d := SpelledStr(ps);
  }

  lemma NumberValueParse(fl: Floating, t: string) returns (d: Spelled)
    requires t != "" && (t[0] == '-' || Decimals.IsDigit(t[0])) && ParseValue(fl, t).Some?
    ensures var rest := ParseValue(fl, t).value.rest; SpelledWell(d) && t == Text(d) + rest && Stops(rest)
  {
    NumberIsParsed(fl, t);
    hide ParseValue, ParseNumber, Show;
    var n := NumberParse(fl, t);
    d := SpelledNum(n);
  }

  lemma {:induction false} MembersParse(fl: Floating, s: string) returns (ms: seq<Member>)
    requires ParseItems(fl, s).Some?
    ensures MembersWell(ms) && ms != [] && s == MembersText(ms) + ParseItems(fl, s).value.rest
    decreases |s|, 5
  {
    var rest := ParseItems(fl, s).value.rest;
    var before, d := SpellingParse(fl, s);
    var tail := ParseValue(fl, s).value.rest;
    var after := SpaceSplits(tail);
    var next := SkipSpace(tail);
    var m := Member(before, d, after);
    assert next == [next[0]] + next[1..];
    hide Text, MembersText, SpelledWell, ParseValue, SkipSpace, AllSpace;
    if next[0] == ']' {
      ms := [m];
      assert next == "]" + rest;
    } else {
      var more := MembersParse(fl, next[1..]);
      ms := [m] + more;
      assert ms[1..] == more;
      assert next == "," + (MembersText(more) + rest);
    }
    MembersFallApart(ms, rest);
  }

  lemma {:induction false} FieldsParse(fl: Floating, s: string) returns (fs: seq<Field>)
    requires ParseEntries(fl, s).Some?
    ensures FieldsWell(fs) && fs != [] && s == FieldsText(fs) + ParseEntries(fl, s).value.rest
    decreases |s|, 5
  {
    var rest := ParseEntries(fl, s).value.rest;
    var before := SpaceSplits(s);
    var quoted := SkipSpace(s);
    var key := StringParse(quoted);
    var middle := SpaceSplits(ParseString(quoted).value.rest);
    var colon := SkipSpace(ParseString(quoted).value.rest);
    var gap, d := SpellingParse(fl, colon[1..]);
    var tail := ParseValue(fl, colon[1..]).value.rest;
    var after := SpaceSplits(tail);
    var next := SkipSpace(tail);
    var f := Field(before, key, middle, gap, d, after);
    assert next == [next[0]] + next[1..];
    assert colon == ":" + colon[1..];
    hide Text, FieldsText, StringText, SpelledWell, ParseValue, ParseString, SkipSpace, AllSpace, PiecesFormed;
    if next[0] == '}' {
      fs := [f];
      assert next == "}" + rest;
    } else {
      var more := FieldsParse(fl, next[1..]);
      fs := [f] + more;
      assert fs[1..] == more;
      assert next == "," + (FieldsText(more) + rest);
    }
    FieldsFallApart(fs, rest);
  }

  predicate IsSpelling(text: string, before: string, d: Spelled, after: string) {
    AllSpace(before) && SpelledWell(d) && AllSpace(after) && text == before + (Text(d) + after)
  }

  /** A text is accepted exactly when it spells a value, and then it is read as the value it spells. */
  lemma AcceptedExactly(fl: Floating, text: string)
    ensures Parse(fl, text).Some? <==> exists before, d, after :: IsSpelling(text, before, d, after)
    ensures forall before, d, after :: IsSpelling(text, before, d, after) ==> Parse(fl, text) == Some(ValueOf(fl, d))
  {
    hide ParseValue, SpelledWell, Text, ValueOf;
    if Parse(fl, text).Some? {
      var before, d := SpellingParse(fl, text);
      var rest := ParseValue(fl, text).value.rest;
      var after := SpaceSplits(rest);
      assert after + "" == after;
      assert IsSpelling(text, before, d, after);
    }
    forall before, d, after | IsSpelling(text, before, d, after) ensures Parse(fl, text) == Some(ValueOf(fl, d)) {
      DocumentRead(fl, before, d, after);
    }
  }
}
