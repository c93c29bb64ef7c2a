/** The printer and the parser as they run: a string that grows, a position that advances. */
module JsonCodec {
  import opened Basics
  import opened Floats
  import opened Json
  import Decimals

  // ----- printing -----

  class Output {
    var text: string

    constructor ()
      ensures text == ""
    {
      text := "";
    }

    method Push(s: string)
      modifies this
      ensures text == old(text) + s
    {
      text := text + s;
    }

    /** `write_escaped`. */
    method WriteEscaped(s: string)
      modifies this
      ensures text == old(text) + Quoted(s)
    {
      hide Escaped;
      Push("\"");
      var i := 0;
      while i < |s|
        invariant 0 <= i <= |s|
        invariant old(text) + Quoted(s) == text + (EscapedAll(s[i..]) + "\"")
      {
        assert s[i..][0] == s[i] && s[i..][1..] == s[i + 1..];
        assert text + (EscapedAll(s[i..]) + "\"") == (text + Escaped(s[i])) + (EscapedAll(s[i + 1..]) + "\"");
        Push(Escaped(s[i]));
        i := i + 1;
      }
      Push("\"");
    }

    /** `write`. */
    method Write(fl: Floating, j: Json)
      modifies this
      ensures text == old(text) + Print(fl, j)
      decreases j, 0
    {
      hide PrintNum, Quoted, PrintItems, PrintEntries;
      match j
      case Null => Push("null");
      case Bool(b) => Push(if b then "true" else "false");
      case Num(n) => Push(PrintNum(fl, n));
      case Str(s) => WriteEscaped(s);
      case Arr(items) =>
        Push("[");
        WriteItems(fl, items);
        Push("]");
        Associate(old(text), "[", PrintItems(fl, items, true), "]");
      case Obj(entries) =>
        Push("{");
        WriteEntries(fl, entries);
        Push("}");
        Associate(old(text), "{", PrintEntries(fl, entries, true), "}");
    }

    method WriteItems(fl: Floating, items: seq<Json>)
      modifies this
      ensures text == old(text) + PrintItems(fl, items, true)
      decreases items, 1
    {
      hide Print;
      var i := 0;
      while i < |items|
        invariant 0 <= i <= |items|
        invariant old(text) + PrintItems(fl, items, true) == text + PrintItems(fl, items[i..], i == 0)
      {
        assert items[i..][0] == items[i] && items[i..][1..] == items[i + 1..];
        ghost var before, tail := text, PrintItems(fl, items[i + 1..], false);
        if i > 0 {
          Push(",");
        }
        Write(fl, items[i]);
        Associate(before, Separator(i == 0), Print(fl, items[i]), tail);
        assert before + "" == before;
        i := i + 1;
      }
      assert text + "" == text;
    }

    method WriteEntries(fl: Floating, entries: seq<Entry>)
      modifies this
      ensures text == old(text) + PrintEntries(fl, entries, true)
      decreases entries, 1
    {
      hide Print, Quoted;
      var i := 0;
      while i < |entries|
        invariant 0 <= i <= |entries|
        invariant old(text) + PrintEntries(fl, entries, true) == text + PrintEntries(fl, entries[i..], i == 0)
      {
        assert entries[i..][0] == entries[i] && entries[i..][1..] == entries[i + 1..];
        ghost var before, tail := text, PrintEntries(fl, entries[i + 1..], false);
        if i > 0 {
          Push(",");
        }
        WriteEscaped(entries[i].key);
        Push(":");
        ghost var head := text;
        Write(fl, entries[i].value);
        Associate(before, Separator(i == 0), Quoted(entries[i].key), ":" + (Print(fl, entries[i].value) + tail));
        Associate(before + Separator(i == 0) + Quoted(entries[i].key), ":", Print(fl, entries[i].value), tail);
        assert before + "" == before;
        i := i + 1;
      }
      assert text + "" == text;
    }
  }

  lemma Associate(a: string, b: string, c: string, d: string)
    ensures a + (b + (c + d)) == ((a + b) + c) + d
    ensures a + (b + c + d) == ((a + b) + c) + d
  {
  }

  /** `serialize`. */
  method Serialize(fl: Floating, j: Json) returns (s: string)
    ensures s == Print(fl, j)
  {
    var out := new Output();
    out.Write(fl, j);
    s := out.text;
  }

  // ----- parsing -----

  /** A result of reading more items after some that were read before. */
  function After<T>(before: seq<T>, r: Option<Parsed<seq<T>>>): Option<Parsed<seq<T>>> {
    match r
    case None => None
    case Some(Parsed(more, rest)) => Some(Parsed(before + more, rest))
  }

  class Parser {
    const src: string
    var pos: nat

    predicate Valid()
      reads this
    {
      pos <= |src|
    }

    function Rest(): string
      requires Valid()
      reads this
    {
      src[pos..]
    }

    constructor (src: string)
      ensures this.src == src && pos == 0
    {
      this.src := src;
      pos := 0;
    }

    function Peek(): (c: Option<char>)
      requires Valid()
      reads this
      ensures c == if Rest() == "" then None else Some(Rest()[0])
    {
      if pos < |src| then Some(src[pos]) else None
    }

    method Bump() returns (c: Option<char>)
      requires Valid()
      modifies this
      ensures Valid() && old(pos) <= pos
      ensures if old(Rest()) == "" then c == None && pos == old(pos)
              else c == Some(old(Rest())[0]) && Rest() == old(Rest())[1..] && pos == old(pos) + 1
    {
      c := Peek();
      if c.Some? {
        pos := pos + 1;
      }
    }

    method SkipWhite()
      requires Valid()
      modifies this
      ensures Valid() && old(pos) <= pos && Rest() == SkipSpace(old(Rest()))
    {
      while pos < |src| && IsSpace(src[pos])
        invariant Valid() && old(pos) <= pos
        invariant SkipSpace(old(Rest())) == SkipSpace(Rest())
      {
        assert src[pos..][1..] == src[pos + 1..];
        pos := pos + 1;
      }
    }

    method Literal(text: string, v: Json) returns (r: Option<Json>)
      requires Valid() && text != ""
      modifies this
      ensures Valid() && old(pos) <= pos
      ensures match ParseLiteral(old(Rest()), text, v)
              case None => r == None
              case Some(p) => r == Some(p.value) && Rest() == p.rest
    {
      ghost var s := Rest();
      var i := 0;
      while i < |text|
        invariant 0 <= i <= |text| && Valid() && pos == old(pos) + i
        invariant s[..i] == text[..i] && Rest() == s[i..]
      {
        var c := Bump();
        if c != Some(text[i]) {
          NotPrefix(text, s, i);
          return None;
        }
        i := i + 1;
      }
      r := Some(v);
    }

    method Number(fl: Floating) returns (r: Option<Json>)
      requires Valid()
      modifies this
      ensures Valid() && old(pos) <= pos
      ensures match ParseNumber(fl, old(Rest()))
              case None => r == None
              case Some(p) => r == Some(p.value) && Rest() == p.rest
    {
      hide DecimalOf, NumberSpan;
      var start := pos;
      ghost var s := Rest();
      if Peek() == Some('-') {
        SpanStep(src, pos);
        pos := pos + 1;
      }
      while pos < |src| && NumberChar(src[pos])
        invariant start <= pos <= |src|
        invariant NumberSpan(s) == pos - start + NumberSpan(src[pos..])
      {
        SpanStep(src, pos);
        pos := pos + 1;
      }
      SpanEnds(src, pos);
      assert src[start..pos] == s[..pos - start] && src[pos..] == s[pos - start..];
      var value := DecimalOf(src[start..pos]);
      if value.None? {
        return None;
      }
      r := Some(Num(fl.round(value.value)));
    }

    /** The four digits after a backslash and a `u`. */
    method Hex4() returns (code: Option<nat>)
      requires Valid()
      modifies this
      ensures Valid() && old(pos) <= pos
      ensures |old(Rest())| < 4 ==> code == None
      ensures |old(Rest())| >= 4 ==> code == HexCode(old(Rest())[..4])
      ensures code.Some? ==> Rest() == old(Rest())[4..]
    {
      hide Decimals.HexValue;
      ghost var s := Rest();
      var value := 0;
      var i := 0;
      while i < 4
        invariant 0 <= i <= 4 && i <= |s| && Valid() && pos == old(pos) + i && Rest() == s[i..]
        invariant HexCode(s[..i]) == Some(value)
      {
        var c := Bump();
        if c.None? {
          return None;
        }
        ghost var longer := s[..i + 1];
        assert longer[..i] == s[..i] && longer[i] == s[i];
        var d := Decimals.HexValue(c.value);
        if d.None? {
          BadDigit(s, i);
          return None;
        }
        value := value * 16 + d.value;
        i := i + 1;
      }
      code := Some(value);
    }

    method Escape() returns (c: Option<char>)
      requires Valid()
      modifies this
      ensures Valid() && old(pos) <= pos
      ensures match Unescape(old(Rest()))
              case None => c == None
              case Some(p) => c == Some(p.value) && Rest() == p.rest
    {
      hide HexCode;
      ghost var s := Rest();
      var e := Bump();
      if e.None? {
        return None;
      }
      match e.value
      case '"' => return Some('"');
      case '\\' => return Some('\\');
      case '/' => return Some('/');
      case 'b' => return Some(8 as char);
      case 'f' => return Some(12 as char);
      case 'n' => return Some('\n');
      case 'r' => return Some('\r');
      case 't' => return Some('\t');
      case 'u' =>
        var code := Hex4();
        assert |s| >= 5 ==> s[1..][..4] == s[1..5] && s[1..][4..] == s[5..];
        if code.None? {
          return None;
        }
        return Some(CharOf(code.value));
      case _ => return None;
    }

    method Chars() returns (r: Option<string>)
      requires Valid()
      modifies this
      ensures Valid() && old(pos) <= pos
      ensures match ParseString(old(Rest()))
              case None => r == None
              case Some(p) => r == Some(p.value) && Rest() == p.rest && old(pos) < pos
    {
      hide Unescape;
      ghost var s := Rest();
      var open := Bump();
      if open != Some('"') {
        return None;
      }
      var text := "";
      ghost var body := Rest();
      AfterNothing(ParseChars(body));
      while true
        invariant Valid() && old(pos) < pos
        invariant ParseChars(body) == After(text, ParseChars(Rest()))
        decreases |src| - pos
      {
        ghost var here := Rest();
        var c := Bump();
        if c.None? {
          return None;
        }
        if c.value == '"' {
          assert text + "" == text;
          return Some(text);
        }
        if c.value == '\\' {
          c := Escape();
          if c.None? {
            return None;
          }
        }
        AfterOne(text, [c.value], ParseChars(Rest()));
        assert ParseChars(here) == After([c.value], ParseChars(Rest()));
        text := text + [c.value];
      }
    }

    method Value(fl: Floating) returns (r: Option<Json>)
      requires Valid()
      modifies this
      ensures Valid() && old(pos) <= pos
      ensures match ParseValue(fl, old(Rest()))
              case None => r == None
              case Some(p) => r == Some(p.value) && Rest() == p.rest && old(pos) < pos
      decreases |src| - pos, 1
    {
      hide ParseItems, ParseEntries, ParseString, ParseNumber, ParseLiteral;
      SkipWhite();
      var c := Peek();
      if c.None? {
        return None;
      }
      if c.value == '{' {
        r := Object(fl);
      } else if c.value == '[' {
        r := Array(fl);
      } else if c.value == '"' {
        var s := Chars();
        r := if s.None? then None else Some(Str(s.value));
      } else if c.value == 't' {
        r := Literal("true", Bool(true));
      } else if c.value == 'f' {
        r := Literal("false", Bool(false));
      } else if c.value == 'n' {
        r := Literal("null", Null);
      } else if c.value == '-' || Decimals.IsDigit(c.value) {
        r := Number(fl);
      } else {
        r := None;
      }
    }

    method Array(fl: Floating) returns (r: Option<Json>)
      requires Valid() && Rest() != "" && Rest()[0] == '['
      modifies this
      ensures Valid() && old(pos) <= pos
      ensures match ParseArray(fl, old(Rest())[1..])
              case None => r == None
              case Some(p) => r == Some(p.value) && Rest() == p.rest
      decreases |src| - pos, 0
    {
      hide ParseValue;
      var _ := Bump();
      ghost var body := Rest();
      SkipWhite();
      if Peek() == Some(']') {
        var _ := Bump();
        return Some(Arr([]));
      }
      ItemsSkip(fl, body);
      var items: seq<Json> := [];
      AfterNothing(ParseItems(fl, Rest()));
      while true
        invariant Valid() && old(pos) < pos
        invariant ParseItems(fl, body) == After(items, ParseItems(fl, Rest()))
        decreases |src| - pos
      {
        ghost var here := Rest();
        var item := Value(fl);
        if item.None? {
          return None;
        }
        SkipWhite();
        var c := Bump();
        if c == Some(',') {
          AfterOne(items, [item.value], ParseItems(fl, Rest()));
          assert ParseItems(fl, here) == After([item.value], ParseItems(fl, Rest()));
        } else if c == Some(']') {
          return Some(Arr(items + [item.value]));
        } else {
          return None;
        }
        items := items + [item.value];
      }
    }

    /** Key, colon and value of one entry. */
    method OneEntry(fl: Floating) returns (r: Option<Entry>)
      requires Valid()
      modifies this
      ensures Valid() && old(pos) <= pos
      ensures match ParseEntry(fl, old(Rest()))
              case None => r == None
              case Some(p) => r == Some(p.value) && Rest() == p.rest && old(pos) < pos
      decreases |src| - pos, 2
    {
      hide ParseValue, ParseString;
      SkipWhite();
      var key := Chars();
      if key.None? {
        return None;
      }
      SkipWhite();
      var colon := Bump();
      if colon != Some(':') {
        return None;
      }
      var value := Value(fl);
      if value.None? {
        return None;
      }
      r := Some(Entry(key.value, value.value));
    }

    method Object(fl: Floating) returns (r: Option<Json>)
      requires Valid() && Rest() != "" && Rest()[0] == '{'
      modifies this
      ensures Valid() && old(pos) <= pos
      ensures match ParseObject(fl, old(Rest())[1..])
              case None => r == None
              case Some(p) => r == Some(p.value) && Rest() == p.rest
      decreases |src| - pos, 0
    {
      hide ParseEntry, ParseEntries;
      var _ := Bump();
      ghost var body := Rest();
      SkipWhite();
      if Peek() == Some('}') {
        var _ := Bump();
        return Some(Obj([]));
      }
      EntriesSkip(fl, body);
      var entries: seq<Entry> := [];
      AfterNothing(ParseEntries(fl, Rest()));
      while true
        invariant Valid() && old(pos) < pos
        invariant ParseEntries(fl, body) == After(entries, ParseEntries(fl, Rest()))
        decreases |src| - pos
      {
        EntriesAreEntryByEntry(fl, Rest());
        var entry := OneEntry(fl);
        if entry.None? {
          return None;
        }
        SkipWhite();
        var c := Bump();
        if c == Some(',') {
          AfterOne(entries, [entry.value], ParseEntries(fl, Rest()));
        } else if c == Some('}') {
          return Some(Obj(entries + [entry.value]));
        } else {
          return None;
        }
        entries := entries + [entry.value];
      }
    }
  }

  lemma NotPrefix(text: string, s: string, i: nat)
    requires i < |text| && (i >= |s| || s[i] != text[i])
    ensures !(text <= s)
  {
  }

  lemma SpanStep(s: string, pos: nat)
    requires pos < |s| && NumberChar(s[pos])
    ensures NumberSpan(s[pos..]) == 1 + NumberSpan(s[pos + 1..])
  {
    assert s[pos..][1..] == s[pos + 1..];
  }

  lemma SpanEnds(s: string, pos: nat)
    requires pos <= |s| && (pos < |s| ==> !NumberChar(s[pos]))
    ensures NumberSpan(s[pos..]) == 0
  {
  }

  lemma {:induction false} BadDigitAt(s: string, i: nat, n: nat)
    requires i < n <= |s| && Decimals.HexValue(s[i]) == None
    ensures HexCode(s[..n]) == None
    decreases n
  {
    var t := s[..n];
    assert t[..|t| - 1] == s[..n - 1] && t[|t| - 1] == s[n - 1];
    if i < n - 1 {
      BadDigitAt(s, i, n - 1);
    }
  }

  lemma BadDigit(s: string, i: nat)
    requires i < 4 && i < |s| && Decimals.HexValue(s[i]) == None
    ensures |s| >= 4 ==> HexCode(s[..4]) == None
  {
    if |s| >= 4 {
      BadDigitAt(s, i, 4);
    }
  }

  lemma AfterNothing<T>(r: Option<Parsed<seq<T>>>)
    ensures After([], r) == r
  {
    if r.Some? {
      assert [] + r.value.value == r.value.value;
    }
  }

  /** One entry of an object: key, colon, value. */
  function ParseEntry(fl: Floating, s: string): Option<Parsed<Entry>> {
    match ParseString(SkipSpace(s))
    case None => None
    case Some(Parsed(key, rest)) =>
      var t := SkipSpace(rest);
      if t == "" || t[0] != ':' then None else
      match ParseValue(fl, t[1..])
      case None => None
      case Some(Parsed(v, rest')) => Some(Parsed(Entry(key, v), rest'))
  }

  lemma EntriesAreEntryByEntry(fl: Floating, s: string)
    ensures ParseEntries(fl, s) ==
              match ParseEntry(fl, s)
              case None => None
              case Some(Parsed(entry, rest)) =>
                var u := SkipSpace(rest);
                if u == "" then None
                else if u[0] == ',' then After([entry], ParseEntries(fl, u[1..]))
                else if u[0] == '}' then Some(Parsed([entry], u[1..]))
                else None
  {
    hide ParseString, ParseValue, SkipSpace;
  }

  lemma AfterOne<T>(before: seq<T>, one: seq<T>, r: Option<Parsed<seq<T>>>)
    ensures After(before, After(one, r)) == After(before + one, r)
  {
    if r.Some? {
      assert before + (one + r.value.value) == (before + one) + r.value.value;
    }
  }

  /** The array arm of `value`, after the opening bracket. */
  function ParseArray(fl: Floating, s: string): Option<Parsed<Json>> {
    var u := SkipSpace(s);
    if u != "" && u[0] == ']' then Some(Parsed(Arr([]), u[1..])) else
    match ParseItems(fl, s)
    case None => None
    case Some(Parsed(items, rest)) => Some(Parsed(Arr(items), rest))
  }

  function ParseObject(fl: Floating, s: string): Option<Parsed<Json>> {
    var u := SkipSpace(s);
    if u != "" && u[0] == '}' then Some(Parsed(Obj([]), u[1..])) else
    match ParseEntries(fl, s)
    case None => None
    case Some(Parsed(entries, rest)) => Some(Parsed(Obj(entries), rest))
  }

  lemma {:induction false} SkipTwice(s: string)
    ensures SkipSpace(SkipSpace(s)) == SkipSpace(s)
  {
    if s != "" && IsSpace(s[0]) {
      SkipTwice(s[1..]);
    }
  }

  lemma ItemsSkip(fl: Floating, s: string)
    ensures ParseItems(fl, SkipSpace(s)) == ParseItems(fl, s)
  {
    SkipTwice(s);
    hide SkipSpace, ParseNumber, ParseString, ParseLiteral, ParseEntries;
    assert ParseValue(fl, SkipSpace(s)) == ParseValue(fl, s);
  }

  lemma EntriesSkip(fl: Floating, s: string)
    ensures ParseEntries(fl, SkipSpace(s)) == ParseEntries(fl, s)
  {
    SkipTwice(s);
    hide SkipSpace, ParseString, ParseValue;
  }

  /** `parse`. */
  method ParseDocument(fl: Floating, text: string) returns (r: Option<Json>)
    ensures r == Parse(fl, text)
  {
    var p := new Parser(text);
    assert text[0..] == text;
    p.SkipWhite();
    ValueSkip(fl, text);
    r := p.Value(fl);
    if r.None? {
      return;
    }
    p.SkipWhite();
    if p.pos != |text| {
      return None;
    }
  }

  lemma ValueSkip(fl: Floating, s: string)
    ensures ParseValue(fl, SkipSpace(s)) == ParseValue(fl, s)
  {
    SkipTwice(s);
    hide SkipSpace, ParseNumber, ParseString, ParseLiteral, ParseEntries, ParseItems;
  }
}
