/** The JSON printer and parser undo each other, exactly on values whose numbers are finite doubles. */
module JsonProperties {
  import opened Basics
  import opened Floats
  import opened Json
  import Decimals

  /** Text the number scanner does not run into. */
  predicate Stops(rest: string) {
    rest == "" || !NumberChar(rest[0])
  }

  // ----- numbers -----

  lemma {:induction false} DigitSpanAll(s: string)
    requires forall i :: 0 <= i < |s| ==> Decimals.IsDigit(s[i])
    ensures DigitSpan(s) == |s|
  {
    if s != "" {
      DigitSpanAll(s[1..]);
    }
  }

  lemma DecimalOfDigits(digits: string)
    requires digits != "" && forall i :: 0 <= i < |digits| ==> Decimals.IsDigit(digits[i])
    ensures DecimalOf(digits) == Some(Decimals.Value(digits) as real)
    ensures DecimalOf("-" + digits) == Some(-(Decimals.Value(digits) as real))
  {
    assert Unsigned(digits) == (digits, false);
    assert Unsigned("-" + digits) == (digits, true) by {
      assert ("-" + digits)[1..] == digits;
    }
    hide Unsigned;
    DigitsAlone(digits, digits, false);
    DigitsAlone("-" + digits, digits, true);
  }

  lemma DigitsAlone(s: string, digits: string, negative: bool)
    requires digits != "" && (forall i :: 0 <= i < |digits| ==> Decimals.IsDigit(digits[i])) && Unsigned(s) == (digits, negative)
    ensures DecimalOf(s) == var v := Decimals.Value(digits) as real; Some(if negative then -v else v)
  {
    DigitSpanAll(digits);
    hide Decimals.Value, DigitSpan, Unsigned;
    assert digits[..|digits|] == digits && digits[|digits|..] == "";
    NothingAndOne();
    assert ExponentOf("") == Some(0);
    hide ExponentOf;
  }

  lemma NothingAndOne()
    ensures PowerOfTen(0) == 1.0 && Decimals.Value("") == 0
  {
  }

  lemma DecimalOfInt(n: int)
    ensures DecimalOf(PrintInt(n)) == Some(n as real)
  {
    hide DecimalOf;
    var m: nat := if n < 0 then -n else n;
    DecimalOfDigits(Decimals.Print(m));
    Decimals.ValueOfPrint(m);
  }

  lemma {:induction false} SpanOfText(t: string, rest: string)
    requires Stops(rest) && forall i :: 0 <= i < |t| ==> NumberChar(t[i])
    ensures NumberSpan(t + rest) == |t|
  {
    if t == "" {
      assert t + rest == rest;
    } else {
      assert (t + rest)[1..] == t[1..] + rest;
      SpanOfText(t[1..], rest);
    }
  }

  /** The greedy scanner takes exactly the printed number when what follows is no number character. */
  lemma NumberRoundTrip(fl: Floating, t: string, r: real, rest: string)
    requires Stops(rest) && NumberSpan(t) == |t| && DecimalOf(t).Some? && fl.round(DecimalOf(t).value) == Finite(r)
    ensures ParseNumber(fl, t + rest) == Some(Parsed(Num(Finite(r)), rest))
  {
    SpanOfText(t, rest);
    assert (t + rest)[..|t|] == t && (t + rest)[|t|..] == rest;
  }

  predicate IsDouble(fl: Floating, n: F64) {
    n.Finite? && fl.isDouble(n.r)
  }

  lemma IntPrintsWell(fl: Floating, n: int)
    requires Lawful(fl) && -INTEGERS < n < INTEGERS
    ensures var t := PrintInt(n);
            t != "" && (t[0] == '-' || Decimals.IsDigit(t[0])) && NumberSpan(t) == |t|
            && DecimalOf(t).Some? && fl.round(DecimalOf(t).value) == Finite(n as real)
  {
    DecimalOfInt(n);
    assert IntegerIsDouble(fl, n);
    var t := PrintInt(n);
    assert t + "" == t;
    SpanOfText(t, "");
  }

  lemma NumRoundTrip(fl: Floating, n: F64, rest: string)
    requires Lawful(fl) && IsDouble(fl, n) && Stops(rest)
    ensures ParseValue(fl, PrintNum(fl, n) + rest) == Some(Parsed(Num(n), rest))
  {
    var t := PrintNum(fl, n);
    if Whole(n.r) && -INTEGERS < n.r.Floor < INTEGERS {
      IntPrintsWell(fl, n.r.Floor);
    } else {
      assert PrintsWell(fl, n.r);
    }
    hide Lawful, DecimalOf, PrintNum, ParseNumber, ParseValue;
    NumberRoundTrip(fl, t, n.r, rest);
    assert (t + rest)[0] == t[0];
    NumberIsParsed(fl, t + rest);
  }

  lemma NumberIsParsed(fl: Floating, s: string)
    requires s != "" && (s[0] == '-' || Decimals.IsDigit(s[0]))
    ensures ParseValue(fl, s) == ParseNumber(fl, s)
  {
    hide ParseNumber, ParseItems, ParseEntries, ParseLiteral, ParseString;
    assert SkipSpace(s) == s;
  }

  // ----- strings -----

  lemma HexCodeOf4(a: char, b: char, c: char, d: char)
    requires Decimals.HexValue(a).Some? && Decimals.HexValue(b).Some? && Decimals.HexValue(c).Some? && Decimals.HexValue(d).Some?
    ensures HexCode([a, b, c, d]) ==
              Some(((Decimals.HexValue(a).value * 16 + Decimals.HexValue(b).value) * 16 + Decimals.HexValue(c).value) * 16 + Decimals.HexValue(d).value)
  {
    hide Decimals.HexValue;
    assert [a, b, c, d][..3] == [a, b, c] && [a, b, c][..2] == [a, b] && [a, b][..1] == [a] && [a][..0] == "";
    assert HexCode([a]) == Some(Decimals.HexValue(a).value);
    assert HexCode([a, b]) == Some(Decimals.HexValue(a).value * 16 + Decimals.HexValue(b).value);
  }

  /** One character, escaped, is read back as that character. */
  lemma EscapedRoundTrip(c: char, rest: string)
    ensures var s := Escaped(c) + rest;
            s[0] != '"' && (if s[0] == '\\' then Unescape(s[1..]) else Some(Parsed(s[0], s[1..]))) == Some(Parsed(c, rest))
  {
    var e := Escaped(c);
    var s := e + rest;
    if |e| == 1 {
      assert s[1..] == rest;
    } else if |e| == 2 {
      assert s[1..][0] == e[1] && s[1..][1..] == rest;
    } else {
      var n := c as int;
      Decimals.HexValueOfDigit(n / 16);
      Decimals.HexValueOfDigit(n % 16);
      assert e == ['\\', 'u', '0', '0', Decimals.HexDigit(n / 16), Decimals.HexDigit(n % 16)];
      var t := s[1..];
      assert t == e[1..] + rest && |e[1..]| == 5;
      assert t[1] == '0' && t[2] == '0' && t[3] == Decimals.HexDigit(n / 16) && t[4] == Decimals.HexDigit(n % 16);
      assert s[1..][1..5] == ['0', '0', Decimals.HexDigit(n / 16), Decimals.HexDigit(n % 16)];
      HexCodeOf4('0', '0', Decimals.HexDigit(n / 16), Decimals.HexDigit(n % 16));
      assert s[1..][5..] == rest;
      hide HexCode, Decimals.HexValue, Decimals.HexDigit;
    }
  }

  lemma {:induction false} CharsRoundTrip(cs: string, rest: string)
    ensures ParseChars(EscapedAll(cs) + ("\"" + rest)) == Some(Parsed(cs, rest))
  {
    hide Escaped, Unescape;
    var tail := "\"" + rest;
    if cs == "" {
      assert EscapedAll(cs) + tail == tail && tail[1..] == rest;
    } else {
      var more := EscapedAll(cs[1..]) + tail;
      assert EscapedAll(cs) + tail == Escaped(cs[0]) + more;
      EscapedRoundTrip(cs[0], more);
      CharsRoundTrip(cs[1..], rest);
      assert [cs[0]] + cs[1..] == cs;
    }
  }

  /** Every string, control characters and all, is read back from its quoted form. */
  lemma StringRoundTrip(cs: string, rest: string)
    ensures ParseString(Quoted(cs) + rest) == Some(Parsed(cs, rest))
  {
    hide ParseChars, EscapedAll;
    CharsRoundTrip(cs, rest);
    assert (Quoted(cs) + rest)[1..] == EscapedAll(cs) + ("\"" + rest);
  }

  // ----- values -----

  /** All numbers in the value are finite doubles. */
  predicate AllDoubles(fl: Floating, j: Json)
    decreases j, 0
  {
    match j
    case Num(n) => IsDouble(fl, n)
    case Arr(items) => AllItemsDoubles(fl, items)
    case Obj(entries) => AllEntriesDoubles(fl, entries)
    case _ => true
  }

  predicate AllItemsDoubles(fl: Floating, items: seq<Json>)
    decreases items, 1
  {
    items == [] || (AllDoubles(fl, items[0]) && AllItemsDoubles(fl, items[1..]))
  }

  predicate AllEntriesDoubles(fl: Floating, entries: seq<Entry>)
    decreases entries, 1
  {
    entries == [] || (AllDoubles(fl, entries[0].value) && AllEntriesDoubles(fl, entries[1..]))
  }

  /** All numbers are doubles as the language has them: finite, infinite or not a number. */
  predicate Representable(fl: Floating, j: Json)
    decreases j, 0
  {
    match j
    case Num(n) => n.Finite? ==> fl.isDouble(n.r)
    case Arr(items) => ItemsRepresentable(fl, items)
    case Obj(entries) => EntriesRepresentable(fl, entries)
    case _ => true
  }

  predicate ItemsRepresentable(fl: Floating, items: seq<Json>)
    decreases items, 1
  {
    items == [] || (Representable(fl, items[0]) && ItemsRepresentable(fl, items[1..]))
  }

  predicate EntriesRepresentable(fl: Floating, entries: seq<Entry>)
    decreases entries, 1
  {
    entries == [] || (Representable(fl, entries[0].value) && EntriesRepresentable(fl, entries[1..]))
  }

  /** No printed value opens with white space or a character that closes or separates. */
  lemma PrintOpens(fl: Floating, j: Json)
    requires Lawful(fl) && Representable(fl, j)
    ensures var t := Print(fl, j);
            t != "" && !IsSpace(t[0]) && t[0] != ']' && t[0] != '}' && t[0] != ','
  {
    if j.Num? && j.n.Finite? {
      if Whole(j.n.r) && -INTEGERS < j.n.r.Floor < INTEGERS {
        IntPrintsWell(fl, j.n.r.Floor);
      } else {
        assert PrintsWell(fl, j.n.r);
      }
    }
    hide PrintItems, PrintEntries, EscapedAll, NumberSpan, DecimalOf;
  }

  lemma LiteralRoundTrip(fl: Floating, j: Json, rest: string)
    requires j.Null? || j.Bool?
    ensures ParseValue(fl, Print(fl, j) + rest) == Some(Parsed(j, rest))
  {
    hide ParseItems, ParseEntries, ParseString, ParseNumber;
    var t := Print(fl, j);
    var s := t + rest;
    assert s[0] == t[0] && SkipSpace(s) == s;
    assert t <= s && s[|t|..] == rest;
  }

  /** The value, and nothing more, is read back from its text, whatever follows that cannot extend a
      number: for every nesting, every string and repeated keys. */
  lemma {:induction false} ValueRoundTrip(fl: Floating, j: Json, rest: string)
    requires Lawful(fl) && AllDoubles(fl, j) && Stops(rest)
    ensures ParseValue(fl, Print(fl, j) + rest) == Some(Parsed(j, rest))
    decreases j, 0
  {
    hide Lawful, Stops, ParseValue, Quoted, ParseItems, ParseEntries, PrintItems, PrintEntries;
    match j
    case Null => LiteralRoundTrip(fl, j, rest);
    case Bool(_) => LiteralRoundTrip(fl, j, rest);
    case Num(n) => NumRoundTrip(fl, n, rest);
    case Str(cs) => TextRoundTrip(fl, cs, rest);
    case Arr(items) =>
      if items != [] {
        ItemsRoundTrip(fl, items, rest);
      }
      ArrayRoundTrip(fl, items, rest);
    case Obj(entries) =>
      if entries != [] {
        EntriesRoundTrip(fl, entries, rest);
      }
      ObjectRoundTrip(fl, entries, rest);
  }

  lemma ArrayText(fl: Floating, items: seq<Json>, rest: string)
    ensures var s := Print(fl, Arr(items)) + rest;
            s != "" && s[0] == '[' && s[1..] == PrintItems(fl, items, true) + ("]" + rest)
  {
    hide PrintItems;
  }

  lemma ArrayRoundTrip(fl: Floating, items: seq<Json>, rest: string)
    requires Lawful(fl) && AllItemsDoubles(fl, items)
    requires items != [] ==> ParseItems(fl, PrintItems(fl, items, true) + ("]" + rest)) == Some(Parsed(items, rest))
    ensures ParseValue(fl, Print(fl, Arr(items)) + rest) == Some(Parsed(Arr(items), rest))
  {
    ArrayText(fl, items, rest);
    var s := Print(fl, Arr(items)) + rest;
    if items != [] {
      DoublesAreRepresentable(fl, items[0]);
    }
    hide Lawful, Print, ParseValue, ParseItems, AllItemsDoubles;
    if items == [] {
      assert PrintItems(fl, items, true) == "";
      assert s[1..] == "]" + rest && s[2..] == rest;
    } else {
      ItemsOpen(fl, items, "]" + rest);
    }
    hide PrintItems;
    assert SkipSpace(s[1..]) == s[1..];
    hide SkipSpace;
    ArrayIsParsed(fl, s);
  }

  lemma ArrayIsParsed(fl: Floating, s: string)
    requires s != "" && s[0] == '[' && SkipSpace(s[1..]) == s[1..]
    ensures ParseValue(fl, s) ==
              if s[1..] != "" && s[1] == ']' then Some(Parsed(Arr([]), s[2..]))
              else match ParseItems(fl, s[1..])
                   case None => None
                   case Some(Parsed(items, rest)) => Some(Parsed(Arr(items), rest))
  {
    hide ParseEntries, ParseItems, ParseString, ParseNumber, ParseLiteral;
    assert SkipSpace(s) == s;
    assert s[1..] != "" ==> s[1..][1..] == s[2..];
  }

  lemma ObjectText(fl: Floating, entries: seq<Entry>, rest: string)
    ensures var s := Print(fl, Obj(entries)) + rest;
            s != "" && s[0] == '{' && s[1..] == PrintEntries(fl, entries, true) + ("}" + rest)
  {
    hide PrintEntries;
  }

  lemma ObjectRoundTrip(fl: Floating, entries: seq<Entry>, rest: string)
    requires entries != [] ==> ParseEntries(fl, PrintEntries(fl, entries, true) + ("}" + rest)) == Some(Parsed(entries, rest))
    ensures ParseValue(fl, Print(fl, Obj(entries)) + rest) == Some(Parsed(Obj(entries), rest))
  {
    ObjectText(fl, entries, rest);
    var s := Print(fl, Obj(entries)) + rest;
    if entries == [] {
      assert PrintEntries(fl, entries, true) == "";
      assert s[1..] == "}" + rest && s[2..] == rest;
    } else {
      EntriesOpen(fl, entries, "}" + rest);
    }
    hide PrintEntries, Print, ParseValue, ParseEntries;
    assert SkipSpace(s[1..]) == s[1..];
    hide SkipSpace;
    ObjectIsParsed(fl, s);
  }

  lemma ObjectIsParsed(fl: Floating, s: string)
    requires s != "" && s[0] == '{' && SkipSpace(s[1..]) == s[1..]
    ensures ParseValue(fl, s) ==
              if s[1..] != "" && s[1] == '}' then Some(Parsed(Obj([]), s[2..]))
              else match ParseEntries(fl, s[1..])
                   case None => None
                   case Some(Parsed(entries, rest)) => Some(Parsed(Obj(entries), rest))
  {
    hide ParseEntries, ParseItems, ParseString, ParseNumber, ParseLiteral;
    assert SkipSpace(s) == s;
    assert s[1..] != "" ==> s[1..][1..] == s[2..];
  }

  lemma TextRoundTrip(fl: Floating, cs: string, rest: string)
    ensures ParseValue(fl, Quoted(cs) + rest) == Some(Parsed(Str(cs), rest))
  {
    StringRoundTrip(cs, rest);
    QuoteOpens(cs, rest);
    hide ParseItems, ParseEntries, ParseString, Quoted, ParseNumber, ParseLiteral;
  }

  lemma QuoteOpens(cs: string, rest: string)
    ensures var s := Quoted(cs) + rest; s != "" && s[0] == '"' && SkipSpace(s) == s
  {
    hide EscapedAll;
  }

  lemma ItemsOpen(fl: Floating, items: seq<Json>, rest: string)
    requires Lawful(fl) && items != [] && Representable(fl, items[0])
    ensures var s := PrintItems(fl, items, true) + rest; SkipSpace(s) == s && s != "" && s[0] != ']'
  {
    hide Lawful, Representable;
    PrintOpens(fl, items[0]);
    hide Print;
    var t := Print(fl, items[0]);
    assert PrintItems(fl, items, true) == "" + (t + PrintItems(fl, items[1..], false));
    hide PrintItems;
  }

  lemma EntriesOpen(fl: Floating, entries: seq<Entry>, rest: string)
    requires entries != []
    ensures var s := PrintEntries(fl, entries, true) + rest; SkipSpace(s) == s && s != "" && s[0] == '"'
  {
    hide Print, EscapedAll;
    var tail := ":" + (Print(fl, entries[0].value) + PrintEntries(fl, entries[1..], false));
    assert PrintEntries(fl, entries, true) == "" + (Quoted(entries[0].key) + tail);
    hide PrintEntries;
  }

  lemma {:induction false} DoublesAreRepresentable(fl: Floating, j: Json)
    requires AllDoubles(fl, j)
    ensures Representable(fl, j)
    decreases j, 0
  {
    match j
    case Arr(items) => ItemsAreRepresentable(fl, items);
    case Obj(entries) => EntriesAreRepresentable(fl, entries);
    case _ =>
  }

  lemma {:induction false} ItemsAreRepresentable(fl: Floating, items: seq<Json>)
    requires AllItemsDoubles(fl, items)
    ensures ItemsRepresentable(fl, items)
    decreases items, 1
  {
    if items != [] {
      DoublesAreRepresentable(fl, items[0]);
      ItemsAreRepresentable(fl, items[1..]);
    }
  }

  lemma {:induction false} EntriesAreRepresentable(fl: Floating, entries: seq<Entry>)
    requires AllEntriesDoubles(fl, entries)
    ensures EntriesRepresentable(fl, entries)
    decreases entries, 1
  {
    if entries != [] {
      DoublesAreRepresentable(fl, entries[0].value);
      EntriesAreRepresentable(fl, entries[1..]);
    }
  }

  /** One item of an array and what stands after it. */
  lemma ItemsStep(fl: Floating, s: string, item: Json, tail: string)
    requires ParseValue(fl, s) == Some(Parsed(item, tail)) && tail != ""
    ensures tail[0] == ']' ==> ParseItems(fl, s) == Some(Parsed([item], tail[1..]))
    ensures tail[0] == ',' ==>
              ParseItems(fl, s) == match ParseItems(fl, tail[1..])
                                   case None => None
                                   case Some(Parsed(items, rest)) => Some(Parsed([item] + items, rest))
  {
    hide ParseValue;
    assert tail[0] == ']' || tail[0] == ',' ==> SkipSpace(tail) == tail;
  }

  lemma {:induction false} ItemsRoundTrip(fl: Floating, items: seq<Json>, rest: string)
    requires Lawful(fl) && items != [] && AllItemsDoubles(fl, items)
    ensures ParseItems(fl, PrintItems(fl, items, true) + ("]" + rest)) == Some(Parsed(items, rest))
    decreases items, 1
  {
    hide Lawful, Print, ParseValue, ParseItems, AllDoubles;
    var item, others := items[0], items[1..];
    var end := "]" + rest;
    var tail := PrintItems(fl, others, false) + end;
    var s := Print(fl, item) + tail;
    assert PrintItems(fl, items, true) + end == s;
    assert [item] + others == items;
    if others == [] {
      assert items == [item];
      assert tail == end && tail[1..] == rest;
    } else {
      var more := PrintItems(fl, others, true) + end;
      assert tail == "," + more && tail[1..] == more;
      ItemsRoundTrip(fl, others, rest);
    }
    hide PrintItems;
    ValueRoundTrip(fl, item, tail);
    ItemsStep(fl, s, item, tail);
  }

  /** One entry of an object and what stands after it. */
  lemma EntriesStep(fl: Floating, s: string, key: string, value: string, v: Json, tail: string)
    requires SkipSpace(s) == s && ParseString(s) == Some(Parsed(key, ":" + value))
    requires ParseValue(fl, value) == Some(Parsed(v, tail)) && tail != ""
    ensures tail[0] == '}' ==> ParseEntries(fl, s) == Some(Parsed([Entry(key, v)], tail[1..]))
    ensures tail[0] == ',' ==>
              ParseEntries(fl, s) == match ParseEntries(fl, tail[1..])
                                     case None => None
                                     case Some(Parsed(entries, rest)) => Some(Parsed([Entry(key, v)] + entries, rest))
  {
    hide ParseValue, ParseString;
    assert SkipSpace(":" + value) == ":" + value && (":" + value)[1..] == value;
    assert tail[0] == '}' || tail[0] == ',' ==> SkipSpace(tail) == tail;
  }

  lemma {:induction false} EntriesRoundTrip(fl: Floating, entries: seq<Entry>, rest: string)
    requires Lawful(fl) && entries != [] && AllEntriesDoubles(fl, entries)
    ensures ParseEntries(fl, PrintEntries(fl, entries, true) + ("}" + rest)) == Some(Parsed(entries, rest))
    decreases entries, 1
  {
    hide Lawful, Print, ParseValue, Quoted, ParseString, ParseEntries, AllDoubles, SkipSpace;
    var e, others := entries[0], entries[1..];
    var end := "}" + rest;
    var tail := PrintEntries(fl, others, false) + end;
    var value := Print(fl, e.value) + tail;
    var s := Quoted(e.key) + (":" + value);
    assert PrintEntries(fl, entries, true) + end == s;
    assert [e] + others == entries;
    if others == [] {
      assert entries == [e];
      assert tail == end && tail[1..] == rest;
    } else {
      var more := PrintEntries(fl, others, true) + end;
      assert tail == "," + more && tail[1..] == more;
      EntriesRoundTrip(fl, others, rest);
    }
    hide PrintEntries;
    StringRoundTrip(e.key, ":" + value);
    QuoteOpens(e.key, ":" + value);
    ValueRoundTrip(fl, e.value, tail);
    EntriesStep(fl, s, e.key, value, e.value, tail);
  }

  // ----- numbers that are not finite -----

  lemma NonFiniteRejected(fl: Floating, n: F64, rest: string)
    requires !n.Finite?
    ensures ParseValue(fl, PrintNum(fl, n) + rest) == None
  {
    var s := PrintNum(fl, n) + rest;
    if n == Infinite(true) {
      NumberIsParsed(fl, s);
      assert s[0] == '-' && s[1] == 'i';
      assert s[1..][0] == 'i';
      assert NumberSpan(s) == 1 && s[..1] == "-";
      assert "-"[1..] == "";
    } else {
      assert SkipSpace(s) == s && (s[0] == 'i' || s[0] == 'N');
    }
    hide ParseItems, ParseEntries, ParseString, ParseLiteral;
  }

  /** A value with an infinity or a NaN anywhere in it is printed as text that does not parse. */
  lemma {:induction false} ValueRejected(fl: Floating, j: Json, rest: string)
    requires Lawful(fl) && Representable(fl, j) && !AllDoubles(fl, j)
    ensures ParseValue(fl, Print(fl, j) + rest) == None
    decreases j, 0
  {
    hide Lawful, ParseValue, ParseItems, ParseEntries, PrintItems, PrintEntries;
    match j
    case Num(n) => NonFiniteRejected(fl, n, rest);
    case Arr(items) =>
      ItemsRejected(fl, items, rest);
      ArrayRejected(fl, items, rest);
    case Obj(entries) =>
      EntriesRejected(fl, entries, rest);
      ObjectRejected(fl, entries, rest);
  }

  lemma ArrayRejected(fl: Floating, items: seq<Json>, rest: string)
    requires Lawful(fl) && items != [] && ItemsRepresentable(fl, items)
    requires ParseItems(fl, PrintItems(fl, items, true) + ("]" + rest)) == None
    ensures ParseValue(fl, Print(fl, Arr(items)) + rest) == None
  {
    hide ParseValue, ParseItems, Lawful;
    ArrayText(fl, items, rest);
    ItemsOpen(fl, items, "]" + rest);
    hide PrintItems, Print, SkipSpace;
    ArrayIsParsed(fl, Print(fl, Arr(items)) + rest);
  }

  lemma ObjectRejected(fl: Floating, entries: seq<Entry>, rest: string)
    requires entries != []
    requires ParseEntries(fl, PrintEntries(fl, entries, true) + ("}" + rest)) == None
    ensures ParseValue(fl, Print(fl, Obj(entries)) + rest) == None
  {
    hide ParseValue, ParseEntries;
    ObjectText(fl, entries, rest);
    EntriesOpen(fl, entries, "}" + rest);
    hide PrintEntries, Print;
    ObjectIsParsed(fl, Print(fl, Obj(entries)) + rest);
  }

  lemma {:induction false} ItemsRejected(fl: Floating, items: seq<Json>, rest: string)
    requires Lawful(fl) && ItemsRepresentable(fl, items) && !AllItemsDoubles(fl, items)
    ensures items != [] && ParseItems(fl, PrintItems(fl, items, true) + ("]" + rest)) == None
    decreases items, 1
  {
    hide Lawful, Print, ParseValue, AllDoubles, Representable;
    var item, others := items[0], items[1..];
    var end := "]" + rest;
    var tail := PrintItems(fl, others, false) + end;
    var s := Print(fl, item) + tail;
    assert PrintItems(fl, items, true) + end == s;
    if !AllDoubles(fl, item) {
      ValueRejected(fl, item, tail);
    } else {
      ItemsRejected(fl, others, rest);
      var more := PrintItems(fl, others, true) + end;
      assert tail == "," + more && tail[1..] == more;
      hide PrintItems, ParseItems;
      ValueRoundTrip(fl, item, tail);
      ItemsStep(fl, s, item, tail);
    }
  }

  lemma {:induction false} EntriesRejected(fl: Floating, entries: seq<Entry>, rest: string)
    requires Lawful(fl) && EntriesRepresentable(fl, entries) && !AllEntriesDoubles(fl, entries)
    ensures entries != [] && ParseEntries(fl, PrintEntries(fl, entries, true) + ("}" + rest)) == None
    decreases entries, 1
  {
    hide Lawful, Print, ParseValue, AllDoubles, Representable, Quoted, ParseString, ParseEntries, SkipSpace;
    var e, others := entries[0], entries[1..];
    var end := "}" + rest;
    var tail := PrintEntries(fl, others, false) + end;
    var value := Print(fl, e.value) + tail;
    var s := Quoted(e.key) + (":" + value);
    assert PrintEntries(fl, entries, true) + end == s;
    StringRoundTrip(e.key, ":" + value);
    QuoteOpens(e.key, ":" + value);
    if !AllDoubles(fl, e.value) {
      ValueRejected(fl, e.value, tail);
      EntryRejected(fl, s, e.key, value);
    } else {
      EntriesRejected(fl, others, rest);
      var more := PrintEntries(fl, others, true) + end;
      assert tail == "," + more && tail[1..] == more;
      hide PrintEntries;
      ValueRoundTrip(fl, e.value, tail);
      EntriesStep(fl, s, e.key, value, e.value, tail);
    }
  }

  lemma EntryRejected(fl: Floating, s: string, key: string, value: string)
    requires SkipSpace(s) == s && ParseString(s) == Some(Parsed(key, ":" + value)) && ParseValue(fl, value) == None
    ensures ParseEntries(fl, s) == None
  {
    hide ParseValue, ParseString;
    assert SkipSpace(":" + value) == ":" + value && (":" + value)[1..] == value;
  }

  // ----- documents -----

  /** A value survives printing and parsing if and only if every number in it is finite; any other is
      printed as text that is not JSON. */
  lemma ParsesBackExactlyWhenFinite(fl: Floating, j: Json)
    requires Lawful(fl) && Representable(fl, j)
    ensures Parse(fl, Print(fl, j)) == if AllDoubles(fl, j) then Some(j) else None
  {
    hide ParseValue, Print, Lawful;
    assert Print(fl, j) + "" == Print(fl, j);
    if AllDoubles(fl, j) {
      ValueRoundTrip(fl, j, "");
    } else {
      ValueRejected(fl, j, "");
    }
  }

  /** Different values have different text. */
  lemma PrintInjective(fl: Floating, i: Json, j: Json)
    requires Lawful(fl) && AllDoubles(fl, i) && AllDoubles(fl, j) && Print(fl, i) == Print(fl, j)
    ensures i == j
  {
    DoublesAreRepresentable(fl, i);
    DoublesAreRepresentable(fl, j);
    ParsesBackExactlyWhenFinite(fl, i);
    ParsesBackExactlyWhenFinite(fl, j);
  }
}
