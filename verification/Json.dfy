/** JSON values, their text, and the reading of text back into values. */
module Json {
  import opened Basics
  import opened Floats
  import Decimals

  datatype Json =
    | Null
    | Bool(b: bool)
    | Num(n: F64)
    | Str(s: string)
    | Arr(items: seq<Json>)
    | Obj(entries: seq<Entry>)

  datatype Entry = Entry(key: string, value: Json)

  // ----- floating point, as far as it is not modelled -----

  /** Which reals are doubles, the digits chosen for one, and rounding to the nearest one. */
  datatype Floating = Floating(isDouble: real -> bool, shortest: real -> string, round: real -> F64)

  /** What the language promises of printing and parsing doubles: every double is printed as a plain
      decimal that rounds back to it, rounding gives doubles, and integers up to 2^53 are doubles. */
  ghost predicate Lawful(fl: Floating) {
    && (forall n :: -EXACT <= n <= EXACT ==> IntegerIsDouble(fl, n))
    && (forall x: real :: fl.round(x).Finite? ==> fl.isDouble(fl.round(x).r))
    && (forall r: real :: fl.isDouble(r) ==> fl.round(r) == Finite(r) && PrintsWell(fl, r))
  }

  predicate IntegerIsDouble(fl: Floating, n: int) {
    fl.isDouble(n as real)
  }

  const EXACT := 0x20_0000_0000_0000

  const INTEGERS := 1_000_000_000_000_000

  ghost predicate PrintsWell(fl: Floating, r: real) {
    var t := fl.shortest(r);
    && t != "" && (t[0] == '-' || Decimals.IsDigit(t[0])) && NumberSpan(t) == |t|
    && DecimalOf(t).Some? && fl.round(DecimalOf(t).value) == Finite(r)
  }

  function PowerOfTen(e: int): (p: real)
    ensures p > 0.0
    decreases if e < 0 then -e else e
  {
    if e == 0 then 1.0 else if e > 0 then 10.0 * PowerOfTen(e - 1) else PowerOfTen(e + 1) / 10.0
  }

  function DigitSpan(s: string): (n: nat)
    ensures n <= |s| && forall i :: 0 <= i < n ==> Decimals.IsDigit(s[i])
  {
    if s == "" || !Decimals.IsDigit(s[0]) then 0 else 1 + DigitSpan(s[1..])
  }

  /** An optional sign, and whether it was a minus. */
  function Unsigned(s: string): (string, bool) {
    if s != "" && (s[0] == '-' || s[0] == '+') then (s[1..], s[0] == '-') else (s, false)
  }

  function ExponentOf(s: string): Option<int> {
    if s == "" then Some(0)
    else if s[0] != 'e' && s[0] != 'E' then None
    else
      var (digits, minus) := Unsigned(s[1..]);
      if digits == "" || DigitSpan(digits) < |digits| then None
      else
        var e: int := Decimals.Value(digits);
        Some(if minus then -e else e)
  }

  function Placed(whole: nat, fraction: nat, places: real, scale: real): real
    requires places > 0.0
  {
    (whole as real + fraction as real / places) * scale
  }

  function Scaled(whole: string, fraction: string, e: int): real
    requires (forall i :: 0 <= i < |whole| ==> Decimals.IsDigit(whole[i]))
    requires (forall i :: 0 <= i < |fraction| ==> Decimals.IsDigit(fraction[i]))
  {
    Placed(Decimals.Value(whole), Decimals.Value(fraction), PowerOfTen(|fraction|), PowerOfTen(e))
  }

  /** The digits after a point, and what follows them. */
  function FractionOf(v: string): (r: (string, string))
    ensures forall i :: 0 <= i < |r.0| ==> Decimals.IsDigit(r.0[i])
  {
    if v != "" && v[0] == '.' then
      var j := DigitSpan(v[1..]);
      (v[1..][..j], v[1..][j..])
    else
      ("", v)
  }

  /** The exact value of a decimal floating-point literal. */
  function DecimalOf(s: string): Option<real> {
    var (u, minus) := Unsigned(s);
    var i := DigitSpan(u);
    var (fraction, rest) := FractionOf(u[i..]);
    if i == 0 && fraction == "" then None else
    match ExponentOf(rest)
    case None => None
    case Some(e) => Some(if minus then -Scaled(u[..i], fraction, e) else Scaled(u[..i], fraction, e))
  }

  // ----- printing -----

  predicate Whole(r: real) {
    r.Floor as real == r
  }

  function PrintInt(n: int): string {
    if n < 0 then "-" + Decimals.Print(-n) else Decimals.Print(n)
  }

  function PrintNum(fl: Floating, n: F64): string {
    match n
    case Finite(r) => if Whole(r) && -INTEGERS < r.Floor < INTEGERS then PrintInt(r.Floor) else fl.shortest(r)
    case Infinite(negative) => if negative then "-inf" else "inf"
    case NaN => "NaN"
  }

  function Escaped(c: char): (e: string)
    ensures e != ""
  {
    if c == '"' then "\\\""
    else if c == '\\' then "\\\\"
    else if c == '\n' then "\\n"
    else if c == '\r' then "\\r"
    else if c == '\t' then "\\t"
    else if c as int < 0x20 then ['\\', 'u', '0', '0', Decimals.HexDigit(c as int / 16), Decimals.HexDigit(c as int % 16)]
    else [c]
  }

  function EscapedAll(s: string): string {
    if s == "" then "" else Escaped(s[0]) + EscapedAll(s[1..])
  }

  function Quoted(s: string): string {
    "\"" + EscapedAll(s) + "\""
  }

  /** `serialize`. */
  function Print(fl: Floating, j: Json): string
    decreases j, 0
  {
    match j
    case Null => "null"
    case Bool(b) => if b then "true" else "false"
    case Num(n) => PrintNum(fl, n)
    case Str(s) => Quoted(s)
    case Arr(items) => "[" + PrintItems(fl, items, true) + "]"
    case Obj(entries) => "{" + PrintEntries(fl, entries, true) + "}"
  }

  function Separator(first: bool): string {
    if first then "" else ","
  }

  function PrintItems(fl: Floating, items: seq<Json>, first: bool): string
    decreases items, 1
  {
    if items == [] then "" else Separator(first) + (Print(fl, items[0]) + PrintItems(fl, items[1..], false))
  }

  function PrintEntries(fl: Floating, entries: seq<Entry>, first: bool): string
    decreases entries, 1
  {
    if entries == [] then "" else
    Separator(first) + (Quoted(entries[0].key) + (":" + (Print(fl, entries[0].value) + PrintEntries(fl, entries[1..], false))))
  }

  // ----- parsing -----

  /** A value and the text after it. */
  datatype Parsed<+T> = Parsed(value: T, rest: string)

  predicate IsSpace(c: char) {
    c == ' ' || c == '\t' || c == '\n' || c == '\r'
  }

  function SkipSpace(s: string): (t: string)
    ensures |t| <= |s| && (t != "" ==> !IsSpace(t[0]))
  {
    if s != "" && IsSpace(s[0]) then SkipSpace(s[1..]) else s
  }

  predicate NumberChar(c: char) {
    Decimals.IsDigit(c) || c == '.' || c == 'e' || c == 'E' || c == '+' || c == '-'
  }

  /** How far the number scanner runs: it takes every character that could belong to some number. */
  function NumberSpan(s: string): (n: nat)
    ensures n <= |s| && forall i :: 0 <= i < n ==> NumberChar(s[i])
    ensures n < |s| ==> !NumberChar(s[n])
  {
    if s == "" || !NumberChar(s[0]) then 0 else 1 + NumberSpan(s[1..])
  }

  function ParseNumber(fl: Floating, s: string): (r: Option<Parsed<Json>>)
    ensures r.Some? ==> |r.value.rest| < |s|
  {
    var n := NumberSpan(s);
    match DecimalOf(s[..n])
    case None => None
    case Some(x) => Some(Parsed(Num(fl.round(x)), s[n..]))
  }

  function HexCode(s: string): Option<nat> {
    if s == "" then Some(0) else
    match (HexCode(s[..|s| - 1]), Decimals.HexValue(s[|s| - 1]))
    case (Some(code), Some(d)) => Some(code * 16 + d)
    case _ => None
  }

  /** `char::from_u32` with the replacement character for surrogates. */
  function CharOf(code: nat): char {
    if code < 0xD800 || 0xE000 <= code < 0x11_0000 then code as char else 0xFFFD as char
  }

  /** What follows a backslash. */
  function Unescape(s: string): (r: Option<Parsed<char>>)
    ensures r.Some? ==> |r.value.rest| < |s|
  {
    if s == "" then None
    else if s[0] == '"' || s[0] == '\\' || s[0] == '/' then Some(Parsed(s[0], s[1..]))
    else if s[0] == 'b' then Some(Parsed(8 as char, s[1..]))
    else if s[0] == 'f' then Some(Parsed(12 as char, s[1..]))
    else if s[0] == 'n' then Some(Parsed('\n', s[1..]))
    else if s[0] == 'r' then Some(Parsed('\r', s[1..]))
    else if s[0] == 't' then Some(Parsed('\t', s[1..]))
    else if s[0] == 'u' && |s| >= 5 then
      match HexCode(s[1..5])
      case None => None
      case Some(code) => Some(Parsed(CharOf(code), s[5..]))
    else None
  }

  /** The characters of a string after its opening quote. */
  function ParseChars(s: string): (r: Option<Parsed<string>>)
    ensures r.Some? ==> |r.value.rest| < |s|
    decreases |s|
  {
    if s == "" then None
    else if s[0] == '"' then Some(Parsed("", s[1..]))
    else
      match if s[0] == '\\' then Unescape(s[1..]) else Some(Parsed(s[0], s[1..]))
      case None => None
      case Some(Parsed(c, rest)) =>
        match ParseChars(rest)
        case None => None
        case Some(Parsed(cs, rest')) => Some(Parsed([c] + cs, rest'))
  }

  function ParseString(s: string): (r: Option<Parsed<string>>)
    ensures r.Some? ==> |r.value.rest| < |s|
  {
    if s == "" || s[0] != '"' then None else ParseChars(s[1..])
  }

  function ParseLiteral(s: string, text: string, v: Json): (r: Option<Parsed<Json>>)
    requires text != ""
    ensures r.Some? ==> |r.value.rest| < |s|
  {
    if text <= s then Some(Parsed(v, s[|text|..])) else None
  }

  function ParseValue(fl: Floating, s: string): (r: Option<Parsed<Json>>)
    ensures r.Some? ==> |r.value.rest| < |s|
    decreases |s|, 1
  {
    var t := SkipSpace(s);
    if t == "" then None
    else if t[0] == '{' then
      var u := SkipSpace(t[1..]);
      if u != "" && u[0] == '}' then Some(Parsed(Obj([]), u[1..])) else
      (match ParseEntries(fl, t[1..])
       case None => None
       case Some(Parsed(entries, rest)) => Some(Parsed(Obj(entries), rest)))
    else if t[0] == '[' then
      var u := SkipSpace(t[1..]);
      if u != "" && u[0] == ']' then Some(Parsed(Arr([]), u[1..])) else
      (match ParseItems(fl, t[1..])
       case None => None
       case Some(Parsed(items, rest)) => Some(Parsed(Arr(items), rest)))
    else if t[0] == '"' then
      (match ParseString(t)
       case None => None
       case Some(Parsed(cs, rest)) => Some(Parsed(Str(cs), rest)))
    else if t[0] == 't' then ParseLiteral(t, "true", Bool(true))
    else if t[0] == 'f' then ParseLiteral(t, "false", Bool(false))
    else if t[0] == 'n' then ParseLiteral(t, "null", Null)
    else if t[0] == '-' || Decimals.IsDigit(t[0]) then ParseNumber(fl, t)
    else None
  }

  /** The items of an array from one item on, up to and including the closing bracket. */
  function ParseItems(fl: Floating, s: string): (r: Option<Parsed<seq<Json>>>)
    ensures r.Some? ==> |r.value.rest| < |s|
    decreases |s|, 2
  {
    match ParseValue(fl, s)
    case None => None
    case Some(Parsed(item, rest)) =>
      var t := SkipSpace(rest);
      if t == "" then None
      else if t[0] == ',' then
        (match ParseItems(fl, t[1..])
         case None => None
         case Some(Parsed(items, rest')) => Some(Parsed([item] + items, rest')))
      else if t[0] == ']' then Some(Parsed([item], t[1..]))
      else None
  }

  /** The entries of an object from one entry on, up to and including the closing brace. */
  function ParseEntries(fl: Floating, s: string): (r: Option<Parsed<seq<Entry>>>)
    ensures r.Some? ==> |r.value.rest| < |s|
    decreases |s|, 2
  {
    match ParseString(SkipSpace(s))
    case None => None
    case Some(Parsed(key, rest)) =>
      var t := SkipSpace(rest);
      if t == "" || t[0] != ':' then None else
      match ParseValue(fl, t[1..])
      case None => None
      case Some(Parsed(v, rest')) =>
        var u := SkipSpace(rest');
        if u == "" then None
        else if u[0] == ',' then
          (match ParseEntries(fl, u[1..])
           case None => None
           case Some(Parsed(entries, end)) => Some(Parsed([Entry(key, v)] + entries, end)))
        else if u[0] == '}' then Some(Parsed([Entry(key, v)], u[1..]))
        else None
  }

  /** `parse`. */
  function Parse(fl: Floating, s: string): Option<Json> {
    match ParseValue(fl, s)
    case None => None
    case Some(Parsed(v, rest)) => if SkipSpace(rest) == "" then Some(v) else None
  }

  // ----- accessors -----

  /** The first entry with the key, as `get` finds it. */
  function Lookup(entries: seq<Entry>, key: string): Option<Json> {
    if entries == [] then None
    else if entries[0].key == key then Some(entries[0].value)
    else Lookup(entries[1..], key)
  }

  function Get(j: Json, key: string): Option<Json> {
    if j.Obj? then Lookup(j.entries, key) else None
  }
}
