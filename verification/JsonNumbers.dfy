/** What a decimal floating-point literal denotes, and which texts are literals. */
module JsonNumbers {
  import opened Basics
  import opened Floats
  import opened Json
  import opened JsonProperties
  import Decimals

  /** An exponent: its mark, its sign, and its digits. */
  datatype Exponent = Exponent(mark: char, sign: string, digits: string)

  /** A literal in its parts; the fraction has no digits when there is no point. */
  datatype Numeral = Numeral(sign: string, whole: string, point: bool, fraction: string, exponent: Option<Exponent>)

  predicate AllDigits(s: string) {
    forall i :: 0 <= i < |s| ==> Decimals.IsDigit(s[i])
  }

  predicate IsSign(s: string) {
    s == "" || s == "-" || s == "+"
  }

  predicate ExponentFormed(x: Exponent) {
    (x.mark == 'e' || x.mark == 'E') && IsSign(x.sign) && AllDigits(x.digits) && x.digits != ""
  }

  /** Digits before or after the point, and digits in an exponent. */
  predicate Formed(n: Numeral) {
    && IsSign(n.sign) && AllDigits(n.whole) && AllDigits(n.fraction) && n.whole + n.fraction != ""
    && (n.fraction != "" ==> n.point)
    && (n.exponent.Some? ==> ExponentFormed(n.exponent.value))
  }

  function ShowExponent(x: Option<Exponent>): string {
    if x.None? then "" else [x.value.mark] + x.value.sign + x.value.digits
  }

  /** From the point on. */
  function ShowTail(n: Numeral): string {
    (if n.point then "." + n.fraction else "") + ShowExponent(n.exponent)
  }

  function Show(n: Numeral): string {
    n.sign + (n.whole + ShowTail(n))
  }

  function ExponentValue(x: Option<Exponent>): int
    requires x.Some? ==> ExponentFormed(x.value)
  {
    if x.None? then 0 else
    var e: int := Decimals.Value(x.value.digits);
    if x.value.sign == "-" then -e else e
  }

  /** All digits as one integer, scaled by the exponent less the number of digits after the point. */
  function Meaning(n: Numeral): real
    requires Formed(n)
  {
    var m := Product(Decimals.Value(n.whole + n.fraction) as real, PowerOfTen(ExponentValue(n.exponent) - |n.fraction|));
    if n.sign == "-" then -m else m
  }

  // ----- powers and digits -----

  function Product(x: real, y: real): real {
    x * y
  }

  lemma TenTimes(e: int)
    ensures PowerOfTen(e + 1) == 10.0 * PowerOfTen(e)
  {
  }

  lemma {:induction false} PowerShift(e: int, k: nat)
    ensures Product(PowerOfTen(e - k), PowerOfTen(k)) == PowerOfTen(e)
  {
    if k > 0 {
      PowerShift(e, k - 1);
      TenTimes(e - k);
      TenTimes(k - 1);
      MoveTen(PowerOfTen(e - k), PowerOfTen(k - 1));
    }
  }

  lemma MoveTen(a: real, b: real)
    ensures Product(a, 10.0 * b) == Product(10.0 * a, b)
  {
  }

  /** Two integers side by side, the second one with room for itself. */
  function Joined(v: nat, p: real, w: nat): real {
    v as real * p + w as real
  }

  lemma LastDigit(a: nat, v: nat, w: nat, x: nat, p: real)
    requires a as real == Joined(v, p, w)
    ensures (a * 10 + x) as real == Joined(v, 10.0 * p, w * 10 + x)
  {
    var r := v as real;
    assert r * (10.0 * p) == 10.0 * (r * p);
  }

  lemma {:induction false} ValueOfConcat(d: string, f: string)
    requires AllDigits(d) && AllDigits(f)
    ensures Decimals.Value(d + f) as real == Joined(Decimals.Value(d), PowerOfTen(|f|), Decimals.Value(f))
    decreases |f|
  {
    if f == "" {
      assert d + f == d;
    } else {
      var g := f[..|f| - 1];
      ValueOfConcat(d, g);
      assert (d + f)[..|d + f| - 1] == d + g;
      TenTimes(|g|);
      LastDigit(Decimals.Value(d + g), Decimals.Value(d), Decimals.Value(g), Decimals.DigitValue(f[|f| - 1]), PowerOfTen(|g|));
      hide PowerOfTen, Joined;
    }
  }

  /** The code's order of scaling gives the same real. */
  lemma ScaledIs(d: string, f: string, e: int)
    requires AllDigits(d) && AllDigits(f)
    ensures Scaled(d, f, e) == Product(Decimals.Value(d + f) as real, PowerOfTen(e - |f|))
  {
    ValueOfConcat(d, f);
    PowerShift(e, |f|);
    PlacedIs(Decimals.Value(d), Decimals.Value(f), PowerOfTen(|f|), PowerOfTen(e - |f|));
    hide PowerOfTen, Decimals.Value, Product, Joined, Placed;
  }

  lemma PlacedIs(v: nat, w: nat, p: real, q: real)
    requires p > 0.0
    ensures Placed(v, w, p, Product(q, p)) == Product(Joined(v, p, w), q)
  {
    var r, u := v as real, w as real / p;
    assert u * p == w as real;
    assert (r + u) * (q * p) == (r * p + u * p) * q;
  }

  // ----- every numeral is read as what it means -----

  lemma {:induction false} DigitSpanStops(d: string, rest: string)
    requires AllDigits(d) && (rest != "" ==> !Decimals.IsDigit(rest[0]))
    ensures DigitSpan(d + rest) == |d| && (d + rest)[..|d|] == d && (d + rest)[|d|..] == rest
  {
    if d == "" {
      assert d + rest == rest;
    } else {
      assert (d + rest)[1..] == d[1..] + rest;
      DigitSpanStops(d[1..], rest);
    }
  }

  lemma UnsignedOfSigned(sign: string, u: string)
    requires IsSign(sign) && u != "" && u[0] != '-' && u[0] != '+'
    ensures Unsigned(sign + u) == (u, sign == "-")
  {
    if sign == "" {
      assert sign + u == u;
    } else {
      assert (sign + u)[1..] == u;
    }
  }

  lemma ExponentRead(x: Option<Exponent>)
    requires x.Some? ==> ExponentFormed(x.value)
    ensures ExponentOf(ShowExponent(x)) == Some(ExponentValue(x))
  {
    if x.Some? {
      var s := ShowExponent(x);
      assert s[1..] == x.value.sign + x.value.digits;
      UnsignedOfSigned(x.value.sign, x.value.digits);
      DigitSpanAll(x.value.digits);
    }
  }

  lemma FractionRead(n: Numeral)
    requires Formed(n)
    ensures FractionOf(ShowTail(n)) == (n.fraction, ShowExponent(n.exponent))
  {
    var x, tail := ShowExponent(n.exponent), ShowTail(n);
    if n.point {
      assert tail[1..] == n.fraction + x;
      DigitSpanStops(n.fraction, x);
    } else {
      assert tail == x;
    }
  }

  lemma TailOpens(n: Numeral)
    requires Formed(n)
    ensures var u, tail := n.whole + ShowTail(n), ShowTail(n);
            u != "" && u[0] != '-' && u[0] != '+' && (tail != "" ==> !Decimals.IsDigit(tail[0]))
  {
  }

  /** A text that falls apart in this way has the value of its parts. */
  lemma PartsRead(s: string, u: string, minus: bool, whole: string, fraction: string, rest: string, e: int)
    requires Unsigned(s) == (u, minus) && DigitSpan(u) == |whole| && u == whole + u[|whole|..]
    requires FractionOf(u[|whole|..]) == (fraction, rest) && ExponentOf(rest) == Some(e)
    requires AllDigits(whole) && AllDigits(fraction) && (whole != "" || fraction != "")
    ensures DecimalOf(s) == Some(if minus then -Scaled(whole, fraction, e) else Scaled(whole, fraction, e))
  {
    assert u[..|whole|] == whole;
    hide Unsigned, DigitSpan, FractionOf, ExponentOf, Scaled;
  }

  /** Every numeral is read as its meaning. */
  lemma NumeralIsRead(n: Numeral)
    requires Formed(n)
    ensures DecimalOf(Show(n)) == Some(Meaning(n))
  {
    hide DigitSpan, Unsigned, FractionOf, ExponentOf, PowerOfTen, Decimals.Value, ExponentValue, ShowExponent, ShowTail, Scaled,
      Product, DecimalOf, AllDigits;
    var u := n.whole + ShowTail(n);
    TailOpens(n);
    UnsignedOfSigned(n.sign, u);
    DigitSpanStops(n.whole, ShowTail(n));
    FractionRead(n);
    ExponentRead(n.exponent);
    PartsRead(Show(n), u, n.sign == "-", n.whole, n.fraction, ShowExponent(n.exponent), ExponentValue(n.exponent));
    ScaledIs(n.whole, n.fraction, ExponentValue(n.exponent));
  }

  // ----- nothing else is read -----

  function SignOf(s: string): string {
    if s != "" && s[0] == '-' then "-" else if s != "" && s[0] == '+' then "+" else ""
  }

  lemma SignSplits(s: string)
    ensures IsSign(SignOf(s)) && s == SignOf(s) + Unsigned(s).0 && (Unsigned(s).1 <==> SignOf(s) == "-")
  {
  }

  lemma ExponentParts(s: string) returns (x: Option<Exponent>)
    requires ExponentOf(s).Some?
    ensures (x.Some? ==> ExponentFormed(x.value)) && ShowExponent(x) == s
  {
    if s == "" {
      x := None;
    } else {
      var sign, digits := SignOf(s[1..]), Unsigned(s[1..]).0;
      SignSplits(s[1..]);
      assert AllDigits(digits) && digits != "";
      hide Unsigned, SignOf, ExponentOf, AllDigits, DigitSpan;
      x := Some(Exponent(s[0], sign, digits));
      assert s == [s[0]] + s[1..];
      assert [s[0]] + (sign + digits) == [s[0]] + sign + digits;
    }
  }

  lemma FractionParts(v: string)
    ensures var (f, rest) := FractionOf(v);
            v == (if v != "" && v[0] == '.' then "." + f else "") + rest && (f != "" ==> v != "" && v[0] == '.')
  {
    if v != "" && v[0] == '.' {
      assert v[1..] == FractionOf(v).0 + FractionOf(v).1;
    }
  }

  lemma Assembled(s: string, u: string, v: string, n: Numeral)
    requires s == n.sign + u && u == n.whole + v && v == (if n.point then "." + n.fraction else "") + ShowExponent(n.exponent)
    requires IsSign(n.sign) && AllDigits(n.whole) && AllDigits(n.fraction) && (|n.whole| != 0 || n.fraction != "")
    requires (n.fraction != "" ==> n.point) && (n.exponent.Some? ==> ExponentFormed(n.exponent.value))
    ensures Formed(n) && Show(n) == s
  {
    hide ShowExponent, ExponentFormed, AllDigits;
  }

  lemma ReadFallsApart(s: string)
    requires DecimalOf(s).Some?
    ensures var u := Unsigned(s).0;
            var i := DigitSpan(u);
            var (f, rest) := FractionOf(u[i..]);
            AllDigits(u[..i]) && AllDigits(f) && (i != 0 || f != "") && ExponentOf(rest).Some?
  {
    hide Unsigned, ExponentOf, Scaled;
  }

  lemma Parts(s: string) returns (n: Numeral)
    requires DecimalOf(s).Some?
    ensures Formed(n) && Show(n) == s
  {
    hide Scaled, ExponentOf, Unsigned, SignOf, FractionOf, DigitSpan, DecimalOf, AllDigits, ExponentFormed, ShowExponent;
    hide IsSign, Formed, Show, ShowTail;
    ReadFallsApart(s);
    SignSplits(s);
    var u := Unsigned(s).0;
    var whole, v := u[..DigitSpan(u)], u[DigitSpan(u)..];
    FractionParts(v);
    var x := ExponentParts(FractionOf(v).1);
    assert u == whole + v;
    n := Numeral(SignOf(s), whole, v != "" && v[0] == '.', FractionOf(v).0, x);
    Assembled(s, u, v, n);
  }

  /** A text has a value exactly when it is a numeral, and then it is the numeral's meaning. */
  lemma ReadExactlyNumerals(s: string)
    ensures DecimalOf(s).Some? <==> exists n :: Formed(n) && Show(n) == s
    ensures forall n :: Formed(n) && Show(n) == s ==> DecimalOf(s) == Some(Meaning(n))
  {
    hide DecimalOf, Formed, Show, Meaning;
    if DecimalOf(s).Some? {
      var n := Parts(s);
    }
    forall n | Formed(n) && Show(n) == s ensures DecimalOf(s) == Some(Meaning(n)) {
      NumeralIsRead(n);
    }
  }

  lemma NumeralChars(n: Numeral)
    requires Formed(n)
    ensures forall i :: 0 <= i < |Show(n)| ==> NumberChar(Show(n)[i])
  {
    assert forall i :: 0 <= i < |ShowTail(n)| ==> NumberChar(ShowTail(n)[i]);
  }

  /** In a JSON text a numeral that opens with a digit or a minus is read as the double nearest to its
      meaning, up to the first character that no number can have. */
  lemma NumeralInText(fl: Floating, n: Numeral, rest: string)
    requires Formed(n) && Stops(rest) && (Show(n)[0] == '-' || Decimals.IsDigit(Show(n)[0]))
    ensures ParseValue(fl, Show(n) + rest) == Some(Parsed(Num(fl.round(Meaning(n))), rest))
  {
    var t := Show(n);
    NumeralChars(n);
    NumeralIsRead(n);
    hide Show, Meaning, DecimalOf, NumberChar, Formed, Stops;
    SpanOfText(t, rest);
    NumberIsParsed(fl, t + rest);
    assert (t + rest)[..|t|] == t && (t + rest)[|t|..] == rest;
    hide ParseValue;
  }

  // ----- a format that keeps the promises -----

  function Hundredths(r: real): int {
    (100.0 * r).Floor
  }

  /** Whole hundredths with two digits after the point. */
  function ShowHundredths(n: int): Numeral {
    var m: nat := if n < 0 then -n else n;
    Numeral(if n < 0 then "-" else "", Decimals.Print(m / 100), true, [Decimals.Digit(m / 10 % 10), Decimals.Digit(m % 10)], None)
  }

  /** A format whose doubles are the whole hundredths. */
  function HundredthsFormat(): Floating {
    Floating((r: real) => Whole(100.0 * r),
             (r: real) => Show(ShowHundredths(Hundredths(r))),
             (r: real) => Finite(Hundredths(r) as real / 100.0))
  }

  lemma TwoDigits(s: string, a: char, b: char)
    requires AllDigits(s) && Decimals.IsDigit(a) && Decimals.IsDigit(b)
    ensures Decimals.Value(s + [a, b]) == (Decimals.Value(s) * 10 + Decimals.DigitValue(a)) * 10 + Decimals.DigitValue(b)
  {
    assert (s + [a, b])[..|s| + 1] == s + [a];
    assert (s + [a])[..|s|] == s;
  }

  lemma DigitsBack(m: nat)
    ensures (m / 100 * 10 + m / 10 % 10) * 10 + m % 10 == m
  {
  }

  lemma HundredthsValue(n: int)
    ensures var m: nat := if n < 0 then -n else n;
            var x := ShowHundredths(n);
            Formed(x) && Decimals.Value(x.whole + x.fraction) == m
  {
    var m: nat := if n < 0 then -n else n;
    var x := ShowHundredths(n);
    TwoDigits(x.whole, x.fraction[0], x.fraction[1]);
    Decimals.ValueOfPrint(m / 100);
    hide Decimals.Value, Decimals.Print;
    DigitsBack(m);
  }

  lemma OneHundredth()
    ensures PowerOfTen(-2) == 0.01
  {
    assert PowerOfTen(-1) == 0.1;
  }

  lemma HundredthsMeaning(n: int)
    ensures Formed(ShowHundredths(n)) && Meaning(ShowHundredths(n)) == n as real / 100.0
  {
    HundredthsValue(n);
    OneHundredth();
    hide PowerOfTen, Decimals.Value, Decimals.Print, Formed;
  }

  lemma HundredthsChars(n: int)
    ensures var t := Show(ShowHundredths(n));
            && t != "" && (t[0] == '-' || Decimals.IsDigit(t[0]))
            && forall i :: 0 <= i < |t| ==> NumberChar(t[i])
  {
    hide Decimals.Print;
  }

  lemma HundredthsPrint(r: real)
    requires Whole(100.0 * r)
    ensures PrintsWell(HundredthsFormat(), r)
  {
    var n := Hundredths(r);
    var t := Show(ShowHundredths(n));
    HundredthsChars(n);
    HundredthsMeaning(n);
    NumeralIsRead(ShowHundredths(n));
    hide DecimalOf, Meaning, Show, ShowHundredths, NumberChar;
    assert t + "" == t;
    SpanOfText(t, "");
    HundredthsBack(n);
  }

  lemma HundredthsBack(n: int)
    ensures Hundredths(n as real / 100.0) == n
  {
  }

  predicate FractionalDouble(fl: Floating, r: real) {
    fl.isDouble(r) && !Whole(r)
  }

  /** The promises asked of the language can be kept, with doubles that are not integers. */
  lemma LawsCanBeKept()
    ensures exists fl, r :: Lawful(fl) && FractionalDouble(fl, r)
  {
    var fl := HundredthsFormat();
    hide PrintsWell, Show, ShowHundredths;
    forall n: int | -EXACT <= n <= EXACT ensures IntegerIsDouble(fl, n) {
      assert (100.0 * n as real).Floor == 100 * n;
    }
    forall x: real ensures fl.round(x).Finite? ==> fl.isDouble(fl.round(x).r) {
      assert 100.0 * (Hundredths(x) as real / 100.0) == Hundredths(x) as real;
    }
    forall r: real | fl.isDouble(r) ensures fl.round(r) == Finite(r) && PrintsWell(fl, r) {
      HundredthsPrint(r);
    }
    assert Lawful(fl);
    assert FractionalDouble(fl, 1.05);
  }
}
