/** Double-precision values as drift checks see them: exact reals, infinities and NaN.
    Rounding is not modelled. */
module Floats {

  datatype F64 = Finite(r: real) | Infinite(negative: bool) | NaN

  function PowerOfTwo(e: int): (p: real)
    ensures p > 0.0
    decreases if e < 0 then -e else e
  {
    if e == 0 then 1.0 else if e > 0 then 2.0 * PowerOfTwo(e - 1) else PowerOfTwo(e + 1) / 2.0
  }

  /** An IEEE 754 bit pattern with the given exponent and fraction widths. */
  function OfFields(negative: bool, exponent: nat, fraction: nat, exponentBits: nat, fractionBits: nat): F64 {
    var bias := PowerOfTwo(exponentBits - 1).Floor - 1;
    var top := PowerOfTwo(exponentBits).Floor - 1;
    var m := fraction as real / PowerOfTwo(fractionBits);
    if exponent == top then (if fraction == 0 then Infinite(negative) else NaN) else
    var r := if exponent == 0 then m * PowerOfTwo(1 - bias) else (1.0 + m) * PowerOfTwo(exponent - bias);
    Finite(if negative then -r else r)
  }

  function OfBits64(n: nat): F64 {
    OfFields(n / 0x8000_0000_0000_0000 % 2 == 1, n / 0x10_0000_0000_0000 % 0x800, n % 0x10_0000_0000_0000, 11, 52)
  }

  function OfBits32(n: nat): F64 {
    OfFields(n / 0x8000_0000 % 2 == 1, n / 0x80_0000 % 0x100, n % 0x80_0000, 8, 23)
  }

  function Neg(x: F64): F64 {
    match x
    case Finite(r) => Finite(-r)
    case Infinite(n) => Infinite(!n)
    case NaN => NaN
  }

  function Add(x: F64, y: F64): F64 {
    match (x, y)
    case (Finite(a), Finite(b)) => Finite(a + b)
    case (Infinite(a), Infinite(b)) => if a == b then x else NaN
    case (Infinite(_), Finite(_)) => x
    case (Finite(_), Infinite(_)) => y
    case _ => NaN
  }

  function Negative(x: F64): bool {
    match x
    case Finite(r) => r < 0.0
    case Infinite(n) => n
    case NaN => false
  }

  function Mul(x: F64, y: F64): F64 {
    match (x, y)
    case (Finite(a), Finite(b)) => Finite(a * b)
    case (NaN, _) => NaN
    case (_, NaN) => NaN
    case _ => if x == Finite(0.0) || y == Finite(0.0) then NaN else Infinite(Negative(x) != Negative(y))
  }

  function Abs(x: F64): F64 {
    if Negative(x) then Neg(x) else x
  }

  /** `<=`, false when either side is NaN. */
  predicate Le(x: F64, y: F64) {
    match (x, y)
    case (Finite(a), Finite(b)) => a <= b
    case (NaN, _) => false
    case (_, NaN) => false
    case (Infinite(a), _) => a || y == Infinite(false)
    case (_, Infinite(b)) => !b
  }

  /** `>`, false when either side is NaN. */
  predicate Gt(x: F64, y: F64) {
    !x.NaN? && !y.NaN? && !Le(x, y)
  }

  // ----- some bit patterns -----

  lemma Powers()
    ensures PowerOfTwo(0) == 1.0 && PowerOfTwo(3) == 8.0 && PowerOfTwo(7) == 128.0 && PowerOfTwo(8) == 256.0
    ensures PowerOfTwo(10) == 1024.0 && PowerOfTwo(11) == 2048.0 && PowerOfTwo(-1) == 0.5
    ensures PowerOfTwo(23) == 8388608.0 && PowerOfTwo(52) == 4503599627370496.0
  {
    assert PowerOfTwo(4) == 16.0;
    assert PowerOfTwo(16) == 65536.0 by {
      assert PowerOfTwo(12) == 4096.0;
    }
    assert PowerOfTwo(20) == 1048576.0;
    assert PowerOfTwo(28) == 268435456.0 by {
      assert PowerOfTwo(24) == 16777216.0;
    }
    assert PowerOfTwo(36) == 68719476736.0 by {
      assert PowerOfTwo(32) == 4294967296.0;
    }
    assert PowerOfTwo(44) == 17592186044416.0 by {
      assert PowerOfTwo(40) == 1099511627776.0;
    }
    assert PowerOfTwo(48) == 281474976710656.0;
  }

  /** Ten, minus three quarters, an infinity and a NaN, as IEEE 754 has them in both widths. */
  lemma BitPatterns()
    ensures OfBits64(0x4024_0000_0000_0000) == Finite(10.0) && OfBits32(0x4120_0000) == Finite(10.0)
    ensures OfBits64(0xBFE8_0000_0000_0000) == Finite(-0.75) && OfBits32(0xBF40_0000) == Finite(-0.75)
    ensures OfBits64(0x7FF0_0000_0000_0000) == Infinite(false) && OfBits32(0xFF80_0000) == Infinite(true)
    ensures OfBits64(0x7FF8_0000_0000_0000) == NaN && OfBits32(0x7FC0_0000) == NaN
  {
    Powers();
    hide PowerOfTwo;
    assert OfFields(false, 0x402, 0x4_0000_0000_0000, 11, 52) == Finite(10.0);
    assert OfFields(false, 0x82, 0x20_0000, 8, 23) == Finite(10.0);
    assert OfFields(true, 0x3FE, 0x8_0000_0000_0000, 11, 52) == Finite(-0.75);
    assert OfFields(true, 0x7E, 0x40_0000, 8, 23) == Finite(-0.75);
    assert OfFields(false, 0x7FF, 0, 11, 52) == Infinite(false) && OfFields(true, 0xFF, 0, 8, 23) == Infinite(true);
    assert OfFields(false, 0x7FF, 0x8_0000_0000_0000, 11, 52) == NaN && OfFields(false, 0xFF, 0x40_0000, 8, 23) == NaN;
    hide OfFields;
  }
}
