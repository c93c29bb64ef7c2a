/** CRC-32 of recipe bodies, bit by bit, and the burst errors it cannot miss. */
module Crc32 {

  type octets = seq<bv8>

  const POLYNOMIAL: bv32 := 0xEDB8_8320

  function Xor(x: bv32, y: bv32): bv32 {
    x ^ y
  }

  function Half(c: bv32): bv32 {
    c >> 1
  }

  /** The polynomial when the low bit is about to fall out, otherwise nothing. */
  function Feedback(c: bv32): bv32 {
    POLYNOMIAL & (0 - (c & 1))
  }

  function BitStep(c: bv32): bv32 {
    Half(c) ^ Feedback(c)
  }

  function BitSteps(c: bv32, n: nat): bv32
    decreases n
  {
    if n == 0 then c else BitSteps(BitStep(c), n - 1)
  }

  /** A byte placed in the low end of a word. */
  function Low(b: bv8): bv32 {
    b as bv32
  }

  function ByteStep(c: bv32, b: bv8): bv32 {
    BitSteps(Xor(c, Low(b)), 8)
  }

  function Register(c: bv32, data: octets): bv32
    decreases data
  {
    if data == [] then c else Register(ByteStep(c, data[0]), data[1..])
  }

  function Complement(x: bv32): bv32 {
    !x
  }

  const START: bv32 := 0xFFFF_FFFF

  function Crc(data: octets): bv32 {
    Complement(Register(START, data))
  }

  /** `crc32`. */
  method Compute(data: octets) returns (r: bv32)
    ensures r == Crc(data)
  {
    var crc := START;
    for i := 0 to |data|
      invariant Register(crc, data[i..]) == Register(START, data)
    {
      assert data[i..][1..] == data[i + 1..];
      crc := FeedByte(crc, data[i]);
    }
    return !crc;
  }

  /** The inner loop: one byte, eight shifts. */
  method FeedByte(before: bv32, b: bv8) returns (crc: bv32)
    ensures crc == ByteStep(before, b)
  {
    crc := before ^ (b as bv32);
    for j := 0 to 8
      invariant BitSteps(crc, 8 - j) == ByteStep(before, b)
    {
      crc := ShiftOut(crc);
    }
  }

  method ShiftOut(crc: bv32) returns (r: bv32)
    ensures r == BitStep(crc)
  {
    var mask := 0 - (crc & 1);
    r := (crc >> 1) ^ (0xEDB8_8320 & mask);
  }

  // ----- words -----

  lemma XorCancels(c: bv32, x: bv32, y: bv32)
    ensures Xor(x, y) == 0 <==> x == y
    ensures Xor(Xor(x, c), Xor(y, c)) == Xor(x, y)
    ensures Xor(Xor(c, x), Xor(c, y)) == Xor(x, y)
  {
  }

  lemma Regroup(a: bv32, b: bv32, c: bv32, d: bv32)
    ensures (a ^ b) ^ (c ^ d) == (a ^ c) ^ (b ^ d)
  {
  }

  lemma Associate(a: bv32, b: bv32, c: bv32)
    ensures Xor(Xor(a, b), c) == Xor(a, Xor(b, c))
  {
  }

  lemma ComplementTwice(x: bv32)
    ensures Complement(Complement(x)) == x
  {
  }

  // ----- a bit step is a linear bijection -----

  lemma HalfLinear(x: bv32, y: bv32)
    ensures Half(x ^ y) == Half(x) ^ Half(y)
  {
  }

  lemma FeedbackCases(x: bv32)
    ensures x & 1 == 0 || x & 1 == 1
    ensures Feedback(x) == if x & 1 == 0 then 0 else POLYNOMIAL
  {
  }

  lemma LowBitLinear(x: bv32, y: bv32)
    ensures (x ^ y) & 1 == (x & 1) ^ (y & 1)
  {
  }

  lemma FeedbackLinear(x: bv32, y: bv32)
    ensures Feedback(x ^ y) == Feedback(x) ^ Feedback(y)
  {
    FeedbackCases(x);
    FeedbackCases(y);
    FeedbackCases(x ^ y);
    LowBitLinear(x, y);
  }

  lemma BitStepLinear(x: bv32, y: bv32)
    ensures BitStep(x ^ y) == BitStep(x) ^ BitStep(y)
  {
    hide Half, Feedback;
    HalfLinear(x, y);
    FeedbackLinear(x, y);
    Regroup(Half(x), Half(y), Feedback(x), Feedback(y));
  }

  lemma {:induction false} BitStepsLinear(x: bv32, y: bv32, n: nat)
    ensures BitSteps(Xor(x, y), n) == Xor(BitSteps(x, n), BitSteps(y, n))
    decreases n
  {
    hide BitStep;
    if n > 0 {
      BitStepLinear(x, y);
      BitStepsLinear(BitStep(x), BitStep(y), n - 1);
    }
  }

  lemma BitStepKernel(x: bv32)
    ensures BitStep(x) == 0 <==> x == 0
  {
    FeedbackCases(x);
  }

  lemma {:induction false} BitStepsKernel(x: bv32, n: nat)
    ensures BitSteps(x, n) == 0 <==> x == 0
    decreases n
  {
    hide BitStep;
    if n > 0 {
      BitStepKernel(x);
      BitStepsKernel(BitStep(x), n - 1);
    }
  }

  /** Running the register on is injective. */
  lemma BitStepsInjective(x: bv32, y: bv32, n: nat)
    ensures BitSteps(x, n) == BitSteps(y, n) <==> x == y
  {
    hide Xor, BitStep;
    BitStepsLinear(x, y, n);
    BitStepsKernel(Xor(x, y), n);
    XorCancels(0, x, y);
    XorCancels(0, BitSteps(x, n), BitSteps(y, n));
  }

  lemma {:induction false} BitStepsAdd(x: bv32, m: nat, n: nat)
    ensures BitSteps(BitSteps(x, m), n) == BitSteps(x, m + n)
    decreases m
  {
    hide BitStep;
    if m > 0 {
      BitStepsAdd(BitStep(x), m - 1, n);
    }
  }

  // ----- high bytes shift down without feedback -----

  lemma EvenStep(x: bv32)
    requires x & 1 == 0
    ensures BitStep(x) == Half(x)
  {
    FeedbackCases(x);
  }

  function DropNibble(x: bv32): bv32 {
    x >> 4
  }

  lemma NibbleBits(x: bv32)
    requires x & 0x0F == 0
    ensures x & 1 == 0 && Half(x) & 1 == 0 && Half(Half(x)) & 1 == 0 && Half(Half(Half(x))) & 1 == 0
    ensures Half(Half(Half(Half(x)))) == DropNibble(x)
  {
  }

  lemma NibbleClear(x: bv32)
    requires x & 0x0F == 0
    ensures BitSteps(x, 4) == DropNibble(x)
  {
    NibbleBits(x);
    hide BitStep, Half;
    var x1 := Half(x);
    var x2 := Half(x1);
    var x3 := Half(x2);
    EvenStep(x);
    EvenStep(x1);
    EvenStep(x2);
    EvenStep(x3);
    assert BitSteps(x, 4) == BitSteps(x1, 3) == BitSteps(x2, 2) == BitSteps(x3, 1) == BitSteps(Half(x3), 0);
  }

  /** A byte placed in the high bytes of a word. */
  function High(b: bv8, byte: nat): bv32
    requires byte < 4
  {
    match byte
    case 0 => b as bv32
    case 1 => (b as bv32) << 8
    case 2 => (b as bv32) << 16
    case 3 => (b as bv32) << 24
  }

  lemma HighBits(b: bv8, byte: nat)
    requires 0 < byte < 4
    ensures High(b, byte) & 0x0F == 0 && DropNibble(High(b, byte)) & 0x0F == 0
    ensures DropNibble(DropNibble(High(b, byte))) == High(b, byte - 1)
  {
  }

  lemma DropByte(b: bv8, byte: nat)
    requires 0 < byte < 4
    ensures BitSteps(High(b, byte), 8) == High(b, byte - 1)
  {
    HighBits(b, byte);
    hide BitStep, High, DropNibble;
    NibbleClear(High(b, byte));
    NibbleClear(DropNibble(High(b, byte)));
    BitStepsAdd(High(b, byte), 4, 4);
  }

  /** A byte placed high enough reaches the register's low end untouched. */
  lemma {:induction false} Descend(b: bv8, byte: nat)
    requires byte < 4
    ensures BitSteps(High(b, byte), 8 * byte) == Low(b)
    decreases byte
  {
    if byte > 0 {
      hide BitStep, High, Low;
      DropByte(b, byte);
      Descend(b, byte - 1);
      BitStepsAdd(High(b, byte), 8, 8 * (byte - 1));
    }
  }

  // ----- four bytes enter the register as one word -----

  function Word(w: octets): bv32
    requires |w| == 4
  {
    Xor(Xor(Xor(High(w[0], 0), High(w[1], 1)), High(w[2], 2)), High(w[3], 3))
  }

  lemma WordBits(v0: bv8, v1: bv8, v2: bv8, v3: bv8, w0: bv8, w1: bv8, w2: bv8, w3: bv8)
    requires Xor(Xor(Xor(High(v0, 0), High(v1, 1)), High(v2, 2)), High(v3, 3))
          == Xor(Xor(Xor(High(w0, 0), High(w1, 1)), High(w2, 2)), High(w3, 3))
    ensures v0 == w0 && v1 == w1 && v2 == w2 && v3 == w3
  {
  }

  lemma WordInjective(v: octets, w: octets)
    requires |v| == |w| == 4 && Word(v) == Word(w)
    ensures v == w
  {
    hide Xor, High;
    WordBits(v[0], v[1], v[2], v[3], w[0], w[1], w[2], w[3]);
  }

  /** Shifting a later byte in is the same as having had it higher up from the start. */
  lemma Absorb(x: bv32, b: bv8, byte: nat)
    requires byte < 4
    ensures ByteStep(BitSteps(x, 8 * byte), b) == BitSteps(Xor(x, High(b, byte)), 8 * (byte + 1))
  {
    hide Xor, BitStep, High, Low;
    Descend(b, byte);
    BitStepsLinear(x, High(b, byte), 8 * byte);
    BitStepsAdd(Xor(x, High(b, byte)), 8 * byte, 8);
  }

  lemma RegisterOne(c: bv32, data: octets)
    requires data != []
    ensures Register(c, data) == Register(ByteStep(c, data[0]), data[1..])
  {
  }

  /** Feeding four bytes is one xor and 32 bit steps. */
  lemma FourBytes(c: bv32, w: octets)
    requires |w| == 4
    ensures Register(c, w) == BitSteps(Xor(c, Word(w)), 32)
  {
    var x0 := Xor(c, High(w[0], 0));
    var x1 := Xor(x0, High(w[1], 1));
    var x2 := Xor(x1, High(w[2], 2));
    var x3 := Xor(x2, High(w[3], 3));
    hide Xor, High, ByteStep, BitStep;
    Absorb(c, w[0], 0);
    Absorb(x0, w[1], 1);
    Absorb(x1, w[2], 2);
    Absorb(x2, w[3], 3);
    assert BitSteps(c, 8 * 0) == c;
    RegisterOne(c, w);
    RegisterOne(BitSteps(x0, 8), w[1..]);
    RegisterOne(BitSteps(x1, 16), w[2..]);
    RegisterOne(BitSteps(x2, 24), w[3..]);
    assert w[1..][1..] == w[2..] && w[2..][1..] == w[3..] && w[3..][1..] == [];
    Associate(c, High(w[0], 0), High(w[1], 1));
    Associate(c, Xor(High(w[0], 0), High(w[1], 1)), High(w[2], 2));
    Associate(c, Xor(Xor(High(w[0], 0), High(w[1], 1)), High(w[2], 2)), High(w[3], 3));
  }

  // ----- burst errors -----

  lemma {:induction false} RegisterSplit(c: bv32, s: octets, t: octets)
    ensures Register(c, s + t) == Register(Register(c, s), t)
    decreases s
  {
    hide ByteStep;
    if s == [] {
      assert s + t == t;
    } else {
      assert (s + t)[1..] == s[1..] + t;
      RegisterSplit(ByteStep(c, s[0]), s[1..], t);
    }
  }

  /** The same bytes never bring two different registers together. */
  lemma {:induction false} RegisterInjective(c: bv32, d: bv32, data: octets)
    ensures Register(c, data) == Register(d, data) <==> c == d
    decreases data
  {
    hide Xor, BitSteps, Low;
    if data != [] {
      var b := Low(data[0]);
      BitStepsInjective(Xor(c, b), Xor(d, b), 8);
      XorCancels(b, c, d);
      XorCancels(0, Xor(c, b), Xor(d, b));
      RegisterInjective(ByteStep(c, data[0]), ByteStep(d, data[0]), data[1..]);
    }
  }

  /** From one register, distinct windows of four bytes lead to distinct registers. */
  lemma WindowsSeparate(c: bv32, v: octets, w: octets)
    requires |v| == |w| == 4
    ensures Register(c, v) == Register(c, w) <==> v == w
  {
    if Register(c, v) == Register(c, w) {
      hide Xor, BitSteps, Word, Register;
      FourBytes(c, v);
      FourBytes(c, w);
      BitStepsInjective(Xor(c, Word(v)), Xor(c, Word(w)), 32);
      XorCancels(c, Word(v), Word(w));
      XorCancels(0, Xor(c, Word(v)), Xor(c, Word(w)));
      WordInjective(v, w);
    }
  }

  /** Two bodies of one length that differ only inside four consecutive bytes have different
      checksums. */
  lemma BurstDetected(before: octets, v: octets, w: octets, after: octets)
    requires |v| == |w| <= 4
    ensures Crc(before + v + after) == Crc(before + w + after) <==> v == w
  {
    if Crc(before + v + after) == Crc(before + w + after) {
      hide Register, Complement;
      var c := Register(START, before);
      ComplementTwice(Register(START, before + v + after));
      ComplementTwice(Register(START, before + w + after));
      RegisterSplit(START, before + v, after);
      RegisterSplit(START, before + w, after);
      RegisterSplit(START, before, v);
      RegisterSplit(START, before, w);
      RegisterInjective(Register(c, v), Register(c, w), after);
      var pad := seq(4 - |v|, _ => 0 as bv8);
      RegisterSplit(c, v, pad);
      RegisterSplit(c, w, pad);
      WindowsSeparate(c, v + pad, w + pad);
      assert v == (v + pad)[..|v|] && w == (w + pad)[..|w|];
    }
  }

  // ----- the check value -----

  lemma CheckSteps()
    ensures ByteStep(0xFFFFFFFF, 0x31) == 0x7C231048
    ensures ByteStep(0x7C231048, 0x32) == 0xB0ACBB32
    ensures ByteStep(0xB0ACBB32, 0x33) == 0x77B79C2D
    ensures ByteStep(0x77B79C2D, 0x34) == 0x641C1F5C
    ensures ByteStep(0x641C1F5C, 0x35) == 0x340AC5E3
    ensures ByteStep(0x340AC5E3, 0x36) == 0xF68D2C9E
    ensures ByteStep(0xF68D2C9E, 0x37) == 0xAFFC9660
    ensures ByteStep(0xAFFC9660, 0x38) == 0x651F2550
    ensures ByteStep(0x651F2550, 0x39) == 0x340BC6D9
  {
  }

  /** The check value of this CRC: the checksum of the digits "123456789". */
  lemma CheckValue()
    ensures Crc([0x31, 0x32, 0x33, 0x34, 0x35, 0x36, 0x37, 0x38, 0x39]) == 0xCBF4_3926
  {
    CheckSteps();
    hide ByteStep;
    assert [0x39][1..] == [];
    assert Register(0x651F2550, [0x39]) == 0x340BC6D9;
    assert [0x38, 0x39][1..] == [0x39];
    assert Register(0xAFFC9660, [0x38, 0x39]) == 0x340BC6D9;
    assert [0x37, 0x38, 0x39][1..] == [0x38, 0x39];
    assert Register(0xF68D2C9E, [0x37, 0x38, 0x39]) == 0x340BC6D9;
    assert [0x36, 0x37, 0x38, 0x39][1..] == [0x37, 0x38, 0x39];
    assert Register(0x340AC5E3, [0x36, 0x37, 0x38, 0x39]) == 0x340BC6D9;
    assert [0x35, 0x36, 0x37, 0x38, 0x39][1..] == [0x36, 0x37, 0x38, 0x39];
    assert Register(0x641C1F5C, [0x35, 0x36, 0x37, 0x38, 0x39]) == 0x340BC6D9;
    assert [0x34, 0x35, 0x36, 0x37, 0x38, 0x39][1..] == [0x35, 0x36, 0x37, 0x38, 0x39];
    assert Register(0x77B79C2D, [0x34, 0x35, 0x36, 0x37, 0x38, 0x39]) == 0x340BC6D9;
    assert [0x33, 0x34, 0x35, 0x36, 0x37, 0x38, 0x39][1..] == [0x34, 0x35, 0x36, 0x37, 0x38, 0x39];
    assert Register(0xB0ACBB32, [0x33, 0x34, 0x35, 0x36, 0x37, 0x38, 0x39]) == 0x340BC6D9;
    assert [0x32, 0x33, 0x34, 0x35, 0x36, 0x37, 0x38, 0x39][1..] == [0x33, 0x34, 0x35, 0x36, 0x37, 0x38, 0x39];
    assert Register(0x7C231048, [0x32, 0x33, 0x34, 0x35, 0x36, 0x37, 0x38, 0x39]) == 0x340BC6D9;
    assert [0x31, 0x32, 0x33, 0x34, 0x35, 0x36, 0x37, 0x38, 0x39][1..] == [0x32, 0x33, 0x34, 0x35, 0x36, 0x37, 0x38, 0x39];
    assert Register(0xFFFFFFFF, [0x31, 0x32, 0x33, 0x34, 0x35, 0x36, 0x37, 0x38, 0x39]) == 0x340BC6D9;
  }
}
