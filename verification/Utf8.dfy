/** UTF-8 text as Rust's `String` holds it, and `String::from_utf8_lossy`. */
module Utf8 {
  import opened Basics

  const REPLACEMENT: char := '\U{FFFD}'

  /** The six low bits of `v` above the continuation mark. */
  function Continuation(v: nat): byte {
    0x80 + v % 64
  }

  function EncodeChar(c: char): (bs: bytes)
    ensures 1 <= |bs| <= 4
  {
    var v := c as int;
    if v < 0x80 then [v]
    else if v < 0x800 then [0xC0 + v / 64, Continuation(v)]
    else if v < 0x1_0000 then [0xE0 + v / 64 / 64, Continuation(v / 64), Continuation(v)]
    else [0xF0 + v / 64 / 64 / 64, Continuation(v / 64 / 64), Continuation(v / 64), Continuation(v)]
  }

  /** `str::as_bytes`. */
  function Encode(s: string): bytes {
    if s == [] then [] else EncodeChar(s[0]) + Encode(s[1..])
  }

  /** What stands at the head of a byte string: a character of `n` bytes, or a maximal
      ill-formed part of `n` bytes. */
  datatype Head = Good(c: char, n: nat) | Bad(n: nat)

  predicate Tail(bs: bytes, i: nat, lo: int, hi: int) {
    i < |bs| && lo <= bs[i] <= hi
  }

  /** Leading bits extended by one continuation byte. */
  function Extend(lead: int, tail: byte): int {
    lead * 64 + (tail as int - 0x80)
  }

  function DecodeHead(bs: bytes): (h: Head)
    requires bs != []
    ensures 1 <= h.n <= |bs|
  {
    var b := bs[0] as int;
    if b < 0x80 then
      Good(b as char, 1)
    else if 0xC2 <= b <= 0xDF then
      if !Tail(bs, 1, 0x80, 0xBF) then Bad(1)
      else Good(Extend(b - 0xC0, bs[1]) as char, 2)
    else if 0xE0 <= b <= 0xEF then
      if !Tail(bs, 1, if b == 0xE0 then 0xA0 else 0x80, if b == 0xED then 0x9F else 0xBF) then Bad(1)
      else if !Tail(bs, 2, 0x80, 0xBF) then Bad(2)
      else Good(Extend(Extend(b - 0xE0, bs[1]), bs[2]) as char, 3)
    else if 0xF0 <= b <= 0xF4 then
      if !Tail(bs, 1, if b == 0xF0 then 0x90 else 0x80, if b == 0xF4 then 0x8F else 0xBF) then Bad(1)
      else if !Tail(bs, 2, 0x80, 0xBF) then Bad(2)
      else if !Tail(bs, 3, 0x80, 0xBF) then Bad(3)
      else Good(Extend(Extend(Extend(b - 0xF0, bs[1]), bs[2]), bs[3]) as char, 4)
    else
      Bad(1)
  }

  /** `String::from_utf8_lossy`: each maximal ill-formed part becomes one U+FFFD. */
  function Lossy(bs: bytes): string {
    if bs == [] then [] else
    match DecodeHead(bs)
    case Good(c, n) => [c] + Lossy(bs[n..])
    case Bad(n) => [REPLACEMENT] + Lossy(bs[n..])
  }

  /** How many maximal ill-formed parts the bytes hold. */
  function IllFormed(bs: bytes): nat {
    if bs == [] then 0 else (if DecodeHead(bs).Bad? then 1 else 0) + IllFormed(bs[DecodeHead(bs).n..])
  }

  lemma JoinOfSplit(v: nat)
    ensures Extend(v / 64, Continuation(v)) == v
    ensures 0x80 <= Continuation(v) <= 0xBF
  {
  }

  lemma SplitOfJoin(lead: nat, tail: byte)
    requires 0x80 <= tail <= 0xBF
    ensures Extend(lead, tail) / 64 == lead && Continuation(Extend(lead, tail)) == tail
  {
  }

  lemma DecodeHeadOfTwo(c: char, bs: bytes)
    requires 0x80 <= c as int < 0x800
    requires |bs| >= 2 && bs[..2] == EncodeChar(c)
    ensures DecodeHead(bs) == Good(c, 2)
  {
    JoinOfSplit(c as int);
    assert bs[0] == bs[..2][0] && bs[1] == bs[..2][1];
  }

  lemma DecodeHeadOfThree(c: char, bs: bytes)
    requires 0x800 <= c as int < 0x1_0000
    requires |bs| >= 3 && bs[..3] == EncodeChar(c)
    ensures DecodeHead(bs) == Good(c, 3)
  {
    var v := c as int;
    JoinOfSplit(v);
    JoinOfSplit(v / 64);
    assert bs[0] == bs[..3][0] && bs[1] == bs[..3][1] && bs[2] == bs[..3][2];
    assert bs[0] == 0xED ==> v / 64 < 0xD800 / 64;
  }

  lemma DecodeHeadOfFour(c: char, bs: bytes)
    requires 0x1_0000 <= c as int
    requires |bs| >= 4 && bs[..4] == EncodeChar(c)
    ensures DecodeHead(bs) == Good(c, 4)
  {
    var v := c as int;
    JoinOfSplit(v);
    JoinOfSplit(v / 64);
    JoinOfSplit(v / 64 / 64);
    assert bs[0] == bs[..4][0] && bs[1] == bs[..4][1] && bs[2] == bs[..4][2] && bs[3] == bs[..4][3];
  }

  lemma DecodeHeadOfChar(c: char, rest: bytes)
    ensures DecodeHead(EncodeChar(c) + rest) == Good(c, |EncodeChar(c)|)
  {
    var v, e := c as int, EncodeChar(c);
    var bs := e + rest;
    assert bs[..|e|] == e;
    if v < 0x80 {
      assert bs[0] == e[0];
    } else if v < 0x800 {
      DecodeHeadOfTwo(c, bs);
    } else if v < 0x1_0000 {
      DecodeHeadOfThree(c, bs);
    } else {
      DecodeHeadOfFour(c, bs);
    }
  }

  lemma EncodeOfTwo(bs: bytes)
    requires bs != [] && DecodeHead(bs).Good? && DecodeHead(bs).n == 2
    ensures EncodeChar(DecodeHead(bs).c) == bs[..2]
  {
    SplitOfJoin(bs[0] as int - 0xC0, bs[1]);
  }

  lemma EncodeOfThree(bs: bytes)
    requires bs != [] && DecodeHead(bs).Good? && DecodeHead(bs).n == 3
    ensures EncodeChar(DecodeHead(bs).c) == bs[..3]
  {
    var v := Extend(bs[0] as int - 0xE0, bs[1]);
    SplitOfJoin(bs[0] as int - 0xE0, bs[1]);
    SplitOfJoin(v, bs[2]);
    assert DecodeHead(bs).c as int == Extend(v, bs[2]);
  }

  lemma EncodeOfFour(bs: bytes)
    requires bs != [] && DecodeHead(bs).Good? && DecodeHead(bs).n == 4
    ensures EncodeChar(DecodeHead(bs).c) == bs[..4]
  {
    var v := Extend(bs[0] as int - 0xF0, bs[1]);
    SplitOfJoin(bs[0] as int - 0xF0, bs[1]);
    SplitOfJoin(v, bs[2]);
    SplitOfJoin(Extend(v, bs[2]), bs[3]);
    assert DecodeHead(bs).c as int == Extend(Extend(v, bs[2]), bs[3]);
  }

  lemma EncodeOfHead(bs: bytes)
    requires bs != [] && DecodeHead(bs).Good?
    ensures EncodeChar(DecodeHead(bs).c) == bs[..DecodeHead(bs).n]
  {
    var n := DecodeHead(bs).n;
    if n == 2 {
      EncodeOfTwo(bs);
    } else if n == 3 {
      EncodeOfThree(bs);
    } else if n == 4 {
      EncodeOfFour(bs);
    } else {
      assert n == 1;
    }
  }

  /** Text survives the trip through its bytes. */
  lemma {:induction false} LossyOfEncode(s: string)
    ensures Lossy(Encode(s)) == s
  {
    if s != [] {
      var e := EncodeChar(s[0]);
      DecodeHeadOfChar(s[0], Encode(s[1..]));
      assert (e + Encode(s[1..]))[|e|..] == Encode(s[1..]);
      LossyOfEncode(s[1..]);
    }
  }

  /** Lossy decoding costs at most two extra bytes per ill-formed part. */
  lemma {:induction false} LossyGrowth(bs: bytes)
    ensures |Encode(Lossy(bs))| <= |bs| + 2 * IllFormed(bs)
    ensures IllFormed(bs) <= |bs|
  {
    hide DecodeHead, EncodeChar;
    if bs != [] {
      var h := DecodeHead(bs);
      LossyGrowth(bs[h.n..]);
      var s := Lossy(bs);
      assert s[1..] == Lossy(bs[h.n..]);
      if h.Good? {
        EncodeOfHead(bs);
      } else {
        ReplacementTakesThree();
      }
    }
  }

  /** Bytes without an ill-formed part come back from their text. */
  lemma {:induction false} EncodeOfLossy(bs: bytes)
    requires IllFormed(bs) == 0
    ensures Encode(Lossy(bs)) == bs
  {
    hide DecodeHead, EncodeChar;
    if bs != [] {
      var h := DecodeHead(bs);
      EncodeOfLossy(bs[h.n..]);
      assert Lossy(bs)[1..] == Lossy(bs[h.n..]);
      EncodeOfHead(bs);
      assert bs == bs[..h.n] + bs[h.n..];
    }
  }

  lemma ReplacementTakesThree()
    ensures |EncodeChar(REPLACEMENT)| == 3
  {
  }

  /** Bytes hold no ill-formed part exactly when they are the bytes of their lossy decoding. */
  lemma WellFormedExactly(bs: bytes)
    ensures IllFormed(bs) == 0 <==> Encode(Lossy(bs)) == bs
  {
    hide IllFormed, Encode, Lossy;
    if IllFormed(bs) == 0 {
      EncodeOfLossy(bs);
    }
    if Encode(Lossy(bs)) == bs {
      EncodedIsWellFormed(Lossy(bs));
    }
  }

  lemma {:induction false} EncodedIsWellFormed(s: string)
    ensures IllFormed(Encode(s)) == 0
  {
    hide DecodeHead, EncodeChar;
    if s != [] {
      var e := EncodeChar(s[0]);
      DecodeHeadOfChar(s[0], Encode(s[1..]));
      assert (e + Encode(s[1..]))[|e|..] == Encode(s[1..]);
      EncodedIsWellFormed(s[1..]);
    }
  }

  // ----- the bytes of a character -----

  /** A character's bytes by the size of its number: one below 0x80, two below 0x800, three below 0x10000 and
      four above; the first byte's mark tells how many, the others are marked as continuing, and together
      they hold the number, high bits first. */
  lemma CharBytes(c: char)
    ensures var bs, v := EncodeChar(c), c as int;
            && |bs| == (if v < 0x80 then 1 else if v < 0x800 then 2 else if v < 0x1_0000 then 3 else 4)
            && (forall i :: 1 <= i < |bs| ==> 0x80 <= bs[i] < 0xC0)
            && (|bs| == 1 ==> bs[0] as int == v)
            && (|bs| == 2 ==> 0xC2 <= bs[0] < 0xE0 && (bs[0] as int - 0xC0) * 64 + (bs[1] as int - 0x80) == v)
            && (|bs| == 3 ==> 0xE0 <= bs[0] < 0xF0
                              && ((bs[0] as int - 0xE0) * 64 + (bs[1] as int - 0x80)) * 64 + (bs[2] as int - 0x80) == v)
            && (|bs| == 4 ==> 0xF0 <= bs[0] < 0xF5
                              && (((bs[0] as int - 0xF0) * 64 + (bs[1] as int - 0x80)) * 64 + (bs[2] as int - 0x80)) * 64
                                 + (bs[3] as int - 0x80) == v)
  {
    var v := c as int;
    JoinOfSplit(v);
    JoinOfSplit(v / 64);
    JoinOfSplit(v / 64 / 64);
  }
}
