/** SHA-256 as FIPS 180-4 defines it, and the in-place computation that equals it. */
module Sha256 {
  import opened Basics

  type word = bv32

  // ----- FIPS 180-4, section 4: functions and constants -----

  function Add(x: word, y: word): word {
    x + y
  }

  function Xor3(x: word, y: word, z: word): word {
    x ^ y ^ z
  }

  function Ch(x: word, y: word, z: word): word {
    (x & y) ^ ((!x) & z)
  }

  function Maj(x: word, y: word, z: word): word {
    (x & y) ^ (x & z) ^ (y & z)
  }

  function BigSigma0(x: word): word {
    Xor3(x.RotateRight(2), x.RotateRight(13), x.RotateRight(22))
  }

  function BigSigma1(x: word): word {
    Xor3(x.RotateRight(6), x.RotateRight(11), x.RotateRight(25))
  }

  function SmallSigma0(x: word): word {
    Xor3(x.RotateRight(7), x.RotateRight(18), x >> 3)
  }

  function SmallSigma1(x: word): word {
    Xor3(x.RotateRight(17), x.RotateRight(19), x >> 10)
  }

  const K: seq<word> :=
    [0x428a2f98, 0x71374491, 0xb5c0fbcf, 0xe9b5dba5, 0x3956c25b, 0x59f111f1, 0x923f82a4, 0xab1c5ed5]
    + [0xd807aa98, 0x12835b01, 0x243185be, 0x550c7dc3, 0x72be5d74, 0x80deb1fe, 0x9bdc06a7, 0xc19bf174]
    + [0xe49b69c1, 0xefbe4786, 0x0fc19dc6, 0x240ca1cc, 0x2de92c6f, 0x4a7484aa, 0x5cb0a9dc, 0x76f988da]
    + [0x983e5152, 0xa831c66d, 0xb00327c8, 0xbf597fc7, 0xc6e00bf3, 0xd5a79147, 0x06ca6351, 0x14292967]
    + [0x27b70a85, 0x2e1b2138, 0x4d2c6dfc, 0x53380d13, 0x650a7354, 0x766a0abb, 0x81c2c92e, 0x92722c85]
    + [0xa2bfe8a1, 0xa81a664b, 0xc24b8b70, 0xc76c51a3, 0xd192e819, 0xd6990624, 0xf40e3585, 0x106aa070]
    + [0x19a4c116, 0x1e376c08, 0x2748774c, 0x34b0bcb5, 0x391c0cb3, 0x4ed8aa4a, 0x5b9cca4f, 0x682e6ff3]
    + [0x748f82ee, 0x78a5636f, 0x84c87814, 0x8cc70208, 0x90befffa, 0xa4506ceb, 0xbef9a3f7, 0xc67178f2]

  /** Section 5.3.3. */
  const INITIAL: seq<word> := [
    0x6a09e667, 0xbb67ae85, 0x3c6ef372, 0xa54ff53a, 0x510e527f, 0x9b05688c, 0x1f83d9ab, 0x5be0cd19]

  // ----- section 5: padding and parsing -----

  /** After the message, the one bit and `zeros` zero bytes, eight bytes of a block are left. */
  predicate LeavesRoomForLength(n: nat, zeros: nat) {
    (n + 1 + zeros) % 64 == 56
  }

  /** How many zero bytes section 5.1.1 asks for after the one bit: the fewest that leave eight bytes
      of the last block for the length. */
  function ZeroBytes(n: nat): (z: nat)
    ensures z < 64 && LeavesRoomForLength(n, z)
    ensures forall y: nat :: LeavesRoomForLength(n, y) ==> z <= y
  {
    (119 - n % 64) % 64
  }

  function Zeros(n: nat): (zs: bytes)
    ensures |zs| == n && forall i :: 0 <= i < n ==> zs[i] == 0
  {
    if n == 0 then [] else Zeros(n - 1) + [0]
  }

  /** The padded message; the bit length is a 64-bit number and wraps. */
  function Pad(data: bytes): (p: bytes)
    ensures |p| % 64 == 0 && |p| >= |data| + 9
  {
    var z := ZeroBytes(|data|);
    assert (|data| + 1 + z + 8) % 64 == 0;
    data + [0x80] + Zeros(z) + BigEndian(8, 8 * |data| % 0x1_0000_0000_0000_0000)
  }

  /** `from_be_bytes` of four bytes. */
  function Word(a: byte, b: byte, c: byte, d: byte): word {
    ((a as bv32) << 24) | ((b as bv32) << 16) | ((c as bv32) << 8) | (d as bv32)
  }

  function BlockWord(block: bytes, i: nat): word
    requires |block| == 64 && i < 16
  {
    Word(block[4 * i], block[4 * i + 1], block[4 * i + 2], block[4 * i + 3])
  }

  // ----- section 6.2.2: computation -----

  /** The message schedule. */
  function Schedule(block: bytes, t: nat): word
    requires |block| == 64
  {
    if t < 16 then BlockWord(block, t)
    else Expand(Schedule(block, t - 16), Schedule(block, t - 15), Schedule(block, t - 7), Schedule(block, t - 2))
  }

  function Expand(w16: word, w15: word, w7: word, w2: word): word {
    Add(Add(Add(w16, SmallSigma0(w15)), w7), SmallSigma1(w2))
  }

  /** The eight working variables. */
  datatype Working = Working(a: word, b: word, c: word, d: word, e: word, f: word, g: word, h: word)

  /** The two temporary words of a round. */
  function Temp1(e: word, f: word, g: word, h: word, k: word, w: word): word {
    Add(Add(Add(Add(h, BigSigma1(e)), Ch(e, f, g)), k), w)
  }

  function Temp2(a: word, b: word, c: word): word {
    Add(BigSigma0(a), Maj(a, b, c))
  }

  function Round(s: Working, k: word, w: word): Working {
    var t1 := Temp1(s.e, s.f, s.g, s.h, k, w);
    var t2 := Temp2(s.a, s.b, s.c);
    Working(Add(t1, t2), s.a, s.b, s.c, Add(s.d, t1), s.e, s.f, s.g)
  }

  function RoundConstant(t: nat): word
    requires t < 64
  {
    K[t]
  }

  function Rounds(s: Working, block: bytes, t: nat): Working
    requires |block| == 64 && t <= 64
  {
    if t == 0 then s else Round(Rounds(s, block, t - 1), RoundConstant(t - 1), Schedule(block, t - 1))
  }

  function Start(h: seq<word>): Working
    requires |h| == 8
  {
    Working(h[0], h[1], h[2], h[3], h[4], h[5], h[6], h[7])
  }

  function AddHash(h: seq<word>, s: Working): (r: seq<word>)
    requires |h| == 8
    ensures |r| == 8
  {
    [Add(h[0], s.a), Add(h[1], s.b), Add(h[2], s.c), Add(h[3], s.d),
     Add(h[4], s.e), Add(h[5], s.f), Add(h[6], s.g), Add(h[7], s.h)]
  }

  function Compress(h: seq<word>, block: bytes): (r: seq<word>)
    requires |h| == 8 && |block| == 64
    ensures |r| == 8
  {
    AddHash(h, Rounds(Start(h), block, 64))
  }

  /** The hash value after the first `n` blocks. */
  function HashBlocks(padded: bytes, n: nat): (r: seq<word>)
    requires 64 * n <= |padded|
    ensures |r| == 8
  {
    if n == 0 then INITIAL else Compress(HashBlocks(padded, n - 1), padded[64 * (n - 1)..64 * n])
  }

  /** `to_be_bytes` of a word. */
  function WordBytes(x: word): (bs: bytes)
    ensures |bs| == 4
  {
    [(x >> 24) as bv8 as int, ((x >> 16) & 0xFF) as bv8 as int, ((x >> 8) & 0xFF) as bv8 as int, (x & 0xFF) as bv8 as int]
  }

  function HashBytes(h: seq<word>): (bs: bytes)
    ensures |bs| == 4 * |h|
  {
    if h == [] then [] else HashBytes(h[..|h| - 1]) + WordBytes(h[|h| - 1])
  }

  /** The SHA-256 of a message. */
  function Digest(data: bytes): (d: bytes)
    ensures |d| == 32
  {
    var padded := Pad(data);
    HashBytes(HashBlocks(padded, |padded| / 64))
  }

  // ----- properties of the padding -----

  lemma PadLayout(data: bytes)
    ensures var p := Pad(data);
            p[..|data|] == data && p[|p| - 8..] == BigEndian(8, 8 * |data| % 0x1_0000_0000_0000_0000)
  {
  }

  /** After the message the one bit, zeros, and in the last eight bytes the bit length, high byte first. */
  lemma PadBytes(data: bytes, i: nat)
    requires |data| <= i < |Pad(data)|
    ensures var p := Pad(data);
            p[i] == if i == |data| then 0x80 else if i < |p| - 8 then 0
                    else 8 * |data| % 0x1_0000_0000_0000_0000 / Pow256(|p| - 1 - i) % 256
  {
    var p, z := Pad(data), ZeroBytes(|data|);
    if i >= |p| - 8 {
      BigEndianAt(8, 8 * |data| % 0x1_0000_0000_0000_0000, i - (|p| - 8));
    }
  }

  lemma Pow256Of8()
    ensures Pow256(8) == 0x1_0000_0000_0000_0000
  {
    assert Pow256(2) == 0x1_0000;
    assert Pow256(4) == 0x1_0000_0000;
    assert Pow256(6) == 0x1_0000_0000_0000;
  }

  /** Below 2^61 bytes, different messages have different padded forms: the length at the end and the
      bytes before it determine the message. */
  lemma PaddingInjective(x: bytes, y: bytes)
    requires |x| < 0x2000_0000_0000_0000 && |y| < 0x2000_0000_0000_0000
    ensures Pad(x) == Pad(y) <==> x == y
  {
    PadLayout(x);
    PadLayout(y);
    Pow256Of8();
    hide Pad, BigEndian, Pow256;
    FromOfBigEndian(8, 8 * |x|);
    FromOfBigEndian(8, 8 * |y|);
  }

  /** From 2^61 bytes on, the length field says less than the length: the loss begins exactly there. */
  lemma LengthWrapsExactly(n: nat)
    ensures 8 * n % 0x1_0000_0000_0000_0000 == 8 * n <==> n < 0x2000_0000_0000_0000
  {
  }

  // ----- the computation in place -----

  /** Counting zeros up from none, the room for the length is reached at the fewest. */
  lemma RoomExactlyAtFewest(n: nat, z: nat)
    requires z <= ZeroBytes(n)
    ensures (n + 1 + z) % 64 == 56 <==> z == ZeroBytes(n)
  {
    assert LeavesRoomForLength(n, z) <==> (n + 1 + z) % 64 == 56;
  }

  /** The padding loop. */
  method PadInto(data: bytes) returns (msg: bytes)
    ensures msg == Pad(data)
  {
    hide BigEndian, ZeroBytes, LeavesRoomForLength;
    var bitLen := 8 * |data| % 0x1_0000_0000_0000_0000;
    msg := data + [0x80];
    ghost var z := 0;
    RoomExactlyAtFewest(|data|, 0);
    while |msg| % 64 != 56
      invariant z <= ZeroBytes(|data|) && msg == data + [0x80] + Zeros(z)
      invariant |msg| % 64 == 56 <==> z == ZeroBytes(|data|)
      decreases ZeroBytes(|data|) - z
    {
      msg := msg + [0];
      z := z + 1;
      assert msg == data + [0x80] + Zeros(z);
      RoomExactlyAtFewest(|data|, z);
    }
    msg := msg + BigEndian(8, bitLen);
  }

  /** The schedule loop: fills the array from the block and then from itself. */
  method FillSchedule(block: bytes, w: array<word>)
    requires |block| == 64 && w.Length == 64
    modifies w
    ensures forall t :: 0 <= t < 64 ==> w[t] == Schedule(block, t)
  {
    hide Word, SmallSigma0, SmallSigma1, Add;
    var i := 0;
    while i < 16
      invariant 0 <= i <= 16
      invariant forall t :: 0 <= t < i ==> w[t] == Schedule(block, t)
    {
      w[i] := Word(block[4 * i], block[4 * i + 1], block[4 * i + 2], block[4 * i + 3]);
      i := i + 1;
    }
    while i < 64
      invariant 16 <= i <= 64
      invariant forall t :: 0 <= t < i ==> w[t] == Schedule(block, t)
    {
      var s0 := SmallSigma0(w[i - 15]);
      var s1 := SmallSigma1(w[i - 2]);
      w[i] := Add(Add(Add(w[i - 16], s0), w[i - 7]), s1);
      assert w[i] == Schedule(block, i);
      i := i + 1;
    }
  }

  /** The working-variable loop over one block, and the addition to the hash value. */
  method CompressInPlace(h: array<word>, block: bytes, w: array<word>)
    requires h.Length == 8 && |block| == 64 && w.Length == 64 && h != w
    requires forall t :: 0 <= t < 64 ==> w[t] == Schedule(block, t)
    modifies h
    ensures h[..] == Compress(old(h[..]), block)
  {
    hide Schedule, Ch, Maj, BigSigma0, BigSigma1, Add, BlockWord, AddHash;
    var a, b, c, d, e, f, g, hh := h[0], h[1], h[2], h[3], h[4], h[5], h[6], h[7];
    ghost var start := Start(h[..]);
    var i := 0;
    while i < 64
      invariant 0 <= i <= 64
      invariant Working(a, b, c, d, e, f, g, hh) == Rounds(start, block, i)
    {
      var s1 := BigSigma1(e);
      var ch := Ch(e, f, g);
      var temp1 := Add(Add(Add(Add(hh, s1), ch), K[i]), w[i]);
      var s0 := BigSigma0(a);
      var maj := Maj(a, b, c);
      var temp2 := Add(s0, maj);
      assert Rounds(start, block, i + 1) == Round(Rounds(start, block, i), RoundConstant(i), Schedule(block, i));
      hh := g;
      g := f;
      f := e;
      e := Add(d, temp1);
      d := c;
      c := b;
      b := a;
      a := Add(temp1, temp2);
      i := i + 1;
    }
    hide Rounds;
    AddInPlace(h, Working(a, b, c, d, e, f, g, hh));
  }

  /** The eight additions that end a block. */
  method AddInPlace(h: array<word>, s: Working)
    requires h.Length == 8
    modifies h
    ensures h[..] == AddHash(old(h[..]), s)
  {
    hide Add;
    h[0], h[1], h[2], h[3] := Add(h[0], s.a), Add(h[1], s.b), Add(h[2], s.c), Add(h[3], s.d);
    h[4], h[5], h[6], h[7] := Add(h[4], s.e), Add(h[5], s.f), Add(h[6], s.g), Add(h[7], s.h);
  }

  /** `sha256`. */
  method Sha256(data: bytes) returns (out: bytes)
    ensures out == Digest(data)
  {
    hide Pad, Compress, WordBytes, Schedule;
    var h := new word[8];
    var i := 0;
    while i < 8
      invariant 0 <= i <= 8
      invariant forall j :: 0 <= j < i ==> h[j] == INITIAL[j]
    {
      h[i] := INITIAL[i];
      i := i + 1;
    }
    var msg := PadInto(data);
    var w := new word[64];
    var n := 0;
    assert h[..] == INITIAL;
    while 64 * n < |msg|
      invariant 64 * n <= |msg| && |msg| % 64 == 0
      invariant h[..] == HashBlocks(msg, n)
      decreases |msg| - 64 * n
    {
      var block := msg[64 * n..64 * (n + 1)];
      FillSchedule(block, w);
      CompressInPlace(h, block, w);
      n := n + 1;
    }
    assert n == |msg| / 64;
    out := [];
    i := 0;
    while i < 8
      invariant 0 <= i <= 8 && h[..] == HashBlocks(msg, n)
      invariant out == HashBytes(h[..i])
    {
      out := out + WordBytes(h[i]);
      assert h[..i + 1][..i] == h[..i] && h[..i + 1][i] == h[i];
      i := i + 1;
    }
    assert h[..8] == h[..];
  }
}
