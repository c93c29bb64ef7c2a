/** HMAC-SHA256 as RFC 2104 defines it, its in-place computation, and hexadecimal text. */
module Hmac {
  import opened Basics
  import opened Sha256
  import Decimals

  const BLOCK := 64

  function XorByte(x: byte, y: byte): byte {
    ((x as bv8) ^ (y as bv8)) as int
  }

  /** Section 2: a key longer than a block is hashed first; a shorter one is filled up with zeros. */
  function BlockKey(key: bytes): (k: bytes)
    ensures |k| == BLOCK
  {
    var short := if |key| > BLOCK then Digest(key) else key;
    short + Zeros(BLOCK - |short|)
  }

  function XorWith(k: bytes, pad: byte): (r: bytes)
    ensures |r| == |k|
  {
    seq(|k|, i requires 0 <= i < |k| => XorByte(pad, k[i]))
  }

  /** The two passes: H((K ^ opad) + H((K ^ ipad) + message)). */
  function Mac(key: bytes, message: bytes): (m: bytes)
    ensures |m| == 32
  {
    var k := BlockKey(key);
    Digest(XorWith(k, 0x5c) + Digest(XorWith(k, 0x36) + message))
  }

  /** `hmac_sha256`: the key block and both pads are filled and combined in place. */
  method HmacSha256(key: bytes, message: bytes) returns (mac: bytes)
    ensures mac == Mac(key, message)
  {
    hide Digest;
    var k := new byte[BLOCK](_ => 0);
    var short := key;
    if |key| > BLOCK {
      short := Sha256.Sha256(key);
    }
    forall i | 0 <= i < |short| {
      k[i] := short[i];
    }
    assert k[..] == BlockKey(key);
    var ipad := new byte[BLOCK](_ => 0x36);
    var opad := new byte[BLOCK](_ => 0x5c);
    MixPads(k, ipad, opad);
    hide XorWith, BlockKey;
    var inner := Sha256.Sha256(ipad[..] + message);
    mac := Sha256.Sha256(opad[..] + inner);
  }

  /** The loop that combines both pads with the key block. */
  method MixPads(k: array<byte>, ipad: array<byte>, opad: array<byte>)
    requires k.Length == ipad.Length == opad.Length == BLOCK && k != ipad && k != opad && ipad != opad
    requires forall j :: 0 <= j < BLOCK ==> ipad[j] == 0x36 && opad[j] == 0x5c
    modifies ipad, opad
    ensures ipad[..] == XorWith(k[..], 0x36) && opad[..] == XorWith(k[..], 0x5c)
  {
    hide XorByte;
    var i := 0;
    while i < BLOCK
      invariant 0 <= i <= BLOCK
      invariant forall j :: 0 <= j < BLOCK ==> ipad[j] == if j < i then XorByte(0x36, k[j]) else 0x36
      invariant forall j :: 0 <= j < BLOCK ==> opad[j] == if j < i then XorByte(0x5c, k[j]) else 0x5c
    {
      ipad[i] := XorByte(ipad[i], k[i]);
      opad[i] := XorByte(opad[i], k[i]);
      i := i + 1;
    }
    assert ipad[..] == XorWith(k[..], 0x36) && opad[..] == XorWith(k[..], 0x5c);
  }

  lemma ZerosConcat(m: nat, n: nat)
    ensures Zeros(m) + Zeros(n) == Zeros(m + n)
  {
  }

  /** Two keys give the same code for every message as soon as their key blocks agree: so a long key acts
      as its hash, and a short one as itself with zeros after it, up to one block. */
  lemma KeysActThroughTheirBlock(key: bytes, zeros: nat, message: bytes)
    ensures |key| > BLOCK ==> Mac(key, message) == Mac(Digest(key), message)
    ensures |key| + zeros <= BLOCK ==> Mac(key + Zeros(zeros), message) == Mac(key, message)
  {
    hide Digest;
    if |key| + zeros <= BLOCK {
      ZerosConcat(zeros, BLOCK - |key| - zeros);
      assert BlockKey(key + Zeros(zeros)) == BlockKey(key);
    }
  }

  /** Byte `j` of the key block: of the key itself, or of its hash when it is longer than a block, and zero
      after that. */
  function KeyByte(key: bytes, j: nat): byte {
    var short := if |key| > 64 then Digest(key) else key;
    if j < |short| then short[j] else 0
  }

  /** The code hashes the message behind the inner pad, and the result behind the outer one; the pads are the
      key block combined with 0x36 and with 0x5c. */
  lemma MacOfPads(key: bytes, message: bytes, inner: bytes, outer: bytes)
    requires |inner| == 64 && forall j :: 0 <= j < 64 ==> inner[j] == XorByte(0x36, KeyByte(key, j))
    requires |outer| == 64 && forall j :: 0 <= j < 64 ==> outer[j] == XorByte(0x5c, KeyByte(key, j))
    ensures Mac(key, message) == Digest(outer + Digest(inner + message))
  {
    hide Digest, XorByte;
    assert inner == XorWith(BlockKey(key), 0x36);
    assert outer == XorWith(BlockKey(key), 0x5c);
  }

  // ----- hexadecimal -----

  function Hex(bs: bytes): (s: string)
    ensures |s| == 2 * |bs|
  {
    if bs == [] then "" else [Decimals.HexDigit(bs[0] / 16), Decimals.HexDigit(bs[0] % 16)] + Hex(bs[1..])
  }

  /** Two digits for each byte, the high one first. */
  lemma {:induction false} HexAt(bs: bytes, i: nat)
    requires i < |bs|
    ensures Hex(bs)[2 * i] == "0123456789abcdef"[bs[i] / 16] && Hex(bs)[2 * i + 1] == "0123456789abcdef"[bs[i] % 16]
  {
    if i == 0 {
      Decimals.HexDigits(bs[0] / 16);
      Decimals.HexDigits(bs[0] % 16);
    } else {
      HexAt(bs[1..], i - 1);
    }
    hide Decimals.HexDigit;
  }

  /** `u8::from_str_radix(_, 16)` of two characters, which also takes a plus sign and one digit. */
  function HexByte(hi: char, lo: char): Option<byte> {
    match Decimals.HexValue(lo)
    case None => None
    case Some(l) =>
      if hi == '+' then Some(l) else
      match Decimals.HexValue(hi)
      case None => None
      case Some(h) => Some(16 * h + l)
  }

  /** `unhex`, on text of one-byte characters. */
  function Unhex(s: string): Option<bytes> {
    if s == "" then Some([])
    else if |s| == 1 then None
    else
      match (HexByte(s[0], s[1]), Unhex(s[2..]))
      case (Some(b), Some(bs)) => Some([b] + bs)
      case _ => None
  }

  /** Hexadecimal text is read back as the bytes it was written for. */
  lemma {:induction false} UnhexOfHex(bs: bytes)
    ensures Unhex(Hex(bs)) == Some(bs)
  {
    if bs != [] {
      UnhexOfHex(bs[1..]);
      var s := Hex(bs);
      assert s[2..] == Hex(bs[1..]) && s[0] == Decimals.HexDigit(bs[0] / 16) && s[1] == Decimals.HexDigit(bs[0] % 16);
      assert [bs[0]] + bs[1..] == bs;
    }
  }
}
