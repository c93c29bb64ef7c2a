/** SECS-II items: the byte dialect of the item codec, as functions. */
module Secs {
  import opened Basics
  import Utf8

  datatype NumKind = I8 | I1 | I2 | I4 | F8 | F4 | U8 | U1 | U2 | U4

  /** An item. The ten numeric formats share one constructor; a float is its bit pattern. */
  datatype Item =
    | L(items: seq<Item>)
    | B(data: bytes)
    | Boolean(flags: seq<bool>)
    | A(text: string)
    | Num(kind: NumKind, vals: seq<int>)

  function Width(k: NumKind): (n: nat)
    ensures 1 <= n <= 8
  {
    match k
    case I8 | U8 | F8 => 8
    case I4 | U4 | F4 => 4
    case I2 | U2 => 2
    case I1 | U1 => 1
  }

  /** The number of bit patterns of one element. */
  function Modulus(k: NumKind): (m: nat)
    ensures m == Pow256(Width(k)) && m % 2 == 0
  {
    match Width(k)
    case 8 => assert Pow256(8) == 0x1_0000_0000_0000_0000 by { Pow256Small(); } 0x1_0000_0000_0000_0000
    case 4 => assert Pow256(4) == 0x1_0000_0000 by { Pow256Small(); } 0x1_0000_0000
    case 2 => assert Pow256(2) == 0x1_0000 by { Pow256Small(); } 0x1_0000
    case 1 => assert Pow256(1) == 0x100 by { Pow256Small(); } 0x100
  }

  lemma Pow256Small()
    ensures Pow256(1) == 0x100 && Pow256(2) == 0x1_0000 && Pow256(4) == 0x1_0000_0000
    ensures Pow256(8) == 0x1_0000_0000_0000_0000
  {
    assert Pow256(3) == 0x100_0000;
    assert Pow256(5) == 0x100_0000_0000;
    assert Pow256(6) == 0x1_0000_0000_0000;
    assert Pow256(7) == 0x100_0000_0000_0000;
  }

  predicate Signed(k: NumKind) {
    k == I8 || k == I1 || k == I2 || k == I4
  }

  /** The values of the Rust element type. */
  predicate Fits(k: NumKind, v: int) {
    if Signed(k) then -(Modulus(k) / 2) <= v < Modulus(k) / 2 else 0 <= v < Modulus(k)
  }

  function ToBits(k: NumKind, v: int): nat {
    v % Modulus(k)
  }

  function OfBits(k: NumKind, n: nat): int {
    if Signed(k) && n >= Modulus(k) / 2 then n - Modulus(k) else n
  }

  /** Every number lies in its element type: true of any Rust `Item`. */
  predicate Typed(i: Item) {
    match i
    case L(items) => forall j :: 0 <= j < |items| ==> Typed(items[j])
    case Num(k, vals) => forall j :: 0 <= j < |vals| ==> Fits(k, vals[j])
    case _ => true
  }

  /** `element_count`: for text, its length in bytes. */
  function Count(i: Item): nat {
    match i
    case L(items) => |items|
    case B(data) => |data|
    case Boolean(flags) => |flags|
    case A(text) => |Utf8.Encode(text)|
    case Num(_, vals) => |vals|
  }

  /** No count anywhere in the tree overflows the two length bytes the encoder writes. */
  predicate Sized(i: Item) {
    Count(i) <= 0xFFFF && (i.L? ==> forall j :: 0 <= j < |i.items| ==> Sized(i.items[j]))
  }

  function FormatByte(i: Item): byte {
    match i
    case L(_) => 0x00
    case B(_) => 0x20
    case Boolean(_) => 0x24
    case A(_) => 0x40
    case Num(I8, _) => 0x60
    case Num(I1, _) => 0x64
    case Num(I2, _) => 0x68
    case Num(I4, _) => 0x6C
    case Num(F8, _) => 0x80
    case Num(F4, _) => 0x84
    case Num(U8, _) => 0xA0
    case Num(U1, _) => 0xA4
    case Num(U2, _) => 0xA8
    case Num(U4, _) => 0xAC
  }

  // ----- encoder -----

  /** The length bytes; a count above 65535 is cut to its low sixteen bits. */
  function LengthBytes(count: nat): bytes {
    if count <= 0x7F then [count]
    else if count <= 0xFF then [0x81, count]
    else [0x82] + BigEndian(2, count % 0x1_0000)
  }

  function EncodeFlags(flags: seq<bool>): bytes {
    if flags == [] then [] else [if flags[0] then 1 else 0] + EncodeFlags(flags[1..])
  }

  function EncodeNums(k: NumKind, vals: seq<int>): bytes {
    if vals == [] then [] else BigEndian(Width(k), ToBits(k, vals[0])) + EncodeNums(k, vals[1..])
  }

  function Payload(i: Item): bytes
    decreases i, 0
  {
    match i
    case L(items) => EncodeAll(items)
    case B(data) => data
    case Boolean(flags) => EncodeFlags(flags)
    case A(text) => Utf8.Encode(text)
    case Num(k, vals) => EncodeNums(k, vals)
  }

  function Encode(i: Item): (e: bytes)
    ensures |e| >= 2
    decreases i, 1
  {
    [FormatByte(i)] + LengthBytes(Count(i)) + Payload(i)
  }

  function EncodeAll(items: seq<Item>): bytes
    decreases items, 2
  {
    if items == [] then [] else Encode(items[0]) + EncodeAll(items[1..])
  }

  // ----- decoder -----

  /** A decoded value and the number of bytes it took. */
  datatype Read<+T> = Read(value: T, used: nat)

  function ReadLength(s: bytes): (r: Option<Read<nat>>)
    ensures r.Some? ==> 1 <= r.value.used <= |s|
  {
    if s == [] then None
    else if s[0] < 0x80 then Some(Read(s[0], 1))
    else
      var extra := s[0] as int - 0x80;
      if extra == 0 || extra > 3 || 1 + extra > |s| then None
      else Some(Read(FromBigEndian(s[1..1 + extra]), 1 + extra))
  }

  /** The item a leaf format byte announces, with no elements; `None` for lists and unknown bytes. */
  function LeafOf(fmt: byte): (r: Option<Item>)
    ensures r.Some? ==> FormatByte(r.value) == fmt && !r.value.L? && Count(r.value) == 0
  {
    match fmt as int
    case 0x20 => Some(B([]))
    case 0x24 => Some(Boolean([]))
    case 0x40 => Some(A(""))
    case 0x60 => Some(Num(I8, []))
    case 0x64 => Some(Num(I1, []))
    case 0x68 => Some(Num(I2, []))
    case 0x6C => Some(Num(I4, []))
    case 0x80 => Some(Num(F8, []))
    case 0x84 => Some(Num(F4, []))
    case 0xA0 => Some(Num(U8, []))
    case 0xA4 => Some(Num(U1, []))
    case 0xA8 => Some(Num(U2, []))
    case 0xAC => Some(Num(U4, []))
    case _ => None
  }

  /** Bytes per counted element of a leaf. */
  function Stride(leaf: Item): (n: nat)
    ensures n >= 1
  {
    if leaf.Num? then Width(leaf.kind) else 1
  }

  function DecodeFlags(raw: bytes): seq<bool> {
    if raw == [] then [] else [raw[0] != 0] + DecodeFlags(raw[1..])
  }

  function DecodeNums(k: NumKind, raw: bytes, count: nat): seq<int>
    requires |raw| == count * Width(k)
  {
    if count == 0 then [] else
    var w := Width(k);
    assert |raw| - w == (count - 1) * w;
    [OfBits(k, FromBigEndian(raw[..w]))] + DecodeNums(k, raw[w..], count - 1)
  }

  function FillLeaf(leaf: Item, raw: bytes, count: nat): Item
    requires !leaf.L? && |raw| == count * Stride(leaf)
  {
    match leaf
    case B(_) => B(raw)
    case Boolean(_) => Boolean(DecodeFlags(raw))
    case A(_) => A(Utf8.Lossy(raw))
    case Num(k, _) => Num(k, DecodeNums(k, raw, count))
  }

  /** The arms for everything but lists. */
  function DecodeLeaf(fmt: byte, body: bytes, count: nat): (r: Option<Read<Item>>)
    ensures r.Some? ==> r.value.used <= |body|
  {
    match LeafOf(fmt)
    case None => None
    case Some(leaf) =>
      var n := count * Stride(leaf);
      if n > |body| then None else Some(Read(FillLeaf(leaf, body[..n], count), n))
  }

  function Decode(s: bytes): (r: Option<Read<Item>>)
    ensures r.Some? ==> 2 <= r.value.used <= |s|
    decreases |s|, 0
  {
    if s == [] then None else
    match ReadLength(s[1..])
    case None => None
    case Some(Read(count, h)) =>
      var body := s[1 + h..];
      if s[0] == 0x00 then
        match DecodeAll(body, count)
        case None => None
        case Some(Read(items, n)) => Some(Read(L(items), 1 + h + n))
      else
        match DecodeLeaf(s[0], body, count)
        case None => None
        case Some(Read(item, n)) => Some(Read(item, 1 + h + n))
  }

  function DecodeAll(s: bytes, count: nat): (r: Option<Read<seq<Item>>>)
    ensures r.Some? ==> r.value.used <= |s| && |r.value.value| == count
    decreases |s|, count + 1
  {
    if count == 0 then Some(Read([], 0)) else
    match Decode(s)
    case None => None
    case Some(Read(item, n)) =>
      match DecodeAll(s[n..], count - 1)
      case None => None
      case Some(Read(items, m)) => Some(Read([item] + items, n + m))
  }

  /** `s` begins with the bytes of `i`, `used` of them. */
  ghost predicate DecodesTo(s: bytes, i: Item, used: nat) {
    Decode(s) == Some(Read(i, used))
  }

  ghost predicate AllDecodeTo(s: bytes, items: seq<Item>, used: nat) {
    DecodeAll(s, |items|) == Some(Read(items, used))
  }
}
