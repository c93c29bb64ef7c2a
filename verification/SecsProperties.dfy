/** What the item codec guarantees over all items and all byte strings. */
module SecsProperties {
  import opened Basics
  import Utf8
  import opened Secs

  // ----- leaves -----

  /** The count a decoder reads back: exact up to 65535, its low sixteen bits above. */
  function Announced(count: nat): nat {
    if count <= 0xFF then count else count % 0x1_0000
  }

  lemma LengthRoundTrip(count: nat, rest: bytes)
    ensures ReadLength(LengthBytes(count) + rest) == Some(Read(Announced(count), |LengthBytes(count)|))
  {
    var s := LengthBytes(count) + rest;
    if count > 0xFF {
      var n := count % 0x1_0000;
      assert s[1..3] == BigEndian(2, n);
      Pow256Small();
      FromOfBigEndian(2, n);
    } else if count > 0x7F {
      assert s[1..2] == [count];
      assert FromBigEndian([count]) == FromBigEndian([count][..0]) * 256 + count;
    }
  }

  lemma {:induction false} FlagsRoundTrip(flags: seq<bool>)
    ensures |EncodeFlags(flags)| == |flags| && DecodeFlags(EncodeFlags(flags)) == flags
  {
    if flags != [] {
      FlagsRoundTrip(flags[1..]);
      assert EncodeFlags(flags)[1..] == EncodeFlags(flags[1..]);
    }
  }

  lemma {:induction false} NumsLength(k: NumKind, vals: seq<int>)
    ensures |EncodeNums(k, vals)| == |vals| * Width(k)
  {
    if vals != [] {
      NumsLength(k, vals[1..]);
      assert |vals| * Width(k) == (|vals| - 1) * Width(k) + Width(k);
    }
  }

  lemma BitsRoundTrip(k: NumKind, v: int)
    requires Fits(k, v)
    ensures ToBits(k, v) < Modulus(k) && OfBits(k, ToBits(k, v)) == v
  {
    var m := Modulus(k);
    if v < 0 {
      assert (v + m) % m == v + m;
      assert v % m == v + m;
    }
  }

  lemma OfBitsFits(k: NumKind, n: nat)
    requires n < Modulus(k)
    ensures Fits(k, OfBits(k, n)) && ToBits(k, OfBits(k, n)) == n
  {
    var m := Modulus(k);
    assert (n - m) % m == n;
  }

  lemma {:induction false} NumsRoundTrip(k: NumKind, vals: seq<int>)
    requires Typed(Num(k, vals))
    ensures |EncodeNums(k, vals)| == |vals| * Width(k)
    ensures DecodeNums(k, EncodeNums(k, vals), |vals|) == vals
  {
    NumsLength(k, vals);
    hide FromBigEndian, BigEndian, Pow256, OfBits, ToBits;
    if vals != [] {
      var w, e := Width(k), EncodeNums(k, vals);
      OneLess(|vals|, w);
      assert e[..w] == BigEndian(w, ToBits(k, vals[0])) && e[w..] == EncodeNums(k, vals[1..]);
      BitsRoundTrip(k, vals[0]);
      FromOfBigEndian(w, ToBits(k, vals[0]));
      assert Typed(Num(k, vals[1..]));
      NumsRoundTrip(k, vals[1..]);
    }
  }

  lemma OneLess(count: nat, w: nat)
    requires count > 0
    ensures count * w == (count - 1) * w + w
  {
  }

  lemma {:induction false} NumsTyped(k: NumKind, raw: bytes, count: nat)
    requires |raw| == count * Width(k)
    ensures |DecodeNums(k, raw, count)| == count && Typed(Num(k, DecodeNums(k, raw, count)))
  {
    hide FromBigEndian, BigEndian, Pow256, OfBits;
    if count > 0 {
      var w := Width(k);
      OneLess(count, w);
      BigEndianOfFrom(raw[..w]);
      OfBitsFits(k, FromBigEndian(raw[..w]));
      NumsTyped(k, raw[w..], count - 1);
    }
  }

  lemma {:induction false} FlagsLength(raw: bytes)
    ensures |DecodeFlags(raw)| == |raw|
  {
    if raw != [] {
      FlagsLength(raw[1..]);
    }
  }

  lemma FormatOfNums(k: NumKind, vals: seq<int>)
    ensures LeafOf(FormatByte(Num(k, vals))) == Some(Num(k, []))
  {
  }

  /** The leaf the decoder starts from when it meets this item's format byte. */
  function Blank(i: Item): Item
    requires !i.L?
  {
    match i
    case B(_) => B([])
    case Boolean(_) => Boolean([])
    case A(_) => A("")
    case Num(k, _) => Num(k, [])
  }

  lemma FormatOfLeaf(i: Item)
    requires !i.L?
    ensures FormatByte(i) != 0 && LeafOf(FormatByte(i)) == Some(Blank(i))
  {
    if i.Num? {
      FormatOfNums(i.kind, i.vals);
    }
  }

  lemma LeafRoundTrip(i: Item)
    requires Typed(i) && !i.L?
    ensures |Payload(i)| == Count(i) * Stride(Blank(i))
    ensures FillLeaf(Blank(i), Payload(i), Count(i)) == i
  {
    match i
    case B(_) =>
    case Boolean(flags) => FlagsRoundTrip(flags);
    case A(text) => Utf8.LossyOfEncode(text);
    case Num(k, vals) => NumsRoundTrip(k, vals);
  }

  /** What the decoder sees of an encoded item before it reaches the payload. */
  lemma HeaderRead(i: Item, rest: bytes)
    ensures var s, n := Encode(i) + rest, |LengthBytes(Count(i))|;
            && s[0] == FormatByte(i)
            && ReadLength(s[1..]) == Some(Read(Announced(Count(i)), n))
            && s[1 + n..] == Payload(i) + rest
            && |Encode(i)| == 1 + n + |Payload(i)|
  {
    var s, lb := Encode(i) + rest, LengthBytes(Count(i));
    LengthRoundTrip(Count(i), Payload(i) + rest);
    assert s[1..] == lb + (Payload(i) + rest);
  }

  /** An encoded leaf decodes to as many elements as its header announces. */
  lemma DecodeOfLeaf(i: Item, rest: bytes)
    requires !i.L?
    ensures Decode(Encode(i) + rest) ==
              match DecodeLeaf(FormatByte(i), Payload(i) + rest, Announced(Count(i)))
              case None => None
              case Some(Read(got, n)) => Some(Read(got, 1 + |LengthBytes(Count(i))| + n))
  {
    HeaderRead(i, rest);
    FormatOfLeaf(i);
  }

  /** An encoded list decodes to as many items as its header announces. */
  lemma DecodeOfList(items: seq<Item>, rest: bytes)
    ensures Decode(Encode(L(items)) + rest) ==
              match DecodeAll(EncodeAll(items) + rest, Announced(|items|))
              case None => None
              case Some(Read(got, n)) => Some(Read(L(got), 1 + |LengthBytes(|items|)| + n))
  {
    HeaderRead(L(items), rest);
    hide ReadLength, LengthBytes, DecodeLeaf, Announced;
  }

  // ----- round trip -----

  lemma RoundTripLeaf(i: Item, rest: bytes)
    requires Typed(i) && Sized(i) && !i.L?
    ensures DecodesTo(Encode(i) + rest, i, |Encode(i)|)
  {
    hide Decode, Encode, LeafOf, FormatByte, FillLeaf, Payload, Count, Stride, Blank, LengthBytes;
    HeaderRead(i, rest);
    DecodeOfLeaf(i, rest);
    FormatOfLeaf(i);
    LeafRoundTrip(i);
    assert (Payload(i) + rest)[..|Payload(i)|] == Payload(i);
  }

  /** Decoding an encoding followed by anything returns the item and stops at its end. */
  lemma {:induction false} RoundTrip(i: Item, rest: bytes)
    requires Typed(i) && Sized(i)
    ensures DecodesTo(Encode(i) + rest, i, |Encode(i)|)
    decreases i, 0
  {
    hide Decode, Encode, FormatByte, DecodeLeaf;
    if i.L? {
      HeaderRead(i, rest);
      DecodeOfList(i.items, rest);
      RoundTripAll(i.items, rest);
    } else {
      RoundTripLeaf(i, rest);
    }
  }

  lemma {:induction false} RoundTripAll(items: seq<Item>, rest: bytes)
    requires forall j :: 0 <= j < |items| ==> Typed(items[j]) && Sized(items[j])
    ensures AllDecodeTo(EncodeAll(items) + rest, items, |EncodeAll(items)|)
    decreases items, 1
  {
    hide Decode, Encode, DecodesTo;
    if items == [] {
      assert EncodeAll(items) + rest == rest;
    } else {
      var first, others := items[0], items[1..];
      var tail := EncodeAll(others) + rest;
      assert EncodeAll(items) + rest == Encode(first) + tail;
      RoundTrip(first, tail);
      RoundTripAll(others, rest);
      AllDecodeToCons(first, others, tail, |EncodeAll(others)|);
      assert [first] + others == items;
    }
  }

  lemma AllDecodeToCons(i: Item, items: seq<Item>, tail: bytes, n: nat)
    requires DecodesTo(Encode(i) + tail, i, |Encode(i)|)
    requires AllDecodeTo(tail, items, n)
    ensures AllDecodeTo(Encode(i) + tail, [i] + items, |Encode(i)| + n)
  {
    hide Decode, Encode;
    assert (Encode(i) + tail)[|Encode(i)|..] == tail;
  }

  /** A list whose first item decodes right is right only if the others are. */
  lemma DecodeAllOfCons(i: Item, tail: bytes, others: seq<Item>, n: nat)
    requires DecodesTo(Encode(i) + tail, i, |Encode(i)|)
    requires AllDecodeTo(Encode(i) + tail, [i] + others, n)
    ensures n >= |Encode(i)| && AllDecodeTo(tail, others, n - |Encode(i)|)
  {
    hide Decode, Encode;
    assert (Encode(i) + tail)[|Encode(i)|..] == tail;
    var got := DecodeAll(tail, |others|).value;
    assert ([i] + got.value)[1..] == got.value && ([i] + others)[1..] == others;
  }

  // ----- prefix-freeness -----

  lemma ReadLengthLocal(s: bytes, rest: bytes)
    requires ReadLength(s).Some?
    ensures ReadLength(s + rest) == ReadLength(s)
  {
    if s[0] >= 0x80 {
      var h := ReadLength(s).value.used;
      assert (s + rest)[1..h] == s[1..h];
    }
  }

  /** A decode looks at no byte beyond the ones it reports as used. */
  lemma {:induction false} DecodeLocal(s: bytes, rest: bytes)
    requires Decode(s).Some?
    ensures Decode(s + rest) == Decode(s)
    decreases |s|, 0
  {
    hide DecodeLeaf, ReadLength, LeafOf;
    var t := s + rest;
    var Read(count, h) := ReadLength(s[1..]).value;
    assert t[1..] == s[1..] + rest;
    ReadLengthLocal(s[1..], rest);
    assert t[1 + h..] == s[1 + h..] + rest;
    if s[0] == 0x00 {
      DecodeAllLocal(s[1 + h..], rest, count);
    } else {
      DecodeLeafLocal(s[0], s[1 + h..], rest, count);
    }
  }

  lemma DecodeLeafLocal(fmt: byte, body: bytes, rest: bytes, count: nat)
    requires DecodeLeaf(fmt, body, count).Some?
    ensures DecodeLeaf(fmt, body + rest, count) == DecodeLeaf(fmt, body, count)
  {
    var n := count * Stride(LeafOf(fmt).value);
    assert (body + rest)[..n] == body[..n];
  }

  lemma {:induction false} DecodeAllLocal(s: bytes, rest: bytes, count: nat)
    requires DecodeAll(s, count).Some?
    ensures DecodeAll(s + rest, count) == DecodeAll(s, count)
    decreases |s|, count + 1
  {
    hide Decode;
    if count > 0 {
      DecodeLocal(s, rest);
      var n := Decode(s).value.used;
      assert (s + rest)[n..] == s[n..] + rest;
      DecodeAllLocal(s[n..], rest, count - 1);
    }
  }

  /** Every strict prefix of an encoding is rejected: encodings are prefix-free. */
  lemma StrictPrefixRejected(i: Item, cut: nat)
    requires Typed(i) && Sized(i)
    requires cut < |Encode(i)|
    ensures Decode(Encode(i)[..cut]).None?
  {
    var e := Encode(i);
    RoundTrip(i, []);
    assert e + [] == e;
    assert e[..cut] + e[cut..] == e;
    if Decode(e[..cut]).Some? {
      DecodeLocal(e[..cut], e[cut..]);
    }
  }

  /** Hence distinct items have encodings neither of which begins the other. */
  lemma EncodingsSeparate(i: Item, j: Item, rest: bytes)
    requires Typed(i) && Sized(i) && Typed(j) && Sized(j)
    requires Encode(i) <= Encode(j) + rest
    ensures i == j || |Encode(i)| > |Encode(j)|
    ensures rest == [] ==> i == j
  {
    var t := Encode(j) + rest;
    RoundTrip(j, rest);
    RoundTrip(i, t[|Encode(i)|..]);
    assert Encode(i) + t[|Encode(i)|..] == t;
  }

  // ----- arbitrary input -----

  function Nodes(i: Item): nat
    decreases i, 0
  {
    if i.L? then 1 + NodesAll(i.items) else 1
  }

  function NodesAll(items: seq<Item>): nat
    decreases items, 1
  {
    if items == [] then 0 else Nodes(items[0]) + NodesAll(items[1..])
  }

  /** Ill-formed parts in the texts of an item's bytes. */
  function Damage(s: bytes): nat
    requires Decode(s).Some?
    decreases |s|, 0
  {
    var Read(count, h) := ReadLength(s[1..]).value;
    if s[0] == 0x00 then DamageAll(s[1 + h..], count)
    else if LeafOf(s[0]).value.A? then Utf8.IllFormed(s[1 + h..][..count])
    else 0
  }

  function DamageAll(s: bytes, count: nat): nat
    requires DecodeAll(s, count).Some?
    decreases |s|, count + 1
  {
    if count == 0 then 0 else Damage(s) + DamageAll(s[Decode(s).value.used..], count - 1)
  }

  /** Whatever bytes arrive, a decoded tree is well typed and has at most half as many nodes
      as bytes were consumed. */
  lemma {:induction false} DecodedIsTyped(s: bytes)
    requires Decode(s).Some?
    ensures Typed(Decode(s).value.value)
    ensures 2 * Nodes(Decode(s).value.value) <= Decode(s).value.used
    decreases |s|, 0
  {
    var Read(count, h) := ReadLength(s[1..]).value;
    if s[0] == 0x00 {
      DecodedAllTyped(s[1 + h..], count);
    } else {
      var leaf := LeafOf(s[0]).value;
      if leaf.Num? {
        NumsTyped(leaf.kind, s[1 + h..][..count * Stride(leaf)], count);
      }
    }
  }

  lemma {:induction false} DecodedAllTyped(s: bytes, count: nat)
    requires DecodeAll(s, count).Some?
    ensures forall j :: 0 <= j < count ==> Typed(DecodeAll(s, count).value.value[j])
    ensures 2 * NodesAll(DecodeAll(s, count).value.value) <= DecodeAll(s, count).value.used
    decreases |s|, count + 1
  {
    if count > 0 {
      DecodedIsTyped(s);
      var Read(item, n) := Decode(s).value;
      DecodedAllTyped(s[n..], count - 1);
      var items := DecodeAll(s[n..], count - 1).value.value;
      assert ([item] + items)[1..] == items;
    }
  }

  lemma LengthIsMinimal(s: bytes)
    requires ReadLength(s).Some? && ReadLength(s).value.value <= 0xFFFF
    ensures |LengthBytes(ReadLength(s).value.value)| <= ReadLength(s).value.used
  {
    var Read(count, h) := ReadLength(s).value;
    if s[0] >= 0x80 && h == 2 {
      var raw := s[1..2];
      assert FromBigEndian(raw) == FromBigEndian(raw[..0]) * 256 + raw[0];
    }
  }

  /** Re-encoding what was decoded is never longer than what was read when its texts are valid UTF-8. Each
      ill-formed part costs at most four bytes: two in the text and two in its length. */
  lemma {:induction false} ReencodeGrowth(s: bytes)
    requires Decode(s).Some? && Sized(Decode(s).value.value)
    ensures |Encode(Decode(s).value.value)| <= Decode(s).value.used + 4 * Damage(s)
    decreases |s|, 0
  {
    hide FillLeaf, Utf8.IllFormed, Utf8.Encode;
    var Read(count, h) := ReadLength(s[1..]).value;
    var i := Decode(s).value.value;
    if s[0] == 0x00 {
      ReencodeAllGrowth(s[1 + h..], count);
      LengthIsMinimal(s[1..]);
    } else {
      var leaf := LeafOf(s[0]).value;
      LeafGrowth(leaf, s[1 + h..][..count * Stride(leaf)], count);
      if Count(i) == count {
        LengthIsMinimal(s[1..]);
      }
    }
  }

  lemma LeafGrowth(leaf: Item, raw: bytes, count: nat)
    requires !leaf.L? && |raw| == count * Stride(leaf)
    requires Count(FillLeaf(leaf, raw, count)) <= 0xFFFF
    ensures var i := FillLeaf(leaf, raw, count);
            var damage := if leaf.A? then Utf8.IllFormed(raw) else 0;
            && |Payload(i)| <= |raw| + 2 * damage
            && (damage == 0 ==> Count(i) <= count)
            && (!i.A? ==> Count(i) == count)
  {
    match FillLeaf(leaf, raw, count)
    case B(_) =>
    case Boolean(flags) =>
      FlagsLength(raw);
      FlagsRoundTrip(flags);
    case A(_) => Utf8.LossyGrowth(raw);
    case Num(k, vals) =>
      NumsTyped(k, raw, count);
      NumsLength(k, vals);
  }

  lemma {:induction false} ReencodeAllGrowth(s: bytes, count: nat)
    requires DecodeAll(s, count).Some?
    requires forall j :: 0 <= j < count ==> Sized(DecodeAll(s, count).value.value[j])
    ensures var r := DecodeAll(s, count).value;
            |EncodeAll(r.value)| <= r.used + 4 * DamageAll(s, count)
    decreases |s|, count + 1
  {
    hide Decode, Encode, Damage;
    if count > 0 {
      var r := DecodeAll(s, count).value;
      var Read(item, n) := Decode(s).value;
      var items := DecodeAll(s[n..], count - 1).value.value;
      assert r.value == [item] + items && r.value[0] == item && r.value[1..] == items;
      assert forall j :: 0 <= j < count - 1 ==> items[j] == r.value[j + 1];
      ReencodeGrowth(s);
      ReencodeAllGrowth(s[n..], count - 1);
    }
  }

  /** Decoding normalizes: one decode and re-encode reaches a form the next leaves alone. */
  lemma ReencodeIsStable(s: bytes, rest: bytes)
    requires Decode(s).Some? && Sized(Decode(s).value.value)
    ensures var i := Decode(s).value.value;
            Decode(Encode(i) + rest) == Some(Read(i, |Encode(i)|))
  {
    DecodedIsTyped(s);
    RoundTrip(Decode(s).value.value, rest);
  }

  // ----- exactly which items round-trip -----

  /** Cutting text mid-way cannot make it longer by more than the damaged character. */
  lemma {:induction false} CutTextStaysShort(text: string, cut: nat)
    requires cut <= |Utf8.Encode(text)|
    ensures |Utf8.Encode(Utf8.Lossy(Utf8.Encode(text)[..cut]))| <= cut + 6
  {
    var e := Utf8.Encode(text);
    if text == [] || cut < |Utf8.EncodeChar(text[0])| {
      Utf8.LossyGrowth(e[..cut]);
    } else {
      var c := Utf8.EncodeChar(text[0]);
      var tail := Utf8.Encode(text[1..])[..cut - |c|];
      assert e[..cut] == c + tail;
      Utf8.DecodeHeadOfChar(text[0], tail);
      assert (c + tail)[|c|..] == tail;
      CutTextStaysShort(text[1..], cut - |c|);
      assert Utf8.Lossy(e[..cut])[1..] == Utf8.Lossy(tail);
    }
  }

  lemma OversizeIsLost(i: Item, rest: bytes, n: nat)
    requires Typed(i) && Count(i) > 0xFFFF
    ensures !DecodesTo(Encode(i) + rest, i, n)
  {
    hide Decode, DecodeAll, Encode, EncodeAll, FillLeaf, LeafOf, Payload, Typed;
    var c := Announced(Count(i));
    if i.L? {
      DecodeOfList(i.items, rest);
    } else {
      DecodeOfLeaf(i, rest);
      FormatOfLeaf(i);
      LeafRoundTrip(i);
      CutLeafIsLost(i, c);
      assert (Payload(i) + rest)[..c * Stride(Blank(i))] == Payload(i)[..c * Stride(Blank(i))];
    }
  }

  lemma TimesMonotone(a: nat, b: nat, k: nat)
    requires a <= b
    ensures a * k <= b * k
  {
  }

  lemma CutLeafIsLost(i: Item, c: nat)
    requires Typed(i) && !i.L? && c + 6 < Count(i)
    requires |Payload(i)| == Count(i) * Stride(Blank(i))
    ensures c * Stride(Blank(i)) <= |Payload(i)|
    ensures FillLeaf(Blank(i), Payload(i)[..c * Stride(Blank(i))], c) != i
  {
    TimesMonotone(c, Count(i), Stride(Blank(i)));
    if i.A? {
      CutTextStaysShort(i.text, c);
      assert Payload(i)[..c * 1] == Utf8.Encode(i.text)[..c];
    } else {
      FilledCount(Blank(i), Payload(i)[..c * Stride(Blank(i))], c);
    }
  }

  lemma FilledCount(leaf: Item, raw: bytes, count: nat)
    requires !leaf.L? && !leaf.A? && |raw| == count * Stride(leaf)
    ensures Count(FillLeaf(leaf, raw, count)) == count
  {
    match leaf
    case B(_) =>
    case Boolean(_) => FlagsLength(raw);
    case Num(k, _) => NumsTyped(k, raw, count);
  }

  /** An item comes back from its bytes if and only if no count in it exceeds 65535. */
  lemma {:induction false} RoundTripsExactlyWhenSized(i: Item, rest: bytes)
    requires Typed(i)
    ensures Sized(i) <==> exists n: nat :: DecodesTo(Encode(i) + rest, i, n)
    decreases i, 0
  {
    if Sized(i) {
      RoundTrip(i, rest);
      assert DecodesTo(Encode(i) + rest, i, |Encode(i)|);
    } else {
      forall n: nat | DecodesTo(Encode(i) + rest, i, n) ensures false {
        if Count(i) > 0xFFFF {
          OversizeIsLost(i, rest, n);
        } else {
          DecodeOfList(i.items, rest);
          UnsizedListIsLost(i.items, rest, DecodeAll(EncodeAll(i.items) + rest, |i.items|).value.used);
        }
      }
    }
  }

  lemma {:induction false} UnsizedListIsLost(items: seq<Item>, rest: bytes, n: nat)
    requires forall j :: 0 <= j < |items| ==> Typed(items[j])
    requires exists j :: 0 <= j < |items| && !Sized(items[j])
    ensures !AllDecodeTo(EncodeAll(items) + rest, items, n)
    decreases items, 1
  {
    hide Encode, Decode, DecodeAll, Sized, Typed, AllDecodeTo, DecodesTo;
    var first, others := items[0], items[1..];
    var tail := EncodeAll(others) + rest;
    assert EncodeAll(items) + rest == Encode(first) + tail;
    hide EncodeAll;
    assert [first] + others == items;
    if AllDecodeTo(EncodeAll(items) + rest, items, n) {
      HeadDecodes(Encode(first) + tail, first, others, n);
      RoundTripsExactlyWhenSized(first, tail);
      RoundTrip(first, tail);
      DecodeAllOfCons(first, tail, others, n);
      var j :| 0 <= j < |items| && !Sized(items[j]);
      assert !Sized(others[j - 1]);
      UnsizedListIsLost(others, rest, n - |Encode(first)|);
    }
  }

  lemma HeadDecodes(s: bytes, first: Item, others: seq<Item>, n: nat)
    requires AllDecodeTo(s, [first] + others, n)
    ensures DecodesTo(s, first, Decode(s).value.used)
  {
    assert ([first] + others)[0] == first;
  }

  // ----- what stands where on the wire -----

  /** Byte `i` of the `j`th number: the most significant byte first, negative numbers in two's complement. */
  lemma {:induction false} NumberBytes(k: NumKind, vals: seq<int>, j: nat, i: nat)
    requires j < |vals| && i < Width(k)
    ensures |EncodeNums(k, vals)| == |vals| * Width(k) && j * Width(k) + i < |vals| * Width(k)
    ensures EncodeNums(k, vals)[j * Width(k) + i] == vals[j] % Pow256(Width(k)) / Pow256(Width(k) - 1 - i) % 256
  {
    var w := Width(k);
    NumsLength(k, vals);
    assert (j + 1) * w <= |vals| * w;
    if j == 0 {
      BigEndianAt(w, ToBits(k, vals[0]), i);
    } else {
      NumberBytes(k, vals[1..], j - 1, i);
      assert j * w == (j - 1) * w + w;
    }
  }

  /** A number on the wire: format byte, count, and its bytes, the most significant first. */
  lemma EncodedNumber(k: NumKind, v: int, i: nat)
    requires i < Width(k)
    ensures var e := Encode(Num(k, [v]));
            && |e| == 2 + Width(k) && e[0] == FormatByte(Num(k, [])) && e[1] == 1
            && e[2 + i] == v % Pow256(Width(k)) / Pow256(Width(k) - 1 - i) % 256
  {
    NumberBytes(k, [v], 0, i);
  }

  /** A count of more than 255 is written high byte first. */
  lemma EncodedCount(count: nat)
    requires 0xFF < count <= 0xFFFF
    ensures LengthBytes(count) == [0x82, count / 256, count % 256]
  {
    hide BigEndian;
    TwoBytes(count);
    assert LengthBytes(count) == [0x82] + [count / 256, count % 256] by {
      assert count % 0x1_0000 == count;
    }
  }

  /** A count read from several bytes is their value, the first weighing most. */
  lemma ReadCount(s: bytes)
    requires ReadLength(s).Some? && s[0] >= 0x80
    ensures var Read(count, used) := ReadLength(s).value;
            used == 1 + s[0] as int - 0x80 && count == Weighed(s[1..used])
  {
    FromBigEndianWeighs(s[1..1 + s[0] as int - 0x80]);
  }

  lemma SliceOfRest(raw: bytes, w: nat, j: nat)
    requires j > 0 && (j + 1) * w <= |raw|
    ensures 0 <= w <= j * w == (j - 1) * w + w && (j + 1) * w == j * w + w
    ensures raw[w..][(j - 1) * w..j * w] == raw[j * w..(j + 1) * w]
  {
    OneLess(j, w);
    OneLess(j + 1, w);
    var a := (j - 1) * w;
    assert raw[w..][a..a + w] == raw[w + a..w + a + w];
  }

  /** The `j`th number read: the value of its bytes, reduced to the range of its type. */
  lemma {:induction false} DecodedNumber(k: NumKind, raw: bytes, count: nat, j: nat)
    requires |raw| == count * Width(k) && j < count
    ensures |DecodeNums(k, raw, count)| == count && 0 <= j * Width(k) <= (j + 1) * Width(k) <= |raw|
    ensures var v := DecodeNums(k, raw, count)[j];
            Fits(k, v) && v % Pow256(Width(k)) == Weighed(raw[j * Width(k)..(j + 1) * Width(k)])
  {
    hide FromBigEndian, BigEndian, Pow256, OfBits, Weighed, Fits;
    var w := Width(k);
    NumsTyped(k, raw, count);
    OneLess(count, w);
    if j == 0 {
      BigEndianOfFrom(raw[..w]);
      FromBigEndianWeighs(raw[..w]);
      OfBitsFits(k, FromBigEndian(raw[..w]));
    } else {
      DecodedNumber(k, raw[w..], count - 1, j - 1);
      Within(count, w, j);
      SliceOfRest(raw, w, j);
    }
  }

  lemma Within(count: nat, w: nat, j: nat)
    requires j < count
    ensures (j + 1) * w <= count * w
  {
  }

  /** The format bytes of the code's own dialect. */
  lemma FormatBytes(i: Item)
    ensures Encode(i)[0] as int ==
              match i
              case L(_) => 0x00 case B(_) => 0x20 case Boolean(_) => 0x24 case A(_) => 0x40
              case Num(k, _) =>
                (match k
                 case I8 => 0x60 case I1 => 0x64 case I2 => 0x68 case I4 => 0x6C case F8 => 0x80 case F4 => 0x84
                 case U8 => 0xA0 case U1 => 0xA4 case U2 => 0xA8 case U4 => 0xAC)
  {
    hide Payload, LengthBytes;
  }
}
