/** The item codec in the form the program runs it: a growing output buffer and a moving cursor. */
module SecsCodec {
  import opened Basics
  import Utf8
  import opened Secs

  /** The output `Vec<u8>`. */
  class ByteVec {
    var data: bytes

    constructor ()
      ensures data == []
    {
      data := [];
    }

    method Push(b: byte)
      modifies this
      ensures data == old(data) + [b]
    {
      data := data + [b];
    }

    method ExtendFromSlice(s: bytes)
      modifies this
      ensures data == old(data) + s
    {
      data := data + s;
    }
  }

  method WriteNums(k: NumKind, vals: seq<int>, out: ByteVec)
    modifies out
    ensures out.data == old(out.data) + EncodeNums(k, vals)
  {
    for j := 0 to |vals|
      invariant out.data + EncodeNums(k, vals[j..]) == old(out.data) + EncodeNums(k, vals)
    {
      assert vals[j..][1..] == vals[j + 1..];
      out.ExtendFromSlice(BigEndian(Width(k), ToBits(k, vals[j])));
    }
  }

  method WriteFlags(flags: seq<bool>, out: ByteVec)
    modifies out
    ensures out.data == old(out.data) + EncodeFlags(flags)
  {
    for j := 0 to |flags|
      invariant out.data + EncodeFlags(flags[j..]) == old(out.data) + EncodeFlags(flags)
    {
      assert flags[j..][1..] == flags[j + 1..];
      out.Push(if flags[j] then 1 else 0);
    }
  }

  method WriteData(i: Item, out: ByteVec)
    modifies out
    ensures out.data == old(out.data) + Payload(i)
    decreases i, 0
  {
    match i
    case L(items) => WriteItems(items, out);
    case B(data) => out.ExtendFromSlice(data);
    case Boolean(flags) => WriteFlags(flags, out);
    case A(text) => out.ExtendFromSlice(Utf8.Encode(text));
    case Num(k, vals) => WriteNums(k, vals, out);
  }

  method WriteItems(items: seq<Item>, out: ByteVec)
    modifies out
    ensures out.data == old(out.data) + EncodeAll(items)
    decreases items, 2
  {
    hide Encode;
    for j := 0 to |items|
      invariant out.data + EncodeAll(items[j..]) == old(out.data) + EncodeAll(items)
    {
      assert items[j..][1..] == items[j + 1..];
      EncodeInto(items[j], out);
    }
  }

  /** `encode_into`: appends exactly the item's encoding. */
  method EncodeInto(i: Item, out: ByteVec)
    modifies out
    ensures out.data == old(out.data) + Encode(i)
    decreases i, 1
  {
    out.Push(FormatByte(i));
    var count := Count(i);
    if count <= 0x7F {
      out.Push(count);
    } else if count <= 0xFF {
      out.Push(0x81);
      out.Push(count);
    } else {
      out.Push(0x82);
      out.ExtendFromSlice(BigEndian(2, count % 0x1_0000));
    }
    WriteData(i, out);
  }

  /** A read that continues after `items`, found in `n` bytes. */
  ghost function Following(items: seq<Item>, n: nat, r: Option<Read<seq<Item>>>): Option<Read<seq<Item>>>
  {
    match r
    case None => None
    case Some(Read(more, m)) => Some(Read(items + more, n + m))
  }

  lemma FollowingNothing(r: Option<Read<seq<Item>>>)
    ensures Following([], 0, r) == r
  {
    if r.Some? {
      assert [] + r.value.value == r.value.value;
    }
  }

  lemma FollowingOne(items: seq<Item>, item: Item, n: nat, used: nat, r: Option<Read<seq<Item>>>)
    ensures Following(items, n, Following([item], used, r)) == Following(items + [item], n + used, r)
  {
    if r.Some? {
      assert items + ([item] + r.value.value) == items + [item] + r.value.value;
    }
  }

  /** What the list loop still has to find. */
  ghost function Remaining(here: bytes, left: nat): Option<Read<seq<Item>>> {
    DecodeAll(here, left)
  }

  /** One turn of the list loop: the item found at `here` moves from what is ahead to what is done. */
  lemma ListLoopStep(total: Option<Read<seq<Item>>>, items: seq<Item>, n: nat, here: bytes, left: nat)
    requires left > 0 && total == Following(items, n, Remaining(here, left))
    ensures Decode(here).None? ==> total == None
    ensures Decode(here).Some? ==>
              var Read(item, used) := Decode(here).value;
              total == Following(items + [item], n + used, Remaining(here[used..], left - 1))
  {
    if Decode(here).Some? {
      var Read(item, used) := Decode(here).value;
      FollowingOne(items, item, n, used, DecodeAll(here[used..], left - 1));
    }
  }

  lemma ListLoopEnd(items: seq<Item>, n: nat, here: bytes)
    ensures Following(items, n, Remaining(here, 0)) == Some(Read(items, n))
  {
    assert items + [] == items;
  }

  lemma TakeOne(left: nat, w: nat)
    requires left > 0
    ensures left * w == (left - 1) * w + w && left * w >= w
  {
  }

  /** The input slice together with the decoder's position in it. */
  class Cursor {
    const data: bytes
    var pos: nat

    ghost predicate Valid()
      reads this
    {
      pos <= |data|
    }

    ghost function Ahead(): bytes
      reads this
      requires Valid()
    {
      data[pos..]
    }

    constructor (data: bytes)
      ensures Valid() && Ahead() == data && this.data == data
    {
      this.data := data;
      pos := 0;
    }

    method ReadLength() returns (r: Option<nat>)
      requires Valid()
      modifies this
      ensures Valid() && old(pos) <= pos
      ensures match Secs.ReadLength(old(Ahead()))
              case None => r == None
              case Some(Read(len, used)) => r == Some(len) && pos == old(pos) + used
    {
      if pos >= |data| {
        return None;
      }
      var first := data[pos];
      pos := pos + 1;
      if first < 0x80 {
        return Some(first);
      }
      var extra := first as int - 0x80;
      if extra == 0 || extra > 3 || pos + extra > |data| {
        return None;
      }
      ghost var ahead := old(Ahead());
      ghost var start := pos;
      var stop := pos + extra;
      var len: int := 0;
      while pos < stop
        invariant start <= pos <= stop
        invariant len == FromBigEndian(data[start..pos])
      {
        len := len * 256 + data[pos];
        pos := pos + 1;
        assert data[start..pos][..pos - start - 1] == data[start..pos - 1];
      }
      assert ahead[1..1 + extra] == data[start..pos];
      r := Some(len);
    }

    method Take(n: nat) returns (r: Option<bytes>)
      requires Valid()
      modifies this
      ensures Valid() && old(pos) <= pos
      ensures r == if n <= |old(Ahead())| then Some(old(Ahead())[..n]) else None
      ensures r.Some? ==> pos == old(pos) + n
    {
      if pos + n > |data| {
        return None;
      }
      var s := data[pos..pos + n];
      assert s == Ahead()[..n];
      pos := pos + n;
      r := Some(s);
    }

    method DecodeNums(k: NumKind, raw: bytes, count: nat) returns (vals: seq<int>)
      requires |raw| == count * Width(k)
      ensures vals == Secs.DecodeNums(k, raw, count)
    {
      var w, rest, left := Width(k), raw, count;
      vals := [];
      hide FromBigEndian, OfBits, Width;
      while left > 0
        invariant |rest| == left * w
        invariant vals + Secs.DecodeNums(k, rest, left) == Secs.DecodeNums(k, raw, count)
      {
        TakeOne(left, w);
        vals := vals + [OfBits(k, FromBigEndian(rest[..w]))];
        rest, left := rest[w..], left - 1;
      }
    }

    method DecodeFlags(raw: bytes) returns (flags: seq<bool>)
      ensures flags == Secs.DecodeFlags(raw)
    {
      flags := [];
      for j := 0 to |raw|
        invariant flags + Secs.DecodeFlags(raw[j..]) == Secs.DecodeFlags(raw)
      {
        assert raw[j..][1..] == raw[j + 1..];
        flags := flags + [raw[j] != 0];
      }
    }

    /** `decode_item`: on every input ends with the cursor in bounds, and yields the item the
        specification decodes, stopping exactly after it. */
    method DecodeItem() returns (r: Option<Item>)
      requires Valid()
      modifies this
      ensures Valid() && old(pos) <= pos
      ensures match Decode(old(Ahead()))
              case None => r == None
              case Some(Read(item, used)) => r == Some(item) && pos == old(pos) + used
      decreases |data| - pos, 0
    {
      if pos >= |data| {
        return None;
      }
      ghost var ahead := Ahead();
      var fmt := data[pos];
      pos := pos + 1;
      assert Ahead() == ahead[1..];
      var length := ReadLength();
      if length.None? {
        return None;
      }
      var count := length.value;
      ghost var h := Secs.ReadLength(ahead[1..]).value.used;
      assert Ahead() == ahead[1 + h..];
      if fmt == 0x00 {
        var items := DecodeItems(count);
        return if items.None? then None else Some(L(items.value));
      }
      var leaf := LeafOf(fmt);
      if leaf.None? {
        return None;
      }
      var raw := Take(count * Stride(leaf.value));
      if raw.None? {
        return None;
      }
      match leaf.value
      case B(_) => r := Some(B(raw.value));
      case Boolean(_) =>
        var flags := DecodeFlags(raw.value);
        r := Some(Boolean(flags));
      case A(_) => r := Some(A(Utf8.Lossy(raw.value)));
      case Num(k, _) =>
        var vals := DecodeNums(k, raw.value, count);
        r := Some(Num(k, vals));
    }

    /** The list arm's loop. */
    method DecodeItems(count: nat) returns (r: Option<seq<Item>>)
      requires Valid()
      modifies this
      ensures Valid() && old(pos) <= pos
      ensures match DecodeAll(old(Ahead()), count)
              case None => r == None
              case Some(Read(items, used)) => r == Some(items) && pos == old(pos) + used
      decreases |data| - pos, 1
    {
      hide Decode;
      var items := [];
      ghost var start, total := pos, Remaining(Ahead(), count);
      FollowingNothing(total);
      for j := 0 to count
        invariant Valid() && start <= pos && |items| == j
        invariant total == Following(items, pos - start, Remaining(Ahead(), count - j))
      {
        ghost var here, at := Ahead(), pos;
        ListLoopStep(total, items, at - start, here, count - j);
        var item := DecodeItem();
        if item.None? {
          return None;
        }
        assert here[pos - at..] == Ahead();
        items := items + [item.value];
      }
      ListLoopEnd(items, pos - start, Ahead());
      r := Some(items);
    }
  }
}
