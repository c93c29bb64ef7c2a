/** Options, results, and big-endian byte strings shared by every component. */
module Basics {

  datatype Option<+T> = None | Some(value: T)

  datatype Result<+T, +E> = Ok(value: T) | Err(error: E)

  type byte = b: int | 0 <= b < 256

  type bytes = seq<byte>

  type u32 = n: int | 0 <= n < 0x1_0000_0000

  function Pow256(n: nat): (p: nat)
    ensures p > 0
  {
    if n == 0 then 1 else 256 * Pow256(n - 1)
  }

  /** `to_be_bytes`: the low `n` bytes of `v`, most significant first. */
  function BigEndian(n: nat, v: nat): (bs: bytes)
    ensures |bs| == n
  {
    if n == 0 then [] else BigEndian(n - 1, v / 256) + [v % 256]
  }

  /** `from_be_bytes`. */
  function FromBigEndian(bs: bytes): nat {
    if bs == [] then 0 else FromBigEndian(bs[..|bs| - 1]) * 256 + bs[|bs| - 1]
  }

  lemma {:induction false} FromOfBigEndian(n: nat, v: nat)
    requires v < Pow256(n)
    ensures FromBigEndian(BigEndian(n, v)) == v
  {
    if n > 0 {
      FromOfBigEndian(n - 1, v / 256);
      assert BigEndian(n, v)[..n - 1] == BigEndian(n - 1, v / 256);
    }
  }

  lemma {:induction false} BigEndianOfFrom(bs: bytes)
    ensures FromBigEndian(bs) < Pow256(|bs|)
    ensures BigEndian(|bs|, FromBigEndian(bs)) == bs
  {
    if bs != [] {
      BigEndianOfFrom(bs[..|bs| - 1]);
      assert bs == bs[..|bs| - 1] + [bs[|bs| - 1]];
    }
  }

  lemma MultipleSize(d: nat, k: int)
    ensures k >= 1 ==> d * k >= d
    ensures k <= -1 ==> d * k <= -1 * d
  {
    if k >= 1 {
      assert d * (k - 1) >= 0;
    } else if k <= -1 {
      assert d * (-1 - k) >= 0;
    }
  }

  lemma Quotient(v: nat, d: nat, q: nat, r: nat)
    requires r < d && v == d * q + r
    ensures v / d == q
  {
    var k := v / d - q;
    assert d * k == r - v % d;
    MultipleSize(d, k);
  }

  lemma DivideTwice(v: nat, p: nat)
    requires p > 0
    ensures v / 256 / p == v / (256 * p)
  {
    var u := v / 256;
    var q, r := u / p, u % p;
    assert 256 * (p * q) == 256 * p * q;
    Quotient(v, 256 * p, q, 256 * r + v % 256);
  }

  /** The byte order: byte `i` is the digit of `v` to base 256 with `n - 1 - i` digits after it. */
  lemma {:induction false} BigEndianAt(n: nat, v: nat, i: nat)
    requires i < n
    ensures BigEndian(n, v)[i] == v / Pow256(n - 1 - i) % 256
  {
    if i < n - 1 {
      BigEndianAt(n - 1, v / 256, i);
      DivideTwice(v, Pow256(n - 2 - i));
    }
  }

  lemma TwoBytes(v: nat)
    requires v < 0x1_0000
    ensures BigEndian(2, v) == [v / 256, v % 256]
  {
    assert Pow256(1) == 256 && Pow256(0) == 1;
    BigEndianAt(2, v, 0);
    BigEndianAt(2, v, 1);
    hide BigEndian, Pow256;
  }

  /** The value of the bytes, the first one weighing most. */
  function Weighed(bs: bytes): nat {
    if bs == [] then 0 else bs[0] * Pow256(|bs| - 1) + Weighed(bs[1..])
  }

  lemma {:induction false} WeighedAppend(bs: bytes, b: byte)
    ensures Weighed(bs + [b]) == Weighed(bs) * 256 + b
  {
    if bs != [] {
      WeighedAppend(bs[1..], b);
      assert (bs + [b])[1..] == bs[1..] + [b];
    } else {
      assert (bs + [b])[1..] == [];
    }
  }

  lemma {:induction false} FromBigEndianWeighs(bs: bytes)
    ensures FromBigEndian(bs) == Weighed(bs)
  {
    if bs != [] {
      FromBigEndianWeighs(bs[..|bs| - 1]);
      WeighedAppend(bs[..|bs| - 1], bs[|bs| - 1]);
      assert bs == bs[..|bs| - 1] + [bs[|bs| - 1]];
    }
  }

  /** Concatenation of a sequence of sequences. */
  function Flatten<T>(parts: seq<seq<T>>): seq<T> {
    if parts == [] then [] else parts[0] + Flatten(parts[1..])
  }
}
