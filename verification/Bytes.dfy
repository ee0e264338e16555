// Bytes, little-endian integers and the two result types the other modules share.
module Bytes {
  datatype Option<+T> = None | Some(value: T)

  datatype Result<+T, +E> = Ok(value: T) | Err(error: E)

  type Byte = b: int | 0 <= b < 256

  const HASH_LEN := 32

  // A 32-byte script or block hash.
  type Hash = h: seq<Byte> | |h| == HASH_LEN witness seq(HASH_LEN, _ => 0)

  const U32_MAX: nat := 0xFFFF_FFFF
  const U64_MAX: nat := 0xFFFF_FFFF_FFFF_FFFF
  const U128_MAX: nat := 0xFFFF_FFFF_FFFF_FFFF_FFFF_FFFF_FFFF_FFFF

  function Pow256(n: nat): (p: nat)
    ensures p > 0
  {
    if n == 0 then 1 else 256 * Pow256(n - 1)
  }

  // The `width` low-order bytes of v, least significant first.
  function ToLE(v: nat, width: nat): (bs: seq<Byte>)
    ensures |bs| == width
  {
    if width == 0 then [] else [v % 256] + ToLE(v / 256, width - 1)
  }

  function FromLE(bs: seq<Byte>): nat {
    if bs == [] then 0 else bs[0] + 256 * FromLE(bs[1..])
  }

  lemma {:induction false} FromLEBound(bs: seq<Byte>)
    ensures FromLE(bs) < Pow256(|bs|)
  {
    if bs != [] {
      FromLEBound(bs[1..]);
    }
  }

  // Encoding an integer that fits loses nothing.
  lemma {:induction false} FromToLE(v: nat, width: nat)
    requires v < Pow256(width)
    ensures FromLE(ToLE(v, width)) == v
  {
    if width > 0 {
      FromToLE(v / 256, width - 1);
      assert ToLE(v, width)[1..] == ToLE(v / 256, width - 1);
    }
  }

  // Every byte string is the encoding of the integer it denotes.
  lemma {:induction false} ToFromLE(bs: seq<Byte>)
    ensures ToLE(FromLE(bs), |bs|) == bs
  {
    if bs != [] {
      var v := FromLE(bs);
      ToFromLE(bs[1..]);
      DivUnique(v, 256, FromLE(bs[1..]), bs[0]);
      assert v % 256 == bs[0] && v / 256 == FromLE(bs[1..]);
      assert bs == [bs[0]] + bs[1..];
    }
  }

  // The i-th byte of an encoding is the i-th digit of the integer to the base 256, least significant first.
  lemma {:induction false} DigitAt(v: nat, width: nat, i: nat)
    requires i < width
    ensures ToLE(v, width)[i] == v / Pow256(i) % 256
  {
    if i > 0 {
      DigitAt(v / 256, width - 1, i - 1);
      DivDiv(v, 256, Pow256(i - 1));
      assert ToLE(v, width)[i] == ToLE(v / 256, width - 1)[i - 1];
    }
  }

  lemma DivDiv(v: nat, a: nat, b: nat)
    requires a > 0 && b > 0
    ensures a * b > 0 && v / a / b == v / (a * b)
  {
    var q, r := v / a, v % a;
    var p, t := q / b, q % b;
    assert v == a * (b * p + t) + r;
    assert a * (b * p + t) == (a * b) * p + a * t by { MulShare(a, b, p, t); }
    assert a * t + r < a * b by { MulBelow(a, b, t, r); }
    DivUnique(v, a * b, p, a * t + r);
  }

  lemma MulShare(a: nat, b: nat, p: nat, t: nat)
    ensures a * (b * p + t) == (a * b) * p + a * t
  {
    assert a * (b * p + t) == a * (b * p) + a * t;
    assert a * (b * p) == (a * b) * p;
  }

  lemma MulBelow(a: nat, b: nat, t: nat, r: nat)
    requires t < b && r < a
    ensures 0 <= a * t + r < a * b
  {
    assert a * (t + 1) <= a * b;
  }

  lemma DivUnique(v: nat, d: nat, q: nat, r: nat)
    requires d > 0 && v == d * q + r && r < d
    ensures v / d == q
  {
    var x := v / d;
    assert v == d * x + v % d;
    assert x < q ==> d * (x + 1) <= d * q;
    assert x > q ==> d * (q + 1) <= d * x;
  }

  lemma WidthLimits()
    ensures Pow256(4) == U32_MAX + 1
    ensures Pow256(8) == U64_MAX + 1
    ensures Pow256(16) == U128_MAX + 1
  {
    assert Pow256(4) == 256 * (256 * (256 * (256 * Pow256(0))));
    assert Pow256(8) == 256 * (256 * (256 * (256 * Pow256(4))));
    assert Pow256(12) == 256 * (256 * (256 * (256 * Pow256(8))));
    assert Pow256(16) == 256 * (256 * (256 * (256 * Pow256(12))));
  }
}
