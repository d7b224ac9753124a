/** Fixed-width unsigned integers as bytes, in either order. */
module Bytes {
  import opened Basics

  function Pow256(n: nat): (r: nat)
    ensures r > 0
  {
    if n == 0 then 1 else 256 * Pow256(n - 1)
  }

  function EncodeLE(v: nat, n: nat): (r: seq<byte>)
    ensures |r| == n
  {
    if n == 0 then [] else [(v % 256) as byte] + EncodeLE(v / 256, n - 1)
  }

  function DecodeLE(s: seq<byte>): nat {
    if s == [] then 0 else s[0] as nat + 256 * DecodeLE(s[1..])
  }

  function EncodeBE(v: nat, n: nat): (r: seq<byte>)
    ensures |r| == n
  {
    if n == 0 then [] else EncodeBE(v / 256, n - 1) + [(v % 256) as byte]
  }

  function DecodeBE(s: seq<byte>): nat {
    if s == [] then 0 else DecodeBE(s[..|s| - 1]) * 256 + s[|s| - 1] as nat
  }

  lemma {:induction false} RoundTripLE(v: nat, n: nat)
    requires v < Pow256(n)
    ensures DecodeLE(EncodeLE(v, n)) == v
  {
    if n == 0 {
    } else {
      RoundTripLE(v / 256, n - 1);
      assert EncodeLE(v, n)[1..] == EncodeLE(v / 256, n - 1);
    }
  }

  lemma {:induction false} RoundTripBE(v: nat, n: nat)
    requires v < Pow256(n)
    ensures DecodeBE(EncodeBE(v, n)) == v
  {
    if n == 0 {
    } else {
      RoundTripBE(v / 256, n - 1);
      assert EncodeBE(v, n)[..n - 1] == EncodeBE(v / 256, n - 1);
    }
  }

  /** Little-endian: the byte at `i` stands for the `i`-th power of 256. */
  lemma {:induction false} LowByteFirst(v: nat, n: nat, i: nat)
    requires i < n
    ensures EncodeLE(v, n)[i] as nat == v / Pow256(i) % 256
  {
    if i == 0 {
    } else {
      LowByteFirst(v / 256, n - 1, i - 1);
      DivideTwice(v, Pow256(i - 1));
      assert EncodeLE(v, n)[i] == EncodeLE(v / 256, n - 1)[i - 1];
    }
  }

  /** Big-endian: the byte at `i` from the end does. */
  lemma {:induction false} HighByteFirst(v: nat, n: nat, i: nat)
    requires i < n
    ensures EncodeBE(v, n)[n - 1 - i] as nat == v / Pow256(i) % 256
  {
    if i == 0 {
    } else {
      HighByteFirst(v / 256, n - 1, i - 1);
      DivideTwice(v, Pow256(i - 1));
      assert EncodeBE(v, n)[n - 1 - i] == EncodeBE(v / 256, n - 1)[n - 1 - i];
    }
  }

  lemma DivideTwice(v: nat, d: nat)
    requires d > 0
    ensures v / 256 / d == v / (256 * d)
  {
    var q, r := v / 256, v % 256;
    var a, b := q / d, q % d;
    assert v == 256 * (a * d + b) + r;
    assert 256 * (a * d + b) == a * (256 * d) + 256 * b;
    assert 0 <= 256 * b + r < 256 * d;
    QuotientIs(v, 256 * d, a, 256 * b + r);
  }

  lemma QuotientIs(v: nat, d: nat, a: nat, r: nat)
    requires d > 0 && r < d && v == a * d + r
    ensures v / d == a
  {
    var q, t := v / d, v % d;
    assert v == q * d + t;
    assert (q - a) * d == q * d - a * d;
    if q != a {
      FarFromZero(q - a, d);
      assert false;
    }
  }

  lemma FarFromZero(x: int, d: nat)
    requires x != 0
    ensures x * d >= d || x * d + d <= 0
  {
    if x > 0 {
      assert (x - 1) * d >= 0 && x * d == (x - 1) * d + d;
    } else {
      assert (-1 - x) * d >= 0 && x * d == -((-1 - x) * d) - d;
    }
  }

  lemma {:induction false} BytesBackBE(s: seq<byte>)
    ensures DecodeBE(s) < Pow256(|s|)
    ensures EncodeBE(DecodeBE(s), |s|) == s
  {
    if s == [] {
    } else {
      BytesBackBE(s[..|s| - 1]);
    }
  }
}
