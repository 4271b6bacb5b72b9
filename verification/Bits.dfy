/** Numbers as bits, most significant first. */
module Bits {

  function Bit(b: bool): nat {
    if b then 1 else 0
  }

  function Pow2(n: nat): (r: nat)
    ensures r > 0
  {
    if n == 0 then 1 else 2 * Pow2(n - 1)
  }

  lemma {:induction false} Pow2Grows(n: nat, m: nat)
    requires n <= m
    ensures Pow2(n) <= Pow2(m)
    decreases m
  {
    if n < m {
      Pow2Grows(n, m - 1);
    }
  }

  function FromBits(bits: seq<bool>): nat
    decreases |bits|
  {
    if |bits| == 0 then 0 else 2 * FromBits(bits[..|bits| - 1]) + if bits[|bits| - 1] then 1 else 0
  }

  /** The low n bits of x. */
  function ToBits(x: nat, n: nat): (r: seq<bool>)
    ensures |r| == n
    decreases n
  {
    if n == 0 then [] else ToBits(x / 2, n - 1) + [x % 2 == 1]
  }

  lemma {:induction false} BitsRoundTrip(x: nat, n: nat)
    requires x < Pow2(n)
    ensures FromBits(ToBits(x, n)) == x
    decreases n
  {
    if n > 0 {
      BitsRoundTrip(x / 2, n - 1);
      var r := ToBits(x, n);
      assert r[..n - 1] == ToBits(x / 2, n - 1);
    }
  }

  lemma Doubled(x: int, p: int, y: int, z: int, w: int)
    requires z == x * p + y
    ensures 2 * z + w == x * (2 * p) + (2 * y + w)
  {
  }

  lemma {:induction false} FromBitsConcat(a: seq<bool>, b: seq<bool>)
    ensures FromBits(a + b) == FromBits(a) * Pow2(|b|) + FromBits(b)
    decreases |b|
  {
    if |b| == 0 {
      assert a + b == a;
    } else {
      var n := |b| - 1;
      var c := b[..n];
      FromBitsConcat(a, c);
      ConcatStep(a, c, b[n]);
      assert b == c + [b[n]];
    }
  }

  lemma ConcatStep(a: seq<bool>, c: seq<bool>, e: bool)
    requires FromBits(a + c) == FromBits(a) * Pow2(|c|) + FromBits(c)
    ensures FromBits(a + (c + [e])) == FromBits(a) * Pow2(|c| + 1) + FromBits(c + [e])
  {
    assert a + (c + [e]) == (a + c) + [e];
    FromBitsAppend(a + c, e);
    FromBitsAppend(c, e);
    Doubled(FromBits(a), Pow2(|c|), FromBits(c), FromBits(a + c), if e then 1 else 0);
  }

  lemma {:induction false} FromBitsBound(bits: seq<bool>)
    ensures FromBits(bits) < Pow2(|bits|)
    decreases |bits|
  {
    if |bits| > 0 {
      FromBitsBound(bits[..|bits| - 1]);
    }
  }

  lemma FromBitsAppend(bits: seq<bool>, b: bool)
    ensures FromBits(bits + [b]) == 2 * FromBits(bits) + if b then 1 else 0
  {
    assert (bits + [b])[..|bits|] == bits;
  }

  lemma Pow2Eight()
    ensures Pow2(8) == 256 && Pow2(16) == 65536
  {
    assert Pow2(4) == 16;
    assert Pow2(8) == 16 * Pow2(4);
    assert Pow2(12) == 16 * Pow2(8);
    assert Pow2(16) == 16 * Pow2(12);
  }
}
