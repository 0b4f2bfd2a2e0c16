// Single bits of bytes, and bytes as bit streams.

/** Bytes as bit streams, most significant bit first. */
module BitStream {
  import opened Words

  function FromBits(bits: seq<bool>): (v: nat)
  {
    if |bits| == 0 then 0 else 2 * FromBits(bits[..|bits| - 1]) + if bits[|bits| - 1] then 1 else 0
  }

  /** The low `n` bits of `x`. */
  function ToBits(x: nat, n: nat): (bits: seq<bool>)
    ensures |bits| == n
    decreases n
  {
    if n == 0 then [] else ToBits(x / 2, n - 1) + [x % 2 == 1]
  }

  function ByteBits(v: nat): (bits: seq<bool>)
    ensures |bits| == 8
  {
    ToBits(v, 8)
  }

  lemma {:induction false} FromBitsBound(bits: seq<bool>)
    ensures FromBits(bits) < Pow2(|bits|)
  {
    if |bits| > 0 {
      FromBitsBound(bits[..|bits| - 1]);
    }
  }

  lemma {:induction false} ToThenFrom(x: nat, n: nat)
    requires x < Pow2(n)
    ensures FromBits(ToBits(x, n)) == x
    decreases n
  {
    if n > 0 {
      ToThenFrom(x / 2, n - 1);
      assert ToBits(x, n)[..n - 1] == ToBits(x / 2, n - 1);
    }
  }

  lemma {:induction false} FromThenTo(bits: seq<bool>)
    ensures ToBits(FromBits(bits), |bits|) == bits
  {
    if |bits| > 0 {
      FromThenTo(bits[..|bits| - 1]);
    }
  }

  lemma {:induction false} ToBitsAt(x: nat, n: nat, i: nat)
    requires i < n
    ensures ToBits(x, n)[i] <==> Has(x, Pow2(n - 1 - i))
    decreases n
  {
    if i == n - 1 {
      assert Pow2(0) == 1;
    } else {
      ToBitsAt(x / 2, n - 1, i);
      HalfBit(x, n - 1 - i);
    }
  }

  /** `x` with bit `j` set or cleared. */
  function WithBit(x: nat, j: nat, v: bool): int
  {
    if v then Set(x, Pow2(j)) else Clear(x, Pow2(j))
  }

  lemma WithBitHalf(x: nat, j: nat, v: bool)
    requires j > 0
    ensures WithBit(x / 2, j - 1, v) >= 0 ==> WithBit(x, j, v) == 2 * WithBit(x / 2, j - 1, v) + x % 2
  {
    HalfBit(x, j);
    hide Bit;
  }

  /** Setting or clearing a bit changes that bit alone. */
  lemma {:induction false} WithBitAt(x: nat, j: nat, v: bool, k: nat)
    ensures WithBit(x, j, v) >= 0
    ensures Has(WithBit(x, j, v), Pow2(k)) <==> if j == k then v else Has(x, Pow2(k))
    decreases j
  {
    if j == 0 {
      FirstBit(x, v);
      assert Pow2(0) == 1;
      if k > 0 {
        HalfBit(x, k);
        HalfBit(WithBit(x, 0, v), k);
      }
    } else {
      WithBitAt(x / 2, j - 1, v, if k > 0 then k - 1 else 0);
      WithBitHalf(x, j, v);
      var y := WithBit(x, j, v);
      if k > 0 {
        HalfBit(x, k);
        HalfBit(y, k);
        assert y / 2 == WithBit(x / 2, j - 1, v);
      } else {
        assert Pow2(0) == 1;
        LowBit(x, WithBit(x / 2, j - 1, v));
      }
      hide WithBit;
    }
  }

  lemma FirstBit(x: nat, v: bool)
    ensures var y := WithBit(x, 0, v);
      y >= 0 && y / 2 == x / 2 && (y % 2 == 1 <==> v)
  {
    assert Pow2(0) == 1;
  }

  lemma LowBit(x: nat, h: nat)
    ensures Bit(2 * h + x % 2, 1) == Bit(x, 1)
  {
  }

  lemma {:induction false} WithBitBound(x: nat, j: nat, v: bool, n: nat)
    requires x < Pow2(n) && j < n
    ensures 0 <= WithBit(x, j, v) < Pow2(n)
    decreases n
  {
    if j == 0 {
      FirstBit(x, v);
    } else {
      WithBitBound(x / 2, j - 1, v, n - 1);
      WithBitHalf(x, j, v);
      hide WithBit;
    }
  }

  /** Numbers below 2^n with the same n bits are equal. */
  lemma {:induction false} SameBits(x: nat, y: nat, n: nat)
    requires x < Pow2(n) && y < Pow2(n)
    requires forall k: nat | k < n :: Has(x, Pow2(k)) == Has(y, Pow2(k))
    ensures x == y
    decreases n
  {
    if n > 0 {
      forall k: nat | k < n - 1 ensures Has(x / 2, Pow2(k)) == Has(y / 2, Pow2(k)) {
        HalfBit(x, k + 1);
        HalfBit(y, k + 1);
        assert Has(x, Pow2(k + 1)) == Has(y, Pow2(k + 1));
      }
      SameBits(x / 2, y / 2, n - 1);
      assert Has(x, Pow2(0)) == Has(y, Pow2(0));
      assert Pow2(0) == 1;
    }
  }
}
