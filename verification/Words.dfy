// Bytes, words and the bit-level operators of C that the simulator applies to them.

/** Bounded integers stand for the simulator's bytes and 16-bit words. Bits are read by
    floor division, which on a negative integer gives the bits of its two's complement. */
module Words {
  type Byte = x: int | 0 <= x < 0x100
  type Word = x: int | 0 <= x < 0x1_0000

  /** The 32-bit unsigned integer that `x` wraps to. */
  function Mod32(x: int): (r: int)
    ensures 0 <= r < 0x1_0000_0000
  {
    x % 0x1_0000_0000
  }

  /** Bit `m` (a power of two) of `x` as 0 or 1, so `x & m` is nonzero exactly when this is 1. */
  function Bit(x: int, m: int): (b: int)
    requires m > 0
  {
    (x / m) % 2
  }

  predicate Has(x: int, m: int)
    requires m > 0
  {
    Bit(x, m) == 1
  }

  /** `x | m` and `x & ~m` for a one-bit mask. */
  function Set(x: int, m: int): int
    requires m > 0
  {
    if Has(x, m) then x else x + m
  }

  function Clear(x: int, m: int): int
    requires m > 0
  {
    if Has(x, m) then x - m else x
  }

  /** `(x & ~m) | (y & m)` for a one-bit mask. */
  function Copy(x: int, y: int, m: int): int
    requires m > 0
  {
    if Has(y, m) then Set(x, m) else Clear(x, m)
  }

  datatype Bitwise = AND | OR | XOR

  function Combine(op: Bitwise, p: int, q: int): (r: int)
    requires 0 <= p < 2 && 0 <= q < 2
  {
    match op
    case AND => if p == 1 && q == 1 then 1 else 0
    case OR => if p == 1 || q == 1 then 1 else 0
    case XOR => if p != q then 1 else 0
  }

  /** The C operators `&`, `|` and `^` on the low `k` bits. */
  function Bits(op: Bitwise, x: nat, y: nat, k: nat): (r: nat)
    decreases k
  {
    if k == 0 then 0 else Combine(op, x % 2, y % 2) + 2 * Bits(op, x / 2, y / 2, k - 1)
  }

  function Pow2(k: nat): (p: nat)
    ensures p > 0
    decreases k
  {
    if k == 0 then 1 else 2 * Pow2(k - 1)
  }

  lemma {:induction false} BitsBound(op: Bitwise, x: nat, y: nat, k: nat)
    ensures Bits(op, x, y, k) < Pow2(k)
    decreases k
  {
    if k > 0 {
      BitsBound(op, x / 2, y / 2, k - 1);
    }
  }

  /** A bitwise operator on two bytes. */
  function ByteOp(op: Bitwise, x: Byte, y: Byte): (r: Byte)
  {
    BitsBound(op, x, y, 8);
    assert Pow2(8) == 0x100;
    Bits(op, x, y, 8)
  }

  /** Every bit of a bitwise result is that operator on the operands' bits. */
  lemma {:induction false} BitsBit(op: Bitwise, x: nat, y: nat, k: nat, i: nat)
    requires i < k
    ensures Bit(Bits(op, x, y, k), Pow2(i)) == Combine(op, Bit(x, Pow2(i)), Bit(y, Pow2(i)))
    decreases k
  {
    var r := Bits(op, x / 2, y / 2, k - 1);
    var b := Combine(op, x % 2, y % 2);
    if i == 0 {
      assert Bit(b + 2 * r, 1) == b;
    } else {
      BitsBit(op, x / 2, y / 2, k - 1, i - 1);
      HalfBit(x, i);
      HalfBit(y, i);
      assert (b + 2 * r) / 2 == r;
      HalfBit(b + 2 * r, i);
    }
  }

  lemma HalfBit(x: nat, i: nat)
    requires i > 0
    ensures Bit(x, Pow2(i)) == Bit(x / 2, Pow2(i - 1))
  {
    HalfDiv(x, Pow2(i - 1));
  }

  lemma HalfDiv(x: nat, p: nat)
    requires p > 0
    ensures x / (2 * p) == (x / 2) / p
  {
    var q, r := (x / 2) / p, (x / 2) % p;
    assert x / 2 == p * q + r;
    var m := p * q;
    assert x == 2 * m + (2 * r + x % 2);
    assert (2 * p) * q == 2 * m;
    DivUnique(x, 2 * p, q, 2 * r + x % 2);
  }

  lemma DivUnique(x: int, d: int, q: int, r: int)
    requires d > 0 && x == d * q + r && 0 <= r < d
    ensures x / d == q && x % d == r
  {
    var q1, r1 := x / d, x % d;
    assert d * (q - q1) == r1 - r;
    MulAway(d, q - q1);
  }

  lemma MulAway(d: int, k: int)
    requires d > 0
    ensures k >= 1 ==> d * k >= d
    ensures k <= -1 ==> d * k <= -d
  {
  }

  /** Two's-complement reading of a byte, `(s_char)` in the source. */
  function Signed8(x: Byte): (r: int)
    ensures -128 <= r < 128
  {
    if x < 0x80 then x else x - 0x100
  }

  function Hi(w: Word): Byte { w / 0x100 }
  function Lo(w: Word): Byte { w % 0x100 }
  function Join(hi: Byte, lo: Byte): Word { hi * 0x100 + lo }

  lemma JoinHiLo(w: Word)
    ensures Join(Hi(w), Lo(w)) == w
  {
  }

  /** Adding to a reduced counter and reducing again. */
  lemma AddMod(x: nat, n: nat)
    ensures (x % 0x1_0000 + n) % 0x1_0000 == (x + n) % 0x1_0000
  {
  }
}

/** What runs of steps and queues have in common. */
module Sequences {
  /** The length of a run of steps. */
  function Total(ns: seq<nat>): nat
  {
    if |ns| == 0 then 0 else Total(ns[..|ns| - 1]) + ns[|ns| - 1]
  }

  /** One step of a queue: `out` leaves and `more` arrives. */
  lemma QueueStep<T>(outs: seq<T>, out: seq<T>, now: seq<T>, first: seq<T>, ins: seq<T>, more: seq<T>, before: seq<T>)
    requires outs + before == first + ins && out + now == before + more
    ensures (outs + out) + now == first + (ins + more)
  {
    assert (outs + out) + now == outs + (out + now) == (outs + before) + more == (first + ins) + more;
  }
}
