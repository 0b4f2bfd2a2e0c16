// Multi-byte numbers: what chains of adc, sbc, adc/daa and shifts compute
// (src/arch/m68xx/alu.c addbyte, subbyte, shlbyte, shrbyte; src/arch/m68xx/opfunc.c daa_inh).

module Arithmetic {
  import opened Words
  import opened Alu
  import opened Optab
  import opened Machine

  // ---- numbers ----

  /** `b` to the power `n`. */
  function Power(b: nat, n: nat): (p: nat)
    requires b > 0
    ensures p > 0
    decreases n
  {
    if n == 0 then 1 else b * Power(b, n - 1)
  }

  /** The value of big-endian bytes, the least significant one last. */
  function Value(bs: seq<Byte>): nat
  {
    if |bs| == 0 then 0 else 0x100 * Value(bs[..|bs| - 1]) + bs[|bs| - 1]
  }

  function Digits(b: Byte): nat { b / 0x10 * 10 + b % 0x10 }

  /** The value of big-endian bytes of two decimal digits each. */
  function DecValue(bs: seq<Byte>): nat
  {
    if |bs| == 0 then 0 else 100 * DecValue(bs[..|bs| - 1]) + Digits(bs[|bs| - 1])
  }

  predicate IsPacked(b: Byte) { b / 0x10 <= 9 && b % 0x10 <= 9 }

  // ---- one byte of each chain ----

  datatype Kernel = ADC_ | SBC_ | ADC_DAA | ROL_

  datatype Out = Out(z: Byte, c: bool)

  /** What the accumulator or memory byte and C become when the instructions of one step run on
      bytes `x` and `y` with carry `c`. The flags other than C do not matter. */
  function Apply(k: Kernel, x: Byte, y: Byte, c: bool): Out
  {
    match k
    case ADC_ => Out((x + y + One(c, 1)) % 0x100, x + y + One(c, 1) >= 0x100)
    case SBC_ => Out((x - y - One(c, 1)) % 0x100, x < y + One(c, 1))
    case ADC_DAA => Daa(x, y, c)
    case ROL_ => Out(ShiftLeft(x, c, 0x100), x >= 0x80)
  }

  /** adca then daa. */
  function Daa(x: Byte, y: Byte, c: bool): Out
  {
    Adjusted(x + y + One(c, 1), x % 0x10 + y % 0x10 + One(c, 1) >= 0x10)
  }

  /** daa after an addition with sum `s` and half carry `h`. */
  function Adjusted(s: nat, h: bool): Out
  {
    var f := Flags(s >= 0x100, false, false, false, false, h);
    Out(DaaSum(s % 0x100, f) % 0x100, f.c || Has(DaaSum(s % 0x100, f), 0x100))
  }

  // ---- chains ----

  datatype Result = Result(zs: seq<Byte>, c: bool)

  /** The step repeated from the least significant byte, passing C along. */
  function Chain(k: Kernel, xs: seq<Byte>, ys: seq<Byte>, c: bool): (r: Result)
    requires |xs| == |ys|
    ensures |r.zs| == |xs|
  {
    var n := |xs|;
    if n == 0 then Result([], c)
    else
      var o := Apply(k, xs[n - 1], ys[n - 1], c);
      var r := Chain(k, xs[..n - 1], ys[..n - 1], o.c);
      Result(r.zs + [o.z], r.c)
  }

  lemma ChainSplit(k: Kernel, xs: seq<Byte>, ys: seq<Byte>, c: bool)
    requires |xs| == |ys| > 0
    ensures var n := |xs| - 1;
      var o := Apply(k, xs[n], ys[n], c);
      var r := Chain(k, xs[..n], ys[..n], o.c);
      var all := Chain(k, xs, ys, c);
      all.zs[..n] == r.zs && all.zs[n] == o.z && all.c == r.c && |all.zs| == n + 1
  {
  }

  /** An n-byte addition: sum modulo 256^n in the result and the true carry in C. */
  lemma {:induction false} AddChain(xs: seq<Byte>, ys: seq<Byte>, c: bool)
    requires |xs| == |ys|
    ensures var r := Chain(ADC_, xs, ys, c);
      Value(r.zs) + Power(0x100, |xs|) * One(r.c, 1) == Value(xs) + Value(ys) + One(c, 1)
  {
    if |xs| > 0 {
      var n := |xs| - 1;
      ChainSplit(ADC_, xs, ys, c);
      AddChain(xs[..n], ys[..n], Apply(ADC_, xs[n], ys[n], c).c);
      AddOne(xs[n], ys[n], c);
      var r := Chain(ADC_, xs, ys, c);
      PowerTimes(0x100, n, One(r.c, 1));
      ValueSplit(xs, ys, r.zs);
      hide Chain, Power, Value, Apply, One;
    }
  }

  lemma AddOne(x: Byte, y: Byte, c: bool)
    ensures var o := Apply(ADC_, x, y, c); o.z + 0x100 * One(o.c, 1) == x + y + One(c, 1)
  {
  }

  lemma ValueSplit(xs: seq<Byte>, ys: seq<Byte>, zs: seq<Byte>)
    requires |xs| == |ys| == |zs| > 0
    ensures var n := |xs| - 1;
      && Value(xs) == 0x100 * Value(xs[..n]) + xs[n]
      && Value(ys) == 0x100 * Value(ys[..n]) + ys[n]
      && Value(zs) == 0x100 * Value(zs[..n]) + zs[n]
  {
  }

  lemma PowerTimes(b: nat, n: nat, d: int)
    requires b > 0
    ensures Power(b, n + 1) * d == b * (Power(b, n) * d)
  {
  }

  /** An n-byte subtraction: difference modulo 256^n in the result and the true borrow in C. */
  lemma {:induction false} SubChain(xs: seq<Byte>, ys: seq<Byte>, c: bool)
    requires |xs| == |ys|
    ensures var r := Chain(SBC_, xs, ys, c);
      Value(r.zs) == Value(xs) - Value(ys) - One(c, 1) + Power(0x100, |xs|) * One(r.c, 1)
  {
    if |xs| > 0 {
      var n := |xs| - 1;
      ChainSplit(SBC_, xs, ys, c);
      SubChain(xs[..n], ys[..n], Apply(SBC_, xs[n], ys[n], c).c);
      SubOne(xs[n], ys[n], c);
      var r := Chain(SBC_, xs, ys, c);
      PowerTimes(0x100, n, One(r.c, 1));
      ValueSplit(xs, ys, r.zs);
      hide Chain, Power, Value, Apply, One;
    }
  }

  lemma SubOne(x: Byte, y: Byte, c: bool)
    ensures var o := Apply(SBC_, x, y, c); o.z == x - y - One(c, 1) + 0x100 * One(o.c, 1)
  {
  }

  /** Doubling: C enters at the bottom and the bit shifted out of the top is in C. */
  lemma {:induction false} ShiftLeftChain(xs: seq<Byte>, ys: seq<Byte>, c: bool)
    requires |xs| == |ys|
    ensures var r := Chain(ROL_, xs, ys, c);
      Value(r.zs) + Power(0x100, |xs|) * One(r.c, 1) == 2 * Value(xs) + One(c, 1)
  {
    if |xs| > 0 {
      var n := |xs| - 1;
      ChainSplit(ROL_, xs, ys, c);
      ShiftLeftChain(xs[..n], ys[..n], Apply(ROL_, xs[n], ys[n], c).c);
      var r := Chain(ROL_, xs, ys, c);
      PowerTimes(0x100, n, One(r.c, 1));
      ValueSplit(xs, ys, r.zs);
      RolOne(xs[n], ys[n], c);
      hide Chain, Power, Value, Apply, One;
    }
  }

  lemma RolOne(x: Byte, y: Byte, c: bool)
    ensures var o := Apply(ROL_, x, y, c); o.z + 0x100 * One(o.c, 1) == 2 * x + One(c, 1)
  {
    TopBit(x, 0x100);
  }

  // ---- decimal ----

  /** The bytes that daa gets wrong: tens digits that sum to 15 and units, with the carry in,
      that sum to 10 to 15. */
  predicate DaaShort(x: Byte, y: Byte, c: bool)
  {
    x / 0x10 + y / 0x10 == 15 && 10 <= x % 0x10 + y % 0x10 + One(c, 1) <= 15
  }

  /** adca/daa on two packed bytes: the carry out is always the decimal carry; the byte is the
      right pair of digits, except that in exactly the short cases it is 0x60 too small. */
  lemma DaaByte(x: Byte, y: Byte, c: bool)
    requires IsPacked(x) && IsPacked(y)
    ensures var o := Daa(x, y, c);
      var sum := Digits(x) + Digits(y) + One(c, 1);
      && (o.c <==> sum >= 100)
      && o.z == sum % 100 / 10 * 0x10 + sum % 10 - One(DaaShort(x, y, c), 0x60)
      && IsPacked(o.z) && Digits(o.z) == sum - One(o.c, 100) - One(DaaShort(x, y, c), 60)
  {
    var t, u := x / 0x10 + y / 0x10, x % 0x10 + y % 0x10 + One(c, 1);
    assert x + y + One(c, 1) == 0x10 * t + u && Digits(x) + Digits(y) + One(c, 1) == 10 * t + u;
    assert 0 <= t <= 18 && 0 <= u <= 19;
    assert DaaShort(x, y, c) == Short(t, u);
    assert Daa(x, y, c) == Adjusted(0x10 * t + u, u >= 0x10);
    hide Daa, DaaShort, Adjusted, IsPacked, Digits;
    DaaSums(t, u);
  }

  predicate Short(t: int, u: int) { t == 15 && 10 <= u <= 15 }

  lemma DaaSums(t: int, u: int)
    requires 0 <= t <= 18 && 0 <= u <= 19
    ensures var o := Adjusted(0x10 * t + u, u >= 0x10);
      var sum := 10 * t + u;
      && (o.c <==> sum >= 100)
      && o.z == sum % 100 / 10 * 0x10 + sum % 10 - One(Short(t, u), 0x60)
      && IsPacked(o.z) && Digits(o.z) == sum - One(o.c, 100) - One(Short(t, u), 60)
  {
    DaaBinary(t, u);
    DaaDecimal(t, u);
    hide Adjusted, IsPacked, Digits;
    PackedByte(t + UnitsCarry(u) - One(Carries(t, u), 10) - One(Short(t, u), 6), u - 10 * UnitsCarry(u));
  }

  function UnitsCarry(u: int): int { if u >= 10 then 1 else 0 }

  /** The decimal sum of tens digits `t` and units `u` reaches 100. */
  predicate Carries(t: int, u: int) { t + UnitsCarry(u) >= 10 }

  lemma PackedByte(t: int, u: int)
    requires 0 <= t <= 9 && 0 <= u <= 9
    ensures IsPacked(0x10 * t + u) && Digits(0x10 * t + u) == 10 * t + u
  {
  }

  /** Units and tens of the decimal sum, from the digit sums. */
  lemma DaaDecimal(t: int, u: int)
    requires 0 <= t <= 18 && 0 <= u <= 19
    ensures var sum := 10 * t + u;
      && (sum >= 100 <==> Carries(t, u))
      && sum % 10 == u - 10 * UnitsCarry(u)
      && sum % 100 / 10 == t + UnitsCarry(u) - One(Carries(t, u), 10)
  {
    var tens := t + UnitsCarry(u) - One(Carries(t, u), 10);
    var units := u - 10 * UnitsCarry(u);
    assert 10 * t + u == One(Carries(t, u), 100) + (10 * tens + units);
    assert (10 * t + u) % 100 == 10 * tens + units;
  }

  /** The binary steps of adca and daa, from the digit sums `t` and `u`. */
  lemma DaaBinary(t: int, u: int)
    requires 0 <= t <= 18 && 0 <= u <= 19
    ensures var o := Adjusted(0x10 * t + u, u >= 0x10);
      && (o.c <==> Carries(t, u))
      && o.z == 0x10 * (t + UnitsCarry(u) - One(Carries(t, u), 10)) + (u - 10 * UnitsCarry(u))
                - One(Short(t, u), 0x60)
  {
    var s := 0x10 * t + u;
    var r2, r := AdjustedSteps(s, u >= 0x10);
    hide Adjusted, Has;
    LowDigit(t, u, s % 0x100, r2);
    HighDigit(t, u, r2);
  }

  /** The two corrections of daa one after the other. */
  lemma AdjustedSteps(s: nat, h: bool) returns (r2: int, r: nat)
    requires s < 0x200
    ensures var r1 := s % 0x100 + One(h, 6); r2 == if r1 % 0x10 > 9 then r1 + 6 else r1
    ensures var r3 := r2 + One(s >= 0x100, 0x60); r == if r3 / 0x10 % 0x10 > 9 then r3 + 0x60 else r3
    ensures Adjusted(s, h) == Out(r % 0x100, s >= 0x100 || Has(r, 0x100))
  {
    hide Has;
    var r1 := s % 0x100 + One(h, 6);
    r2 := if r1 % 0x10 > 9 then r1 + 6 else r1;
    r := DaaSum(s % 0x100, Flags(s >= 0x100, false, false, false, false, h));
  }

  lemma LowDigit(t: int, u: int, a: int, r2: int)
    requires 0 <= t <= 18 && 0 <= u <= 19
    requires a == (0x10 * t + u) % 0x100
    requires var r1 := a + One(u >= 0x10, 6); r2 == if r1 % 0x10 > 9 then r1 + 6 else r1
    ensures r2 == 0x10 * t + u + One(u >= 10, 6) - One(0x10 * t + u >= 0x100, 0x100)
  {
    var s := 0x10 * t + u;
    var high := if s >= 0x100 then t - 0x10 else t;
    assert a == 0x10 * high + u;
    if u >= 0x10 {
      LowNibble(a + 6, high + 1, u - 10);
    } else {
      LowNibble(a, high, u);
    }
  }

  lemma LowNibble(x: int, high: int, low: int)
    requires x == 0x10 * high + low && 0 <= low < 0x10
    ensures x % 0x10 == low
  {
  }

  lemma HighDigit(t: int, u: int, r2: int)
    requires 0 <= t <= 18 && 0 <= u <= 19
    requires r2 == 0x10 * t + u + One(u >= 10, 6) - One(0x10 * t + u >= 0x100, 0x100)
    ensures var c := 0x10 * t + u >= 0x100;
      var r3 := r2 + One(c, 0x60);
      var r := if r3 / 0x10 % 0x10 > 9 then r3 + 0x60 else r3;
      && (c || Has(r, 0x100) <==> Carries(t, u))
      && r % 0x100 == 0x10 * (t + UnitsCarry(u) - One(Carries(t, u), 10)) + (u - 10 * UnitsCarry(u))
                      - One(Short(t, u), 0x60)
  {
    var c := 0x10 * t + u >= 0x100;
    var v := u - 10 * UnitsCarry(u);
    var h3 := t + UnitsCarry(u) - One(c, 0x10) + One(c, 6);
    var r3 := r2 + One(c, 0x60);
    assert r3 == 0x10 * h3 + v && r3 / 0x10 == h3;
    var r := if h3 % 0x10 > 9 then r3 + 0x60 else r3;
    var h := if h3 % 0x10 > 9 then h3 + 6 else h3;
    assert r == 0x10 * h + v;
    assert r / 0x100 == h / 0x10 && r % 0x100 == 0x10 * (h % 0x10) + v;
  }

  predicate AllPacked(bs: seq<Byte>)
  {
    forall i | 0 <= i < |bs| :: IsPacked(bs[i])
  }

  /** How far an adca/daa chain falls short: 60 * 100^i over its short positions, where `i` counts
      bytes from the least significant one. */
  function Shortfall(xs: seq<Byte>, ys: seq<Byte>, c: bool): nat
    requires |xs| == |ys|
  {
    var n := |xs|;
    if n == 0 then 0
    else
      var o := Daa(xs[n - 1], ys[n - 1], c);
      One(DaaShort(xs[n - 1], ys[n - 1], c), 60) + 100 * Shortfall(xs[..n - 1], ys[..n - 1], o.c)
  }

  /** Packed-decimal addition of any length: the carry is the decimal carry out of the true sum,
      and the result is that sum less the shortfall. */
  lemma {:induction false} DecimalChain(xs: seq<Byte>, ys: seq<Byte>, c: bool)
    requires |xs| == |ys| && AllPacked(xs) && AllPacked(ys)
    ensures var r := Chain(ADC_DAA, xs, ys, c);
      && AllPacked(r.zs)
      && DecValue(r.zs) + Power(100, |xs|) * One(r.c, 1) + Shortfall(xs, ys, c)
         == DecValue(xs) + DecValue(ys) + One(c, 1)
  {
    hide *;
    if |xs| == 0 {
      EmptyDecimal(xs, ys, c);
    } else {
      var n := |xs| - 1;
      PackedFront(xs);
      PackedFront(ys);
      var o := DecimalSplit(xs, ys, c);
      DecimalChain(xs[..n], ys[..n], o.c);
      PowerTimes(100, n, One(Chain(ADC_DAA, xs, ys, c).c, 1));
      PackedSplit(Chain(ADC_DAA, xs, ys, c).zs);
      DecSplit(xs, ys, Chain(ADC_DAA, xs, ys, c).zs);
      ShortSplit(xs, ys, c);
    }
  }

  lemma EmptyDecimal(xs: seq<Byte>, ys: seq<Byte>, c: bool)
    requires |xs| == |ys| == 0
    ensures var r := Chain(ADC_DAA, xs, ys, c);
      && AllPacked(r.zs)
      && DecValue(r.zs) == DecValue(xs) == DecValue(ys) == Shortfall(xs, ys, c) == 0
      && Power(100, 0) * One(r.c, 1) == One(c, 1)
  {
  }

  lemma PackedFront(bs: seq<Byte>)
    requires |bs| > 0 && AllPacked(bs)
    ensures AllPacked(bs[..|bs| - 1]) && IsPacked(bs[|bs| - 1])
  {
    hide IsPacked;
  }

  lemma DecimalSplit(xs: seq<Byte>, ys: seq<Byte>, c: bool) returns (o: Out)
    requires |xs| == |ys| > 0 && IsPacked(xs[|xs| - 1]) && IsPacked(ys[|xs| - 1])
    ensures var n := |xs| - 1;
      var r := Chain(ADC_DAA, xs[..n], ys[..n], o.c);
      var all := Chain(ADC_DAA, xs, ys, c);
      && o == Daa(xs[n], ys[n], c)
      && all.zs[..n] == r.zs && all.zs[n] == o.z && all.c == r.c && |all.zs| == n + 1
      && IsPacked(o.z)
      && Digits(o.z) == Digits(xs[n]) + Digits(ys[n]) + One(c, 1) - 100 * One(o.c, 1) - One(DaaShort(xs[n], ys[n], c), 60)
  {
    var n := |xs| - 1;
    o := Daa(xs[n], ys[n], c);
    ChainSplit(ADC_DAA, xs, ys, c);
    DaaByte(xs[n], ys[n], c);
    hide Chain, Daa, Digits, IsPacked, DaaShort;
  }

  lemma DecSplit(xs: seq<Byte>, ys: seq<Byte>, zs: seq<Byte>)
    requires |xs| == |ys| == |zs| > 0
    ensures var n := |xs| - 1;
      && DecValue(xs) == 100 * DecValue(xs[..n]) + Digits(xs[n])
      && DecValue(ys) == 100 * DecValue(ys[..n]) + Digits(ys[n])
      && DecValue(zs) == 100 * DecValue(zs[..n]) + Digits(zs[n])
  {
    hide Digits;
  }

  lemma PackedSplit(zs: seq<Byte>)
    requires |zs| > 0 && AllPacked(zs[..|zs| - 1]) && IsPacked(zs[|zs| - 1])
    ensures AllPacked(zs)
  {
    hide IsPacked;
  }

  lemma ShortSplit(xs: seq<Byte>, ys: seq<Byte>, c: bool)
    requires |xs| == |ys| > 0
    ensures var n := |xs| - 1;
      Shortfall(xs, ys, c) == One(DaaShort(xs[n], ys[n], c), 60) + 100 * Shortfall(xs[..n], ys[..n], Daa(xs[n], ys[n], c).c)
  {
    hide Daa, DaaShort;
  }

  /** The carry out of a whole chain is the decimal carry of the true sum. */
  lemma {:induction false} DecimalCarry(xs: seq<Byte>, ys: seq<Byte>, c: bool)
    requires |xs| == |ys| && AllPacked(xs) && AllPacked(ys)
    ensures Chain(ADC_DAA, xs, ys, c).c <==> DecValue(xs) + DecValue(ys) + One(c, 1) >= Power(100, |xs|)
  {
    hide *;
    if |xs| == 0 {
      EmptyCarry(xs, ys, c);
    } else {
      var n := |xs| - 1;
      PackedFront(xs);
      PackedFront(ys);
      var o := DecimalSplit(xs, ys, c);
      DecimalCarry(xs[..n], ys[..n], o.c);
      DecSplit(xs, ys, ys);
      CarryOn(xs[n], ys[n], c, n, DecValue(xs[..n]) + DecValue(ys[..n]));
    }
  }

  lemma EmptyCarry(xs: seq<Byte>, ys: seq<Byte>, c: bool)
    requires |xs| == |ys| == 0
    ensures Chain(ADC_DAA, xs, ys, c).c == c && DecValue(xs) == DecValue(ys) == 0
    ensures c <==> One(c, 1) >= Power(100, 0)
  {
  }

  /** A sum of `n` higher positions and one lower reaches 100^(n+1) when the higher ones with the
      lower one's carry reach 100^n. */
  lemma CarryOn(x: Byte, y: Byte, c: bool, n: nat, above: nat)
    requires IsPacked(x) && IsPacked(y)
    ensures 100 * above + Digits(x) + Digits(y) + One(c, 1) >= Power(100, n + 1)
            <==> above + One(Daa(x, y, c).c, 1) >= Power(100, n)
  {
    DaaByte(x, y, c);
    hide Daa, DaaShort;
    assert Power(100, n + 1) == 100 * Power(100, n);
  }

  /** The decimal carry that reaches position `i`: the true sum of the positions after it does not
      fit in them. */
  predicate CarryInto(xs: seq<Byte>, ys: seq<Byte>, c: bool, i: nat)
    requires |xs| == |ys| && i < |xs|
  {
    DecValue(xs[i + 1..]) + DecValue(ys[i + 1..]) + One(c, 1) >= Power(100, |xs| - 1 - i)
  }

  lemma LastCarry(xs: seq<Byte>, ys: seq<Byte>, c: bool)
    requires |xs| == |ys| > 0
    ensures CarryInto(xs, ys, c, |xs| - 1) == c
  {
    EmptyCarry(xs[|xs|..], ys[|xs|..], c);
  }

  lemma EarlierCarry(xs: seq<Byte>, ys: seq<Byte>, c: bool, i: nat)
    requires |xs| == |ys| && i < |xs| - 1 && AllPacked(xs) && AllPacked(ys)
    ensures var n := |xs| - 1;
      CarryInto(xs, ys, c, i) == CarryInto(xs[..n], ys[..n], Daa(xs[n], ys[n], c).c, i)
  {
    var n := |xs| - 1;
    var us, vs := xs[i + 1..], ys[i + 1..];
    assert us[..|us| - 1] == xs[..n][i + 1..] && vs[..|us| - 1] == ys[..n][i + 1..];
    assert us[|us| - 1] == xs[n] && vs[|us| - 1] == ys[n];
    PackedFront(xs);
    PackedFront(ys);
    hide Daa, IsPacked, DecValue, Power, One;
    DecSplit(us, vs, us);
    CarryOn(xs[n], ys[n], c, n - 1 - i, DecValue(xs[..n][i + 1..]) + DecValue(ys[..n][i + 1..]));
  }

  /** Every byte of the result is what adca and daa make of its operands and the true decimal
      carry into its position. */
  lemma {:induction false} DecimalByte(xs: seq<Byte>, ys: seq<Byte>, c: bool, i: nat)
    requires |xs| == |ys| && i < |xs| && AllPacked(xs) && AllPacked(ys)
    ensures Chain(ADC_DAA, xs, ys, c).zs[i] == Daa(xs[i], ys[i], CarryInto(xs, ys, c, i)).z
    decreases |xs|
  {
    var n := |xs| - 1;
    PackedFront(xs);
    PackedFront(ys);
    LastCarry(xs, ys, c);
    hide Chain, Daa, AllPacked, IsPacked, CarryInto;
    var o := DecimalSplit(xs, ys, c);
    if i < n {
      EarlierCarry(xs, ys, c, i);
      DecimalByte(xs[..n], ys[..n], o.c, i);
      assert Chain(ADC_DAA, xs, ys, c).zs[i] == Chain(ADC_DAA, xs, ys, c).zs[..n][i];
    }
  }

  /** No position is short when the true carry into it is taken. */
  predicate NoneShort(xs: seq<Byte>, ys: seq<Byte>, c: bool)
    requires |xs| == |ys|
  {
    forall i | 0 <= i < |xs| :: !DaaShort(xs[i], ys[i], CarryInto(xs, ys, c, i))
  }

  lemma {:induction false} ShortfallZero(xs: seq<Byte>, ys: seq<Byte>, c: bool)
    requires |xs| == |ys| && AllPacked(xs) && AllPacked(ys)
    ensures Shortfall(xs, ys, c) == 0 <==> NoneShort(xs, ys, c)
    decreases |xs|
  {
    if |xs| > 0 {
      var n := |xs| - 1;
      hide Daa, DaaShort, CarryInto, Shortfall, AllPacked, IsPacked, NoneShort;
      PackedFront(xs);
      PackedFront(ys);
      ShortSplit(xs, ys, c);
      ShortfallZero(xs[..n], ys[..n], Daa(xs[n], ys[n], c).c);
      NoneShortSplit(xs, ys, c);
    } else {
      hide AllPacked, DaaShort, CarryInto;
    }
  }

  lemma NoneShortSplit(xs: seq<Byte>, ys: seq<Byte>, c: bool)
    requires |xs| == |ys| > 0 && AllPacked(xs) && AllPacked(ys)
    ensures var n := |xs| - 1;
      NoneShort(xs, ys, c) <==>
        NoneShort(xs[..n], ys[..n], Daa(xs[n], ys[n], c).c) && !DaaShort(xs[n], ys[n], c)
  {
    var n := |xs| - 1;
    hide Daa, DaaShort, CarryInto, AllPacked;
    LastCarry(xs, ys, c);
    forall i: nat | i < n ensures CarryInto(xs, ys, c, i) == CarryInto(xs[..n], ys[..n], Daa(xs[n], ys[n], c).c, i) {
      EarlierCarry(xs, ys, c, i);
    }
  }

  /** The chain computes the true decimal sum exactly when no position is short. */
  lemma ExactIffNoneShort(xs: seq<Byte>, ys: seq<Byte>, c: bool)
    requires |xs| == |ys| && AllPacked(xs) && AllPacked(ys)
    ensures var r := Chain(ADC_DAA, xs, ys, c);
      DecValue(r.zs) + Power(100, |xs|) * One(r.c, 1) == DecValue(xs) + DecValue(ys) + One(c, 1)
      <==> NoneShort(xs, ys, c)
  {
    DecimalChain(xs, ys, c);
    ShortfallZero(xs, ys, c);
    hide *;
  }

  /** A sum that daa gets wrong: 79 + 81 leaves 00 where 60 is due. */
  lemma DaaCounterexample()
    ensures Daa(0x79, 0x81, false) == Out(0x00, true)
    ensures Digits(0x79) + Digits(0x81) == 160
  {
    assert DaaShort(0x79, 0x81, false);
    DaaByte(0x79, 0x81, false);
    hide Daa;
  }

  // ---- shifts ----

  /** Bytes and flags after a shift of several bytes. */
  datatype Shifted = Shifted(zs: seq<Byte>, f: Flags)

  /** `op` on the top byte, then ror of each byte below it. */
  function ShiftDown(op: RmwOp, f: Flags, xs: seq<Byte>): (r: Shifted)
    ensures |r.zs| == |xs|
    decreases |xs|
  {
    if |xs| == 0 then Shifted([], f)
    else
      var x := RmwExec(f, op, xs[0]);
      var r := ShiftDown(ROR, x.f, xs[1..]);
      Shifted([x.v] + r.zs, r.f)
  }

  /** `op` on the bottom byte, then rol of each byte above it. */
  function ShiftUp(op: RmwOp, f: Flags, xs: seq<Byte>): (r: Shifted)
    ensures |r.zs| == |xs|
    decreases |xs|
  {
    if |xs| == 0 then Shifted([], f)
    else
      var n := |xs| - 1;
      var x := RmwExec(f, op, xs[n]);
      var r := ShiftUp(ROL, x.f, xs[..n]);
      Shifted(r.zs + [x.v], r.f)
  }

  /** lsr and lsl shift in 0 and asr the sign bit, so each is a rotate with that carry. */
  lemma FirstShift(f: Flags, x: Byte)
    ensures RmwExec(f, LSR, x) == RmwExec(f.(c := false), ROR, x)
    ensures RmwExec(f, ASR, x) == RmwExec(f.(c := x >= 0x80), ROR, x)
    ensures RmwExec(f, LSL, x) == RmwExec(f.(c := false), ROL, x)
  {
  }

  /** A chain that starts with a shift is one of rotates with the carry that it shifts in. */
  lemma RotatesOnly(f: Flags, xs: seq<Byte>)
    requires |xs| > 0
    ensures ShiftDown(LSR, f, xs) == ShiftDown(ROR, f.(c := false), xs)
    ensures ShiftDown(ASR, f, xs) == ShiftDown(ROR, f.(c := xs[0] >= 0x80), xs)
    ensures ShiftUp(LSL, f, xs) == ShiftUp(ROL, f.(c := false), xs)
  {
    FirstShift(f, xs[0]);
    FirstShift(f, xs[|xs| - 1]);
    hide RmwExec;
  }

  lemma {:induction false} RolsAreChain(f: Flags, xs: seq<Byte>)
    ensures var r := ShiftUp(ROL, f, xs);
      var q := Chain(ROL_, xs, xs, f.c);
      r.zs == q.zs && r.f.c == q.c
    decreases |xs|
  {
    if |xs| > 0 {
      var n := |xs| - 1;
      RolsAreChain(RmwExec(f, ROL, xs[n]).f, xs[..n]);
      RolIsKernel(f, xs[n]);
      hide RmwExec, Apply;
    }
  }

  lemma RolIsKernel(f: Flags, x: Byte)
    ensures var e := RmwExec(f, ROL, x); Apply(ROL_, x, x, f.c) == Out(e.v, e.f.c)
  {
    hide ShiftLeft, SetNZ;
  }

  /** lsl of the bottom byte then rol up: the doubled value, the lost bit in C. */
  lemma Doubled(f: Flags, xs: seq<Byte>)
    requires |xs| > 0
    ensures var r := ShiftUp(LSL, f, xs);
      Value(r.zs) + Power(0x100, |xs|) * One(r.f.c, 1) == 2 * Value(xs)
  {
    RotatesOnly(f, xs);
    RolsAreChain(f.(c := false), xs);
    ShiftLeftChain(xs, xs, false);
    hide ShiftUp, Chain, Value, Power;
  }

  /** Most significant byte first. */
  function Value1(bs: seq<Byte>): nat
  {
    if |bs| == 0 then 0 else Power(0x100, |bs| - 1) * bs[0] + Value1(bs[1..])
  }

  lemma {:induction false} ValuesAgree(bs: seq<Byte>)
    ensures Value1(bs) == Value(bs)
  {
    if |bs| == 1 {
      assert bs[1..] == [] && bs[..0] == [];
    } else if |bs| > 1 {
      var n := |bs| - 1;
      ValuesAgree(bs[1..]);
      ValuesAgree(bs[1..n]);
      ValuesAgree(bs[..n]);
      assert bs[1..][..n - 1] == bs[1..n] && bs[..n][1..] == bs[1..n];
      PowerTimes(0x100, n - 1, bs[0]);
    }
  }

  /** Halving: the value with the carry on top, divided by two, remainder in C. */
  lemma {:induction false} ShiftDownChain(f: Flags, xs: seq<Byte>)
    requires |xs| > 0
    ensures var r := ShiftDown(ROR, f, xs);
      2 * Value1(r.zs) + One(r.f.c, 1) == Value1(xs) + Power(0x100, |xs|) * One(f.c, 1)
    decreases |xs|
  {
    var x := RmwExec(f, ROR, xs[0]);
    var r := ShiftDown(ROR, x.f, xs[1..]);
    var n := |xs| - 1;
    assert ([x.v] + r.zs)[1..] == r.zs;
    RorByte(f, xs[0]);
    if n == 0 {
      assert xs[1..] == [] && r.zs == [];
    } else {
      ShiftDownChain(x.f, xs[1..]);
    }
    TopByte(n, xs[0], x.v, f.c, x.f.c);
    hide RmwExec, Power;
  }

  lemma RorByte(f: Flags, x: Byte)
    ensures var r := RmwExec(f, ROR, x); 2 * r.v + One(r.f.c, 1) == x + One(f.c, 0x100)
  {
  }

  lemma TopByte(n: nat, x: int, v: int, c: bool, out: bool)
    requires 2 * v + One(out, 1) == x + One(c, 0x100)
    ensures var p := Power(0x100, n);
      2 * (p * v) + p * One(out, 1) == p * x + Power(0x100, n + 1) * One(c, 1)
  {
    var p := Power(0x100, n);
    assert p * (2 * v + One(out, 1)) == p * (x + One(c, 0x100));
    assert p * One(c, 0x100) == Power(0x100, n + 1) * One(c, 1);
  }

  /** lsr of the top byte then ror down: the unsigned half, remainder in C. */
  lemma LogicalHalf(f: Flags, xs: seq<Byte>)
    requires |xs| > 0
    ensures var r := ShiftDown(LSR, f, xs);
      Value(r.zs) == Value(xs) / 2 && One(r.f.c, 1) == Value(xs) % 2
  {
    RotatesOnly(f, xs);
    ShiftDownChain(f.(c := false), xs);
    ValuesAgree(xs);
    ValuesAgree(ShiftDown(LSR, f, xs).zs);
    hide ShiftDown, Value, Value1, Power;
  }

  /** The two's-complement reading of n bytes. */
  function SignedValue(bs: seq<Byte>): int
    requires |bs| > 0
  {
    Value(bs) - if bs[0] >= 0x80 then Power(0x100, |bs|) else 0
  }

  /** asr of the top byte then ror down: the two's-complement floor half, remainder in C. */
  lemma ArithmeticHalf(f: Flags, xs: seq<Byte>)
    requires |xs| > 0
    ensures var r := ShiftDown(ASR, f, xs);
      SignedValue(r.zs) == SignedValue(xs) / 2 && One(r.f.c, 1) == SignedValue(xs) % 2
  {
    var g := f.(c := xs[0] >= 0x80);
    RotatesOnly(f, xs);
    SignedHalf(g, xs);
    hide ShiftDown, SignedValue;
    Halved(SignedValue(xs), SignedValue(ShiftDown(ROR, g, xs).zs), One(ShiftDown(ROR, g, xs).f.c, 1));
  }

  lemma SignedHalf(g: Flags, xs: seq<Byte>)
    requires |xs| > 0 && g.c == (xs[0] >= 0x80)
    ensures var r := ShiftDown(ROR, g, xs);
      SignedValue(xs) == 2 * SignedValue(r.zs) + One(r.f.c, 1)
  {
    var r := ShiftDown(ROR, g, xs);
    ShiftDownChain(g, xs);
    ValuesAgree(xs);
    ValuesAgree(r.zs);
    TopStays(g, xs);
    hide ShiftDown, Value, Value1, Power;
    assert Power(0x100, |xs|) * One(g.c, 1) == if g.c then Power(0x100, |xs|) else 0;
  }

  lemma Halved(v: int, z: int, bit: int)
    requires v == 2 * z + bit && 0 <= bit <= 1
    ensures z == v / 2 && bit == v % 2
  {
  }

  lemma TopStays(f: Flags, xs: seq<Byte>)
    requires |xs| > 0
    ensures ShiftDown(ROR, f, xs).zs[0] >= 0x80 <==> f.c
  {
  }

  /** Every shift and rotate leaves V equal to N xor C, and C the bit that fell out. */
  lemma ShiftsSetV(f: Flags, op: RmwOp, x: Byte)
    requires op in {LSL, ROL, LSR, ROR, ASR}
    ensures var e := RmwExec(f, op, x);
      && (e.f.v <==> e.f.n != e.f.c)
      && (e.f.c <==> if op in {LSL, ROL} then x >= 0x80 else x % 2 == 1)
      && (e.f.n <==> e.v >= 0x80) && (e.f.z <==> e.v == 0)
  {
    hide ShiftFlags, ShiftLeft, ShiftRight;
    ShiftedLeft(x, false, 0x100);
    ShiftedLeft(x, f.c, 0x100);
    ShiftedRight(x, false, 0x100);
    ShiftedRight(x, f.c, 0x100);
    ShiftedRight(x, x >= 0x80, 0x100);
    FlagsOfShift(f, RmwExec(f, op, x).v, if op in {LSL, ROL} then x >= 0x80 else x % 2 == 1);
  }

  lemma FlagsOfShift(f: Flags, r: int, bit: bool)
    requires 0 <= r < 0x100
    ensures var g := ShiftFlags(f, r, bit, 0x100);
      (g.v <==> g.n != g.c) && g.c == bit && (g.n <==> r >= 0x80) && (g.z <==> r == 0)
  {
  }

  /** rol and ror undo each other on the byte and C. */
  lemma RotatesUndo(f: Flags, x: Byte)
    ensures var l := RmwExec(f, ROL, x); var b := RmwExec(l.f, ROR, l.v); b.v == x && b.f.c == f.c
    ensures var r := RmwExec(f, ROR, x); var b := RmwExec(r.f, ROL, r.v); b.v == x && b.f.c == f.c
  {
    TopBit(x, 0x100);
    TopBit(RmwExec(f, ROR, x).v, 0x100);
  }

  function RolTimes(f: Flags, x: Byte, n: nat): Rmw
    decreases n
  {
    if n == 0 then Rmw(f, x) else var l := RmwExec(f, ROL, x); RolTimes(l.f, l.v, n - 1)
  }

  /** The nine bits that rol rotates: C on top of the byte. */
  function Nine(f: Flags, x: Byte): nat { One(f.c, 0x100) + x }

  /** `v` rotated left by `i` of its nine bits. */
  function Rotated(v: nat, i: nat): int
    requires i <= 9
  {
    var m := Pow2(9 - i);
    assert m > 0;
    v % m * Pow2(i) + v / m
  }

  /** `v` split at bits `a` and `2 * a`. */
  lemma Split(v: nat, a: nat) returns (q: nat, s: nat, low: nat)
    requires a > 0
    ensures v / (2 * a) == q && v % (2 * a) == a * s + low
    ensures v / a == 2 * q + s && v % a == low && s < 2
  {
    var k := v / a;
    q, s, low := k / 2, k % 2, v % a;
    assert v == a * k + low;
    SplitAt(v, a, k, q, s, low);
  }

  lemma SplitAt(v: nat, a: nat, k: nat, q: nat, s: nat, low: nat)
    requires a > 0 && v == a * k + low && low < a && k == 2 * q + s && s < 2
    ensures v / (2 * a) == q && v % (2 * a) == a * s + low
  {
    assert a * k == (2 * a) * q + a * s;
    assert a * s == if s == 0 then 0 else a;
    DivUnique(v, 2 * a, q, a * s + low);
  }

  /** Rotating by one bit more, with `a * b` the 2^8 that a byte holds. */
  lemma RotateBit(v: nat, a: nat, b: nat)
    requires a > 0 && b > 0 && a * b == 0x100 && v < 0x200
    ensures var w := v % (2 * a) * b + v / (2 * a);
      w % 0x100 * 2 + w / 0x100 == v % a * (2 * b) + v / a
  {
    var q, s, low := Split(v, a);
    var w := v % (2 * a) * b + v / (2 * a);
    Spread(a, b, s, low);
    Below(v, a, b, q, low);
    var bl := b * low;
    assert w == 0x100 * s + (bl + q);
    DivUnique(w, 0x100, s, bl + q);
    assert low * (2 * b) == 2 * bl;
  }

  lemma Spread(a: nat, b: nat, s: nat, low: nat)
    requires a * b == 0x100
    ensures (a * s + low) * b == 0x100 * s + b * low
  {
    assert (a * s) * b == (a * b) * s;
  }

  lemma Below(v: nat, a: nat, b: nat, q: nat, low: nat)
    requires a > 0 && b > 0 && a * b == 0x100 && v < 0x200
    requires q == v / (2 * a) && low == v % a
    ensures b * low + q < 0x100
  {
    assert b * low <= b * (a - 1);
    assert (2 * a) * q <= v;
    assert (2 * a) * b == 0x200;
    CancelLess(2 * a, q, b);
  }

  lemma CancelLess(m: nat, q: int, b: int)
    requires m * q < m * b
    ensures q < b
  {
    if q >= b {
      MulMono(m, b, q);
    }
  }

  lemma MulMono(m: nat, b: int, q: int)
    requires b <= q
    ensures m * b <= m * q
  {
  }

  lemma RotateStep(v: nat, i: nat)
    requires v < 0x200 && i < 9
    ensures var w := Rotated(v, i); w % 0x100 * 2 + w / 0x100 == Rotated(v, i + 1)
  {
    PowersOfTwo(i);
    RotateBit(v, Pow2(8 - i), Pow2(i));
  }

  lemma {:induction false} PowersOfTwo(i: nat)
    requires i <= 8
    ensures Pow2(8 - i) * Pow2(i) == 0x100 && Pow2(9 - i) == 2 * Pow2(8 - i) && Pow2(i + 1) == 2 * Pow2(i)
    decreases i
  {
    if i == 0 {
      assert Pow2(8) == 0x100;
    } else {
      PowersOfTwo(i - 1);
      var p, q := Pow2(8 - i), Pow2(i - 1);
      assert Pow2(9 - i) == 2 * p && Pow2(i) == 2 * q && (2 * p) * q == p * (2 * q);
    }
  }

  lemma RolNine(f: Flags, x: Byte)
    ensures var l := RmwExec(f, ROL, x);
      Nine(l.f, l.v) == Nine(f, x) % 0x100 * 2 + Nine(f, x) / 0x100
  {
    TopBit(x, 0x100);
  }

  lemma {:induction false} RolRotates(f: Flags, x: Byte, v: nat, i: nat)
    requires i <= 9 && v < 0x200 && Nine(f, x) == Rotated(v, i)
    ensures var r := RolTimes(f, x, 9 - i); Nine(r.f, r.v) == v
    decreases 9 - i
  {
    if i == 9 {
      assert Pow2(9) == 0x200 && Pow2(0) == 1;
    } else {
      RolNine(f, x);
      RotateStep(v, i);
      var l := RmwExec(f, ROL, x);
      hide RmwExec, Rotated, Nine;
      RolRotates(l.f, l.v, v, i + 1);
    }
  }

  lemma NotRotated(v: nat)
    requires v < 0x200
    ensures Rotated(v, 0) == v
  {
    assert Pow2(9) == 0x200 && Pow2(0) == 1;
    hide Pow2;
  }

  lemma NineIsOne(f: Flags, x: Byte, g: Flags, y: Byte)
    requires Nine(f, x) == Nine(g, y)
    ensures x == y && f.c == g.c
  {
  }

  /** Nine rols are the identity on the byte and C. */
  lemma NineRols(f: Flags, x: Byte)
    ensures var r := RolTimes(f, x, 9); r.v == x && r.f.c == f.c
  {
    var v := Nine(f, x);
    assert v < 0x200;
    hide RolTimes, Rotated, Nine;
    NotRotated(v);
    RolRotates(f, x, v, 0);
    var r := RolTimes(f, x, 9);
    NineIsOne(r.f, r.v, f, x);
  }
}
