// Register file and arithmetic/logic unit: src/arch/m68xx/alu.c and inc/arch/m68xx/reg.h.

/** What the flag-setting helpers mean, in arithmetic. */
module Alu {
  import opened Words

  /** The condition codes of the 6800/6301/6303. The two top bits always read as one there
      (inc/arch/m68xx/reg.h:60), so `Pack` supplies them and `Unpack` drops them. */
  datatype Flags = Flags(c: bool, v: bool, z: bool, n: bool, i: bool, h: bool)

  function One(b: bool, m: int): int { if b then m else 0 }

  function Pack(f: Flags): Byte
  {
    0xC0 + One(f.h, 0x20) + One(f.i, 0x10) + One(f.n, 8) + One(f.z, 4) + One(f.v, 2) + One(f.c, 1)
  }

  function Unpack(b: Byte): Flags
  {
    Flags(Has(b, 1), Has(b, 2), Has(b, 4), Has(b, 8), Has(b, 0x10), Has(b, 0x20))
  }

  /** Stacking the flags and pulling them again restores them. */
  lemma PackRoundTrip(f: Flags)
    ensures Unpack(Pack(f)) == f
  {
    var p := Pack(f);
    var h, i, n, z, v := One(f.h, 1), One(f.i, 1), One(f.n, 1), One(f.z, 1), One(f.v, 1);
    hide Has;
    BitOf(p, 0x20, 3, f.h, 0x10 * i + 8 * n + 4 * z + 2 * v + One(f.c, 1));
    BitOf(p, 0x10, 6 + h, f.i, 8 * n + 4 * z + 2 * v + One(f.c, 1));
    BitOf(p, 8, 0xC + 2 * h + i, f.n, 4 * z + 2 * v + One(f.c, 1));
    BitOf(p, 4, 0x18 + 4 * h + 2 * i + n, f.z, 2 * v + One(f.c, 1));
    BitOf(p, 2, 0x30 + 8 * h + 4 * i + 2 * n + z, f.v, One(f.c, 1));
    BitOf(p, 1, 0x60 + 0x10 * h + 8 * i + 4 * n + 2 * z + v, f.c, 0);
  }

  /** Bit `m` of a number written around it. */
  lemma BitOf(x: int, m: int, above: int, bit: bool, below: int)
    requires m > 0 && 0 <= below < m && x == m * (2 * above + One(bit, 1)) + below
    ensures Has(x, m) == bit
  {
    DivUnique(x, m, 2 * above + One(bit, 1), below);
    assert (2 * above + One(bit, 1)) % 2 == One(bit, 1);
  }

  /** N and Z of a result of `w` values (0x100 or 0x1_0000). */
  function SetNZ(f: Flags, r: int, w: int): Flags
    requires w == 0x100 || w == 0x1_0000
  {
    f.(n := r % w >= w / 2, z := r % w == 0)
  }

  /** Two's-complement value of `x` among `w` values. */
  function Signed(x: int, w: int): int
    requires w == 0x100 || w == 0x1_0000
  {
    if x < w / 2 then x else x - w
  }

  /** C is the carry out of `x + y + carry`, V says that the signed sum does not fit. */
  function AddFlags(f: Flags, x: int, y: int, carry: int, w: int): Flags
    requires w == 0x100 || w == 0x1_0000
  {
    var r := x + y + carry;
    var signed := Signed(x, w) + Signed(y, w) + carry;
    SetNZ(f, r, w).(c := r >= w, v := !(-(w / 2) <= signed < w / 2))
  }

  /** addbyte alone also sets H, the carry out of the low digit. */
  function AddByteFlags(f: Flags, x: Byte, y: Byte, carry: int): Flags
  {
    AddFlags(f, x, y, carry, 0x100).(h := x % 0x10 + y % 0x10 + carry >= 0x10)
  }

  /** The bits that the C formula and the sign test look at in a sum below `2 * w`. */
  lemma CarryBits(r: int, w: int)
    requires w == 0x100 || w == 0x1_0000
    requires 0 <= r < 2 * w
    ensures Bit(r / 2, w / 2) == One(r >= w, 1)
    ensures Bit(r, w / 2) == One(r % w >= w / 2, 1)
  {
    if w == 0x100 {
      assert Bit(r / 2, 0x80) == One(r >= 0x100, 1);
      assert Bit(r, 0x80) == One(r % 0x100 >= 0x80, 1);
    } else {
      assert Bit(r / 2, 0x8000) == One(r >= 0x1_0000, 1);
      assert Bit(r, 0x8000) == One(r % 0x1_0000 >= 0x8000, 1);
    }
  }

  /** The same bits in a difference taken modulo 2^32: the first one is the borrow. */
  lemma BorrowBits(d: int, w: int)
    requires w == 0x100 || w == 0x1_0000
    requires -w <= d < w
    ensures var r := Mod32(d);
      Bit(r / 2, w / 2) == One(d < 0, 1) && r % w == d % w && Bit(r, w / 2) == One(d % w >= w / 2, 1)
  {
    Wrapped(d);
    if w == 0x100 {
      BorrowBitsByte(d, Mod32(d));
    } else {
      BorrowBitsWord(d, Mod32(d));
    }
    hide Mod32, Bit, One;
  }

  lemma Wrapped(d: int)
    requires -0x1_0000 <= d < 0x1_0000
    ensures Mod32(d) == if d < 0 then d + 0x1_0000_0000 else d
  {
  }

  lemma BorrowBitsByte(d: int, r: int)
    requires -0x100 <= d < 0x100 && r == if d < 0 then d + 0x1_0000_0000 else d
    ensures Bit(r / 2, 0x80) == One(d < 0, 1)
    ensures r % 0x100 == d % 0x100
    ensures Bit(r, 0x80) == One(d % 0x100 >= 0x80, 1)
  {
    var low := if d < 0 then d + 0x100 else d;
    var high := if d < 0 then 0xFF_FFFF else 0;
    assert r == 0x100 * high + low && d % 0x100 == low;
    HalfDiv(r, 0x80);
    DivUnique(r, 0x100, high, low);
    LowBit(r, high, low);
  }

  lemma LowBit(r: nat, high: nat, low: nat)
    requires r == 0x100 * high + low && low < 0x100
    ensures Bit(r, 0x80) == One(low >= 0x80, 1)
  {
    DivUnique(r, 0x80, 2 * high + One(low >= 0x80, 1), low - One(low >= 0x80, 0x80));
  }

  lemma BorrowBitsWord(d: int, r: int)
    requires -0x1_0000 <= d < 0x1_0000 && r == if d < 0 then d + 0x1_0000_0000 else d
    ensures Bit(r / 2, 0x8000) == One(d < 0, 1)
    ensures r % 0x1_0000 == d % 0x1_0000
    ensures Bit(r, 0x8000) == One(d % 0x1_0000 >= 0x8000, 1)
  {
  }

  /** The H formula of addbyte is the carry out of the low digits. */
  lemma HalfCarry(x: Byte, y: Byte, carry: int)
    requires 0 <= carry <= 1
    ensures (Bit(x, 0x10) + Bit(y, 0x10) + Bit(x + y + carry, 0x10)) % 2 == One(x % 0x10 + y % 0x10 + carry >= 0x10, 1)
  {
    var k := One(x % 0x10 + y % 0x10 + carry >= 0x10, 1);
    var hx, hy := x / 0x10, y / 0x10;
    assert (x + y + carry) / 0x10 == hx + hy + k;
    assert hx == 2 * (hx / 2) + hx % 2 && hy == 2 * (hy / 2) + hy % 2;
  }

  lemma Parity(p: bool, q: bool, r: bool, t: bool)
    ensures (One(p, 1) + One(q, 1) + One(r, 1) + One(t, 1)) % 2 != 0 <==> (p != q) != (r != t)
  {
  }

  /** The V formula of the adders: the sign bits of the operands, the sign of the result and the
      carry differ in number exactly when the signed sum does not fit. */
  lemma AddOverflow(x: int, y: int, carry: int, w: int)
    requires w == 0x100 || w == 0x1_0000
    requires 0 <= x < w && 0 <= y < w && 0 <= carry <= 1
    ensures var r := x + y + carry;
      (Bit(x, w / 2) + Bit(y, w / 2) + Bit(r, w / 2) + Bit(r / 2, w / 2)) % 2 != 0
      <==> !(-(w / 2) <= Signed(x, w) + Signed(y, w) + carry < w / 2)
  {
    var r := x + y + carry;
    TopBit(x, w);
    TopBit(y, w);
    CarryBits(r, w);
    Parity(x >= w / 2, y >= w / 2, r % w >= w / 2, r >= w);
    SignedSum(x, y, carry, w);
    hide Bit, One, Signed;
  }

  lemma SignedSum(x: int, y: int, carry: int, w: int)
    requires w == 0x100 || w == 0x1_0000
    requires 0 <= x < w && 0 <= y < w && 0 <= carry <= 1
    ensures var r := x + y + carry;
      ((x >= w / 2) != (y >= w / 2)) != ((r % w >= w / 2) != (r >= w))
      <==> !(-(w / 2) <= Signed(x, w) + Signed(y, w) + carry < w / 2)
  {
    var r := x + y + carry;
    assert r % w == if r >= w then r - w else r;
  }

  lemma SubOverflow(x: int, y: int, carry: int, w: int)
    requires w == 0x100 || w == 0x1_0000
    requires 0 <= x < w && 0 <= y < w && 0 <= carry <= 1
    ensures var r := Mod32(x - y - carry);
      (Bit(x, w / 2) + Bit(y, w / 2) + Bit(r, w / 2) + Bit(r / 2, w / 2)) % 2 != 0
      <==> !(-(w / 2) <= Signed(x, w) - Signed(y, w) - carry < w / 2)
  {
    var d := x - y - carry;
    TopBit(x, w);
    TopBit(y, w);
    BorrowBits(d, w);
    Parity(x >= w / 2, y >= w / 2, d % w >= w / 2, d < 0);
    SignedDifference(x, y, carry, w);
    hide Bit, One, Signed;
  }

  lemma SignedDifference(x: int, y: int, carry: int, w: int)
    requires w == 0x100 || w == 0x1_0000
    requires 0 <= x < w && 0 <= y < w && 0 <= carry <= 1
    ensures var d := x - y - carry;
      ((x >= w / 2) != (y >= w / 2)) != ((d % w >= w / 2) != (d < 0))
      <==> !(-(w / 2) <= Signed(x, w) - Signed(y, w) - carry < w / 2)
  {
    var d := x - y - carry;
    assert d % w == if d < 0 then d + w else d;
  }

  /** The top bit of a byte or word, and what shifting left does to it. */
  lemma TopBit(x: int, w: int)
    requires w == 0x100 || w == 0x1_0000
    requires 0 <= x < w
    ensures Bit(x, w / 2) == One(x >= w / 2, 1)
    ensures 2 * x % w == 2 * x - One(x >= w / 2, w)
  {
    if w == 0x100 {
      assert Bit(x, 0x80) == One(x >= 0x80, 1);
    } else {
      assert Bit(x, 0x8000) == One(x >= 0x8000, 1);
    }
  }

  lemma ShiftedLeft(x: int, low: bool, w: int)
    requires w == 0x100 || w == 0x1_0000
    requires 0 <= x < w
    ensures ShiftLeft(x, low, w) == x * 2 % w + One(low, 1)
    ensures 0 <= ShiftLeft(x, low, w) < w
    ensures Bit(x, w / 2) == 1 <==> x >= w / 2
  {
    TopBit(x, w);
    hide Bit;
  }

  /** The flag formulas of the four shift helpers, for the bit `cflag` shifted out. */
  lemma ShiftBits(f: Flags, r: int, cflag: int, w: int)
    requires w == 0x100 || w == 0x1_0000
    requires 0 <= r < w && 0 <= cflag <= 1
    ensures f.(n := Bit(r, w / 2) != 0, z := r == 0, v := (Bit(r, w / 2) + cflag) % 2 != 0, c := cflag != 0)
         == ShiftFlags(f, r, cflag == 1, w)
  {
    TopBit(r, w);
    assert r % w == r;
    hide Bit;
  }

  lemma ShiftedRight(x: int, high: bool, w: int)
    requires w == 0x100 || w == 0x1_0000
    requires 0 <= x < w
    ensures 0 <= ShiftRight(x, high, w) < w
    ensures ShiftRight(x, high, w) >= w / 2 <==> high
  {
    if w == 0x100 {
      assert x / 2 < 0x80;
    } else {
      assert x / 2 < 0x8000;
    }
  }

  /** Flags of `x - y - carry` without C. */
  function CmpFlags(f: Flags, x: int, y: int, carry: int, w: int): Flags
    requires w == 0x100 || w == 0x1_0000
  {
    var signed := Signed(x, w) - Signed(y, w) - carry;
    SetNZ(f, x - y - carry, w).(v := !(-(w / 2) <= signed < w / 2))
  }

  /** C is the borrow. */
  function SubFlags(f: Flags, x: int, y: int, carry: int, w: int): Flags
    requires w == 0x100 || w == 0x1_0000
  {
    CmpFlags(f, x, y, carry, w).(c := x < y + carry)
  }

  /** Flags of a moved or combined value: N, Z, and V cleared. */
  function TestFlags(f: Flags, r: int, w: int): Flags
    requires w == 0x100 || w == 0x1_0000
  {
    SetNZ(f, r, w).(v := false)
  }

  /** Flags of a shift: C is the bit shifted out and V is N xor C. */
  function ShiftFlags(f: Flags, r: int, out: bool, w: int): Flags
    requires w == 0x100 || w == 0x1_0000
  {
    var g := SetNZ(f, r, w).(c := out);
    g.(v := g.n != g.c)
  }

  function ShiftLeft(x: int, low: bool, w: int): int
    requires w == 0x100 || w == 0x1_0000
  {
    2 * x % w + One(low, 1)
  }

  function ShiftRight(x: int, high: bool, w: int): int
    requires w == 0x100 || w == 0x1_0000
  {
    x / 2 + One(high, w / 2)
  }

  function IncFlags(f: Flags, x: Byte): Flags
  {
    SetNZ(f, x + 1, 0x100).(v := x == 0x7F)
  }

  function DecFlags(f: Flags, x: Byte): Flags
  {
    SetNZ(f, x - 1, 0x100).(v := x == 0x80)
  }

  function Complement(f: Flags, x: Byte): Flags
  {
    TestFlags(f, 0xFF - x, 0x100).(c := true)
  }

  function ClearFlags(f: Flags): Flags
  {
    f.(n := false, z := true, v := false, c := false)
  }

  /** Decimal adjust of A, step by step as daa_inh does it: the untruncated result. */
  function DaaSum(a: Byte, f: Flags): (r: nat)
    ensures r < 0x1D0
  {
    var r := a + One(f.h, 6);
    var r := if r % 0x10 > 9 then r + 6 else r;
    var r := r + One(f.c, 0x60);
    if r / 0x10 % 0x10 > 9 then r + 0x60 else r
  }

  function DaaFlags(a: Byte, f: Flags): Flags
  {
    var r := DaaSum(a, f);
    TestFlags(f, r % 0x100, 0x100).(c := f.c || Has(r, 0x100))
  }
}

/** The register file; its methods are the helpers of alu.c, which use the bit formulas of
    the source and are proved against the arithmetic of module Alu. */
module Registers {
  import opened Words
  import opened Alu

  class Registers {
    var a: Byte
    var b: Byte
    var ix: Word
    var sp: Word
    var pc: Word
    var ccr: Flags

    constructor ()
      ensures a == 0 && b == 0 && ix == 0 && sp == 0 && pc == 0
      ensures ccr == Flags(false, false, false, false, false, false)
    {
      a, b, ix, sp, pc := 0, 0, 0, 0, 0;
      ccr := Flags(false, false, false, false, false, false);
    }

    method AddByte(val1: Byte, val2: Byte, carry: int) returns (result: int)
      requires 0 <= carry <= 1
      modifies this`ccr
      ensures result == val1 + val2 + carry
      ensures ccr == AddByteFlags(old(ccr), val1, val2, carry)
    {
      result := val1 + val2 + carry;
      CarryBits(result, 0x100);
      AddOverflow(val1, val2, carry, 0x100);
      HalfCarry(val1, val2, carry);
      hide Bit;
      var cflag := Bit(result / 2, 0x80);
      var xor := (Bit(val1, 0x80) + Bit(val2, 0x80) + Bit(result, 0x80) + cflag) % 2;
      var half := (Bit(val1, 0x10) + Bit(val2, 0x10) + Bit(result, 0x10)) % 2;
      ccr := ccr.(c := cflag != 0, n := Bit(result, 0x80) != 0, v := xor != 0,
                  z := result % 0x100 == 0, h := half != 0);
    }

    method AddWord(val1: Word, val2: Word, carry: int) returns (result: int)
      requires 0 <= carry <= 1
      modifies this`ccr
      ensures result == val1 + val2 + carry
      ensures ccr == AddFlags(old(ccr), val1, val2, carry, 0x1_0000)
    {
      result := val1 + val2 + carry;
      CarryBits(result, 0x1_0000);
      AddOverflow(val1, val2, carry, 0x1_0000);
      hide Bit;
      var cflag := Bit(result / 2, 0x8000);
      var xor := (Bit(val1, 0x8000) + Bit(val2, 0x8000) + Bit(result, 0x8000) + cflag) % 2;
      ccr := ccr.(c := cflag != 0, n := Bit(result, 0x8000) != 0, v := xor != 0, z := result % 0x1_0000 == 0);
    }

    /** The difference is taken in 32-bit unsigned arithmetic, as in the source. */
    method SubByte(val1: Byte, val2: Byte, carry: int) returns (result: int)
      requires 0 <= carry <= 1
      modifies this`ccr
      ensures result == Mod32(val1 - val2 - carry)
      ensures result % 0x100 == (val1 - val2 - carry) % 0x100
      ensures ccr == SubFlags(old(ccr), val1, val2, carry, 0x100)
    {
      result := Mod32(val1 - val2 - carry);
      BorrowBits(val1 - val2 - carry, 0x100);
      SubOverflow(val1, val2, carry, 0x100);
      hide Bit;
      var cflag := Bit(result / 2, 0x80);
      var xor := (Bit(val1, 0x80) + Bit(val2, 0x80) + Bit(result, 0x80) + cflag) % 2;
      ccr := ccr.(c := cflag != 0, n := Bit(result, 0x80) != 0, v := xor != 0, z := result % 0x100 == 0);
    }

    /** cmpword: every flag of the difference except C. */
    method CmpWord(val1: Word, val2: Word, carry: int) returns (result: int)
      requires 0 <= carry <= 1
      modifies this`ccr
      ensures result == Mod32(val1 - val2 - carry)
      ensures result % 0x1_0000 == (val1 - val2 - carry) % 0x1_0000
      ensures ccr == CmpFlags(old(ccr), val1, val2, carry, 0x1_0000)
    {
      result := Mod32(val1 - val2 - carry);
      BorrowBits(val1 - val2 - carry, 0x1_0000);
      SubOverflow(val1, val2, carry, 0x1_0000);
      hide Bit;
      var cflag := Bit(result / 2, 0x8000);
      var xor := (Bit(val1, 0x8000) + Bit(val2, 0x8000) + Bit(result, 0x8000) + cflag) % 2;
      ccr := ccr.(n := Bit(result, 0x8000) != 0, v := xor != 0, z := result % 0x1_0000 == 0);
    }

    method SubWord(val1: Word, val2: Word, carry: int) returns (result: int)
      requires 0 <= carry <= 1
      modifies this`ccr
      ensures result == Mod32(val1 - val2 - carry)
      ensures result % 0x1_0000 == (val1 - val2 - carry) % 0x1_0000
      ensures ccr == SubFlags(old(ccr), val1, val2, carry, 0x1_0000)
    {
      result := CmpWord(val1, val2, carry);
      BorrowBits(val1 - val2 - carry, 0x1_0000);
      hide Bit, CmpFlags;
      var cflag := Bit(result / 2, 0x8000);
      ccr := ccr.(c := cflag != 0);
    }

    /** bittestbyte and bittestword, and the three logical operations built on them. */
    method BitTest(value: int, w: int)
      requires w == 0x100 || w == 0x1_0000
      requires 0 <= value < w
      modifies this`ccr
      ensures ccr == TestFlags(old(ccr), value, w)
    {
      ccr := ccr.(n := Has(value, w / 2), z := value == 0, v := false);
    }

    method Logic(op: Bitwise, val1: Byte, val2: Byte) returns (result: Byte)
      modifies this`ccr
      ensures result == ByteOp(op, val1, val2)
      ensures ccr == TestFlags(old(ccr), result, 0x100)
    {
      result := ByteOp(op, val1, val2);
      BitTest(result, 0x100);
    }

    method ClrByte() returns (result: Byte)
      modifies this`ccr
      ensures result == 0 && ccr == ClearFlags(old(ccr))
    {
      ccr := ccr.(n := false, z := true, v := false, c := false);
      result := 0;
    }

    method ComByte(value: Byte) returns (result: Byte)
      modifies this`ccr
      ensures result == 0xFF - value && ccr == Complement(old(ccr), value)
    {
      result := (-1 - value) % 0x100;
      ccr := ccr.(n := Has(result, 0x80), z := result == 0, v := false, c := true);
    }

    method DecByte(value: Byte) returns (result: Byte)
      modifies this`ccr
      ensures result == (value - 1) % 0x100 && ccr == DecFlags(old(ccr), value)
    {
      ccr := ccr.(v := value == 0x80);
      result := (value - 1) % 0x100;
      ccr := ccr.(n := Has(result, 0x80), z := result == 0);
    }

    method IncByte(value: Byte) returns (result: Byte)
      modifies this`ccr
      ensures result == (value + 1) % 0x100 && ccr == IncFlags(old(ccr), value)
    {
      ccr := ccr.(v := value == 0x7F);
      result := (value + 1) % 0x100;
      ccr := ccr.(n := Has(result, 0x80), z := result == 0);
    }

    /** decword and incword touch Z alone. */
    method StepWord(value: Word, up: bool) returns (result: Word)
      modifies this`ccr
      ensures result == (if up then value + 1 else value - 1) % 0x1_0000
      ensures ccr == old(ccr).(z := result == 0)
    {
      result := (if up then value + 1 else value - 1) % 0x1_0000;
      ccr := ccr.(z := result == 0);
    }

    method NegByte(value: Byte) returns (result: int)
      modifies this`ccr
      ensures result % 0x100 == (0 - value) % 0x100
      ensures ccr == SubFlags(old(ccr), 0, value, 0, 0x100)
    {
      result := SubByte(0, value, 0);
    }

    /** shlbyte and shlword. */
    method Shl(operand: int, lsbit: bool, w: int) returns (result: int)
      requires w == 0x100 || w == 0x1_0000
      requires 0 <= operand < w
      modifies this`ccr
      ensures result == ShiftLeft(operand, lsbit, w) && 0 <= result < w
      ensures ccr == ShiftFlags(old(ccr), result, operand >= w / 2, w)
    {
      result := operand * 2 % w + One(lsbit, 1);
      ShiftedLeft(operand, lsbit, w);
      ShiftBits(ccr, result, Bit(operand, w / 2), w);
      hide Bit, ShiftFlags, One;
      var cflag := Bit(operand, w / 2);
      ccr := ccr.(n := Bit(result, w / 2) != 0, z := result == 0,
                  v := (Bit(result, w / 2) + cflag) % 2 != 0, c := cflag != 0);
    }

    /** shrbyte and shrword. */
    method Shr(operand: int, msbit: bool, w: int) returns (result: int)
      requires w == 0x100 || w == 0x1_0000
      requires 0 <= operand < w
      modifies this`ccr
      ensures result == ShiftRight(operand, msbit, w) && 0 <= result < w
      ensures ccr == ShiftFlags(old(ccr), result, operand % 2 == 1, w)
    {
      result := operand / 2 + One(msbit, w / 2);
      ShiftedRight(operand, msbit, w);
      ShiftBits(ccr, result, Bit(operand, 1), w);
      assert Bit(operand, 1) == operand % 2;
      hide Bit, ShiftFlags, One;
      var cflag := Bit(operand, 1);
      ccr := ccr.(n := Bit(result, w / 2) != 0, z := result == 0,
                  v := (Bit(result, w / 2) + cflag) % 2 != 0, c := cflag != 0);
    }

    method TestByte(operand: Byte)
      modifies this`ccr
      ensures ccr == TestFlags(old(ccr), operand, 0x100).(c := false)
    {
      var result := SubByte(operand, 0, 0);
      ccr := ccr.(v := false);
      ccr := ccr.(c := false);
    }

    method Daa()
      modifies this`ccr, this`a
      ensures a == DaaSum(old(a), old(ccr)) % 0x100
      ensures ccr == DaaFlags(old(a), old(ccr))
    {
      var result: int := a;
      if ccr.h {
        result := result + 0x06;
      }
      if result % 0x10 > 9 {
        result := result + 6;
      }
      if ccr.c {
        result := result + 0x60;
      }
      if result / 0x10 % 0x10 * 0x10 > 0x90 {
        result := result + 0x60;
      }
      assert result == DaaSum(a, ccr);
      hide DaaSum;
      BitTest(result % 0x100, 0x100);
      a := result % 0x100;
      if Has(result, 0x100) {
        ccr := ccr.(c := true);
      }
    }
  }
}
