// What the register parts of the instructions compute, against the reference of Manual.dfy
// (src/arch/m68xx/alu.c, src/arch/m68xx/opfunc.c).

module Meaning {
  import opened Words
  import opened Alu
  import opened Optab
  import opened Machine
  import opened Manual
  import opened Decode
  import D = Device

  // ---- flags ----

  lemma Same(x: int, w: int)
    requires IsWidth(w) && 0 <= x < w
    ensures Signed(x, w) == Two(x, w)
    ensures forall k: int :: FitsSigned(k, w) <==> -(w / 2) <= k < w / 2
  {
  }

  lemma Described(f: Flags, r: int, v: int, w: int)
    requires IsWidth(w) && v == r % w
    ensures var g := SetNZ(f, r, w); Describes(g, v, w)
  {
  }

  lemma SumMeaning(f: Flags, x: int, y: int, c: bool, w: int)
    requires IsWidth(w) && 0 <= x < w && 0 <= y < w
    ensures var g := AddFlags(f, x, y, One(c, 1), w);
      IsSum(x, y, c, w, (x + y + One(c, 1)) % w, g) && g.h == f.h && g.i == f.i
  {
    hide AddFlags, Signed, Two, SetNZ, FitsSigned, Describes;
    var r := x + y + One(c, 1);
    var g := AddFlags(f, x, y, One(c, 1), w);
    AddParts(f, x, y, One(c, 1), w);
    Same(x, w);
    Same(y, w);
    Described(f, r, r % w, w);
    SignsOnly(SetNZ(f, r, w), g, r % w, w);
    Wraps(r, w);
  }

  lemma AddParts(f: Flags, x: int, y: int, carry: int, w: int)
    requires IsWidth(w)
    ensures var g := AddFlags(f, x, y, carry, w);
      var z := SetNZ(f, x + y + carry, w);
      && g.n == z.n && g.z == z.z && g.h == f.h && g.i == f.i && g.c == (x + y + carry >= w)
      && g.v == !(-(w / 2) <= Signed(x, w) + Signed(y, w) + carry < w / 2)
  {
    hide Signed;
  }

  lemma Wraps(r: int, w: int)
    requires IsWidth(w) && 0 <= r < 2 * w
    ensures r % w == if r >= w then r - w else r
  {
    if w == 0x100 {
      assert r % 0x100 == if r >= 0x100 then r - 0x100 else r;
    } else {
      assert r % 0x1_0000 == if r >= 0x1_0000 then r - 0x1_0000 else r;
    }
  }

  lemma SetNZKeeps(f: Flags, r: int, w: int)
    requires IsWidth(w)
    ensures var g := SetNZ(f, r, w); g == f.(n := g.n, z := g.z)
  {
  }

  lemma SignsOnly(f: Flags, g: Flags, v: int, w: int)
    requires IsWidth(w) && Describes(f, v, w) && g.n == f.n && g.z == f.z
    ensures Describes(g, v, w)
  {
  }

  lemma CompareMeaning(f: Flags, x: int, y: int, c: bool, w: int)
    requires IsWidth(w) && 0 <= x < w && 0 <= y < w
    ensures var g := CmpFlags(f, x, y, One(c, 1), w);
      IsDifference(x, y, c, w, (x - y - One(c, 1)) % w, g) && KeepsHI(f, g) && g.c == f.c
  {
    hide Signed, Two, SetNZ, FitsSigned;
    var r := x - y - One(c, 1);
    Same(x, w);
    Same(y, w);
    Described(f, r, r % w, w);
    SetNZKeeps(f, r, w);
  }

  lemma DifferenceMeaning(f: Flags, x: int, y: int, c: bool, w: int)
    requires IsWidth(w) && 0 <= x < w && 0 <= y < w
    ensures var g := SubFlags(f, x, y, One(c, 1), w);
      IsDifference(x, y, c, w, (x - y - One(c, 1)) % w, g) && IsBorrow(x, y, c, g) && KeepsHI(f, g)
  {
    hide CmpFlags, FitsSigned, Two;
    CompareMeaning(f, x, y, c, w);
  }

  lemma MovedMeaning(f: Flags, v: int, w: int)
    requires IsWidth(w) && 0 <= v < w
    ensures IsMoved(v, w, f, TestFlags(f, v, w)) && KeepsHI(f, TestFlags(f, v, w))
  {
    assert v % w == v;
  }

  lemma LogicMeaning(op: Bitwise, x: Byte, y: Byte)
    ensures var r := ByteOp(op, x, y);
      && (op == AND ==> IsAnd(r, x, y)) && (op == OR ==> IsOr(r, x, y)) && (op == XOR ==> IsXor(r, x, y))
  {
    hide Bits, Pow2;
    forall k: nat | k < 8
      ensures Bit(ByteOp(op, x, y), Pow2(k)) == Combine(op, Bit(x, Pow2(k)), Bit(y, Pow2(k)))
    {
      BitsBit(op, x, y, 8, k);
    }
  }

  // ---- operations on an accumulator and a byte ----

  lemma ByteMeaning(d: int, r: Regs, acc: Acc, m: Byte)
    requires IsByteDigit(d)
    ensures var q := AluExec(r, AluOf(d), acc, m);
      && ByteEffect(d, GetAcc(r, acc), m, r.ccr, GetAcc(q, acc), q.ccr)
      && q == SetAcc(r, acc, GetAcc(q, acc)).(ccr := q.ccr)
  {
    hide TestFlags, SubFlags, AddFlags, IsDifference, IsSum, IsMoved, ByteOp, IsAnd, IsOr, IsXor;
    match d
    case 0 => SubtractMeaning(r, acc, m, SUB);
    case 1 => SubtractMeaning(r, acc, m, CMP);
    case 2 => SubtractMeaning(r, acc, m, SBC);
    case 4 => CombineMeaning(r, acc, m, AND);
    case 5 => BitTestMeaning(r, acc, m);
    case 6 => MovedMeaning(r.ccr, m, 0x100);
    case 8 => CombineMeaning(r, acc, m, XOR);
    case 9 => AddMeaning(r, acc, m, true);
    case 0xA => CombineMeaning(r, acc, m, OR);
    case _ => AddMeaning(r, acc, m, false);
  }

  predicate Only(r: Regs, acc: Acc, q: Regs)
  {
    q == SetAcc(r, acc, GetAcc(q, acc)).(ccr := q.ccr)
  }

  lemma AddMeaning(r: Regs, acc: Acc, m: Byte, withCarry: bool)
    ensures var q := AluExec(r, if withCarry then ADC else ADD, acc, m);
      var c := withCarry && r.ccr.c;
      && IsSum(GetAcc(r, acc), m, c, 0x100, GetAcc(q, acc), q.ccr)
      && IsHalf(GetAcc(r, acc), m, c, q.ccr) && q.ccr.i == r.ccr.i && Only(r, acc, q)
  {
    hide AddFlags, FitsSigned, Two;
    var x := GetAcc(r, acc);
    SumMeaning(r.ccr, x, m, withCarry && r.ccr.c, 0x100);
  }

  lemma SubtractMeaning(r: Regs, acc: Acc, m: Byte, op: AluOp)
    requires op == SUB || op == SBC || op == CMP
    ensures var q := AluExec(r, op, acc, m);
      var x := GetAcc(r, acc);
      var c := op == SBC && r.ccr.c;
      && IsDifference(x, m, c, 0x100, (x - m - One(c, 1)) % 0x100, q.ccr)
      && IsBorrow(x, m, c, q.ccr) && KeepsHI(r.ccr, q.ccr) && Only(r, acc, q)
      && GetAcc(q, acc) == if op == CMP then x else (x - m - One(c, 1)) % 0x100
  {
    hide SubFlags, IsDifference;
    DifferenceMeaning(r.ccr, GetAcc(r, acc), m, op == SBC && r.ccr.c, 0x100);
  }

  lemma CombineMeaning(r: Regs, acc: Acc, m: Byte, bop: Bitwise)
    ensures var q := AluExec(r, LOGIC(bop), acc, m);
      var x, v := GetAcc(r, acc), GetAcc(q, acc);
      && (bop == AND ==> IsAnd(v, x, m)) && (bop == OR ==> IsOr(v, x, m)) && (bop == XOR ==> IsXor(v, x, m))
      && IsMoved(v, 0x100, r.ccr, q.ccr) && KeepsHI(r.ccr, q.ccr) && Only(r, acc, q)
  {
    hide TestFlags, ByteOp, IsAnd, IsOr, IsXor, IsMoved;
    LogicMeaning(bop, GetAcc(r, acc), m);
    MovedMeaning(r.ccr, ByteOp(bop, GetAcc(r, acc), m), 0x100);
  }

  lemma BitTestMeaning(r: Regs, acc: Acc, m: Byte)
    ensures var q := AluExec(r, BIT, acc, m);
      && q == r.(ccr := q.ccr) && KeepsHI(r.ccr, q.ccr)
      && exists v: Byte :: IsAnd(v, GetAcc(r, acc), m) && IsMoved(v, 0x100, r.ccr, q.ccr)
  {
    hide TestFlags, ByteOp, IsAnd, IsMoved;
    var v := ByteOp(AND, GetAcc(r, acc), m);
    LogicMeaning(AND, GetAcc(r, acc), m);
    MovedMeaning(r.ccr, v, 0x100);
    assert IsAnd(v, GetAcc(r, acc), m);
  }

  // ---- operations on one byte ----

  lemma ModifyMeaning(d: int, f: Flags, x: Byte)
    requires IsModifyDigit(d)
    ensures var e := RmwExec(f, RmwOf(d), x); ModifyEffect(d, x, f, e.v, e.f)
  {
    hide ShiftLeft, ShiftRight, ShiftFlags, SubFlags, FitsSigned, Two;
    match d
    case 0 => DifferenceMeaning(f, 0, x, false, 0x100);
    case 4 => ShiftMeaning(d, f, x);
    case 6 => ShiftMeaning(d, f, x);
    case 7 => ShiftMeaning(d, f, x);
    case 8 => ShiftMeaning(d, f, x);
    case 9 => ShiftMeaning(d, f, x);
    case _ => MoveMeaning(d, f, x);
  }

  lemma MoveMeaning(d: int, f: Flags, x: Byte)
    requires d in {3, 0xA, 0xC, 0xD, 0xF}
    ensures var e := RmwExec(f, RmwOf(d), x); ModifyEffect(d, x, f, e.v, e.f)
  {
  }

  lemma ShiftMeaning(d: int, f: Flags, x: Byte)
    requires d in {4, 6, 7, 8, 9}
    ensures var e := RmwExec(f, RmwOf(d), x); ModifyEffect(d, x, f, e.v, e.f)
  {
    hide ShiftLeft, ShiftRight, ShiftFlags;
    if d == 8 || d == 9 {
      LeftMeaning(f, x, d == 9 && f.c);
    } else {
      RightMeaning(f, x, if d == 4 then false else if d == 6 then f.c else x >= 0x80);
    }
  }

  lemma LeftMeaning(f: Flags, x: Byte, low: bool)
    ensures var v := ShiftLeft(x, low, 0x100);
      var g := ShiftFlags(f, v, x >= 0x80, 0x100);
      && v + (if g.c then 0x100 else 0) == 2 * x + (if low then 1 else 0)
      && Describes(g, v, 0x100) && KeepsHI(f, g) && g.v == (g.n != g.c)
  {
    TopBit(x, 0x100);
    ShiftedLeft(x, low, 0x100);
  }

  lemma RightMeaning(f: Flags, x: Byte, high: bool)
    ensures var v := ShiftRight(x, high, 0x100);
      var g := ShiftFlags(f, v, x % 2 == 1, 0x100);
      && 2 * v + (if g.c then 1 else 0) == x + (if high then 0x100 else 0)
      && Describes(g, v, 0x100) && KeepsHI(f, g) && g.v == (g.n != g.c)
      && (v >= 0x80 <==> high)
  {
    ShiftedRight(x, high, 0x100);
  }

  // ---- branches ----

  lemma ConditionMeaning(d: int, f: Flags)
    requires 0 <= d < 0x10
    ensures Taken(CondOf(d), f) == Condition(d, f)
  {
  }

  lemma BranchMeaning(s: State, d: int)
    requires 0 <= d < 0x10
    ensures Exec(s, Branch(CondOf(d))).r.pc
         == (s.r.pc + 1 + if Condition(d, s.r.ccr) then Displacement(FetchB(s).v) else 0) % 0x1_0000
  {
    hide CondOf, Condition, Taken, D.Get;
    ConditionMeaning(d, s.r.ccr);
    FetchMoves(s);
    SumWraps(s.r.pc, 1, if Condition(d, s.r.ccr) then Displacement(FetchB(s).v) else 0);
  }

  lemma BranchTarget(s: State, c: Cond)
    ensures forall d | 0 <= d < 0x10 && CondOf(d) == c ::
      Exec(s, Branch(c)).r.pc == (s.r.pc + 1 + if Condition(d, s.r.ccr) then Displacement(FetchB(s).v) else 0) % 0x1_0000
  {
    hide CondOf, Condition, Exec, FetchB;
    forall d | 0 <= d < 0x10 && CondOf(d) == c
      ensures Exec(s, Branch(c)).r.pc
           == (s.r.pc + 1 + if Condition(d, s.r.ccr) then Displacement(FetchB(s).v) else 0) % 0x1_0000
    {
      BranchMeaning(s, d);
    }
  }

  lemma FetchMoves(s: State)
    ensures FetchB(s).s.r == s.r.(pc := (s.r.pc + 1) % 0x1_0000)
  {
    hide D.Get;
  }

  lemma SumWraps(x: Word, y: int, z: int)
    ensures ((x + y) % 0x1_0000 + z) % 0x1_0000 == (x + y + z) % 0x1_0000
  {
  }
}
