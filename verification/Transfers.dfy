// Steps of the 6303 on registers alone, on the stack, and to another place in the program: inherent
// instructions, jumps, calls, returns and interrupts (src/arch/m68xx/opfunc.c, src/arch/h6303/instr.c).

module Transfers {
  import opened Words
  import opened Alu
  import opened CallHistory
  import opened Optab
  import opened Machine
  import opened Simulation
  import opened Manual
  import opened Decode
  import opened Meaning
  import opened Instructions
  import D = Device

  // ---- registers ----

  /** Opcodes of the instructions that change registers alone, other than branches and stack ones. */
  predicate IsRegisterOpcode(op: int)
  {
    op == 1 || 4 <= op < 0x12 || 0x16 <= op < 0x1C || op == 0x30 || op == 0x3A || op == 0x3D || op == 0x3E
  }

  /** lsrd and asld. */
  predicate DoubleShifted(op: int, r: Regs, q: Regs)
  {
    var (d, e, g) := (AccumulatorD(r), AccumulatorD(q), q.ccr);
    && q == r.(a := q.a, b := q.b, ccr := g) && Describes(g, e, 0x1_0000) && KeepsHI(r.ccr, g) && g.v == (g.n != g.c)
    && if op == 4 then d == 2 * e + (if g.c then 1 else 0) && e < 0x8000
       else 2 * d == e + (if g.c then 0x1_0000 else 0)
  }

  /** The condition code instructions. */
  function FlagChange(op: int, f: Flags): Flags
  {
    match op
    case 0xA => f.(v := false)
    case 0xB => f.(v := true)
    case 0xC => f.(c := false)
    case 0xD => f.(c := true)
    case 0xE => f.(i := false)
    case 0xF => f.(i := true)
    case _ => f
  }

  predicate Multiplied(r: Regs, q: Regs)
  {
    q == r.(a := q.a, b := q.b, ccr := r.ccr.(c := q.b >= 0x80)) && AccumulatorD(q) == r.a * r.b
  }

  predicate RegisterEffect(op: int, r: Regs, q: Regs)
  {
    if op < 6 && op > 1 then DoubleShifted(op, r, q)
    else match op
      case 6 => q == r.(ccr := q.ccr) && FlagsFrom(r.a, q.ccr)
      case 7 => q == r.(a := q.a) && q.a == FlagByte(r.ccr)
      case 8 => q == r.(ix := (r.ix + 1) % 0x1_0000, ccr := r.ccr.(z := q.ix == 0))
      case 9 => q == r.(ix := (r.ix - 1) % 0x1_0000, ccr := r.ccr.(z := q.ix == 0))
      case 0x10 => q == r.(a := q.a, ccr := q.ccr) && ByteEffect(0, r.a, r.b, r.ccr, q.a, q.ccr)
      case 0x11 => q == r.(ccr := q.ccr) && ByteEffect(1, r.a, r.b, r.ccr, r.a, q.ccr)
      case 0x16 => q == r.(b := r.a, ccr := q.ccr) && IsMoved(r.a, 0x100, r.ccr, q.ccr) && KeepsHI(r.ccr, q.ccr)
      case 0x17 => q == r.(a := r.b, ccr := q.ccr) && IsMoved(r.b, 0x100, r.ccr, q.ccr) && KeepsHI(r.ccr, q.ccr)
      case 0x18 => q == r.(a := q.a, b := q.b, ix := q.ix) && q.ix == AccumulatorD(r) && AccumulatorD(q) == r.ix
      case 0x19 => q == r.(a := q.a, ccr := q.ccr) && Describes(q.ccr, q.a, 0x100) && !q.ccr.v && KeepsHI(r.ccr, q.ccr)
      case 0x1B => q == r.(a := q.a, ccr := q.ccr) && ByteEffect(0xB, r.a, r.b, r.ccr, q.a, q.ccr)
      case 0x30 => q == r.(ix := (r.sp + 1) % 0x1_0000)
      case 0x3A => q == r.(ix := (r.ix + r.b) % 0x1_0000)
      case 0x3D => Multiplied(r, q)
      case _ => q == r.(ccr := FlagChange(op, r.ccr))
  }

  function RegisterTime(op: int): int
  {
    match op case 0x18 => 2 case 0x19 => 2 case 0x1A => 4 case 0x3D => 7 case 0x3E => 9 case _ => 1
  }

  function InhOf(op: int): InhOp
  {
    match op
    case 4 => LSRD case 5 => ASLD case 6 => TAP case 7 => TPA case 8 => INX case 9 => DEX case 0xA => CLV
    case 0xB => SEV case 0xC => CLC case 0xD => SEC case 0xE => CLI case 0xF => SEI case 0x10 => SBA case 0x11 => CBA
    case 0x16 => TAB case 0x17 => TBA case 0x18 => XGDX case 0x19 => DAA case 0x1B => ABA case 0x30 => TSX
    case 0x3A => ABX case _ => MUL
  }

  /** nop, wai and slp only take time. */
  predicate Idles(op: int) { op == 1 || op == 0x1A || op == 0x3E }

  lemma RegisterLaw(op: Byte)
    requires IsRegisterOpcode(op)
    ensures Opcodetab(op).f == if Idles(op) then Nop else Inh(InhOf(op))
    ensures Opcodetab(op).cycles == RegisterTime(op)
  {
    hide TableEntry, InhOf, RegisterTime;
    if op < 0x10 {
      FirstRow(op, op / 0x10);
    } else if op < 0x20 {
      SecondRow(op - 0x10, op / 0x10);
    } else {
      FourthRow(op - 0x30, op / 0x10);
    }
  }

  lemma FirstRow(lo: nat, hi: int)
    requires IsRegisterOpcode(lo) && lo < 0x10 && hi == lo / 0x10
    ensures hi == 0 && lo % 0x10 == lo
    ensures TableEntry(0, lo).f == (if Idles(lo) then Nop else Inh(InhOf(lo)))
    ensures TableEntry(0, lo).cycles == RegisterTime(lo)
  {
  }

  lemma SecondRow(lo: nat, hi: int)
    requires IsRegisterOpcode(0x10 + lo) && lo < 0x10 && hi == (0x10 + lo) / 0x10
    ensures hi == 1 && (0x10 + lo) % 0x10 == lo
    ensures TableEntry(1, lo).f == (if Idles(0x10 + lo) then Nop else Inh(InhOf(0x10 + lo)))
    ensures TableEntry(1, lo).cycles == RegisterTime(0x10 + lo)
  {
  }

  lemma FourthRow(lo: nat, hi: int)
    requires IsRegisterOpcode(0x30 + lo) && lo < 0x10 && hi == (0x30 + lo) / 0x10
    ensures hi == 3 && (0x30 + lo) % 0x10 == lo
    ensures TableEntry(3, lo).f == (if Idles(0x30 + lo) then Nop else Inh(InhOf(0x30 + lo)))
    ensures TableEntry(3, lo).cycles == RegisterTime(0x30 + lo)
  {
  }

  lemma FlagMeaning(r: Regs)
    ensures FlagsFrom(r.a, InhExec(r, TAP).ccr) && InhExec(r, TPA).a == FlagByte(r.ccr)
  {
    hide Has, BitOn;
    BitIs(r.a);
  }

  lemma ShiftDoubleMeaning(r: Regs, op: int)
    requires op == 4 || op == 5
    ensures DoubleShifted(op, r, InhExec(r, InhOf(op)))
  {
    hide *;
    var d := AccD(r);
    DoubleIs(r, 0);
    ShiftWord(r.ccr, d);
    if op == 4 {
      RightDouble(r);
      DoubleSet(r, op, ShiftRight(d, false, 0x1_0000), ShiftFlags(r.ccr, ShiftRight(d, false, 0x1_0000), d % 2 == 1, 0x1_0000));
    } else {
      LeftDouble(r);
      DoubleSet(r, op, ShiftLeft(d, false, 0x1_0000), ShiftFlags(r.ccr, ShiftLeft(d, false, 0x1_0000), d >= 0x8000, 0x1_0000));
    }
  }

  lemma RightDouble(r: Regs)
    ensures var w := ShiftRight(AccD(r), false, 0x1_0000);
      0 <= w < 0x1_0000 && InhExec(r, InhOf(4)) == SetAccD(r.(ccr := ShiftFlags(r.ccr, w, AccD(r) % 2 == 1, 0x1_0000)), w)
  {
    hide ShiftRight, ShiftFlags, AccD, SetAccD;
    ShiftedRight(AccD(r), false, 0x1_0000);
  }

  lemma LeftDouble(r: Regs)
    ensures var w := ShiftLeft(AccD(r), false, 0x1_0000);
      0 <= w < 0x1_0000 && InhExec(r, InhOf(5)) == SetAccD(r.(ccr := ShiftFlags(r.ccr, w, AccD(r) >= 0x8000, 0x1_0000)), w)
  {
    hide ShiftLeft, ShiftFlags, AccD, SetAccD;
    ShiftedLeft(AccD(r), false, 0x1_0000);
  }

  lemma DoubleSet(r: Regs, op: int, w: Word, f: Flags)
    requires Describes(f, w, 0x1_0000) && KeepsHI(r.ccr, f) && f.v == (f.n != f.c)
    requires if op == 4 then AccumulatorD(r) == 2 * w + (if f.c then 1 else 0) && w < 0x8000
             else 2 * AccumulatorD(r) == w + (if f.c then 0x1_0000 else 0)
    ensures DoubleShifted(op, r, SetAccD(r.(ccr := f), w))
  {
    hide AccumulatorD, Hi, Lo, Describes, KeepsHI;
    DoubleIs(r.(ccr := f), w);
  }

  lemma ShiftWord(f: Flags, d: Word)
    ensures var w := ShiftRight(d, false, 0x1_0000);
      var g := ShiftFlags(f, w, d % 2 == 1, 0x1_0000);
      && d == 2 * w + (if g.c then 1 else 0) && 0 <= w < 0x8000 && Describes(g, w, 0x1_0000) && KeepsHI(f, g)
      && g.v == (g.n != g.c)
    ensures var w := ShiftLeft(d, false, 0x1_0000);
      var g := ShiftFlags(f, w, d >= 0x8000, 0x1_0000);
      && 2 * d == w + (if g.c then 0x1_0000 else 0) && Describes(g, w, 0x1_0000) && KeepsHI(f, g)
      && g.v == (g.n != g.c)
  {
    hide ShiftFlags, Describes, Bit;
    TopBit(d, 0x1_0000);
    ShiftedLeft(d, false, 0x1_0000);
    ShiftedRight(d, false, 0x1_0000);
    ShiftedFlags(f, ShiftRight(d, false, 0x1_0000), d % 2 == 1);
    ShiftedFlags(f, ShiftLeft(d, false, 0x1_0000), d >= 0x8000);
  }

  lemma ShiftedFlags(f: Flags, w: Word, out: bool)
    ensures var g := ShiftFlags(f, w, out, 0x1_0000);
      g.c == out && Describes(g, w, 0x1_0000) && KeepsHI(f, g) && g.v == (g.n != g.c)
  {
    assert w % 0x1_0000 == w;
  }

  lemma BetweenMeaning(r: Regs, op: int)
    requires op in {0x10, 0x11, 0x16, 0x17, 0x1B}
    ensures RegisterEffect(op, r, InhExec(r, InhOf(op)))
  {
    hide ByteEffect;
    hide RegisterEffect, InhExec, AluExec;
    if op == 0x16 || op == 0x17 {
      TransferMeaning(r);
    } else if op == 0x10 {
      ByteMeaning(0, r, A, r.b);
      CombinedEffect(op, 0, r, AluExec(r, SUB, A, r.b));
    } else if op == 0x11 {
      ByteMeaning(1, r, A, r.b);
      CombinedEffect(op, 1, r, AluExec(r, CMP, A, r.b));
    } else {
      ByteMeaning(0xB, r, A, r.b);
      CombinedEffect(op, 0xB, r, AluExec(r, ADD, A, r.b));
    }
    BetweenIs(r);
  }

  lemma BetweenIs(r: Regs)
    ensures InhExec(r, SBA) == AluExec(r, SUB, A, r.b)
    ensures InhExec(r, CBA) == AluExec(r, CMP, A, r.b)
    ensures InhExec(r, ABA) == AluExec(r, ADD, A, r.b)
  {
    hide AluExec;
  }

  lemma CombinedEffect(op: int, d: int, r: Regs, q: Regs)
    requires (op, d) in {(0x10, 0), (0x11, 1), (0x1B, 0xB)}
    requires ByteEffect(d, r.a, r.b, r.ccr, q.a, q.ccr) && q == r.(a := q.a, ccr := q.ccr)
    ensures RegisterEffect(op, r, q)
  {
    hide IsDifference, IsBorrow, IsSum, IsHalf, KeepsHI, Multiplied, FlagsFrom, FlagByte, DoubleShifted, IsMoved;
  }

  lemma TransferMeaning(r: Regs)
    ensures RegisterEffect(0x16, r, InhExec(r, TAB)) && RegisterEffect(0x17, r, InhExec(r, TBA))
  {
    hide AluExec, IsDifference, IsSum, IsMoved, IsAnd, Multiplied, FlagsFrom, FlagByte, DoubleShifted, Describes;
    ByteMeaning(6, r, B, r.a);
    ByteMeaning(6, r, A, r.b);
  }

  lemma ExchangeEffect(r: Regs, q: Regs)
    requires q == r.(a := q.a, b := q.b, ix := q.ix) && q.ix == AccumulatorD(r) && AccumulatorD(q) == r.ix
    ensures RegisterEffect(0x18, r, q)
  {
    hide AccumulatorD, ByteEffect, Multiplied, FlagsFrom, FlagByte, DoubleShifted, IsMoved, Describes;
  }

  lemma ExchangeMeaning(r: Regs)
    ensures RegisterEffect(0x18, r, InhExec(r, XGDX))
  {
    hide *;
    Exchanged(r, AccD(r));
    DoubleIs(r, 0);
    ExchangeEffect(r, InhExec(r, XGDX));
  }

  lemma Exchanged(r: Regs, d: Word)
    requires d == AccD(r)
    ensures var q := InhExec(r, XGDX);
      q == r.(a := q.a, b := q.b, ix := d) && AccumulatorD(q) == r.ix
  {
    hide AccD, AccumulatorD, Hi, Lo;
    DoubleIs(r.(ix := d), r.ix);
  }

  lemma ProductIs(x: Byte, y: Byte)
    ensures Product(x, y) == x * y
  {
  }

  lemma MultiplyMeaning(r: Regs)
    ensures Multiplied(r, InhExec(r, MUL))
  {
    hide Product, AccumulatorD;
    ProductIs(r.a, r.b);
    var w := Product(r.a, r.b);
    DoubleIs(r.(ccr := r.ccr.(c := Lo(w) >= 0x80)), w);
  }

  lemma WordEffects(r: Regs, q: Regs)
    ensures DoubleShifted(4, r, q) ==> RegisterEffect(4, r, q)
    ensures DoubleShifted(5, r, q) ==> RegisterEffect(5, r, q)
    ensures Multiplied(r, q) ==> RegisterEffect(0x3D, r, q)
  {
    hide DoubleShifted, Multiplied;
  }

  lemma RegisterMeaning(r: Regs, op: int)
    requires IsRegisterOpcode(op) && !Idles(op)
    ensures RegisterEffect(op, r, InhExec(r, InhOf(op)))
  {
    hide RegisterEffect, InhExec, Multiplied, DoubleShifted;
    if op == 4 || op == 5 {
      ShiftDoubleMeaning(r, op);
      WordEffects(r, InhExec(r, InhOf(op)));
    } else if op in {0x10, 0x11, 0x16, 0x17, 0x1B} {
      BetweenMeaning(r, op);
    } else if op == 0x18 {
      ExchangeMeaning(r);
    } else if op == 0x3D {
      MultiplyMeaning(r);
      WordEffects(r, InhExec(r, MUL));
    } else {
      SimpleMeaning(r, op);
    }
  }

  lemma SimpleMeaning(r: Regs, op: int)
    requires op in {6, 7, 8, 9, 0xA, 0xB, 0xC, 0xD, 0xE, 0xF, 0x19, 0x30, 0x3A}
    ensures RegisterEffect(op, r, InhExec(r, InhOf(op)))
  {
    hide FlagByte, FlagsFrom, Pack, Unpack, DaaSum, Multiplied, DoubleShifted;
    FlagMeaning(r);
  }

  /** Inherent instructions on registers: shifts of D, condition codes, INX and DEX, transfers and
      arithmetic between registers, XGDX, MUL, and those that only take time. */
  lemma RegisterStep(s: State, op: Byte)
    requires Ready(s) && op == Code(s, 0) && IsRegisterOpcode(op)
    ensures var t := Step(s);
      && MemoryKept(s, t) && t.cycles == s.cycles + RegisterTime(op) && RegisterEffect(op, Past(s, 1), t.r)
  {
    hide *;
    var u := Fetching(s);
    StepIs(s, op);
    RegisterLaw(op);
    RegisterExec(u, op);
    RegistersChanged(s, u, Exec(u, Opcodetab(op).f), op, Step(s));
  }

  lemma RegisterExec(u: State, op: int)
    requires IsRegisterOpcode(op)
    ensures var t := Exec(u, if Idles(op) then Nop else Inh(InhOf(op)));
      t == u.(r := t.r) && RegisterEffect(op, u.r, t.r)
  {
    hide IsRegisterOpcode, Idles, RegisterEffect, InhExec, InhOf;
    if Idles(op) {
      IdleMeaning(u.r, op);
    } else {
      RegisterMeaning(u.r, op);
    }
  }

  lemma IdleMeaning(r: Regs, op: int)
    requires Idles(op)
    ensures RegisterEffect(op, r, r)
  {
  }

  lemma RegistersChanged(s: State, u: State, t: State, op: int, v: State)
    requires Ready(s) && MovedTo(s, s.r.pc + 1, u) && t == u.(r := t.r) && RegisterEffect(op, u.r, t.r)
    requires Ended(t, RegisterTime(op), v)
    ensures MemoryKept(s, v) && v.cycles == s.cycles + RegisterTime(op) && RegisterEffect(op, Past(s, 1), v.r)
  {
    hide DueVector, RegisterEffect, RegisterTime;
  }

  // ---- stack ----

  /** SP as it is after `n` bytes are pushed or pulled, RAM given, other registers as before. */
  predicate StackMoved(u: State, n: int, t: State)
  {
    t.r.sp == u.r.sp + n && t.r == u.r.(sp := t.r.sp) && t.cycles == u.cycles
  }

  lemma PushIs(u: State, v: Byte)
    requires 0x21 <= u.r.sp
    ensures var t := PushB(u, v);
      StackMoved(u, -1, t) && t.ram == u.ram[u.r.sp := v] && t.cs == u.cs
  {
  }

  lemma PushWordIs(u: State, w: Word)
    requires 0x22 <= u.r.sp
    ensures var t := PushW(u, w);
      StackMoved(u, -2, t) && t.ram == u.ram[u.r.sp := w % 0x100][u.r.sp - 1 := w / 0x100] && t.cs == u.cs
  {
    hide PushB;
    PushIs(u, w % 0x100);
    PushIs(PushB(u, w % 0x100), w / 0x100);
  }

  lemma DropMore(cs: seq<Entry>, value: int, cs': seq<Entry>, value': int, cs'': seq<Entry>)
    requires value <= value' && Dropped(cs, value, cs') && Dropped(cs', value', cs'')
    ensures Dropped(cs, value', cs'')
  {
    forall i | |cs''| <= i < |cs| ensures cs[i].sp < value' {
      if i < |cs'| {
        assert cs'[i].sp < value';
      }
    }
  }

  lemma PullIs(u: State)
    requires 0x21 <= u.r.sp + 1 < 0x1_0000
    ensures var g := PopB(u);
      g.v == u.ram[u.r.sp + 1] && StackMoved(u, 1, g.s) && g.s.ram == u.ram && Dropped(u.cs, u.r.sp + 1, g.s.cs)
  {
    hide PopWhile, Dropped;
    PopDrops(u.cs, u.r.sp + 1);
  }

  lemma PullWordIs(u: State)
    requires 0x21 <= u.r.sp + 1 && u.r.sp + 2 < 0x1_0000
    ensures var g := PopW(u);
      && g.w == Pair(u.ram[u.r.sp + 1], u.ram[u.r.sp + 2]) && StackMoved(u, 2, g.s) && g.s.ram == u.ram
      && Dropped(u.cs, u.r.sp + 2, g.s.cs)
  {
    hide PopB, Dropped;
    var v := PopB(u).s;
    PullIs(u);
    PullIs(v);
    DropMore(u.cs, u.r.sp + 1, v.cs, u.r.sp + 2, PopB(v).s.cs);
  }

  /** Opcodes of psha, pshb and pshx; pula, pulb and pulx; ins, des and txs. */
  function StackFunc(op: int): Func
  {
    match op
    case 0x31 => Ins case 0x32 => Pul(A) case 0x33 => Pul(B) case 0x34 => Des case 0x35 => Txs case 0x36 => Psh(A)
    case 0x37 => Psh(B) case 0x38 => Pulx case 0x39 => Rts case 0x3B => Rti case 0x3C => Pshx case _ => Swi
  }

  function StackTime(op: int): int
  {
    match op
    case 0x31 => 1 case 0x32 => 3 case 0x33 => 3 case 0x34 => 1 case 0x35 => 1 case 0x36 => 4
    case 0x37 => 4 case 0x38 => 4 case 0x39 => 5 case 0x3B => 10 case 0x3C => 5 case _ => 12
  }

  lemma StackLaw(op: Byte)
    requires 0x31 <= op < 0x3A || op == 0x3B || op == 0x3C || op == 0x3F
    ensures Opcodetab(op).f == StackFunc(op) && Opcodetab(op).cycles == StackTime(op)
  {
    assert op / 0x10 == 3;
    assert op % 0x10 == op - 0x30;
  }

  /** psha, pshb and pshx: the low byte of a word lies above its high byte. */
  predicate Pushed(op: Byte, r: Regs, ram: Ram, q: Regs, ram': Ram)
    requires 0x22 <= r.sp
  {
    && q == r.(sp := r.sp - if op == 0x3C then 2 else 1)
    && ram' == if op == 0x3C then ram[r.sp := r.ix % 0x100][r.sp - 1 := r.ix / 0x100]
               else ram[r.sp := if op == 0x36 then r.a else r.b]
  }

  lemma PushStep(s: State, op: Byte)
    requires Ready(s) && op == Code(s, 0) && (op == 0x36 || op == 0x37 || op == 0x3C) && 0x22 <= s.r.sp
    ensures var t := Step(s);
      && Pushed(op, Past(s, 1), s.ram, t.r, t.ram) && t.cs == s.cs
      && t.cycles == s.cycles + (if op == 0x3C then 5 else 4)
  {
    hide Step, FetchB, Opcodetab, DueVector, Exec, StackFunc, Pushed;
    StepIs(s, op);
    PushLaw(op);
    PushExec(Fetching(s), op);
  }

  lemma PushLaw(op: Byte)
    requires op == 0x36 || op == 0x37 || op == 0x3C
    ensures Opcodetab(op).f == StackFunc(op) && Opcodetab(op).cycles == if op == 0x3C then 5 else 4
  {
    hide Opcodetab, StackFunc;
    StackLaw(op);
  }

  lemma PushExec(u: State, op: Byte)
    requires (op == 0x36 || op == 0x37 || op == 0x3C) && 0x22 <= u.r.sp
    ensures var t := Exec(u, StackFunc(op));
      Pushed(op, u.r, u.ram, t.r, t.ram) && t.cs == u.cs && t.cycles == u.cycles
  {
    hide PushB, PushW;
    PushIs(u, if op == 0x36 then u.r.a else u.r.b);
    PushWordIs(u, u.r.ix);
  }

  /** pula, pulb and pulx. */
  predicate Pulled(op: Byte, r: Regs, ram: Ram, q: Regs)
    requires 0x20 <= r.sp && r.sp + 2 < 0x1_0000
  {
    var x := ram[r.sp + 1];
    && (op == 0x32 ==> q == r.(a := x, sp := r.sp + 1)) && (op == 0x33 ==> q == r.(b := x, sp := r.sp + 1))
    && (op == 0x38 ==> q == r.(ix := q.ix, sp := r.sp + 2) && q.ix == Pair(x, ram[r.sp + 2]))
  }

  lemma PullStep(s: State, op: Byte)
    requires Ready(s) && op == Code(s, 0) && (op == 0x32 || op == 0x33 || op == 0x38)
    requires 0x20 <= s.r.sp && s.r.sp + 2 < 0x1_0000
    ensures var t := Step(s);
      && t.ram == s.ram && t.cycles == s.cycles + (if op == 0x38 then 4 else 3) && Pulled(op, Past(s, 1), s.ram, t.r)
      && Dropped(s.cs, t.r.sp, t.cs)
  {
    hide Step, FetchB, Opcodetab, DueVector, Exec, StackFunc, Pulled, Dropped;
    StepIs(s, op);
    PullLaw(op);
    PullExec(Fetching(s), op);
  }

  lemma PullLaw(op: Byte)
    requires op == 0x32 || op == 0x33 || op == 0x38
    ensures Opcodetab(op).f == StackFunc(op) && Opcodetab(op).cycles == if op == 0x38 then 4 else 3
  {
    hide Opcodetab, StackFunc;
    StackLaw(op);
  }

  lemma PullExec(u: State, op: Byte)
    requires op == 0x32 || op == 0x33 || op == 0x38
    requires 0x20 <= u.r.sp && u.r.sp + 2 < 0x1_0000
    ensures var t := Exec(u, StackFunc(op));
      Pulled(op, u.r, u.ram, t.r) && t.ram == u.ram && t.cycles == u.cycles && Dropped(u.cs, t.r.sp, t.cs)
  {
    hide PopB, PopW, Pair, Exec, Dropped;
    PullIs(u);
    PullWordIs(u);
    PullCases(u);
  }

  lemma PullCases(u: State)
    ensures var g := PopB(u);
      && Exec(u, Pul(A)) == g.s.(r := g.s.r.(a := g.v)) && Exec(u, Pul(B)) == g.s.(r := g.s.r.(b := g.v))
    ensures var g := PopW(u); Exec(u, Pulx) == g.s.(r := g.s.r.(ix := g.w))
  {
    hide PopB, PopW;
  }

  /** ins, des and txs. */
  function NewPointer(op: Byte, r: Regs): int
  {
    if op == 0x31 then r.sp + 1 else if op == 0x34 then r.sp - 1 else r.ix - 1
  }

  /** SP is set modulo 65536, but the call stack sees the 32-bit value. */
  predicate PointerSet(op: Byte, r: Regs, cs: seq<Entry>, q: Regs, cs': seq<Entry>)
  {
    var x := NewPointer(op, r) % 0x1_0000_0000;
    && q == r.(sp := NewPointer(op, r) % 0x1_0000)
    && PointerMoved(cs, r.sp, x, cs')
  }

  lemma StackPointerStep(s: State, op: Byte)
    requires Ready(s) && op == Code(s, 0) && (op == 0x31 || op == 0x34 || op == 0x35)
    ensures var t := Step(s); t.ram == s.ram && t.cycles == s.cycles + 1 && PointerSet(op, Past(s, 1), s.cs, t.r, t.cs)
  {
    hide Step, FetchB, Opcodetab, DueVector, Exec, StackFunc, PointerSet;
    StepIs(s, op);
    PointerLaw(op);
    PointerExec(Fetching(s), op);
  }

  lemma PointerLaw(op: Byte)
    requires op == 0x31 || op == 0x34 || op == 0x35
    ensures Opcodetab(op).f == StackFunc(op) && Opcodetab(op).cycles == 1
  {
    hide Opcodetab, StackFunc;
    StackLaw(op);
  }

  lemma PointerExec(u: State, op: Byte)
    requires op == 0x31 || op == 0x34 || op == 0x35
    ensures var t := Exec(u, StackFunc(op));
      t.ram == u.ram && t.cycles == u.cycles && PointerSet(op, u.r, u.cs, t.r, t.cs)
  {
    hide AfterSetSp, Mod32, PointerSet, SetSp;
    var x := NewPointer(op, u.r);
    WrappedPointer(x);
    PointerIs(u, op, Mod32(x));
  }

  lemma WrappedPointer(x: int)
    requires -1 <= x <= 0x1_0000
    ensures Mod32(x) == x % 0x1_0000_0000 && Mod32(x) % 0x1_0000 == x % 0x1_0000
  {
  }

  lemma PointerIs(u: State, op: Byte, x: nat)
    requires x == NewPointer(op, u.r) % 0x1_0000_0000 && x % 0x1_0000 == NewPointer(op, u.r) % 0x1_0000
    ensures var t := SetSp(u, x); t.ram == u.ram && t.cycles == u.cycles && PointerSet(op, u.r, u.cs, t.r, t.cs)
  {
    hide PopWhile, Dropped, NewPointer;
    PopDrops(u.cs, x);
  }

  // ---- jumps, calls and returns ----

  /** jmp. */
  lemma JumpStep(s: State, op: Byte, mode: int)
    requires Ready(s) && op == Code(s, 0) && (op == 0x6E || op == 0x7E) && mode == if op == 0x6E then 2 else 3
    ensures var t := Step(s); MemoryKept(s, t) && t.cycles == s.cycles + 3 && t.r == s.r.(pc := Target(s, mode))
  {
    hide Step, FetchB, Opcodetab, DueVector, Address, ModeOf, Target;
    var u := Fetching(s);
    StepIs(s, op);
    MemoryMode(op, mode);
    AddressIs(s, u, op, mode);
    JumpLaw(op);
  }

  lemma JumpLaw(op: Byte)
    requires op == 0x6E || op == 0x7E
    ensures Opcodetab(op).f == Jmp(ModeOf(op)) && Opcodetab(op).cycles == 3
  {
    hide Opcodetab;
    ModifyOpcodes(op);
  }

  /** A subroutine call stacks the return address, low byte first, and records the call. */
  predicate Called(s: State, ret: int, target: int, t: State)
    requires 0x22 <= s.r.sp && 0 <= ret < 0x1_0000
  {
    && t.r.pc == target % 0x1_0000 && t.r == s.r.(pc := t.r.pc, sp := s.r.sp - 2)
    && t.ram == s.ram[s.r.sp := ret % 0x100][s.r.sp - 1 := ret / 0x100]
    && t.cs == if |s.cs| < 256 then s.cs + [Entry(target % 0x1_0000_0000, s.r.sp - 2)] else s.cs
  }

  lemma CallIs(u: State, addr: int)
    requires 0x22 <= u.r.sp
    ensures var t := JsrAddr(u, addr); Called(u, u.r.pc, addr, t) && t.cycles == u.cycles
  {
    hide PushW;
    PushWordIs(u, u.r.pc);
  }

  lemma CallFrom(s: State, ret: int, addr: int, u: State, t: State, cycles: int, v: State)
    requires 0x22 <= s.r.sp && 0 <= ret < 0x1_0000 && MovedTo(s, ret, u)
    requires Called(u, ret, addr, t) && t.cycles == u.cycles && Ended(t, cycles, v)
    ensures Called(s, ret, addr, v) && v.cycles == s.cycles + cycles
  {
  }

  /** jsr: the return address is that of the next instruction. */
  lemma CallStep(s: State, op: Byte, mode: int)
    requires Ready(s) && op == Code(s, 0) && op in {0x9D, 0xAD, 0xBD} && mode == op / 0x10 % 4 && 0x22 <= s.r.sp
    ensures var t := Step(s);
      && Called(s, s.r.pc + (if mode == 3 then 3 else 2), Target(s, mode), t)
      && t.cycles == s.cycles + (if mode == 3 then 6 else 5)
  {
    hide Step, FetchB, Opcodetab, DueVector, Address, ModeOf, Target, JsrAddr, Called, Exec;
    var u := Fetching(s);
    var g := Address(u, ModeOf(op));
    StepIs(s, op);
    CallLaw(op, mode);
    AddressIs(s, u, op, mode);
    CallExec(u, ModeOf(op));
    CallIs(g.s, g.w);
    CallFrom(s, s.r.pc + (if mode == 3 then 3 else 2), g.w, g.s, JsrAddr(g.s, g.w), if mode == 3 then 6 else 5, Step(s));
  }

  lemma CallExec(u: State, mode: Mode)
    ensures Exec(u, Jsr(mode)) == JsrAddr(Address(u, mode).s, Address(u, mode).w)
    ensures Exec(u, Bsr) == JsrAddr(FetchB(u).s, Displacement(FetchB(u).v) + FetchB(u).s.r.pc)
  {
    hide Address, JsrAddr, FetchB;
  }

  lemma CallLaw(op: Byte, mode: int)
    requires op in {0x9D, 0xAD, 0xBD} && mode == op / 0x10 % 4
    ensures Opcodetab(op).f == Jsr(ModeOf(op)) && Opcodetab(op).cycles == (if mode == 3 then 6 else 5) && mode != 0
  {
    hide Opcodetab;
    HighOpcodes(op);
  }

  /** bsr: the recorded address is not reduced to 16 bits. */
  lemma RelativeCallStep(s: State)
    requires Ready(s) && Code(s, 0) == 0x8D && 0x22 <= s.r.sp
    ensures var t := Step(s);
      Called(s, s.r.pc + 2, s.r.pc + 2 + Displacement(Code(s, 1)), t) && t.cycles == s.cycles + 5
  {
    hide Step, FetchB, Opcodetab, DueVector, JsrAddr, Called, Exec, Displacement;
    var u := Fetching(s);
    var g := FetchB(u);
    StepIs(s, 0x8D);
    OneByte(u);
    RelativeCallLaw();
    CallExec(u, Imm);
    CallIs(g.s, Displacement(Code(s, 1)) + s.r.pc + 2);
    CallFrom(s, s.r.pc + 2, Displacement(Code(s, 1)) + s.r.pc + 2, g.s, Exec(u, Bsr), 5, Step(s));
  }

  lemma RelativeCallLaw()
    ensures Opcodetab(0x8D).f == Bsr && Opcodetab(0x8D).cycles == 5
  {
  }

  /** rts. */
  lemma ReturnStep(s: State)
    requires Ready(s) && Code(s, 0) == 0x39 && 0x20 <= s.r.sp && s.r.sp + 2 < 0x1_0000
    ensures var t := Step(s);
      && t.ram == s.ram && t.cycles == s.cycles + 5 && t.r == s.r.(pc := t.r.pc, sp := s.r.sp + 2)
      && t.r.pc == Pair(s.ram[s.r.sp + 1], s.ram[s.r.sp + 2]) && Dropped(s.cs, s.r.sp + 2, t.cs)
  {
    hide Step, FetchB, Opcodetab, DueVector, Exec, Pair, Dropped;
    StepIs(s, 0x39);
    StackLaw(0x39);
    ReturnExec(Fetching(s));
  }

  lemma ReturnExec(u: State)
    requires 0x20 <= u.r.sp && u.r.sp + 2 < 0x1_0000
    ensures var t := Exec(u, Rts);
      && t.ram == u.ram && t.cycles == u.cycles && t.r == u.r.(pc := t.r.pc, sp := u.r.sp + 2)
      && t.r.pc == Pair(u.ram[u.r.sp + 1], u.ram[u.r.sp + 2]) && Dropped(u.cs, u.r.sp + 2, t.cs)
  {
    hide PopW, Dropped;
    PullWordIs(u);
  }

  // ---- interrupts ----

  /** The seven bytes that an interrupt at `s` stacks, with the return address `ret`. */
  function Frame(s: State, ret: int): seq<int>
  {
    [FlagByte(s.r.ccr), s.r.b, s.r.a, s.r.ix / 0x100, s.r.ix % 0x100, ret / 0x100, ret % 0x100]
  }

  /** The machine entered the handler at `vector`: the frame lies above the new SP in RAM and no
      other byte changed, interrupts are masked, and the handler is recorded as a call. */
  predicate Entered(s: State, ret: int, vector: int, t: State)
    requires InRam(s.r.sp - 6, 7) && InRam(vector, 2)
  {
    && t.r.pc == Pair(s.ram[vector], s.ram[vector + 1])
    && t.r == s.r.(pc := t.r.pc, sp := s.r.sp - 7, ccr := s.r.ccr.(i := true))
    && t.ram[s.r.sp - 6..s.r.sp + 1] == Frame(s, ret)
    && t.ram[..s.r.sp - 6] == s.ram[..s.r.sp - 6] && t.ram[s.r.sp + 1..] == s.ram[s.r.sp + 1..]
    && t.cs == if |s.cs| < 256 then s.cs + [Entry(t.r.pc, s.r.sp - 7)] else s.cs
  }

  /** The vector lies outside the register block and the frame. */
  predicate VectorApart(s: State, vector: int)
  {
    InRam(s.r.sp - 6, 7) && InRam(vector, 2) && (vector + 1 < s.r.sp - 6 || s.r.sp < vector)
  }

  lemma StackedIs(u: State)
    requires InRam(u.r.sp - 6, 7)
    ensures var (sp, r, t) := (u.r.sp, u.r, StackRegs(u));
      && StackMoved(u, -7, t) && t.cs == u.cs
      && t.ram == u.ram[sp := r.pc % 0x100][sp - 1 := r.pc / 0x100][sp - 2 := r.ix % 0x100][sp - 3 := r.ix / 0x100]
                       [sp - 4 := r.a][sp - 5 := r.b][sp - 6 := Pack(r.ccr)]
  {
    hide PushW, PushB, Pack;
    var r := u.r;
    PushWordIs(u, r.pc);
    var s1 := PushW(u, r.pc);
    PushWordIs(s1, r.ix);
    var s2 := PushW(s1, r.ix);
    PushIs(s2, r.a);
    var s3 := PushB(s2, r.a);
    PushIs(s3, r.b);
    PushIs(PushB(s3, r.b), Pack(r.ccr));
  }

  lemma FrameSlices(ram: Ram, sp: Word, f: seq<Byte>, t: Ram)
    requires InRam(sp - 6, 7) && |f| == 7
    requires t == ram[sp := f[6]][sp - 1 := f[5]][sp - 2 := f[4]][sp - 3 := f[3]][sp - 4 := f[2]][sp - 5 := f[1]][sp - 6 := f[0]]
    ensures t[sp - 6..sp + 1] == f && t[..sp - 6] == ram[..sp - 6] && t[sp + 1..] == ram[sp + 1..]
  {
  }

  lemma FlagByteIs(f: Flags)
    ensures Pack(f) == FlagByte(f)
  {
  }

  lemma FrameIs(u: State, t: State)
    requires InRam(u.r.sp - 6, 7) && t == StackRegs(u)
    ensures StackMoved(u, -7, t) && t.cs == u.cs && t.ram[u.r.sp - 6..u.r.sp + 1] == Frame(u, u.r.pc)
    ensures t.ram[..u.r.sp - 6] == u.ram[..u.r.sp - 6] && t.ram[u.r.sp + 1..] == u.ram[u.r.sp + 1..]
  {
    hide StackRegs, Pack, FlagByte;
    StackedIs(u);
    FlagByteIs(u.r.ccr);
    FrameSlices(u.ram, u.r.sp, Frame(u, u.r.pc), t.ram);
  }

  lemma VectorKept(s: State, vector: int, t: Ram)
    requires VectorApart(s, vector)
    requires t[..s.r.sp - 6] == s.ram[..s.r.sp - 6] && t[s.r.sp + 1..] == s.ram[s.r.sp + 1..]
    ensures t[vector] == s.ram[vector] && t[vector + 1] == s.ram[vector + 1]
  {
    if s.r.sp < vector {
      assert t[vector] == t[s.r.sp + 1..][vector - s.r.sp - 1];
      assert t[vector + 1] == t[s.r.sp + 1..][vector - s.r.sp];
    } else {
      assert t[vector] == t[..s.r.sp - 6][vector];
      assert t[vector + 1] == t[..s.r.sp - 6][vector + 1];
    }
  }

  lemma EntryIs(u: State, vector: Word)
    requires VectorApart(u, vector)
    ensures var t := IntAddr(u, vector); Entered(u, u.r.pc, vector, t) && t.cycles == u.cycles
  {
    hide StackRegs, GetW, Frame;
    var t := StackRegs(u);
    FrameIs(u, t);
    VectorKept(u, vector, t.ram);
    RamWord(t, vector);
  }

  /** The same from before the opcode was fetched. */
  lemma EntryFrom(s: State, ret: int, vector: int, u: State, t: State, cycles: int, v: State)
    requires InRam(s.r.sp - 6, 7) && InRam(vector, 2) && MovedTo(s, ret, u)
    requires Entered(u, ret, vector, t) && t.cycles == u.cycles && Ended(t, cycles, v)
    ensures Entered(s, ret, vector, v) && v.cycles == s.cycles + cycles
  {
    hide FlagByte;
  }

  /** The request that is due is entered through its own vector: input capture 0xFFF6, output
      compare 0xFFF4, timer overflow 0xFFF2, serial 0xFFF0. */
  lemma InterruptStep(s: State)
    requires DueVector(s) != 0 && VectorApart(s, DueVector(s))
    ensures var t := Step(s); Entered(s, s.r.pc, DueVector(s), t) && t.cycles == s.cycles + 12
  {
    hide *;
    var v := DueVector(s);
    DueIs(s);
    StepCases(s);
    VectorIsWord(s);
    EntryIs(s, v);
    InterruptEnd(s, IntAddr(s, v), Step(s));
    EntryFrom(s, s.r.pc, v, s, IntAddr(s, v), 12, Step(s));
  }

  lemma VectorIsWord(s: State)
    ensures 0 <= DueVector(s) < 0x1_0000
    ensures VectorApart(s, DueVector(s)) ==> InRam(s.r.sp - 6, 7) && InRam(DueVector(s), 2)
  {
    hide CaptureDue, CompareDue, OverflowDue, SerialDue;
  }

  lemma InterruptEnd(s: State, t: State, v: State)
    requires v == Elapse(t, SWI_CYCLES)
    ensures MovedTo(s, s.r.pc, s) && Ended(t, 12, v)
  {
    hide D.Tick;
  }

  /** swi enters through 0xFFFA and returns behind itself. */
  lemma SoftwareInterruptStep(s: State)
    requires Ready(s) && Code(s, 0) == 0x3F && VectorApart(s, 0xFFFA)
    ensures var t := Step(s); Entered(s, s.r.pc + 1, 0xFFFA, t) && t.cycles == s.cycles + 12
  {
    hide Step, FetchB, Opcodetab, DueVector, IntAddr, Entered;
    StepIs(s, 0x3F);
    StackLaw(0x3F);
    var u := Fetching(s);
    EntryIs(u, 0xFFFA);
    EntryFrom(s, s.r.pc + 1, 0xFFFA, u, IntAddr(u, 0xFFFA), 12, Step(s));
  }

  /** Opcodes that are not instructions. */
  predicate IsTrap(op: int)
  {
    || op == 0 || op == 2 || op == 3 || 0x12 <= op < 0x16 || 0x1C <= op < 0x20
    || (0x40 <= op < 0x60 && op % 0x10 in {1, 2, 5, 0xB, 0xE})
    || op in {0x87, 0x8F, 0xC7, 0xCD, 0xCF}
  }

  lemma TrapLaw(op: Byte)
    requires IsTrap(op)
    ensures Opcodetab(op).f == Trap && Opcodetab(op).cycles == 0
  {
    hide TableEntry, Opcodetab;
    if op >= 0x80 {
      HighOpcodes(op);
    } else if op >= 0x40 {
      ModifyOpcodes(op);
    } else {
      LowTrap(op);
    }
  }

  lemma LowTrap(op: Byte)
    requires IsTrap(op) && op < 0x40
    ensures Opcodetab(op).f == Trap && Opcodetab(op).cycles == 0
  {
    assert op / 0x10 == (if op < 0x10 then 0 else 1) && op % 0x10 == if op < 0x10 then op else op - 0x10;
  }

  /** Every other opcode traps through 0xFFEE, in no time. */
  lemma TrapStep(s: State, op: Byte)
    requires Ready(s) && op == Code(s, 0) && IsTrap(op) && VectorApart(s, 0xFFEE)
    ensures var t := Step(s); Entered(s, s.r.pc + 1, 0xFFEE, t) && t.cycles == s.cycles
  {
    hide Step, FetchB, Opcodetab, DueVector, IntAddr, Entered, IsTrap;
    StepIs(s, op);
    TrapLaw(op);
    var u := Fetching(s);
    EntryIs(u, 0xFFEE);
    EntryFrom(s, s.r.pc + 1, 0xFFEE, u, IntAddr(u, 0xFFEE), 0, Step(s));
  }

  /** What rti pulls from the seven bytes above SP. */
  predicate Restored(r: Regs, ram: Ram, q: Regs)
    requires 0x20 <= r.sp && r.sp + 7 < 0x1_0000
  {
    && FlagsFrom(ram[r.sp + 1], q.ccr) && q.b == ram[r.sp + 2] && q.a == ram[r.sp + 3]
    && q.ix == Pair(ram[r.sp + 4], ram[r.sp + 5]) && q.pc == Pair(ram[r.sp + 6], ram[r.sp + 7]) && q.sp == r.sp + 7
  }

  /** rti. */
  lemma RestoreStep(s: State)
    requires Ready(s) && Code(s, 0) == 0x3B && 0x20 <= s.r.sp && s.r.sp + 7 < 0x1_0000
    ensures var t := Step(s);
      && Restored(s.r, s.ram, t.r) && t.ram == s.ram && t.cycles == s.cycles + 10
      && Dropped(s.cs, s.r.sp + 7, t.cs)
  {
    hide Step, FetchB, Opcodetab, DueVector, RtiExec, FlagsFrom, Pair, Dropped;
    StepIs(s, 0x3B);
    StackLaw(0x3B);
    RestoreIs(Fetching(s));
  }

  lemma UnpackIs(b: Byte)
    ensures FlagsFrom(b, Unpack(b))
  {
    hide Has, BitOn;
    BitIs(b);
  }

  lemma RestoreIs(u: State)
    requires 0x20 <= u.r.sp && u.r.sp + 7 < 0x1_0000
    ensures var t := RtiExec(u);
      && Restored(u.r, u.ram, t.r) && t.ram == u.ram && t.cycles == u.cycles && Dropped(u.cs, u.r.sp + 7, t.cs)
  {
    hide PopB, PopW, FlagsFrom, Unpack, Pair, Dropped;
    PullIs(u);
    var g1 := PopB(u);
    UnpackIs(g1.v);
    var s1 := g1.s.(r := g1.s.r.(ccr := Unpack(g1.v)));
    PullIs(s1);
    var g2 := PopB(s1);
    var s2 := g2.s.(r := g2.s.r.(b := g2.v));
    PullIs(s2);
    var g3 := PopB(s2);
    var s3 := g3.s.(r := g3.s.r.(a := g3.v));
    PullWordIs(s3);
    var g4 := PopW(s3);
    var s4 := g4.s.(r := g4.s.r.(ix := g4.w));
    PullWordIs(s4);
    var (cs, sp) := (u.cs, u.r.sp);
    DropMore(cs, sp + 1, s1.cs, sp + 2, s2.cs);
    DropMore(cs, sp + 2, s2.cs, sp + 3, s3.cs);
    DropMore(cs, sp + 3, s3.cs, sp + 5, s4.cs);
    DropMore(cs, sp + 5, s4.cs, sp + 7, PopW(s4).s.cs);
  }

  // ---- completeness ----

  /** Opcodes from 0x30 to 0x3F that use the stack. */
  predicate IsStackOpcode(op: int) { 0x31 <= op < 0x3A || op == 0x3B || op == 0x3C || op == 0x3F }

  /** Opcodes from 0x60 on that a step lemma covers. */
  predicate IsMemoryOpcode(op: Byte)
  {
    || (0x60 <= op < 0x80 && (IsModifyDigit(op % 0x10) || IsImmediateDigit(op % 0x10) || op % 0x10 == 0xE))
    || (0x80 <= op && (IsByteDigit(op % 0x10) || IsWordDigit(op % 0x10)))
    || (op >= 0x80 && op % 0x10 == 7 && op / 0x10 % 4 != 0) || (IsStoreWord(op) && op / 0x10 % 4 != 0)
    || op in {0x8D, 0x9D, 0xAD, 0xBD}
  }

  /** The step lemmas leave no opcode out. */
  lemma EveryOpcode(op: Byte)
    ensures IsRegisterOpcode(op) || 0x20 <= op < 0x30 || IsStackOpcode(op) || IsMemoryOpcode(op) || IsTrap(op)
            || (0x40 <= op < 0x60 && IsModifyDigit(op % 0x10))
  {
    if op >= 0x80 {
      HighCovered(op / 0x10, op % 0x10, op);
    }
  }

  lemma HighCovered(hi: int, lo: int, op: Byte)
    requires 8 <= hi < 0x10 && 0 <= lo < 0x10 && op == 0x10 * hi + lo && op / 0x10 == hi && op % 0x10 == lo
    ensures IsMemoryOpcode(op) || IsTrap(op)
  {
    match lo
    case 7 =>
    case 0xD =>
    case 0xF =>
    case _ =>
  }
}
