// What one step of the 6303 does for every opcode, in numbers: src/arch/h6303/instr.c,
// src/arch/h6303/optab.c, src/arch/m68xx/opfunc.c, alu.c and memory.c.

/** The conclusions speak of registers, RAM, the call stack and cycles before and after a step, and
    of the opcode's bits; they name no part of the executor. */
module Instructions {
  import opened Words
  import opened Alu
  import opened CallHistory
  import opened Optab
  import opened Machine
  import opened Simulation
  import opened Manual
  import opened Decode
  import opened Meaning
  import D = Device

  // ---- the interrupt that is due ----

  predicate CaptureDue(d: D.Dev) { BitOn(d.iram[0x08], 7) && BitOn(d.iram[0x08], 4) }

  predicate CompareDue(d: D.Dev)
  {
    (BitOn(d.iram[0x08], 6) && BitOn(d.iram[0x08], 3)) || (BitOn(d.iram[0x0F], 5) && BitOn(d.iram[0x0F], 3))
  }

  predicate OverflowDue(d: D.Dev) { BitOn(d.iram[0x08], 5) && BitOn(d.iram[0x08], 2) }

  predicate SerialDue(d: D.Dev)
  {
    (|d.pending| > 0 && BitOn(d.iram[0x11], 4)) || (d.txint && BitOn(d.iram[0x11], 2))
  }

  /** The vector of the interrupt to enter, 0 for none. */
  function DueVector(s: State): int
  {
    if s.r.ccr.i then 0
    else if CaptureDue(s.dev) then 0xFFF6
    else if CompareDue(s.dev) then 0xFFF4
    else if OverflowDue(s.dev) then 0xFFF2
    else if SerialDue(s.dev) then 0xFFF0
    else 0
  }

  lemma BitIs(x: int)
    ensures Has(x, 4) == BitOn(x, 2) && Has(x, 8) == BitOn(x, 3) && Has(x, 0x10) == BitOn(x, 4)
    ensures Has(x, 0x20) == BitOn(x, 5) && Has(x, 0x40) == BitOn(x, 6) && Has(x, 0x80) == BitOn(x, 7)
    ensures Has(x, 1) == BitOn(x, 0) && Has(x, 2) == BitOn(x, 1)
  {
    assert Pow2(1) == 2 && Pow2(2) == 4 && Pow2(3) == 8 && Pow2(4) == 0x10;
    assert Pow2(5) == 0x20 && Pow2(6) == 0x40 && Pow2(7) == 0x80;
  }

  lemma DueIs(s: State)
    ensures Interrupting(s) == if DueVector(s) == 0 then D.None else D.Vector(DueVector(s))
  {
    hide Has, BitOn;
    BitIs(s.dev.iram[0x08]);
    BitIs(s.dev.iram[0x0F]);
    BitIs(s.dev.iram[0x11]);
  }

  // ---- the instruction and its operand ----

  /** No interrupt is due and the instruction's bytes are in RAM. */
  predicate Ready(s: State)
  {
    DueVector(s) == 0 && 0x21 <= s.r.pc && s.r.pc + 3 < 0x1_0000
  }

  function Code(s: State, i: nat): Byte
    requires s.r.pc + i < 0x1_0000
  {
    s.ram[s.r.pc + i]
  }

  /** The address that a direct (1), indexed (2) or extended (3) operand names. */
  function Target(s: State, mode: int): Word
    requires s.r.pc + 2 < 0x1_0000
  {
    match mode
    case 1 => Code(s, 1)
    case 2 => (s.r.ix + Code(s, 1)) % 0x1_0000
    case _ => Pair(Code(s, 1), Code(s, 2))
  }

  predicate InRam(addr: int, n: int) { 0x21 <= addr && addr + n <= 0x1_0000 }

  /** The operand byte and word: immediate for mode 0, else in RAM. */
  function ByteOperand(s: State, mode: int): int
    requires s.r.pc + 2 < 0x1_0000 && (mode != 0 ==> InRam(Target(s, mode), 1))
  {
    if mode == 0 then Code(s, 1) else s.ram[Target(s, mode)]
  }

  function WordOperand(s: State, mode: int): int
    requires s.r.pc + 2 < 0x1_0000 && (mode != 0 ==> InRam(Target(s, mode), 2))
  {
    if mode == 0 then Pair(Code(s, 1), Code(s, 2))
    else Pair(s.ram[Target(s, mode)], s.ram[Target(s, mode) + 1])
  }

  /** RAM and the call stack are as before. */
  predicate MemoryKept(s: State, t: State)
  {
    t.ram == s.ram && t.cs == s.cs
  }

  // ---- one step, up to the operand ----

  /** The state in which the operation starts: the opcode has been fetched. */
  function Fetching(s: State): State { FetchB(s).s }

  /** Only PC moved, and what devices and the monitor saw. */
  predicate MovedTo(u: State, pc: int, v: State)
  {
    v.r.pc == pc && v.r == u.r.(pc := v.r.pc) && v.ram == u.ram && v.cs == u.cs && v.cycles == u.cycles
  }

  lemma OneByte(u: State)
    requires 0x21 <= u.r.pc && u.r.pc + 1 < 0x1_0000
    ensures FetchB(u).v == u.ram[u.r.pc] && MovedTo(u, u.r.pc + 1, FetchB(u).s)
  {
  }

  lemma TwoBytes(u: State)
    requires 0x21 <= u.r.pc && u.r.pc + 2 < 0x1_0000
    ensures FetchW(u).w == Pair(u.ram[u.r.pc], u.ram[u.r.pc + 1]) && MovedTo(u, u.r.pc + 2, FetchW(u).s)
  {
  }

  /** What an operation leaves is what the step leaves, but for cycles and devices. */
  predicate Ended(t: State, cycles: int, v: State)
  {
    v.r == t.r && v.ram == t.ram && v.cs == t.cs && v.cycles == t.cycles + cycles
  }

  lemma StepIs(s: State, op: Byte)
    requires Ready(s) && op == Code(s, 0)
    ensures MovedTo(s, s.r.pc + 1, Fetching(s))
    ensures Ended(Exec(Fetching(s), Opcodetab(op).f), Opcodetab(op).cycles, Step(s))
  {
    hide FetchB, Opcodetab, Exec, D.Tick, Interrupting, DueVector;
    OneByte(s);
    DueIs(s);
    StepCases(s);
  }

  lemma RamByte(u: State, addr: int)
    requires InRam(addr, 1)
    ensures GetB(u, addr).v == u.ram[addr] && MovedTo(u, u.r.pc, GetB(u, addr).s)
  {
  }

  lemma RamWord(u: State, addr: int)
    requires InRam(addr, 2)
    ensures GetW(u, addr).w == Pair(u.ram[addr], u.ram[addr + 1]) && MovedTo(u, u.r.pc, GetW(u, addr).s)
  {
    hide GetB;
    RamByte(u, addr);
    RamByte(GetB(u, addr).s, addr + 1);
  }

  function OperandLength(mode: int, word: bool): int
  {
    if mode == 3 || (mode == 0 && word) then 2 else 1
  }

  lemma AddressIs(s: State, u: State, op: Byte, mode: int)
    requires Ready(s) && MovedTo(s, s.r.pc + 1, u) && mode == op / 0x10 % 4 && mode != 0
    ensures var g := Address(u, ModeOf(op));
      g.w == Target(s, mode) && MovedTo(s, s.r.pc + 1 + OperandLength(mode, false), g.s)
  {
    hide FetchB, FetchW, DueVector;
    OneByte(u);
    if mode == 3 {
      TwoBytes(u);
    }
  }

  lemma ByteOperandIs(s: State, u: State, op: Byte, mode: int)
    requires Ready(s) && MovedTo(s, s.r.pc + 1, u) && mode == op / 0x10 % 4
    requires mode != 0 ==> InRam(Target(s, mode), 1)
    ensures var g := OperandB(u, ModeOf(op));
      g.v == ByteOperand(s, mode) && MovedTo(s, s.r.pc + 1 + OperandLength(mode, false), g.s)
  {
    hide FetchB, Address, GetB, DueVector, Target;
    OneByte(u);
    if mode != 0 {
      AddressIs(s, u, op, mode);
      var g := Address(u, ModeOf(op));
      RamByte(g.s, g.w);
    }
  }

  lemma WordOperandIs(s: State, u: State, op: Byte, mode: int)
    requires Ready(s) && MovedTo(s, s.r.pc + 1, u) && mode == op / 0x10 % 4
    requires mode != 0 ==> InRam(Target(s, mode), 2)
    ensures var g := OperandW(u, ModeOf(op));
      g.w == WordOperand(s, mode) && MovedTo(s, s.r.pc + 1 + OperandLength(mode, true), g.s)
  {
    hide FetchW, Address, GetW, DueVector, Target;
    TwoBytes(u);
    if mode != 0 {
      AddressIs(s, u, op, mode);
      var g := Address(u, ModeOf(op));
      RamWord(g.s, g.w);
    }
  }

  /** Cycles of an operation with a byte by mode; with a word they are one more. */
  function ModeTime(mode: int): int
  {
    if mode == 0 then 2 else if mode == 1 then 3 else 4
  }

  /** The operation starts from registers `r` moved on by `n` bytes. */
  function Past(s: State, n: int): Regs
    requires 0 <= n < 4 && s.r.pc + 3 < 0x1_0000
  {
    s.r.(pc := s.r.pc + n)
  }

  // ---- accumulator and byte ----

  /** Byte operations change one accumulator and the flags. */
  predicate AccumulatorEffect(op: Byte, r: Regs, m: int, q: Regs)
  {
    if op < 0xC0 then q == r.(a := q.a, ccr := q.ccr) && ByteEffect(op % 0x10, r.a, m, r.ccr, q.a, q.ccr)
    else q == r.(b := q.b, ccr := q.ccr) && ByteEffect(op % 0x10, r.b, m, r.ccr, q.b, q.ccr)
  }

  /** sub, cmp, sbc, and, bit, lda, eor, adc, ora and add with A or B in every mode. */
  lemma AccumulatorStep(s: State, op: Byte, mode: int)
    requires Ready(s) && op == Code(s, 0) && 0x80 <= op && IsByteDigit(op % 0x10)
    requires mode == op / 0x10 % 4 && (mode != 0 ==> InRam(Target(s, mode), 1))
    ensures var t := Step(s);
      && MemoryKept(s, t) && t.cycles == s.cycles + ModeTime(mode)
      && AccumulatorEffect(op, Past(s, if mode == 3 then 3 else 2), ByteOperand(s, mode), t.r)
  {
    hide *;
    var u := Fetching(s);
    StepIs(s, op);
    ByteOperandIs(s, u, op, mode);
    AccumulatorLaw(op, mode);
    AccumulatorExec(u, op, if op < 0xC0 then A else B);
    Accumulated(s, op, mode, OperandB(u, ModeOf(op)).s, Exec(u, Opcodetab(op).f), Step(s));
  }

  lemma AccumulatorLaw(op: Byte, mode: int)
    requires 0x80 <= op && IsByteDigit(op % 0x10) && mode == op / 0x10 % 4
    ensures Opcodetab(op).f == Alu(AluOf(op % 0x10), if op < 0xC0 then A else B, ModeOf(op))
    ensures Opcodetab(op).cycles == ModeTime(mode)
  {
    hide Opcodetab, AluOf;
    HighOpcodes(op);
  }

  lemma AccumulatorExec(u: State, op: Byte, acc: Acc)
    requires 0x80 <= op && IsByteDigit(op % 0x10) && acc == if op < 0xC0 then A else B
    ensures var g := OperandB(u, ModeOf(op));
      var t := Exec(u, Alu(AluOf(op % 0x10), acc, ModeOf(op)));
      t == g.s.(r := t.r) && AccumulatorEffect(op, g.s.r, g.v, t.r)
  {
    hide OperandB, ByteEffect, AluExec, AluOf, ModeOf;
    var g := OperandB(u, ModeOf(op));
    ByteMeaning(op % 0x10, g.s.r, acc, g.v);
  }

  lemma Accumulated(s: State, op: Byte, mode: int, g: State, t: State, v: State)
    requires Ready(s) && mode == op / 0x10 % 4 && (mode != 0 ==> InRam(Target(s, mode), 1))
    requires MovedTo(s, s.r.pc + 1 + OperandLength(mode, false), g) && t == g.(r := t.r)
    requires AccumulatorEffect(op, g.r, ByteOperand(s, mode), t.r) && Ended(t, ModeTime(mode), v)
    ensures MemoryKept(s, v) && v.cycles == s.cycles + ModeTime(mode)
    ensures AccumulatorEffect(op, Past(s, if mode == 3 then 3 else 2), ByteOperand(s, mode), v.r)
  {
    hide AccumulatorEffect, DueVector, Target, ByteOperand, ModeTime;
  }

  // ---- words ----

  /** The calls entered below `value` are dropped from the top of the call stack. */
  predicate Dropped(cs: seq<Entry>, value: int, cs': seq<Entry>)
  {
    && cs' <= cs && (|cs'| > 0 ==> value <= cs'[|cs'| - 1].sp)
    && forall i | |cs'| <= i < |cs| :: cs[i].sp < value
  }

  lemma {:induction false} PopDrops(cs: seq<Entry>, value: int)
    ensures Dropped(cs, value, PopWhile(cs, value))
  {
    if |cs| > 0 && value > cs[|cs| - 1].sp {
      PopDrops(cs[..|cs| - 1], value);
    }
  }

  /** Setting SP to `value` drops calls when it rises. */
  predicate PointerMoved(cs: seq<Entry>, sp: Word, value: int, cs': seq<Entry>)
  {
    if value > sp then Dropped(cs, value, cs') else cs' == cs
  }

  function AccumulatorD(r: Regs): int { Pair(r.a, r.b) }

  /** subd and addd, cpx and ldd, lds and ldx. */
  predicate WordEffect(op: Byte, r: Regs, w: int, q: Regs)
  {
    var (d, e) := (AccumulatorD(r), AccumulatorD(q));
    && KeepsHI(r.ccr, q.ccr)
    && match op % 0x10
       case 3 =>
         && q == r.(a := q.a, b := q.b, ccr := q.ccr)
         && (if op < 0xC0 then IsDifference(d, w, false, 0x1_0000, e, q.ccr) && IsBorrow(d, w, false, q.ccr)
             else IsSum(d, w, false, 0x1_0000, e, q.ccr))
       case 0xC =>
         if op < 0xC0 then
           q == r.(ccr := q.ccr) && IsDifference(r.ix, w, false, 0x1_0000, (r.ix - w) % 0x1_0000, q.ccr)
           && q.ccr.c == r.ccr.c
         else q == r.(a := q.a, b := q.b, ccr := q.ccr) && e == w && IsMoved(w, 0x1_0000, r.ccr, q.ccr)
       case _ =>
         && IsMoved(w, 0x1_0000, r.ccr, q.ccr)
         && if op < 0xC0 then q == r.(sp := q.sp, ccr := q.ccr) && q.sp == w
            else q == r.(ix := q.ix, ccr := q.ccr) && q.ix == w
  }

  predicate LoadsSp(op: Byte) { op % 0x10 == 0xE && op < 0xC0 }

  /** Loading SP drops the calls it rises past; no other word operation touches the call stack. */
  predicate CallsAre(op: Byte, sp: Word, w: int, cs: seq<Entry>, cs': seq<Entry>)
  {
    if LoadsSp(op) then PointerMoved(cs, sp, w, cs') else cs' == cs
  }

  predicate IsWordDigit(d: int) { d == 3 || d == 0xC || d == 0xE }

  function WideOf(op: Byte): WideOp
  {
    match op % 0x10
    case 3 => if op < 0xC0 then SUBD else ADDD
    case 0xC => if op < 0xC0 then CPX else LDD
    case _ => if op < 0xC0 then LDS else LDX
  }

  /** Word operations, whose result reaches A before B and memory high byte first. The
      call stack follows SP. */
  lemma WordStep(s: State, op: Byte, mode: int)
    requires Ready(s) && op == Code(s, 0) && 0x80 <= op && IsWordDigit(op % 0x10)
    requires mode == op / 0x10 % 4 && (mode != 0 ==> InRam(Target(s, mode), 2))
    ensures var t := Step(s);
      && t.ram == s.ram && CallsAre(op, s.r.sp, WordOperand(s, mode), s.cs, t.cs)
      && t.cycles == s.cycles + ModeTime(mode) + 1
      && WordEffect(op, Past(s, if mode == 0 || mode == 3 then 3 else 2), WordOperand(s, mode), t.r)
  {
    hide *;
    var u := Fetching(s);
    StepIs(s, op);
    WordOperandIs(s, u, op, mode);
    WordLaw(op, mode);
    WordExec(u, op);
    Widened(s, op, mode, OperandW(u, ModeOf(op)).s, Exec(u, Opcodetab(op).f), Step(s));
  }

  lemma WordLaw(op: Byte, mode: int)
    requires 0x80 <= op && IsWordDigit(op % 0x10) && mode == op / 0x10 % 4
    ensures Opcodetab(op).f == Wide(WideOf(op), ModeOf(op))
    ensures Opcodetab(op).cycles == ModeTime(mode) + 1
  {
    hide Opcodetab;
    HighOpcodes(op);
  }

  lemma DoubleIs(r: Regs, w: Word)
    ensures AccD(r) == AccumulatorD(r) && AccumulatorD(SetAccD(r, w)) == w
  {
  }

  lemma WideMeaning(r: Regs, op: Byte, w: Word)
    requires IsWordDigit(op % 0x10)
    ensures var q := WideExec(r, WideOf(op), w);
      WordEffect(op, r, w, if LoadsSp(op) then q.(sp := w) else q)
  {
    hide SubFlags, AddFlags, CmpFlags, TestFlags, IsDifference, IsSum, IsMoved, SetAccD, AccumulatorD;
    match op % 0x10
    case 3 => DoubleMeaning(r, w);
    case 0xC => CompareLoadMeaning(r, w);
    case _ => MovedMeaning(r.ccr, w, 0x1_0000);
  }

  lemma DoubleMeaning(r: Regs, w: Word)
    ensures var q := WideExec(r, SUBD, w);
      && q == r.(a := q.a, b := q.b, ccr := q.ccr) && KeepsHI(r.ccr, q.ccr)
      && IsDifference(AccumulatorD(r), w, false, 0x1_0000, AccumulatorD(q), q.ccr)
      && IsBorrow(AccumulatorD(r), w, false, q.ccr)
    ensures var q := WideExec(r, ADDD, w);
      && q == r.(a := q.a, b := q.b, ccr := q.ccr) && KeepsHI(r.ccr, q.ccr)
      && IsSum(AccumulatorD(r), w, false, 0x1_0000, AccumulatorD(q), q.ccr)
  {
    hide IsDifference, IsSum, SubFlags, AddFlags, AccD, AccumulatorD, WideExec;
    var d := AccD(r);
    DifferenceMeaning(r.ccr, d, w, false, 0x1_0000);
    SumMeaning(r.ccr, d, w, false, 0x1_0000);
    DoubleResult(r, SUBD, w, (d - w) % 0x1_0000, SubFlags(r.ccr, d, w, 0, 0x1_0000));
    DoubleResult(r, ADDD, w, (d + w) % 0x1_0000, AddFlags(r.ccr, d, w, 0, 0x1_0000));
  }

  lemma DoubleResult(r: Regs, op: WideOp, w: Word, v: Word, f: Flags)
    requires op == SUBD ==> v == (AccD(r) - w) % 0x1_0000 && f == SubFlags(r.ccr, AccD(r), w, 0, 0x1_0000)
    requires op == ADDD ==> v == (AccD(r) + w) % 0x1_0000 && f == AddFlags(r.ccr, AccD(r), w, 0, 0x1_0000)
    requires op == SUBD || op == ADDD
    ensures var q := WideExec(r, op, w);
      q == r.(a := q.a, b := q.b, ccr := f) && AccD(r) == AccumulatorD(r) && AccumulatorD(q) == v
  {
    hide SubFlags, AddFlags, AccD, AccumulatorD, Hi, Lo;
    DoubleIs(r.(ccr := f), v);
    DoubleIs(r, v);
  }

  lemma CompareLoadMeaning(r: Regs, w: Word)
    ensures var q := WideExec(r, CPX, w);
      && q == r.(ccr := q.ccr) && KeepsHI(r.ccr, q.ccr) && q.ccr.c == r.ccr.c
      && IsDifference(r.ix, w, false, 0x1_0000, (r.ix - w) % 0x1_0000, q.ccr)
    ensures var q := WideExec(r, LDD, w);
      && q == r.(a := q.a, b := q.b, ccr := q.ccr) && KeepsHI(r.ccr, q.ccr)
      && AccumulatorD(q) == w && IsMoved(w, 0x1_0000, r.ccr, q.ccr)
  {
    hide CmpFlags, TestFlags, IsDifference, IsMoved, AccD, AccumulatorD, Hi, Lo;
    CompareMeaning(r.ccr, r.ix, w, false, 0x1_0000);
    DoubleIs(r.(ccr := TestFlags(r.ccr, w, 0x1_0000)), w);
    MovedMeaning(r.ccr, w, 0x1_0000);
  }

  lemma WordExec(u: State, op: Byte)
    requires IsWordDigit(op % 0x10)
    ensures var g := OperandW(u, ModeOf(op));
      var t := Exec(u, Wide(WideOf(op), ModeOf(op)));
      && t.ram == g.s.ram && t.cycles == g.s.cycles && CallsAre(op, g.s.r.sp, g.w, g.s.cs, t.cs)
      && WordEffect(op, g.s.r, g.w, t.r)
  {
    hide OperandW, WordEffect, WideExec, ModeOf, Exec, PointerMoved;
    var g := OperandW(u, ModeOf(op));
    WideMeaning(g.s.r, op, g.w);
    WideIs(u, WideOf(op), ModeOf(op));
  }

  lemma WideIs(u: State, wop: WideOp, mode: Mode)
    ensures var g := OperandW(u, mode);
      var q := WideExec(g.s.r, wop, g.w);
      var t := Exec(u, Wide(wop, mode));
      && t.ram == g.s.ram && t.cycles == g.s.cycles
      && (if wop == LDS then PointerMoved(g.s.cs, g.s.r.sp, g.w, t.cs) else t.cs == g.s.cs)
      && t.r == if wop == LDS then q.(sp := g.w) else q
  {
    hide OperandW, PopWhile, Dropped;
    var g := OperandW(u, mode);
    PopDrops(g.s.cs, g.w);
  }

  lemma Widened(s: State, op: Byte, mode: int, g: State, t: State, v: State)
    requires Ready(s) && mode == op / 0x10 % 4 && (mode != 0 ==> InRam(Target(s, mode), 2))
    requires MovedTo(s, s.r.pc + 1 + OperandLength(mode, true), g)
    requires t.ram == g.ram && t.cycles == g.cycles && CallsAre(op, g.r.sp, WordOperand(s, mode), g.cs, t.cs)
    requires WordEffect(op, g.r, WordOperand(s, mode), t.r) && Ended(t, ModeTime(mode) + 1, v)
    ensures v.ram == s.ram && CallsAre(op, s.r.sp, WordOperand(s, mode), s.cs, v.cs)
    ensures v.cycles == s.cycles + ModeTime(mode) + 1
    ensures WordEffect(op, Past(s, if mode == 0 || mode == 3 then 3 else 2), WordOperand(s, mode), v.r)
  {
    hide WordEffect, DueVector, Target, WordOperand, ModeTime, CallsAre;
  }

  // ---- stores ----

  /** Only PC and the flags changed, the flags as those of `v`. */
  predicate Stored(r: Regs, v: int, w: int, q: Regs)
    requires IsWidth(w)
  {
    q == r.(ccr := q.ccr) && IsMoved(v, w, r.ccr, q.ccr) && KeepsHI(r.ccr, q.ccr)
  }

  /** staa and stab. */
  lemma StoreStep(s: State, op: Byte, mode: int)
    requires Ready(s) && op == Code(s, 0) && 0x80 <= op && op % 0x10 == 7
    requires mode == op / 0x10 % 4 && mode != 0 && InRam(Target(s, mode), 1)
    ensures var t := Step(s);
      var v := if op < 0xC0 then s.r.a else s.r.b;
      && t.ram == s.ram[Target(s, mode) := v] && t.cs == s.cs && t.cycles == s.cycles + ModeTime(mode)
      && Stored(Past(s, if mode == 3 then 3 else 2), v, 0x100, t.r)
  {
    hide Step, FetchB, Address, Opcodetab, DueVector, Target, ModeOf, ModeTime, PutB, TestFlags, IsMoved;
    var u := Fetching(s);
    StepIs(s, op);
    AddressIs(s, u, op, mode);
    StoreLaw(op, mode);
    StoreExec(Address(u, ModeOf(op)).s, Address(u, ModeOf(op)).w, if op < 0xC0 then s.r.a else s.r.b);
  }

  lemma StoreLaw(op: Byte, mode: int)
    requires 0x80 <= op && op % 0x10 == 7 && mode == op / 0x10 % 4 && mode != 0
    ensures Opcodetab(op).f == Store(if op < 0xC0 then A else B, ModeOf(op))
    ensures Opcodetab(op).cycles == ModeTime(mode)
  {
    hide Opcodetab;
    HighOpcodes(op);
  }

  lemma StoreExec(g: State, addr: Word, v: Byte)
    requires InRam(addr, 1)
    ensures var t := PutB(g.(r := g.r.(ccr := TestFlags(g.r.ccr, v, 0x100))), addr, v);
      t.ram == g.ram[addr := v] && t.cs == g.cs && t.cycles == g.cycles && Stored(g.r, v, 0x100, t.r)
  {
    hide TestFlags, IsMoved;
    MovedMeaning(g.r.ccr, v, 0x100);
  }

  /** The word that std, stx and sts store. */
  function StoredWord(op: Byte, r: Regs): int
  {
    if op % 0x10 == 0xD then AccumulatorD(r) else if op < 0xC0 then r.sp else r.ix
  }

  predicate IsStoreWord(op: Byte) { (op >= 0xC0 && op % 0x10 == 0xD) || (op >= 0x80 && op % 0x10 == 0xF) }

  /** std, sts and stx: high byte first. */
  lemma StoreWordStep(s: State, op: Byte, mode: int)
    requires Ready(s) && op == Code(s, 0) && IsStoreWord(op)
    requires mode == op / 0x10 % 4 && mode != 0 && InRam(Target(s, mode), 2)
    ensures var t := Step(s);
      var (addr, w) := (Target(s, mode), StoredWord(op, s.r));
      && 0 <= w < 0x1_0000 && t.ram == s.ram[addr := w / 0x100][addr + 1 := w % 0x100] && t.cs == s.cs
      && t.cycles == s.cycles + ModeTime(mode) + 1
      && Stored(Past(s, if mode == 3 then 3 else 2), w, 0x1_0000, t.r)
  {
    hide Step, FetchB, Address, Opcodetab, DueVector, Target, ModeOf, ModeTime, PutW, TestFlags, IsMoved, WideValue, StoredWord;
    var u := Fetching(s);
    var g := Address(u, ModeOf(op));
    StepIs(s, op);
    AddressIs(s, u, op, mode);
    StoreWordLaw(op, mode);
    WideValueIs(op, g.s.r);
    WideValueIs(op, s.r);
    StoreWordExec(g.s, g.w, StoredWord(op, s.r));
  }

  function WideRegOf(op: Byte): WideReg
  {
    if op % 0x10 == 0xD then STD else if op < 0xC0 then STS else STX
  }

  lemma StoreWordLaw(op: Byte, mode: int)
    requires IsStoreWord(op) && mode == op / 0x10 % 4 && mode != 0
    ensures Opcodetab(op).f == StoreWide(WideRegOf(op), ModeOf(op))
    ensures Opcodetab(op).cycles == ModeTime(mode) + 1
  {
    hide Opcodetab;
    HighOpcodes(op);
  }

  lemma WideValueIs(op: Byte, r: Regs)
    requires IsStoreWord(op)
    ensures WideValue(r, WideRegOf(op)) == StoredWord(op, r)
    ensures forall pc: Word :: StoredWord(op, r.(pc := pc)) == StoredWord(op, r)
  {
  }

  lemma StoreWordExec(g: State, addr: Word, w: Word)
    requires InRam(addr, 2)
    ensures var t := PutW(g.(r := g.r.(ccr := TestFlags(g.r.ccr, w, 0x1_0000))), addr, w);
      && t.ram == g.ram[addr := w / 0x100][addr + 1 := w % 0x100] && t.cs == g.cs && t.cycles == g.cycles
      && Stored(g.r, w, 0x1_0000, t.r)
  {
    hide TestFlags, IsMoved;
    MovedMeaning(g.r.ccr, w, 0x1_0000);
  }

  // ---- read-modify-write ----

  /** neg, com, lsr, ror, asr, asl, rol, dec, inc, tst and clr on one accumulator. */
  lemma ModifyAccumulatorStep(s: State, op: Byte)
    requires Ready(s) && op == Code(s, 0) && 0x40 <= op < 0x60 && IsModifyDigit(op % 0x10)
    ensures var t := Step(s);
      var (r, q) := (Past(s, 1), t.r);
      && MemoryKept(s, t) && t.cycles == s.cycles + 1
      && if op < 0x50 then q == r.(a := q.a, ccr := q.ccr) && ModifyEffect(op % 0x10, r.a, r.ccr, q.a, q.ccr)
         else q == r.(b := q.b, ccr := q.ccr) && ModifyEffect(op % 0x10, r.b, r.ccr, q.b, q.ccr)
  {
    hide Step, FetchB, Opcodetab, DueVector, RmwOf, RmwExec, ModifyEffect, IsModifyDigit;
    StepIs(s, op);
    ModifyAccumulatorLaw(op);
    ModifyMeaning(op % 0x10, s.r.ccr, if op < 0x50 then s.r.a else s.r.b);
  }

  lemma ModifyAccumulatorLaw(op: Byte)
    requires 0x40 <= op < 0x60 && IsModifyDigit(op % 0x10)
    ensures Opcodetab(op).f == RmwAcc(RmwOf(op % 0x10), if op < 0x50 then A else B) && Opcodetab(op).cycles == 1
  {
    hide Opcodetab, RmwOf;
    ModifyOpcodes(op);
  }

  /** The same on a byte of memory. */
  lemma ModifyMemoryStep(s: State, op: Byte, mode: int)
    requires Ready(s) && op == Code(s, 0) && 0x60 <= op < 0x80 && IsModifyDigit(op % 0x10)
    requires mode == (if op < 0x70 then 2 else 3) && InRam(Target(s, mode), 1)
    ensures var t := Step(s);
      var (r, addr) := (Past(s, mode), Target(s, mode));
      && t.ram == s.ram[addr := t.ram[addr]] && t.cs == s.cs && t.r == r.(ccr := t.r.ccr)
      && ModifyEffect(op % 0x10, s.ram[addr], r.ccr, t.ram[addr], t.r.ccr)
      && t.cycles == s.cycles + (if op % 0x10 == 0xF then 5 else if op == 0x6D then 4 else 6)
  {
    hide *;
    var u := Fetching(s);
    var g := Address(u, ModeOf(op));
    StepIs(s, op);
    MemoryMode(op, mode);
    AddressIs(s, u, op, mode);
    ModifyMemoryLaw(op);
    ModifyIs(u, RmwOf(op % 0x10), ModeOf(op));
    ModifyMemoryExec(g.s, g.w, op % 0x10);
    Modified(s, op, mode, g.s, ModifyAt(g.s, g.w, RmwOf(op % 0x10)), Step(s));
  }

  lemma MemoryMode(op: Byte, mode: int)
    requires 0x60 <= op < 0x80 && mode == if op < 0x70 then 2 else 3
    ensures op / 0x10 % 4 == mode
  {
  }

  lemma Modified(s: State, op: Byte, mode: int, g: State, t: State, v: State)
    requires Ready(s) && 0x60 <= op < 0x80 && IsModifyDigit(op % 0x10) && mode == (if op < 0x70 then 2 else 3)
    requires InRam(Target(s, mode), 1) && MovedTo(s, s.r.pc + 1 + OperandLength(mode, false), g)
    requires var addr := Target(s, mode);
      && t.ram == g.ram[addr := t.ram[addr]] && t.cs == g.cs && t.cycles == g.cycles && t.r == g.r.(ccr := t.r.ccr)
      && ModifyEffect(op % 0x10, g.ram[addr], g.r.ccr, t.ram[addr], t.r.ccr)
    requires Ended(t, if op % 0x10 == 0xF then 5 else if op == 0x6D then 4 else 6, v)
    ensures var (r, addr) := (Past(s, mode), Target(s, mode));
      && v.ram == s.ram[addr := v.ram[addr]] && v.cs == s.cs && v.r == r.(ccr := v.r.ccr)
      && ModifyEffect(op % 0x10, s.ram[addr], r.ccr, v.ram[addr], v.r.ccr)
      && v.cycles == s.cycles + (if op % 0x10 == 0xF then 5 else if op == 0x6D then 4 else 6)
  {
    hide DueVector, Target, ModifyEffect, IsModifyDigit;
  }

  lemma ModifyIs(u: State, op: RmwOp, mode: Mode)
    ensures Exec(u, RmwMem(op, mode)) == ModifyAt(Address(u, mode).s, Address(u, mode).w, op)
  {
    hide Address, RmwExec, GetB, PutB;
  }

  lemma ModifyMemoryLaw(op: Byte)
    requires 0x60 <= op < 0x80 && IsModifyDigit(op % 0x10)
    ensures Opcodetab(op).f == RmwMem(RmwOf(op % 0x10), ModeOf(op))
    ensures Opcodetab(op).cycles == if op % 0x10 == 0xF then 5 else if op == 0x6D then 4 else 6
  {
    hide Opcodetab;
    ModifyOpcodes(op);
  }

  /** The part of a read-modify-write after its address is known. */
  function ModifyAt(g: State, addr: Word, op: RmwOp): State
  {
    var m := GetB(g, addr);
    var x := RmwExec(m.s.r.ccr, op, m.v);
    var s1 := m.s.(r := m.s.r.(ccr := x.f));
    if op == TST then s1 else PutB(s1, addr, x.v)
  }

  lemma ModifyMemoryExec(g: State, addr: Word, d: int)
    requires InRam(addr, 1) && IsModifyDigit(d)
    ensures var t := ModifyAt(g, addr, RmwOf(d));
      && t.ram == g.ram[addr := t.ram[addr]] && t.cs == g.cs && t.cycles == g.cycles && t.r == g.r.(ccr := t.r.ccr)
      && ModifyEffect(d, g.ram[addr], g.r.ccr, t.ram[addr], t.r.ccr)
  {
    hide GetB, RmwExec, RmwOf, ModifyEffect;
    RamByte(g, addr);
    ModifyMeaning(d, g.r.ccr, g.ram[addr]);
    Untested(d, g.ram[addr], g.r.ccr);
  }

  lemma Untested(d: int, x: Byte, f: Flags)
    requires IsModifyDigit(d)
    ensures RmwOf(d) == TST ==> RmwExec(f, RmwOf(d), x).v == x
  {
  }

  /** The result of aim, oim, eim and tim. */
  predicate ImmediateResult(d: int, x: int, m: int, v: int)
  {
    match d case 2 => IsOr(v, x, m) case 5 => IsXor(v, x, m) case _ => IsAnd(v, x, m)
  }

  /** What aim, oim, eim and tim leave: tim does not store. */
  predicate ImmediateEffect(s: State, d: int, addr: int, v: Byte, t: State)
    requires s.r.pc + 3 < 0x1_0000 && InRam(addr, 1)
  {
    && ImmediateResult(d, Code(s, 1), s.ram[addr], v) && Stored(Past(s, 3), v, 0x100, t.r)
    && t.ram == if d == 0xB then s.ram else s.ram[addr := v]
  }

  predicate IsImmediateDigit(d: int) { d == 1 || d == 2 || d == 5 || d == 0xB }

  /** The immediate byte comes before the address byte, and an indexed address is not truncated. */
  lemma ImmediateStep(s: State, op: Byte, addr: int)
    requires Ready(s) && op == Code(s, 0) && 0x60 <= op < 0x80 && IsImmediateDigit(op % 0x10)
    requires addr == Code(s, 2) + (if op < 0x70 then s.r.ix else 0) && InRam(addr, 1)
    ensures var t := Step(s);
      && t.cs == s.cs && (exists v: Byte :: ImmediateEffect(s, op % 0x10, addr, v, t))
      && t.cycles == s.cycles + (if op % 0x10 == 0xB then 4 else 6) + (if op < 0x70 then 1 else 0)
  {
    hide Step, FetchB, Opcodetab, DueVector, ImmMemExec, ImmediateResult, Stored, Past;
    var u := Fetching(s);
    StepIs(s, op);
    ImmediateLaw(op);
    var v := ImmediateExec(s, u, op, addr);
    assert ImmediateEffect(s, op % 0x10, addr, v, Step(s));
  }

  /** An indexed address past the end of memory: it reads as 0 and is not written. */
  predicate PastEnd(s: State, d: int, v: Byte, t: State)
    requires s.r.pc + 3 < 0x1_0000
  {
    ImmediateResult(d, Code(s, 1), 0, v) && Stored(Past(s, 3), v, 0x100, t.r) && MemoryKept(s, t)
  }

  lemma ImmediatePastEnd(s: State, op: Byte)
    requires Ready(s) && op == Code(s, 0) && 0x60 <= op < 0x70 && IsImmediateDigit(op % 0x10)
    requires s.r.ix + Code(s, 2) >= 0x1_0000
    ensures exists v: Byte :: PastEnd(s, op % 0x10, v, Step(s))
  {
    hide Step, FetchB, Opcodetab, DueVector, ImmMemExec, ImmediateResult, Stored, Past;
    StepIs(s, op);
    ImmediateLaw(op);
    var v := ImmediateNothing(s, Fetching(s), op);
    assert PastEnd(s, op % 0x10, v, Step(s));
  }

  lemma ImmediateNothing(s: State, u: State, op: Byte) returns (v: Byte)
    requires Ready(s) && MovedTo(s, s.r.pc + 1, u) && IsImmediateDigit(op % 0x10) && op < 0x70
    requires s.r.ix + Code(s, 2) >= 0x1_0000
    ensures PastEnd(s, op % 0x10, v, ImmMemExec(u, BitwiseOf(op % 0x10), op % 0x10 != 0xB, true))
  {
    hide ImmMemRead, ImmMemWrite, DueVector, ImmediateResult, IsMoved;
    var g := ImmMemRead(u, BitwiseOf(op % 0x10), true);
    NothingRead(s, u, op);
    NothingWritten(g.s, g.addr, g.v, op % 0x10 != 0xB);
    v := g.v;
  }

  lemma NothingRead(s: State, u: State, op: Byte)
    requires Ready(s) && MovedTo(s, s.r.pc + 1, u) && IsImmediateDigit(op % 0x10)
    requires s.r.ix + Code(s, 2) >= 0x1_0000
    ensures var g := ImmMemRead(u, BitwiseOf(op % 0x10), true);
      g.addr >= 0x1_0000 && MovedTo(u, u.r.pc, g.s) && ImmediateResult(op % 0x10, Code(s, 1), 0, g.v)
  {
    hide GetB, DueVector, ByteOp, IsAnd, IsOr, IsXor;
    RamByte(u, u.r.pc);
    var g := GetB(u, u.r.pc);
    RamByte(g.s, u.r.pc + 1);
    var h := GetB(g.s, u.r.pc + 1);
    NoByte(h.s, u.r.ix + h.v);
    LogicMeaning(BitwiseOf(op % 0x10), Code(s, 1), 0);
  }

  lemma NoByte(u: State, addr: nat)
    requires addr >= 0x1_0000
    ensures GetB(u, addr).v == 0 && MovedTo(u, u.r.pc, GetB(u, addr).s)
  {
  }

  lemma NothingWritten(g: State, addr: int, v: Byte, store: bool)
    requires addr >= 0x1_0000 && g.r.pc < 0xFFFE
    ensures var t := ImmMemWrite(g, addr, v, store); MemoryKept(g, t) && Stored(g.r.(pc := g.r.pc + 2), v, 0x100, t.r)
  {
    hide TestFlags, IsMoved;
    MovedMeaning(g.r.ccr, v, 0x100);
  }

  function BitwiseOf(d: int): Bitwise
  {
    match d case 2 => OR case 5 => XOR case _ => AND
  }

  lemma ImmediateLaw(op: Byte)
    requires 0x60 <= op < 0x80 && IsImmediateDigit(op % 0x10)
    ensures Opcodetab(op).f == ImmMem(BitwiseOf(op % 0x10), op % 0x10 != 0xB, op < 0x70)
    ensures Opcodetab(op).cycles == (if op % 0x10 == 0xB then 4 else 6) + (if op < 0x70 then 1 else 0)
  {
    hide Opcodetab;
    ModifyOpcodes(op);
  }

  lemma ImmediateExec(s: State, u: State, op: Byte, addr: int) returns (v: Byte)
    requires Ready(s) && MovedTo(s, s.r.pc + 1, u) && IsImmediateDigit(op % 0x10)
    requires addr == Code(s, 2) + (if op < 0x70 then s.r.ix else 0) && InRam(addr, 1)
    ensures var t := ImmMemExec(u, BitwiseOf(op % 0x10), op % 0x10 != 0xB, op < 0x70);
      t.cs == s.cs && t.cycles == s.cycles && ImmediateEffect(s, op % 0x10, addr, v, t)
  {
    hide ImmMemRead, ImmMemWrite, DueVector, ImmediateResult, IsMoved;
    var g := ImmMemRead(u, BitwiseOf(op % 0x10), op < 0x70);
    ImmediateRead(s, u, op, addr);
    ImmediateWrite(g.s, addr, g.v, op % 0x10 != 0xB);
    v := g.v;
  }

  lemma ImmediateRead(s: State, u: State, op: Byte, addr: int)
    requires Ready(s) && MovedTo(s, s.r.pc + 1, u) && IsImmediateDigit(op % 0x10)
    requires addr == Code(s, 2) + (if op < 0x70 then s.r.ix else 0) && InRam(addr, 1)
    ensures var g := ImmMemRead(u, BitwiseOf(op % 0x10), op < 0x70);
      g.addr == addr && MovedTo(u, u.r.pc, g.s) && ImmediateResult(op % 0x10, Code(s, 1), s.ram[addr], g.v)
  {
    hide GetB, DueVector, ByteOp, IsAnd, IsOr, IsXor;
    RamByte(u, u.r.pc);
    var g := GetB(u, u.r.pc);
    RamByte(g.s, u.r.pc + 1);
    var h := GetB(g.s, u.r.pc + 1);
    RamByte(h.s, addr);
    LogicMeaning(BitwiseOf(op % 0x10), Code(s, 1), s.ram[addr]);
  }

  lemma ImmediateWrite(g: State, addr: int, v: Byte, store: bool)
    requires InRam(addr, 1) && g.r.pc < 0xFFFE
    ensures var t := ImmMemWrite(g, addr, v, store);
      && t.ram == (if store then g.ram[addr := v] else g.ram) && t.cs == g.cs && t.cycles == g.cycles
      && Stored(g.r.(pc := g.r.pc + 2), v, 0x100, t.r)
  {
    hide TestFlags, IsMoved;
    MovedMeaning(g.r.ccr, v, 0x100);
  }

  // ---- branches ----

  /** Every conditional branch: the displacement counts from the next instruction. */
  lemma BranchStep(s: State, op: Byte)
    requires Ready(s) && op == Code(s, 0) && 0x20 <= op < 0x30
    ensures var t := Step(s);
      var jump := if Condition(op % 0x10, s.r.ccr) then Displacement(Code(s, 1)) else 0;
      MemoryKept(s, t) && t.cycles == s.cycles + 3 && t.r == s.r.(pc := (s.r.pc + 2 + jump) % 0x1_0000)
  {
    hide Step, FetchB, Opcodetab, DueVector, Taken, Condition;
    var u := Fetching(s);
    StepIs(s, op);
    OneByte(u);
    BranchLaw(op, s.r.ccr);
  }

  lemma BranchLaw(op: Byte, f: Flags)
    requires 0x20 <= op < 0x30
    ensures var o := Opcodetab(op);
      o.cycles == 3 && o.f.Branch? && Taken(o.f.cond, f) == Condition(op % 0x10, f)
  {
    hide Opcodetab, CondOf, Taken, Condition;
    BranchOpcodes(op);
    ConditionMeaning(op % 0x10, f);
  }
}
