// The 6303 as a value: memory, stack, operands, instructions and one step of execution
// (src/arch/m68xx/memory.c, reg.c, opfunc.c and src/arch/h6303/instr.c).

module Machine {
  import opened Words
  import opened Alu
  import opened CallHistory
  import opened Optab
  import D = Device

  datatype Regs = Regs(a: Byte, b: Byte, ix: Word, sp: Word, pc: Word, ccr: Flags)

  const MEMSIZE := 0x1_0000

  type Ram = s: seq<Byte> | |s| == MEMSIZE witness seq(MEMSIZE, _ => 0)

  /** A history variable for reasoning about a program's reads: `clean` turns false when an
      address in `dirty` or a device register is read; a write takes its address out of `dirty`.
      No other field of the state depends on it. */
  datatype Monitor = Monitor(dirty: set<int>, clean: bool)

  /** `hist` records every stack-pointer change and call; nothing else depends on it. */
  datatype State = State(r: Regs, ram: Ram, dev: D.Dev, cs: seq<Entry>, cycles: nat,
                         hist: seq<Event>, mon: Monitor)

  /** Registers whose contents change by themselves or whose reads have side effects. */
  predicate IsDeviceReg(addr: int)
  {
    addr == D.TCSR1 || addr == D.FRC || addr == D.FRC + 1 || addr == D.TCSR2
    || addr == D.TRCSR || addr == D.RDR || addr == D.TCSR3 || addr == D.T2CNT
  }

  function NoteRead(m: Monitor, addr: int): Monitor
  {
    m.(clean := m.clean && addr !in m.dirty && !IsDeviceReg(addr))
  }

  function NoteWrite(m: Monitor, addr: int): Monitor
  {
    m.(dirty := m.dirty - {addr})
  }

  // ---- memory.c ----

  datatype Got = Got(s: State, v: Byte)
  datatype GotW = GotW(s: State, w: Word)

  /** The byte stored for an address, register block first. */
  function Cell(s: State, addr: Word): Byte
  {
    if addr < D.NIREGS then s.dev.iram[addr] else s.ram[addr]
  }

  /** mem_getb. An address past the end of memory reads as 0. */
  function GetB(s: State, addr: nat): Got
  {
    var m := s.(mon := NoteRead(s.mon, addr));
    if addr < D.NIREGS then
      var g := D.Get(s.dev, addr);
      Got(m.(dev := g.d), g.v)
    else if addr < MEMSIZE then Got(m, s.ram[addr])
    else Got(m, 0)
  }

  /** mem_getw: high byte first. */
  function GetW(s: State, addr: nat): GotW
  {
    var hi := GetB(s, addr);
    var lo := GetB(hi.s, addr + 1);
    GotW(lo.s, Join(hi.v, lo.v))
  }

  /** mem_putb. A port register also reads its data direction register. */
  function PutB(s: State, addr: nat, v: Byte): State
  {
    if addr < D.NIREGS then
      var m := if D.IsPort(addr) then NoteRead(s.mon, addr - 2) else s.mon;
      s.(dev := D.Put(s.dev, addr, v), mon := NoteWrite(m, addr))
    else if addr < MEMSIZE then s.(ram := s.ram[addr := v], mon := NoteWrite(s.mon, addr))
    else s
  }

  function PutW(s: State, addr: nat, w: Word): State
  {
    PutB(PutB(s, addr, Hi(w)), addr + 1, Lo(w))
  }

  // ---- reg.c and callstac.c ----

  /** reg_setsp with the untruncated 32-bit value it is given. */
  function SetSp(s: State, value: nat): State
  {
    s.(cs := AfterSetSp(s.cs, s.r.sp, value), r := s.r.(sp := value % 0x1_0000),
       hist := s.hist + [Moved(value)])
  }

  function CallPush(s: State, addr: int): State
  {
    var e := Entry(Mod32(addr), s.r.sp);
    s.(cs := Push(s.cs, e), hist := s.hist + [Called(e)])
  }

  /** SP and X minus one as reg_setsp receives them: 0 becomes 0xFFFFFFFF. */
  function Minus1(w: Word): nat
  {
    Mod32(w - 1)
  }

  function PushB(s: State, v: Byte): State
  {
    PutB(SetSp(s, Minus1(s.r.sp)), s.r.sp, v)
  }

  function PushW(s: State, w: Word): State
  {
    PushB(PushB(s, Lo(w)), Hi(w))
  }

  function PopB(s: State): Got
  {
    var s1 := SetSp(s, s.r.sp + 1);
    GetB(s1, s1.r.sp)
  }

  function PopW(s: State): GotW
  {
    var hi := PopB(s);
    var lo := PopB(hi.s);
    GotW(lo.s, Join(hi.v, lo.v))
  }

  // ---- operands ----

  function WithPc(s: State, pc: Word): State { s.(r := s.r.(pc := pc)) }

  function Ahead(pc: Word, n: int): Word { (pc + n) % 0x1_0000 }

  function FetchB(s: State): Got
  {
    GetB(WithPc(s, Ahead(s.r.pc, 1)), s.r.pc)
  }

  function FetchW(s: State): GotW
  {
    GetW(WithPc(s, Ahead(s.r.pc, 2)), s.r.pc)
  }

  /** getaddr_dir, getaddr_ext and getaddr_ix. */
  function Address(s: State, mode: Mode): GotW
  {
    match mode
    case Ext => FetchW(s)
    case Ix => var g := FetchB(s); GotW(g.s, (g.v + g.s.r.ix) % 0x1_0000)
    case _ => var g := FetchB(s); GotW(g.s, g.v)
  }

  function OperandB(s: State, mode: Mode): Got
  {
    if mode == Imm then FetchB(s)
    else var g := Address(s, mode); GetB(g.s, g.w)
  }

  function OperandW(s: State, mode: Mode): GotW
  {
    if mode == Imm then FetchW(s)
    else var g := Address(s, mode); GetW(g.s, g.w)
  }

  // ---- register-only parts of the instructions ----

  function GetAcc(r: Regs, acc: Acc): Byte
  {
    match acc case A => r.a case B => r.b
  }

  function SetAcc(r: Regs, acc: Acc, v: Byte): Regs
  {
    match acc case A => r.(a := v) case B => r.(b := v)
  }

  function AccD(r: Regs): Word { Join(r.a, r.b) }

  function SetAccD(r: Regs, w: Word): Regs
  {
    r.(a := Hi(w), b := Lo(w))
  }

  function CBit(r: Regs): int { One(r.ccr.c, 1) }

  function AluExec(r: Regs, op: AluOp, acc: Acc, m: Byte): Regs
  {
    var x := GetAcc(r, acc);
    match op
    case ADD => SetAcc(r.(ccr := AddByteFlags(r.ccr, x, m, 0)), acc, (x + m) % 0x100)
    case ADC => SetAcc(r.(ccr := AddByteFlags(r.ccr, x, m, CBit(r))), acc, (x + m + CBit(r)) % 0x100)
    case SUB => SetAcc(r.(ccr := SubFlags(r.ccr, x, m, 0, 0x100)), acc, (x - m) % 0x100)
    case SBC => SetAcc(r.(ccr := SubFlags(r.ccr, x, m, CBit(r), 0x100)), acc, (x - m - CBit(r)) % 0x100)
    case CMP => r.(ccr := SubFlags(r.ccr, x, m, 0, 0x100))
    case LDA => SetAcc(r.(ccr := TestFlags(r.ccr, m, 0x100)), acc, m)
    case BIT => r.(ccr := TestFlags(r.ccr, ByteOp(AND, x, m), 0x100))
    case LOGIC(bop) =>
      var v := ByteOp(bop, x, m);
      SetAcc(r.(ccr := TestFlags(r.ccr, v, 0x100)), acc, v)
  }

  /** Word operations other than lds. */
  function WideExec(r: Regs, op: WideOp, w: Word): Regs
  {
    match op
    case ADDD => SetAccD(r.(ccr := AddFlags(r.ccr, AccD(r), w, 0, 0x1_0000)), (AccD(r) + w) % 0x1_0000)
    case SUBD => SetAccD(r.(ccr := SubFlags(r.ccr, AccD(r), w, 0, 0x1_0000)), (AccD(r) - w) % 0x1_0000)
    case LDD => SetAccD(r.(ccr := TestFlags(r.ccr, w, 0x1_0000)), w)
    case LDX => r.(ccr := TestFlags(r.ccr, w, 0x1_0000), ix := w)
    case LDS => r.(ccr := TestFlags(r.ccr, w, 0x1_0000))
    case CPX => r.(ccr := CmpFlags(r.ccr, r.ix, w, 0, 0x1_0000))
  }

  function WideValue(r: Regs, reg: WideReg): Word
  {
    match reg case STD => AccD(r) case STX => r.ix case STS => r.sp
  }

  datatype Rmw = Rmw(f: Flags, v: Byte)

  function RmwExec(f: Flags, op: RmwOp, x: Byte): Rmw
  {
    match op
    case NEG => Rmw(SubFlags(f, 0, x, 0, 0x100), (0 - x) % 0x100)
    case COM => Rmw(Complement(f, x), 0xFF - x)
    case LSR => ShrExec(f, x, false)
    case ROR => ShrExec(f, x, f.c)
    case ASR => ShrExec(f, x, x >= 0x80)
    case LSL => ShlExec(f, x, false)
    case ROL => ShlExec(f, x, f.c)
    case DEC => Rmw(DecFlags(f, x), (x - 1) % 0x100)
    case INC => Rmw(IncFlags(f, x), (x + 1) % 0x100)
    case TST => Rmw(TestFlags(f, x, 0x100).(c := false), x)
    case CLR => Rmw(ClearFlags(f), 0)
  }

  function ShlExec(f: Flags, x: Byte, low: bool): Rmw
  {
    var v := ShiftLeft(x, low, 0x100);
    Rmw(ShiftFlags(f, v, x >= 0x80, 0x100), v)
  }

  function ShrExec(f: Flags, x: Byte, high: bool): Rmw
  {
    var v := ShiftRight(x, high, 0x100);
    Rmw(ShiftFlags(f, v, x % 2 == 1, 0x100), v)
  }

  function Product(a: Byte, b: Byte): Word
  {
    assert a * b <= 0xFF * 0xFF by {
      assert a * b <= 0xFF * b;
    }
    a * b
  }

  function InhExec(r: Regs, op: InhOp): Regs
  {
    match op
    case ABA => AluExec(r, ADD, A, r.b)
    case ABX => r.(ix := (r.ix + r.b) % 0x1_0000)
    case ASLD =>
      var w := ShiftLeft(AccD(r), false, 0x1_0000);
      SetAccD(r.(ccr := ShiftFlags(r.ccr, w, AccD(r) >= 0x8000, 0x1_0000)), w)
    case CBA => AluExec(r, CMP, A, r.b)
    case CLC => r.(ccr := r.ccr.(c := false))
    case CLI => r.(ccr := r.ccr.(i := false))
    case CLV => r.(ccr := r.ccr.(v := false))
    case DAA => r.(a := DaaSum(r.a, r.ccr) % 0x100, ccr := DaaFlags(r.a, r.ccr))
    case DEX => r.(ix := (r.ix - 1) % 0x1_0000, ccr := r.ccr.(z := r.ix == 1))
    case INX => r.(ix := (r.ix + 1) % 0x1_0000, ccr := r.ccr.(z := r.ix == 0xFFFF))
    case LSRD =>
      var w := ShiftRight(AccD(r), false, 0x1_0000);
      SetAccD(r.(ccr := ShiftFlags(r.ccr, w, AccD(r) % 2 == 1, 0x1_0000)), w)
    case MUL =>
      var w := Product(r.a, r.b);
      SetAccD(r.(ccr := r.ccr.(c := Lo(w) >= 0x80)), w)
    case SBA => AluExec(r, SUB, A, r.b)
    case SEC => r.(ccr := r.ccr.(c := true))
    case SEI => r.(ccr := r.ccr.(i := true))
    case SEV => r.(ccr := r.ccr.(v := true))
    case TAB => AluExec(r, LDA, B, r.a)
    case TAP => r.(ccr := Unpack(r.a))
    case TBA => AluExec(r, LDA, A, r.b)
    case TPA => r.(a := Pack(r.ccr))
    case TSX => r.(ix := (r.sp + 1) % 0x1_0000)
    case XGDX => SetAccD(r.(ix := AccD(r)), r.ix)
  }

  /** The branch conditions as the source computes them from the flags. */
  function Taken(c: Cond, f: Flags): bool
  {
    match c
    case BRA => true
    case BRN => false
    case BHI => !(f.c || f.z)
    case BLS => f.c || f.z
    case BCC => !f.c
    case BCS => f.c
    case BNE => !f.z
    case BEQ => f.z
    case BVC => !f.v
    case BVS => f.v
    case BPL => !f.n
    case BMI => f.n
    case BGE => !(f.n != f.v)
    case BLT => f.n != f.v
    case BGT => !(f.z || f.n != f.v)
    case BLE => f.z || f.n != f.v
  }

  // ---- instructions ----

  /** The pushes of int_addr. */
  function StackRegs(s: State): State
  {
    var r := s.r;
    var s := PushW(s, r.pc);
    var s := PushW(s, r.ix);
    var s := PushB(s, r.a);
    var s := PushB(s, r.b);
    PushB(s, Pack(r.ccr))
  }

  /** int_addr. */
  function IntAddr(s: State, vector: Word): State
  {
    var g := GetW(StackRegs(s), vector);
    var s := CallPush(WithPc(g.s, g.w), g.w);
    s.(r := s.r.(ccr := s.r.ccr.(i := true)))
  }

  function RtiExec(s: State): State
  {
    var g := PopB(s);
    var g := PopB(g.s.(r := g.s.r.(ccr := Unpack(g.v))));
    var g := PopB(g.s.(r := g.s.r.(b := g.v)));
    var w := PopW(g.s.(r := g.s.r.(a := g.v)));
    var w := PopW(w.s.(r := w.s.r.(ix := w.w)));
    WithPc(w.s, w.w)
  }

  /** jsr_addr: `addr` may exceed 16 bits after bsr; only the program counter truncates it. */
  function JsrAddr(s: State, addr: int): State
  {
    var s1 := PushW(s, s.r.pc);
    CallPush(WithPc(s1, addr % 0x1_0000), addr)
  }

  function RtsExec(s: State): State
  {
    var w := PopW(s);
    WithPc(w.s, w.w)
  }

  datatype ImmMemArg = ImmMemArg(s: State, addr: nat, v: Byte)

  /** aim, oim, eim and tim read both operand bytes at PC before advancing it: here `v` is the
      immediate byte. An indexed address is not truncated to 16 bits. */
  function ImmMemOperands(s: State, indexed: bool): ImmMemArg
  {
    var immed := GetB(s, s.r.pc);
    var offs := GetB(immed.s, s.r.pc + 1);
    ImmMemArg(offs.s, if indexed then s.r.ix + offs.v else offs.v, immed.v)
  }

  function ImmMemRead(s: State, op: Bitwise, indexed: bool): ImmMemArg
  {
    var g := ImmMemOperands(s, indexed);
    var m := GetB(g.s, g.addr);
    ImmMemArg(m.s, g.addr, ByteOp(op, g.v, m.v))
  }

  function ImmMemWrite(s: State, addr: nat, v: Byte, store: bool): State
  {
    var s1 := s.(r := s.r.(ccr := TestFlags(s.r.ccr, v, 0x100)));
    var s2 := if store then PutB(s1, addr, v) else s1;
    WithPc(s2, Ahead(s2.r.pc, 2))
  }

  function ImmMemExec(s: State, op: Bitwise, store: bool, indexed: bool): State
  {
    var g := ImmMemRead(s, op, indexed);
    ImmMemWrite(g.s, g.addr, g.v, store)
  }

  function Exec(s: State, f: Func): State
  {
    match f
    case Trap => IntAddr(s, 0xFFEE)
    case Nop => s
    case Alu(op, acc, mode) =>
      var g := OperandB(s, mode);
      g.s.(r := AluExec(g.s.r, op, acc, g.v))
    case Wide(op, mode) =>
      var g := OperandW(s, mode);
      var s1 := g.s.(r := WideExec(g.s.r, op, g.w));
      if op == LDS then SetSp(s1, g.w) else s1
    case Store(acc, mode) =>
      var g := Address(s, mode);
      var v := GetAcc(g.s.r, acc);
      PutB(g.s.(r := g.s.r.(ccr := TestFlags(g.s.r.ccr, v, 0x100))), g.w, v)
    case StoreWide(reg, mode) =>
      var g := Address(s, mode);
      var w := WideValue(g.s.r, reg);
      PutW(g.s.(r := g.s.r.(ccr := TestFlags(g.s.r.ccr, w, 0x1_0000))), g.w, w)
    case RmwMem(op, mode) =>
      var g := Address(s, mode);
      var m := GetB(g.s, g.w);
      var x := RmwExec(m.s.r.ccr, op, m.v);
      var s1 := m.s.(r := m.s.r.(ccr := x.f));
      if op == TST then s1 else PutB(s1, g.w, x.v)
    case RmwAcc(op, acc) =>
      var x := RmwExec(s.r.ccr, op, GetAcc(s.r, acc));
      s.(r := SetAcc(s.r.(ccr := x.f), acc, x.v))
    case ImmMem(op, store, indexed) => ImmMemExec(s, op, store, indexed)
    case Inh(op) => s.(r := InhExec(s.r, op))
    case Branch(c) =>
      var g := FetchB(s);
      WithPc(g.s, Ahead(g.s.r.pc, if Taken(c, g.s.r.ccr) then Signed8(g.v) else 0))
    case Bsr =>
      var g := FetchB(s);
      JsrAddr(g.s, Signed8(g.v) + g.s.r.pc)
    case Jmp(mode) => var g := Address(s, mode); WithPc(g.s, g.w)
    case Jsr(mode) => var g := Address(s, mode); JsrAddr(g.s, g.w)
    case Rts => RtsExec(s)
    case Rti => RtiExec(s)
    case Swi => IntAddr(s, 0xFFFA)
    case Psh(acc) => PushB(s, GetAcc(s.r, acc))
    case Pul(acc) => var g := PopB(s); g.s.(r := SetAcc(g.s.r, acc, g.v))
    case Pshx => PushW(s, s.r.ix)
    case Pulx => var g := PopW(s); g.s.(r := g.s.r.(ix := g.w))
    case Ins => SetSp(s, s.r.sp + 1)
    case Des => SetSp(s, Minus1(s.r.sp))
    case Txs => SetSp(s, Minus1(s.r.ix))
  }

  // ---- instr_exec ----

  const SWI_CYCLES := 12

  function Elapse(s: State, n: nat): State
  {
    s.(cycles := s.cycles + n, dev := D.Tick(s.dev, n))
  }

  /** Fetch, decode and execute one instruction, without looking for interrupts. */
  function ExecNext(s: State): State
  {
    var g := FetchB(s);
    var o := Opcodetab(g.v);
    Elapse(Exec(g.s, o.f), o.cycles)
  }

  function Interrupting(s: State): D.Request
  {
    if s.r.ccr.i then D.None else D.Pending(s.dev)
  }

  /** instr_exec: take the interrupt that is pending, or execute the next instruction. */
  function Step(s: State): State
  {
    match Interrupting(s)
    case Vector(v) => Elapse(IntAddr(s, v), SWI_CYCLES)
    case None => ExecNext(s)
  }

  function Steps(s: State, n: nat): State
    decreases n
  {
    if n == 0 then s else Steps(Step(s), n - 1)
  }

  lemma StepsZero(s: State)
    ensures Steps(s, 0) == s
  {
  }

  lemma StepsUnfold(s: State, n: nat)
    requires n > 0
    ensures Steps(s, n) == Steps(Step(s), n - 1)
  {
  }

  /** The program by itself: `n` instructions with no interrupt taken. */
  function Alone(s: State, n: nat): State
    decreases n
  {
    if n == 0 then s else Alone(ExecNext(s), n - 1)
  }

  lemma AloneZero(s: State)
    ensures Alone(s, 0) == s
  {
  }

  lemma AloneUnfold(s: State, n: nat)
    requires n > 0
    ensures Alone(s, n) == Alone(ExecNext(s), n - 1)
  {
    hide ExecNext;
  }

  lemma {:induction false} AloneAdd(s: State, m: nat, n: nat)
    ensures Alone(s, m + n) == Alone(Alone(s, m), n)
    decreases m
  {
    hide *;
    if m == 0 {
      AloneZero(s);
    } else {
      AloneUnfold(s, m);
      AloneUnfold(s, m + n);
      AloneAdd(ExecNext(s), m - 1, n);
    }
  }
}
