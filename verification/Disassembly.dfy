// Execution and disassembly agree on instruction lengths
// (src/arch/h6303/instr.c instr_exec and instr_print, src/base/command.c unassemble).

module Disassembly {
  import opened Words
  import opened Optab
  import opened Machine
  import Alu
  import D = Device

  /** What instr_print returns for the opcode at an address. */
  function Length(op: Byte): nat
  {
    Opcodetab(op).operands + 1
  }

  function Fetched(s: State, addr: Word): Byte
  {
    GetB(s, addr).v
  }

  /** The signed displacement that an operation adds to PC: a taken branch, or nothing. */
  function Displacement(f: Func, s: State): int
  {
    if f.Branch? && Taken(f.cond, s.r.ccr) then Signed8(Fetched(s, s.r.pc)) else 0
  }

  lemma AddressPc(s: State, mode: Mode)
    requires mode != Imm
    ensures Address(s, mode).s.r == s.r.(pc := Ahead(s.r.pc, ModeBytes(mode, false)))
  {
  }

  lemma OperandPc(s: State, mode: Mode)
    ensures OperandB(s, mode).s.r == s.r.(pc := Ahead(s.r.pc, ModeBytes(mode, false)))
    ensures OperandW(s, mode).s.r == s.r.(pc := Ahead(s.r.pc, ModeBytes(mode, true)))
  {
    if mode != Imm {
      AddressPc(s, mode);
    }
  }

  lemma PopPc(s: State)
    ensures PopB(s).s.r.pc == PopW(s).s.r.pc == s.r.pc
  {
  }

  lemma PushPc(s: State, v: Byte, w: Word)
    ensures PushB(s, v).r.pc == PushW(s, w).r.pc == s.r.pc
  {
  }

  lemma InhPc(r: Regs, op: InhOp)
    ensures InhExec(r, op).pc == r.pc
  {
    AluPc(r, ADD, A, r.b);
    AluPc(r, CMP, A, r.b);
    AluPc(r, SUB, A, r.b);
    AluPc(r, LDA, A, r.b);
    AluPc(r, LDA, B, r.a);
    hide AluExec, Product;
  }

  lemma AheadTwice(pc: Word, m: int, n: int)
    ensures Ahead(Ahead(pc, m), n) == Ahead(pc, m + n)
  {
  }

  predicate Immediate(f: Func)
  {
    (f.Store? || f.StoreWide? || f.RmwMem?) && f.mode == Imm
  }

  lemma OperandExecPc(s: State, f: Func)
    requires f.Alu? || f.Wide?
    ensures Exec(s, f).r.pc == Ahead(s.r.pc, FuncBytes(f))
  {
    OperandPc(s, f.mode);
    match f
    case Alu(op, acc, mode) =>
      var g := OperandB(s, mode);
      hide OperandB, Ahead;
      AluPc(g.s.r, op, acc, g.v);
    case Wide(op, mode) =>
      var g := OperandW(s, mode);
      hide OperandW, Ahead;
      WidePc(g.s.r, op, g.w);
  }

  lemma AluPc(r: Regs, op: AluOp, acc: Acc, m: Byte)
    ensures AluExec(r, op, acc, m).pc == r.pc
  {
    hide Alu.AddByteFlags, Alu.SubFlags, Alu.TestFlags, ByteOp;
  }

  lemma WidePc(r: Regs, op: WideOp, w: Word)
    ensures WideExec(r, op, w).pc == r.pc
  {
    hide Alu.AddFlags, Alu.SubFlags, Alu.CmpFlags, Alu.TestFlags;
  }

  lemma AddressExecPc(s: State, f: Func)
    requires (f.Store? || f.StoreWide? || f.RmwMem?) && f.mode != Imm
    ensures Exec(s, f).r.pc == Ahead(s.r.pc, FuncBytes(f))
  {
    AddressPc(s, f.mode);
    hide Address, Ahead, Alu.TestFlags, RmwExec, D.Get, D.Put;
  }

  lemma StackExecPc(s: State, f: Func)
    requires f.Psh? || f.Pshx? || f.Pul? || f.Pulx?
    ensures Exec(s, f).r.pc == s.r.pc
  {
    PopPc(s);
    match f
    case Psh(acc) => PushPc(s, GetAcc(s.r, acc), 0);
    case Pshx => PushPc(s, 0, s.r.ix);
    case _ =>
    hide PushB, PushW, PopB, PopW;
  }

  lemma ImmMemPc(s: State, op: Bitwise, store: bool, indexed: bool)
    ensures ImmMemExec(s, op, store, indexed).r.pc == Ahead(s.r.pc, 2)
  {
    hide Ahead, ByteOp, Alu.TestFlags, D.Get, D.Put;
  }

  lemma BranchPc(s: State, c: Cond)
    ensures Exec(s, Branch(c)).r.pc == Ahead(s.r.pc, 1 + Displacement(Branch(c), s))
  {
    var g := FetchB(s);
    assert g.s.r == s.r.(pc := Ahead(s.r.pc, 1)) && g.v == Fetched(s, s.r.pc);
    AheadTwice(s.r.pc, 1, Displacement(Branch(c), s));
    hide FetchB, Fetched, Taken, Signed8;
  }

  lemma ExecPc(s: State, f: Func)
    requires !Transfers(f) && !Immediate(f)
    ensures Exec(s, f).r.pc == Ahead(s.r.pc, FuncBytes(f) + Displacement(f, s))
  {
    hide OperandB, OperandW, Address, RmwExec, InhExec, PushB, PushW, PopB, PopW, ImmMemExec, FetchB, Taken, SetSp;
    AheadNone(s.r.pc);
    match f
    case Alu(_, _, _) => OperandExecPc(s, f);
    case Wide(_, _) => OperandExecPc(s, f);
    case Store(_, _) => AddressExecPc(s, f);
    case StoreWide(_, _) => AddressExecPc(s, f);
    case RmwMem(_, _) => AddressExecPc(s, f);
    case ImmMem(op, store, indexed) => ImmMemPc(s, op, store, indexed);
    case Inh(op) => InhPc(s.r, op);
    case Branch(c) => BranchPc(s, c);
    case Pul(_) => StackExecPc(s, f);
    case Pulx => StackExecPc(s, f);
    case Psh(_) => StackExecPc(s, f);
    case Pshx => StackExecPc(s, f);
    case Ins => SetSpPc(s, s.r.sp + 1);
    case Des => SetSpPc(s, Minus1(s.r.sp));
    case Txs => SetSpPc(s, Minus1(s.r.ix));
    case _ =>
  }

  lemma SetSpPc(s: State, value: nat)
    ensures SetSp(s, value).r.pc == s.r.pc
  {
  }

  lemma AheadNone(pc: Word)
    ensures Ahead(pc, 0) == pc
  {
  }

  lemma RowsHaveNoImmediateStores(hi: nat, lo: nat)
    requires hi < 0x10 && lo < 0x10
    ensures !Immediate(TableEntry(hi, lo).f)
  {
  }

  /** Executing an instruction that does not transfer control advances PC by what the
      disassembler reports as its length, plus the displacement of a taken branch. */
  lemma ExecutorAgrees(s: State)
    requires Interrupting(s).None?
    requires !Transfers(Opcodetab(Fetched(s, s.r.pc)).f)
    ensures var op := Fetched(s, s.r.pc);
      var operand := FetchB(s).s;
      Step(s).r.pc == Ahead(s.r.pc, Length(op) + Displacement(Opcodetab(op).f, operand))
  {
    FetchPc(s);
    var g := FetchB(s);
    NoImmediateStores(g.v);
    TableAgrees(g.v);
    StepPc(s);
    hide FetchB, Fetched, Opcodetab, Step, Exec, Displacement, Interrupting;
    var f := Opcodetab(g.v).f;
    ExecPc(g.s, f);
    AheadTwice(s.r.pc, 1, FuncBytes(f) + Displacement(f, g.s));
  }

  lemma FetchPc(s: State)
    ensures FetchB(s).v == Fetched(s, s.r.pc) && FetchB(s).s.r == s.r.(pc := Ahead(s.r.pc, 1))
  {
  }

  lemma NoImmediateStores(op: Byte)
    ensures !Immediate(Opcodetab(op).f)
  {
    RowsHaveNoImmediateStores(op / 0x10, op % 0x10);
    hide TableEntry;
  }

  lemma StepPc(s: State)
    requires Interrupting(s).None?
    ensures var g := FetchB(s); Step(s).r.pc == Exec(g.s, Opcodetab(g.v).f).r.pc
  {
    hide FetchB, Opcodetab, Exec, Interrupting, D.Tick;
  }

  /** unassemble: the address after listing `n` instructions from `addr`, reading RAM as it
      stands. The address is not truncated; instr_print truncates it to 16 bits. */
  function Sweep(ram: Ram, addr: nat, n: nat): nat
    decreases n
  {
    if n == 0 then addr else Sweep(ram, addr + Length(ram[addr % 0x1_0000]), n - 1)
  }

  /** A run of `n` steps that is straight-line: no interrupt, no control transfer, no taken
      branch, and each opcode still has the value it had in `ram`, outside the register block. */
  ghost predicate StraightLine(ram: Ram, s: State, n: nat)
    decreases n
  {
    n > 0 ==>
      && Interrupting(s).None?
      && s.r.pc >= D.NIREGS && s.ram[s.r.pc] == ram[s.r.pc]
      && var f := Opcodetab(ram[s.r.pc]).f;
      && !Transfers(f)
      && (f.Branch? ==> !Taken(f.cond, s.r.ccr))
      && StraightLine(ram, Step(s), n - 1)
  }

  /** An unassemble sweep lists exactly the addresses that straight-line execution visits. */
  lemma {:induction false} SweepVisits(ram: Ram, s: State, addr: nat, n: nat)
    requires StraightLine(ram, s, n)
    requires addr % 0x1_0000 == s.r.pc
    ensures Sweep(ram, addr, n) % 0x1_0000 == Steps(s, n).r.pc
    decreases n
  {
    hide *;
    if n == 0 {
      NoSteps(ram, s, addr);
    } else {
      var next := OneStep(ram, s, addr, n);
      SweepVisits(ram, Step(s), next, n - 1);
    }
  }

  lemma NoSteps(ram: Ram, s: State, addr: nat)
    ensures Sweep(ram, addr, 0) == addr && Steps(s, 0) == s
  {
  }

  lemma OneStep(ram: Ram, s: State, addr: nat, n: nat) returns (next: nat)
    requires n > 0 && StraightLine(ram, s, n)
    requires addr % 0x1_0000 == s.r.pc
    ensures StraightLine(ram, Step(s), n - 1)
    ensures next % 0x1_0000 == Step(s).r.pc
    ensures Sweep(ram, addr, n) == Sweep(ram, next, n - 1)
    ensures Steps(s, n) == Steps(Step(s), n - 1)
  {
    hide *;
    StraightStep(ram, s, n);
    StepsUnfold(s, n);
    next := SweepUnfold(ram, s, addr, n);
  }

  lemma SweepUnfold(ram: Ram, s: State, addr: nat, n: nat) returns (next: nat)
    requires n > 0 && addr % 0x1_0000 == s.r.pc
    ensures Sweep(ram, addr, n) == Sweep(ram, next, n - 1)
    ensures next % 0x1_0000 == Ahead(s.r.pc, Length(ram[s.r.pc]))
  {
    hide Opcodetab;
    next := addr + Length(ram[s.r.pc]);
  }

  lemma StraightStep(ram: Ram, s: State, n: nat)
    requires n > 0 && StraightLine(ram, s, n)
    ensures StraightLine(ram, Step(s), n - 1)
    ensures Step(s).r.pc == Ahead(s.r.pc, Length(ram[s.r.pc]))
  {
    FetchPc(s);
    assert Fetched(s, s.r.pc) == ram[s.r.pc];
    hide FetchB, Fetched, Opcodetab, Step, Interrupting, Taken, Signed8;
    ExecutorAgrees(s);
  }
}
