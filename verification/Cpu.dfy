// The simulated processor as an object: memory.c, reg.c, opfunc.c in src/arch/m68xx and
// instr.c in src/arch/h6303. Every method is proved against the functions of module Machine.

/** The parts of the instructions that touch registers only, through the helpers of alu.c. */
module RegisterOps {
  import opened Words
  import opened Alu
  import opened Optab
  import opened Machine
  import opened Registers
  import opened Manual
  import opened Decode
  import Meaning

  ghost function RegsOf(r: Registers): Regs
    reads r
  {
    Regs(r.a, r.b, r.ix, r.sp, r.pc, r.ccr)
  }

  method ReadAcc(r: Registers, acc: Acc) returns (v: Byte)
    ensures v == GetAcc(RegsOf(r), acc)
  {
    v := match acc case A => r.a case B => r.b;
  }

  method WriteAcc(r: Registers, acc: Acc, v: Byte)
    modifies r
    ensures RegsOf(r) == SetAcc(old(RegsOf(r)), acc, v)
  {
    match acc
    case A => r.a := v;
    case B => r.b := v;
  }

  method WriteAccD(r: Registers, w: Word)
    modifies r
    ensures RegsOf(r) == SetAccD(old(RegsOf(r)), w)
  {
    r.a := Hi(w);
    r.b := Lo(w);
  }

  /** adda to bitb: one accumulator and one operand byte. */
  method ByteOperation(r: Registers, op: AluOp, acc: Acc, m: Byte)
    modifies r
    ensures RegsOf(r) == AluExec(old(RegsOf(r)), op, acc, m)
    ensures forall d | IsByteDigit(d) && AluOf(d) == op ::
              ByteEffect(d, old(GetAcc(RegsOf(r), acc)), m, old(r.ccr), GetAcc(RegsOf(r), acc), r.ccr)
  {
    hide AddByteFlags, SubFlags, TestFlags, ByteOp, ByteEffect, AluOf, IsByteDigit;
    forall d | IsByteDigit(d) && AluOf(d) == op {
      Meaning.ByteMeaning(d, RegsOf(r), acc, m);
    }
    var x := ReadAcc(r, acc);
    var carry := One(r.ccr.c, 1);
    match op
    case ADD =>
      var t := r.AddByte(x, m, 0);
      WriteAcc(r, acc, t % 0x100);
    case ADC =>
      var t := r.AddByte(x, m, carry);
      WriteAcc(r, acc, t % 0x100);
    case SUB =>
      var t := r.SubByte(x, m, 0);
      WriteAcc(r, acc, t % 0x100);
    case SBC =>
      var t := r.SubByte(x, m, carry);
      WriteAcc(r, acc, t % 0x100);
    case CMP =>
      var t := r.SubByte(x, m, 0);
    case LDA =>
      r.BitTest(m, 0x100);
      WriteAcc(r, acc, m);
    case BIT =>
      var t := r.Logic(AND, x, m);
    case LOGIC(bop) =>
      var t := r.Logic(bop, x, m);
      WriteAcc(r, acc, t);
  }

  /** addd to cpx; lds leaves SP to reg_setsp. */
  method WordOperation(r: Registers, op: WideOp, w: Word)
    modifies r
    ensures RegsOf(r) == WideExec(old(RegsOf(r)), op, w)
  {
    hide AddFlags, SubFlags, TestFlags, CmpFlags, Hi, Lo, Join;
    var d := Join(r.a, r.b);
    match op
    case ADDD =>
      var t := r.AddWord(d, w, 0);
      WriteAccD(r, t % 0x1_0000);
    case SUBD =>
      var t := r.SubWord(d, w, 0);
      WriteAccD(r, t % 0x1_0000);
    case LDD =>
      r.BitTest(w, 0x1_0000);
      WriteAccD(r, w);
    case LDX =>
      r.BitTest(w, 0x1_0000);
      r.ix := w;
    case LDS =>
      r.BitTest(w, 0x1_0000);
    case CPX =>
      var t := r.CmpWord(r.ix, w, 0);
  }

  /** neg to clr on a byte. */
  method ModifyByte(r: Registers, op: RmwOp, x: Byte) returns (v: Byte)
    modifies r
    ensures var e := RmwExec(old(r.ccr), op, x);
      RegsOf(r) == old(RegsOf(r)).(ccr := e.f) && v == e.v
  {
    hide SubFlags, TestFlags, ShiftFlags, ShiftLeft, ShiftRight, Complement, DecFlags, IncFlags, ClearFlags;
    match op
    case NEG =>
      var t := r.NegByte(x);
      v := t % 0x100;
    case COM => v := r.ComByte(x);
    case LSR => v := r.Shr(x, false, 0x100);
    case ROR => v := r.Shr(x, r.ccr.c, 0x100);
    case ASR => v := r.Shr(x, x >= 0x80, 0x100);
    case LSL => v := r.Shl(x, false, 0x100);
    case ROL => v := r.Shl(x, r.ccr.c, 0x100);
    case DEC => v := r.DecByte(x);
    case INC => v := r.IncByte(x);
    case TST =>
      r.TestByte(x);
      v := x;
    case CLR => v := r.ClrByte();
  }

  method ShiftD(r: Registers, left: bool)
    modifies r
    ensures RegsOf(r) == InhExec(old(RegsOf(r)), if left then ASLD else LSRD)
  {
    hide ShiftFlags, ShiftLeft, ShiftRight, Hi, Lo, Join, AluExec;
    var d := Join(r.a, r.b);
    if left {
      var w := r.Shl(d, false, 0x1_0000);
      WriteAccD(r, w);
    } else {
      var w := r.Shr(d, false, 0x1_0000);
      WriteAccD(r, w);
    }
  }

  method SetFlag(r: Registers, op: InhOp)
    requires op in {CLC, CLI, CLV, SEC, SEI, SEV}
    modifies r
    ensures RegsOf(r) == InhExec(old(RegsOf(r)), op)
  {
    hide AluExec;
    match op
    case CLC => r.ccr := r.ccr.(c := false);
    case CLI => r.ccr := r.ccr.(i := false);
    case CLV => r.ccr := r.ccr.(v := false);
    case SEC => r.ccr := r.ccr.(c := true);
    case SEI => r.ccr := r.ccr.(i := true);
    case SEV => r.ccr := r.ccr.(v := true);
  }

  method IndexOperation(r: Registers, op: InhOp)
    requires op in {ABX, DEX, INX, TSX, XGDX}
    modifies r
    ensures RegsOf(r) == InhExec(old(RegsOf(r)), op)
  {
    hide AluExec, Hi, Lo, Join;
    match op
    case ABX => r.ix := (r.ix + r.b) % 0x1_0000;
    case DEX =>
      var w := r.StepWord(r.ix, false);
      r.ix := w;
    case INX =>
      var w := r.StepWord(r.ix, true);
      r.ix := w;
    case TSX => r.ix := (r.sp + 1) % 0x1_0000;
    case XGDX =>
      var d := Join(r.a, r.b);
      WriteAccD(r, r.ix);
      r.ix := d;
  }

  method AccumulatorOperation(r: Registers, op: InhOp)
    requires op in {ABA, CBA, SBA, TAB, TBA, ASLD, LSRD, DAA, MUL, TAP, TPA}
    modifies r
    ensures RegsOf(r) == InhExec(old(RegsOf(r)), op)
  {
    hide AluExec, DaaSum, DaaFlags, Pack, Unpack, Product;
    match op
    case ABA => ByteOperation(r, ADD, A, r.b);
    case CBA => ByteOperation(r, CMP, A, r.b);
    case SBA => ByteOperation(r, SUB, A, r.b);
    case TAB => ByteOperation(r, LDA, B, r.a);
    case TBA => ByteOperation(r, LDA, A, r.b);
    case ASLD => ShiftD(r, true);
    case LSRD => ShiftD(r, false);
    case DAA => r.Daa();
    case MUL =>
      var w := Product(r.a, r.b);
      WriteAccD(r, w);
      r.ccr := r.ccr.(c := Lo(w) >= 0x80);
    case TAP => r.ccr := Unpack(r.a);
    case TPA => r.a := Pack(r.ccr);
  }

  method InherentOperation(r: Registers, op: InhOp)
    modifies r
    ensures RegsOf(r) == InhExec(old(RegsOf(r)), op)
  {
    hide InhExec;
    if op in {CLC, CLI, CLV, SEC, SEI, SEV} {
      SetFlag(r, op);
    } else if op in {ABX, DEX, INX, TSX, XGDX} {
      IndexOperation(r, op);
    } else {
      AccumulatorOperation(r, op);
    }
  }
}

module Cpu {
  import opened Words
  import opened Alu
  import opened Optab
  import opened Machine
  import opened CallHistory
  import opened RegisterOps
  import opened Manual
  import opened Decode
  import Meaning
  import Transfers
  import D = Device
  import R = Registers
  import C = CallStack
  import B = RegisterBlock

  class Cpu {
    const regs: R.Registers
    const calls: C.CallStack
    const block: B.RegisterBlock
    const ram: array<Byte>
    var cycles: nat
    ghost var hist: seq<Event>
    ghost var mon: Monitor

    ghost predicate Valid()
      reads this, calls, block
    {
      && calls.Valid() && block.Valid() && ram.Length == MEMSIZE && ram != block.iram && ram != block.recvbuf
    }

    ghost function Footprint(): set<object>
    {
      {this, regs, calls, calls.elements, block, block.iram, block.recvbuf, ram}
    }

    /** The state of the whole machine. */
    ghost function View(): State
      requires Valid()
      reads this, calls, block, Footprint()
    {
      State(RegsOf(regs), ram[..], block.View(), calls.View(), cycles, hist, mon)
    }

    constructor ()
      ensures Valid() && fresh(Footprint())
      ensures View().cs == [] && View().hist == [] && View().mon == Monitor({}, true)
    {
      regs := new R.Registers();
      calls := new C.CallStack();
      block := new B.RegisterBlock();
      ram := new Byte[MEMSIZE](_ => 0);
      cycles, hist, mon := 0, [], Monitor({}, true);
    }

    // ---- memory.c ----

    /** mem_getb. */
    method MemGetB(addr: nat) returns (v: Byte)
      requires Valid()
      modifies Footprint()
      ensures Valid() && Got(View(), v) == GetB(old(View()), addr)
    {
      hide D.Get, NoteRead;
      mon := NoteRead(mon, addr);
      if addr < D.NIREGS {
        v := block.GetByte(addr);
      } else if addr < MEMSIZE {
        v := ram[addr];
      } else {
        v := 0;
      }
    }

    method MemGetW(addr: nat) returns (w: Word)
      requires Valid()
      modifies Footprint()
      ensures Valid() && GotW(View(), w) == GetW(old(View()), addr)
    {
      hide View, GetB, Join;
      var hi := MemGetB(addr);
      var lo := MemGetB(addr + 1);
      w := Join(hi, lo);
    }

    /** mem_putb. */
    method MemPutB(addr: nat, v: Byte)
      requires Valid()
      modifies Footprint()
      ensures Valid() && View() == PutB(old(View()), addr, v)
    {
      hide D.Put, NoteRead, NoteWrite;
      if addr < D.NIREGS {
        mon := NoteWrite(if D.IsPort(addr) then NoteRead(mon, addr - 2) else mon, addr);
        block.PutByte(addr, v);
      } else if addr < MEMSIZE {
        mon := NoteWrite(mon, addr);
        ram[addr] := v;
      }
    }

    method MemPutW(addr: nat, w: Word)
      requires Valid()
      modifies Footprint()
      ensures Valid() && View() == PutW(old(View()), addr, w)
    {
      hide View, PutB, Hi, Lo;
      MemPutB(addr, Hi(w));
      MemPutB(addr + 1, Lo(w));
    }

    // ---- reg.c and callstac.c ----

    /** reg_setsp, given the 32-bit value before truncation. */
    method RegSetSp(value: nat)
      requires Valid()
      modifies Footprint()
      ensures Valid() && View() == SetSp(old(View()), value)
    {
      hide PopWhile;
      if value > regs.sp {
        calls.PopReturned(value);
      }
      regs.sp := value % 0x1_0000;
      hist := hist + [Moved(value)];
    }

    /** callstack_push of the current stack pointer. */
    method PushCall(addr: int)
      requires Valid()
      modifies Footprint()
      ensures Valid() && View() == CallPush(old(View()), addr)
    {
      hide Push;
      calls.PushEntry(Mod32(addr), regs.sp);
      hist := hist + [Called(Entry(Mod32(addr), regs.sp))];
    }

    method SetPc(pc: Word)
      requires Valid()
      modifies Footprint()
      ensures Valid() && View() == WithPc(old(View()), pc)
    {
      regs.pc := pc;
    }

    method PushByte(v: Byte)
      requires Valid()
      modifies Footprint()
      ensures Valid() && View() == PushB(old(View()), v)
    {
      hide SetSp, PutB, Minus1;
      var sp := regs.sp;
      RegSetSp(Minus1(sp));
      hide View;
      MemPutB(sp, v);
    }

    method PushWord(w: Word)
      requires Valid()
      modifies Footprint()
      ensures Valid() && View() == PushW(old(View()), w)
    {
      hide View, PushB, Hi, Lo;
      PushByte(Lo(w));
      PushByte(Hi(w));
    }

    method PopByte() returns (v: Byte)
      requires Valid()
      modifies Footprint()
      ensures Valid() && Got(View(), v) == PopB(old(View()))
    {
      hide SetSp, GetB;
      RegSetSp(regs.sp + 1);
      v := MemGetB(regs.sp);
    }

    method PopWord() returns (w: Word)
      requires Valid()
      modifies Footprint()
      ensures Valid() && GotW(View(), w) == PopW(old(View()))
    {
      hide View, PopB, Join;
      var hi := PopByte();
      var lo := PopByte();
      w := Join(hi, lo);
    }

    // ---- operands ----

    method FetchByte() returns (v: Byte)
      requires Valid()
      modifies Footprint()
      ensures Valid() && Got(View(), v) == FetchB(old(View()))
    {
      hide GetB, Ahead, WithPc;
      var pc := regs.pc;
      SetPc(Ahead(pc, 1));
      v := MemGetB(pc);
    }

    method FetchWord() returns (w: Word)
      requires Valid()
      modifies Footprint()
      ensures Valid() && GotW(View(), w) == FetchW(old(View()))
    {
      hide GetW, Ahead, WithPc;
      var pc := regs.pc;
      SetPc(Ahead(pc, 2));
      w := MemGetW(pc);
    }

    method OperandAddress(mode: Mode) returns (w: Word)
      requires Valid()
      modifies Footprint()
      ensures Valid() && GotW(View(), w) == Address(old(View()), mode)
    {
      hide FetchB, FetchW;
      if mode == Ext {
        w := FetchWord();
      } else {
        var v := FetchByte();
        w := if mode == Ix then (v + regs.ix) % 0x1_0000 else v;
      }
    }

    method OperandByte(mode: Mode) returns (v: Byte)
      requires Valid()
      modifies Footprint()
      ensures Valid() && Got(View(), v) == OperandB(old(View()), mode)
    {
      hide View, FetchB, Address, GetB;
      if mode == Imm {
        v := FetchByte();
      } else {
        var addr := OperandAddress(mode);
        v := MemGetB(addr);
      }
    }

    method OperandWord(mode: Mode) returns (w: Word)
      requires Valid()
      modifies Footprint()
      ensures Valid() && GotW(View(), w) == OperandW(old(View()), mode)
    {
      hide View, FetchW, Address, GetW;
      if mode == Imm {
        w := FetchWord();
      } else {
        var addr := OperandAddress(mode);
        w := MemGetW(addr);
      }
    }

    // ---- register steps of instructions ----

    method DoByteOperation(op: AluOp, acc: Acc, m: Byte)
      requires Valid()
      modifies Footprint()
      ensures Valid() && View() == old(View()).(r := AluExec(old(View()).r, op, acc, m))
    {
      hide AluExec;
      ByteOperation(regs, op, acc, m);
    }

    method DoWordOperation(op: WideOp, w: Word)
      requires Valid()
      modifies Footprint()
      ensures Valid() && View() == old(View()).(r := WideExec(old(View()).r, op, w))
    {
      hide WideExec;
      WordOperation(regs, op, w);
    }

    method DoModify(op: RmwOp, x: Byte) returns (v: Byte)
      requires Valid()
      modifies Footprint()
      ensures Valid()
      ensures var s := old(View());
        var e := RmwExec(s.r.ccr, op, x);
        View() == s.(r := s.r.(ccr := e.f)) && v == e.v
    {
      hide RmwExec;
      v := ModifyByte(regs, op, x);
    }

    method DoInherent(op: InhOp)
      requires Valid()
      modifies Footprint()
      ensures Valid() && View() == old(View()).(r := InhExec(old(View()).r, op))
    {
      hide InhExec;
      InherentOperation(regs, op);
    }

    method DoTest(v: int, w: int)
      requires Valid() && (w == 0x100 || w == 0x1_0000) && 0 <= v < w
      modifies Footprint()
      ensures Valid()
      ensures var s := old(View()); View() == s.(r := s.r.(ccr := TestFlags(s.r.ccr, v, w)))
    {
      hide TestFlags;
      regs.BitTest(v, w);
    }

    method DoWriteAcc(acc: Acc, v: Byte)
      requires Valid()
      modifies Footprint()
      ensures Valid() && View() == old(View()).(r := SetAcc(old(View()).r, acc, v))
    {
      WriteAcc(regs, acc, v);
    }

    method DoWriteFlags(f: Flags)
      requires Valid()
      modifies Footprint()
      ensures Valid() && View() == old(View()).(r := old(View()).r.(ccr := f))
    {
      regs.ccr := f;
    }

    method DoWriteIndex(w: Word)
      requires Valid()
      modifies Footprint()
      ensures Valid() && View() == old(View()).(r := old(View()).r.(ix := w))
    {
      regs.ix := w;
    }

    // ---- opfunc.c ----

    /** int_addr: stack the registers and go through the vector. */
    method IntAddress(vector: Word)
      requires Valid()
      modifies Footprint()
      ensures Valid() && View() == IntAddr(old(View()), vector)
      ensures Transfers.VectorApart(old(View()), vector) ==> Transfers.Entered(old(View()), old(regs.pc), vector, View())
    {
      hide GetW, CallPush, WithPc, StackRegs, Transfers.Entered, Transfers.VectorApart;
      if Transfers.VectorApart(View(), vector) {
        Transfers.EntryIs(View(), vector);
      }
      StackRegisters();
      var addr := MemGetW(vector);
      SetPc(addr);
      PushCall(addr);
      regs.ccr := regs.ccr.(i := true);
    }

    method StackRegisters()
      requires Valid()
      modifies Footprint()
      ensures Valid() && View() == StackRegs(old(View()))
    {
      hide PushB, PushW, Pack;
      var pc, ix, a, b, ccr := regs.pc, regs.ix, regs.a, regs.b, Pack(regs.ccr);
      assert View().r == RegsOf(regs);
      hide View;
      PushWord(pc);
      PushWord(ix);
      PushByte(a);
      PushByte(b);
      PushByte(ccr);
    }

    method Return()
      requires Valid()
      modifies Footprint()
      ensures Valid() && View() == RtsExec(old(View()))
    {
      hide View, PopW, WithPc;
      var pc := PopWord();
      SetPc(pc);
    }

    method ReturnFromInterrupt()
      requires Valid()
      modifies Footprint()
      ensures Valid() && View() == RtiExec(old(View()))
    {
      hide View, PopB, PopW, Unpack, WithPc;
      var ccr := PopByte();
      DoWriteFlags(Unpack(ccr));
      var b := PopByte();
      DoWriteAcc(B, b);
      var a := PopByte();
      DoWriteAcc(A, a);
      var ix := PopWord();
      DoWriteIndex(ix);
      var pc := PopWord();
      SetPc(pc);
    }

    /** jsr_addr. */
    method JumpSubroutine(addr: int)
      requires Valid()
      modifies Footprint()
      ensures Valid() && View() == JsrAddr(old(View()), addr)
    {
      hide PushW, CallPush, WithPc;
      PushWord(regs.pc);
      SetPc(addr % 0x1_0000);
      PushCall(addr);
    }

    method BranchOn(c: Cond)
      requires Valid()
      modifies Footprint()
      ensures Valid() && View() == Exec(old(View()), Branch(c))
      ensures var s := old(View());
        forall d | 0 <= d < 0x10 && CondOf(d) == c ::
          regs.pc == (s.r.pc + 1 + if Condition(d, s.r.ccr) then Displacement(FetchB(s).v) else 0) % 0x1_0000
    {
      hide FetchB, WithPc, Ahead, Taken, Condition, CondOf, Displacement;
      Meaning.BranchTarget(View(), c);
      var offset := FetchByte();
      SetPc(Ahead(regs.pc, if Taken(c, regs.ccr) then Signed8(offset) else 0));
    }

    method BranchSubroutine()
      requires Valid()
      modifies Footprint()
      ensures Valid() && View() == Exec(old(View()), Bsr)
    {
      hide FetchB, JsrAddr;
      var offset := FetchByte();
      JumpSubroutine(Signed8(offset) + regs.pc);
    }

    /** The operand fetch of aim, oim, eim and tim. */
    method ImmediateMemoryOperands(indexed: bool) returns (immed: Byte, addr: nat)
      requires Valid()
      modifies Footprint()
      ensures Valid() && ImmMemArg(View(), addr, immed) == ImmMemOperands(old(View()), indexed)
    {
      hide GetB;
      var pc: nat, ix: nat := regs.pc, regs.ix;
      immed := MemGetB(pc);
      var offset := MemGetB(pc + 1);
      addr := if indexed then ix + offset else offset;
    }

    method ImmediateMemory(op: Bitwise, store: bool, indexed: bool)
      requires Valid()
      modifies Footprint()
      ensures Valid() && View() == ImmMemExec(old(View()), op, store, indexed)
    {
      hide ImmMemOperands, GetB, ByteOp, ImmMemWrite, View;
      var immed, addr := ImmediateMemoryOperands(indexed);
      var m := MemGetB(addr);
      ImmediateMemoryResult(addr, ByteOp(op, immed, m), store);
    }

    method ImmediateMemoryResult(addr: nat, v: Byte, store: bool)
      requires Valid()
      modifies Footprint()
      ensures Valid() && View() == ImmMemWrite(old(View()), addr, v, store)
    {
      hide PutB, WithPc, Ahead, TestFlags;
      DoTest(v, 0x100);
      if store {
        MemPutB(addr, v);
      }
      SetPc(Ahead(regs.pc, 2));
    }

    method AluInstruction(op: AluOp, acc: Acc, mode: Mode)
      requires Valid()
      modifies Footprint()
      ensures Valid() && View() == Exec(old(View()), Func.Alu(op, acc, mode))
    {
      hide View, OperandB, AluExec;
      var m := OperandByte(mode);
      DoByteOperation(op, acc, m);
    }

    method WideInstruction(op: WideOp, mode: Mode)
      requires Valid()
      modifies Footprint()
      ensures Valid() && View() == Exec(old(View()), Wide(op, mode))
    {
      hide View, OperandW, WideExec, SetSp;
      var w := OperandWord(mode);
      DoWordOperation(op, w);
      if op == LDS {
        RegSetSp(w);
      }
    }

    method StoreInstruction(acc: Acc, mode: Mode)
      requires Valid()
      modifies Footprint()
      ensures Valid() && View() == Exec(old(View()), Store(acc, mode))
    {
      hide Address, PutB, TestFlags, GetAcc;
      var addr := OperandAddress(mode);
      var v := ReadAcc(regs, acc);
      DoTest(v, 0x100);
      MemPutB(addr, v);
    }

    method StoreWideInstruction(reg: WideReg, mode: Mode)
      requires Valid()
      modifies Footprint()
      ensures Valid() && View() == Exec(old(View()), StoreWide(reg, mode))
    {
      hide Address, PutW, TestFlags, Join;
      var addr := OperandAddress(mode);
      var w := match reg case STD => Join(regs.a, regs.b) case STX => regs.ix case STS => regs.sp;
      DoTest(w, 0x1_0000);
      MemPutW(addr, w);
    }

    method ModifyMemory(op: RmwOp, mode: Mode)
      requires Valid()
      modifies Footprint()
      ensures Valid() && View() == Exec(old(View()), RmwMem(op, mode))
    {
      hide View, Address, GetB, PutB, RmwExec;
      var addr := OperandAddress(mode);
      var x := MemGetB(addr);
      var v := DoModify(op, x);
      if op != TST {
        MemPutB(addr, v);
      }
    }

    method ModifyAccumulator(op: RmwOp, acc: Acc)
      requires Valid()
      modifies Footprint()
      ensures Valid() && View() == Exec(old(View()), RmwAcc(op, acc))
    {
      hide RmwExec, GetAcc, SetAcc;
      var x := ReadAcc(regs, acc);
      assert x == GetAcc(View().r, acc);
      hide View;
      var v := DoModify(op, x);
      DoWriteAcc(acc, v);
    }

    method PushAccumulator(acc: Acc)
      requires Valid()
      modifies Footprint()
      ensures Valid() && View() == Exec(old(View()), Psh(acc))
    {
      hide PushB, GetAcc;
      var v := ReadAcc(regs, acc);
      PushByte(v);
    }

    method PullAccumulator(acc: Acc)
      requires Valid()
      modifies Footprint()
      ensures Valid() && View() == Exec(old(View()), Pul(acc))
    {
      hide View, PopB, SetAcc;
      var v := PopByte();
      DoWriteAcc(acc, v);
    }

    method PullIndex()
      requires Valid()
      modifies Footprint()
      ensures Valid() && View() == Exec(old(View()), Pulx)
    {
      hide View, PopW;
      var w := PopWord();
      DoWriteIndex(w);
    }

    /** ins, des and txs. */
    method StackPointerInstruction(f: Func)
      requires Valid() && (f == Ins || f == Des || f == Txs)
      modifies Footprint()
      ensures Valid() && View() == Exec(old(View()), f)
    {
      hide SetSp, Minus1;
      match f
      case Ins => RegSetSp(regs.sp + 1);
      case Des => RegSetSp(Minus1(regs.sp));
      case Txs => RegSetSp(Minus1(regs.ix));
    }

    method Jump(mode: Mode)
      requires Valid()
      modifies Footprint()
      ensures Valid() && View() == Exec(old(View()), Jmp(mode))
    {
      hide View, Address, WithPc;
      var addr := OperandAddress(mode);
      SetPc(addr);
    }

    method JumpToSubroutine(mode: Mode)
      requires Valid()
      modifies Footprint()
      ensures Valid() && View() == Exec(old(View()), Jsr(mode))
    {
      hide View, Address, JsrAddr;
      var addr := OperandAddress(mode);
      JumpSubroutine(addr);
    }

    /** The function of an opcode table entry. */
    method Execute(f: Func)
      requires Valid()
      modifies Footprint()
      ensures Valid() && View() == Exec(old(View()), f)
    {
      hide View, IntAddr, ImmMemExec, InhExec, RtsExec, RtiExec, PushW, OperandB, OperandW, Address, FetchB,
           PopB, PopW, AluExec, WideExec, RmwExec, JsrAddr, SetSp, PutB, PutW, GetB, PushB, SetAcc, GetAcc;
      match f
      case Trap => IntAddress(0xFFEE);
      case Nop =>
      case Alu(op, acc, mode) => AluInstruction(op, acc, mode);
      case Wide(op, mode) => WideInstruction(op, mode);
      case Store(acc, mode) => StoreInstruction(acc, mode);
      case StoreWide(reg, mode) => StoreWideInstruction(reg, mode);
      case RmwMem(op, mode) => ModifyMemory(op, mode);
      case RmwAcc(op, acc) => ModifyAccumulator(op, acc);
      case ImmMem(op, store, indexed) => ImmediateMemory(op, store, indexed);
      case Inh(op) => DoInherent(op);
      case Branch(c) => BranchOn(c);
      case Bsr => BranchSubroutine();
      case Jmp(mode) => Jump(mode);
      case Jsr(mode) => JumpToSubroutine(mode);
      case Rts => Return();
      case Rti => ReturnFromInterrupt();
      case Swi => IntAddress(0xFFFA);
      case Psh(acc) => PushAccumulator(acc);
      case Pul(acc) => PullAccumulator(acc);
      case Pshx => PushIndex();
      case Pulx => PullIndex();
      case Ins => StackPointerInstruction(Ins);
      case Des => StackPointerInstruction(Des);
      case Txs => StackPointerInstruction(Txs);
    }

    method PushIndex()
      requires Valid()
      modifies Footprint()
      ensures Valid() && View() == Exec(old(View()), Pshx)
    {
      hide PushW;
      PushWord(regs.ix);
    }

    // ---- instr.c ----

    /** Count the cycles of an instruction and run the timers. */
    method Count(n: nat)
      requires Valid()
      modifies Footprint()
      ensures Valid() && View() == Elapse(old(View()), n)
    {
      hide D.Tick;
      cycles := cycles + n;
      block.Advance(n);
    }

    /** The interrupt that is to be taken before the next instruction, if any. */
    method PendingInterrupt() returns (q: D.Request)
      requires Valid()
      ensures q == Interrupting(View())
      ensures if View().r.ccr.i then q.None? else D.Chosen(View().dev, q)
    {
      hide D.Pending, D.Chosen;
      if regs.ccr.i {
        q := D.None;
      } else {
        q := block.PendingRequest();
      }
    }

    method ExecuteNext()
      requires Valid()
      modifies Footprint()
      ensures Valid() && View() == ExecNext(old(View()))
    {
      hide View, FetchB, Exec, Elapse, Opcodetab;
      var opcode := FetchByte();
      var o := Opcodetab(opcode);
      Execute(o.f);
      Count(o.cycles);
    }

    /** instr_exec. */
    method InstrExec()
      requires Valid()
      modifies Footprint()
      ensures Valid() && View() == Step(old(View()))
    {
      hide View, ExecNext, IntAddr, Elapse, Interrupting;
      var q := PendingInterrupt();
      match q
      case Vector(addr) =>
        IntAddress(addr);
        Count(SWI_CYCLES);
      case None => ExecuteNext();
    }
  }
}
