// The opcode table of the 6303 as a law over the bits of the opcode: src/arch/h6303/optab.c.

module Decode {
  import opened Words
  import opened Optab

  /** Bits 4 and 5 of an opcode from 0x80 on choose the addressing mode. */
  function ModeOf(op: Byte): Mode
  {
    match op / 0x10 % 4 case 0 => Imm case 1 => Dir case 2 => Ix case _ => Ext
  }

  /** Bit 6 of such an opcode chooses the accumulator. */
  function AccOf(op: Byte): Acc
  {
    if op / 0x40 % 2 == 1 then B else A
  }

  function AluOf(d: int): AluOp
  {
    match d
    case 0 => SUB case 1 => CMP case 2 => SBC case 4 => LOGIC(AND) case 5 => BIT case 6 => LDA
    case 8 => LOGIC(XOR) case 9 => ADC case 0xA => LOGIC(OR) case _ => ADD
  }

  function RmwOf(d: int): RmwOp
  {
    match d
    case 0 => NEG case 3 => COM case 4 => LSR case 6 => ROR case 7 => ASR case 8 => LSL
    case 9 => ROL case 0xA => DEC case 0xC => INC case 0xD => TST case _ => CLR
  }

  function CondOf(d: int): Cond
  {
    match d
    case 0 => BRA case 1 => BRN case 2 => BHI case 3 => BLS case 4 => BCC case 5 => BCS case 6 => BNE case 7 => BEQ
    case 8 => BVC case 9 => BVS case 0xA => BPL case 0xB => BMI case 0xC => BGE case 0xD => BLT case 0xE => BGT
    case _ => BLE
  }

  /** Opcodes from 0x80 on. */
  function HighLaw(op: Byte): Func
  {
    var d := op % 0x10;
    var first := AccOf(op) == A;
    var mode := ModeOf(op);
    match d
    case 3 => Wide(if first then SUBD else ADDD, mode)
    case 7 => if mode == Imm then Trap else Store(AccOf(op), mode)
    case 0xC => Wide(if first then CPX else LDD, mode)
    case 0xD =>
      if first then (if mode == Imm then Bsr else Jsr(mode))
      else if mode == Imm then Trap else StoreWide(STD, mode)
    case 0xE => Wide(if first then LDS else LDX, mode)
    case 0xF => if mode == Imm then Trap else StoreWide(if first then STS else STX, mode)
    case _ => Alu(AluOf(d), AccOf(op), mode)
  }

  /** Opcodes 0x40 to 0x7F: accumulator A or B, then indexed and extended memory. */
  function ModifyLaw(op: Byte): Func
  {
    var d := op % 0x10;
    var inMemory := op >= 0x60;
    match d
    case 1 => if inMemory then ImmMem(AND, true, op < 0x70) else Trap
    case 2 => if inMemory then ImmMem(OR, true, op < 0x70) else Trap
    case 5 => if inMemory then ImmMem(XOR, true, op < 0x70) else Trap
    case 0xB => if inMemory then ImmMem(AND, false, op < 0x70) else Trap
    case 0xE => if inMemory then Jmp(ModeOf(op)) else Trap
    case _ => if inMemory then RmwMem(RmwOf(d), ModeOf(op))
              else RmwAcc(RmwOf(d), if op < 0x50 then A else B)
  }

  /** Cycles by operation and mode: a byte operand costs one more for each kind of address, a word
      operand another one, a read-modify-write of memory six. */
  function ModeCycles(mode: Mode): nat
  {
    match mode case Imm => 0 case Dir => 1 case _ => 2
  }

  function HighCycles(op: Byte): nat
  {
    match HighLaw(op)
    case Trap => 0
    case Wide(_, mode) => 3 + ModeCycles(mode)
    case StoreWide(_, mode) => 3 + ModeCycles(mode)
    case Bsr => 5
    case Jsr(mode) => if mode == Ext then 6 else 5
    case _ => 2 + ModeCycles(ModeOf(op))
  }

  function ModifyCycles(op: Byte): nat
  {
    match ModifyLaw(op)
    case Trap => 0
    case RmwAcc(_, _) => 1
    case Jmp(_) => 3
    case ImmMem(_, store, indexed) => 4 + (if store then 2 else 0) + if indexed then 1 else 0
    case RmwMem(rop, mode) => if rop == CLR then 5 else if rop == TST && mode == Ix then 4 else 6
    case _ => 0
  }

  lemma HighRow(hi: nat, lo: nat)
    requires 8 <= hi < 0x10 && lo < 0x10
    ensures var op := 0x10 * hi + lo;
      var o := TableEntry(hi, lo);
      o.f == HighLaw(op) && o.cycles == HighCycles(op)
  {
    var op := 0x10 * hi + lo;
    assert op / 0x10 == hi && op % 0x10 == lo;
    assert op / 0x40 % 2 == 1 <==> hi >= 0xC;
    match hi
    case 8 =>
    case 9 =>
    case 0xA =>
    case 0xB =>
    case 0xC =>
    case 0xD =>
    case 0xE =>
    case _ =>
  }

  /** Every opcode from 0x80 on follows the law. */
  lemma HighOpcodes(op: Byte)
    requires op >= 0x80
    ensures Opcodetab(op).f == HighLaw(op) && Opcodetab(op).cycles == HighCycles(op)
  {
    hide HighLaw, HighCycles, TableEntry;
    HighRow(op / 0x10, op % 0x10);
  }

  lemma ModifyRow(hi: nat, lo: nat)
    requires 4 <= hi < 8 && lo < 0x10
    ensures var op := 0x10 * hi + lo;
      var o := TableEntry(hi, lo);
      o.f == ModifyLaw(op) && o.cycles == ModifyCycles(op)
  {
    var op := 0x10 * hi + lo;
    assert op / 0x10 == hi && op % 0x10 == lo;
    match hi
    case 4 =>
    case 5 =>
    case 6 =>
    case _ =>
  }

  /** So does every opcode from 0x40 to 0x7F. */
  lemma ModifyOpcodes(op: Byte)
    requires 0x40 <= op < 0x80
    ensures Opcodetab(op).f == ModifyLaw(op) && Opcodetab(op).cycles == ModifyCycles(op)
  {
    hide ModifyLaw, ModifyCycles, TableEntry;
    ModifyRow(op / 0x10, op % 0x10);
  }

  lemma BranchOpcodes(op: Byte)
    requires 0x20 <= op < 0x30
    ensures Opcodetab(op).f == Branch(CondOf(op % 0x10)) && Opcodetab(op).cycles == 3
  {
    assert op / 0x10 == 2;
  }
}
