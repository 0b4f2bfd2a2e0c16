// Opcode table of the 6303: src/arch/h6303/optab.c.

/** Each opcode maps to its operand count, the operation it runs, and its cycles. The many
    opfunc.c functions are families here: an operation, a register and an addressing mode. */
module Optab {
  import opened Words

  datatype Mode = Imm | Dir | Ext | Ix
  datatype Acc = A | B
  datatype AluOp = ADD | ADC | SUB | SBC | CMP | LDA | BIT | LOGIC(op: Bitwise)
  datatype WideOp = ADDD | SUBD | LDD | LDX | LDS | CPX
  datatype WideReg = STD | STX | STS
  datatype RmwOp = NEG | COM | LSR | ROR | ASR | LSL | ROL | DEC | INC | TST | CLR
  datatype Cond = BRA | BRN | BHI | BLS | BCC | BCS | BNE | BEQ | BVC | BVS | BPL | BMI | BGE | BLT | BGT | BLE
  datatype InhOp = ABA | ABX | ASLD | CBA | CLC | CLI | CLV | DAA | DEX | INX | LSRD | MUL
                 | SBA | SEC | SEI | SEV | TAB | TAP | TBA | TPA | TSX | XGDX

  datatype Func =
    | Trap
    | Nop                                           // nop, wai, slp
    | Alu(op: AluOp, acc: Acc, mode: Mode)          // adda_imm .. bitb_ext
    | Wide(wop: WideOp, mode: Mode)                 // addd_imm .. cpx_ext
    | Store(acc: Acc, mode: Mode)
    | StoreWide(reg: WideReg, mode: Mode)
    | RmwMem(rop: RmwOp, mode: Mode)
    | RmwAcc(rop: RmwOp, acc: Acc)
    | ImmMem(bop: Bitwise, store: bool, indexed: bool)  // aim, oim, eim, tim
    | Inh(iop: InhOp)                               // registers only
    | Branch(cond: Cond)
    | Bsr
    | Jmp(mode: Mode)
    | Jsr(mode: Mode)
    | Rts
    | Rti
    | Swi
    | Psh(acc: Acc)
    | Pul(acc: Acc)
    | Pshx
    | Pulx
    | Ins
    | Des
    | Txs

  datatype Opcode = Opcode(operands: nat, f: Func, cycles: nat)

  function Opcodetab(op: Byte): Opcode
  {
    TableEntry(op / 0x10, op % 0x10)
  }

  function TableEntry(hi: nat, lo: nat): Opcode
  {
    match hi
    case 0x0 => Row0(lo)
    case 0x1 => Row1(lo)
    case 0x2 => Row2(lo)
    case 0x3 => Row3(lo)
    case 0x4 => Row4(lo)
    case 0x5 => Row5(lo)
    case 0x6 => Row6(lo)
    case 0x7 => Row7(lo)
    case 0x8 => Row8(lo)
    case 0x9 => Row9(lo)
    case 0xA => RowA(lo)
    case 0xB => RowB(lo)
    case 0xC => RowC(lo)
    case 0xD => RowD(lo)
    case 0xE => RowE(lo)
    case _ => RowF(lo)
  }

  function Row0(lo: nat): Opcode
  {
    match lo
    case 0x0 => Opcode(0, Trap, 0)
    case 0x1 => Opcode(0, Nop, 1)
    case 0x2 => Opcode(0, Trap, 0)
    case 0x3 => Opcode(0, Trap, 0)
    case 0x4 => Opcode(0, Inh(LSRD), 1)
    case 0x5 => Opcode(0, Inh(ASLD), 1)
    case 0x6 => Opcode(0, Inh(TAP), 1)
    case 0x7 => Opcode(0, Inh(TPA), 1)
    case 0x8 => Opcode(0, Inh(INX), 1)
    case 0x9 => Opcode(0, Inh(DEX), 1)
    case 0xA => Opcode(0, Inh(CLV), 1)
    case 0xB => Opcode(0, Inh(SEV), 1)
    case 0xC => Opcode(0, Inh(CLC), 1)
    case 0xD => Opcode(0, Inh(SEC), 1)
    case 0xE => Opcode(0, Inh(CLI), 1)
    case _ => Opcode(0, Inh(SEI), 1)
  }

  function Row1(lo: nat): Opcode
  {
    match lo
    case 0x0 => Opcode(0, Inh(SBA), 1)
    case 0x1 => Opcode(0, Inh(CBA), 1)
    case 0x2 => Opcode(0, Trap, 0)
    case 0x3 => Opcode(0, Trap, 0)
    case 0x4 => Opcode(0, Trap, 0)
    case 0x5 => Opcode(0, Trap, 0)
    case 0x6 => Opcode(0, Inh(TAB), 1)
    case 0x7 => Opcode(0, Inh(TBA), 1)
    case 0x8 => Opcode(0, Inh(XGDX), 2)
    case 0x9 => Opcode(0, Inh(DAA), 2)
    case 0xA => Opcode(0, Nop, 4)
    case 0xB => Opcode(0, Inh(ABA), 1)
    case 0xC => Opcode(0, Trap, 0)
    case 0xD => Opcode(0, Trap, 0)
    case 0xE => Opcode(0, Trap, 0)
    case _ => Opcode(0, Trap, 0)
  }

  function Row2(lo: nat): Opcode
  {
    match lo
    case 0x0 => Opcode(1, Branch(BRA), 3)
    case 0x1 => Opcode(1, Branch(BRN), 3)
    case 0x2 => Opcode(1, Branch(BHI), 3)
    case 0x3 => Opcode(1, Branch(BLS), 3)
    case 0x4 => Opcode(1, Branch(BCC), 3)
    case 0x5 => Opcode(1, Branch(BCS), 3)
    case 0x6 => Opcode(1, Branch(BNE), 3)
    case 0x7 => Opcode(1, Branch(BEQ), 3)
    case 0x8 => Opcode(1, Branch(BVC), 3)
    case 0x9 => Opcode(1, Branch(BVS), 3)
    case 0xA => Opcode(1, Branch(BPL), 3)
    case 0xB => Opcode(1, Branch(BMI), 3)
    case 0xC => Opcode(1, Branch(BGE), 3)
    case 0xD => Opcode(1, Branch(BLT), 3)
    case 0xE => Opcode(1, Branch(BGT), 3)
    case _ => Opcode(1, Branch(BLE), 3)
  }

  function Row3(lo: nat): Opcode
  {
    match lo
    case 0x0 => Opcode(0, Inh(TSX), 1)
    case 0x1 => Opcode(0, Ins, 1)
    case 0x2 => Opcode(0, Pul(A), 3)
    case 0x3 => Opcode(0, Pul(B), 3)
    case 0x4 => Opcode(0, Des, 1)
    case 0x5 => Opcode(0, Txs, 1)
    case 0x6 => Opcode(0, Psh(A), 4)
    case 0x7 => Opcode(0, Psh(B), 4)
    case 0x8 => Opcode(0, Pulx, 4)
    case 0x9 => Opcode(0, Rts, 5)
    case 0xA => Opcode(0, Inh(ABX), 1)
    case 0xB => Opcode(0, Rti, 10)
    case 0xC => Opcode(0, Pshx, 5)
    case 0xD => Opcode(0, Inh(MUL), 7)
    case 0xE => Opcode(0, Nop, 9)
    case _ => Opcode(0, Swi, 12)
  }

  function Row4(lo: nat): Opcode
  {
    match lo
    case 0x0 => Opcode(0, RmwAcc(NEG, A), 1)
    case 0x1 => Opcode(0, Trap, 0)
    case 0x2 => Opcode(0, Trap, 0)
    case 0x3 => Opcode(0, RmwAcc(COM, A), 1)
    case 0x4 => Opcode(0, RmwAcc(LSR, A), 1)
    case 0x5 => Opcode(0, Trap, 0)
    case 0x6 => Opcode(0, RmwAcc(ROR, A), 1)
    case 0x7 => Opcode(0, RmwAcc(ASR, A), 1)
    case 0x8 => Opcode(0, RmwAcc(LSL, A), 1)
    case 0x9 => Opcode(0, RmwAcc(ROL, A), 1)
    case 0xA => Opcode(0, RmwAcc(DEC, A), 1)
    case 0xB => Opcode(0, Trap, 0)
    case 0xC => Opcode(0, RmwAcc(INC, A), 1)
    case 0xD => Opcode(0, RmwAcc(TST, A), 1)
    case 0xE => Opcode(0, Trap, 0)
    case _ => Opcode(0, RmwAcc(CLR, A), 1)
  }

  function Row5(lo: nat): Opcode
  {
    match lo
    case 0x0 => Opcode(0, RmwAcc(NEG, B), 1)
    case 0x1 => Opcode(0, Trap, 0)
    case 0x2 => Opcode(0, Trap, 0)
    case 0x3 => Opcode(0, RmwAcc(COM, B), 1)
    case 0x4 => Opcode(0, RmwAcc(LSR, B), 1)
    case 0x5 => Opcode(0, Trap, 0)
    case 0x6 => Opcode(0, RmwAcc(ROR, B), 1)
    case 0x7 => Opcode(0, RmwAcc(ASR, B), 1)
    case 0x8 => Opcode(0, RmwAcc(LSL, B), 1)
    case 0x9 => Opcode(0, RmwAcc(ROL, B), 1)
    case 0xA => Opcode(0, RmwAcc(DEC, B), 1)
    case 0xB => Opcode(0, Trap, 0)
    case 0xC => Opcode(0, RmwAcc(INC, B), 1)
    case 0xD => Opcode(0, RmwAcc(TST, B), 1)
    case 0xE => Opcode(0, Trap, 0)
    case _ => Opcode(0, RmwAcc(CLR, B), 1)
  }

  function Row6(lo: nat): Opcode
  {
    match lo
    case 0x0 => Opcode(1, RmwMem(NEG, Ix), 6)
    case 0x1 => Opcode(2, ImmMem(AND, true, true), 7)
    case 0x2 => Opcode(2, ImmMem(OR, true, true), 7)
    case 0x3 => Opcode(1, RmwMem(COM, Ix), 6)
    case 0x4 => Opcode(1, RmwMem(LSR, Ix), 6)
    case 0x5 => Opcode(2, ImmMem(XOR, true, true), 7)
    case 0x6 => Opcode(1, RmwMem(ROR, Ix), 6)
    case 0x7 => Opcode(1, RmwMem(ASR, Ix), 6)
    case 0x8 => Opcode(1, RmwMem(LSL, Ix), 6)
    case 0x9 => Opcode(1, RmwMem(ROL, Ix), 6)
    case 0xA => Opcode(1, RmwMem(DEC, Ix), 6)
    case 0xB => Opcode(2, ImmMem(AND, false, true), 5)
    case 0xC => Opcode(1, RmwMem(INC, Ix), 6)
    case 0xD => Opcode(1, RmwMem(TST, Ix), 4)
    case 0xE => Opcode(1, Jmp(Ix), 3)
    case _ => Opcode(1, RmwMem(CLR, Ix), 5)
  }

  function Row7(lo: nat): Opcode
  {
    match lo
    case 0x0 => Opcode(2, RmwMem(NEG, Ext), 6)
    case 0x1 => Opcode(2, ImmMem(AND, true, false), 6)
    case 0x2 => Opcode(2, ImmMem(OR, true, false), 6)
    case 0x3 => Opcode(2, RmwMem(COM, Ext), 6)
    case 0x4 => Opcode(2, RmwMem(LSR, Ext), 6)
    case 0x5 => Opcode(2, ImmMem(XOR, true, false), 6)
    case 0x6 => Opcode(2, RmwMem(ROR, Ext), 6)
    case 0x7 => Opcode(2, RmwMem(ASR, Ext), 6)
    case 0x8 => Opcode(2, RmwMem(LSL, Ext), 6)
    case 0x9 => Opcode(2, RmwMem(ROL, Ext), 6)
    case 0xA => Opcode(2, RmwMem(DEC, Ext), 6)
    case 0xB => Opcode(2, ImmMem(AND, false, false), 4)
    case 0xC => Opcode(2, RmwMem(INC, Ext), 6)
    case 0xD => Opcode(2, RmwMem(TST, Ext), 6)
    case 0xE => Opcode(2, Jmp(Ext), 3)
    case _ => Opcode(2, RmwMem(CLR, Ext), 5)
  }

  function Row8(lo: nat): Opcode
  {
    match lo
    case 0x0 => Opcode(1, Alu(SUB, A, Imm), 2)
    case 0x1 => Opcode(1, Alu(CMP, A, Imm), 2)
    case 0x2 => Opcode(1, Alu(SBC, A, Imm), 2)
    case 0x3 => Opcode(2, Wide(SUBD, Imm), 3)
    case 0x4 => Opcode(1, Alu(LOGIC(AND), A, Imm), 2)
    case 0x5 => Opcode(1, Alu(BIT, A, Imm), 2)
    case 0x6 => Opcode(1, Alu(LDA, A, Imm), 2)
    case 0x7 => Opcode(1, Trap, 0)
    case 0x8 => Opcode(1, Alu(LOGIC(XOR), A, Imm), 2)
    case 0x9 => Opcode(1, Alu(ADC, A, Imm), 2)
    case 0xA => Opcode(1, Alu(LOGIC(OR), A, Imm), 2)
    case 0xB => Opcode(1, Alu(ADD, A, Imm), 2)
    case 0xC => Opcode(2, Wide(CPX, Imm), 3)
    case 0xD => Opcode(1, Bsr, 5)
    case 0xE => Opcode(2, Wide(LDS, Imm), 3)
    case _ => Opcode(0, Trap, 0)
  }

  function Row9(lo: nat): Opcode
  {
    match lo
    case 0x0 => Opcode(1, Alu(SUB, A, Dir), 3)
    case 0x1 => Opcode(1, Alu(CMP, A, Dir), 3)
    case 0x2 => Opcode(1, Alu(SBC, A, Dir), 3)
    case 0x3 => Opcode(1, Wide(SUBD, Dir), 4)
    case 0x4 => Opcode(1, Alu(LOGIC(AND), A, Dir), 3)
    case 0x5 => Opcode(1, Alu(BIT, A, Dir), 3)
    case 0x6 => Opcode(1, Alu(LDA, A, Dir), 3)
    case 0x7 => Opcode(1, Store(A, Dir), 3)
    case 0x8 => Opcode(1, Alu(LOGIC(XOR), A, Dir), 3)
    case 0x9 => Opcode(1, Alu(ADC, A, Dir), 3)
    case 0xA => Opcode(1, Alu(LOGIC(OR), A, Dir), 3)
    case 0xB => Opcode(1, Alu(ADD, A, Dir), 3)
    case 0xC => Opcode(1, Wide(CPX, Dir), 4)
    case 0xD => Opcode(1, Jsr(Dir), 5)
    case 0xE => Opcode(1, Wide(LDS, Dir), 4)
    case _ => Opcode(1, StoreWide(STS, Dir), 4)
  }

  function RowA(lo: nat): Opcode
  {
    match lo
    case 0x0 => Opcode(1, Alu(SUB, A, Ix), 4)
    case 0x1 => Opcode(1, Alu(CMP, A, Ix), 4)
    case 0x2 => Opcode(1, Alu(SBC, A, Ix), 4)
    case 0x3 => Opcode(1, Wide(SUBD, Ix), 5)
    case 0x4 => Opcode(1, Alu(LOGIC(AND), A, Ix), 4)
    case 0x5 => Opcode(1, Alu(BIT, A, Ix), 4)
    case 0x6 => Opcode(1, Alu(LDA, A, Ix), 4)
    case 0x7 => Opcode(1, Store(A, Ix), 4)
    case 0x8 => Opcode(1, Alu(LOGIC(XOR), A, Ix), 4)
    case 0x9 => Opcode(1, Alu(ADC, A, Ix), 4)
    case 0xA => Opcode(1, Alu(LOGIC(OR), A, Ix), 4)
    case 0xB => Opcode(1, Alu(ADD, A, Ix), 4)
    case 0xC => Opcode(1, Wide(CPX, Ix), 5)
    case 0xD => Opcode(1, Jsr(Ix), 5)
    case 0xE => Opcode(1, Wide(LDS, Ix), 5)
    case _ => Opcode(1, StoreWide(STS, Ix), 5)
  }

  function RowB(lo: nat): Opcode
  {
    match lo
    case 0x0 => Opcode(2, Alu(SUB, A, Ext), 4)
    case 0x1 => Opcode(2, Alu(CMP, A, Ext), 4)
    case 0x2 => Opcode(2, Alu(SBC, A, Ext), 4)
    case 0x3 => Opcode(2, Wide(SUBD, Ext), 5)
    case 0x4 => Opcode(2, Alu(LOGIC(AND), A, Ext), 4)
    case 0x5 => Opcode(2, Alu(BIT, A, Ext), 4)
    case 0x6 => Opcode(2, Alu(LDA, A, Ext), 4)
    case 0x7 => Opcode(2, Store(A, Ext), 4)
    case 0x8 => Opcode(2, Alu(LOGIC(XOR), A, Ext), 4)
    case 0x9 => Opcode(2, Alu(ADC, A, Ext), 4)
    case 0xA => Opcode(2, Alu(LOGIC(OR), A, Ext), 4)
    case 0xB => Opcode(2, Alu(ADD, A, Ext), 4)
    case 0xC => Opcode(2, Wide(CPX, Ext), 5)
    case 0xD => Opcode(2, Jsr(Ext), 6)
    case 0xE => Opcode(2, Wide(LDS, Ext), 5)
    case _ => Opcode(2, StoreWide(STS, Ext), 5)
  }

  function RowC(lo: nat): Opcode
  {
    match lo
    case 0x0 => Opcode(1, Alu(SUB, B, Imm), 2)
    case 0x1 => Opcode(1, Alu(CMP, B, Imm), 2)
    case 0x2 => Opcode(1, Alu(SBC, B, Imm), 2)
    case 0x3 => Opcode(2, Wide(ADDD, Imm), 3)
    case 0x4 => Opcode(1, Alu(LOGIC(AND), B, Imm), 2)
    case 0x5 => Opcode(1, Alu(BIT, B, Imm), 2)
    case 0x6 => Opcode(1, Alu(LDA, B, Imm), 2)
    case 0x7 => Opcode(0, Trap, 0)
    case 0x8 => Opcode(1, Alu(LOGIC(XOR), B, Imm), 2)
    case 0x9 => Opcode(1, Alu(ADC, B, Imm), 2)
    case 0xA => Opcode(1, Alu(LOGIC(OR), B, Imm), 2)
    case 0xB => Opcode(1, Alu(ADD, B, Imm), 2)
    case 0xC => Opcode(2, Wide(LDD, Imm), 3)
    case 0xD => Opcode(0, Trap, 0)
    case 0xE => Opcode(2, Wide(LDX, Imm), 3)
    case _ => Opcode(0, Trap, 0)
  }

  function RowD(lo: nat): Opcode
  {
    match lo
    case 0x0 => Opcode(1, Alu(SUB, B, Dir), 3)
    case 0x1 => Opcode(1, Alu(CMP, B, Dir), 3)
    case 0x2 => Opcode(1, Alu(SBC, B, Dir), 3)
    case 0x3 => Opcode(1, Wide(ADDD, Dir), 4)
    case 0x4 => Opcode(1, Alu(LOGIC(AND), B, Dir), 3)
    case 0x5 => Opcode(1, Alu(BIT, B, Dir), 3)
    case 0x6 => Opcode(1, Alu(LDA, B, Dir), 3)
    case 0x7 => Opcode(1, Store(B, Dir), 3)
    case 0x8 => Opcode(1, Alu(LOGIC(XOR), B, Dir), 3)
    case 0x9 => Opcode(1, Alu(ADC, B, Dir), 3)
    case 0xA => Opcode(1, Alu(LOGIC(OR), B, Dir), 3)
    case 0xB => Opcode(1, Alu(ADD, B, Dir), 3)
    case 0xC => Opcode(1, Wide(LDD, Dir), 4)
    case 0xD => Opcode(1, StoreWide(STD, Dir), 4)
    case 0xE => Opcode(1, Wide(LDX, Dir), 4)
    case _ => Opcode(1, StoreWide(STX, Dir), 4)
  }

  function RowE(lo: nat): Opcode
  {
    match lo
    case 0x0 => Opcode(1, Alu(SUB, B, Ix), 4)
    case 0x1 => Opcode(1, Alu(CMP, B, Ix), 4)
    case 0x2 => Opcode(1, Alu(SBC, B, Ix), 4)
    case 0x3 => Opcode(1, Wide(ADDD, Ix), 5)
    case 0x4 => Opcode(1, Alu(LOGIC(AND), B, Ix), 4)
    case 0x5 => Opcode(1, Alu(BIT, B, Ix), 4)
    case 0x6 => Opcode(1, Alu(LDA, B, Ix), 4)
    case 0x7 => Opcode(1, Store(B, Ix), 4)
    case 0x8 => Opcode(1, Alu(LOGIC(XOR), B, Ix), 4)
    case 0x9 => Opcode(1, Alu(ADC, B, Ix), 4)
    case 0xA => Opcode(1, Alu(LOGIC(OR), B, Ix), 4)
    case 0xB => Opcode(1, Alu(ADD, B, Ix), 4)
    case 0xC => Opcode(1, Wide(LDD, Ix), 5)
    case 0xD => Opcode(1, StoreWide(STD, Ix), 5)
    case 0xE => Opcode(1, Wide(LDX, Ix), 5)
    case _ => Opcode(1, StoreWide(STX, Ix), 5)
  }

  function RowF(lo: nat): Opcode
  {
    match lo
    case 0x0 => Opcode(2, Alu(SUB, B, Ext), 4)
    case 0x1 => Opcode(2, Alu(CMP, B, Ext), 4)
    case 0x2 => Opcode(2, Alu(SBC, B, Ext), 4)
    case 0x3 => Opcode(2, Wide(ADDD, Ext), 5)
    case 0x4 => Opcode(2, Alu(LOGIC(AND), B, Ext), 4)
    case 0x5 => Opcode(2, Alu(BIT, B, Ext), 4)
    case 0x6 => Opcode(2, Alu(LDA, B, Ext), 4)
    case 0x7 => Opcode(2, Store(B, Ext), 4)
    case 0x8 => Opcode(2, Alu(LOGIC(XOR), B, Ext), 4)
    case 0x9 => Opcode(2, Alu(ADC, B, Ext), 4)
    case 0xA => Opcode(2, Alu(LOGIC(OR), B, Ext), 4)
    case 0xB => Opcode(2, Alu(ADD, B, Ext), 4)
    case 0xC => Opcode(2, Wide(LDD, Ext), 5)
    case 0xD => Opcode(2, StoreWide(STD, Ext), 5)
    case 0xE => Opcode(2, Wide(LDX, Ext), 5)
    case _ => Opcode(2, StoreWide(STX, Ext), 5)
  }

  /** Operations that move the program counter themselves. */
  predicate Transfers(f: Func)
  {
    f.Trap? || f.Swi? || f.Jmp? || f.Jsr? || f.Bsr? || f.Rts? || f.Rti?
  }

  /** Operand bytes that an operation fetches at the program counter. */
  function ModeBytes(mode: Mode, word: bool): nat
  {
    match mode
    case Imm => if word then 2 else 1
    case Dir => 1
    case Ext => 2
    case Ix => 1
  }

  function FuncBytes(f: Func): nat
  {
    match f
    case Alu(_, _, mode) => ModeBytes(mode, false)
    case Wide(_, mode) => ModeBytes(mode, true)
    case Store(_, mode) => ModeBytes(mode, false)
    case StoreWide(_, mode) => ModeBytes(mode, true)
    case RmwMem(_, mode) => ModeBytes(mode, false)
    case Jmp(mode) => ModeBytes(mode, true)
    case Jsr(mode) => ModeBytes(mode, true)
    case ImmMem(_, _, _) => 2
    case Branch(_) => 1
    case Bsr => 1
    case _ => 0
  }

  predicate RowAgrees(o: Opcode)
  {
    && (!o.f.Trap? ==> o.operands == FuncBytes(o.f))
    && o.cycles <= 12
  }

  lemma RowsAgree(hi: nat, lo: nat)
    requires hi < 0x10 && lo < 0x10
    ensures RowAgrees(TableEntry(hi, lo))
  {
  }

  /** The operand count in the table is what the operation consumes, for every opcode that is
      not a trap; and no instruction takes more than 12 cycles. */
  lemma TableAgrees(op: Byte)
    ensures RowAgrees(Opcodetab(op))
  {
    RowsAgree(op / 0x10, op % 0x10);
  }
}
