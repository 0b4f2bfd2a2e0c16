// A conditional branch after a compare means the order it is named after
// (src/arch/m68xx/alu.c subbyte, subword, cmpword; src/arch/m68xx/opfunc.c *_rel).

module Compare {
  import opened Words
  import opened Alu
  import opened Optab
  import opened Machine
  import opened Disassembly
  import D = Device

  /** What each condition is named after, for operands among `w` values. */
  predicate Relation(c: Cond, x: int, y: int, w: int)
    requires w == 0x100 || w == 0x1_0000
  {
    match c
    case BHI => x > y
    case BLS => x <= y
    case BCC => x >= y
    case BCS => x < y
    case BNE => x != y
    case BEQ => x == y
    case BGE => Signed(x, w) >= Signed(y, w)
    case BLT => Signed(x, w) < Signed(y, w)
    case BGT => Signed(x, w) > Signed(y, w)
    case BLE => Signed(x, w) <= Signed(y, w)
    case _ => true
  }

  predicate IsUnsigned(c: Cond) { c == BHI || c == BLS || c == BCC || c == BCS }

  predicate IsOrder(c: Cond)
  {
    IsUnsigned(c) || c == BNE || c == BEQ || c == BGE || c == BLT || c == BGT || c == BLE
  }

  lemma CompareMeansOrder(f: Flags, x: int, y: int, w: int, c: Cond)
    requires w == 0x100 || w == 0x1_0000
    requires 0 <= x < w && 0 <= y < w && IsOrder(c)
    ensures Taken(c, SubFlags(f, x, y, 0, w)) <==> Relation(c, x, y, w)
    ensures !IsUnsigned(c) ==> (Taken(c, CmpFlags(f, x, y, 0, w)) <==> Relation(c, x, y, w))
  {
    assert (x - y) % w == if x < y then x - y + w else x - y;
  }

  /** The instructions that set the flags by comparing. */
  predicate Compares(f: Func)
  {
    (f.Alu? && f.op == CMP) || f == Inh(CBA) || (f.Wide? && (f.wop == SUBD || f.wop == CPX))
  }

  function Width(f: Func): (w: int)
    ensures w == 0x100 || w == 0x1_0000
  {
    if f.Wide? then 0x1_0000 else 0x100
  }

  /** The register compared, and the operand it is compared with once the opcode is fetched. */
  function Left(f: Func, r: Regs): int
    requires Compares(f)
  {
    match f
    case Alu(_, acc, _) => GetAcc(r, acc)
    case Wide(wop, _) => if wop == CPX then r.ix else AccD(r)
    case _ => r.a
  }

  function Right(f: Func, s: State): int
    requires Compares(f)
  {
    match f
    case Alu(_, _, mode) => OperandB(s, mode).v
    case Wide(_, mode) => OperandW(s, mode).w
    case _ => s.r.b
  }

  lemma OperandKeeps(s: State, mode: Mode)
    ensures OperandB(s, mode).s.r == s.r.(pc := OperandB(s, mode).s.r.pc)
    ensures OperandW(s, mode).s.r == s.r.(pc := OperandW(s, mode).s.r.pc)
  {
    OperandPc(s, mode);
  }

  lemma CompareFlags(s: State, f: Func)
    requires Compares(f)
    ensures var x, y, w := Left(f, s.r), Right(f, s), Width(f);
      && 0 <= x < w && 0 <= y < w
      && Exec(s, f).r.ccr ==
           if f.Wide? && f.wop == CPX then CmpFlags(s.r.ccr, x, y, 0, w) else SubFlags(s.r.ccr, x, y, 0, w)
  {
    hide OperandB, OperandW, SubFlags, CmpFlags, Join;
    match f
    case Inh(_) =>
    case Alu(_, _, mode) => OperandKeeps(s, mode);
    case Wide(_, mode) => OperandKeeps(s, mode);
  }

  /** Two steps of the machine: after a compare, a branch is taken exactly when its relation
      holds between the register and the operand. For cpx this is the signed and equality ones. */
  lemma BranchAfterCompare(s: State, f: Func, c: Cond)
    requires Interrupting(s).None? && Opcodetab(FetchB(s).v).f == f && Compares(f)
    requires var t := Step(s); Interrupting(t).None? && Opcodetab(FetchB(t).v).f == Branch(c)
    requires IsOrder(c) && (f.Wide? && f.wop == CPX ==> !IsUnsigned(c))
    ensures var s1 := FetchB(s).s;
      var t := Step(s);
      var offset := Signed8(FetchB(FetchB(t).s).v);
      Step(t).r.pc == Ahead(t.r.pc, 2 + if Relation(c, Left(f, s1.r), Right(f, s1), Width(f)) then offset else 0)
  {
    hide *;
    var s1 := FetchB(s).s;
    var t := Step(s);
    StepCcr(s);
    CompareFlags(s1, f);
    CompareMeansOrder(s1.r.ccr, Left(f, s1.r), Right(f, s1), Width(f), c);
    BranchLength(FetchB(t).v, c);
    SecondStep(t, c);
  }

  lemma StepCcr(s: State)
    requires Interrupting(s).None?
    ensures var g := FetchB(s); Step(s).r.ccr == Exec(g.s, Opcodetab(g.v).f).r.ccr
  {
    hide FetchB, Opcodetab, Exec, Interrupting, D.Tick;
  }

  lemma BranchLength(op: Byte, c: Cond)
    requires Opcodetab(op).f == Branch(c)
    ensures Length(op) == 2
  {
    TableAgrees(op);
    hide Opcodetab;
  }

  lemma SecondStep(t: State, c: Cond)
    requires Interrupting(t).None? && Opcodetab(FetchB(t).v).f == Branch(c) && Length(FetchB(t).v) == 2
    ensures Step(t).r.pc == Ahead(t.r.pc, 2 + if Taken(c, t.r.ccr) then Signed8(FetchB(FetchB(t).s).v) else 0)
  {
    FetchPc(t);
    FetchPc(FetchB(t).s);
    hide Step, Opcodetab, Interrupting, FetchB, Fetched, Taken, Signed8;
    ExecutorAgrees(t);
  }

  /** The compares leave the compared registers alone, and cpx leaves C alone too. */
  lemma CompareChangesFlagsOnly(s: State, f: Func)
    requires Compares(f) && !(f.Wide? && f.wop == SUBD)
    ensures Exec(s, f).r == s.r.(pc := Exec(s, f).r.pc, ccr := Exec(s, f).r.ccr)
    ensures f.Wide? ==> Exec(s, f).r.ccr.c == s.r.ccr.c
  {
    if !f.Inh? {
      OperandKeeps(s, f.mode);
    }
    hide OperandB, OperandW, Signed;
  }
}
