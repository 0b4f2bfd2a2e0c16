// What a branch asks about the instruction before it: the sign, zero or overflow of its result
// (src/arch/m68xx/opfunc.c *_rel).

module Branches {
  import opened Words
  import opened Alu
  import opened Machine
  import opened Manual
  import opened Instructions

  /** `t` took the branch at `s` if and only if `taken`. */
  predicate Branched(s: State, taken: bool, t: State)
    requires s.r.pc + 1 < 0x1_0000
  {
    t.r.pc == (s.r.pc + 2 + if taken then Displacement(Code(s, 1)) else 0) % 0x1_0000
  }

  /** bra is always taken and brn never. */
  lemma AlwaysOrNever(s: State)
    requires Ready(s)
    ensures Code(s, 0) == 0x20 ==> Branched(s, true, Step(s))
    ensures Code(s, 0) == 0x21 ==> Branched(s, false, Step(s))
  {
    hide Step, DueVector, Displacement;
    if Code(s, 0) == 0x20 || Code(s, 0) == 0x21 {
      BranchStep(s, Code(s, 0));
    }
  }

  // ---- sign and zero of a result ----

  /** `v` of `w` values is the result of the instruction `op` that led from `s` to `t`: what it left
      in an accumulator, X, SP or memory, or stored. */
  predicate IsResult(s: State, op: Byte, mode: int, t: State, v: int, w: int)
    requires s.r.pc + 2 < 0x1_0000
  {
    var d := op % 0x10;
    && mode == op / 0x10 % 4
    && if 0x40 <= op < 0x60 then
         IsModifyDigit(d) && w == 0x100 && v == if op < 0x50 then t.r.a else t.r.b
       else if 0x60 <= op < 0x80 then
         IsModifyDigit(d) && w == 0x100 && InRam(Target(s, mode), 1) && v == t.ram[Target(s, mode)]
       else if d == 7 then
         op >= 0x80 && mode != 0 && InRam(Target(s, mode), 1) && w == 0x100 && v == if op < 0xC0 then s.r.a else s.r.b
       else if IsStoreWord(op) then
         mode != 0 && InRam(Target(s, mode), 2) && w == 0x1_0000 && v == StoredWord(op, s.r)
       else if IsWordDigit(d) then
         && op >= 0x80 && !(d == 0xC && op < 0xC0) && (mode == 0 || InRam(Target(s, mode), 2)) && w == 0x1_0000
         && v == if d != 0xE then AccumulatorD(t.r) else if op < 0xC0 then t.r.sp else t.r.ix
       else
         && op >= 0x80 && IsByteDigit(d) && d != 1 && d != 5 && (mode == 0 || InRam(Target(s, mode), 1))
         && w == 0x100 && v == if op < 0xC0 then t.r.a else t.r.b
  }

  lemma ByteDescribes(d: int, x: int, m: int, f: Flags, v: int, g: Flags)
    requires IsByteDigit(d) && d != 1 && d != 5 && ByteEffect(d, x, m, f, v, g)
    ensures Describes(g, v, 0x100)
  {
    hide IsAnd, IsOr, IsXor, IsHalf, FitsSigned, Two;
  }

  lemma WordDescribes(op: Byte, r: Regs, w: int, q: Regs)
    requires IsWordDigit(op % 0x10) && !(op % 0x10 == 0xC && op < 0xC0) && WordEffect(op, r, w, q)
    ensures Describes(q.ccr, if op % 0x10 != 0xE then AccumulatorD(q) else if op < 0xC0 then q.sp else q.ix, 0x1_0000)
  {
    hide FitsSigned, Two, AccumulatorD;
  }

  /** After every such instruction N and Z describe its result. */
  lemma ResultDescribed(s: State, op: Byte, mode: int, v: int, w: int)
    requires Ready(s) && op == Code(s, 0) && IsResult(s, op, mode, Step(s), v, w)
    ensures IsWidth(w) && Describes(Step(s).r.ccr, v, w)
  {
    hide Step, DueVector, Target, ByteEffect, WordEffect, Describes, StoredWord, AccumulatorD;
    if 0x40 <= op < 0x60 {
      ModifyAccumulatorStep(s, op);
    } else if op < 0x80 {
      ModifyMemoryStep(s, op, mode);
    } else if op % 0x10 == 7 {
      StoreStep(s, op, mode);
    } else if IsStoreWord(op) {
      StoreWordStep(s, op, mode);
    } else if IsWordDigit(op % 0x10) {
      WordStep(s, op, mode);
      WordDescribes(op, Past(s, if mode == 0 || mode == 3 then 3 else 2), WordOperand(s, mode), Step(s).r);
    } else {
      ByteResult(s, op, mode, v);
    }
  }

  lemma ByteResult(s: State, op: Byte, mode: int, v: int)
    requires Ready(s) && op == Code(s, 0) && IsByteDigit(op % 0x10) && op >= 0x80
    requires mode == op / 0x10 % 4 && (mode == 0 || InRam(Target(s, mode), 1))
    requires op % 0x10 != 1 && op % 0x10 != 5 && v == if op < 0xC0 then Step(s).r.a else Step(s).r.b
    ensures Describes(Step(s).r.ccr, v, 0x100)
  {
    hide Step, DueVector, Target, ByteEffect, Describes, ByteOperand;
    AccumulatorStep(s, op, mode);
    var (r, q, m) := (s.r, Step(s).r, ByteOperand(s, mode));
    if op < 0xC0 {
      ByteDescribes(op % 0x10, r.a, m, r.ccr, q.a, q.ccr);
    } else {
      ByteDescribes(op % 0x10, r.b, m, r.ccr, q.b, q.ccr);
    }
  }

  /** Two steps: after such an instruction bmi is taken if and only if the result is negative, bpl
      if not, beq if it is zero, bne if not. */
  lemma BranchOnResult(s: State, op: Byte, mode: int, v: int, w: int)
    requires Ready(s) && op == Code(s, 0) && IsResult(s, op, mode, Step(s), v, w) && Ready(Step(s))
    ensures var t := Step(s);
      && (Code(t, 0) == 0x2B ==> Branched(t, v >= w / 2, Step(t))) && (Code(t, 0) == 0x2A ==> Branched(t, v < w / 2, Step(t)))
      && (Code(t, 0) == 0x27 ==> Branched(t, v == 0, Step(t))) && (Code(t, 0) == 0x26 ==> Branched(t, v != 0, Step(t)))
  {
    hide Step, DueVector, IsResult, Displacement;
    ResultDescribed(s, op, mode, v, w);
    if Code(Step(s), 0) in {0x26, 0x27, 0x2A, 0x2B} {
      BranchStep(Step(s), Code(Step(s), 0));
    }
  }

  // ---- overflow ----

  /** The exact signed result of a byte addition or subtraction. */
  function SignedResult(d: int, x: int, m: int, f: Flags): int
  {
    var c := if f.c && (d == 2 || d == 9) then 1 else 0;
    if d == 9 || d == 0xB then Two(x, 0x100) + Two(m, 0x100) + c else Two(x, 0x100) - Two(m, 0x100) - c
  }

  lemma ByteOverflow(d: int, x: int, m: int, f: Flags, v: int, g: Flags)
    requires d in {0, 1, 2, 9, 0xB} && ByteEffect(d, x, m, f, v, g)
    ensures g.v <==> !FitsSigned(SignedResult(d, x, m, f), 0x100)
  {
    hide Describes, IsHalf, FitsSigned, Two;
  }

  /** Two steps: after adda, adca, suba, sbca, cmpa or the same with B, bvs is taken if and only if
      the signed result does not fit in a byte, bvc if it does. */
  lemma BranchOnByteOverflow(s: State, op: Byte, mode: int)
    requires Ready(s) && op == Code(s, 0) && 0x80 <= op && op % 0x10 in {0, 1, 2, 9, 0xB}
    requires mode == op / 0x10 % 4 && (mode != 0 ==> InRam(Target(s, mode), 1)) && Ready(Step(s))
    ensures var t := Step(s);
      var x := SignedResult(op % 0x10, if op < 0xC0 then s.r.a else s.r.b, ByteOperand(s, mode), s.r.ccr);
      && (Code(t, 0) == 0x29 ==> Branched(t, !(-128 <= x < 128), Step(t)))
      && (Code(t, 0) == 0x28 ==> Branched(t, -128 <= x < 128, Step(t)))
  {
    hide Step, DueVector, Target, ByteEffect, ByteOperand, SignedResult, Displacement;
    AccumulatorStep(s, op, mode);
    var (r, q, m) := (s.r, Step(s).r, ByteOperand(s, mode));
    ByteOverflow(op % 0x10, if op < 0xC0 then r.a else r.b, m, r.ccr, if op < 0xC0 then q.a else q.b, q.ccr);
    if Code(Step(s), 0) in {0x28, 0x29} {
      BranchStep(Step(s), Code(Step(s), 0));
    }
  }

  /** The same after addd, subd and cpx, in a word. */
  lemma BranchOnWordOverflow(s: State, op: Byte, mode: int)
    requires Ready(s) && op == Code(s, 0) && 0x80 <= op && (op % 0x10 == 3 || (op % 0x10 == 0xC && op < 0xC0))
    requires mode == op / 0x10 % 4 && (mode != 0 ==> InRam(Target(s, mode), 2)) && Ready(Step(s))
    ensures var t := Step(s);
      var (d, ix, w) := (Two(AccumulatorD(s.r), 0x1_0000), Two(s.r.ix, 0x1_0000), Two(WordOperand(s, mode), 0x1_0000));
      var x := if op % 0x10 == 0xC then ix - w else if op < 0xC0 then d - w else d + w;
      && (Code(t, 0) == 0x29 ==> Branched(t, !(-0x8000 <= x < 0x8000), Step(t)))
      && (Code(t, 0) == 0x28 ==> Branched(t, -0x8000 <= x < 0x8000, Step(t)))
  {
    hide Step, DueVector, Target, WordOperand, AccumulatorD, Two, Displacement;
    WordStep(s, op, mode);
    SameD(Past(s, if mode == 0 || mode == 3 then 3 else 2), s.r);
    if Code(Step(s), 0) in {0x28, 0x29} {
      BranchStep(Step(s), Code(Step(s), 0));
    }
  }

  lemma SameD(r: Regs, q: Regs)
    requires r == q.(pc := r.pc)
    ensures AccumulatorD(r) == AccumulatorD(q)
  {
  }
}
