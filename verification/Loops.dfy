// Machine-code loops for multi-byte arithmetic, executed from memory by instr_exec
// (src/arch/h6303/instr.c, src/arch/h6303/optab.c, src/arch/m68xx/opfunc.c).

module Loops {
  import opened Words
  import opened Alu
  import opened Optab
  import opened Machine
  import opened Arithmetic
  import D = Device

  /** What a loop needs of an instruction: registers other than B, the flags C, H and I, and RAM. */
  predicate Becomes(t: State, pc: int, ix: int, a: int, c: bool, ram: Ram)
  {
    t.r.pc == pc && t.r.ix == ix && t.r.a == a && t.r.ccr.c == c && t.ram == ram
  }

  /** The next instruction is opcode `op` of `len` bytes, in RAM. */
  predicate At(s: State, op: Byte, len: nat)
  {
    D.NIREGS <= s.r.pc && s.r.pc + len < MEMSIZE && s.ram[s.r.pc] == op && len > 0
  }

  /** The RAM address of an indexed operand. */
  predicate Indexed(s: State, addr: nat)
    requires s.r.pc + 1 < MEMSIZE
  {
    D.NIREGS <= addr < MEMSIZE && addr == s.ram[s.r.pc + 1] + s.r.ix
  }

  lemma Fetch(s: State, op: Byte, len: nat)
    requires At(s, op, len)
    ensures var g := FetchB(s); g.v == op && g.s.r == s.r.(pc := s.r.pc + 1) && g.s.ram == s.ram
  {
  }

  /** The operand of an indexed instruction, and the state it leaves. */
  lemma IndexedOperand(s: State, addr: nat)
    requires D.NIREGS <= s.r.pc && s.r.pc + 1 < MEMSIZE
    requires D.NIREGS <= addr < MEMSIZE && addr == s.ram[s.r.pc] + s.r.ix
    ensures var g := Address(s, Ix);
      g.w == addr && g.s.r == s.r.(pc := s.r.pc + 1) && g.s.ram == s.ram
    ensures var g := OperandB(s, Ix);
      g.v == s.ram[addr] && g.s.r == s.r.(pc := s.r.pc + 1) && g.s.ram == s.ram
  {
  }

  lemma Decoded()
    ensures Opcodetab(0xA6).f == Alu(LDA, A, Ix) && Opcodetab(0xA9).f == Alu(ADC, A, Ix)
    ensures Opcodetab(0xA2).f == Alu(SBC, A, Ix) && Opcodetab(0xA7).f == Store(A, Ix)
    ensures Opcodetab(0x19).f == Inh(DAA) && Opcodetab(0x09).f == Inh(DEX)
    ensures Opcodetab(0x26).f == Branch(BNE) && Opcodetab(0x69).f == RmwMem(ROL, Ix)
  {
    assert 0xA6 / 0x10 == 0xA && 0xA9 / 0x10 == 0xA && 0xA2 / 0x10 == 0xA && 0xA7 / 0x10 == 0xA;
  }

  lemma NextIs(s: State, op: Byte, len: nat)
    requires At(s, op, len)
    ensures ExecNext(s).r == Exec(FetchB(s).s, Opcodetab(op).f).r
    ensures ExecNext(s).ram == Exec(FetchB(s).s, Opcodetab(op).f).ram
  {
    Fetch(s, op, len);
    hide FetchB, Opcodetab, Exec, D.Tick;
  }

  /** ldaa, adca and sbca indexed by X. */
  lemma AluNext(s: State, op: Byte, aop: AluOp, addr: nat) returns (t: State)
    requires At(s, op, 2) && Indexed(s, addr)
    requires Opcodetab(op).f == Alu(aop, A, Ix)
    ensures t.r == AluExec(s.r.(pc := s.r.pc + 2), aop, A, s.ram[addr]) && t.ram == s.ram
    ensures t == ExecNext(s)
  {
    t := ExecNext(s);
    Fetch(s, op, 2);
    NextIs(s, op, 2);
    var u := FetchB(s).s;
    IndexedOperand(u, addr);
    hide FetchB, Opcodetab, ExecNext, OperandB, AluExec;
  }

  lemma LdaaNext(s: State, addr: nat) returns (t: State)
    requires At(s, 0xA6, 2) && Indexed(s, addr)
    ensures Becomes(t, s.r.pc + 2, s.r.ix, s.ram[addr], s.r.ccr.c, s.ram)
    ensures t == ExecNext(s)
  {
    Decoded();
    hide ExecNext, Opcodetab, AluExec;
    t := AluNext(s, 0xA6, LDA, addr);
    LdaExec(s.r.(pc := s.r.pc + 2), s.ram[addr]);
  }

  lemma AdcaNext(s: State, addr: nat) returns (t: State)
    requires At(s, 0xA9, 2) && Indexed(s, addr)
    ensures var o := Apply(ADC_, s.r.a, s.ram[addr], s.r.ccr.c);
      Becomes(t, s.r.pc + 2, s.r.ix, o.z, o.c, s.ram)
    ensures t.r.ccr.h <==> s.r.a % 0x10 + s.ram[addr] % 0x10 + One(s.r.ccr.c, 1) >= 0x10
    ensures t == ExecNext(s)
  {
    Decoded();
    hide ExecNext, Opcodetab, AluExec, Apply;
    t := AluNext(s, 0xA9, ADC, addr);
    AdcExec(s.r.(pc := s.r.pc + 2), s.ram[addr]);
  }

  lemma SbcaNext(s: State, addr: nat) returns (t: State)
    requires At(s, 0xA2, 2) && Indexed(s, addr)
    ensures var o := Apply(SBC_, s.r.a, s.ram[addr], s.r.ccr.c);
      Becomes(t, s.r.pc + 2, s.r.ix, o.z, o.c, s.ram)
    ensures t == ExecNext(s)
  {
    Decoded();
    hide ExecNext, Opcodetab, AluExec, Apply;
    t := AluNext(s, 0xA2, SBC, addr);
    SbcExec(s.r.(pc := s.r.pc + 2), s.ram[addr]);
  }

  lemma LdaExec(r: Regs, m: Byte)
    ensures var q := AluExec(r, LDA, A, m);
      q.a == m && q.ccr.c == r.ccr.c && q.pc == r.pc && q.ix == r.ix
  {
  }

  lemma AdcExec(r: Regs, m: Byte)
    ensures var o := Apply(ADC_, r.a, m, r.ccr.c);
      var q := AluExec(r, ADC, A, m);
      && q.a == o.z && q.ccr.c == o.c && q.pc == r.pc && q.ix == r.ix
      && (q.ccr.h <==> r.a % 0x10 + m % 0x10 + One(r.ccr.c, 1) >= 0x10)
  {
    hide Signed;
  }

  lemma SbcExec(r: Regs, m: Byte)
    ensures var o := Apply(SBC_, r.a, m, r.ccr.c);
      var q := AluExec(r, SBC, A, m);
      q.a == o.z && q.ccr.c == o.c && q.pc == r.pc && q.ix == r.ix
  {
    hide Signed;
  }

  /** daa after an adca whose sum was `sum`. */
  lemma DaaNext(s: State, sum: nat, h: bool) returns (t: State)
    requires At(s, 0x19, 1) && sum < 0x200
    requires s.r.a == sum % 0x100 && s.r.ccr.c == (sum >= 0x100) && s.r.ccr.h == h
    ensures var o := Adjusted(sum, h);
      Becomes(t, s.r.pc + 1, s.r.ix, o.z, o.c, s.ram)
    ensures t == ExecNext(s)
  {
    t := ExecNext(s);
    Decoded();
    Fetch(s, 0x19, 1);
    NextIs(s, 0x19, 1);
    SameDaa(s.r.a, s.r.ccr, Flags(sum >= 0x100, false, false, false, false, h));
    hide FetchB, Opcodetab, ExecNext, DaaSum;
  }

  lemma SameDaa(a: Byte, f: Flags, g: Flags)
    requires f.c == g.c && f.h == g.h
    ensures DaaSum(a, f) == DaaSum(a, g)
  {
  }

  lemma StaaNext(s: State, addr: nat) returns (t: State)
    requires At(s, 0xA7, 2) && Indexed(s, addr)
    ensures Becomes(t, s.r.pc + 2, s.r.ix, s.r.a, s.r.ccr.c, s.ram[addr := s.r.a])
    ensures t == ExecNext(s)
  {
    t := ExecNext(s);
    Decoded();
    Fetch(s, 0xA7, 2);
    NextIs(s, 0xA7, 2);
    var u := FetchB(s).s;
    IndexedOperand(u, addr);
    hide FetchB, Opcodetab, ExecNext, Address;
  }

  lemma RolNext(s: State, addr: nat) returns (t: State)
    requires At(s, 0x69, 2) && Indexed(s, addr)
    ensures var o := Apply(ROL_, s.ram[addr], s.ram[addr], s.r.ccr.c);
      Becomes(t, s.r.pc + 2, s.r.ix, s.r.a, o.c, s.ram[addr := o.z])
    ensures t == ExecNext(s)
  {
    hide Opcodetab, ExecNext, Exec, Apply;
    t := ExecNext(s);
    Decoded();
    Fetch(s, 0x69, 2);
    NextIs(s, 0x69, 2);
    hide FetchB;
    RolExec(FetchB(s).s, addr);
  }

  lemma RolExec(u: State, addr: nat)
    requires D.NIREGS <= u.r.pc && u.r.pc + 1 < MEMSIZE
    requires D.NIREGS <= addr < MEMSIZE && addr == u.ram[u.r.pc] + u.r.ix
    ensures var t := Exec(u, RmwMem(ROL, Ix));
      var o := Apply(ROL_, u.ram[addr], u.ram[addr], u.r.ccr.c);
      Becomes(t, u.r.pc + 1, u.r.ix, u.r.a, o.c, u.ram[addr := o.z])
  {
    IndexedOperand(u, addr);
    hide Address, ShiftLeft, SetNZ;
  }

  lemma DexNext(s: State) returns (t: State)
    requires At(s, 0x09, 1) && s.r.ix > 0
    ensures Becomes(t, s.r.pc + 1, s.r.ix - 1, s.r.a, s.r.ccr.c, s.ram)
    ensures t.r.ccr.z <==> s.r.ix == 1
    ensures t == ExecNext(s)
  {
    hide ExecNext, Opcodetab, InhExec;
    t := ExecNext(s);
    Decoded();
    Fetch(s, 0x09, 1);
    NextIs(s, 0x09, 1);
    hide FetchB;
    DexExec(s.r.(pc := s.r.pc + 1));
  }

  lemma DexExec(r: Regs)
    requires r.ix > 0
    ensures var q := InhExec(r, DEX);
      q == r.(ix := r.ix - 1, ccr := r.ccr.(z := r.ix == 1))
  {
    hide AluExec, DaaSum;
  }

  lemma BneNext(s: State, back: nat) returns (t: State)
    requires At(s, 0x26, 2) && s.ram[s.r.pc + 1] == 0x100 - back
    requires 2 < back <= 0x80 && back <= s.r.pc + 2
    ensures Becomes(t, if s.r.ccr.z then s.r.pc + 2 else s.r.pc + 2 - back,
                    s.r.ix, s.r.a, s.r.ccr.c, s.ram)
    ensures t == ExecNext(s)
  {
    t := ExecNext(s);
    Decoded();
    Fetch(s, 0x26, 2);
    NextIs(s, 0x26, 2);
    hide ExecNext, Opcodetab;
    BneExec(FetchB(s).s, back);
  }

  lemma BneExec(u: State, back: nat)
    requires D.NIREGS <= u.r.pc && u.r.pc + 1 < MEMSIZE && u.ram[u.r.pc] == 0x100 - back
    requires 2 < back <= 0x80 && back <= u.r.pc + 1
    ensures var t := Exec(u, Branch(BNE));
      && t.r == u.r.(pc := if u.r.ccr.z then u.r.pc + 1 else u.r.pc + 1 - back)
      && t.ram == u.ram
  {
    Operand(u);
    assert Signed8(u.ram[u.r.pc]) == 0 - back;
    BackTo(u.r.pc + 1, back);
    hide FetchB, Ahead, Signed8;
  }

  lemma BackTo(pc: Word, back: nat)
    requires back <= pc
    ensures Ahead(pc, 0 - back) == pc - back && Ahead(pc, 0) == pc
  {
  }

  lemma Operand(s: State)
    requires D.NIREGS <= s.r.pc && s.r.pc + 1 < MEMSIZE
    ensures var g := FetchB(s); g.v == s.ram[s.r.pc] && g.s.r == s.r.(pc := s.r.pc + 1) && g.s.ram == s.ram
  {
  }

  // ---- one pass of a loop ----

  /** The loops: ldaa d1,x / adca or sbca d2,x / daa / staa d3,x / dex / bne, or rol d3,x / dex / bne.
      The last byte is the displacement back to the first. */
  function Code(k: Kernel, d1: Byte, d2: Byte, d3: Byte): seq<Byte>
  {
    match k
    case ADC_ => [0xA6, d1, 0xA9, d2, 0xA7, d3, 0x09, 0x26, 0xF7]
    case SBC_ => [0xA6, d1, 0xA2, d2, 0xA7, d3, 0x09, 0x26, 0xF7]
    case ADC_DAA => [0xA6, d1, 0xA9, d2, 0x19, 0xA7, d3, 0x09, 0x26, 0xF6]
    case ROL_ => [0x69, d3, 0x09, 0x26, 0xFB]
  }

  /** Instructions in one pass. */
  function PassLength(k: Kernel): nat
  {
    match k case ADC_DAA => 6 case ROL_ => 3 case _ => 5
  }

  datatype Loop = Loop(k: Kernel, p: nat, d1: Byte, d2: Byte, d3: Byte)
  {
    function Size(): nat { |Code(k, d1, d2, d3)| }

    predicate Loaded(ram: Ram)
    {
      D.NIREGS <= p && p + Size() < MEMSIZE && ram[p..p + Size()] == Code(k, d1, d2, d3)
    }

    /** Operand and result bytes for X at most `n` are in RAM, and the results miss the code. */
    predicate Fits(n: nat)
    {
      && D.NIREGS <= d1 + 1 && D.NIREGS <= d2 + 1 && D.NIREGS <= d3 + 1
      && d1 + n < MEMSIZE && d2 + n < MEMSIZE && d3 + n < MEMSIZE
      && (d3 + n < p || p + Size() <= d3 + 1)
      && Clear(d1, n) && Clear(d2, n)
      && (k == ROL_ ==> d1 == d2 == d3)
    }

    /** No result byte is stored over an operand byte that is still to be read. */
    predicate Clear(d: Byte, n: nat)
    {
      d3 >= d || d >= d3 + n
    }
  }

  lemma CodeByte(l: Loop, ram: Ram, i: nat)
    requires l.Loaded(ram) && i < l.Size()
    ensures ram[l.p + i] == Code(l.k, l.d1, l.d2, l.d3)[i]
  {
    assert ram[l.p + i] == ram[l.p..l.p + l.Size()][i];
  }

  /** The instructions of a loop, byte by byte; `q` is the address of the staa or dex. */
  lemma CodeBytes(l: Loop, ram: Ram, q: nat)
    requires l.Loaded(ram) && q == l.p + l.Size() - if l.k == ROL_ then 3 else 5
    ensures l.k == ROL_ ==> ram[l.p] == 0x69 && ram[l.p + 1] == l.d3
    ensures l.k == ROL_ ==> ram[q] == 0x09 && ram[q + 1] == 0x26 && ram[q + 2] == 0xFB
    ensures l.k != ROL_ ==> ram[l.p] == 0xA6 && ram[l.p + 1] == l.d1 && ram[l.p + 3] == l.d2
    ensures l.k != ROL_ ==> ram[l.p + 2] == if l.k == SBC_ then 0xA2 else 0xA9
    ensures l.k == ADC_DAA ==> ram[l.p + 4] == 0x19
    ensures l.k != ROL_ ==> ram[q] == 0xA7 && ram[q + 1] == l.d3 && ram[q + 2] == 0x09 && ram[q + 3] == 0x26
    ensures l.k != ROL_ ==> ram[q + 4] == if l.k == ADC_DAA then 0xF6 else 0xF7
  {
    CodeByte(l, ram, 0);
    CodeByte(l, ram, 1);
    CodeByte(l, ram, 2);
    CodeByte(l, ram, 3);
    CodeByte(l, ram, 4);
    if l.k != ROL_ {
      CodeByte(l, ram, 5);
      CodeByte(l, ram, 6);
      CodeByte(l, ram, 7);
      CodeByte(l, ram, 8);
    }
    if l.k == ADC_DAA {
      CodeByte(l, ram, 9);
    }
  }

  /** `addr` is an operand address in RAM for offset byte `offset`. */
  predicate Reaches(s: State, offset: Byte, addr: nat)
  {
    D.NIREGS <= addr < MEMSIZE && addr == offset + s.r.ix
  }

  /** ldaa offset1,x / adca or sbca offset2,x. */
  lemma OperandSteps(s: State, k: Kernel, addr1: nat, addr2: nat) returns (t: State)
    requires k == ADC_ || k == SBC_
    requires var p := s.r.pc;
      && D.NIREGS <= p && p + 4 < MEMSIZE
      && s.ram[p] == 0xA6 && Reaches(s, s.ram[p + 1], addr1)
      && s.ram[p + 2] == (if k == SBC_ then 0xA2 else 0xA9) && Reaches(s, s.ram[p + 3], addr2)
    ensures var o := Apply(k, s.ram[addr1], s.ram[addr2], s.r.ccr.c);
      Becomes(t, s.r.pc + 4, s.r.ix, o.z, o.c, s.ram)
    ensures t == ExecNext(ExecNext(s))
  {
    hide ExecNext, Apply;
    var t1 := LdaaNext(s, addr1);
    if k == ADC_ {
      t := AdcaNext(t1, addr2);
    } else {
      t := SbcaNext(t1, addr2);
    }
  }

  /** ldaa offset1,x / adca offset2,x / daa. */
  lemma DecimalSteps(s: State, addr1: nat, addr2: nat) returns (t: State)
    requires var p := s.r.pc;
      && D.NIREGS <= p && p + 5 < MEMSIZE
      && s.ram[p] == 0xA6 && Reaches(s, s.ram[p + 1], addr1)
      && s.ram[p + 2] == 0xA9 && Reaches(s, s.ram[p + 3], addr2) && s.ram[p + 4] == 0x19
    ensures var o := Daa(s.ram[addr1], s.ram[addr2], s.r.ccr.c);
      Becomes(t, s.r.pc + 5, s.r.ix, o.z, o.c, s.ram)
    ensures t == ExecNext(ExecNext(ExecNext(s)))
  {
    hide ExecNext, Adjusted;
    var t1 := LdaaNext(s, addr1);
    var t2 := AdcaNext(t1, addr2);
    var u, v := s.ram[addr1], s.ram[addr2];
    t := DaaNext(t2, u + v + One(s.r.ccr.c, 1), u % 0x10 + v % 0x10 + One(s.r.ccr.c, 1) >= 0x10);
  }

  /** staa offset,x / dex / bne back to `start`. */
  lemma StoreSteps(s: State, addr: nat, start: nat) returns (t: State)
    requires var p := s.r.pc;
      && D.NIREGS <= start < p && p + 5 < MEMSIZE && p + 5 - start <= 0x80
      && s.ram[p] == 0xA7 && Reaches(s, s.ram[p + 1], addr) && s.r.ix > 0
      && s.ram[p + 2] == 0x09 && s.ram[p + 3] == 0x26 && s.ram[p + 4] == 0x100 - (p + 5 - start)
      && (addr < p || p + 5 <= addr)
    ensures Becomes(t, if s.r.ix == 1 then s.r.pc + 5 else start, s.r.ix - 1, s.r.a, s.r.ccr.c, s.ram[addr := s.r.a])
    ensures t == ExecNext(ExecNext(ExecNext(s)))
  {
    hide ExecNext;
    var t1 := StaaNext(s, addr);
    var t2 := DexNext(t1);
    t := BneNext(t2, s.r.pc + 5 - start);
  }

  /** rol offset,x / dex / bne back. */
  lemma RolSteps(s: State, addr: nat) returns (t: State)
    requires var p := s.r.pc;
      && D.NIREGS <= p && p + 5 < MEMSIZE
      && s.ram[p] == 0x69 && Reaches(s, s.ram[p + 1], addr) && s.r.ix > 0
      && s.ram[p + 2] == 0x09 && s.ram[p + 3] == 0x26 && s.ram[p + 4] == 0xFB
      && (addr < p || p + 5 <= addr)
    ensures var o := Apply(ROL_, s.ram[addr], s.ram[addr], s.r.ccr.c);
      Becomes(t, if s.r.ix == 1 then s.r.pc + 5 else s.r.pc, s.r.ix - 1, s.r.a, o.c, s.ram[addr := o.z])
    ensures t == ExecNext(ExecNext(ExecNext(s)))
  {
    hide ExecNext, Apply;
    var t1 := RolNext(s, addr);
    var t2 := DexNext(t1);
    t := BneNext(t2, 5);
  }

  /** The state after one pass with X = x: one result byte stored, C passed on, X one less. */
  predicate Passed(s: State, t: State, l: Loop, x: nat)
    requires l.Fits(x) && x > 0
  {
    var o := Apply(l.k, s.ram[l.d1 + x], s.ram[l.d2 + x], s.r.ccr.c);
    && t.ram == s.ram[l.d3 + x := o.z] && t.r.ccr.c == o.c && t.r.ix == x - 1
    && t.r.pc == if x == 1 then l.p + l.Size() else l.p
  }

  lemma Three(s: State)
    ensures Alone(s, 3) == ExecNext(ExecNext(ExecNext(s))) && Alone(s, 2) == ExecNext(ExecNext(s))
  {
    hide *;
    AloneUnfold(s, 3);
    AloneUnfold(s, 2);
    AloneUnfold(ExecNext(s), 2);
    AloneUnfold(ExecNext(s), 1);
    AloneUnfold(ExecNext(ExecNext(s)), 1);
    AloneZero(ExecNext(ExecNext(s)));
    AloneZero(ExecNext(ExecNext(ExecNext(s))));
  }

  lemma Sizes(l: Loop)
    ensures l.Size() == match l.k case ROL_ => 5 case ADC_DAA => 10 case _ => 9
  {
  }

  lemma Pass(s: State, l: Loop, x: nat)
    requires l.Loaded(s.ram) && l.Fits(x) && s.r.pc == l.p && s.r.ix == x > 0
    ensures Passed(s, Alone(s, PassLength(l.k)), l, x)
  {
    Sizes(l);
    match l.k
    case ROL_ => RolPass(s, l, x);
    case ADC_DAA => DecimalPass(s, l, x);
    case _ => BinaryPass(s, l, x);
  }

  /** The facts of `Fits` that a pass uses. */
  lemma FitsAt(l: Loop, x: nat)
    requires l.Fits(x) && x > 0 && l.p + l.Size() < MEMSIZE
    ensures D.NIREGS <= l.d1 + x < MEMSIZE && D.NIREGS <= l.d2 + x < MEMSIZE && D.NIREGS <= l.d3 + x < MEMSIZE
    ensures l.d3 + x < l.p || l.p + l.Size() <= l.d3 + x
    ensures l.k == ROL_ ==> l.d1 == l.d2 == l.d3
  {
    hide Code;
  }

  lemma PassedIs(s: State, t: State, l: Loop, x: nat)
    requires l.Fits(x) && x > 0
    requires var o := Apply(l.k, s.ram[l.d1 + x], s.ram[l.d2 + x], s.r.ccr.c);
      t.ram == s.ram[l.d3 + x := o.z] && t.r.ccr.c == o.c && t.r.ix == x - 1
      && t.r.pc == if x == 1 then l.p + l.Size() else l.p
    ensures Passed(s, t, l, x)
  {
    hide Code, Apply;
  }

  lemma RolPass(s: State, l: Loop, x: nat)
    requires l.k == ROL_ && l.Loaded(s.ram) && l.Fits(x) && s.r.pc == l.p && s.r.ix == x > 0
    ensures Passed(s, Alone(s, 3), l, x)
  {
    hide ExecNext, Alone, Apply, Code, Passed;
    Sizes(l);
    CodeBytes(l, s.ram, l.p + 2);
    FitsAt(l, x);
    var t := RolSteps(s, l.d3 + x);
    Three(s);
    PassedIs(s, t, l, x);
  }

  lemma DecimalPass(s: State, l: Loop, x: nat)
    requires l.k == ADC_DAA && l.Loaded(s.ram) && l.Fits(x) && s.r.pc == l.p && s.r.ix == x > 0
    ensures Passed(s, Alone(s, 6), l, x)
  {
    hide ExecNext, Alone, Daa, Code, Passed;
    Sizes(l);
    CodeBytes(l, s.ram, l.p + 5);
    FitsAt(l, x);
    var u := DecimalSteps(s, l.d1 + x, l.d2 + x);
    var t := StoreSteps(u, l.d3 + x, l.p);
    ThreeThree(s, u, t);
    PassedIs(s, t, l, x);
  }

  lemma ThreeThree(s: State, u: State, t: State)
    requires u == ExecNext(ExecNext(ExecNext(s))) && t == ExecNext(ExecNext(ExecNext(u)))
    ensures t == Alone(s, 6)
  {
    hide *;
    Three(s);
    Three(u);
    AloneAdd(s, 3, 3);
  }

  lemma TwoThree(s: State, u: State, t: State)
    requires u == ExecNext(ExecNext(s)) && t == ExecNext(ExecNext(ExecNext(u)))
    ensures t == Alone(s, 5)
  {
    hide *;
    Three(s);
    Three(u);
    AloneAdd(s, 2, 3);
  }

  lemma BinaryPass(s: State, l: Loop, x: nat)
    requires (l.k == ADC_ || l.k == SBC_) && l.Loaded(s.ram) && l.Fits(x) && s.r.pc == l.p && s.r.ix == x > 0
    ensures Passed(s, Alone(s, 5), l, x)
  {
    hide ExecNext, Alone, Apply, Code, Passed;
    Sizes(l);
    CodeBytes(l, s.ram, l.p + 4);
    FitsAt(l, x);
    var u := OperandSteps(s, l.k, l.d1 + x, l.d2 + x);
    var t := StoreSteps(u, l.d3 + x, l.p);
    TwoThree(s, u, t);
    PassedIs(s, t, l, x);
  }

  // ---- whole loops ----

  /** The operands of the loop for X = n, most significant byte first. */
  function Bytes(ram: Ram, d: Byte, n: nat): seq<Byte>
    requires d + n < MEMSIZE
  {
    ram[d + 1..d + n + 1]
  }

  /** After the loop: the result bytes are the chain's, C is its carry, the rest of RAM is
      untouched, X is 0 and PC is past the loop. */
  predicate Done(s: State, t: State, l: Loop, n: nat)
    requires l.Fits(n)
  {
    var r := Chain(l.k, Bytes(s.ram, l.d1, n), Bytes(s.ram, l.d2, n), s.r.ccr.c);
    && Bytes(t.ram, l.d3, n) == r.zs && t.r.ccr.c == r.c
    && t.r.ix == 0 && t.r.pc == l.p + l.Size()
    && forall a | 0 <= a < MEMSIZE && !(l.d3 < a <= l.d3 + n) :: t.ram[a] == s.ram[a]
  }

  lemma Fewer(l: Loop, n: nat)
    requires l.Fits(n) && n > 0
    ensures l.Fits(n - 1)
  {
  }

  lemma StillLoaded(s: State, t: State, l: Loop, n: nat)
    requires l.Loaded(s.ram) && l.Fits(n) && n > 0 && Passed(s, t, l, n)
    ensures l.Loaded(t.ram)
    ensures Bytes(t.ram, l.d1, n - 1) == Bytes(s.ram, l.d1, n)[..n - 1]
    ensures Bytes(t.ram, l.d2, n - 1) == Bytes(s.ram, l.d2, n)[..n - 1]
  {
    hide Apply, Code, Bytes;
    var v := t.ram[l.d3 + n];
    assert t.ram == s.ram[l.d3 + n := v];
    SliceKept(s.ram, l.d3 + n, v, l.p, l.p + l.Size());
    OperandsKept(s.ram, l.d3 + n, v, l.d1, n);
    OperandsKept(s.ram, l.d3 + n, v, l.d2, n);
  }

  lemma SliceKept(ram: Ram, a: nat, v: Byte, lo: nat, hi: nat)
    requires a < MEMSIZE && lo <= hi <= MEMSIZE && (a < lo || hi <= a)
    ensures ram[a := v][lo..hi] == ram[lo..hi]
  {
  }

  lemma OperandsKept(ram: Ram, a: nat, v: Byte, d: Byte, n: nat)
    requires a < MEMSIZE && d + n < MEMSIZE && n > 0 && (a >= d + n || a <= d)
    ensures Bytes(ram[a := v], d, n - 1) == Bytes(ram, d, n)[..n - 1]
  {
    SliceKept(ram, a, v, d + 1, d + n);
  }

  lemma OnePass(s: State, t: State, l: Loop)
    requires l.Fits(1) && Passed(s, t, l, 1)
    ensures Done(s, t, l, 1)
  {
    hide Apply, Chain, Code, Bytes;
    OneByte(s.ram, l.d1);
    OneByte(s.ram, l.d2);
    OneByte(t.ram, l.d3);
    ChainOfOne(l.k, s.ram[l.d1 + 1], s.ram[l.d2 + 1], s.r.ccr.c);
  }

  lemma OneByte(ram: Ram, d: Byte)
    ensures Bytes(ram, d, 1) == [ram[d + 1]]
  {
  }

  lemma ChainOfOne(k: Kernel, x: Byte, y: Byte, c: bool)
    ensures var r := Chain(k, [x], [y], c);
      var o := Apply(k, x, y, c);
      r.zs == [o.z] && r.c == o.c
  {
    hide Apply;
    ChainSplit(k, [x], [y], c);
    assert [x][..0] == [] && [y][..0] == [];
  }

  /** What a pass and the rest of the loop do to RAM. */
  lemma Stored(s: State, t: State, u: State, l: Loop, n: nat)
    requires l.Fits(n) && n > 1 && Passed(s, t, l, n)
    requires l.Fits(n - 1) && Done(t, u, l, n - 1)
    ensures u.ram[l.d3 + n] == Apply(l.k, s.ram[l.d1 + n], s.ram[l.d2 + n], s.r.ccr.c).z
    ensures forall a | 0 <= a < MEMSIZE && !(l.d3 < a <= l.d3 + n) :: u.ram[a] == s.ram[a]
  {
    hide Apply, Chain, Code, Bytes;
  }

  lemma LastByte(ram: Ram, d: Byte, n: nat)
    requires d + n < MEMSIZE && n > 0
    ensures var z := Bytes(ram, d, n); z[n - 1] == ram[d + n] && z == Bytes(ram, d, n - 1) + [ram[d + n]]
  {
  }

  lemma PassThenDone(s: State, t: State, u: State, l: Loop, n: nat)
    requires l.Loaded(s.ram) && l.Fits(n) && n > 1 && Passed(s, t, l, n)
    requires l.Fits(n - 1) && Done(t, u, l, n - 1)
    ensures Done(s, u, l, n)
  {
    StillLoaded(s, t, l, n);
    Stored(s, t, u, l, n);
    LastByte(s.ram, l.d1, n);
    LastByte(s.ram, l.d2, n);
    LastByte(u.ram, l.d3, n);
    hide Apply, Chain, Code, Bytes;
    ChainSplit(l.k, Bytes(s.ram, l.d1, n), Bytes(s.ram, l.d2, n), s.r.ccr.c);
  }

  /** The machine runs the whole loop: n passes compute the n-byte chain in memory. */
  lemma {:induction false} LoopRuns(s: State, l: Loop, n: nat)
    requires l.Loaded(s.ram) && l.Fits(n) && s.r.pc == l.p && s.r.ix == n > 0
    ensures Done(s, Alone(s, n * PassLength(l.k)), l, n)
    decreases n
  {
    hide *;
    Pass(s, l, n);
    var t := Alone(s, PassLength(l.k));
    if n == 1 {
      OnePass(s, t, l);
    } else {
      Fewer(l, n);
      StillLoaded(s, t, l, n);
      PassState(s, t, l, n);
      LoopRuns(t, l, n - 1);
      PassThenDone(s, t, Alone(t, (n - 1) * PassLength(l.k)), l, n);
      AloneAdd(s, PassLength(l.k), (n - 1) * PassLength(l.k));
      assert n * PassLength(l.k) == PassLength(l.k) + (n - 1) * PassLength(l.k);
    }
  }

  lemma PassState(s: State, t: State, l: Loop, n: nat)
    requires l.Fits(n) && n > 1 && Passed(s, t, l, n)
    ensures t.r.pc == l.p && t.r.ix == n - 1
  {
  }

  /** n-byte addition in memory: the sum modulo 256^n and the true carry. */
  lemma AdditionLoop(s: State, l: Loop, n: nat)
    requires l.k == ADC_ && l.Loaded(s.ram) && l.Fits(n) && s.r.pc == l.p && s.r.ix == n > 0
    ensures var t := Alone(s, n * 5);
      Value(Bytes(t.ram, l.d3, n)) + Power(0x100, n) * One(t.r.ccr.c, 1)
      == Value(Bytes(s.ram, l.d1, n)) + Value(Bytes(s.ram, l.d2, n)) + One(s.r.ccr.c, 1)
  {
    hide Alone, Chain, Value, Power, One, Code;
    LoopRuns(s, l, n);
    AddChain(Bytes(s.ram, l.d1, n), Bytes(s.ram, l.d2, n), s.r.ccr.c);
  }

  /** n-byte subtraction in memory: the difference modulo 256^n and the true borrow. */
  lemma SubtractionLoop(s: State, l: Loop, n: nat)
    requires l.k == SBC_ && l.Loaded(s.ram) && l.Fits(n) && s.r.pc == l.p && s.r.ix == n > 0
    ensures var t := Alone(s, n * 5);
      Value(Bytes(t.ram, l.d3, n))
      == Value(Bytes(s.ram, l.d1, n)) - Value(Bytes(s.ram, l.d2, n)) - One(s.r.ccr.c, 1)
         + Power(0x100, n) * One(t.r.ccr.c, 1)
  {
    hide Alone, Chain, Value, Power, One, Code;
    LoopRuns(s, l, n);
    SubChain(Bytes(s.ram, l.d1, n), Bytes(s.ram, l.d2, n), s.r.ccr.c);
  }

  /** n-byte packed-decimal addition in memory: right but for the shortfall. */
  lemma DecimalLoop(s: State, l: Loop, n: nat)
    requires l.k == ADC_DAA && l.Loaded(s.ram) && l.Fits(n) && s.r.pc == l.p && s.r.ix == n > 0
    requires AllPacked(Bytes(s.ram, l.d1, n)) && AllPacked(Bytes(s.ram, l.d2, n))
    ensures var t := Alone(s, n * 6);
      DecValue(Bytes(t.ram, l.d3, n)) + Power(100, n) * One(t.r.ccr.c, 1)
      + Shortfall(Bytes(s.ram, l.d1, n), Bytes(s.ram, l.d2, n), s.r.ccr.c)
      == DecValue(Bytes(s.ram, l.d1, n)) + DecValue(Bytes(s.ram, l.d2, n)) + One(s.r.ccr.c, 1)
  {
    hide Alone, Chain, DecValue, Power, One, Shortfall, Code;
    LoopRuns(s, l, n);
    DecimalChain(Bytes(s.ram, l.d1, n), Bytes(s.ram, l.d2, n), s.r.ccr.c);
  }

  /** n-byte doubling in memory: rol from the least significant byte, the lost bit in C. */
  lemma DoublingLoop(s: State, l: Loop, n: nat)
    requires l.k == ROL_ && l.Loaded(s.ram) && l.Fits(n) && s.r.pc == l.p && s.r.ix == n > 0
    ensures var t := Alone(s, n * 3);
      Value(Bytes(t.ram, l.d3, n)) + Power(0x100, n) * One(t.r.ccr.c, 1)
      == 2 * Value(Bytes(s.ram, l.d1, n)) + One(s.r.ccr.c, 1)
  {
    hide Alone, Chain, Value, Power, One, Code;
    LoopRuns(s, l, n);
    ShiftLeftChain(Bytes(s.ram, l.d1, n), Bytes(s.ram, l.d2, n), s.r.ccr.c);
  }
}
