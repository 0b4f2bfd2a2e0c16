// Interrupts leave no trace in an interrupted program (src/arch/m68xx/opfunc.c int_addr and
// rti_inh, src/arch/h6303/instr.c instr_exec).

module Interrupts {
  import opened Words
  import opened Alu
  import opened Optab
  import opened Machine
  import opened Simulation
  import D = Device

  const FRAME := 7

  /** The stack room an interrupt needs: no wrap, and clear of the register block. */
  predicate HasRoom(sp: Word)
  {
    sp >= D.NIREGS + FRAME - 1
  }

  /** The seven bytes that int_addr stacks below and at `sp` for registers `r`. */
  predicate Framed(ram: Ram, sp: Word, r: Regs)
    requires HasRoom(sp)
  {
    && ram[sp] == Lo(r.pc) && ram[sp - 1] == Hi(r.pc)
    && ram[sp - 2] == Lo(r.ix) && ram[sp - 3] == Hi(r.ix)
    && ram[sp - 4] == r.a && ram[sp - 5] == r.b && ram[sp - 6] == Pack(r.ccr)
  }

  lemma PushRam(s: State, v: Byte)
    requires s.r.sp >= D.NIREGS
    ensures var t := PushB(s, v);
      && t.ram == s.ram[s.r.sp := v] && t.r == s.r.(sp := s.r.sp - 1) && t.dev == s.dev
  {
  }

  lemma PushWRam(s: State, w: Word)
    requires s.r.sp > D.NIREGS
    ensures var t := PushW(s, w);
      && t.ram == s.ram[s.r.sp := Lo(w)][s.r.sp - 1 := Hi(w)] && t.r == s.r.(sp := s.r.sp - 2) && t.dev == s.dev
  {
    PushRam(s, Lo(w));
    PushRam(PushB(s, Lo(w)), Hi(w));
  }

  lemma PopRam(s: State)
    requires D.NIREGS <= s.r.sp + 1 < MEMSIZE
    ensures var g := PopB(s);
      g.v == s.ram[s.r.sp + 1] && g.s.r == s.r.(sp := s.r.sp + 1) && g.s.ram == s.ram && g.s.dev == s.dev
  {
  }

  lemma PopWRam(s: State)
    requires D.NIREGS <= s.r.sp + 1 < MEMSIZE - 1
    ensures var g := PopW(s);
      && g.w == Join(s.ram[s.r.sp + 1], s.ram[s.r.sp + 2])
      && g.s.r == s.r.(sp := s.r.sp + 2) && g.s.ram == s.ram && g.s.dev == s.dev
  {
    PopRam(s);
    PopRam(PopB(s).s);
  }

  lemma StackedRegs(s: State)
    requires HasRoom(s.r.sp)
    ensures var r := s.r;
      var sp := r.sp;
      var u := StackRegs(s);
      && u.r == r.(sp := sp - FRAME)
      && u.ram == s.ram[sp := Lo(r.pc)][sp - 1 := Hi(r.pc)][sp - 2 := Lo(r.ix)][sp - 3 := Hi(r.ix)]
                       [sp - 4 := r.a][sp - 5 := r.b][sp - 6 := Pack(r.ccr)]
  {
    var r := s.r;
    PushWRam(s, r.pc);
    var s1 := PushW(s, r.pc);
    PushWRam(s1, r.ix);
    var s2 := PushW(s1, r.ix);
    PushRam(s2, r.a);
    var s3 := PushB(s2, r.a);
    PushRam(s3, r.b);
    var s4 := PushB(s3, r.b);
    PushRam(s4, Pack(r.ccr));
    hide PushB, PushW, Pack;
  }

  /** Taking an interrupt stacks the registers and masks further interrupts. */
  lemma InterruptFrame(s: State, vector: Word)
    requires HasRoom(s.r.sp)
    ensures var u := IntAddr(s, vector);
      Framed(u.ram, s.r.sp, s.r) && u.r.sp == s.r.sp - FRAME && u.r.ccr.i
  {
    hide StackRegs, GetW, CallPush, Framed, Pack, Hi, Lo;
    StackedRegs(s);
    FrameWritten(s.ram, s.r);
    VectorKeeps(StackRegs(s), vector);
  }

  lemma FrameWritten(ram: Ram, r: Regs)
    requires HasRoom(r.sp)
    ensures var sp := r.sp;
      Framed(ram[sp := Lo(r.pc)][sp - 1 := Hi(r.pc)][sp - 2 := Lo(r.ix)][sp - 3 := Hi(r.ix)]
             [sp - 4 := r.a][sp - 5 := r.b][sp - 6 := Pack(r.ccr)], sp, r)
  {
    hide Pack;
  }

  lemma VectorKeeps(s: State, vector: Word)
    ensures var g := GetW(s, vector);
      var u := CallPush(WithPc(g.s, g.w), g.w);
      u.ram == s.ram && u.r == s.r.(pc := g.w)
  {
  }

  /** rti pulls a frame back into the registers it was stacked from, flags included. */
  lemma RtiRestores(t: State, sp: Word, r: Regs)
    requires HasRoom(sp) && r.sp == sp
    requires t.r.sp == sp - FRAME && Framed(t.ram, sp, r)
    ensures RtiExec(t).r == r && RtiExec(t).ram == t.ram && RtiExec(t).dev == t.dev
  {
    PackRoundTrip(r.ccr);
    PopRam(t);
    var g1 := PopB(t);
    var s1 := g1.s.(r := g1.s.r.(ccr := Unpack(g1.v)));
    PopRam(s1);
    var g2 := PopB(s1);
    var s2 := g2.s.(r := g2.s.r.(b := g2.v));
    PopRam(s2);
    var g3 := PopB(s2);
    var s3 := g3.s.(r := g3.s.r.(a := g3.v));
    PopWRam(s3);
    var g4 := PopW(s3);
    var s4 := g4.s.(r := g4.s.r.(ix := g4.w));
    PopWRam(s4);
    assert Join(Hi(r.ix), Lo(r.ix)) == r.ix && Join(Hi(r.pc), Lo(r.pc)) == r.pc;
  }

  /** An interrupt taken at `s` whose handler ends `n` steps later: the handler is any run of the
      machine, further interrupts included, that comes to an rti with SP back where the
      interrupt left it and the frame unchanged. */
  ghost predicate Excursion(s: State, n: nat)
  {
    && n >= 2 && Interrupting(s).Vector? && HasRoom(s.r.sp)
    && ReturnsFrom(Steps(s, n - 1), s.r)
  }

  ghost predicate ReturnsFrom(u: State, r: Regs)
    requires HasRoom(r.sp)
  {
    && Interrupting(u).None? && Opcodetab(FetchB(u).v).f.Rti?
    && u.r.sp == r.sp - FRAME && Framed(u.ram, r.sp, r)
  }

  lemma RtiStep(u: State, r: Regs)
    requires HasRoom(r.sp) && ReturnsFrom(u, r)
    ensures Step(u).r == r
  {
    FetchKeeps(u);
    var g := FetchB(u);
    RtiUnfold(u);
    hide RtiExec, FetchB, Step, Opcodetab, Interrupting, Framed, D.Tick;
    FramedSame(u.ram, g.s.ram, r.sp, r);
    RtiRestores(g.s, r.sp, r);
  }

  lemma FramedSame(ram: Ram, ram': Ram, sp: Word, r: Regs)
    requires HasRoom(sp) && Framed(ram, sp, r) && ram' == ram
    ensures Framed(ram', sp, r)
  {
  }

  lemma RtiUnfold(u: State)
    requires Interrupting(u).None? && Opcodetab(FetchB(u).v).f.Rti?
    ensures Step(u) == Elapse(RtiExec(FetchB(u).s), Opcodetab(FetchB(u).v).cycles)
  {
    hide RtiExec, FetchB, Opcodetab, Elapse, Interrupting;
  }

  lemma FetchKeeps(u: State)
    ensures FetchB(u).s.ram == u.ram && FetchB(u).s.r == u.r.(pc := Ahead(u.r.pc, 1))
  {
  }

  lemma {:induction false} StepsLast(s: State, n: nat)
    requires n > 0
    ensures Steps(s, n) == Step(Steps(s, n - 1))
    decreases n
  {
    hide *;
    StepsUnfold(s, n);
    if n == 1 {
      StepsZero(s);
      StepsZero(Step(s));
    } else {
      StepsUnfold(s, n - 1);
      StepsLast(Step(s), n - 1);
    }
  }

  /** An excursion gives every register back. */
  lemma ExcursionRestores(s: State, n: nat)
    requires Excursion(s, n)
    ensures Steps(s, n).r == s.r
  {
    StepsLast(s, n);
    RtiStep(Steps(s, n - 1), s.r);
  }

  /** The entry of an interrupt: the frame, SP below it, I set, and nothing changed above SP. */
  lemma EntryFrame(s: State)
    requires Interrupting(s).Vector? && HasRoom(s.r.sp)
    ensures var e := Step(s);
      && Framed(e.ram, s.r.sp, s.r) && e.r.sp == s.r.sp - FRAME && Interrupting(e).None?
      && forall a | s.r.sp < a < MEMSIZE :: e.ram[a] == s.ram[a]
  {
    var v := Interrupting(s).addr;
    InterruptFrame(s, v);
    EntryAbove(s, v);
    hide IntAddr, Framed;
    assert Step(s) == Elapse(IntAddr(s, v), SWI_CYCLES);
  }

  lemma EntryAbove(s: State, vector: Word)
    requires HasRoom(s.r.sp)
    ensures forall a | s.r.sp < a < MEMSIZE :: IntAddr(s, vector).ram[a] == s.ram[a]
  {
    hide StackRegs, GetW, CallPush, Pack, Hi, Lo;
    StackedRegs(s);
    VectorKeeps(StackRegs(s), vector);
  }

  /** The rti that ends an excursion changes no byte but device registers. */
  lemma RtiCells(u: State, r: Regs)
    requires HasRoom(r.sp) && ReturnsFrom(u, r)
    ensures forall a: Word | !IsDeviceReg(a) :: Cell(Step(u), a) == Cell(u, a)
  {
    FetchCells(u);
    FetchKeeps(u);
    var g := FetchB(u);
    RtiUnfold(u);
    hide RtiExec, FetchB, Step, Opcodetab, Interrupting, Framed, D.Tick;
    FramedSame(u.ram, g.s.ram, r.sp, r);
    RtiRestores(g.s, r.sp, r);
    DeviceTick(RtiExec(g.s).dev, Opcodetab(g.v).cycles);
  }

  lemma FetchCells(u: State)
    ensures forall a: Word | !IsDeviceReg(a) :: Cell(FetchB(u).s, a) == Cell(u, a)
  {
    if u.r.pc < D.NIREGS {
      DeviceGet(u.dev, u.r.pc);
    }
    hide D.Get;
  }

  /** While I is set no interrupt is entered: the step executes the next instruction. */
  lemma MaskedStep(s: State)
    requires s.r.ccr.i
    ensures Step(s) == ExecNext(s)
  {
    hide ExecNext, IntAddr, Elapse;
  }

  /** I stays set until an instruction that can clear it: cli, tap or rti. */
  lemma MaskStays(s: State)
    requires s.r.ccr.i
    requires var f := Opcodetab(FetchB(s).v).f; f != Inh(CLI) && f != Inh(TAP) && !f.Rti?
    ensures Step(s).r.ccr.i
  {
    MaskedStep(s);
    FetchKeeps(s);
    hide Step, Exec, FetchB, Opcodetab, D.Tick;
    var g := FetchB(s);
    MaskKept(g.s, Opcodetab(g.v).f);
  }

  /** With I clear the highest request that is raised and enabled is entered; with I set, or
      nothing requested, the next instruction is executed. */
  lemma HighestRequestTaken(s: State)
    ensures s.r.ccr.i || (forall src: D.Source :: !D.Requested(s.dev, src)) ==> Step(s) == ExecNext(s)
    ensures forall src: D.Source | !s.r.ccr.i && D.Highest(s.dev, src) ::
              Step(s) == Elapse(IntAddr(s, D.VectorOf(src)), SWI_CYCLES)
  {
    hide ExecNext, IntAddr, Elapse, D.Pending, D.Requested;
    StepCases(s);
    if !s.r.ccr.i {
      D.PendingIsHighest(s.dev, D.None);
      forall src: D.Source | D.Highest(s.dev, src) ensures Interrupting(s) == D.Vector(D.VectorOf(src)) {
        D.PendingIsHighest(s.dev, D.Vector(D.VectorOf(src)));
      }
    }
  }

  /** None of the next `n` instructions is one that can clear I. */
  predicate KeepsMask(s: State, n: nat)
    decreases n
  {
    n > 0 ==>
      var f := Opcodetab(FetchB(s).v).f;
      f != Inh(CLI) && f != Inh(TAP) && !f.Rti? && KeepsMask(ExecNext(s), n - 1)
  }

  lemma MaskUnfold(s: State, n: nat)
    requires n > 0 && KeepsMask(s, n)
    ensures var f := Opcodetab(FetchB(s).v).f; f != Inh(CLI) && f != Inh(TAP) && !f.Rti?
    ensures KeepsMask(ExecNext(s), n - 1)
  {
    hide ExecNext, FetchB, Opcodetab;
  }

  /** While I is set and nothing clears it, a run is the program alone, whatever interrupts are
      requested meanwhile; and I is still set at its end. */
  lemma {:induction false} MaskedRun(s: State, n: nat)
    requires s.r.ccr.i && KeepsMask(s, n)
    ensures Steps(s, n) == Alone(s, n) && Steps(s, n).r.ccr.i
    decreases n
  {
    hide *;
    if n == 0 {
      StepsZero(s);
      AloneZero(s);
    } else {
      MaskUnfold(s, n);
      MaskedStep(s);
      MaskStays(s);
      StepsUnfold(s, n);
      AloneUnfold(s, n);
      MaskedRun(Step(s), n - 1);
    }
  }

  lemma RmwMask(f: Flags, op: RmwOp, x: Byte)
    ensures RmwExec(f, op, x).f.i == f.i
  {
    hide ShiftLeft, ShiftRight;
  }

  lemma AluMask(r: Regs, op: AluOp, acc: Acc, m: Byte)
    ensures AluExec(r, op, acc, m).ccr.i == r.ccr.i
  {
    hide ByteOp, Signed;
  }

  lemma WideMask(r: Regs, op: WideOp, w: Word)
    ensures WideExec(r, op, w).ccr.i == r.ccr.i
  {
    hide Signed;
  }

  lemma InhMask(r: Regs, op: InhOp)
    requires op != CLI && op != TAP
    ensures r.ccr.i ==> InhExec(r, op).ccr.i
  {
    AluMask(r, ADD, A, r.b);
    AluMask(r, CMP, A, r.b);
    AluMask(r, SUB, A, r.b);
    AluMask(r, LDA, A, r.b);
    AluMask(r, LDA, B, r.a);
    hide AluExec, Product, ShiftLeft, ShiftRight, DaaSum;
  }

  lemma ModeMask(s: State, mode: Mode)
    ensures OperandB(s, mode).s.r.ccr == OperandW(s, mode).s.r.ccr == Address(s, mode).s.r.ccr == s.r.ccr
  {
    hide D.Get, Ahead;
  }

  lemma StackMask(s: State, v: Byte, w: Word)
    ensures PushB(s, v).r.ccr == PushW(s, w).r.ccr == PopB(s).s.r.ccr == PopW(s).s.r.ccr == s.r.ccr
  {
    hide D.Get, D.Put;
  }

  lemma OperandMask(s: State, f: Func)
    requires f.Alu? || f.Wide?
    ensures Exec(s, f).r.ccr.i == s.r.ccr.i
  {
    ModeMask(s, f.mode);
    match f
    case Alu(op, acc, mode) =>
      var g := OperandB(s, mode);
      hide OperandB, AluExec;
      AluMask(g.s.r, op, acc, g.v);
    case Wide(op, mode) =>
      var g := OperandW(s, mode);
      hide OperandW, WideExec;
      WideMask(g.s.r, op, g.w);
  }

  lemma MemoryMask(s: State, f: Func)
    requires f.Store? || f.StoreWide? || f.RmwMem? || f.Jmp?
    ensures Exec(s, f).r.ccr.i == s.r.ccr.i
  {
    ModeMask(s, f.mode);
    var g := Address(s, f.mode);
    hide Address, RmwExec, D.Get, D.Put;
    if f.RmwMem? {
      var m := GetB(g.s, g.w);
      RmwMask(m.s.r.ccr, f.rop, m.v);
    }
  }

  lemma JsrMask(s: State, f: Func)
    requires f.Jsr? || f.Bsr?
    ensures Exec(s, f).r.ccr.i == s.r.ccr.i
  {
    hide JsrAddr, Address, FetchB, Signed8;
    match f
    case Jsr(mode) =>
      var g := Address(s, mode);
      ModeMask(s, mode);
      CallMask(g.s, g.w);
    case Bsr =>
      var g := FetchB(s);
      FetchKeeps(s);
      CallMask(g.s, Signed8(g.v) + g.s.r.pc);
  }

  lemma CallMask(s: State, addr: int)
    ensures JsrAddr(s, addr).r.ccr == s.r.ccr
  {
    hide PushW;
    StackMask(s, 0, s.r.pc);
  }

  lemma PushMask(s: State, f: Func)
    requires f.Psh? || f.Pshx?
    ensures Exec(s, f).r.ccr.i == s.r.ccr.i
  {
    StackMask(s, if f.Psh? then GetAcc(s.r, f.acc) else 0, s.r.ix);
    hide PushB, PushW;
  }

  lemma PullMask(s: State, f: Func)
    requires f.Rts? || f.Pul? || f.Pulx?
    ensures Exec(s, f).r.ccr.i == s.r.ccr.i
  {
    StackMask(s, 0, 0);
    hide PopB, PopW;
  }

  lemma MaskKept(s: State, f: Func)
    requires s.r.ccr.i && f != Inh(CLI) && f != Inh(TAP) && !f.Rti?
    ensures Exec(s, f).r.ccr.i
  {
    hide Exec;
    match f
    case Alu(_, _, _) => OperandMask(s, f);
    case Wide(_, _) => OperandMask(s, f);
    case Store(_, _) => MemoryMask(s, f);
    case StoreWide(_, _) => MemoryMask(s, f);
    case RmwMem(_, _) => MemoryMask(s, f);
    case Jmp(_) => MemoryMask(s, f);
    case Jsr(_) => JsrMask(s, f);
    case Bsr => JsrMask(s, f);
    case Rts => PullMask(s, f);
    case Psh(_) => PushMask(s, f);
    case Pshx => PushMask(s, f);
    case Pul(_) => PullMask(s, f);
    case Pulx => PullMask(s, f);
    case RmwAcc(_, _) => RegisterMask(s, f);
    case Inh(_) => RegisterMask(s, f);
    case Branch(_) => RegisterMask(s, f);
    case _ => OtherMask(s, f);
  }

  lemma RegisterMask(s: State, f: Func)
    requires s.r.ccr.i
    requires f.RmwAcc? || f.Branch? || (f.Inh? && f.iop != CLI && f.iop != TAP)
    ensures Exec(s, f).r.ccr.i
  {
    match f
    case Inh(op) => InhMask(s.r, op);
    case RmwAcc(op, acc) => RmwMask(s.r.ccr, op, GetAcc(s.r, acc));
    case Branch(c) => ModeMask(s, Imm);
    hide InhExec, RmwExec, FetchB, Taken, Signed8;
  }

  lemma OtherMask(s: State, f: Func)
    requires s.r.ccr.i
    requires f.Trap? || f.Swi? || f.Nop? || f.ImmMem? || f.Ins? || f.Des? || f.Txs?
    ensures Exec(s, f).r.ccr.i
  {
    hide StackRegs, GetW, ByteOp, D.Get, D.Put;
  }

  // ---- what the program relies on ----

  /** The bytes that handlers leave to the program: a set of its own, and everything above SP if
      it keeps its data on the stack. */
  datatype Area = Area(private: set<int>, usesStack: bool)
  {
    predicate Exposes(a: int, sp: Word)
    {
      a !in private && !(usesStack && a > sp)
    }
  }

  function Exposed(area: Area, sp: Word): set<int>
  {
    set a: Word | 0 <= a < MEMSIZE && area.Exposes(a, sp)
  }

  /** The next instruction of the program, executed by itself, reads no device register and no
      byte that handlers may change, unless it wrote it first; and where it lowers SP it writes the
      bytes it passes. */
  predicate Quiet(p: State, area: Area)
  {
    var q := ExecNext(p.(mon := Monitor(Exposed(area, p.r.sp), true)));
    q.mon.clean && q.mon.dirty <= Exposed(area, q.r.sp)
  }

  /** So do the first `n` instructions of the program, executed without interrupts. */
  predicate Undisturbed(p: State, n: nat, area: Area)
    decreases n
  {
    n > 0 ==> Quiet(p, area) && Undisturbed(ExecNext(p), n - 1, area)
  }

  /** The handler that interrupts `s` leaves the program's bytes alone. */
  ghost predicate Discreet(s: State, n: nat, area: Area)
  {
    forall a: Word | !area.Exposes(a, s.r.sp) && !IsDeviceReg(a) :: Cell(Steps(s, n), a) == Cell(s, a)
  }

  /** A handler is a discreet excursion if it comes to its rti with SP where the interrupt left it,
      nothing changed above that, and the program's own bytes as they were. */
  lemma HandlerReturns(s: State, n: nat, area: Area)
    requires n >= 2 && Interrupting(s).Vector? && HasRoom(s.r.sp)
    requires var e, u := Step(s), Steps(s, n - 1);
      && Interrupting(u).None? && Opcodetab(FetchB(u).v).f.Rti?
      && u.r.sp == e.r.sp
      && (forall a | e.r.sp < a < MEMSIZE :: u.ram[a] == e.ram[a])
      && (forall a: Word | a in area.private && !IsDeviceReg(a) :: Cell(u, a) == Cell(s, a))
    ensures Excursion(s, n) && Discreet(s, n, area)
  {
    var e, u := Step(s), Steps(s, n - 1);
    EntryFrame(s);
    SameFrame(e.ram, u.ram, s.r.sp, s.r);
    RtiCells(u, s.r);
    StepsLast(s, n);
    hide Step, Steps, FetchB, Opcodetab, Interrupting, Framed;
    forall a: Word | !area.Exposes(a, s.r.sp) && !IsDeviceReg(a) ensures Cell(Steps(s, n), a) == Cell(s, a) {
      assert Cell(Step(u), a) == Cell(u, a);
      if a !in area.private {
        assert u.ram[a] == e.ram[a] == s.ram[a];
      }
    }
  }

  lemma SameFrame(ram: Ram, ram': Ram, sp: Word, r: Regs)
    requires HasRoom(sp) && Framed(ram, sp, r)
    requires forall a | sp - FRAME < a < MEMSIZE :: ram'[a] == ram[a]
    ensures Framed(ram', sp, r)
  {
  }

  /** Pushing and pulling an accumulator, from code above the stack, is quiet for a program that
      keeps its data on the stack. */
  lemma PushPullQuiet(p: State)
    requires D.NIREGS <= p.r.sp < p.r.pc && p.r.pc + 1 < MEMSIZE
    requires var f := Opcodetab(p.ram[p.r.pc]).f; f.Psh? || f.Pul?
    ensures Quiet(p, Area({}, true))
  {
    hide FetchB, Opcodetab, ExecNext, Exec;
    var w := p.(mon := Monitor(Exposed(Area({}, true), p.r.sp), true));
    var f := Opcodetab(p.ram[p.r.pc]).f;
    CleanFetch(w);
    NextIsExec(w);
    if f.Psh? {
      PushMon(FetchB(w).s, f);
    } else {
      PullMon(FetchB(w).s, f);
    }
  }

  lemma CleanFetch(w: State)
    requires D.NIREGS <= w.r.pc && w.r.pc + 1 < MEMSIZE && w.mon.clean && w.r.pc !in w.mon.dirty
    ensures FetchB(w).s == w.(r := w.r.(pc := w.r.pc + 1)) && FetchB(w).v == w.ram[w.r.pc]
  {
  }

  lemma NextIsExec(s: State)
    ensures var f := Opcodetab(FetchB(s).v).f;
      var t := Exec(FetchB(s).s, f);
      ExecNext(s).mon == t.mon && ExecNext(s).r == t.r
  {
    hide FetchB, Opcodetab, Exec, D.Tick;
  }

  lemma PushMon(s: State, f: Func)
    requires s.r.sp >= D.NIREGS && f.Psh?
    ensures var t := Exec(s, f); t.mon == NoteWrite(s.mon, s.r.sp) && t.r.sp == s.r.sp - 1
  {
  }

  lemma PullMon(s: State, f: Func)
    requires D.NIREGS <= s.r.sp && s.r.sp + 1 < MEMSIZE && s.mon.clean && s.r.sp + 1 !in s.mon.dirty && f.Pul?
    ensures var t := Exec(s, f); t.mon == s.mon && t.r.sp == s.r.sp + 1
  {
  }

  // ---- whole runs ----

  /** A run in which the program is interrupted at instruction boundaries. */
  datatype Segment = Instruction | Handler(steps: nat)

  /** The machine runs through the segments. */
  function Through(s: State, segs: seq<Segment>): State
    decreases |segs|
  {
    if |segs| == 0 then s else Through(After(s, segs[0]), segs[1..])
  }

  function After(s: State, seg: Segment): State
  {
    match seg
    case Instruction => Step(s)
    case Handler(n) => Steps(s, n)
  }

  /** The segments describe the run: instructions are executed where no interrupt is pending, and
      each handler segment is a whole excursion that leaves the program's bytes alone. */
  ghost predicate Interleaved(s: State, segs: seq<Segment>, area: Area)
    decreases |segs|
  {
    |segs| > 0 ==>
      && (match segs[0]
          case Instruction => Interrupting(s).None?
          case Handler(n) => Excursion(s, n) && Discreet(s, n, area))
      && Interleaved(After(s, segs[0]), segs[1..], area)
  }

  function Length(segs: seq<Segment>): nat
    decreases |segs|
  {
    if |segs| == 0 then 0
    else (match segs[0] case Instruction => 1 case Handler(n) => n) + Length(segs[1..])
  }

  function Instructions(segs: seq<Segment>): nat
    decreases |segs|
  {
    if |segs| == 0 then 0 else (if segs[0].Instruction? then 1 else 0) + Instructions(segs[1..])
  }

  /** The interrupted machine `u` is where the program alone is at `p`. */
  ghost predicate InStep(u: State, p: State, area: Area)
  {
    && u.r == p.r
    && forall a: Word | !area.Exposes(a, p.r.sp) && !IsDeviceReg(a) :: Cell(u, a) == Cell(p, a)
  }

  /** `p` as the start of an instruction whose reads and writes are to be watched. */
  function Watched(p: State, area: Area): State
  {
    p.(mon := Monitor(Exposed(area, p.r.sp), true))
  }

  lemma WatchedLike(u: State, p: State, area: Area)
    requires InStep(u, p, area)
    ensures Like(Watched(p, area), u)
  {
    forall a: Word | a !in Exposed(area, p.r.sp) && !IsDeviceReg(a) ensures Cell(Watched(p, area), a) == Cell(u, a) {
      assert !area.Exposes(a, p.r.sp);
      assert Cell(u, a) == Cell(p, a);
    }
  }

  lemma LikeInStep(u: State, q: State, p: State, area: Area)
    requires Like(q, u) && q.mon.clean && q.mon.dirty <= Exposed(area, q.r.sp) && SameCore(q, p)
    ensures InStep(u, p, area)
  {
    forall a: Word | !area.Exposes(a, p.r.sp) && !IsDeviceReg(a) ensures Cell(u, a) == Cell(p, a) {
      assert a !in q.mon.dirty;
      assert Cell(q, a) == Cell(u, a);
    }
  }

  lemma InstructionInStep(u: State, p: State, area: Area)
    requires InStep(u, p, area) && Quiet(p, area)
    ensures InStep(ExecNext(u), ExecNext(p), area)
  {
    hide ExecNext, Like, InStep, Exposed;
    WatchedLike(u, p, area);
    ExecNextSim(Clean, Watched(p, area), u);
    ExecNextSim(Core, Watched(p, area), p);
    LikeInStep(ExecNext(u), ExecNext(Watched(p, area)), ExecNext(p), area);
  }

  lemma HandlerInStep(u: State, n: nat, p: State, area: Area)
    requires InStep(u, p, area) && Excursion(u, n) && Discreet(u, n, area)
    ensures InStep(Steps(u, n), p, area)
  {
    ExcursionRestores(u, n);
    hide Steps, Excursion;
    var t := Steps(u, n);
    forall a: Word | !area.Exposes(a, p.r.sp) && !IsDeviceReg(a) ensures Cell(t, a) == Cell(p, a) {
      assert Cell(t, a) == Cell(u, a);
      assert Cell(u, a) == Cell(p, a);
    }
  }

  lemma RunUnfold(s: State, segs: seq<Segment>, area: Area)
    requires |segs| > 0 && Interleaved(s, segs, area)
    ensures Interleaved(After(s, segs[0]), segs[1..], area)
    ensures Through(s, segs) == Through(After(s, segs[0]), segs[1..])
    ensures segs[0].Instruction? ==> Interrupting(s).None?
    ensures segs[0].Handler? ==> Excursion(s, segs[0].steps) && Discreet(s, segs[0].steps, area)
  {
    hide After, Excursion, Discreet, Interrupting;
  }

  lemma ProgramUnfold(p: State, segs: seq<Segment>, area: Area)
    requires |segs| > 0 && Undisturbed(p, Instructions(segs), area)
    ensures segs[0].Instruction? ==>
      && Quiet(p, area) && Undisturbed(ExecNext(p), Instructions(segs[1..]), area)
      && Alone(p, Instructions(segs)) == Alone(ExecNext(p), Instructions(segs[1..]))
    ensures segs[0].Handler? ==> Instructions(segs) == Instructions(segs[1..])
  {
    hide ExecNext, Quiet;
  }

  lemma AfterIs(s: State, seg: Segment)
    ensures seg.Instruction? ==> After(s, seg) == Step(s)
    ensures seg.Handler? ==> After(s, seg) == Steps(s, seg.steps)
  {
    hide Step, Steps;
  }

  lemma {:induction false} Transparent(s: State, segs: seq<Segment>, area: Area, p: State)
    requires InStep(s, p, area) && Interleaved(s, segs, area) && Undisturbed(p, Instructions(segs), area)
    ensures InStep(Through(s, segs), Alone(p, Instructions(segs)), area)
    decreases |segs|
  {
    hide *;
    if segs == [] {
      NoSegments(s, p);
    } else {
      RunUnfold(s, segs, area);
      ProgramUnfold(p, segs, area);
      AfterIs(s, segs[0]);
      match segs[0] {
        case Instruction =>
          StepCases(s);
          InstructionInStep(s, p, area);
          Transparent(After(s, segs[0]), segs[1..], area, ExecNext(p));
        case Handler(n) =>
          HandlerInStep(s, n, p, area);
          Transparent(After(s, segs[0]), segs[1..], area, p);
      }
    }
  }

  lemma NoSegments(s: State, p: State)
    ensures Through(s, []) == s && Alone(p, Instructions([])) == p
  {
  }

  /** Interrupts leave no trace: if the program by itself relies only on its own bytes, and every
      handler, nested interrupts included, returns with SP and frame intact and leaves those
      bytes alone, then the interrupted run ends with the registers of the program alone and
      the same bytes of its own. */
  lemma InterruptsLeaveNoTrace(s: State, segs: seq<Segment>, area: Area)
    requires Undisturbed(s, Instructions(segs), area) && Interleaved(s, segs, area)
    ensures var u := Through(s, segs);
      var v := Alone(s, Instructions(segs));
      && u.r == v.r
      && forall a: Word | !area.Exposes(a, v.r.sp) && !IsDeviceReg(a) :: Cell(u, a) == Cell(v, a)
  {
    Transparent(s, segs, area, s);
    hide Through, Alone, Undisturbed, Interleaved, Instructions;
  }

  /** A program that reads no device register and nothing at or below SP but what it pushes: if no
      handler changes a byte above the SP it interrupted, all of RAM above SP is the same too. */
  lemma StackProgramUndisturbed(s: State, segs: seq<Segment>)
    requires Undisturbed(s, Instructions(segs), Area({}, true)) && Interleaved(s, segs, Area({}, true))
    ensures var u := Through(s, segs);
      var v := Alone(s, Instructions(segs));
      u.r == v.r && forall a | v.r.sp < a < MEMSIZE && D.NIREGS <= a :: u.ram[a] == v.ram[a]
  {
    InterruptsLeaveNoTrace(s, segs, Area({}, true));
    hide Through, Alone, Undisturbed, Interleaved, Instructions, Cell;
    var u, v := Through(s, segs), Alone(s, Instructions(segs));
    forall a: Word | v.r.sp < a && D.NIREGS <= a ensures u.ram[a] == v.ram[a] {
      assert !Area({}, true).Exposes(a, v.r.sp) && !IsDeviceReg(a);
      RamCell(u, a);
      RamCell(v, a);
    }
  }

  lemma RamCell(s: State, a: Word)
    requires a >= D.NIREGS
    ensures Cell(s, a) == s.ram[a]
  {
  }

  lemma {:induction false} StepsAdd(s: State, m: nat, n: nat)
    ensures Steps(s, m + n) == Steps(Steps(s, m), n)
    decreases m
  {
    hide *;
    if m == 0 {
      StepsZero(s);
    } else {
      StepsUnfold(s, m);
      StepsUnfold(s, m + n);
      StepsAdd(Step(s), m - 1, n);
    }
  }

  lemma AfterIsSteps(s: State, seg: Segment)
    ensures After(s, seg) == Steps(s, match seg case Instruction => 1 case Handler(n) => n)
  {
    hide Step;
    if seg.Instruction? {
      StepsUnfold(s, 1);
      StepsZero(Step(s));
    }
  }

  /** The interleaved run is a run of instr_exec: the segments only annotate it. */
  lemma {:induction false} ThroughIsRun(s: State, segs: seq<Segment>)
    ensures Through(s, segs) == Steps(s, Length(segs))
    decreases |segs|
  {
    hide Step, Steps, After;
    if segs == [] {
      StepsZero(s);
    } else {
      var n := match segs[0] case Instruction => 1 case Handler(n) => n;
      AfterIsSteps(s, segs[0]);
      ThroughIsRun(After(s, segs[0]), segs[1..]);
      StepsAdd(s, n, Length(segs[1..]));
    }
  }
}
