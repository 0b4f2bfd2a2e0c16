// A relation kept by memory and register accesses is kept by whole instructions.

/** Facts about execution have the same proof: what interrupts cannot disturb, what the
    history variables cannot influence, what the call stack follows, that only writes change the
    timer registers, and that only the end of an instruction counts cycles. Each is a relation on states that the primitive accesses keep; this
    module carries it to whole instructions once. */
module Simulation {
  import opened Words
  import opened Alu
  import opened CallHistory
  import opened Optab
  import opened Machine
  import D = Device

  datatype Kind = Clean | Core | Stack | Timer(d: D.Dev) | Cycles(n: nat)

  /** As long as the program has only read clean bytes, `s` and `t` have the same registers and
      agree on every byte that is not dirty and not a device register. */
  ghost predicate Like(s: State, t: State)
  {
    s.mon.clean ==>
      && s.r == t.r
      && forall a: Word | a !in s.mon.dirty && !IsDeviceReg(a) :: Cell(s, a) == Cell(t, a)
  }

  /** Equal but for the two history variables. */
  predicate SameCore(s: State, t: State)
  {
    s.(mon := t.mon, hist := t.hist) == t
  }

  /** The machine's call stack is the live calls of its stack-pointer history. */
  ghost predicate Tracks(s: State)
  {
    Agrees(s.cs, s.r.sp, s.hist)
  }

  /** FRC, TCONR and T2CNT. */
  predicate IsTimerCell(a: int)
  {
    a == D.FRC || a == D.FRC + 1 || a == D.TCONR || a == D.T2CNT
  }

  /** Timer cells that have not been written, and so are still in `dirty`, are those of `d`. */
  predicate Holds(s: State, d: D.Dev)
  {
    forall a | 0 <= a < D.NIREGS && IsTimerCell(a) && a in s.mon.dirty :: s.dev.iram[a] == d.iram[a]
  }

  ghost predicate Sim(k: Kind, s: State, t: State)
  {
    match k
    case Timer(d) => Holds(s, d)
    case Cycles(n) => s.cycles == n
    case Clean => Like(s, t)
    case Core => SameCore(s, t)
    case Stack => Tracks(s)
  }

  /** Values read from the two states may be relied on to be equal. */
  predicate Trusts(k: Kind, s: State)
  {
    match k
    case Timer(_) => false
    case Cycles(_) => false
    case Clean => s.mon.clean
    case Core => true
    case Stack => false
  }

  lemma SimRegs(k: Kind, s: State, t: State)
    requires Sim(k, s, t)
    ensures Trusts(k, s) ==> s.r == t.r
  {
  }

  /** From related states with `s` on the left, execution has come to `u` and `v`: they are
      related, and if they are to be trusted then so was `s`. */
  ghost predicate To(k: Kind, s: State, u: State, v: State)
  {
    Sim(k, u, v) && (Trusts(k, u) ==> Trusts(k, s) && u.r == v.r)
  }

  ghost predicate GotTo(k: Kind, s: State, g: Got, h: Got)
  {
    To(k, s, g.s, h.s) && (Trusts(k, g.s) ==> g.v == h.v)
  }

  ghost predicate GotWTo(k: Kind, s: State, g: GotW, h: GotW)
  {
    To(k, s, g.s, h.s) && (Trusts(k, g.s) ==> g.w == h.w)
  }

  // ---- the register block ----

  lemma DeviceGet(d: D.Dev, offs: nat)
    requires offs < D.NIREGS
    ensures forall a | 0 <= a < D.NIREGS && !IsDeviceReg(a) :: D.Get(d, offs).d.iram[a] == d.iram[a]
    ensures !IsDeviceReg(offs) ==> D.Get(d, offs) == D.Got(d, d.iram[offs])
  {
  }

  lemma DevicePut(d: D.Dev, offs: nat, v: Byte)
    requires offs < D.NIREGS
    ensures forall a | 0 <= a < D.NIREGS && !IsDeviceReg(a) && a != offs :: D.Put(d, offs, v).iram[a] == d.iram[a]
    ensures !IsDeviceReg(offs) ==>
      D.Put(d, offs, v).iram[offs] == if D.IsPort(offs) then ByteOp(XOR, v, d.iram[offs - 2]) else v
  {
  }

  lemma DeviceTick(d: D.Dev, n: nat)
    ensures forall a | 0 <= a < D.NIREGS && !IsDeviceReg(a) :: D.Tick(d, n).iram[a] == d.iram[a]
  {
    var d1 := D.Compare1(d, n);
    var d2 := D.Compare2(d1, n);
    DeviceCompare(d, n);
    DeviceCompare(d1, n);
    DeviceTimer2(d2, n);
    hide D.Compare1, D.Compare2, D.Timer2;
  }

  lemma DeviceCompare(d: D.Dev, n: nat)
    ensures forall a | 0 <= a < D.NIREGS && !IsDeviceReg(a) :: D.Compare1(d, n).iram[a] == d.iram[a]
    ensures forall a | 0 <= a < D.NIREGS && !IsDeviceReg(a) :: D.Compare2(d, n).iram[a] == d.iram[a]
  {
    hide D.Matches;
  }

  lemma DeviceTimer2(d: D.Dev, n: nat)
    ensures forall a | 0 <= a < D.NIREGS && !IsDeviceReg(a) :: D.Timer2(d, n).iram[a] == d.iram[a]
  {
    hide D.T2Ticks, D.T2Matches, D.T2Enabled;
  }

  /** Reads leave the timer cells alone; a write changes none but the one it addresses. */
  lemma TimerCellsRead(d: D.Dev, offs: nat)
    requires offs < D.NIREGS
    ensures forall a | 0 <= a < D.NIREGS && IsTimerCell(a) :: D.Get(d, offs).d.iram[a] == d.iram[a]
  {
    hide Has, Copy, D.TrcsrValue, D.Tcsr2Value;
  }

  lemma TimerCellsWritten(d: D.Dev, offs: nat, v: Byte)
    requires offs < D.NIREGS
    ensures forall a | 0 <= a < D.NIREGS && IsTimerCell(a) && a != offs :: D.Put(d, offs, v).iram[a] == d.iram[a]
  {
    TcsrCells(d, v);
    Ocr1Cells(d, offs, v);
    hide Has, ByteOp, D.TrcsrValue, D.PutTcsr, D.PutOcr1;
  }

  lemma TcsrCells(d: D.Dev, v: Byte)
    ensures forall a | 0 <= a < D.NIREGS && a != D.TCSR1 :: D.PutTcsr(d, v).iram[a] == d.iram[a]
  {
    hide Copy;
  }

  lemma Ocr1Cells(d: D.Dev, offs: nat, v: Byte)
    ensures offs == D.OCR1 || offs == D.OCR1 + 1 ==>
      forall a | 0 <= a < D.NIREGS && a != D.TCSR1 && a != offs :: D.PutOcr1(d, offs, v).iram[a] == d.iram[a]
  {
    hide Clear;
  }

  // ---- accesses ----

  lemma GetLike(s: State, x: nat, t: State, y: nat)
    requires Like(s, t) && (s.mon.clean ==> x == y)
    ensures GotTo(Clean, s, GetB(s, x), GetB(t, y))
  {
    if x < D.NIREGS {
      DeviceGet(s.dev, x);
    }
    if y < D.NIREGS {
      DeviceGet(t.dev, y);
    }
    var g, h := GetB(s, x), GetB(t, y);
    if g.s.mon.clean {
      forall a: Word | a !in g.s.mon.dirty && !IsDeviceReg(a) ensures Cell(g.s, a) == Cell(h.s, a) {
        assert Cell(s, a) == Cell(t, a);
      }
      if x < MEMSIZE {
        assert Cell(s, x) == Cell(t, x);
      }
    }
  }

  lemma PutLike(s: State, x: nat, v: Byte, t: State, y: nat, w: Byte)
    requires Like(s, t) && (s.mon.clean ==> x == y && v == w)
    ensures Like(PutB(s, x, v), PutB(t, y, w))
  {
    if x < D.NIREGS {
      DevicePut(s.dev, x, v);
    }
    if y < D.NIREGS {
      DevicePut(t.dev, y, w);
    }
    var s1, t1 := PutB(s, x, v), PutB(t, y, w);
    if s1.mon.clean {
      if x < D.NIREGS && D.IsPort(x) {
        assert Cell(s, x - 2) == Cell(t, x - 2);
      }
      forall a: Word | a !in s1.mon.dirty && !IsDeviceReg(a) ensures Cell(s1, a) == Cell(t1, a) {
        if a != x {
          assert Cell(s, a) == Cell(t, a);
        }
      }
    }
  }

  /** Registers may change together; the call stack, cycles and history do not matter to `Like`. */
  lemma SameBytes(s: State, s1: State, t: State, t1: State)
    requires Like(s, t) && (s.mon.clean ==> s1.r == t1.r)
    requires s1.ram == s.ram && s1.dev.iram == s.dev.iram && s1.mon == s.mon
    requires t1.ram == t.ram && t1.dev.iram == t.dev.iram && t1.mon == t.mon
    ensures Like(s1, t1)
  {
    if s1.mon.clean {
      forall a: Word | a !in s1.mon.dirty && !IsDeviceReg(a) ensures Cell(s1, a) == Cell(t1, a) {
        assert Cell(s, a) == Cell(t, a);
      }
    }
  }

  lemma ElapseLike(s: State, n: nat, t: State, m: nat)
    requires Like(s, t) && (s.mon.clean ==> n == m)
    ensures Like(Elapse(s, n), Elapse(t, m))
  {
    DeviceTick(s.dev, n);
    DeviceTick(t.dev, m);
    var s1, t1 := Elapse(s, n), Elapse(t, m);
    if s1.mon.clean {
      forall a: Word | a !in s1.mon.dirty && !IsDeviceReg(a) ensures Cell(s1, a) == Cell(t1, a) {
        assert Cell(s, a) == Cell(t, a);
      }
    }
  }

  // ---- what each kind must show ----

  lemma GetSim(k: Kind, s: State, x: nat, t: State, y: nat)
    requires Sim(k, s, t) && (Trusts(k, s) ==> x == y)
    ensures GotTo(k, s, GetB(s, x), GetB(t, y))
  {
    match k
    case Clean => GetLike(s, x, t, y);
    case Timer(d) =>
      if x < D.NIREGS {
        TimerCellsRead(s.dev, x);
      }
      hide D.Get;
    case _ =>
  }

  lemma PutSim(k: Kind, s: State, x: nat, v: Byte, t: State, y: nat, w: Byte)
    requires Sim(k, s, t) && (Trusts(k, s) ==> x == y && v == w)
    ensures To(k, s, PutB(s, x, v), PutB(t, y, w))
  {
    match k
    case Clean => PutLike(s, x, v, t, y, w);
    case Timer(d) =>
      if x < D.NIREGS {
        TimerCellsWritten(s.dev, x, v);
      }
      hide D.Put;
    case _ =>
  }

  lemma RegsSim(k: Kind, s: State, r: Regs, t: State, q: Regs)
    requires Sim(k, s, t) && (Trusts(k, s) ==> r == q)
    requires r.sp == s.r.sp
    ensures To(k, s, s.(r := r), t.(r := q))
  {
    if k == Clean {
      SameBytes(s, s.(r := r), t, t.(r := q));
    }
  }

  lemma SetSpSim(k: Kind, s: State, v: nat, t: State, w: nat)
    requires Sim(k, s, t) && (Trusts(k, s) ==> v == w)
    ensures To(k, s, SetSp(s, v), SetSp(t, w))
  {
    match k
    case Clean => SameBytes(s, SetSp(s, v), t, SetSp(t, w));
    case Stack => SetSpAgrees(s.cs, s.r.sp, s.hist, v);
    case _ =>
  }

  lemma CallSim(k: Kind, s: State, x: int, t: State, y: int)
    requires Sim(k, s, t) && (Trusts(k, s) ==> x == y)
    ensures To(k, s, CallPush(s, x), CallPush(t, y))
  {
    match k
    case Clean => SameBytes(s, CallPush(s, x), t, CallPush(t, y));
    case Stack => CallAgrees(s.cs, s.r.sp, s.hist, Mod32(x));
    case _ =>
  }

  lemma ElapseSim(k: Kind, s: State, n: nat, t: State, m: nat)
    requires !k.Timer? && !k.Cycles? && Sim(k, s, t) && (Trusts(k, s) ==> n == m)
    ensures To(k, s, Elapse(s, n), Elapse(t, m))
  {
    if k == Clean {
      ElapseLike(s, n, t, m);
    }
  }

  /** Register operations leave SP alone; only reg_setsp changes it. */
  lemma AluKeepsSp(r: Regs, op: AluOp, acc: Acc, m: Byte)
    ensures AluExec(r, op, acc, m).sp == r.sp
  {
    hide AddByteFlags, SubFlags, TestFlags, ByteOp;
  }

  lemma WideKeepsSp(r: Regs, op: WideOp, w: Word)
    ensures WideExec(r, op, w).sp == r.sp
  {
    hide AddFlags, SubFlags, CmpFlags, TestFlags;
  }

  lemma InhKeepsSp(r: Regs, op: InhOp)
    ensures InhExec(r, op).sp == r.sp
  {
    AluKeepsSp(r, ADD, A, r.b);
    AluKeepsSp(r, CMP, A, r.b);
    AluKeepsSp(r, SUB, A, r.b);
    AluKeepsSp(r, LDA, A, r.b);
    AluKeepsSp(r, LDA, B, r.a);
    hide AluExec, ShiftLeft, ShiftRight, ShiftFlags, DaaSum, DaaFlags, Product, Pack, Unpack;
  }

  // ---- everything else is composition ----

  lemma GetWSim(k: Kind, s: State, x: nat, t: State, y: nat)
    requires Sim(k, s, t) && (Trusts(k, s) ==> x == y)
    ensures GotWTo(k, s, GetW(s, x), GetW(t, y))
  {
    hide Sim, Trusts, GetB;
    GetSim(k, s, x, t, y);
    GetSim(k, GetB(s, x).s, x + 1, GetB(t, y).s, y + 1);
  }

  lemma PutWSim(k: Kind, s: State, x: nat, v: Word, t: State, y: nat, w: Word)
    requires Sim(k, s, t) && (Trusts(k, s) ==> x == y && v == w)
    ensures To(k, s, PutW(s, x, v), PutW(t, y, w))
  {
    hide Sim, Trusts, PutB;
    PutSim(k, s, x, Hi(v), t, y, Hi(w));
    PutSim(k, PutB(s, x, Hi(v)), x + 1, Lo(v), PutB(t, y, Hi(w)), y + 1, Lo(w));
  }

  lemma PushSim(k: Kind, s: State, v: Byte, t: State, w: Byte)
    requires Sim(k, s, t) && (Trusts(k, s) ==> v == w)
    ensures To(k, s, PushB(s, v), PushB(t, w))
  {
    hide Sim, Trusts, SetSp, PutB;
    SimRegs(k, s, t);
    SetSpSim(k, s, Minus1(s.r.sp), t, Minus1(t.r.sp));
    PutSim(k, SetSp(s, Minus1(s.r.sp)), s.r.sp, v, SetSp(t, Minus1(t.r.sp)), t.r.sp, w);
  }

  lemma PushWSim(k: Kind, s: State, v: Word, t: State, w: Word)
    requires Sim(k, s, t) && (Trusts(k, s) ==> v == w)
    ensures To(k, s, PushW(s, v), PushW(t, w))
  {
    hide Sim, Trusts, PushB;
    PushSim(k, s, Lo(v), t, Lo(w));
    PushSim(k, PushB(s, Lo(v)), Hi(v), PushB(t, Lo(w)), Hi(w));
  }

  lemma PopSim(k: Kind, s: State, t: State)
    requires Sim(k, s, t)
    ensures GotTo(k, s, PopB(s), PopB(t))
  {
    hide Sim, Trusts, SetSp, GetB;
    SimRegs(k, s, t);
    SetSpSim(k, s, s.r.sp + 1, t, t.r.sp + 1);
    var s1, t1 := SetSp(s, s.r.sp + 1), SetSp(t, t.r.sp + 1);
    GetSim(k, s1, s1.r.sp, t1, t1.r.sp);
  }

  lemma PopWSim(k: Kind, s: State, t: State)
    requires Sim(k, s, t)
    ensures GotWTo(k, s, PopW(s), PopW(t))
  {
    hide Sim, Trusts, PopB;
    PopSim(k, s, t);
    PopSim(k, PopB(s).s, PopB(t).s);
  }

  lemma PcSim(k: Kind, s: State, x: Word, t: State, y: Word)
    requires Sim(k, s, t) && (Trusts(k, s) ==> x == y)
    ensures To(k, s, WithPc(s, x), WithPc(t, y))
  {
    hide Sim, Trusts;
    SimRegs(k, s, t);
    RegsSim(k, s, s.r.(pc := x), t, t.r.(pc := y));
  }

  lemma FetchSim(k: Kind, s: State, t: State)
    requires Sim(k, s, t)
    ensures GotTo(k, s, FetchB(s), FetchB(t))
  {
    SimRegs(k, s, t);
    var x, y := Ahead(s.r.pc, 1), Ahead(t.r.pc, 1);
    hide Sim, Trusts, GetB, WithPc, Ahead;
    PcSim(k, s, x, t, y);
    GetSim(k, WithPc(s, x), s.r.pc, WithPc(t, y), t.r.pc);
  }

  lemma FetchWSim(k: Kind, s: State, t: State)
    requires Sim(k, s, t)
    ensures GotWTo(k, s, FetchW(s), FetchW(t))
  {
    SimRegs(k, s, t);
    var x, y := Ahead(s.r.pc, 2), Ahead(t.r.pc, 2);
    hide Sim, Trusts, GetW, WithPc, Ahead;
    PcSim(k, s, x, t, y);
    GetWSim(k, WithPc(s, x), s.r.pc, WithPc(t, y), t.r.pc);
  }

  lemma AddressSim(k: Kind, s: State, t: State, mode: Mode)
    requires Sim(k, s, t)
    ensures GotWTo(k, s, Address(s, mode), Address(t, mode))
  {
    hide Sim, Trusts, FetchB, FetchW;
    FetchSim(k, s, t);
    FetchWSim(k, s, t);
  }

  lemma OperandSim(k: Kind, s: State, t: State, mode: Mode)
    requires Sim(k, s, t)
    ensures GotTo(k, s, OperandB(s, mode), OperandB(t, mode))
  {
    hide Sim, Trusts, FetchB, Address, GetB;
    FetchSim(k, s, t);
    AddressSim(k, s, t, mode);
    var g, h := Address(s, mode), Address(t, mode);
    GetSim(k, g.s, g.w, h.s, h.w);
  }

  lemma OperandWSim(k: Kind, s: State, t: State, mode: Mode)
    requires Sim(k, s, t)
    ensures GotWTo(k, s, OperandW(s, mode), OperandW(t, mode))
  {
    hide Sim, Trusts, FetchW, Address, GetW;
    FetchWSim(k, s, t);
    AddressSim(k, s, t, mode);
    var g, h := Address(s, mode), Address(t, mode);
    GetWSim(k, g.s, g.w, h.s, h.w);
  }

  // ---- instructions ----

  lemma StackRegsSim(k: Kind, s: State, t: State)
    requires Sim(k, s, t)
    ensures To(k, s, StackRegs(s), StackRegs(t))
  {
    hide Sim, Trusts, PushB, PushW, Pack;
    SimRegs(k, s, t);
    var r, q := s.r, t.r;
    PushWSim(k, s, r.pc, t, q.pc);
    var s1, t1 := PushW(s, r.pc), PushW(t, q.pc);
    PushWSim(k, s1, r.ix, t1, q.ix);
    var s2, t2 := PushW(s1, r.ix), PushW(t1, q.ix);
    PushSim(k, s2, r.a, t2, q.a);
    var s3, t3 := PushB(s2, r.a), PushB(t2, q.a);
    PushSim(k, s3, r.b, t3, q.b);
    var s4, t4 := PushB(s3, r.b), PushB(t3, q.b);
    PushSim(k, s4, Pack(r.ccr), t4, Pack(q.ccr));
  }

  lemma IntSim(k: Kind, s: State, t: State, vector: Word)
    requires Sim(k, s, t)
    ensures To(k, s, IntAddr(s, vector), IntAddr(t, vector))
  {
    hide Sim, Trusts, StackRegs, GetW, WithPc, CallPush;
    StackRegsSim(k, s, t);
    GetWSim(k, StackRegs(s), vector, StackRegs(t), vector);
    var g, h := GetW(StackRegs(s), vector), GetW(StackRegs(t), vector);
    PcSim(k, g.s, g.w, h.s, h.w);
    CallSim(k, WithPc(g.s, g.w), g.w, WithPc(h.s, h.w), h.w);
    var s1, t1 := CallPush(WithPc(g.s, g.w), g.w), CallPush(WithPc(h.s, h.w), h.w);
    RegsSim(k, s1, s1.r.(ccr := s1.r.ccr.(i := true)), t1, t1.r.(ccr := t1.r.ccr.(i := true)));
  }

  lemma RtiSim(k: Kind, s: State, t: State)
    requires Sim(k, s, t)
    ensures To(k, s, RtiExec(s), RtiExec(t))
  {
    hide Sim, Trusts, PopB, PopW, WithPc, Unpack;
    PopSim(k, s, t);
    var g1, h1 := PopB(s), PopB(t);
    var s1, t1 := g1.s.(r := g1.s.r.(ccr := Unpack(g1.v))), h1.s.(r := h1.s.r.(ccr := Unpack(h1.v)));
    RegsSim(k, g1.s, s1.r, h1.s, t1.r);
    PopSim(k, s1, t1);
    var g2, h2 := PopB(s1), PopB(t1);
    var s2, t2 := g2.s.(r := g2.s.r.(b := g2.v)), h2.s.(r := h2.s.r.(b := h2.v));
    RegsSim(k, g2.s, s2.r, h2.s, t2.r);
    PopSim(k, s2, t2);
    var g3, h3 := PopB(s2), PopB(t2);
    var s3, t3 := g3.s.(r := g3.s.r.(a := g3.v)), h3.s.(r := h3.s.r.(a := h3.v));
    RegsSim(k, g3.s, s3.r, h3.s, t3.r);
    PopWSim(k, s3, t3);
    var g4, h4 := PopW(s3), PopW(t3);
    var s4, t4 := g4.s.(r := g4.s.r.(ix := g4.w)), h4.s.(r := h4.s.r.(ix := h4.w));
    RegsSim(k, g4.s, s4.r, h4.s, t4.r);
    PopWSim(k, s4, t4);
    var g5, h5 := PopW(s4), PopW(t4);
    PcSim(k, g5.s, g5.w, h5.s, h5.w);
  }

  lemma JsrSim(k: Kind, s: State, x: int, t: State, y: int)
    requires Sim(k, s, t) && (Trusts(k, s) ==> x == y)
    ensures To(k, s, JsrAddr(s, x), JsrAddr(t, y))
  {
    hide Sim, Trusts, PushW, WithPc, CallPush;
    SimRegs(k, s, t);
    PushWSim(k, s, s.r.pc, t, t.r.pc);
    var s1, t1 := PushW(s, s.r.pc), PushW(t, t.r.pc);
    PcSim(k, s1, x % 0x1_0000, t1, y % 0x1_0000);
    CallSim(k, WithPc(s1, x % 0x1_0000), x, WithPc(t1, y % 0x1_0000), y);
  }

  ghost predicate ArgTo(k: Kind, s: State, g: ImmMemArg, h: ImmMemArg)
  {
    To(k, s, g.s, h.s) && (Trusts(k, g.s) ==> g.addr == h.addr && g.v == h.v)
  }

  lemma ImmMemOperandsSim(k: Kind, s: State, t: State, indexed: bool)
    requires Sim(k, s, t)
    ensures ArgTo(k, s, ImmMemOperands(s, indexed), ImmMemOperands(t, indexed))
  {
    hide Sim, Trusts, GetB;
    SimRegs(k, s, t);
    GetSim(k, s, s.r.pc, t, t.r.pc);
    var g, h := GetB(s, s.r.pc), GetB(t, t.r.pc);
    GetSim(k, g.s, s.r.pc + 1, h.s, t.r.pc + 1);
  }

  lemma ImmMemReadSim(k: Kind, s: State, t: State, op: Bitwise, indexed: bool)
    requires Sim(k, s, t)
    ensures ArgTo(k, s, ImmMemRead(s, op, indexed), ImmMemRead(t, op, indexed))
  {
    hide Sim, Trusts, GetB, ImmMemOperands, ByteOp;
    ImmMemOperandsSim(k, s, t, indexed);
    var g, h := ImmMemOperands(s, indexed), ImmMemOperands(t, indexed);
    GetSim(k, g.s, g.addr, h.s, h.addr);
  }

  lemma ImmMemWriteSim(k: Kind, s: State, t: State, x: nat, y: nat, v: Byte, w: Byte, store: bool)
    requires Sim(k, s, t) && (Trusts(k, s) ==> x == y && v == w)
    ensures To(k, s, ImmMemWrite(s, x, v, store), ImmMemWrite(t, y, w, store))
  {
    hide Sim, Trusts, PutB, WithPc, Ahead, TestFlags;
    SimRegs(k, s, t);
    var s1 := s.(r := s.r.(ccr := TestFlags(s.r.ccr, v, 0x100)));
    var t1 := t.(r := t.r.(ccr := TestFlags(t.r.ccr, w, 0x100)));
    RegsSim(k, s, s1.r, t, t1.r);
    PutSim(k, s1, x, v, t1, y, w);
    var s2 := if store then PutB(s1, x, v) else s1;
    var t2 := if store then PutB(t1, y, w) else t1;
    PcSim(k, s2, Ahead(s2.r.pc, 2), t2, Ahead(t2.r.pc, 2));
  }

  lemma ImmMemSim(k: Kind, s: State, t: State, op: Bitwise, store: bool, indexed: bool)
    requires Sim(k, s, t)
    ensures To(k, s, ImmMemExec(s, op, store, indexed), ImmMemExec(t, op, store, indexed))
  {
    hide Sim, Trusts, ImmMemRead, ImmMemWrite;
    ImmMemReadSim(k, s, t, op, indexed);
    var g, h := ImmMemRead(s, op, indexed), ImmMemRead(t, op, indexed);
    ImmMemWriteSim(k, g.s, h.s, g.addr, h.addr, g.v, h.v, store);
  }

  lemma ExecAlu(s: State, op: AluOp, acc: Acc, mode: Mode)
    ensures var g := OperandB(s, mode);
      Exec(s, Alu(op, acc, mode)) == g.s.(r := AluExec(g.s.r, op, acc, g.v))
  {
    hide OperandB, AluExec;
  }

  lemma AluSim(k: Kind, s: State, t: State, op: AluOp, acc: Acc, mode: Mode)
    requires Sim(k, s, t)
    ensures To(k, s, Exec(s, Alu(op, acc, mode)), Exec(t, Alu(op, acc, mode)))
  {
    hide Sim, Trusts, OperandB, AluExec, Exec;
    var g, h := OperandB(s, mode), OperandB(t, mode);
    ExecAlu(s, op, acc, mode);
    ExecAlu(t, op, acc, mode);
    AluKeepsSp(g.s.r, op, acc, g.v);
    OperandSim(k, s, t, mode);
    RegsSim(k, g.s, AluExec(g.s.r, op, acc, g.v), h.s, AluExec(h.s.r, op, acc, h.v));
  }

  lemma WideSim(k: Kind, s: State, t: State, op: WideOp, mode: Mode)
    requires Sim(k, s, t)
    ensures To(k, s, Exec(s, Wide(op, mode)), Exec(t, Wide(op, mode)))
  {
    var g, h := OperandW(s, mode), OperandW(t, mode);
    WideKeepsSp(g.s.r, op, g.w);
    hide Sim, Trusts, OperandW, WideExec, SetSp;
    OperandWSim(k, s, t, mode);
    RegsSim(k, g.s, WideExec(g.s.r, op, g.w), h.s, WideExec(h.s.r, op, h.w));
    SetSpSim(k, g.s.(r := WideExec(g.s.r, op, g.w)), g.w, h.s.(r := WideExec(h.s.r, op, h.w)), h.w);
  }

  lemma StoreSim(k: Kind, s: State, t: State, acc: Acc, mode: Mode)
    requires Sim(k, s, t)
    ensures To(k, s, Exec(s, Store(acc, mode)), Exec(t, Store(acc, mode)))
  {
    hide Sim, Trusts, Address, PutB, TestFlags;
    AddressSim(k, s, t, mode);
    var g, h := Address(s, mode), Address(t, mode);
    var v, w := GetAcc(g.s.r, acc), GetAcc(h.s.r, acc);
    var r, q := g.s.r.(ccr := TestFlags(g.s.r.ccr, v, 0x100)), h.s.r.(ccr := TestFlags(h.s.r.ccr, w, 0x100));
    RegsSim(k, g.s, r, h.s, q);
    PutSim(k, g.s.(r := r), g.w, v, h.s.(r := q), h.w, w);
  }

  lemma StoreWideSim(k: Kind, s: State, t: State, reg: WideReg, mode: Mode)
    requires Sim(k, s, t)
    ensures To(k, s, Exec(s, StoreWide(reg, mode)), Exec(t, StoreWide(reg, mode)))
  {
    hide Sim, Trusts, Address, PutW, TestFlags;
    AddressSim(k, s, t, mode);
    var g, h := Address(s, mode), Address(t, mode);
    var v, w := WideValue(g.s.r, reg), WideValue(h.s.r, reg);
    var r, q := g.s.r.(ccr := TestFlags(g.s.r.ccr, v, 0x1_0000)), h.s.r.(ccr := TestFlags(h.s.r.ccr, w, 0x1_0000));
    RegsSim(k, g.s, r, h.s, q);
    PutWSim(k, g.s.(r := r), g.w, v, h.s.(r := q), h.w, w);
  }

  lemma RmwMemSim(k: Kind, s: State, t: State, op: RmwOp, mode: Mode)
    requires Sim(k, s, t)
    ensures To(k, s, Exec(s, RmwMem(op, mode)), Exec(t, RmwMem(op, mode)))
  {
    hide Sim, Trusts, Address, GetB, PutB, RmwExec;
    AddressSim(k, s, t, mode);
    var g, h := Address(s, mode), Address(t, mode);
    GetSim(k, g.s, g.w, h.s, h.w);
    var m, n := GetB(g.s, g.w), GetB(h.s, h.w);
    var x, y := RmwExec(m.s.r.ccr, op, m.v), RmwExec(n.s.r.ccr, op, n.v);
    RegsSim(k, m.s, m.s.r.(ccr := x.f), n.s, n.s.r.(ccr := y.f));
    PutSim(k, m.s.(r := m.s.r.(ccr := x.f)), g.w, x.v, n.s.(r := n.s.r.(ccr := y.f)), h.w, y.v);
  }

  lemma RegisterSim(k: Kind, s: State, t: State, f: Func)
    requires Sim(k, s, t) && (f.RmwAcc? || f.Inh?)
    ensures To(k, s, Exec(s, f), Exec(t, f))
  {
    SimRegs(k, s, t);
    match f
    case RmwAcc(op, acc) =>
      hide Sim, Trusts, RmwExec;
      RegsSim(k, s, Exec(s, f).r, t, Exec(t, f).r);
    case Inh(op) =>
      InhKeepsSp(s.r, op);
      hide Sim, Trusts, InhExec;
      RegsSim(k, s, InhExec(s.r, op), t, InhExec(t.r, op));
  }

  lemma BranchSim(k: Kind, s: State, t: State, c: Cond)
    requires Sim(k, s, t)
    ensures To(k, s, Exec(s, Branch(c)), Exec(t, Branch(c)))
  {
    hide Sim, Trusts, Taken, FetchB, WithPc, Ahead, Signed8;
    FetchSim(k, s, t);
    var g, h := FetchB(s), FetchB(t);
    var x := Ahead(g.s.r.pc, if Taken(c, g.s.r.ccr) then Signed8(g.v) else 0);
    var y := Ahead(h.s.r.pc, if Taken(c, h.s.r.ccr) then Signed8(h.v) else 0);
    PcSim(k, g.s, x, h.s, y);
  }

  lemma BsrSim(k: Kind, s: State, t: State)
    requires Sim(k, s, t)
    ensures To(k, s, Exec(s, Bsr), Exec(t, Bsr))
  {
    hide Sim, Trusts, FetchB, JsrAddr, Signed8;
    FetchSim(k, s, t);
    var g, h := FetchB(s), FetchB(t);
    JsrSim(k, g.s, Signed8(g.v) + g.s.r.pc, h.s, Signed8(h.v) + h.s.r.pc);
  }

  lemma JmpSim(k: Kind, s: State, t: State, mode: Mode)
    requires Sim(k, s, t)
    ensures To(k, s, Exec(s, Jmp(mode)), Exec(t, Jmp(mode)))
  {
    hide Sim, Trusts, Address, WithPc;
    AddressSim(k, s, t, mode);
    var g, h := Address(s, mode), Address(t, mode);
    PcSim(k, g.s, g.w, h.s, h.w);
  }

  lemma JsrExecSim(k: Kind, s: State, t: State, mode: Mode)
    requires Sim(k, s, t)
    ensures To(k, s, Exec(s, Jsr(mode)), Exec(t, Jsr(mode)))
  {
    hide Sim, Trusts, Address, JsrAddr;
    AddressSim(k, s, t, mode);
    var g, h := Address(s, mode), Address(t, mode);
    JsrSim(k, g.s, g.w, h.s, h.w);
  }

  lemma RtsSim(k: Kind, s: State, t: State)
    requires Sim(k, s, t)
    ensures To(k, s, RtsExec(s), RtsExec(t))
  {
    hide Sim, Trusts, PopW, WithPc;
    PopWSim(k, s, t);
    PcSim(k, PopW(s).s, PopW(s).w, PopW(t).s, PopW(t).w);
  }

  lemma PullSim(k: Kind, s: State, t: State, f: Func)
    requires Sim(k, s, t) && (f.Pul? || f.Pulx?)
    ensures To(k, s, Exec(s, f), Exec(t, f))
  {
    hide Sim, Trusts, PopB, PopW;
    match f
    case Pul(acc) =>
      PopSim(k, s, t);
      var g, h := PopB(s), PopB(t);
      RegsSim(k, g.s, SetAcc(g.s.r, acc, g.v), h.s, SetAcc(h.s.r, acc, h.v));
    case Pulx =>
      PopWSim(k, s, t);
      var g, h := PopW(s), PopW(t);
      RegsSim(k, g.s, g.s.r.(ix := g.w), h.s, h.s.r.(ix := h.w));
  }

  lemma TransferSim(k: Kind, s: State, t: State, f: Func)
    requires Sim(k, s, t) && (f.Trap? || f.Swi? || f.Rts? || f.Rti?)
    ensures To(k, s, Exec(s, f), Exec(t, f))
  {
    hide Sim, Trusts, IntAddr, RtiExec, RtsExec;
    match f
    case Trap => IntSim(k, s, t, 0xFFEE);
    case Swi => IntSim(k, s, t, 0xFFFA);
    case Rts => RtsSim(k, s, t);
    case Rti => RtiSim(k, s, t);
  }

  lemma PshSim(k: Kind, s: State, t: State, f: Func)
    requires Sim(k, s, t) && (f.Psh? || f.Pshx?)
    ensures To(k, s, Exec(s, f), Exec(t, f))
  {
    hide Sim, Trusts, PushB, PushW;
    SimRegs(k, s, t);
    match f
    case Psh(acc) => PushSim(k, s, GetAcc(s.r, acc), t, GetAcc(t.r, acc));
    case Pshx => PushWSim(k, s, s.r.ix, t, t.r.ix);
  }

  lemma SpExecSim(k: Kind, s: State, t: State, f: Func)
    requires Sim(k, s, t) && (f.Ins? || f.Des? || f.Txs?)
    ensures To(k, s, Exec(s, f), Exec(t, f))
  {
    hide Sim, Trusts, SetSp, Minus1;
    SimRegs(k, s, t);
    match f
    case Ins => SetSpSim(k, s, s.r.sp + 1, t, t.r.sp + 1);
    case Des => SetSpSim(k, s, Minus1(s.r.sp), t, Minus1(t.r.sp));
    case Txs => SetSpSim(k, s, Minus1(s.r.ix), t, Minus1(t.r.ix));
  }

  lemma NopSim(k: Kind, s: State, t: State)
    requires Sim(k, s, t)
    ensures To(k, s, Exec(s, Nop), Exec(t, Nop))
  {
    SimRegs(k, s, t);
    hide Sim;
  }

  lemma ImmMemExecSim(k: Kind, s: State, t: State, op: Bitwise, store: bool, indexed: bool)
    requires Sim(k, s, t)
    ensures To(k, s, Exec(s, ImmMem(op, store, indexed)), Exec(t, ImmMem(op, store, indexed)))
  {
    hide Sim, Trusts, ImmMemExec;
    ImmMemSim(k, s, t, op, store, indexed);
  }

  /** Every instruction keeps the relation. */
  lemma ExecSim(k: Kind, s: State, t: State, f: Func)
    requires Sim(k, s, t)
    ensures To(k, s, Exec(s, f), Exec(t, f))
  {
    hide *;
    match f
    case Nop => NopSim(k, s, t);
    case Alu(op, acc, mode) => AluSim(k, s, t, op, acc, mode);
    case Wide(op, mode) => WideSim(k, s, t, op, mode);
    case Store(acc, mode) => StoreSim(k, s, t, acc, mode);
    case StoreWide(reg, mode) => StoreWideSim(k, s, t, reg, mode);
    case RmwMem(op, mode) => RmwMemSim(k, s, t, op, mode);
    case RmwAcc(_, _) => RegisterSim(k, s, t, f);
    case ImmMem(op, store, indexed) => ImmMemExecSim(k, s, t, op, store, indexed);
    case Inh(_) => RegisterSim(k, s, t, f);
    case Branch(c) => BranchSim(k, s, t, c);
    case Bsr => BsrSim(k, s, t);
    case Jmp(mode) => JmpSim(k, s, t, mode);
    case Jsr(mode) => JsrExecSim(k, s, t, mode);
    case Pul(_) => PullSim(k, s, t, f);
    case Pulx => PullSim(k, s, t, f);
    case Psh(_) => PshSim(k, s, t, f);
    case Pshx => PshSim(k, s, t, f);
    case Ins => SpExecSim(k, s, t, f);
    case Des => SpExecSim(k, s, t, f);
    case Txs => SpExecSim(k, s, t, f);
    case _ => TransferSim(k, s, t, f);
  }

  /** The opcodes fetched from two related states may differ once the relation is not trusted. */
  lemma ExecAnySim(k: Kind, s: State, f: Func, t: State, h: Func)
    requires Sim(k, s, t) && (Trusts(k, s) ==> f == h)
    ensures To(k, s, Exec(s, f), Exec(t, h))
  {
    hide Exec;
    ExecSim(k, s, t, f);
  }

  /** One instruction, fetch to timers, preserves the relation whatever the devices hold. */
  lemma ExecNextSim(k: Kind, s: State, t: State)
    requires !k.Timer? && !k.Cycles? && Sim(k, s, t)
    ensures To(k, s, ExecNext(s), ExecNext(t))
  {
    hide Exec, Opcodetab, FetchB, Sim, Trusts, Elapse;
    FetchSim(k, s, t);
    var g, h := FetchB(s), FetchB(t);
    var o, p := Opcodetab(g.v), Opcodetab(h.v);
    ExecAnySim(k, g.s, o.f, h.s, p.f);
    ElapseSim(k, Exec(g.s, o.f), o.cycles, Exec(h.s, p.f), p.cycles);
  }

  lemma InterruptSim(k: Kind, s: State, t: State, vector: Word)
    requires !k.Timer? && !k.Cycles? && Sim(k, s, t)
    ensures To(k, s, Elapse(IntAddr(s, vector), SWI_CYCLES), Elapse(IntAddr(t, vector), SWI_CYCLES))
  {
    hide Sim, Trusts, IntAddr, Elapse;
    IntSim(k, s, t, vector);
    ElapseSim(k, IntAddr(s, vector), SWI_CYCLES, IntAddr(t, vector), SWI_CYCLES);
  }

  lemma StepCases(s: State)
    ensures Interrupting(s).None? ==> Step(s) == ExecNext(s)
    ensures Interrupting(s).Vector? ==> Step(s) == Elapse(IntAddr(s, Interrupting(s).addr), SWI_CYCLES)
  {
    hide ExecNext, IntAddr, Interrupting, Elapse;
  }

  /** Neither history variable influences execution. */
  lemma StepCore(s: State, t: State)
    requires SameCore(s, t)
    ensures SameCore(Step(s), Step(t))
  {
    hide ExecNext, IntAddr, Elapse, D.Pending;
    StepCases(s);
    StepCases(t);
    match Interrupting(s)
    case Vector(v) => InterruptSim(Core, s, t, v);
    case None => ExecNextSim(Core, s, t);
  }

  /** Nor a whole run. */
  lemma {:induction false} RunCore(s: State, t: State, n: nat)
    requires SameCore(s, t)
    ensures SameCore(Steps(s, n), Steps(t, n))
    decreases n
  {
    hide *;
    if n == 0 {
      StepsZero(s);
      StepsZero(t);
    } else {
      StepsUnfold(s, n);
      StepsUnfold(t, n);
      StepCore(s, t);
      RunCore(Step(s), Step(t), n - 1);
    }
  }

  /** One call of instr_exec, whatever the opcode or interrupt, keeps the call stack equal to
      its history definition, including when SP wraps. */
  lemma StepTracks(s: State)
    requires Tracks(s)
    ensures Tracks(Step(s))
  {
    hide ExecNext, IntAddr, Elapse, Interrupting, Agrees;
    StepCases(s);
    match Interrupting(s)
    case Vector(v) => InterruptSim(Stack, s, s, v);
    case None => ExecNextSim(Stack, s, s);
  }
}
