// The arithmetic loops of Loops.dfy under interrupts: what they read and write, instruction by
// instruction (src/arch/h6303/instr.c, src/arch/m68xx/opfunc.c).

module InterruptedLoops {
  import opened Words
  import opened Alu
  import opened Optab
  import opened Machine
  import opened Arithmetic
  import opened Loops
  import opened Interrupts
  import D = Device

  // ---- what single instructions read and write ----

  /** A RAM address that may be read without a trace. */
  predicate Safe(m: Monitor, addr: int)
  {
    m.clean && addr !in m.dirty && addr >= D.NIREGS
  }

  lemma FetchMon(s: State)
    requires s.r.pc + 1 < MEMSIZE && Safe(s.mon, s.r.pc)
    ensures var g := FetchB(s);
      g.s.mon == s.mon && g.s.ram == s.ram && g.s.r == s.r.(pc := s.r.pc + 1) && g.v == s.ram[s.r.pc]
  {
  }

  lemma IndexedMon(s: State, addr: nat)
    requires s.r.pc + 1 < MEMSIZE && Safe(s.mon, s.r.pc)
    requires addr < MEMSIZE && addr == s.ram[s.r.pc] + s.r.ix
    ensures Address(s, Ix).s.mon == s.mon && Address(s, Ix).w == addr
    ensures Safe(s.mon, addr) ==> OperandB(s, Ix).s.mon == s.mon
  {
    FetchMon(s);
    hide FetchB;
  }

  /** The monitor after an instruction is the one its execution leaves. */
  lemma NextMon(s: State, op: Byte, len: nat)
    requires At(s, op, len) && Safe(s.mon, s.r.pc)
    ensures var u := FetchB(s).s;
      && u.mon == s.mon && u.ram == s.ram && u.r == s.r.(pc := s.r.pc + 1)
      && ExecNext(s).mon == Exec(u, Opcodetab(op).f).mon
  {
    FetchMon(s);
    hide FetchB, Opcodetab, Exec, D.Tick;
  }

  lemma AluMon(s: State, op: Byte, aop: AluOp, addr: nat)
    requires At(s, op, 2) && Indexed(s, addr) && Opcodetab(op).f == Alu(aop, A, Ix)
    requires Safe(s.mon, s.r.pc) && Safe(s.mon, s.r.pc + 1) && Safe(s.mon, addr)
    ensures ExecNext(s).mon == s.mon
  {
    NextMon(s, op, 2);
    IndexedMon(FetchB(s).s, addr);
    hide FetchB, Opcodetab, ExecNext, OperandB, AluExec;
  }

  lemma StoreMon(s: State, addr: nat)
    requires At(s, 0xA7, 2) && Indexed(s, addr)
    requires Safe(s.mon, s.r.pc) && Safe(s.mon, s.r.pc + 1)
    ensures ExecNext(s).mon == NoteWrite(s.mon, addr)
  {
    hide FetchB, Opcodetab, ExecNext, Address, TestFlags;
    Decoded();
    NextMon(s, 0xA7, 2);
    IndexedMon(FetchB(s).s, addr);
  }

  lemma RolMon(s: State, addr: nat)
    requires At(s, 0x69, 2) && Indexed(s, addr)
    requires Safe(s.mon, s.r.pc) && Safe(s.mon, s.r.pc + 1) && Safe(s.mon, addr)
    ensures ExecNext(s).mon == NoteWrite(s.mon, addr)
  {
    hide FetchB, Opcodetab, ExecNext, Exec, Address, OperandB;
    Decoded();
    NextMon(s, 0x69, 2);
    IndexedMon(FetchB(s).s, addr);
    RolExecMon(FetchB(s).s, addr);
  }

  lemma RolExecMon(u: State, addr: nat)
    requires D.NIREGS <= addr < MEMSIZE && Safe(u.mon, addr)
    requires Address(u, Ix).s.mon == u.mon && Address(u, Ix).w == addr
    ensures Exec(u, RmwMem(ROL, Ix)).mon == NoteWrite(u.mon, addr)
  {
    hide Address, RmwExec;
  }

  lemma InherentMon(s: State, op: Byte)
    requires At(s, op, 1) && Opcodetab(op).f.Inh? && Safe(s.mon, s.r.pc)
    ensures ExecNext(s).mon == s.mon
  {
    NextMon(s, op, 1);
    hide FetchB, Opcodetab, ExecNext, InhExec;
  }

  lemma BneMon(s: State)
    requires At(s, 0x26, 2) && Safe(s.mon, s.r.pc) && Safe(s.mon, s.r.pc + 1)
    ensures ExecNext(s).mon == s.mon
  {
    hide FetchB, Opcodetab, ExecNext, Ahead, Signed8;
    Decoded();
    NextMon(s, 0x26, 2);
    FetchMon(FetchB(s).s);
  }

  // ---- the bytes of a loop ----

  /** Code, operands and results of a loop over `n` bytes. */
  predicate Uses(l: Loop, n: nat, a: int)
  {
    l.p <= a < l.p + l.Size() || l.d1 < a <= l.d1 + n || l.d2 < a <= l.d2 + n || l.d3 < a <= l.d3 + n
  }

  function Own(l: Loop, n: nat): set<int>
  {
    set a: Word | 0 <= a < MEMSIZE && Uses(l, n, a)
  }

  /** The loop relies on those bytes alone; handlers may change any other. */
  function OwnBytes(l: Loop, n: nat): Area
  {
    Area(Own(l, n), false)
  }

  /** Where a loop is: which of its instructions is next. */
  datatype Stage = Load | Combine | Adjust | Save | Rotate | Count | Back

  /** Address of the stage, from the start of the loop. */
  function Offset(k: Kernel, g: Stage): nat
  {
    var size := match k case ROL_ => 5 case ADC_DAA => 10 case _ => 9;
    match g
    case Load => 0
    case Combine => 2
    case Adjust => 4
    case Save => size - 5
    case Rotate => 0
    case Count => size - 3
    case Back => size - 2
  }

  /** Instructions left in the pass, this one included. */
  function Left(k: Kernel, g: Stage): nat
  {
    match g
    case Load => PassLength(k)
    case Combine => PassLength(k) - 1
    case Adjust => 4
    case Save => 3
    case Rotate => 3
    case Count => 2
    case Back => 1
  }

  predicate Occurs(k: Kernel, g: Stage)
  {
    match g
    case Rotate => k == ROL_
    case Adjust => k == ADC_DAA
    case Load => k != ROL_
    case Combine => k != ROL_
    case Save => k != ROL_
    case _ => true
  }

  /** The machine is at stage `g` of the pass with X = x. */
  predicate AtStage(l: Loop, t: State, x: nat, g: Stage)
  {
    && l.Loaded(t.ram) && l.Fits(x) && x > 0 && Occurs(l.k, g)
    && t.r.pc == l.p + Offset(l.k, g)
    && t.r.ix == (if g == Back then x - 1 else x)
    && (g == Back ==> t.r.ccr.z == (x == 1))
  }

  /** The facts of a stage's state that its instruction needs. */
  predicate StageCode(l: Loop, t: State, x: nat, g: Stage)
  {
    && D.NIREGS <= t.r.pc && t.r.pc + 2 <= l.p + l.Size() < MEMSIZE
    && l.p <= t.r.pc
    && match g
       case Load => t.ram[t.r.pc] == 0xA6 && Indexed(t, l.d1 + x)
       case Combine => t.ram[t.r.pc] == (if l.k == SBC_ then 0xA2 else 0xA9) && Indexed(t, l.d2 + x)
       case Adjust => t.ram[t.r.pc] == 0x19
       case Save => t.ram[t.r.pc] == 0xA7 && Indexed(t, l.d3 + x)
       case Rotate => t.ram[t.r.pc] == 0x69 && Indexed(t, l.d3 + x)
       case Count => t.ram[t.r.pc] == 0x09
       case Back => t.ram[t.r.pc] == 0x26 && t.ram[t.r.pc + 1] == 0x100 - l.Size()
  }

  lemma StageFacts(l: Loop, t: State, x: nat, g: Stage)
    requires AtStage(l, t, x, g)
    ensures StageCode(l, t, x, g)
  {
    Sizes(l);
    CodeBytes(l, t.ram, l.p + l.Size() - if l.k == ROL_ then 3 else 5);
    FitsAt(l, x);
    hide Code, Loop.Loaded, Loop.Fits;
  }

  /** The bytes that the loop uses are safe under a monitor that exposes all others. */
  lemma SafeBytes(l: Loop, n: nat, x: nat, m: Monitor, sp: Word)
    requires l.p + l.Size() < MEMSIZE && D.NIREGS <= l.p && l.Fits(n) && 0 < x <= n
    requires m == Monitor(Exposed(OwnBytes(l, n), sp), true)
    ensures forall a | l.p <= a < l.p + l.Size() :: Safe(m, a)
    ensures Safe(m, l.d1 + x) && Safe(m, l.d2 + x) && Safe(m, l.d3 + x)
  {
    FitsAt(l, n);
    hide Code;
  }

  /** Every instruction of a loop is quiet: it relies on the loop's own bytes alone. */
  lemma StageQuiet(l: Loop, n: nat, t: State, x: nat, g: Stage)
    requires AtStage(l, t, x, g) && l.Fits(n) && x <= n
    ensures Quiet(t, OwnBytes(l, n))
  {
    var w := Watched(t, OwnBytes(l, n));
    StageFacts(l, t, x, g);
    SafeBytes(l, n, x, w.mon, t.r.sp);
    StageMon(l, w, x, g);
    MonQuiet(l, n, t);
  }

  lemma StageMon(l: Loop, w: State, x: nat, g: Stage)
    requires StageCode(l, w, x, g) && D.NIREGS <= l.p
    requires forall a | l.p <= a < l.p + l.Size() :: Safe(w.mon, a)
    requires Safe(w.mon, l.d1 + x) && Safe(w.mon, l.d2 + x) && Safe(w.mon, l.d3 + x)
    ensures ExecNext(w).mon.clean && ExecNext(w).mon.dirty <= w.mon.dirty
  {
    hide ExecNext, Opcodetab, Safe, Code;
    Decoded();
    SafeClean(w.mon, l.d1 + x);
    match g
    case Load => AluMon(w, 0xA6, LDA, l.d1 + x);
    case Combine => AluMon(w, w.ram[w.r.pc], if l.k == SBC_ then SBC else ADC, l.d2 + x);
    case Adjust => InherentMon(w, 0x19);
    case Save => StoreMon(w, l.d3 + x);
    case Rotate => RolMon(w, l.d3 + x);
    case Count => InherentMon(w, 0x09);
    case Back => BneMon(w);
  }

  lemma SafeClean(m: Monitor, a: int)
    requires Safe(m, a)
    ensures m.clean
  {
  }

  lemma MonQuiet(l: Loop, n: nat, t: State)
    requires var q := ExecNext(Watched(t, OwnBytes(l, n)));
      q.mon.clean && q.mon.dirty <= Exposed(OwnBytes(l, n), t.r.sp)
    ensures Quiet(t, OwnBytes(l, n))
  {
    hide ExecNext, Own;
    var q := ExecNext(t.(mon := Monitor(Exposed(OwnBytes(l, n), t.r.sp), true)));
    assert Exposed(OwnBytes(l, n), t.r.sp) == Exposed(OwnBytes(l, n), q.r.sp);
  }

  // ---- from instruction to instruction ----

  function NextStage(k: Kernel, g: Stage): Stage
  {
    match g
    case Load => Combine
    case Combine => if k == ADC_DAA then Adjust else Save
    case Adjust => Save
    case Save => Count
    case Rotate => Count
    case Count => Back
    case Back => if k == ROL_ then Rotate else Load
  }

  /** Bytes of the instruction. */
  function Len(g: Stage): nat
  {
    if g == Adjust || g == Count then 1 else 2
  }

  lemma Successor(k: Kernel, g: Stage)
    requires Occurs(k, g)
    ensures var h := NextStage(k, g);
      && Occurs(k, h) && (h == Back <==> g == Count)
      && Offset(k, h) == if g == Back then 0 else Offset(k, g) + Len(g)
  {
  }

  lemma StillThere(l: Loop, t: State, x: nat, v: Byte)
    requires l.Loaded(t.ram) && l.Fits(x) && x > 0
    ensures l.d3 + x < MEMSIZE && l.Loaded(t.ram[l.d3 + x := v])
  {
    FitsAt(l, x);
    var r := t.ram[l.d3 + x := v];
    assert r[l.p..l.p + l.Size()] == t.ram[l.p..l.p + l.Size()];
    hide Code;
  }

  /** What the instruction at a stage does to PC, X, Z and the code. */
  predicate Moved(l: Loop, t: State, x: nat, g: Stage, u: State)
  {
    && l.Loaded(u.ram)
    && u.r.ix == (if g == Count then t.r.ix - 1 else t.r.ix)
    && (g == Count ==> u.r.ccr.z == (x == 1))
    && u.r.pc == if g == Back && x > 1 then l.p else t.r.pc + Len(g)
  }

  lemma StageStep(l: Loop, t: State, x: nat, g: Stage)
    requires AtStage(l, t, x, g)
    ensures Moved(l, t, x, g, ExecNext(t))
  {
    StageFacts(l, t, x, g);
    Sizes(l);
    hide ExecNext, Moved, Code, StageCode;
    match g
    case Save => StoreStage(l, t, x, g);
    case Rotate => StoreStage(l, t, x, g);
    case Count => BackStage(l, t, x, g);
    case Back => BackStage(l, t, x, g);
    case _ => ReadStage(l, t, x, g);
  }

  lemma ReadStage(l: Loop, t: State, x: nat, g: Stage)
    requires StageCode(l, t, x, g) && l.Loaded(t.ram) && (g == Load || g == Combine || g == Adjust)
    ensures Moved(l, t, x, g, ExecNext(t))
  {
    hide ExecNext, Opcodetab, Apply, Code, Loop.Loaded, Loop.Fits;
    match g
    case Load => var u := LdaaNext(t, l.d1 + x);
    case Combine =>
      if l.k == SBC_ {
        var u := SbcaNext(t, l.d2 + x);
      } else {
        var u := AdcaNext(t, l.d2 + x);
      }
    case Adjust => var u := AdjustNext(t);
  }

  lemma StoreStage(l: Loop, t: State, x: nat, g: Stage)
    requires StageCode(l, t, x, g) && l.Loaded(t.ram) && l.Fits(x) && x > 0 && (g == Save || g == Rotate)
    ensures Moved(l, t, x, g, ExecNext(t))
  {
    hide ExecNext, Opcodetab, Apply, Code, Loop.Loaded, Loop.Fits;
    if g == Save {
      StillThere(l, t, x, t.r.a);
      var u := StaaNext(t, l.d3 + x);
    } else {
      StillThere(l, t, x, Apply(ROL_, t.ram[l.d3 + x], t.ram[l.d3 + x], t.r.ccr.c).z);
      var u := RolNext(t, l.d3 + x);
    }
  }

  lemma BackStage(l: Loop, t: State, x: nat, g: Stage)
    requires StageCode(l, t, x, g) && l.Loaded(t.ram) && (g == Count || g == Back) && x > 0
    requires t.r.ix == (if g == Back then x - 1 else x) && (g == Back ==> t.r.ccr.z == (x == 1))
    requires g == Back ==> t.r.pc == l.p + l.Size() - 2
    ensures Moved(l, t, x, g, ExecNext(t))
  {
    Sizes(l);
    hide ExecNext, Opcodetab, Code, Loop.Loaded, Loop.Fits;
    if g == Count {
      var u := DexNext(t);
    } else {
      var u := BneNext(t, l.Size());
    }
  }

  /** daa changes A and flags only. */
  lemma AdjustNext(s: State) returns (t: State)
    requires At(s, 0x19, 1)
    ensures t.r.pc == s.r.pc + 1 && t.r.ix == s.r.ix && t.ram == s.ram
    ensures t == ExecNext(s)
  {
    hide ExecNext, Opcodetab, DaaSum, DaaFlags;
    t := ExecNext(s);
    Decoded();
    Fetch(s, 0x19, 1);
    NextIs(s, 0x19, 1);
    hide FetchB;
  }

  lemma StageNext(l: Loop, t: State, x: nat, g: Stage)
    requires AtStage(l, t, x, g) && !(g == Back && x == 1)
    ensures AtStage(l, ExecNext(t), if g == Back then x - 1 else x, NextStage(l.k, g))
  {
    hide ExecNext, Code, Loop.Loaded, Loop.Fits, Offset, Occurs, NextStage, Len;
    StageStep(l, t, x, g);
    Successor(l.k, g);
    if g == Back {
      Fewer(l, x);
    }
  }

  /** Instructions left in the loop. */
  function Remaining(k: Kernel, x: nat, g: Stage): int
    requires x > 0
  {
    (x - 1) * PassLength(k) + Left(k, g)
  }

  lemma OneLess(k: Kernel, x: nat, g: Stage)
    requires x > 0 && Occurs(k, g)
    ensures Remaining(k, x, g) > 0
    ensures g == Back && x == 1 ==> Remaining(k, x, g) == 1
    ensures !(g == Back && x == 1) ==>
      Remaining(k, if g == Back then x - 1 else x, NextStage(k, g)) == Remaining(k, x, g) - 1
  {
    match k
    case ROL_ =>
    case ADC_DAA =>
    case _ =>
  }

  /** The program that is the rest of a loop is undisturbed. */
  lemma {:induction false} LoopUndisturbed(l: Loop, n: nat, t: State, x: nat, g: Stage, m: nat)
    requires AtStage(l, t, x, g) && l.Fits(n) && x <= n && m == Remaining(l.k, x, g)
    ensures Undisturbed(t, m, OwnBytes(l, n))
    decreases m
  {
    hide Quiet, ExecNext, AtStage, Loop.Fits, Remaining;
    StageOccurs(l, t, x, g);
    OneLess(l.k, x, g);
    StageQuiet(l, n, t, x, g);
    if g == Back && x == 1 {
      LastOne(t, OwnBytes(l, n));
    } else {
      StageNext(l, t, x, g);
      LoopUndisturbed(l, n, ExecNext(t), if g == Back then x - 1 else x, NextStage(l.k, g), m - 1);
    }
  }

  lemma StageOccurs(l: Loop, t: State, x: nat, g: Stage)
    requires AtStage(l, t, x, g)
    ensures x > 0 && Occurs(l.k, g)
  {
    hide Code, Loop.Loaded, Loop.Fits;
  }

  lemma LastOne(t: State, area: Area)
    requires Quiet(t, area)
    ensures Undisturbed(t, 1, area)
  {
    hide Quiet, ExecNext;
  }

  lemma WholeLoop(l: Loop, s: State, n: nat)
    requires l.Loaded(s.ram) && l.Fits(n) && s.r.pc == l.p && s.r.ix == n > 0
    ensures Undisturbed(s, n * PassLength(l.k), OwnBytes(l, n))
  {
    var g := if l.k == ROL_ then Rotate else Load;
    FirstStage(l, s, n, g);
    AllPasses(l.k, n, g);
    hide AtStage, Undisturbed, Loop.Fits, Loop.Loaded, Remaining, PassLength;
    LoopUndisturbed(l, n, s, n, g, n * PassLength(l.k));
  }

  lemma FirstStage(l: Loop, s: State, n: nat, g: Stage)
    requires l.Loaded(s.ram) && l.Fits(n) && s.r.pc == l.p && s.r.ix == n > 0
    requires g == if l.k == ROL_ then Rotate else Load
    ensures AtStage(l, s, n, g)
  {
    hide Loop.Loaded, Loop.Fits;
  }

  lemma AllPasses(k: Kernel, n: nat, g: Stage)
    requires n > 0 && g == if k == ROL_ then Rotate else Load
    ensures Remaining(k, n, g) == n * PassLength(k)
  {
  }

  // ---- the theorem ----

  lemma SameResults(u: State, v: State, l: Loop, n: nat)
    requires l.Fits(n) && n > 0 && l.p + l.Size() < MEMSIZE
    requires forall a: Word | !OwnBytes(l, n).Exposes(a, v.r.sp) && !IsDeviceReg(a) :: Cell(u, a) == Cell(v, a)
    ensures Bytes(u.ram, l.d3, n) == Bytes(v.ram, l.d3, n)
  {
    FitsAt(l, n);
    hide Code;
    var p, q := Bytes(u.ram, l.d3, n), Bytes(v.ram, l.d3, n);
    forall i: nat | i < n ensures p[i] == q[i] {
      var a: Word := l.d3 + 1 + i;
      assert a in Own(l, n) && !IsDeviceReg(a);
      assert Cell(u, a) == Cell(v, a);
    }
  }

  /** A loop that is interrupted any number of times, by handlers that return with SP and frame
      intact and change no code, operand or result byte of the loop, ends past the loop with the
      results and the carry that it computes by itself. */
  lemma InterruptedLoop(s: State, l: Loop, n: nat, segs: seq<Segment>)
    requires l.Loaded(s.ram) && l.Fits(n) && s.r.pc == l.p && s.r.ix == n > 0
    requires Interleaved(s, segs, OwnBytes(l, n)) && Instructions(segs) == n * PassLength(l.k)
    ensures var u := Through(s, segs);
      var r := Chain(l.k, Bytes(s.ram, l.d1, n), Bytes(s.ram, l.d2, n), s.r.ccr.c);
      && u.r.pc == l.p + l.Size() && u.r.ix == 0
      && Bytes(u.ram, l.d3, n) == r.zs && u.r.ccr.c == r.c
  {
    WholeLoop(l, s, n);
    InterruptsLeaveNoTrace(s, segs, OwnBytes(l, n));
    hide Through, Alone, Interleaved, Instructions, Undisturbed, Code, OwnBytes, Cell, Loop.Loaded, Chain;
    SameResults(Through(s, segs), Alone(s, n * PassLength(l.k)), l, n);
    LoopRuns(s, l, n);
  }

  lemma LengthOf(ram: Ram, l: Loop, n: nat)
    requires l.Fits(n)
    ensures |Bytes(ram, l.d1, n)| == |Bytes(ram, l.d2, n)| == n
  {
    hide Code;
  }

  /** So an interrupted addition loop still leaves the n-byte sum in memory and the carry in C. */
  lemma InterruptedAddition(s: State, l: Loop, n: nat, segs: seq<Segment>)
    requires l.k == ADC_ && l.Loaded(s.ram) && l.Fits(n) && s.r.pc == l.p && s.r.ix == n > 0
    requires Interleaved(s, segs, OwnBytes(l, n)) && Instructions(segs) == n * 5
    ensures var u := Through(s, segs);
      Value(Bytes(u.ram, l.d3, n)) + Power(0x100, n) * One(u.r.ccr.c, 1)
      == Value(Bytes(s.ram, l.d1, n)) + Value(Bytes(s.ram, l.d2, n)) + One(s.r.ccr.c, 1)
  {
    hide Through, Chain, Value, Power, One, Code, Interleaved, Instructions, OwnBytes, Loop.Loaded, Bytes;
    LengthOf(s.ram, l, n);
    InterruptedLoop(s, l, n, segs);
    AddChain(Bytes(s.ram, l.d1, n), Bytes(s.ram, l.d2, n), s.r.ccr.c);
  }
}
