// The 6303 timers as the executor drives them: src/arch/h6303/instr.c, src/arch/h6303/timer.c.

/** The runs of Timer6303.dfy are sequences of timer steps; here they are runs of the machine. */
module MachineTimer {
  import opened Words
  import opened Sequences
  import opened Optab
  import opened Machine
  import opened Simulation
  import opened Timer6303
  import D = Device

  /** An enabled timer 2 has a compare value of at least 16: the bit that enables it is in TCONR. */
  lemma EnabledCompare(d: D.Dev)
    requires D.T2Enabled(d)
    ensures d.Reg(D.TCONR) >= 16
  {
  }

  /** Steps of the lengths that the executor takes never match timer 2 twice. */
  lemma ExecutorStepsFit(d: D.Dev, ns: seq<nat>)
    requires D.T2Enabled(d) && forall i | 0 <= i < |ns| :: ns[i] <= 12
    ensures StepsFit(d, ns)
  {
    EnabledCompare(d);
    ShortStepsFit(d, ns);
    hide D.T2Enabled;
  }

  // ---- one step of the machine ----

  /** A step before its cycles are counted, and how many there are. */
  function BeforeTimer(s: State): State
  {
    match Interrupting(s)
    case Vector(v) => IntAddr(s, v)
    case None => Exec(FetchB(s).s, Opcodetab(FetchB(s).v).f)
  }

  function StepCycles(s: State): nat
  {
    match Interrupting(s)
    case Vector(v) => SWI_CYCLES
    case None => Opcodetab(FetchB(s).v).cycles
  }

  lemma StepParts(s: State)
    ensures Step(s) == Elapse(BeforeTimer(s), StepCycles(s)) && StepCycles(s) <= 12
  {
    InstructionsAreShort(FetchB(s).v);
    StepCases(s);
    hide IntAddr, FetchB, Opcodetab, Exec, Elapse, Interrupting;
  }

  function TimerCells(): set<int>
  {
    {D.FRC, D.FRC + 1, D.TCONR, D.T2CNT}
  }

  /** `s` with its writes to the timer cells watched: a written cell leaves `dirty`. */
  function TimerWatched(s: State): State
  {
    s.(mon := Monitor(TimerCells(), true))
  }

  /** The step writes none of FRC, TCONR and T2CNT. */
  predicate LeavesTimer(s: State)
  {
    TimerCells() <= BeforeTimer(TimerWatched(s)).mon.dirty
  }

  predicate LeavesTimerAll(s: State, n: nat)
    decreases n
  {
    n > 0 ==> LeavesTimer(s) && LeavesTimerAll(Step(s), n - 1)
  }

  predicate SameTimer(d: D.Dev, e: D.Dev)
  {
    Frc(d) == Frc(e) && d.Reg(D.TCONR) == e.Reg(D.TCONR) && d.Reg(D.T2CNT) == e.Reg(D.T2CNT)
  }

  lemma BeforeCore(s: State, t: State)
    requires SameCore(s, t)
    ensures SameCore(BeforeTimer(s), BeforeTimer(t))
  {
    hide IntAddr, FetchB, Opcodetab, Exec, D.Pending;
    match Interrupting(s)
    case Vector(v) => IntSim(Core, s, t, v);
    case None =>
      FetchSim(Core, s, t);
      ExecSim(Core, FetchB(s).s, FetchB(t).s, Opcodetab(FetchB(s).v).f);
  }

  lemma BeforeHolds(s: State, d: D.Dev)
    requires Holds(s, d)
    ensures Holds(BeforeTimer(s), d)
  {
    hide IntAddr, FetchB, Opcodetab, Exec, Interrupting, Holds;
    match Interrupting(s)
    case Vector(v) => IntSim(Timer(d), s, s, v);
    case None =>
      FetchSim(Timer(d), s, s);
      ExecSim(Timer(d), FetchB(s).s, FetchB(s).s, Opcodetab(FetchB(s).v).f);
  }

  /** A step that writes no timer cell leaves them to the timer. */
  lemma BeforeSame(s: State)
    requires LeavesTimer(s)
    ensures SameTimer(BeforeTimer(s).dev, s.dev)
  {
    var w := TimerWatched(s);
    hide BeforeTimer;
    BeforeHolds(w, s.dev);
    BeforeCore(w, s);
  }

  lemma CountDisabled(d: D.Dev, n: nat)
    requires !D.T2Enabled(d)
    ensures D.Tick(d, n).Reg(D.T2CNT) == d.Reg(D.T2CNT)
  {
    hide D.Compare1, D.Compare2, Has, Hi, Lo;
    Compare1Keeps(d, n);
    Compare2Keeps(D.Compare1(d, n), n);
  }

  /** Timer steps from equal timers leave equal timers. */
  lemma TickSame(d: D.Dev, e: D.Dev, n: nat)
    requires SameTimer(d, e)
    ensures SameTimer(D.Tick(d, n), D.Tick(e, n))
  {
    hide D.Tick, D.T2Ticks, NextCount, Has;
    TickSteps(d, n);
    TickSteps(e, n);
    if D.T2Enabled(d) {
      TickCounts(d, n);
      TickCounts(e, n);
    } else {
      CountDisabled(d, n);
      CountDisabled(e, n);
    }
  }

  // ---- runs of the machine ----

  /** The machine's timer registers after a run are those of a timer fed the run's cycles in some
      steps of at most twelve. */
  lemma {:induction false} RunFeedsTimer(s: State, n: nat) returns (ns: seq<nat>)
    requires LeavesTimerAll(s, n)
    ensures |ns| == n && forall i | 0 <= i < n :: ns[i] <= 12
    ensures var t := Steps(s, n);
      t.cycles == s.cycles + Total(ns) && SameTimer(t.dev, Run(s.dev, ns))
    decreases n
  {
    hide LeavesTimer, SameTimer, Run, Total, Step, Steps, Elapse, BeforeTimer;
    if n == 0 {
      ns := [];
      StepsZero(s);
      RunZero(s.dev);
      SameItself(s.dev);
    } else {
      var ms := RunFeedsTimer(Step(s), n - 1);
      ns := [StepCycles(s)] + ms;
      StepsUnfold(s, n);
      StepParts(s);
      FirstStep(s, ms);
    }
  }

  lemma SameItself(d: D.Dev)
    ensures SameTimer(d, d)
  {
  }

  lemma FirstStep(s: State, ms: seq<nat>)
    requires LeavesTimer(s) && Step(s) == Elapse(BeforeTimer(s), StepCycles(s))
    ensures var ns := [StepCycles(s)] + ms;
      && Step(s).cycles + Total(ms) == s.cycles + Total(ns)
      && forall t: D.Dev | SameTimer(t, Run(Step(s).dev, ms)) :: SameTimer(t, Run(s.dev, ns))
  {
    var n := StepCycles(s);
    BeforeSame(s);
    BeforeCycles(s);
    hide BeforeTimer, LeavesTimer, Run, Total, Step, StepCycles, D.Tick;
    TickSame(BeforeTimer(s).dev, s.dev, n);
    FedFirst(Step(s).dev, s.dev, n, ms);
    TotalFirst(n, ms);
    hide SameTimer;
    forall t: D.Dev | SameTimer(t, Run(Step(s).dev, ms)) ensures SameTimer(t, Run(s.dev, [n] + ms)) {
      SameChain(t, Run(Step(s).dev, ms), Run(s.dev, [n] + ms));
    }
  }

  lemma SameChain(d: D.Dev, e: D.Dev, f: D.Dev)
    requires SameTimer(d, e) && SameTimer(e, f)
    ensures SameTimer(d, f)
  {
  }

  /** No instruction counts cycles by itself. */
  lemma BeforeCycles(s: State)
    ensures BeforeTimer(s).cycles == s.cycles
  {
    hide IntAddr, FetchB, Opcodetab, Exec, Interrupting;
    match Interrupting(s)
    case Vector(v) => IntSim(Cycles(s.cycles), s, s, v);
    case None =>
      FetchSim(Cycles(s.cycles), s, s);
      ExecSim(Cycles(s.cycles), FetchB(s).s, FetchB(s).s, Opcodetab(FetchB(s).v).f);
  }

  lemma {:induction false} TotalFirst(n: nat, ms: seq<nat>)
    ensures Total([n] + ms) == n + Total(ms)
    decreases |ms|
  {
    var all := [n] + ms;
    if |ms| == 0 {
      assert all[..0] == [] && all == [n];
    } else {
      assert all[..|all| - 1] == [n] + ms[..|ms| - 1];
      TotalFirst(n, ms[..|ms| - 1]);
    }
  }

  lemma {:induction false} FedFirst(d: D.Dev, e: D.Dev, n: nat, ms: seq<nat>)
    requires SameTimer(d, D.Tick(e, n))
    ensures SameTimer(Run(d, ms), Run(e, [n] + ms))
    decreases |ms|
  {
    var all := [n] + ms;
    hide D.Tick, SameTimer, Run;
    RunStep(e, all);
    if |ms| == 0 {
      assert all[..0] == [] && ms == [];
      RunZero(d);
      RunZero(e);
    } else {
      var m := |ms| - 1;
      assert all[..|all| - 1] == [n] + ms[..m];
      RunStep(d, ms);
      FedFirst(d, e, n, ms[..m]);
      TickSame(Run(d, ms[..m]), Run(e, [n] + ms[..m]), ms[m]);
    }
  }

  /** FRC and T2CNT after `n` cycles in which they were not written. */
  predicate FrcAfter(frc0: Word, n: nat, frc: Word)
  {
    frc == (frc0 + n) % 0x1_0000
  }

  predicate CountAfter(frc0: Word, cnt0: Byte, tconr: Byte, n: nat, cnt: Byte)
    requires tconr > 0
  {
    cnt == (cnt0 + Scaled(frc0 + n, tconr) - Scaled(frc0, tconr)) % tconr
  }

  lemma FrcRun(d: D.Dev, ns: seq<nat>)
    ensures FrcAfter(Frc(d), Total(ns), Frc(Run(d, ns)))
  {
    FrcIsTotal(d, ns);
    hide Frc, Run, Total;
  }

  lemma CountRun(d: D.Dev, ns: seq<nat>)
    requires D.T2Enabled(d) && d.Reg(D.T2CNT) < d.Reg(D.TCONR) && forall i | 0 <= i < |ns| :: ns[i] <= 12
    ensures CountAfter(Frc(d), d.Reg(D.T2CNT), d.Reg(D.TCONR), Total(ns), Run(d, ns).Reg(D.T2CNT))
  {
    hide Frc, Run, Total, Scaled, D.T2Enabled, StepsFit, T2MatchCount, Ticks;
    ExecutorStepsFit(d, ns);
    Timer2Counts(d, ns);
    TicksConserved(d, ns);
  }

  /** Over any run of the machine in which no instruction writes FRC, TCONR or T2CNT, interrupts
      included, FRC counts the cycles modulo 65536, and an enabled timer 2 that starts below
      TCONR counts its ticks modulo TCONR. */
  lemma TimersCountCycles(s: State, n: nat)
    requires LeavesTimerAll(s, n)
    ensures var t := Steps(s, n);
      var d := s.dev;
      && t.cycles >= s.cycles
      && FrcAfter(Frc(d), t.cycles - s.cycles, Frc(t.dev))
      && (D.T2Enabled(d) && d.Reg(D.T2CNT) < d.Reg(D.TCONR) ==>
            CountAfter(Frc(d), d.Reg(D.T2CNT), d.Reg(D.TCONR), t.cycles - s.cycles, t.dev.Reg(D.T2CNT)))
  {
    hide Steps, Run, Total, LeavesTimerAll, FrcAfter, CountAfter, D.T2Enabled, Frc;
    var ns := RunFeedsTimer(s, n);
    FrcRun(s.dev, ns);
    if D.T2Enabled(s.dev) && s.dev.Reg(D.T2CNT) < s.dev.Reg(D.TCONR) {
      CountRun(s.dev, ns);
    }
  }
}
