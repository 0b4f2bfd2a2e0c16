// Properties of the 6303 timers over whole runs: src/arch/h6303/timer.c.

module Timer6303 {
  import opened Words
  import opened Sequences
  import opened Device
  import Optab
  import Machine

  /** The register block after timer steps of the given lengths. */
  function Run(d: Dev, ns: seq<nat>): Dev
  {
    if |ns| == 0 then d else Tick(Run(d, ns[..|ns| - 1]), ns[|ns| - 1])
  }

  lemma RunZero(d: Dev)
    ensures Run(d, []) == d && Total([]) == 0
  {
  }

  lemma RunStep(d: Dev, ns: seq<nat>)
    requires |ns| > 0
    ensures var m := |ns| - 1;
      Run(d, ns) == Tick(Run(d, ns[..m]), ns[m]) && Total(ns) == Total(ns[..m]) + ns[m]
  {
    hide Tick;
  }

  function Frc(d: Dev): Word { d.RegW(FRC) }
  function Ocr1(d: Dev): Word { d.RegW(OCR1) }

  lemma SetHas(x: Byte)
    ensures Has(Set(x, OCF1), OCF1)
  {
  }

  // ---- what one timer step leaves in each register ----

  lemma Timer2Keeps(d: Dev, n: nat)
    ensures var e := Timer2(d, n);
      && (forall i: nat | i < NIREGS && i != TCSR3 && i != T2CNT :: e.iram[i] == d.iram[i])
      && e.tcsrRead == d.tcsrRead
  {
    hide T2Ticks, Has, Set;
  }

  lemma Compare2Keeps(d: Dev, n: nat)
    ensures var e := Compare2(d, n);
      && (forall i: nat | i < NIREGS && i != TCSR2 :: e.iram[i] == d.iram[i])
      && e.tcsrRead == d.tcsrRead
  {
    hide Has, Set;
  }

  lemma Compare1Keeps(d: Dev, n: nat)
    ensures var e := Compare1(d, n);
      && (forall i: nat | i < NIREGS && i != TCSR1 :: e.iram[i] == d.iram[i])
      && e.tcsrRead == (d.tcsrRead && !Matches(Frc(d), n, Ocr1(d)))
      && (Has(e.Reg(TCSR1), OCF1) <==> Has(d.Reg(TCSR1), OCF1) || Matches(Frc(d), n, Ocr1(d)))
  {
    SetHas(d.Reg(TCSR1));
    hide Has, Set;
  }

  lemma TickSteps(d: Dev, n: nat)
    ensures var e := Tick(d, n);
      && Frc(e) == (Frc(d) + n) % 0x1_0000
      && Ocr1(e) == Ocr1(d) && e.Reg(TCONR) == d.Reg(TCONR)
      && e.tcsrRead == (d.tcsrRead && !Matches(Frc(d), n, Ocr1(d)))
      && (Has(e.Reg(TCSR1), OCF1) <==> Has(d.Reg(TCSR1), OCF1) || Matches(Frc(d), n, Ocr1(d)))
  {
    hide Compare1, Compare2, Timer2, Has, Hi, Lo;
    Compare1Keeps(d, n);
    Compare2Keeps(Compare1(d, n), n);
    Timer2Keeps(Compare2(Compare1(d, n), n), n);
    JoinHiLo(NextFrc(d, n));
  }

  lemma CountStep(d: Dev, n: nat)
    requires T2Enabled(d)
    ensures Timer2(d, n).Reg(T2CNT) == NextCount(d.Reg(T2CNT), T2Ticks(Frc(d), n, d.Reg(TCONR)), d.Reg(TCONR))
  {
    hide T2Ticks, Has, Set;
  }

  /** T2CNT after `ticks` ticks. */
  function NextCount(cnt: Byte, ticks: nat, tconr: Byte): Byte
  {
    if T2Matches(cnt, ticks, tconr) then (cnt + ticks - tconr) % 0x100 else (cnt + ticks) % 0x100
  }

  lemma TickCounts(d: Dev, n: nat)
    requires T2Enabled(d)
    ensures Tick(d, n).Reg(T2CNT) == NextCount(d.Reg(T2CNT), T2Ticks(Frc(d), n, d.Reg(TCONR)), d.Reg(TCONR))
  {
    hide Compare1, Compare2, Timer2, Has, Hi, Lo, T2Ticks, NextCount;
    Compare1Keeps(d, n);
    Compare2Keeps(Compare1(d, n), n);
    CountStep(Compare2(Compare1(d, n), n), n);
  }

  // ---- the free-running counter and output compare 1 ----

  lemma SmallMod(x: Word)
    ensures x % 0x1_0000 == x
  {
  }

  /** FRC is the cycle total modulo 65536 for every split of the cycles into steps. */
  lemma {:induction false} FrcIsTotal(d: Dev, ns: seq<nat>)
    ensures var e := Run(d, ns);
      Frc(e) == (Frc(d) + Total(ns)) % 0x1_0000 && Ocr1(e) == Ocr1(d) && e.Reg(TCONR) == d.Reg(TCONR)
  {
    hide *;
    RunZero(d);
    if |ns| > 0 {
      var n := ns[|ns| - 1];
      var c := Run(d, ns[..|ns| - 1]);
      FrcIsTotal(d, ns[..|ns| - 1]);
      RunStep(d, ns);
      TickSteps(c, n);
      AddMod(Frc(d) + Total(ns[..|ns| - 1]), n);
    } else {
      SmallMod(Frc(d));
      assert ns == [];
    }
  }

  /** Step `i` of a run raises OCF1. */
  predicate MatchAt(d: Dev, ns: seq<nat>, i: nat)
    requires i < |ns|
  {
    Matches(Frc(Run(d, ns[..i])), ns[i], Ocr1(d))
  }

  function MatchCount(d: Dev, ns: seq<nat>): nat
  {
    if |ns| == 0 then 0
    else MatchCount(d, ns[..|ns| - 1]) + if MatchAt(d, ns, |ns| - 1) then 1 else 0
  }

  /** Without a wrap of FRC the match falls in exactly one step when OCR1 lies in (start, end],
      and in none otherwise, however the cycles are batched. */
  lemma {:induction false} MatchOnce(d: Dev, ns: seq<nat>)
    requires Frc(d) + Total(ns) < 0x1_0000
    ensures MatchCount(d, ns) == if Frc(d) < Ocr1(d) <= Frc(d) + Total(ns) then 1 else 0
  {
    hide Run, Frc, Ocr1, Total;
    RunZero(d);
    if |ns| > 0 {
      RunStep(d, ns);
      MatchOnce(d, ns[..|ns| - 1]);
      FrcIsTotal(d, ns[..|ns| - 1]);
      hide Run, Frc, Ocr1, Total, Tick;
      SmallMod(Frc(d) + Total(ns[..|ns| - 1]));
    } else {
      assert ns == [];
    }
  }

  /** The number of times the counter has wrapped after the first `i` steps. */
  function Lap(d: Dev, ns: seq<nat>, i: nat): nat
    requires i <= |ns|
  {
    (Frc(d) + Total(ns[..i])) / 0x1_0000
  }

  lemma {:induction false} TotalGrows(ns: seq<nat>, i: nat, j: nat)
    requires i < j <= |ns|
    ensures Total(ns[..i]) + ns[i] <= Total(ns[..j])
    decreases j
  {
    assert ns[..j][..j - 1] == ns[..j - 1];
    if i < j - 1 {
      TotalGrows(ns, i, j - 1);
    }
  }

  /** Two matches never share a lap of the counter. */
  lemma OneMatchPerLap(d: Dev, ns: seq<nat>, i: nat, j: nat)
    requires i < j < |ns| && MatchAt(d, ns, i) && MatchAt(d, ns, j)
    ensures Lap(d, ns, i) < Lap(d, ns, j)
  {
    hide *;
    MatchIs(d, ns, i);
    MatchIs(d, ns, j);
    TotalGrows(ns, i, j);
    LapIs(d, ns, i);
    LapIs(d, ns, j);
    LaterLap(Frc(d) + Total(ns[..i]), Frc(d) + Total(ns[..j]), ns[i], ns[j], Ocr1(d));
  }

  lemma LapIs(d: Dev, ns: seq<nat>, i: nat)
    requires i <= |ns|
    ensures Lap(d, ns, i) == (Frc(d) + Total(ns[..i])) / 0x1_0000
  {
  }

  lemma MatchIs(d: Dev, ns: seq<nat>, i: nat)
    requires i < |ns|
    ensures MatchAt(d, ns, i) == Matches((Frc(d) + Total(ns[..i])) % 0x1_0000, ns[i], Ocr1(d))
  {
    FrcIsTotal(d, ns[..i]);
    hide Total, Frc, Ocr1, Matches, Run;
  }

  lemma LaterLap(x: nat, y: nat, n: nat, m: nat, ocr: Word)
    requires x + n <= y && Matches(x % 0x1_0000, n, ocr) && Matches(y % 0x1_0000, m, ocr)
    ensures x / 0x1_0000 < y / 0x1_0000
  {
  }

  /** The counter reaches `ocr` modulo 65536 while it advances by `n`. */
  ghost predicate Reaches(frc: Word, n: nat, ocr: Word)
  {
    exists k: nat :: frc < k * 0x1_0000 + ocr <= frc + n
  }

  /** A step that reaches the compare value raises the flag exactly when it does so before the
      counter wraps: the source compares against the counter before reducing it. */
  lemma MissedOnWrap(frc: Word, n: nat, ocr: Word)
    requires n < 0x1_0000
    ensures Reaches(frc, n, ocr) <==> Matches(frc, n, ocr) || 0x1_0000 + ocr <= frc + n
  {
    if Matches(frc, n, ocr) {
      assert frc < 0 * 0x1_0000 + ocr <= frc + n;
    }
    if 0x1_0000 + ocr <= frc + n {
      assert frc < 1 * 0x1_0000 + ocr <= frc + n;
    }
    if Reaches(frc, n, ocr) {
      var k: nat :| frc < k * 0x1_0000 + ocr <= frc + n;
      assert k == 0 || k * 0x1_0000 >= 0x1_0000;
    }
  }

  /** A compare value just past the wrap is reached and missed. */
  lemma MissedExample()
    ensures Reaches(0xFFFE, 4, 1) && !Matches(0xFFFE, 4, 1)
  {
    MissedOnWrap(0xFFFE, 4, 1);
    hide Reaches;
  }

  // ---- the OCF1 handshake ----

  predicate Ocf1(d: Dev) { Has(d.Reg(TCSR1), OCF1) }

  /** A read of either status register while OCF1 is set. */
  predicate SeesFlag(d: Dev, a: Action)
  {
    a.Read? && (a.offs == TCSR1 || a.offs == TCSR2) && Ocf1(d)
  }

  predicate WritesOcr1(a: Action)
  {
    a.Write? && (a.offs == OCR1 || a.offs == OCR1 + 1)
  }

  predicate MatchesNow(d: Dev, a: Action)
  {
    a.Pass? && Matches(Frc(d), a.n, Ocr1(d))
  }

  lemma CopyHas(x: Byte, y: Byte, m: int)
    requires m in {TOF, OCF1, ICF}
    ensures Has(Copy(x, y, m), OCF1) == if m == OCF1 then Has(y, OCF1) else Has(x, OCF1)
  {
  }

  lemma StatusRead(d: Dev, offs: nat)
    requires offs < NIREGS
    ensures var e := Get(d, offs).d;
      Ocf1(e) == Ocf1(d) && e.tcsrRead == (d.tcsrRead || SeesFlag(d, Read(offs)))
  {
    var x := Copy(d.Reg(TCSR2), d.Reg(TCSR1), OCF1);
    CopyHas(d.Reg(TCSR2), d.Reg(TCSR1), OCF1);
    CopyHas(x, d.Reg(TCSR1), ICF);
    hide Has, Copy;
  }

  lemma TcsrWrite(d: Dev, v: Byte)
    ensures Ocf1(PutTcsr(d, v)) == Ocf1(d)
  {
    var t := d.Reg(TCSR1);
    CopyHas(v, t, ICF);
    var x := Copy(v, t, ICF);
    CopyHas(x, t, OCF1);
    CopyHas(Copy(x, t, OCF1), t, TOF);
    hide Has, Copy;
  }

  lemma ClearHas(x: Byte)
    ensures !Has(Clear(x, OCF1), OCF1)
  {
  }

  lemma RegisterWrite(d: Dev, offs: nat, v: Byte)
    requires offs < NIREGS
    ensures var e := Put(d, offs, v);
      && e.tcsrRead == (d.tcsrRead && !WritesOcr1(Write(offs, v)))
      && Ocf1(e) == (Ocf1(d) && !(d.tcsrRead && WritesOcr1(Write(offs, v))))
  {
    TcsrWrite(d, v);
    ClearHas(d.Reg(TCSR1));
    hide Has, Copy, Clear, ByteOp, TrcsrValue;
  }

  /** How every action changes OCF1 and the flag that remembers its being read. */
  lemma ActionEffect(d: Dev, a: Action)
    requires a.Possible()
    ensures var e := Perform(d, a);
      && e.tcsrRead == ((d.tcsrRead && !WritesOcr1(a) && !MatchesNow(d, a)) || SeesFlag(d, a))
      && Ocf1(e) == ((Ocf1(d) && !(d.tcsrRead && WritesOcr1(a))) || MatchesNow(d, a))
  {
    match a
    case Read(offs) => StatusRead(d, offs);
    case Write(offs, v) => RegisterWrite(d, offs, v);
    case Pass(n) => TickSteps(d, n);
    case Receive(s) =>
    case Switch(on) =>
  }

  /** Action `k` reads the status while OCF1 is set. */
  predicate Seeing(d: Dev, acts: seq<Action>, k: nat)
    requires AllPossible(acts) && k < |acts|
  {
    SeesFlag(PerformAll(d, acts[..k]), acts[k])
  }

  /** Action `k` makes the timer forget that: it writes OCR1 or brings a new match. */
  predicate Ending(d: Dev, acts: seq<Action>, k: nat)
    requires AllPossible(acts) && k < |acts|
  {
    WritesOcr1(acts[k]) || MatchesNow(PerformAll(d, acts[..k]), acts[k])
  }

  /** A status read saw OCF1 set, and since then OCR1 was not written and no match came. */
  ghost predicate Seen(d: Dev, acts: seq<Action>)
    requires AllPossible(acts)
  {
    exists j | 0 <= j < |acts| && Seeing(d, acts, j) :: forall k | j < k < |acts| :: !Ending(d, acts, k)
  }

  lemma SamePrefix(d: Dev, acts: seq<Action>, m: nat, k: nat)
    requires AllPossible(acts) && k < m <= |acts|
    ensures Seeing(d, acts[..m], k) == Seeing(d, acts, k) && Ending(d, acts[..m], k) == Ending(d, acts, k)
  {
    assert acts[..m][..k] == acts[..k] && acts[..m][k] == acts[k];
    hide PerformAll, SeesFlag, MatchesNow, WritesOcr1;
  }

  lemma SeenStep(d: Dev, acts: seq<Action>)
    requires AllPossible(acts) && |acts| > 0
    ensures var m := |acts| - 1;
      Seen(d, acts) <==> (Seen(d, acts[..m]) && !Ending(d, acts, m)) || Seeing(d, acts, m)
  {
    var m := |acts| - 1;
    hide Seeing, Ending;
    if Seen(d, acts) && !Seeing(d, acts, m) {
      var j :| 0 <= j < |acts| && Seeing(d, acts, j) && forall k | j < k < |acts| :: !Ending(d, acts, k);
      SamePrefix(d, acts, m, j);
      forall k | j < k < m ensures !Ending(d, acts[..m], k) {
        SamePrefix(d, acts, m, k);
      }
    }
    if Seen(d, acts[..m]) && !Ending(d, acts, m) {
      var j :| 0 <= j < m && Seeing(d, acts[..m], j) && forall k | j < k < m :: !Ending(d, acts[..m], k);
      SamePrefix(d, acts, m, j);
      forall k | j < k < m ensures !Ending(d, acts, k) {
        SamePrefix(d, acts, m, k);
      }
    }
  }

  lemma ActionStep(d: Dev, acts: seq<Action>)
    requires AllPossible(acts) && |acts| > 0
    ensures var m := |acts| - 1;
      var c := PerformAll(d, acts[..m]);
      var e := PerformAll(d, acts);
      && e.tcsrRead == ((c.tcsrRead && !Ending(d, acts, m)) || Seeing(d, acts, m))
      && (Ocf1(c) && !(c.tcsrRead && WritesOcr1(acts[m])) ==> Ocf1(e))
      && (Seeing(d, acts, m) ==> Ocf1(c) && !WritesOcr1(acts[m]))
  {
    ActionEffect(PerformAll(d, acts[..|acts| - 1]), acts[|acts| - 1]);
    hide Perform, Has, Matches;
  }

  /** From a state whose status has not been read, the handshake flag says exactly that the
      status was seen set since the last match and OCR1 write; and then OCF1 is still set. */
  lemma {:induction false} HandshakeMeaning(d: Dev, acts: seq<Action>)
    requires AllPossible(acts) && !d.tcsrRead
    ensures var e := PerformAll(d, acts);
      (e.tcsrRead <==> Seen(d, acts)) && (e.tcsrRead ==> Ocf1(e))
  {
    if |acts| > 0 {
      var m := |acts| - 1;
      HandshakeMeaning(d, acts[..m]);
      SeenStep(d, acts);
      ActionStep(d, acts);
      hide PerformAll, Perform, Seen, Has, Seeing;
    }
  }

  /** OCF1 is cleared only by a status read that saw it set followed by an OCR1 write with no
      match and no other OCR1 write between; and that sequence does clear it. */
  lemma FlagCleared(d: Dev, acts: seq<Action>, a: Action)
    requires AllPossible(acts) && a.Possible() && !d.tcsrRead
    ensures var e := PerformAll(d, acts);
      Ocf1(e) && !Ocf1(Perform(e, a)) <==> Seen(d, acts) && WritesOcr1(a)
  {
    HandshakeMeaning(d, acts);
    ActionEffect(PerformAll(d, acts), a);
    hide Perform, Seen, Has, PerformAll;
  }

  // ---- timer 2 ----

  /** The ticks fed to timer 2 over a run. */
  function Ticks(d: Dev, ns: seq<nat>): nat
  {
    if |ns| == 0 then 0
    else Ticks(d, ns[..|ns| - 1]) + T2Ticks(Frc(Run(d, ns[..|ns| - 1])), ns[|ns| - 1], d.Reg(TCONR))
  }

  /** `x` cycles divided by the prescaler. */
  function Scaled(x: nat, tconr: Byte): nat { x / Divisor(tconr) }

  lemma Divisors(tconr: Byte)
    ensures Divisor(tconr) == Pow2(Prescale(tconr))
  {
    assert Pow2(3) == 8 && Pow2(7) == 128;
  }

  lemma ScaleByEighth(q: nat, r: nat)
    ensures (q * 0x1_0000 + r) / 8 == q * 0x2000 + r / 8
    ensures (q * 0x1_0000 + r) / 128 == q * 0x200 + r / 128
  {
  }

  /** The prescaler divides 65536, so a tick count taken from the reduced counter is the same. */
  lemma TicksTelescope(x: nat, n: nat, tconr: Byte)
    ensures T2Ticks(x % 0x1_0000, n, tconr) == Scaled(x + n, tconr) - Scaled(x, tconr)
  {
    var q, r := x / 0x1_0000, x % 0x1_0000;
    assert x == q * 0x1_0000 + r;
    ScaleByEighth(q, r);
    ScaleByEighth(q, r + n);
  }

  lemma NoTicks(d: Dev)
    ensures Ticks(d, []) == 0
  {
  }

  lemma MoreTicks(d: Dev, ns: seq<nat>)
    requires |ns| > 0
    ensures var m := |ns| - 1;
      Ticks(d, ns) == Ticks(d, ns[..m]) + T2Ticks(Frc(Run(d, ns[..m])), ns[m], d.Reg(TCONR))
  {
    hide Run, Frc, T2Ticks;
  }

  lemma TicksFrom(f: Word, x: nat, n: nat, tconr: Byte)
    requires f == x % 0x1_0000
    ensures T2Ticks(f, n, tconr) == Scaled(x + n, tconr) - Scaled(x, tconr)
  {
    TicksTelescope(x, n, tconr);
  }

  /** Ticks are conserved: any split of N cycles feeds floor((frc + N) / 2^p) - floor(frc / 2^p),
      across counter wraps too. */
  lemma {:induction false} TicksConserved(d: Dev, ns: seq<nat>)
    ensures Ticks(d, ns) == Scaled(Frc(d) + Total(ns), d.Reg(TCONR)) - Scaled(Frc(d), d.Reg(TCONR))
  {
    hide Run, Frc, T2Ticks, Ticks, Total, Scaled;
    RunZero(d);
    if |ns| > 0 {
      TicksConserved(d, ns[..|ns| - 1]);
      RunStep(d, ns);
      FrcIsTotal(d, ns[..|ns| - 1]);
      MoreTicks(d, ns);
      TicksFrom(Frc(Run(d, ns[..|ns| - 1])), Frc(d) + Total(ns[..|ns| - 1]), ns[|ns| - 1], d.Reg(TCONR));
    } else {
      NoTicks(d);
      assert ns == [];
    }
  }

  /** No step is so long that timer 2 could match twice in it. */
  predicate StepsFit(d: Dev, ns: seq<nat>)
  {
    |ns| > 0 ==> StepsFit(d, ns[..|ns| - 1])
                 && T2Ticks(Frc(Run(d, ns[..|ns| - 1])), ns[|ns| - 1], d.Reg(TCONR)) <= d.Reg(TCONR)
  }

  /** Step lengths up to TCONR fit, whatever the prescaler; an enabled timer has TCONR >= 16. */
  lemma {:induction false} ShortStepsFit(d: Dev, ns: seq<nat>)
    requires forall i | 0 <= i < |ns| :: ns[i] <= d.Reg(TCONR)
    ensures StepsFit(d, ns)
  {
    if |ns| > 0 {
      var m := |ns| - 1;
      ShortStepsFit(d, ns[..m]);
      FewTicks(Frc(Run(d, ns[..m])), ns[m], d.Reg(TCONR));
    }
  }

  /** One instruction, or one interrupt entry, is such a step. */
  lemma InstructionsAreShort(op: Byte)
    ensures Optab.Opcodetab(op).cycles <= 12 && Machine.SWI_CYCLES <= 12
  {
  }

  lemma FewTicks(frc: Word, n: nat, tconr: Byte)
    ensures T2Ticks(frc, n, tconr) <= n
  {
  }

  function T2MatchCount(d: Dev, ns: seq<nat>): nat
    decreases |ns|
  {
    if |ns| == 0 then 0
    else
      var c := Run(d, ns[..|ns| - 1]);
      T2MatchCount(d, ns[..|ns| - 1])
      + if T2Matches(c.Reg(T2CNT), T2Ticks(Frc(c), ns[|ns| - 1], d.Reg(TCONR)), d.Reg(TCONR)) then 1 else 0
  }

  lemma CountOnce(x: nat, ticks: nat, t: Byte)
    requires t > 0 && ticks <= t
    ensures NextCount(x % t, ticks, t) == (x + ticks) % t
    ensures (x + ticks) / t == x / t + if T2Matches(x % t, ticks, t) then 1 else 0
  {
    var q, r := x / t, x % t;
    assert x == t * q + r;
    NextIs(r, ticks, t);
    hide NextCount, T2Matches;
    if r + ticks >= t {
      assert t * (q + 1) == t * q + t;
      DivUnique(x + ticks, t, q + 1, r + ticks - t);
    } else {
      DivUnique(x + ticks, t, q, r + ticks);
    }
  }

  lemma NextIs(r: nat, ticks: nat, t: Byte)
    requires r < t && ticks <= t
    ensures NextCount(r, ticks, t) == if r + ticks >= t then r + ticks - t else r + ticks
    ensures T2Matches(r, ticks, t) <==> r + ticks >= t
  {
  }

  lemma NextT2(d: Dev, ns: seq<nat>)
    requires T2Enabled(d) && |ns| > 0
    ensures var c := Run(d, ns[..|ns| - 1]);
      Run(d, ns).Reg(T2CNT)
      == NextCount(c.Reg(T2CNT), T2Ticks(Frc(c), ns[|ns| - 1], d.Reg(TCONR)), d.Reg(TCONR))
  {
    var m := |ns| - 1;
    FrcIsTotal(d, ns[..m]);
    RunStep(d, ns);
    hide Run, T2Ticks, Frc, NextCount, Total, Has, Tick;
    TickCounts(Run(d, ns[..m]), ns[m]);
  }

  lemma CountOne(d: Dev, ns: seq<nat>)
    requires T2Enabled(d) && StepsFit(d, ns) && |ns| > 0
    requires var m := |ns| - 1;
      var t := d.Reg(TCONR);
      var x := d.Reg(T2CNT) + Ticks(d, ns[..m]);
      t > 0 && Run(d, ns[..m]).Reg(T2CNT) == x % t && T2MatchCount(d, ns[..m]) == x / t
    ensures var t := d.Reg(TCONR);
      var x := d.Reg(T2CNT) + Ticks(d, ns);
      Run(d, ns).Reg(T2CNT) == x % t && T2MatchCount(d, ns) == x / t
  {
    hide Run, T2Ticks, Frc, T2Matches, NextCount, Total, Has, Tick;
    var m := |ns| - 1;
    var k := T2Ticks(Frc(Run(d, ns[..m])), ns[m], d.Reg(TCONR));
    NextT2(d, ns);
    CountOnce(d.Reg(T2CNT) + Ticks(d, ns[..m]), k, d.Reg(TCONR));
  }

  /** Over any run timer 2 counts modulo TCONR and matches once for every TCONR ticks. */
  lemma {:induction false} Timer2Counts(d: Dev, ns: seq<nat>)
    requires T2Enabled(d) && d.Reg(T2CNT) < d.Reg(TCONR) && StepsFit(d, ns)
    ensures var t := d.Reg(TCONR);
      var x := d.Reg(T2CNT) + Ticks(d, ns);
      Run(d, ns).Reg(T2CNT) == x % t && T2MatchCount(d, ns) == x / t
  {
    if |ns| > 0 {
      Timer2Counts(d, ns[..|ns| - 1]);
      CountOne(d, ns);
      hide Run, Ticks, T2MatchCount, Has;
    } else {
      NoMatches(d.Reg(T2CNT), d.Reg(TCONR));
    }
  }

  lemma NoMatches(x: nat, t: nat)
    requires x < t
    ensures x % t == x && x / t == 0
  {
  }
}
