// Timer of the 6805: src/arch/m6805/timer.c.

/** The prescaled counter and its compare value, which the source keeps wider than the
    16-bit registers and reduces only on a match. */
module PrescaledCompare {
  import opened Words

  const NIREGS := 0x1F
  const TSR := 0x13
  const OCR := 0x16
  const FRC := 0x18
  const OCF := 0x40

  type Iram = s: seq<Byte> | |s| == NIREGS witness seq(NIREGS, _ => 0)

  /** frc and ocr as C longs; prescIn and prescLast as 32-bit unsigned integers. */
  datatype Timer = Timer(iram: Iram, frc: nat, ocr: nat, prescIn: nat, prescLast: nat, tsrRead: bool)
  {
    predicate Ocf() { Has(iram[TSR], OCF) }
    function FrcReg(): Word { Join(iram[FRC], iram[FRC + 1]) }
    function OcrReg(): Word { Join(iram[OCR], iram[OCR + 1]) }
  }

  const Zeros: Iram := [0, 0, 0, 0, 0, 0, 0, 0, 0, 0, 0, 0, 0, 0, 0, 0, 0, 0, 0, 0, 0, 0, 0, 0, 0, 0, 0, 0, 0, 0, 0]
  const Start := Timer(Zeros, 0, 0x1_0000, 0, 0, true)

  /** The ticks that `n` cycles bring. If the 32-bit cycle count wraps, the source takes the
      difference the other way round. */
  function NewTicks(s: Timer, n: nat): nat
  {
    var out := (s.prescIn + n) % 0x1_0000_0000 / 4;
    if out >= s.prescLast then out - s.prescLast else s.prescLast - out
  }

  predicate Matches(s: Timer, n: nat)
  {
    s.frc + NewTicks(s, n) >= s.ocr
  }

  function Count(s: Timer, n: nat): Timer
  {
    var prescIn := (s.prescIn + n) % 0x1_0000_0000;
    AddTicks(s, NewTicks(s, n)).(prescIn := prescIn, prescLast := prescIn / 4)
  }

  function AddTicks(s: Timer, ticks: nat): Timer
  {
    s.(frc := s.frc + ticks, iram := WithFrc(s.iram, (s.frc + ticks) % 0x1_0000))
  }

  /** ireg_putw of FRC. */
  function WithFrc(iram: Iram, w: Word): Iram
  {
    iram[FRC := Hi(w)][FRC + 1 := Lo(w)]
  }

  function Match(s: Timer): Timer
  {
    var t := s.(frc := s.frc % 0x1_0000, ocr := s.frc % 0x1_0000 + 0x1_0000);
    if s.Ocf() then t else t.(iram := t.iram[TSR := Set(t.iram[TSR], OCF)], tsrRead := false)
  }

  /** timer_inc. */
  function Inc(s: Timer, n: nat): Timer
  {
    var t := Count(s, n);
    if t.frc >= t.ocr then Match(t) else t
  }

  function TouchOcr(s: Timer): Timer
  {
    if s.tsrRead then s.(iram := s.iram[TSR := Clear(s.iram[TSR], OCF)], tsrRead := false) else s
  }

  /** ocr_putb, installed for the low byte. */
  function PutOcr(s: Timer, v: Byte): Timer
  {
    var t := s.(iram := s.iram[OCR + 1 := v]);
    TouchOcr(t.(ocr := t.OcrReg() + t.frc))
  }

  function GetTsr(s: Timer): Timer
  {
    s.(tsrRead := s.tsrRead || s.Ocf())
  }

  /** What the program and the clock do to the timer. TSR is read-only; OCR's low byte, on either
      access, and TSR reads go through handlers, and other registers are plain memory. */
  datatype Action = Pass(n: nat) | WriteLow(v: Byte) | ReadLow | ReadTsr | Store(offs: nat, v: Byte)
  {
    predicate Possible()
    {
      Store? ==> offs < NIREGS && offs != TSR && offs != OCR + 1
    }
  }

  function Perform(s: Timer, a: Action): Timer
    requires a.Possible()
  {
    match a
    case Pass(n) => Inc(s, n)
    case WriteLow(v) => PutOcr(s, v)
    case ReadLow => TouchOcr(s)
    case ReadTsr => GetTsr(s)
    case Store(offs, v) => s.(iram := s.iram[offs := v])
  }

  predicate AllPossible(acts: seq<Action>)
  {
    forall i | 0 <= i < |acts| :: acts[i].Possible()
  }

  function PerformAll(s: Timer, acts: seq<Action>): Timer
    requires AllPossible(acts)
  {
    if |acts| == 0 then s else Perform(PerformAll(s, acts[..|acts| - 1]), acts[|acts| - 1])
  }

  function Cycles(acts: seq<Action>): nat
  {
    if |acts| == 0 then 0
    else Cycles(acts[..|acts| - 1]) + if acts[|acts| - 1].Pass? then acts[|acts| - 1].n else 0
  }

  // ---- one step ----

  /** The prescaler has seen `n` cycles, and the counter agrees with them modulo 65536. */
  predicate InStep(s: Timer, n: nat)
  {
    s.prescIn == n && s.prescLast == n / 4 && s.frc % 0x1_0000 == n / 4 % 0x1_0000
  }

  /** Ticks since cycle count `n` when `m` more cycles have passed. */
  function TicksFrom(n: nat, m: nat): nat { (n + m) / 4 - n / 4 }

  lemma Prescaled(s: Timer, total: nat, n: nat)
    requires s.prescIn == total && s.prescLast == total / 4 && total + n < 0x1_0000_0000
    ensures NewTicks(s, n) == TicksFrom(total, n)
    ensures var t := Count(s, n);
      t.prescIn == total + n && t.prescLast == (total + n) / 4 && t.frc == s.frc + TicksFrom(total, n)
  {
    assert (total + n) % 0x1_0000_0000 == total + n;
    assert (total + n) / 4 >= total / 4;
  }

  lemma Residue(frc: nat, total: nat, n: nat)
    requires frc % 0x1_0000 == total / 4 % 0x1_0000
    ensures (frc + TicksFrom(total, n)) % 0x1_0000 == (total + n) / 4 % 0x1_0000
  {
    SameResidue(frc, total / 4, TicksFrom(total, n));
  }

  lemma SameResidue(x: nat, y: nat, k: nat)
    requires x % 0x1_0000 == y % 0x1_0000
    ensures (x + k) % 0x1_0000 == (y + k) % 0x1_0000
  {
    AddMod(x, k);
    AddMod(y, k);
  }

  lemma IncKeeps(s: Timer, n: nat)
    ensures var t := Count(s, n);
      var e := Inc(s, n);
      && e.prescIn == t.prescIn && e.prescLast == t.prescLast && e.frc % 0x1_0000 == t.frc % 0x1_0000
      && e.FrcReg() == t.frc % 0x1_0000 && e.frc < e.ocr
      && (!Matches(s, n) ==> e.frc == t.frc && e.ocr == s.ocr)
  {
    var t := Count(s, n);
    CountRegister(s, n);
    MatchKeeps(t);
    hide Count, Match, NewTicks;
    assert t.frc == s.frc + NewTicks(s, n) && t.ocr == s.ocr by {
      CountAdds(s, n);
    }
  }

  lemma CountAdds(s: Timer, n: nat)
    ensures Count(s, n).frc == s.frc + NewTicks(s, n) && Count(s, n).ocr == s.ocr
  {
    hide Hi, Lo, NewTicks;
  }

  lemma CountRegister(s: Timer, n: nat)
    ensures Count(s, n).FrcReg() == Count(s, n).frc % 0x1_0000
  {
    TicksRegister(s, NewTicks(s, n), (s.frc + NewTicks(s, n)) % 0x1_0000);
    hide WithFrc, Join, NewTicks, AddTicks;
  }

  lemma TicksRegister(s: Timer, ticks: nat, w: Word)
    requires w == (s.frc + ticks) % 0x1_0000
    ensures AddTicks(s, ticks).FrcReg() == w && AddTicks(s, ticks).frc == s.frc + ticks
  {
    StoreWord(s.iram, w);
    hide WithFrc, Join;
  }

  lemma StoreWord(iram: Iram, w: Word)
    ensures var t := WithFrc(iram, w); Join(t[FRC], t[FRC + 1]) == w
  {
    JoinHiLo(w);
    hide Hi, Lo, Join;
  }

  lemma MatchKeeps(t: Timer)
    ensures var e := Match(t);
      && e.prescIn == t.prescIn && e.prescLast == t.prescLast
      && e.frc == t.frc % 0x1_0000 && e.frc % 0x1_0000 == t.frc % 0x1_0000
      && e.ocr == e.frc + 0x1_0000 && e.FrcReg() == t.FrcReg()
  {
    hide Has, Set, Join;
  }

  /** frc < ocr holds after every timer step, whatever came before. */
  lemma BelowCompare(s: Timer, n: nat)
    ensures var e := Inc(s, n);
      e.frc < e.ocr && (Matches(s, n) ==> e.frc < 0x1_0000 && e.ocr == e.frc + 0x1_0000 && e.Ocf())
      && (!Matches(s, n) ==> e.ocr == s.ocr && e.Ocf() == s.Ocf())
  {
    SetOcf(s.iram[TSR]);
    hide Hi, Lo, NewTicks, Has, Set;
  }

  lemma SetOcf(x: Byte)
    ensures Has(Set(x, OCF), OCF)
  {
  }

  lemma IncInStep(s: Timer, total: nat, n: nat)
    requires InStep(s, total) && total + n < 0x1_0000_0000
    ensures InStep(Inc(s, n), total + n) && Inc(s, n).FrcReg() == (total + n) / 4 % 0x1_0000
  {
    Prescaled(s, total, n);
    Residue(s.frc, total, n);
    IncKeeps(s, n);
    hide Inc, Count, TicksFrom, NewTicks;
  }

  lemma OthersInStep(s: Timer, a: Action, total: nat)
    requires a.Possible() && !a.Pass? && InStep(s, total)
    ensures InStep(Perform(s, a), total)
  {
    hide Has, Clear;
  }

  // ---- runs ----

  /** From the start, the counter keeps step with the clock through any mixture of timer steps,
      register reads and register writes, unless 2^32 cycles pass. */
  lemma {:induction false} CounterInStep(acts: seq<Action>)
    requires AllPossible(acts) && Cycles(acts) < 0x1_0000_0000
    ensures InStep(PerformAll(Start, acts), Cycles(acts))
  {
    if |acts| > 0 {
      var m := |acts| - 1;
      var s := PerformAll(Start, acts[..m]);
      CounterInStep(acts[..m]);
      match acts[m]
      case Pass(n) => IncInStep(s, Cycles(acts[..m]), n);
      case a => OthersInStep(s, a, Cycles(acts[..m]));
    }
  }

  /** After a timer step the FRC register is floor(N / 4) modulo 65536, for every split of the N
      cycles from the start and whatever was written in between, FRC itself included. */
  lemma FrcRegister(acts: seq<Action>, n: nat)
    requires AllPossible(acts) && Cycles(acts) + n < 0x1_0000_0000
    ensures Perform(PerformAll(Start, acts), Pass(n)).FrcReg() == (Cycles(acts) + n) / 4 % 0x1_0000
  {
    CounterInStep(acts);
    IncInStep(PerformAll(Start, acts), Cycles(acts), n);
    hide InStep, Inc;
  }

  predicate WritesLow(acts: seq<Action>)
  {
    exists i | 0 <= i < |acts| :: acts[i].WriteLow?
  }

  /** No timer step of the run matches. */
  predicate Quiet(s: Timer, acts: seq<Action>)
    requires AllPossible(acts)
  {
    |acts| > 0 ==>
      var m := |acts| - 1;
      Quiet(s, acts[..m]) && (acts[m].Pass? ==> !Matches(PerformAll(s, acts[..m]), acts[m].n))
  }

  /** A timer step has been taken by which `v` ticks have passed since cycle count `base`. */
  predicate Due(acts: seq<Action>, base: nat, v: nat)
  {
    |acts| > 0 && (Due(acts[..|acts| - 1], base, v)
                   || (acts[|acts| - 1].Pass? && TicksFrom(base, Cycles(acts)) >= v))
  }

  /** The counter has advanced by the ticks since `base` and still compares with the same value. */
  predicate Waiting(s: Timer, t: Timer, base: nat, cycles: nat)
  {
    InStep(t, base + cycles) && t.ocr == s.ocr && t.frc == s.frc + TicksFrom(base, cycles)
  }

  lemma WaitingStep(s: Timer, t: Timer, base: nat, cycles: nat, n: nat)
    requires Waiting(s, t, base, cycles) && base + cycles + n < 0x1_0000_0000
    ensures Matches(t, n) <==> s.frc + TicksFrom(base, cycles + n) >= s.ocr
    ensures !Matches(t, n) ==> Waiting(s, Inc(t, n), base, cycles + n)
  {
    Prescaled(t, base + cycles, n);
    IncInStep(t, base + cycles, n);
    IncKeeps(t, n);
    assert TicksFrom(base, cycles) + TicksFrom(base + cycles, n) == TicksFrom(base, cycles + n);
    hide Inc, Count, NewTicks;
  }

  lemma WaitingOther(s: Timer, t: Timer, base: nat, cycles: nat, a: Action)
    requires Waiting(s, t, base, cycles) && a.Possible() && !a.Pass? && !a.WriteLow?
    ensures Waiting(s, Perform(t, a), base, cycles)
  {
    OthersInStep(t, a, base + cycles);
    hide InStep, TicksFrom, Has, Clear;
  }

  /** From a state whose compare value lies `v` ticks ahead, until OCR's low byte is written
      again, the first match comes in the first timer step by which `v` ticks have passed. */
  lemma {:induction false} FirstMatch(s: Timer, base: nat, v: nat, acts: seq<Action>)
    requires AllPossible(acts) && InStep(s, base) && s.ocr == s.frc + v
    requires !WritesLow(acts) && base + Cycles(acts) < 0x1_0000_0000
    ensures Quiet(s, acts) <==> !Due(acts, base, v)
    ensures Quiet(s, acts) ==> Waiting(s, PerformAll(s, acts), base, Cycles(acts))
  {
    if |acts| > 0 {
      var m := |acts| - 1;
      var t := PerformAll(s, acts[..m]);
      FirstMatch(s, base, v, acts[..m]);
      if Quiet(s, acts[..m]) {
        if acts[m].Pass? {
          WaitingStep(s, t, base, Cycles(acts[..m]), acts[m].n);
        } else {
          WaitingOther(s, t, base, Cycles(acts[..m]), acts[m]);
        }
      }
      hide Waiting, TicksFrom, InStep, Matches, Perform;
    }
  }

  /** An OCR low-byte write that leaves register value `v` puts the compare value `v` ahead. */
  lemma WriteAims(s: Timer, low: Byte, base: nat)
    requires InStep(s, base)
    ensures var t := PutOcr(s, low);
      InStep(t, base) && t.ocr == t.frc + t.OcrReg() && t.OcrReg() == Join(s.iram[OCR], low)
  {
    hide Has, Clear, Join;
  }

  /** Whatever has happened since the start, after an OCR low-byte write that leaves register
      value `v` the match comes in the first timer step by which `v` ticks have passed. */
  lemma MatchAfterWrite(before: seq<Action>, low: Byte, acts: seq<Action>)
    requires AllPossible(before) && AllPossible(acts) && !WritesLow(acts)
    requires Cycles(before) + Cycles(acts) < 0x1_0000_0000
    ensures var s := PutOcr(PerformAll(Start, before), low);
      Quiet(s, acts) <==> !Due(acts, Cycles(before), s.OcrReg())
  {
    CounterInStep(before);
    WriteAims(PerformAll(Start, before), low, Cycles(before));
    FirstMatch(PutOcr(PerformAll(Start, before), low), Cycles(before),
               PutOcr(PerformAll(Start, before), low).OcrReg(), acts);
  }
}

module Timer6805 {
  import opened Words
  import opened PrescaledCompare

  class PrescaledTimer {
    const iram: array<Byte>
    var frc: nat
    var ocr: nat
    var prescIn: nat
    var prescLast: nat
    var tsrRead: bool

    ghost predicate Valid() { iram.Length == NIREGS }

    ghost function View(): Timer
      requires Valid()
      reads this, iram
    {
      Timer(iram[..], frc, ocr, prescIn, prescLast, tsrRead)
    }

    constructor ()
      ensures Valid() && fresh(iram) && View() == Start
    {
      iram := new Byte[NIREGS](_ => 0);
      frc, ocr, prescIn, prescLast, tsrRead := 0, 0x1_0000, 0, 0, true;
      new;
      assert iram[..] == Zeros;
    }

    method TsrGetB() returns (tsr: Byte)
      requires Valid()
      modifies this`tsrRead
      ensures tsr == iram[TSR] && View() == GetTsr(old(View()))
    {
      tsr := iram[TSR];
      if Has(tsr, OCF) {
        tsrRead := true;
      }
    }

    method OcrGetB() returns (v: Byte)
      requires Valid()
      modifies this`tsrRead, iram
      ensures v == old(iram[OCR + 1]) && View() == TouchOcr(old(View()))
    {
      ClearIfRead();
      v := iram[OCR + 1];
    }

    method OcrPutB(v: Byte)
      requires Valid()
      modifies this`tsrRead, this`ocr, iram
      ensures View() == PutOcr(old(View()), v)
    {
      hide TouchOcr;
      iram[OCR + 1] := v;
      ocr := Join(iram[OCR], iram[OCR + 1]) + frc;
      ClearIfRead();
    }

    method ClearIfRead()
      requires Valid()
      modifies this`tsrRead, iram
      ensures View() == TouchOcr(old(View()))
    {
      if tsrRead {
        iram[TSR] := Clear(iram[TSR], OCF);
        tsrRead := false;
      }
    }

    /** timer_inc. */
    method Advance(n: nat)
      requires Valid()
      modifies this, iram
      ensures View() == Inc(old(View()), n)
    {
      hide Match, Hi, Lo;
      prescIn := (prescIn + n) % 0x1_0000_0000;
      var prescOut := prescIn / 4;
      var ticks: nat;
      if prescOut >= prescLast {
        ticks := prescOut - prescLast;
      } else {
        ticks := prescLast - prescOut;
      }
      prescLast := prescOut;
      frc := frc + ticks;
      iram[FRC] := Hi(frc % 0x1_0000);
      iram[FRC + 1] := Lo(frc % 0x1_0000);
      assert View() == Count(old(View()), n);
      if frc >= ocr {
        OnMatch();
      }
    }

    method OnMatch()
      requires Valid()
      modifies this, iram
      ensures View() == Match(old(View()))
    {
      frc := frc % 0x1_0000;
      ocr := frc + 0x1_0000;
      if !Has(iram[TSR], OCF) {
        iram[TSR] := Set(iram[TSR], OCF);
        tsrRead := false;
      }
    }
  }
}
