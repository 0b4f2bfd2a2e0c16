// Output compare of the 6811: src/arch/m6811/timer.c.

/** Each channel counts down the ticks left to its next match. The lemmas say that this is a
    comparison of the running counter with a target, modulo 65536. */
module Countdown {
  import opened Words
  import opened Sequences

  const NIREGS := 0x40
  const CHANNELS := 5

  const TCNT := 0x0E
  const TOC1 := 0x16
  const TFLG1 := 0x23

  type Iram = s: seq<Byte> | |s| == NIREGS witness Zeros + Zeros + Zeros + Zeros
  type Ticks = s: seq<int> | |s| == CHANNELS witness [0, 0, 0, 0, 0]

  datatype Timer = Timer(iram: Iram, ticks: Ticks)
  {
    function Tcnt(): Word { Join(iram[TCNT], iram[TCNT + 1]) }

    function Toc(i: nat): Word
      requires i < CHANNELS
    {
      Join(iram[TOC1 + 2 * i], iram[TOC1 + 2 * i + 1])
    }

    predicate Flag(i: nat)
      requires i < CHANNELS
    {
      Has(iram[TFLG1], Mask(i))
    }

    /** The counter value at which channel `i` will match. */
    function Target(i: nat): Word
      requires i < CHANNELS
    {
      (ticks[i] + Tcnt()) % 0x1_0000
    }

    predicate Fires(i: nat, n: nat)
      requires i < CHANNELS
    {
      ticks[i] <= n
    }
  }

  /** OC1F to OC5F. */
  function Mask(i: nat): (m: int)
    requires i < CHANNELS
    ensures m in {0x80, 0x40, 0x20, 0x10, 0x08}
  {
    match i case 0 => 0x80 case 1 => 0x40 case 2 => 0x20 case 3 => 0x10 case _ => 0x08
  }

  function Counted(ticks: int, n: nat): int
  {
    if ticks <= n then ticks - n + 0x1_0000 else ticks - n
  }

  /** timer_inc for `n` cycles leads from `s` to `t`. */
  ghost predicate Stepped(s: Timer, t: Timer, n: nat)
  {
    && t.Tcnt() == (s.Tcnt() + n) % 0x1_0000
    && (forall i: nat | i < CHANNELS :: t.ticks[i] == Counted(s.ticks[i], n))
    && (forall i: nat | i < CHANNELS :: t.Flag(i) <==> s.Flag(i) || s.Fires(i, n))
    && t.iram[TFLG1] % 8 == s.iram[TFLG1] % 8
    && (forall j | 0 <= j < NIREGS && j != TFLG1 && j != TCNT && j != TCNT + 1 :: t.iram[j] == s.iram[j])
  }

  /** A C long holding an unsigned 32-bit difference: negative only if long is 32 bits wide. */
  function AsLong(d: int, wide: bool): int
    requires 0 <= d < 0x1_0000_0000
  {
    if !wide && d >= 0x8000_0000 then d - 0x1_0000_0000 else d
  }

  /** The ticks that toc_putb latches for register word `toci`. */
  function Latched(toci: Word, tcnt: Word, wide: bool): int
  {
    var t := AsLong(Mod32(toci - tcnt), wide);
    if t < 0 then t + 0x1_0000 else t
  }

  /** Where long is 32 bits the latched count is the distance to the target; where it is wider
      that holds only if the counter has not passed the register word. */
  lemma LatchedDistance(toci: Word, tcnt: Word, wide: bool)
    ensures 0 <= Latched(toci, tcnt, wide) < 0x1_0000 <==> !wide || tcnt <= toci
    ensures (Latched(toci, tcnt, wide) + tcnt) % 0x1_0000 == toci
  {
    var d := toci - tcnt;
    assert Mod32(d) == if d < 0 then d + 0x1_0000_0000 else d;
    
  }

  /** toc_putb of a low byte leads from `s` to `t`. */
  ghost predicate LatchedBy(s: Timer, t: Timer, i: nat, v: Byte, wide: bool)
    requires i < CHANNELS
  {
    && t.iram == s.iram[TOC1 + 2 * i + 1 := v]
    && t.ticks == s.ticks[i := Latched(s.Toc(i), s.Tcnt(), wide)]
  }

  /** The target is the word that was in the register before the low byte arrived, so it is the
      word that was written exactly when the low byte did not change. */
  lemma LatchTarget(s: Timer, t: Timer, i: nat, v: Byte, wide: bool)
    requires i < CHANNELS && LatchedBy(s, t, i, v, wide)
    ensures t.Target(i) == s.Toc(i)
    ensures t.Target(i) == t.Toc(i) <==> v == Lo(s.Toc(i))
    ensures forall j: nat | j < CHANNELS && j != i :: t.Target(j) == s.Target(j)
  {
    hide Latched, Join, Lo;
    LatchedDistance(s.Toc(i), s.Tcnt(), wide);
    SameWord(s.iram[TOC1 + 2 * i], s.iram[TOC1 + 2 * i + 1], v);
    LatchedRegisters(s, t, i, v, wide);
    hide LatchedBy, Timer.Tcnt, Timer.Toc;
  }

  lemma LatchedRegisters(s: Timer, t: Timer, i: nat, v: Byte, wide: bool)
    requires i < CHANNELS && LatchedBy(s, t, i, v, wide)
    ensures t.Tcnt() == s.Tcnt() && t.ticks[i] == Latched(s.Toc(i), s.Tcnt(), wide)
    ensures s.Toc(i) == Join(s.iram[TOC1 + 2 * i], s.iram[TOC1 + 2 * i + 1])
    ensures t.Toc(i) == Join(s.iram[TOC1 + 2 * i], v)
    ensures forall j: nat | j < CHANNELS && j != i :: t.ticks[j] == s.ticks[j]
  {
    hide Latched, Join;
  }

  /** Writing 0x1234 to a compare register that held 0: after its low byte the channel aims at
      0x1200, not at 0x1234. */
  lemma StaleLatch(wide: bool)
    ensures Latched(0x1200, 0, wide) == 0x1200 != Join(0x12, 0x34)
  {
  }

  /** Where long is wider than 32 bits, a target one behind the counter is 2^32 - 1 ticks away. */
  lemma WideLatch()
    ensures Latched(0, 1, true) == 0xFFFF_FFFF && Latched(0, 1, false) == 0xFFFF
  {
  }

  lemma SameWord(hi: Byte, lo: Byte, v: Byte)
    ensures Join(hi, lo) == Join(hi, v) <==> v == lo
    ensures Lo(Join(hi, lo)) == lo
  {
  }

  /** The counter takes the value `target` while it advances by `n`. */
  ghost predicate Reaches(tcnt: Word, n: nat, target: Word)
  {
    exists k: nat :: 1 <= k <= n && After(tcnt, k) == target
  }

  function After(tcnt: Word, k: nat): Word { (tcnt + k) % 0x1_0000 }

  lemma Congruent(x: int, y: int)
    requires x % 0x1_0000 == y % 0x1_0000 && -0x1_0000 < x - y < 0x1_0000
    ensures x == y
  {
  }

  /** A channel that is counting fires in a step exactly when that step carries the counter
      through its target. A count of 0, as at power-up and after latching the counter's own
      value, fires in the next step whatever its length. */
  lemma FiresWhenReached(s: Timer, i: nat, n: nat)
    requires i < CHANNELS && InRange(s.ticks[i]) && n < 0x1_0000
    ensures s.Fires(i, n) <==> s.ticks[i] == 0 || Reaches(s.Tcnt(), n, s.Target(i))
  {
    if s.ticks[i] > 0 {
      FirstReached(s.ticks[i], s.Tcnt(), n);
    }
  }

  /** The static initial values. */
  const Zeros: seq<Byte> := [0, 0, 0, 0, 0, 0, 0, 0, 0, 0, 0, 0, 0, 0, 0, 0]
  const PowerUp := Timer(Zeros + Zeros + Zeros + Zeros, [0, 0, 0, 0, 0])

  /** A count of 0 fires without reaching its target, which is where the counter stands. */
  lemma ZeroFires(s: Timer, i: nat, n: nat)
    requires i < CHANNELS && s.ticks[i] == 0 && n < 0x1_0000
    ensures s.Fires(i, n) && !Reaches(s.Tcnt(), n, s.Target(i))
  {
    AtItself(s.Tcnt(), n);
    SmallTarget(s.Tcnt());
    hide Timer.Tcnt, Reaches;
  }

  lemma AtItself(tcnt: Word, n: nat)
    requires n < 0x1_0000
    ensures !Reaches(tcnt, n, tcnt)
  {
    forall k: nat | 1 <= k <= n ensures After(tcnt, k) != tcnt {
      MovesOn(tcnt, k);
    }
  }

  lemma MovesOn(tcnt: Word, k: nat)
    requires 1 <= k < 0x1_0000
    ensures After(tcnt, k) != tcnt
  {
  }

  lemma SmallTarget(tcnt: Word)
    ensures (0 + tcnt) % 0x1_0000 == tcnt
  {
  }

  /** From power-up every channel fires in the first step, which does not reach its target. */
  lemma PowerUpFires(i: nat, n: nat)
    requires i < CHANNELS && n < 0x1_0000
    ensures PowerUp.Fires(i, n) && !Reaches(PowerUp.Tcnt(), n, PowerUp.Target(i))
  {
    ZeroFires(PowerUp, i, n);
    hide Reaches;
  }

  lemma FirstReached(ticks: int, tcnt: Word, n: nat)
    requires 1 <= ticks <= 0x1_0000
    ensures ticks <= n <==> Reaches(tcnt, n, (ticks + tcnt) % 0x1_0000)
  {
    if ticks <= n {
      assert After(tcnt, ticks) == (ticks + tcnt) % 0x1_0000;
    } else if Reaches(tcnt, n, (ticks + tcnt) % 0x1_0000) {
      var k: nat :| 1 <= k <= n && After(tcnt, k) == (ticks + tcnt) % 0x1_0000;
      Congruent(tcnt + k, ticks + tcnt);
    }
  }

  predicate InRange(ticks: int) { 0 <= ticks <= 0x1_0000 }

  /** A timer step moves no target, and brings every count from 0..65536 into 1..65536. */
  lemma StepKeeps(s: Timer, t: Timer, n: nat, i: nat)
    requires i < CHANNELS && Stepped(s, t, n) && n < 0x1_0000
    ensures t.Target(i) == s.Target(i)
    ensures InRange(s.ticks[i]) ==> InRange(t.ticks[i]) && t.ticks[i] > 0
    ensures t.Tcnt() == (s.Tcnt() + n) % 0x1_0000 && t.ticks[i] == Counted(s.ticks[i], n)
  {
    var x, c := s.ticks[i], s.Tcnt();
    assert t.Tcnt() == (c + n) % 0x1_0000 && t.ticks[i] == Counted(x, n);
    SameTarget(x, c, n);
    hide Stepped, Timer.Tcnt;
  }

  lemma SameTarget(x: int, c: int, n: nat)
    ensures (Counted(x, n) + (c + n) % 0x1_0000) % 0x1_0000 == (x + c) % 0x1_0000
  {
  }

  // ---- runs ----

  /** `states` are the timer before and after each of the steps `ns`. */
  ghost predicate IsRun(states: seq<Timer>, ns: seq<nat>)
  {
    |states| == |ns| + 1 && forall k | 0 <= k < |ns| :: Stepped(states[k], states[k + 1], ns[k])
  }

  /** How often channel `i` fired. */
  function Fired(states: seq<Timer>, ns: seq<nat>, i: nat): nat
    requires |states| == |ns| + 1 && i < CHANNELS
  {
    if |ns| == 0 then 0
    else
      var m := |ns| - 1;
      Fired(states[..m + 1], ns[..m], i) + if states[m].Fires(i, ns[m]) then 1 else 0
  }

  /** Where the counter and a channel stand after `total` cycles in which it fired `fired` times. */
  predicate Stands(tcnt0: Word, ticks0: int, total: nat, fired: nat, tcnt: Word, ticks: int)
  {
    tcnt == (tcnt0 + total) % 0x1_0000 && ticks == ticks0 - total + 0x1_0000 * fired
  }

  /** Over a whole run: the target stays, the count stays in range and is never 0 again, and
      nothing is lost. */
  lemma {:induction false} CountdownRuns(states: seq<Timer>, ns: seq<nat>, i: nat)
    requires IsRun(states, ns) && i < CHANNELS && InRange(states[0].ticks[i])
    requires forall k | 0 <= k < |ns| :: ns[k] < 0x1_0000
    ensures var first, last := states[0], states[|ns|];
      && InRange(last.ticks[i]) && (|ns| > 0 ==> last.ticks[i] > 0) && last.Target(i) == first.Target(i)
      && Stands(first.Tcnt(), first.ticks[i], Total(ns), Fired(states, ns, i), last.Tcnt(), last.ticks[i])
    decreases |ns|
  {
    hide Total, Fired, Stands, InRange, Stepped, Timer.Target, Timer.Tcnt, Counted;
    if |ns| > 0 {
      var m := |ns| - 1;
      var s, t := states[m], states[m + 1];
      CountdownRuns(states[..m + 1], ns[..m], i);
      assert Stepped(s, t, ns[m]);
      StepKeeps(s, t, ns[m], i);
      FiredMore(states, ns, i);
      OnAgain(states[0].Tcnt(), states[0].ticks[i], Total(ns[..m]), Fired(states[..m + 1], ns[..m], i), ns[m],
              s.Tcnt(), s.ticks[i], t.Tcnt(), t.ticks[i]);
    } else {
      NoneFired(states, ns, i);
    }
  }

  lemma NoneFired(states: seq<Timer>, ns: seq<nat>, i: nat)
    requires |ns| == 0 && |states| == 1 && i < CHANNELS
    ensures var s := states[0];
      Stands(s.Tcnt(), s.ticks[i], Total(ns), Fired(states, ns, i), s.Tcnt(), s.ticks[i])
  {
  }

  lemma OnAgain(tcnt0: Word, ticks0: int, total: nat, fired: nat, n: nat,
                tcnt: Word, ticks: int, tcnt1: Word, ticks1: int)
    requires Stands(tcnt0, ticks0, total, fired, tcnt, ticks)
    requires tcnt1 == (tcnt + n) % 0x1_0000 && ticks1 == Counted(ticks, n)
    ensures Stands(tcnt0, ticks0, total + n, fired + if ticks <= n then 1 else 0, tcnt1, ticks1)
  {
    AddMod(tcnt0 + total, n);
  }

  lemma FiredMore(states: seq<Timer>, ns: seq<nat>, i: nat)
    requires |ns| > 0 && |states| == |ns| + 1 && i < CHANNELS
    ensures var m := |ns| - 1;
      && Total(ns) == Total(ns[..m]) + ns[m]
      && Fired(states, ns, i) == Fired(states[..m + 1], ns[..m], i) + if states[m].ticks[i] <= ns[m] then 1 else 0
  {
  }

  /** Over a run of N cycles in steps of at most 65535, a channel fires once for each time N
      passes its first match: floor((N + 65536 - ticks) / 65536). A count of 0 fires at the first
      step, so for it a step must have been taken. */
  lemma FiringCount(states: seq<Timer>, ns: seq<nat>, i: nat)
    requires IsRun(states, ns) && i < CHANNELS && InRange(states[0].ticks[i])
    requires forall k | 0 <= k < |ns| :: ns[k] < 0x1_0000
    ensures Fired(states, ns, i)
         == if |ns| == 0 then 0 else (Total(ns) + 0x1_0000 - states[0].ticks[i]) / 0x1_0000
  {
    CountdownRuns(states, ns, i);
    var c := Fired(states, ns, i);
    if |ns| > 0 {
      DivUnique(Total(ns) + 0x1_0000 - states[0].ticks[i], 0x1_0000, c, 0x1_0000 - states[|ns|].ticks[i]);
    } else {
      assert c == 0;
    }
    hide Total, Fired, IsRun, Stepped;
  }
}

module Timer6811 {
  import opened Words
  import opened BitStream
  import opened Countdown

  class OutputCompare {
    const iram: array<Byte>
    const ticks: array<int>
    const wideLong: bool

    ghost predicate Valid()
    {
      iram.Length == NIREGS && ticks.Length == CHANNELS
    }

    ghost function View(): Timer
      requires Valid()
      reads iram, ticks
    {
      Timer(iram[..], ticks[..])
    }

    /** The static initial values; `wide` says whether a C long exceeds 32 bits. */
    constructor (wide: bool)
      ensures Valid() && fresh(iram) && fresh(ticks) && wideLong == wide
      ensures View() == PowerUp
    {
      iram := new Byte[NIREGS](_ => 0);
      ticks := new int[CHANNELS](_ => 0);
      wideLong := wide;
      new;
      assert iram[..] == Zeros + Zeros + Zeros + Zeros && ticks[..] == [0, 0, 0, 0, 0];
    }

    method ReadWord(offs: nat) returns (w: Word)
      requires Valid() && offs + 1 < NIREGS
      ensures w == Join(iram[offs], iram[offs + 1])
    {
      w := Join(iram[offs], iram[offs + 1]);
    }

    /** tflg_putb: a one in `v` clears that flag, a zero keeps it. */
    method TflgPutB(offs: nat, v: Byte)
      requires Valid() && (offs == TFLG1 || offs == TFLG1 + 2)
      modifies iram
      ensures forall b: nat | b < 8 ::
                Has(iram[offs], Pow2(b)) <==> Has(old(iram[offs]), Pow2(b)) && !Has(v, Pow2(b))
      ensures offs == TFLG1 ==>
                forall i: nat | i < CHANNELS :: View().Flag(i) <==> old(View()).Flag(i) && !Has(v, Mask(i))
      ensures forall j | 0 <= j < NIREGS && j != offs :: iram[j] == old(iram[j])
    {
      ghost var x := iram[offs];
      iram[offs] := ByteOp(AND, iram[offs], 0xFF - v);
      forall b: nat | b < 8 ensures Has(iram[offs], Pow2(b)) <==> Has(x, Pow2(b)) && !Has(v, Pow2(b)) {
        ClearedBit(x, v, b);
      }
      hide Has, ByteOp, Pow2, Mask;
      forall i: nat | i < CHANNELS ensures Mask(i) == Pow2(7 - i) {
        MaskIsPower(i);
      }
    }

    /** toc_putb. The high byte is only stored; the low byte latches the compare value; an offset
        outside the compare registers is reported and changes nothing. */
    method TocPutB(offs: nat, v: Byte)
      requires Valid()
      modifies iram, ticks
      ensures if !(TOC1 <= offs < TOC1 + 2 * CHANNELS) then View() == old(View())
              else if offs % 2 == 0 then View() == old(View()).(iram := old(View()).iram[offs := v])
              else LatchedBy(old(View()), View(), (offs - TOC1) / 2, v, wideLong)
    {
      hide Latched;
      ghost var before := View();
      var i := 0;
      while i < CHANNELS && offs != TOC1 + 2 * i && offs != TOC1 + 2 * i + 1
        invariant 0 <= i <= CHANNELS && (offs >= TOC1 + 2 * i || offs < TOC1)
        invariant View() == before
      {
        i := i + 1;
      }
      if i < CHANNELS {
        if offs == TOC1 + 2 * i {
          iram[offs] := v;
        } else {
          Channel(offs, i);
          Latch(i);
          iram[offs] := v;
        }
      }
    }

    method Latch(i: nat)
      requires Valid() && i < CHANNELS
      modifies ticks
      ensures var s := old(View()); View() == s.(ticks := s.ticks[i := Latched(s.Toc(i), s.Tcnt(), wideLong)])
    {
      var toci := ReadWord(TOC1 + 2 * i);
      var tcnt := ReadWord(TCNT);
      var left := Remaining(toci, tcnt);
      hide Latched, Join;
      ticks[i] := left;
    }

    method Remaining(toci: Word, tcnt: Word) returns (left: int)
      ensures left == Latched(toci, tcnt, wideLong)
    {
      left := AsLong(Mod32(toci - tcnt), wideLong);
      if left < 0 {
        left := left + 0x1_0000;
      }
    }

    /** timer_inc. */
    method Advance(n: nat)
      requires Valid()
      modifies iram, ticks
      ensures Stepped(old(View()), View(), n)
    {
      hide Has, Mask, Counted, Hi, Lo, Join;
      var tcnt := ReadWord(TCNT);
      CountChannels(n);
      StoreTcnt((tcnt + n) % 0x1_0000);
    }

    method StoreTcnt(w: Word)
      requires Valid()
      modifies iram
      ensures Join(iram[TCNT], iram[TCNT + 1]) == w
      ensures forall j | 0 <= j < NIREGS && j != TCNT && j != TCNT + 1 :: iram[j] == old(iram[j])
    {
      iram[TCNT] := Hi(w);
      iram[TCNT + 1] := Lo(w);
    }

    method CountChannels(n: nat)
      requires Valid()
      modifies iram, ticks
      ensures forall j | 0 <= j < NIREGS && j != TFLG1 :: iram[j] == old(iram[j])
      ensures forall j | 0 <= j < CHANNELS :: ticks[j] == Counted(old(ticks[j]), n)
      ensures forall j: nat | j < CHANNELS ::
                Has(iram[TFLG1], Mask(j)) <==> Has(old(iram[TFLG1]), Mask(j)) || old(ticks[j]) <= n
      ensures iram[TFLG1] % 8 == old(iram[TFLG1]) % 8
    {
      hide Has, Mask;
      var i := 0;
      while i < CHANNELS
        invariant 0 <= i <= CHANNELS
        invariant forall j | 0 <= j < NIREGS && j != TFLG1 :: iram[j] == old(iram[j])
        invariant forall j | i <= j < CHANNELS :: ticks[j] == old(ticks[j])
        invariant forall j | 0 <= j < i :: ticks[j] == Counted(old(ticks[j]), n)
        invariant forall j: nat | j < CHANNELS ::
                    Has(iram[TFLG1], Mask(j)) <==> Has(old(iram[TFLG1]), Mask(j)) || (j < i && old(ticks[j]) <= n)
        invariant iram[TFLG1] % 8 == old(iram[TFLG1]) % 8
      {
        ticks[i] := ticks[i] - n;
        if ticks[i] <= 0 {
          ticks[i] := ticks[i] + 0x1_0000;
          RaiseFlag(i);
        }
        i := i + 1;
      }
    }

    method RaiseFlag(i: nat)
      requires Valid() && i < CHANNELS
      modifies iram
      ensures forall j | 0 <= j < NIREGS && j != TFLG1 :: iram[j] == old(iram[j])
      ensures forall j: nat | j < CHANNELS :: Has(iram[TFLG1], Mask(j)) <==> j == i || Has(old(iram[TFLG1]), Mask(j))
      ensures iram[TFLG1] % 8 == old(iram[TFLG1]) % 8
    {
      var x := iram[TFLG1];
      forall j: nat | j < CHANNELS ensures Has(Set(x, Mask(i)), Mask(j)) <==> j == i || Has(x, Mask(j)) {
        SetBit(x, i, j);
      }
      SetByte(x, Mask(i));
      iram[TFLG1] := Set(x, Mask(i));
      hide Has, Set, Mask;
    }
  }

  lemma Channel(offs: nat, i: nat)
    requires offs == TOC1 + 2 * i + 1
    ensures (offs - TOC1) / 2 == i && offs % 2 == 1
  {
  }

  lemma SetByte(x: Byte, m: int)
    requires m in {0x80, 0x40, 0x20, 0x10, 0x08}
    ensures 0 <= Set(x, m) < 0x100 && Set(x, m) % 8 == x % 8
  {
  }

  lemma SetBit(x: Byte, i: nat, j: nat)
    requires i < CHANNELS && j < CHANNELS
    ensures Has(Set(x, Mask(i)), Mask(j)) <==> j == i || Has(x, Mask(j))
  {
    MaskIsPower(i);
    MaskIsPower(j);
    WithBitAt(x, 7 - i, true, 7 - j);
    hide Has, Set, Mask, Pow2;
  }

  lemma ClearedBit(x: Byte, v: Byte, b: nat)
    requires b < 8
    ensures Has(ByteOp(AND, x, 0xFF - v), Pow2(b)) <==> Has(x, Pow2(b)) && !Has(v, Pow2(b))
  {
    BitsBit(AND, x, 0xFF - v, 8, b);
    OtherBit(v, 8, b);
    assert Pow2(8) == 0x100;
    hide Bit, Bits, Pow2;
  }

  /** The bits of the complement of `v` are the other ones. */
  lemma {:induction false} OtherBit(v: nat, n: nat, b: nat)
    requires b < n && v < Pow2(n)
    ensures Has(Pow2(n) - 1 - v, Pow2(b)) <==> !Has(v, Pow2(b))
    decreases n
  {
    var w := Pow2(n) - 1 - v;
    assert w / 2 == Pow2(n - 1) - 1 - v / 2 && w % 2 == 1 - v % 2;
    if b == 0 {
      assert Pow2(0) == 1;
    } else {
      HalfBit(v, b);
      HalfBit(w, b);
      OtherBit(v / 2, n - 1, b - 1);
    }
  }

  lemma MaskIsPower(i: nat)
    requires i < CHANNELS
    ensures Mask(i) == Pow2(7 - i)
  {
    assert Pow2(3) == 8 && Pow2(4) == 0x10 && Pow2(5) == 0x20 && Pow2(6) == 0x40 && Pow2(7) == 0x80;
  }
}
