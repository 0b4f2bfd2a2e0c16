// What the program and the clock do to each register of the 6303, bit by bit: src/arch/h6303/ireg.c,
// timer.c and sci.c, and how the executor reaches the registers (src/arch/m68xx/memory.c).

module RegisterAccess {
  import opened Words
  import opened Alu
  import opened BitStream
  import opened Optab
  import opened Machine
  import opened Manual
  import opened Decode
  import opened Instructions
  import Meaning
  import Simulation
  import D = Device

  // ---- bits of a copied byte ----

  /** Every bit of `v` as `bit` says. */
  predicate BitsAre(v: int, bit: nat -> bool)
  {
    0 <= v < 0x100 && forall k: nat | k < 8 :: BitOn(v, k) == bit(k)
  }

  lemma Masks()
    ensures Pow2(2) == 4 && Pow2(5) == 0x20 && Pow2(6) == 0x40 && Pow2(7) == 0x80
  {
  }

  /** Writing one bit of a byte. */
  lemma OneBitSet(x: Byte, j: nat, v: bool, y: int)
    requires j < 8 && y == if v then Set(x, Pow2(j)) else Clear(x, Pow2(j))
    ensures 0 <= y < 0x100 && forall k: nat | k < 8 :: BitOn(y, k) == if k == j then v else BitOn(x, k)
  {
    hide Set, Clear, Has;
    assert Pow2(8) == 0x100;
    WithBitBound(x, j, v, 8);
    forall k: nat | k < 8 ensures BitOn(WithBit(x, j, v), k) == if k == j then v else BitOn(x, k) {
      WithBitAt(x, j, v, k);
      HasOn(WithBit(x, j, v), k);
      HasOn(x, k);
    }
  }

  lemma HasOn(x: int, k: nat)
    ensures Has(x, Pow2(k)) == BitOn(x, k)
  {
    hide Pow2;
  }

  lemma CopyBit(x: Byte, y: Byte, j: nat, m: int)
    requires j < 8 && m == Pow2(j)
    ensures var z := Copy(x, y, m);
      0 <= z < 0x100 && forall k: nat | k < 8 :: BitOn(z, k) == if k == j then BitOn(y, k) else BitOn(x, k)
  {
    hide Set, Clear, Has, Pow2, BitOn;
    HasOn(y, j);
    OneBitSet(x, j, BitOn(y, j), Copy(x, y, m));
  }

  // ---- reads ----

  /** Registers without a read handler. */
  predicate PlainRead(offs: nat) { offs < 0x21 && offs !in {0x08, 0x0F, 0x11, 0x12} }

  lemma PlainReads(d: D.Dev, offs: nat)
    requires PlainRead(offs)
    ensures D.Get(d, offs) == D.Got(d, d.iram[offs])
  {
  }

  /** TCSR1 reads as it is, and a set OCF1 is remembered. */
  lemma ReadsTcsr1(d: D.Dev)
    ensures D.Get(d, 0x08) == D.Got(d.(tcsrRead := d.tcsrRead || BitOn(d.iram[0x08], 6)), d.iram[0x08])
  {
    hide BitOn, Pow2, Has;
    Masks();
    HasOn(d.iram[0x08], 6);
  }

  /** TCSR2 shows ICF and OCF1 of TCSR1 in its bits 7 and 6; a set OCF1 and OCF2 are remembered. */
  lemma ReadsTcsr2(d: D.Dev)
    ensures var (g, x, y) := (D.Get(d, 0x0F), d.iram[0x0F], d.iram[0x08]);
      && BitsAre(g.v, (k: nat) => if k >= 6 then BitOn(y, k) else BitOn(x, k))
      && g.d == d.(tcsrRead := d.tcsrRead || BitOn(y, 6), tcsr2Read := d.tcsr2Read || BitOn(x, 5))
  {
    hide BitOn, Pow2, Has, Copy;
    var (x, y) := (d.iram[0x0F], d.iram[0x08]);
    Masks();
    CopyBit(x, y, 6, 0x40);
    var z := Copy(x, y, 0x40);
    CopyBit(z, y, 7, 0x80);
    HasOn(Copy(z, y, 0x80), 6);
    HasOn(Copy(z, y, 0x80), 5);
    assert BitOn(Copy(z, y, 0x80), 6) == BitOn(y, 6) && BitOn(Copy(z, y, 0x80), 5) == BitOn(x, 5);
  }

  /** TRCSR shows a pending byte in bit 7 and an empty transmitter, always, in bit 5. */
  predicate StatusBits(v: int, x: Byte, pending: bool)
  {
    BitsAre(v, (k: nat) => if k == 7 then pending else k == 5 || BitOn(x, k))
  }

  lemma StatusValue(d: D.Dev)
    ensures StatusBits(D.TrcsrValue(d), d.iram[0x11], |d.pending| > 0)
  {
    hide BitOn, Pow2, Set, Clear;
    Masks();
    var (x, v) := (d.iram[0x11], D.TrcsrValue(d));
    var t := Set(x, 0x20);
    OneBitSet(x, 5, true, t);
    OneBitSet(t, 7, |d.pending| > 0, v);
  }

  lemma ReadsTrcsr(d: D.Dev)
    ensures var g := D.Get(d, 0x11); g.d == d && StatusBits(g.v, d.iram[0x11], |d.pending| > 0)
  {
    hide StatusBits, D.TrcsrValue;
    StatusValue(d);
  }

  /** While the processor runs, RDR takes the oldest pending byte, and an empty buffer starts over. */
  lemma ReadsRdr(d: D.Dev)
    ensures var g := D.Get(d, 0x12);
      && (!d.running ==> g == D.Got(d, d.iram[0x12]))
      && (d.running && |d.pending| == 0 ==> g == D.Got(d.(rxindex := 0), d.iram[0x12]))
      && (d.running && |d.pending| > 0 ==>
            && g.v == d.pending[0]
            && g.d == d.(iram := d.iram[0x12 := g.v], pending := d.pending[1..],
                         rxindex := if |d.pending| == 1 then 0 else d.rxindex + 1))
  {
  }

  // ---- writes ----

  /** Registers without a write handler. */
  predicate PlainWrite(offs: nat)
  {
    offs < 0x21 && offs !in {0x02, 0x03, 0x06, 0x07, 0x08, 0x0B, 0x0C, 0x0F, 0x11, 0x13}
  }

  lemma PlainWrites(d: D.Dev, offs: nat, v: Byte)
    requires PlainWrite(offs)
    ensures D.Put(d, offs, v) == d.(iram := d.iram[offs := v])
  {
  }

  /** A port keeps the exclusive or of what is written with its data direction register. */
  lemma WritesPort(d: D.Dev, offs: nat, v: Byte)
    requires offs in {2, 3, 6, 7}
    ensures var e := D.Put(d, offs, v);
      e == d.(iram := d.iram[offs := e.iram[offs]]) && IsXor(e.iram[offs], v, d.iram[offs - 2])
  {
    hide ByteOp, IsXor;
    Meaning.LogicMeaning(XOR, v, d.iram[offs - 2]);
  }

  /** TCSR1 keeps its three flags; a write to TCSR2 goes there too. */
  lemma WritesTcsr(d: D.Dev, offs: nat, v: Byte)
    requires offs == 0x08 || offs == 0x0F
    ensures var (e, t) := (D.Put(d, offs, v), d.iram[0x08]);
      e == d.(iram := d.iram[0x08 := e.iram[0x08]]) && BitsAre(e.iram[0x08], (k: nat) => if k >= 5 then BitOn(t, k) else BitOn(v, k))
  {
    hide BitOn, Pow2, Copy;
    var t := d.iram[0x08];
    Masks();
    CopyBit(v, t, 7, 0x80);
    var y := Copy(v, t, 0x80);
    CopyBit(y, t, 6, 0x40);
    var z := Copy(y, t, 0x40);
    CopyBit(z, t, 5, 0x20);
  }

  /** A write to either byte of OCR1 clears a remembered OCF1. */
  lemma WritesOcr1(d: D.Dev, offs: nat, v: Byte)
    requires offs == 0x0B || offs == 0x0C
    ensures var (e, t) := (D.Put(d, offs, v), d.iram[0x08]);
      && e == d.(iram := d.iram[offs := v][0x08 := e.iram[0x08]], tcsrRead := false)
      && BitsAre(e.iram[0x08], (k: nat) => BitOn(t, k) && !(k == 6 && d.tcsrRead))
  {
    hide BitOn, Pow2, Clear;
    Masks();
    var e := D.Put(d, offs, v);
    assert d.iram[offs := v][0x08] == d.iram[0x08];
    if d.tcsrRead {
      OneBitSet(d.iram[0x08], 6, false, e.iram[0x08]);
    } else {
      assert d.iram[offs := v][0x08 := e.iram[0x08]] == d.iram[offs := v];
    }
  }

  /** TRCSR is stored; its bit 2 starts or stops transmit interrupts. */
  lemma WritesTrcsr(d: D.Dev, v: Byte)
    ensures D.Put(d, 0x11, v) == d.(iram := d.iram[0x11 := v], txint := BitOn(v, 2))
  {
    hide BitOn, Pow2, D.TrcsrValue;
    var e := d.(iram := d.iram[0x11 := v]);
    TransmitBit(e);
  }

  lemma TransmitBit(d: D.Dev)
    ensures Has(D.TrcsrValue(d), 4) == BitOn(d.iram[0x11], 2)
  {
    hide BitOn, Pow2, D.TrcsrValue;
    Masks();
    StatusValue(d);
    HasOn(D.TrcsrValue(d), 2);
  }

  /** TDR is sent out at once, and enabled transmit interrupts start. */
  lemma WritesTdr(d: D.Dev, v: Byte)
    ensures D.Put(d, 0x13, v)
         == d.(iram := d.iram[0x13 := v], output := d.output + [v], txint := d.txint || BitOn(d.iram[0x11], 2))
  {
    hide BitOn, Pow2, D.TrcsrValue;
    TransmitBit(d.(iram := d.iram[0x13 := v], output := d.output + [v]));
  }

  // ---- serial input ----

  /** sci_in takes what fits into 1024 bytes behind what is pending. */
  lemma SerialInput(d: D.Dev, s: seq<Byte>)
    requires d.rxindex + |d.pending| <= 1024
    ensures var n := if |s| <= 1024 - d.rxindex - |d.pending| then |s| else 1024 - d.rxindex - |d.pending|;
      D.SciIn(d, s) == d.(pending := d.pending + s[..n])
  {
  }

  // ---- the clock ----

  /** `n` cycles take the counter to or past the compare value, before it wraps. */
  predicate Reaches(counter: int, n: nat, value: int) { counter < value <= counter + n }

  function Scale(tconr: int): int
  {
    if tconr % 4 == 1 then 8 else if tconr % 4 == 2 then 128 else 1
  }

  /** The ticks of timer 2, and whether they reach its compare value. */
  function Ticks(d: D.Dev, n: nat): int
  {
    var (counter, p) := (Pair(d.iram[0x09], d.iram[0x0A]), Scale(d.iram[0x1C]));
    (counter + n) / p - counter / p
  }

  predicate Hit1(d: D.Dev, n: nat)
  {
    Reaches(Pair(d.iram[0x09], d.iram[0x0A]), n, Pair(d.iram[0x0B], d.iram[0x0C]))
  }

  predicate Hit2(d: D.Dev, n: nat)
  {
    Reaches(Pair(d.iram[0x09], d.iram[0x0A]), n, Pair(d.iram[0x19], d.iram[0x1A]))
  }

  predicate HitT2(d: D.Dev, n: nat)
  {
    BitOn(d.iram[0x1C], 4) && Ticks(d, n) >= 0 && Reaches(d.iram[0x1D], Ticks(d, n), d.iram[0x1C])
  }

  /** `y` is `x` with bit `k` raised if `hit`. */
  predicate Raised(x: Byte, k: nat, hit: bool, y: Byte)
  {
    BitsAre(y, (i: nat) => BitOn(x, i) || (i == k && hit))
  }

  /** T2CNT counts while bit 4 of TCONR is set, and starts over by its compare value. */
  predicate Counted(d: D.Dev, n: nat, y: int)
  {
    var (cnt, tconr) := (d.iram[0x1D], d.iram[0x1C]);
    y == if !BitOn(tconr, 4) then cnt else (cnt + Ticks(d, n) - (if HitT2(d, n) then tconr else 0)) % 0x100
  }

  lemma RaisedIs(d: D.Dev, offs: nat, k: nat, m: int, hit: bool)
    requires offs < 0x21 && k < 8 && m == Pow2(k) && m in {1, 2, 4, 8, 0x10, 0x20, 0x40, 0x80}
    ensures var e := if hit then d.Raise(offs, m) else d;
      e == d.(iram := d.iram[offs := e.iram[offs]]) && Raised(d.iram[offs], k, hit, e.iram[offs])
  {
    hide BitOn, Pow2, Set;
    if hit {
      OneBitSet(d.iram[offs], k, true, Set(d.iram[offs], m));
    } else {
      ByteBound(d.iram[offs]);
    }
  }

  lemma ByteBound(x: Byte)
    ensures 0 <= x < 0x100
  {
  }

  lemma FirstCompare(d: D.Dev, n: nat)
    ensures var e := D.Compare1(d, n);
      && e == d.(iram := d.iram[0x08 := e.iram[0x08]], tcsrRead := d.tcsrRead && !Hit1(d, n))
      && Raised(d.iram[0x08], 6, Hit1(d, n), e.iram[0x08])
  {
    hide BitOn, Pow2, Set, Raised;
    Masks();
    RaisedIs(d, 0x08, 6, 0x40, Hit1(d, n));
  }

  lemma SecondCompare(d: D.Dev, n: nat)
    ensures var e := D.Compare2(d, n);
      && e == d.(iram := d.iram[0x0F := e.iram[0x0F]], tcsr2Read := d.tcsr2Read && !Hit2(d, n))
      && Raised(d.iram[0x0F], 5, Hit2(d, n), e.iram[0x0F])
  {
    hide BitOn, Pow2, Set, Raised;
    Masks();
    RaisedIs(d, 0x0F, 5, 0x20, Hit2(d, n));
  }

  lemma TicksAre(d: D.Dev, n: nat)
    ensures D.T2Ticks(d.RegW(D.FRC), n, d.iram[0x1C]) == Ticks(d, n) >= 0
  {
    hide D.T2Ticks;
    ScaleIs(d.RegW(D.FRC), n, d.iram[0x1C]);
  }

  lemma ScaleIs(frc: Word, n: nat, tconr: Byte)
    ensures D.Divisor(tconr) == Scale(tconr)
    ensures D.T2Ticks(frc, n, tconr) == (frc + n) / Scale(tconr) - frc / Scale(tconr) >= 0
  {
    match D.Divisor(tconr)
    case 1 =>
    case 8 => assert (frc + n) / 8 >= frc / 8;
    case _ => assert (frc + n) / 128 >= frc / 128;
  }

  lemma SecondTimer(d: D.Dev, n: nat)
    ensures var e := D.Timer2(d, n);
      && e == d.(iram := d.iram[0x1B := e.iram[0x1B]][0x1D := e.iram[0x1D]], tcsr2Read := d.tcsr2Read && !HitT2(d, n))
      && Raised(d.iram[0x1B], 7, HitT2(d, n), e.iram[0x1B]) && Counted(d, n, e.iram[0x1D])
  {
    hide BitOn, Pow2, Set, Raised, Ticks, D.T2Ticks;
    Masks();
    TicksAre(d, n);
    EnableBit(d);
    RaisedIs(d, 0x1B, 7, 0x80, HitT2(d, n));
    var e := D.Timer2(d, n);
    assert e.iram == d.iram[0x1B := e.iram[0x1B]][0x1D := e.iram[0x1D]];
  }

  lemma EnableBit(d: D.Dev)
    ensures D.T2Enabled(d) == BitOn(d.iram[0x1C], 4)
  {
    assert Pow2(4) == 0x10;
  }

  /** What a timer step leaves of `d`: the counter advanced, each compare flag raised exactly when
      its value is reached and its read forgotten then, timer 2 counted, all else as it was. */
  predicate Ticked(d: D.Dev, n: nat, e: D.Dev)
  {
    && Pair(e.iram[0x09], e.iram[0x0A]) == (Pair(d.iram[0x09], d.iram[0x0A]) + n) % 0x1_0000
    && Raised(d.iram[0x08], 6, Hit1(d, n), e.iram[0x08]) && Raised(d.iram[0x0F], 5, Hit2(d, n), e.iram[0x0F])
    && Raised(d.iram[0x1B], 7, HitT2(d, n), e.iram[0x1B]) && Counted(d, n, e.iram[0x1D])
    && (forall i | 0 <= i < 0x21 && i !in {0x08, 0x09, 0x0A, 0x0F, 0x1B, 0x1D} :: e.iram[i] == d.iram[i])
    && e == d.(iram := e.iram, tcsrRead := d.tcsrRead && !Hit1(d, n),
               tcsr2Read := d.tcsr2Read && !Hit2(d, n) && !HitT2(d, n))
  }

  lemma Untouched(d: D.Dev, e: D.Dev, n: nat)
    requires e.iram[0x09] == d.iram[0x09] && e.iram[0x0A] == d.iram[0x0A] && e.iram[0x19] == d.iram[0x19]
    requires e.iram[0x1A] == d.iram[0x1A] && e.iram[0x1C] == d.iram[0x1C] && e.iram[0x1D] == d.iram[0x1D]
    ensures Hit2(e, n) == Hit2(d, n) && HitT2(e, n) == HitT2(d, n)
    ensures forall y: int :: Counted(e, n, y) == Counted(d, n, y)
  {
    hide BitOn, Pair, Scale, Reaches;
    assert Ticks(e, n) == Ticks(d, n);
    hide Ticks;
  }

  lemma ClockTicks(d: D.Dev, n: nat)
    ensures Ticked(d, n, D.Tick(d, n))
  {
    hide D.Compare1, D.Compare2, D.Timer2, Raised, Counted, Hit1, Hit2, HitT2, Hi, Lo, D.NextFrc;
    var d1 := D.Compare1(d, n);
    var d2 := D.Compare2(d1, n);
    FirstCompare(d, n);
    SecondCompare(d1, n);
    Untouched(d, d1, n);
    SecondTimer(d2, n);
    Untouched(d, d2, n);
    CounterBytes(d, n, D.NextFrc(d, n));
  }

  lemma CounterBytes(d: D.Dev, n: nat, w: Word)
    requires w == D.NextFrc(d, n)
    ensures Pair(Hi(w), Lo(w)) == w == (Pair(d.iram[0x09], d.iram[0x0A]) + n) % 0x1_0000
  {
  }

  // ---- registers as operands ----

  /** While the instruction is fetched from RAM, devices do not notice. */
  lemma FetchedQuietly(s: State, op: Byte)
    requires Ready(s) && op == Code(s, 0)
    ensures var u := Fetching(s);
      && u.dev == s.dev && FetchB(u).s.dev == s.dev
      && Step(s).dev == D.Tick(Exec(u, Opcodetab(op).f).dev, Opcodetab(op).cycles)
  {
    hide Opcodetab, Exec, D.Tick, Interrupting, DueVector;
    OneByte(s);
    DueIs(s);
    Simulation.StepCases(s);
  }

  /** A direct operand below 0x21 is a register: the operation gets what reading it returns, and
      the register block is as after that read and the three cycles. */
  lemma RegisterOperand(s: State, op: Byte)
    requires Ready(s) && op == Code(s, 0) && 0x80 <= op && IsByteDigit(op % 0x10) && op / 0x10 % 4 == 1
    requires Code(s, 1) < 0x21
    ensures var (t, g) := (Step(s), D.Get(s.dev, Code(s, 1)));
      && MemoryKept(s, t) && t.dev == D.Tick(g.d, 3) && AccumulatorEffect(op, Past(s, 2), g.v, t.r)
  {
    hide Step, FetchB, Opcodetab, Exec, D.Tick, D.Get, DueVector, OperandB, AccumulatorEffect, ModeOf, AluOf;
    var u := Fetching(s);
    StepIs(s, op);
    FetchedQuietly(s, op);
    AccumulatorLaw(op, 1);
    OneByte(u);
    DirectOperand(u, op);
    AccumulatorExec(u, op, if op < 0xC0 then A else B);
  }

  lemma DirectOperand(u: State, op: Byte)
    requires op / 0x10 % 4 == 1 && FetchB(u).v < 0x21
    ensures var (f, g) := (FetchB(u), OperandB(u, ModeOf(op)));
      var got := D.Get(f.s.dev, f.v);
      g.v == got.v && g.s.dev == got.d && g.s.r == f.s.r && g.s.ram == f.s.ram && g.s.cs == f.s.cs
  {
    hide FetchB, D.Get;
  }

  /** Storing an accumulator there writes the register. */
  lemma RegisterStore(s: State, op: Byte)
    requires Ready(s) && op == Code(s, 0) && (op == 0x97 || op == 0xD7) && Code(s, 1) < 0x21
    ensures var (t, v) := (Step(s), if op == 0x97 then s.r.a else s.r.b);
      && MemoryKept(s, t) && t.dev == D.Tick(D.Put(s.dev, Code(s, 1), v), 3) && Stored(Past(s, 2), v, 0x100, t.r)
  {
    hide Step, FetchB, Opcodetab, Exec, D.Tick, D.Put, DueVector, IsMoved, KeepsHI;
    var u := Fetching(s);
    StepIs(s, op);
    FetchedQuietly(s, op);
    StoreLaw(op, 1);
    OneByte(u);
    DirectStore(u, if op == 0x97 then A else B);
  }

  lemma DirectStore(u: State, acc: Acc)
    requires FetchB(u).v < 0x21
    ensures var (f, t, v) := (FetchB(u), Exec(u, Store(acc, Dir)), GetAcc(FetchB(u).s.r, acc));
      && t.dev == D.Put(f.s.dev, f.v, v) && t.ram == f.s.ram && t.cs == f.s.cs
      && Stored(f.s.r, v, 0x100, t.r)
  {
    hide FetchB, D.Put, TestFlags, IsMoved;
    Meaning.MovedMeaning(FetchB(u).s.r.ccr, GetAcc(FetchB(u).s.r, acc), 0x100);
  }
}
