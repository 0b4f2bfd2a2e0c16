// A bus master of the X9241 potentiometers: src/boards/i2c_sim.c.

/** What a master's transactions and line movements do to the chips of WiperMemory. */
module Master {
  import opened Words
  import opened BitStream
  import opened Xicor
  import opened WiperMemory

  // ---- the bits of a transaction ----

  function Shifts(bits: seq<bool>): (evs: seq<Event>)
    ensures |evs| == |bits|
  {
    if |bits| == 0 then [] else Shifts(bits[..|bits| - 1]) + [Shift(bits[|bits| - 1])]
  }

  function AddressByte(inst: nat): (b: Byte)
    requires inst < DEVICES
    ensures b == 0x50 + inst
  {
    0x50 + inst
  }

  function CommandByte(cmd: nat, pot: nat, reg: nat): (b: Byte)
    requires cmd < 0x10 && pot < POTS && reg < 4
    ensures 0x10 * cmd + 4 * pot <= b < 0x10 * cmd + 4 * pot + 4
  {
    0x10 * cmd + 4 * pot + reg
  }

  function WriteBits(inst: nat, pot: nat, reg: nat, v: Byte): seq<bool>
    requires inst < DEVICES && pot < POTS && reg < 4
  {
    ByteBits(AddressByte(inst)) + ByteBits(CommandByte(WRITE_WIPER, pot, reg)) + ByteBits(v)
  }

  function ReadBits(inst: nat, pot: nat, reg: nat): seq<bool>
    requires inst < DEVICES && pot < POTS && reg < 4
  {
    ByteBits(AddressByte(inst)) + ByteBits(CommandByte(READ_WIPER, pot, reg))
  }

  lemma {:induction false} ShiftsAre(bits: seq<bool>)
    ensures BitsOf(Shifts(bits)) == bits
    ensures forall k | 0 <= k < |bits| :: Shifts(bits)[k].Shift?
  {
    if |bits| > 0 {
      var m := |bits| - 1;
      ShiftsAre(bits[..m]);
      assert Shifts(bits)[..m] == Shifts(bits[..m]);
    }
  }

  lemma ByteToBits(v: Byte)
    ensures FromBits(ByteBits(v)) == v
  {
    assert Pow2(8) == 0x100;
    ToThenFrom(v, 8);
  }

  lemma ByteInside(before: seq<bool>, v: Byte, after: seq<bool>, k: nat)
    requires |before| == 8 * k
    ensures ByteOf(before + ByteBits(v) + after, k) == v
  {
    ByteToBits(v);
    assert (before + ByteBits(v) + after)[8 * k..8 * k + 8] == ByteBits(v);
    hide ByteBits, FromBits;
  }

  lemma FirstByte(a: Byte, rest: seq<bool>)
    ensures ByteOf(ByteBits(a) + rest, 0) == a
  {
    ByteInside([], a, rest, 0);
    assert [] + ByteBits(a) + rest == ByteBits(a) + rest;
    hide ByteBits, ByteOf;
  }

  lemma LastByte(before: seq<bool>, c: Byte, k: nat)
    requires |before| == 8 * k
    ensures ByteOf(before + ByteBits(c), k) == c
  {
    ByteInside(before, c, [], k);
    assert before + ByteBits(c) + [] == before + ByteBits(c);
    hide ByteBits, ByteOf;
  }

  lemma WriteBytes(a: Byte, b: Byte, v: Byte)
    ensures var bits := ByteBits(a) + ByteBits(b) + ByteBits(v);
      |bits| == 24 && ByteOf(bits, 0) == a && ByteOf(bits, 1) == b && ByteOf(bits, 2) == v
  {
    Regroup(ByteBits(a), ByteBits(b), ByteBits(v));
    FirstByte(a, ByteBits(b) + ByteBits(v));
    ByteInside(ByteBits(a), b, ByteBits(v), 1);
    LastByte(ByteBits(a) + ByteBits(b), v, 2);
    hide *;
  }

  lemma Regroup(x: seq<bool>, y: seq<bool>, z: seq<bool>)
    ensures x + (y + z) == x + y + z
  {
  }

  lemma WriteBitsWrite(inst: nat, pot: nat, reg: nat, v: Byte)
    requires inst < DEVICES && pot < POTS && reg < 4
    ensures IsWrite(WriteBits(inst, pot, reg, v), inst, pot, v)
  {
    hide ByteBits, ByteOf, AddressByte, CommandByte, IsWrite;
    WriteBytes(AddressByte(inst), CommandByte(WRITE_WIPER, pot, reg), v);
    AreWrite(WriteBits(inst, pot, reg, v), inst, pot, AddressByte(inst), CommandByte(WRITE_WIPER, pot, reg), v);
  }

  lemma AreWrite(bits: seq<bool>, inst: nat, pot: nat, a: Byte, b: Byte, v: Byte)
    requires |bits| == 24 && ByteOf(bits, 0) == a && ByteOf(bits, 1) == b && ByteOf(bits, 2) == v
    requires a == 0x50 + inst && 0xA0 + 4 * pot <= b < 0xA4 + 4 * pot
    ensures IsWrite(bits, inst, pot, v)
  {
    hide ByteOf;
  }

  lemma ReadBitsRead(inst: nat, pot: nat, reg: nat)
    requires inst < DEVICES && pot < POTS && reg < 4
    ensures IsRead(ReadBits(inst, pot, reg), inst, pot)
  {
    FirstByte(AddressByte(inst), ByteBits(CommandByte(READ_WIPER, pot, reg)));
    LastByte(ByteBits(AddressByte(inst)), CommandByte(READ_WIPER, pot, reg), 1);
    hide ByteBits, ByteOf, AddressByte, CommandByte;
  }

  /** Events between a start condition and the last bit of a command: bits in any number of bytes,
      and clock pulses in which the master listens, as it does for an acknowledgement. */
  predicate IsBody(f: seq<Event>)
  {
    |f| > 0 && f[|f| - 1].Shift? && forall k | 0 <= k < |f| :: f[k].Shift? || f[k].Read?
  }

  lemma FrameOf(evs: seq<Event>, f: seq<Event>)
    requires IsBody(f)
    ensures var all := evs + [Start] + f;
      && FrameFrom(all, |evs|) && all[|evs| + 1..] == f && all[|all| - 1].Shift?
  {
    var all := evs + [Start] + f;
    forall k | |evs| < k < |all| ensures !all[k].Start? && !all[k].Stop? {
      assert all[k] == f[k - |evs| - 1];
    }
  }

  /** After any history, a start condition and a frame with the 24 bits of a write command, with
      any acknowledgement clocks in it, complete the write. */
  lemma WriteTransaction(evs: seq<Event>, f: seq<Event>, inst: nat, pot: nat, reg: nat, v: Byte)
    requires inst < DEVICES && pot < POTS && reg < 4 && IsBody(f) && BitsOf(f) == WriteBits(inst, pot, reg, v)
    ensures WriteEnds(evs + [Start] + f, inst, pot, v)
  {
    hide BitsOf, ByteBits, IsWrite, FrameFrom, IsBody, WriteBits;
    FrameOf(evs, f);
    WriteBitsWrite(inst, pot, reg, v);
  }

  lemma ReadTransaction(evs: seq<Event>, g: seq<Event>, inst: nat, pot: nat, reg: nat)
    requires inst < DEVICES && pot < POTS && reg < 4 && IsBody(g) && BitsOf(g) == ReadBits(inst, pot, reg)
    ensures ReadEnds(evs + [Start] + g, inst, pot)
  {
    hide BitsOf, ByteBits, IsRead, FrameFrom, IsBody, ReadBits;
    FrameOf(evs, g);
    ReadBitsRead(inst, pot, reg);
  }

  /** A completed write names one potentiometer and one value, so it writes no other. */
  lemma WriteIsOne(evs: seq<Event>, inst: nat, pot: nat, v: Byte, inst': nat, pot': nat, v': Byte)
    requires WriteEnds(evs, inst, pot, v) && WriteEnds(evs, inst', pot', v')
    ensures inst == inst' && pot == pot' && v == v'
  {
    var j: nat :| j < |evs| && FrameFrom(evs, j) && IsWrite(BitsOf(evs[j + 1..]), inst, pot, v);
    var k: nat :| k < |evs| && FrameFrom(evs, k) && IsWrite(BitsOf(evs[k + 1..]), inst', pot', v');
    OneFrame(evs, j, k);
    hide BitsOf, FrameFrom, ByteOf;
  }

  // ---- what leaves a potentiometer alone ----

  /** The bits are a complete write command for the potentiometer. */
  predicate WritesPot(bits: seq<bool>, inst: nat, pot: nat)
  {
    |bits| % 0x100 == 24 && IsWrite(bits, inst, pot, ByteOf(bits, 2))
  }

  /** The frame open at the end of `evs` began at `j`, if one is open: no start has come since. */
  predicate LatestStart(evs: seq<Event>, j: nat)
  {
    j < |evs| && evs[j].Start? && forall k | j < k < |evs| :: !evs[k].Start?
  }

  lemma StepSpares(all: seq<Event>, j: nat, inst: nat, pot: nat)
    requires inst < DEVICES && pot < POTS && j < |all| - 1 && LatestStart(all, j)
    requires all[|all| - 1].Shift? ==> !WritesPot(BitsOf(all[j + 1..]), inst, pot)
    ensures Wiper(Run(all), inst, pot) == Wiper(Run(all[..|all| - 1]), inst, pot)
  {
    hide BitsOf, ByteOf, Run, Place;
    forall v: Byte ensures !WriteEnds(all, inst, pot, v) {
      if WriteEnds(all, inst, pot, v) {
        WriteInLatest(all, j, inst, pot, v);
      }
    }
    OnlyWritesChange(all, inst, pot);
  }

  lemma WriteInLatest(all: seq<Event>, j: nat, inst: nat, pot: nat, v: Byte)
    requires LatestStart(all, j) && WriteEnds(all, inst, pot, v)
    ensures WritesPot(BitsOf(all[j + 1..]), inst, pot)
  {
    hide BitsOf, ByteOf;
    var i: nat :| i < |all| && FrameFrom(all, i) && IsWrite(BitsOf(all[i + 1..]), inst, pot, v);
    assert i == j;
  }

  /** A stretch of events without a start leaves the wiper alone if none of its bits completes a
      write to it. */
  lemma {:induction false} StretchSpares(evs: seq<Event>, j: nat, more: seq<Event>, inst: nat, pot: nat)
    requires inst < DEVICES && pot < POTS && LatestStart(evs, j) && forall k | 0 <= k < |more| :: !more[k].Start?
    requires forall m | 0 < m <= |more| && more[m - 1].Shift? ::
               !WritesPot(BitsOf(evs[j + 1..]) + BitsOf(more[..m]), inst, pot)
    ensures Wiper(Run(evs + more), inst, pot) == Wiper(Run(evs), inst, pot)
    decreases |more|
  {
    if |more| == 0 {
      assert evs + more == evs;
    } else {
      var m := |more| - 1;
      var all := evs + more;
      assert all[..|all| - 1] == evs + more[..m] && all[|all| - 1] == more[m];
      hide WritesPot, Run, BitsOf, Place;
      forall n | 0 < n <= m && more[..m][n - 1].Shift?
        ensures !WritesPot(BitsOf(evs[j + 1..]) + BitsOf(more[..m][..n]), inst, pot)
      {
        assert more[..m][..n] == more[..n] && more[n - 1].Shift?;
      }
      StretchSpares(evs, j, more[..m], inst, pot);
      assert all[j + 1..] == evs[j + 1..] + more && more[..|more|] == more;
      BitsJoin(evs[j + 1..], more);
      LaterStart(evs, j, more);
      StepSpares(all, j, inst, pot);
    }
  }

  lemma LaterStart(evs: seq<Event>, j: nat, more: seq<Event>)
    requires LatestStart(evs, j) && forall k | 0 <= k < |more| :: !more[k].Start?
    ensures LatestStart(evs + more, j)
  {
  }

  lemma {:induction false} BitsJoin(x: seq<Event>, y: seq<Event>)
    ensures BitsOf(x + y) == BitsOf(x) + BitsOf(y)
    decreases |y|
  {
    if |y| == 0 {
      assert x + y == x;
    } else {
      assert (x + y)[..|x + y| - 1] == x + y[..|y| - 1];
      BitsJoin(x, y[..|y| - 1]);
    }
  }

  lemma {:induction false} BitsPrefix(x: seq<Event>, m: nat)
    requires m <= |x|
    ensures BitsOf(x[..m]) <= BitsOf(x)
    decreases |x|
  {
    if m == |x| {
      assert x[..m] == x;
    } else {
      assert x[..|x| - 1][..m] == x[..m];
      BitsPrefix(x[..|x| - 1], m);
    }
  }

  lemma BitsPositive(x: seq<Event>, m: nat)
    requires 0 < m <= |x| && x[m - 1].Shift?
    ensures |BitsOf(x[..m])| > 0
  {
    assert x[..m][..m - 1] == x[..m - 1];
  }

  /** After the last bit of a write, fewer than 256 bits more, a stop among them or not, do not
      complete another. */
  lemma TrailerSpares(evs: seq<Event>, j: nat, rest: seq<Event>, inst: nat, pot: nat)
    requires inst < DEVICES && pot < POTS && LatestStart(evs, j) && |BitsOf(evs[j + 1..])| == 24
    requires forall k | 0 <= k < |rest| :: !rest[k].Start?
    requires |BitsOf(rest)| < 0x100
    ensures Wiper(Run(evs + rest), inst, pot) == Wiper(Run(evs), inst, pot)
  {
    hide BitsOf, Run, Place, IsWrite;
    forall m | 0 < m <= |rest| && rest[m - 1].Shift?
      ensures !WritesPot(BitsOf(evs[j + 1..]) + BitsOf(rest[..m]), inst, pot)
    {
      BitsPrefix(rest, m);
      BitsPositive(rest, m);
    }
    StretchSpares(evs, j, rest, inst, pot);
  }

  /** A transaction that is not a write command for the potentiometer: it begins with its only
      start, and its first two bytes are not that device's address and that command. */
  predicate Spares(t: seq<Event>, inst: nat, pot: nat)
  {
    && |t| > 0 && t[0].Start? && (forall k | 0 < k < |t| :: !t[k].Start?)
    && !(|BitsOf(t)| >= 16 && ByteOf(BitsOf(t), 0) == 0x50 + inst
         && 0xA0 + 4 * pot <= ByteOf(BitsOf(t), 1) < 0xA4 + 4 * pot)
  }

  lemma BytesOfPrefix(x: seq<bool>, y: seq<bool>, k: nat)
    requires x <= y && 8 * k + 8 <= |x|
    ensures ByteOf(x, k) == ByteOf(y, k)
  {
    assert x[8 * k..8 * k + 8] == y[8 * k..8 * k + 8];
  }

  lemma FirstIsStart(t: seq<Event>)
    requires |t| > 0 && t[0].Start?
    ensures BitsOf(t) == BitsOf(t[1..]) && t == [t[0]] + t[1..]
  {
    BitsJoin([t[0]], t[1..]);
    NoBitsIn(t[0]);
    hide BitsOf;
    assert t == [t[0]] + t[1..];
    assert [] + BitsOf(t[1..]) == BitsOf(t[1..]);
  }

  lemma NoBitsIn(e: Event)
    requires !e.Shift?
    ensures BitsOf([e]) == []
  {
    assert [e][..0] == [];
  }

  lemma PrefixSpares(x: seq<bool>, y: seq<bool>, inst: nat, pot: nat)
    requires x <= y && WritesPot(x, inst, pot)
    ensures |y| >= 16 && ByteOf(y, 0) == 0x50 + inst && 0xA0 + 4 * pot <= ByteOf(y, 1) < 0xA4 + 4 * pot
  {
    BytesOfPrefix(x, y, 0);
    BytesOfPrefix(x, y, 1);
    hide ByteOf;
  }

  lemma TransactionSpares(evs: seq<Event>, t: seq<Event>, inst: nat, pot: nat)
    requires inst < DEVICES && pot < POTS && Spares(t, inst, pot)
    ensures Wiper(Run(evs + t), inst, pot) == Wiper(Run(evs), inst, pot)
  {
    var base := evs + [Start];
    var more := t[1..];
    FirstIsStart(t);
    assert evs + t == base + more && base[|evs| + 1..] == [];
    NoBits();
    StartSpares(evs, inst, pot);
    hide BitsOf, Run, Place, WritesPot;
    forall m | 0 < m <= |more| && more[m - 1].Shift?
      ensures !WritesPot(BitsOf(base[|evs| + 1..]) + BitsOf(more[..m]), inst, pot)
    {
      BitsPrefix(more, m);
      assert [] + BitsOf(more[..m]) == BitsOf(more[..m]);
      if WritesPot(BitsOf(more[..m]), inst, pot) {
        PrefixSpares(BitsOf(more[..m]), BitsOf(t), inst, pot);
      }
    }
    StretchSpares(base, |evs|, more, inst, pot);
  }

  lemma StartSpares(evs: seq<Event>, inst: nat, pot: nat)
    requires inst < DEVICES && pot < POTS
    ensures Wiper(Run(evs + [Start]), inst, pot) == Wiper(Run(evs), inst, pot)
  {
    var all := evs + [Start];
    assert all[..|all| - 1] == evs;
    RunStep(all);
    hide Run, Place;
  }

  function Flat(ts: seq<seq<Event>>): seq<Event>
  {
    if |ts| == 0 then [] else Flat(ts[..|ts| - 1]) + ts[|ts| - 1]
  }

  lemma {:induction false} TransactionsSpare(evs: seq<Event>, ts: seq<seq<Event>>, inst: nat, pot: nat)
    requires inst < DEVICES && pot < POTS && forall i | 0 <= i < |ts| :: Spares(ts[i], inst, pot)
    ensures Wiper(Run(evs + Flat(ts)), inst, pot) == Wiper(Run(evs), inst, pot)
    decreases |ts|
  {
    if |ts| == 0 {
      assert evs + Flat(ts) == evs;
    } else {
      var m := |ts| - 1;
      TransactionsSpare(evs, ts[..m], inst, pot);
      hide Spares, Run, Place;
      assert evs + Flat(ts) == (evs + Flat(ts[..m])) + ts[m];
      TransactionSpares(evs + Flat(ts[..m]), ts[m], inst, pot);
    }
  }

  // ---- write, other transactions, read ----

  /** What a master sends: a write command, whatever follows its last bit, other transactions, and
      a read command. */
  function Session(f: seq<Event>, rest: seq<Event>, ts: seq<seq<Event>>, g: seq<Event>): seq<Event>
  {
    [Start] + f + rest + Flat(ts) + [Start] + g
  }

  predicate WriteThenRead(f: seq<Event>, rest: seq<Event>, ts: seq<seq<Event>>, g: seq<Event>,
                          inst: nat, pot: nat, reg: nat, reg': nat, v: Byte)
    requires inst < DEVICES && pot < POTS && reg < 4 && reg' < 4
  {
    && IsBody(f) && BitsOf(f) == WriteBits(inst, pot, reg, v)
    && (forall k | 0 <= k < |rest| :: !rest[k].Start?) && |BitsOf(rest)| < 0x100
    && (forall i | 0 <= i < |ts| :: Spares(ts[i], inst, pot))
    && IsBody(g) && BitsOf(g) == ReadBits(inst, pot, reg')
  }

  lemma WrittenNow(h: seq<Event>, f: seq<Event>, rest: seq<Event>, inst: nat, pot: nat, reg: nat, v: Byte)
    requires inst < DEVICES && pot < POTS && reg < 4
    requires IsBody(f) && BitsOf(f) == WriteBits(inst, pot, reg, v)
    requires (forall k | 0 <= k < |rest| :: !rest[k].Start?) && |BitsOf(rest)| < 0x100
    ensures Wiper(Run(h + [Start] + f + rest), inst, pot) == v
  {
    hide BitsOf, Run, Place, WriteEnds, IsBody, WriteBits;
    var w := h + [Start] + f;
    WriteTransaction(h, f, inst, pot, reg, v);
    WriteTakes(w, inst, pot, v);
    FrameOf(h, f);
    FrameIsLatest(w, |h|);
    WriteBitsWrite(inst, pot, reg, v);
    WriteBitsSize(inst, pot, reg, v);
    TrailerSpares(w, |h|, rest, inst, pot);
  }

  lemma FrameIsLatest(evs: seq<Event>, j: nat)
    requires FrameFrom(evs, j)
    ensures LatestStart(evs, j)
  {
  }

  lemma WriteBitsSize(inst: nat, pot: nat, reg: nat, v: Byte)
    requires inst < DEVICES && pot < POTS && reg < 4
    ensures |WriteBits(inst, pot, reg, v)| == 24 && |ReadBits(inst, pot, reg)| == 16
  {
    hide ByteBits;
  }

  /** The frame of a read command spares every wiper. */
  lemma ReadFrameSpares(evs: seq<Event>, g: seq<Event>, inst: nat, pot: nat, reg: nat)
    requires inst < DEVICES && pot < POTS && reg < 4 && IsBody(g) && BitsOf(g) == ReadBits(inst, pot, reg)
    ensures Wiper(Run(evs + [Start] + g), inst, pot) == Wiper(Run(evs), inst, pot)
  {
    var t := [Start] + g;
    assert evs + [Start] + g == evs + t && t[1..] == g;
    FirstIsStart(t);
    ReadBitsRead(inst, pot, reg);
    hide BitsOf, ByteOf, Run, Place, ReadBits;
    assert Spares(t, inst, pot);
    TransactionSpares(evs, t, inst, pot);
  }

  /** The potentiometers are a memory: after any history, a write, any other transactions that are
      not writes to the same potentiometer, and a read of it, the next eight falling clock edges in
      input mode pass the value written, most significant bit first. */
  lemma WriteThenReadReturns(h: seq<Event>, f: seq<Event>, rest: seq<Event>, ts: seq<seq<Event>>, g: seq<Event>,
                             inst: nat, pot: nat, reg: nat, reg': nat, v: Byte)
    requires inst < DEVICES && pot < POTS && reg < 4 && reg' < 4
    requires WriteThenRead(f, rest, ts, g, inst, pot, reg, reg', v)
    ensures var evs := h + Session(f, rest, ts, g);
      Run(evs + Reads(8)).trace == Run(evs).trace + ByteBits(v)
  {
    var w := h + [Start] + f + rest;
    hide BitsOf, Run, Place, IsBody, Flat, Spares, WriteBits, ReadBits, ByteBits;
    WrittenNow(h, f, rest, inst, pot, reg, v);
    TransactionsSpare(w, ts, inst, pot);
    ReadBack(w + Flat(ts), g, inst, pot, reg', v);
    SessionIs(h, f, rest, ts, g);
  }

  lemma SessionIs(h: seq<Event>, f: seq<Event>, rest: seq<Event>, ts: seq<seq<Event>>, g: seq<Event>)
    ensures h + Session(f, rest, ts, g) == (h + [Start] + f + rest) + Flat(ts) + [Start] + g
  {
    hide Flat;
  }

  /** Reading a potentiometer shifts its value out. */
  lemma ReadBack(x: seq<Event>, g: seq<Event>, inst: nat, pot: nat, reg: nat, v: Byte)
    requires inst < DEVICES && pot < POTS && reg < 4 && IsBody(g) && BitsOf(g) == ReadBits(inst, pot, reg)
    requires Wiper(Run(x), inst, pot) == v
    ensures var evs := x + [Start] + g; Run(evs + Reads(8)).trace == Run(evs).trace + ByteBits(v)
  {
    hide BitsOf, Run, Place, IsBody, ReadBits, ReadEnds, ByteBits;
    ReadFrameSpares(x, g, inst, pot, reg);
    ReadTransaction(x, g, inst, pot, reg);
    ReadAnswers(x + [Start] + g, inst, pot);
    EightAnswers(x + [Start] + g, v);
  }

  lemma EightAnswers(evs: seq<Event>, v: Byte)
    requires var c := Run(evs); c.inside && c.response == ByteBits(v)
    ensures Run(evs + Reads(8)).trace == Run(evs).trace + ByteBits(v)
  {
    ReadsShiftOut(Run(evs), 8);
    ApplyMore(PowerUp, evs, Reads(8));
    hide ByteBits, ApplyAll;
    assert ByteBits(v)[..8] == ByteBits(v);
  }

  /** The same on the bus lines: `es` is every edge from power-up to the end of the read command,
      `q` any edges with eight falling ones in input mode and no other event. */
  lemma WriteThenReadOnLines(es: seq<Edge>, q: seq<Edge>, h: seq<Event>, f: seq<Event>, rest: seq<Event>,
                             ts: seq<seq<Event>>, g: seq<Event>,
                             inst: nat, pot: nat, reg: nat, reg': nat, v: Byte)
    requires inst < DEVICES && pot < POTS && reg < 4 && reg' < 4
    requires WriteThenRead(f, rest, ts, g, inst, pot, reg, reg', v)
    requires Events(Idle, es) == h + Session(f, rest, ts, g) && Events(SimAll(Idle, es), q) == Reads(8)
    ensures SimAll(SimAll(Idle, es), q).chip.trace == SimAll(Idle, es).chip.trace + ByteBits(v)
  {
    var evs := h + Session(f, rest, ts, g);
    hide WriteThenRead, Session, ByteBits, ApplyAll, Events, SimAll, Reads;
    WriteThenReadReturns(h, f, rest, ts, g, inst, pot, reg, reg', v);
    EdgesAreEvents(Idle, es);
    EdgesAreEvents(SimAll(Idle, es), q);
    ApplyMore(PowerUp, evs, Reads(8));
  }

  // ---- driving the lines ----

  /** The edges with which a master produces an event, from a low clock (any level for Start). Before
      a start or stop it raises the clock, and may be driving data or listening meanwhile. */
  function Drive(e: Event, driving: bool): seq<Edge>
  {
    match e
    case Start => [Edge(false, true, true), Edge(true, true, driving), Edge(true, false, true), Edge(false, false, true)]
    case Stop => [Edge(false, false, true), Edge(true, false, driving), Edge(true, true, true), Edge(false, true, true)]
    case Shift(b) => [Edge(false, b, true), Edge(true, b, true), Edge(false, b, true)]
    case Read => [Edge(false, true, false), Edge(true, true, false), Edge(false, true, false)]
  }

  /** What the chips see: a master that drives data while it raises the clock before a start or
      stop clocks one more bit in. */
  function Seen(e: Event, driving: bool): seq<Event>
  {
    match e
    case Start => if driving then [Shift(true), Start] else [Start]
    case Stop => if driving then [Shift(false), Stop] else [Stop]
    case _ => [e]
  }

  function DriveAll(evs: seq<Event>, driving: bool): seq<Edge>
  {
    if |evs| == 0 then [] else DriveAll(evs[..|evs| - 1], driving) + Drive(evs[|evs| - 1], driving)
  }

  function SeenAll(evs: seq<Event>, driving: bool): seq<Event>
  {
    if |evs| == 0 then [] else SeenAll(evs[..|evs| - 1], driving) + Seen(evs[|evs| - 1], driving)
  }

  /** Levels of the lines after some edges. */
  function Levels(clock: bool, data: bool, es: seq<Edge>): Edge
  {
    if |es| == 0 then Edge(clock, data, true) else es[|es| - 1]
  }

  /** The events of edges given the line levels alone. */
  function LineEvents(clock: bool, data: bool, es: seq<Edge>): seq<Event>
  {
    if |es| == 0 then []
    else
      var l := Levels(clock, data, es[..|es| - 1]);
      LineEvents(clock, data, es[..|es| - 1]) + Decoded(l.clock, l.data, es[|es| - 1])
  }

  lemma {:induction false} EventsOfLines(b: Bus, es: seq<Edge>)
    ensures Events(b, es) == LineEvents(b.clock, b.data, es)
  {
    if |es| > 0 {
      var m := |es| - 1;
      EventsOfLines(b, es[..m]);
      LinesFollow(b, es[..m]);
      hide SimAll, Decoded;
    }
  }

  lemma NoLines(clock: bool, data: bool)
    ensures LineEvents(clock, data, []) == []
  {
  }

  lemma LineStep(clock: bool, data: bool, es: seq<Edge>, e: Edge)
    ensures var l := Levels(clock, data, es);
      LineEvents(clock, data, es + [e]) == LineEvents(clock, data, es) + Decoded(l.clock, l.data, e)
  {
    assert (es + [e])[..|es|] == es;
    hide Decoded;
  }

  lemma LevelsJoin(clock: bool, data: bool, es: seq<Edge>, fs: seq<Edge>)
    ensures var l := Levels(clock, data, es);
      var a, b := Levels(clock, data, es + fs), Levels(l.clock, l.data, fs);
      a.clock == b.clock && a.data == b.data
  {
  }

  lemma {:induction false} LinesJoin(clock: bool, data: bool, es: seq<Edge>, fs: seq<Edge>)
    ensures var l := Levels(clock, data, es);
      LineEvents(clock, data, es + fs) == LineEvents(clock, data, es) + LineEvents(l.clock, l.data, fs)
    decreases |fs|
  {
    var l := Levels(clock, data, es);
    NoLines(l.clock, l.data);
    hide LineEvents, Decoded, Levels;
    if |fs| == 0 {
      assert es + fs == es && fs == [];
    } else {
      var gs, e := fs[..|fs| - 1], fs[|fs| - 1];
      assert fs == gs + [e] && es + fs == (es + gs) + [e];
      LinesJoin(clock, data, es, gs);
      LevelsJoin(clock, data, es, gs);
      LineStep(clock, data, es + gs, e);
      LineStep(l.clock, l.data, gs, e);
    }
  }

  lemma TwoEdges(clock: bool, data: bool, d: Edge, e: Edge)
    ensures LineEvents(clock, data, [d, e]) == Decoded(clock, data, d) + Decoded(d.clock, d.data, e)
  {
    NoLines(clock, data);
    LineStep(clock, data, [], d);
    LineStep(clock, data, [d], e);
    assert [] + [d] == [d] && [d] + [e] == [d, e];
    hide LineEvents, Decoded;
  }

  lemma ThreeEdges(clock: bool, data: bool, d: Edge, e: Edge, f: Edge)
    ensures LineEvents(clock, data, [d, e, f]) == LineEvents(clock, data, [d, e]) + Decoded(e.clock, e.data, f)
    ensures Levels(clock, data, [d, e, f]) == f
  {
    LineStep(clock, data, [d, e], f);
    assert [d, e] + [f] == [d, e, f];
    hide LineEvents, Decoded;
  }

  lemma FourEdges(clock: bool, data: bool, d: Edge, e: Edge, f: Edge, g: Edge)
    ensures LineEvents(clock, data, [d, e, f, g]) == LineEvents(clock, data, [d, e, f]) + Decoded(f.clock, f.data, g)
    ensures Levels(clock, data, [d, e, f, g]) == g
  {
    LineStep(clock, data, [d, e, f], g);
    assert [d, e, f] + [g] == [d, e, f, g];
    hide LineEvents, Decoded;
  }

  lemma DriveOne(clock: bool, data: bool, e: Event, driving: bool)
    requires !clock || e.Start?
    ensures LineEvents(clock, data, Drive(e, driving)) == Seen(e, driving)
    ensures !Levels(clock, data, Drive(e, driving)).clock
  {
    hide LineEvents, Levels;
    var d := Drive(e, driving);
    TwoEdges(clock, data, d[0], d[1]);
    ThreeEdges(clock, data, d[0], d[1], d[2]);
    if e.Start? || e.Stop? {
      FourEdges(clock, data, d[0], d[1], d[2], d[3]);
      assert d == [d[0], d[1], d[2], d[3]];
    } else {
      assert d == [d[0], d[1], d[2]];
    }
  }

  /** Decoding inverts driving: the chips see exactly what the master sends, from any levels of
      the lines at a start, and from a low clock otherwise. */
  lemma {:induction false} DriveDecodes(clock: bool, data: bool, evs: seq<Event>, driving: bool)
    requires !clock || (|evs| > 0 && evs[0].Start?)
    ensures LineEvents(clock, data, DriveAll(evs, driving)) == SeenAll(evs, driving)
    ensures !Levels(clock, data, DriveAll(evs, driving)).clock
    decreases |evs|
  {
    hide LineEvents, Drive, Seen, Levels;
    NoLines(clock, data);
    if |evs| == 0 {
      SameLevels(clock, data);
    } else {
      var m := |evs| - 1;
      if m == 0 {
        OnlyOne(evs, driving);
        DriveOne(clock, data, evs[0], driving);
      } else {
        DriveDecodes(clock, data, evs[..m], driving);
        ThenDrive(clock, data, DriveAll(evs[..m], driving), SeenAll(evs[..m], driving), evs[m], driving);
      }
    }
  }

  lemma SameLevels(clock: bool, data: bool)
    ensures Levels(clock, data, []).clock == clock
  {
  }

  lemma OnlyOne(evs: seq<Event>, driving: bool)
    requires |evs| == 1
    ensures DriveAll(evs, driving) == Drive(evs[0], driving) && SeenAll(evs, driving) == Seen(evs[0], driving)
  {
    hide Drive, Seen;
    assert evs[..0] == [];
  }

  lemma ThenDrive(clock: bool, data: bool, d: seq<Edge>, evs: seq<Event>, e: Event, driving: bool)
    requires LineEvents(clock, data, d) == evs && !Levels(clock, data, d).clock
    ensures LineEvents(clock, data, d + Drive(e, driving)) == evs + Seen(e, driving)
    ensures !Levels(clock, data, d + Drive(e, driving)).clock
  {
    var l := Levels(clock, data, d);
    LinesJoin(clock, data, d, Drive(e, driving));
    LevelsJoin(clock, data, d, Drive(e, driving));
    DriveOne(l.clock, l.data, e, driving);
    hide LineEvents, Drive, Levels, Seen;
  }

  /** So driving a list of events makes the chips do exactly what they see. */
  lemma DrivenBus(b: Bus, evs: seq<Event>, driving: bool)
    requires !b.clock || (|evs| > 0 && evs[0].Start?)
    ensures Events(b, DriveAll(evs, driving)) == SeenAll(evs, driving)
    ensures var c := SimAll(b, DriveAll(evs, driving));
      c.chip == ApplyAll(b.chip, SeenAll(evs, driving)) && !c.clock
  {
    hide LineEvents, ApplyAll, SimAll;
    DriveDecodes(b.clock, b.data, evs, driving);
    EventsOfLines(b, DriveAll(evs, driving));
    EdgesAreEvents(b, DriveAll(evs, driving));
    ClockAfter(b, DriveAll(evs, driving));
    hide DriveAll, SeenAll;
  }

  lemma ClockAfter(b: Bus, es: seq<Edge>)
    ensures SimAll(b, es).clock == Levels(b.clock, b.data, es).clock
  {
    LinesFollow(b, es);
    hide SimAll;
  }

  lemma {:induction false} SeenJoin(x: seq<Event>, y: seq<Event>, driving: bool)
    ensures SeenAll(x + y, driving) == SeenAll(x, driving) + SeenAll(y, driving)
    decreases |y|
  {
    if |y| == 0 {
      assert x + y == x;
    } else {
      assert (x + y)[..|x + y| - 1] == x + y[..|y| - 1];
      SeenJoin(x, y[..|y| - 1], driving);
    }
  }

  lemma {:induction false} BodySeen(f: seq<Event>, driving: bool)
    requires forall k | 0 <= k < |f| :: f[k].Shift? || f[k].Read?
    ensures SeenAll(f, driving) == f
  {
    if |f| > 0 {
      BodySeen(f[..|f| - 1], driving);
      assert f == f[..|f| - 1] + [f[|f| - 1]];
    }
  }

  /** What a master that writes a potentiometer, stops, and reads it back drives onto the lines. */
  function WriteStopRead(f: seq<Event>, g: seq<Event>): seq<Event>
  {
    [Start] + f + [Read, Stop] + [Start] + g
  }

  /** What is seen after the write's last bit and before the read's start. */
  function Between(driving: bool): seq<Event>
  {
    if driving then [Read, Shift(false), Stop, Shift(true)] else [Read, Stop]
  }

  lemma WriteStopReadSeen(f: seq<Event>, g: seq<Event>, driving: bool)
    requires IsBody(f) && IsBody(g)
    ensures SeenAll(WriteStopRead(f, g), driving)
         == (if driving then [Shift(true)] else []) + Session(f, Between(driving), [], g)
  {
    hide SeenAll, Seen, Between, Session;
    BodySeen(f, driving);
    BodySeen(g, driving);
    SeenJoin([Start] + f + [Read, Stop] + [Start], g, driving);
    SeenJoin([Start] + f + [Read, Stop], [Start], driving);
    SeenJoin([Start] + f, [Read, Stop], driving);
    SeenJoin([Start], f, driving);
    OneSeen(Start, driving);
    TwoSeen(driving);
    SeenRegrouped(f, g, driving);
  }

  lemma SeenRegrouped(f: seq<Event>, g: seq<Event>, driving: bool)
    ensures Seen(Start, driving) + f + ([Read] + Seen(Stop, driving)) + Seen(Start, driving) + g
         == (if driving then [Shift(true)] else []) + Session(f, Between(driving), [], g)
  {
    assert Flat([]) == [];
    hide Flat;
    if driving {
      assert [Shift(true), Start] == [Shift(true)] + [Start];
      assert [Read, Shift(false), Stop, Shift(true)] == [Read] + [Shift(false), Stop] + [Shift(true)];
    } else {
      assert [Read, Stop] == [Read] + [Stop];
    }
  }

  lemma OneSeen(e: Event, driving: bool)
    ensures SeenAll([e], driving) == Seen(e, driving)
  {
    OnlyOne([e], driving);
  }

  lemma TwoSeen(driving: bool)
    ensures SeenAll([Read, Stop], driving) == [Read] + Seen(Stop, driving)
  {
    SeenJoin([Read], [Stop], driving);
    OneSeen(Read, driving);
    OneSeen(Stop, driving);
    assert [Read] + [Stop] == [Read, Stop];
  }

  lemma BetweenBits(driving: bool)
    ensures |BitsOf(Between(driving))| < 0x100 && forall k | 0 <= k < |Between(driving)| :: !Between(driving)[k].Start?
  {
    BitsAtMost(Between(driving));
  }

  lemma {:induction false} BitsAtMost(x: seq<Event>)
    ensures |BitsOf(x)| <= |x|
  {
    if |x| > 0 {
      BitsAtMost(x[..|x| - 1]);
    }
  }

  /** End to end, for masters of both kinds and from any history of line movements: drive a write
      with its acknowledgement clocks, a stop, a start and a read command, then clock eight bits
      in: they are the value written. */
  lemma DrivenWriteThenRead(es: seq<Edge>, driving: bool, f: seq<Event>, g: seq<Event>,
                            inst: nat, pot: nat, reg: nat, reg': nat, v: Byte)
    requires inst < DEVICES && pot < POTS && reg < 4 && reg' < 4
    requires IsBody(f) && BitsOf(f) == WriteBits(inst, pot, reg, v)
    requires IsBody(g) && BitsOf(g) == ReadBits(inst, pot, reg')
    ensures var b := SimAll(Idle, es);
      var c := SimAll(b, DriveAll(WriteStopRead(f, g), driving));
      SimAll(c, DriveAll(Reads(8), driving)).chip.trace == c.chip.trace + ByteBits(v)
  {
    var p := if driving then [Shift(true)] else [];
    hide IsBody, BitsOf, WriteBits, ReadBits, SimAll, DriveAll, Session, ByteBits, Reads, Between, Run;
    DrivenChips(es, driving, f, g, p);
    BetweenBits(driving);
    WriteThenReadReturns(Events(Idle, es) + p, f, Between(driving), [], g, inst, pot, reg, reg', v);
  }

  lemma DrivenChips(es: seq<Edge>, driving: bool, f: seq<Event>, g: seq<Event>, p: seq<Event>)
    requires IsBody(f) && IsBody(g) && p == if driving then [Shift(true)] else []
    ensures var c := SimAll(SimAll(Idle, es), DriveAll(WriteStopRead(f, g), driving));
      var evs := Events(Idle, es) + p + Session(f, Between(driving), [], g);
      && c.chip == Run(evs)
      && SimAll(c, DriveAll(Reads(8), driving)).chip == Run(evs + Reads(8))
  {
    var b := SimAll(Idle, es);
    var d := WriteStopRead(f, g);
    assert d[0].Start?;
    hide IsBody, SimAll, DriveAll, SeenAll, ApplyAll, Session, Reads, Between, WriteStopRead;
    EdgesAreEvents(Idle, es);
    DrivenBus(b, d, driving);
    WriteStopReadSeen(f, g, driving);
    ReadsSeen(8, driving);
    DrivenBus(SimAll(b, DriveAll(d, driving)), Reads(8), driving);
    SameRuns(Events(Idle, es), p, Session(f, Between(driving), [], g), Reads(8));
  }

  lemma SameRuns(x: seq<Event>, p: seq<Event>, y: seq<Event>, z: seq<Event>)
    ensures ApplyAll(ApplyAll(PowerUp, x), p + y) == Run(x + p + y)
    ensures ApplyAll(ApplyAll(ApplyAll(PowerUp, x), p + y), z) == Run(x + p + y + z)
  {
    ApplyMore(PowerUp, x, p + y);
    assert x + (p + y) == x + p + y;
    ApplyMore(PowerUp, x + p + y, z);
    hide ApplyAll;
  }

  lemma ReadsSeen(n: nat, driving: bool)
    ensures SeenAll(Reads(n), driving) == Reads(n)
  {
    AllReads(n);
    BodySeen(Reads(n), driving);
    hide SeenAll, Reads;
  }

  lemma {:induction false} AllReads(n: nat)
    ensures forall k | 0 <= k < n :: Reads(n)[k].Read?
    decreases n
  {
    if n > 0 {
      AllReads(n - 1);
    }
  }

  /** A write command byte by byte, with the clock on which its acknowledgement is read after each
      byte but the last, is such a frame. */
  lemma AckedWrite(inst: nat, pot: nat, reg: nat, v: Byte)
    requires inst < DEVICES && pot < POTS && reg < 4
    ensures var a, b, c := ByteBits(AddressByte(inst)), ByteBits(CommandByte(WRITE_WIPER, pot, reg)), ByteBits(v);
      var f := Shifts(a) + [Read] + Shifts(b) + [Read] + Shifts(c);
      IsBody(f) && BitsOf(f) == WriteBits(inst, pot, reg, v)
  {
    var a, b, c := ByteBits(AddressByte(inst)), ByteBits(CommandByte(WRITE_WIPER, pot, reg)), ByteBits(v);
    AckedBits(a, b);
    AckedBody(Shifts(a) + [Read] + Shifts(b), c);
    hide ByteBits, Shifts, BitsOf;
  }

  lemma AckedRead(inst: nat, pot: nat, reg: nat)
    requires inst < DEVICES && pot < POTS && reg < 4
    ensures var a, b := ByteBits(AddressByte(inst)), ByteBits(CommandByte(READ_WIPER, pot, reg));
      var g := Shifts(a) + [Read] + Shifts(b);
      IsBody(g) && BitsOf(g) == ReadBits(inst, pot, reg)
  {
    AckedBits(ByteBits(AddressByte(inst)), ByteBits(CommandByte(READ_WIPER, pot, reg)));
    hide ByteBits, Shifts, BitsOf;
  }

  lemma AckedBits(a: seq<bool>, b: seq<bool>)
    requires |a| > 0 && |b| > 0
    ensures var f := Shifts(a) + [Read] + Shifts(b); IsBody(f) && BitsOf(f) == a + b
  {
    ShiftsAre(a);
    assert IsBody(Shifts(a));
    AckedBody(Shifts(a), b);
    hide Shifts, BitsOf;
  }

  lemma AckedBody(f: seq<Event>, b: seq<bool>)
    requires IsBody(f) && |b| > 0
    ensures var g := f + [Read] + Shifts(b); IsBody(g) && BitsOf(g) == BitsOf(f) + b
  {
    ShiftsAre(b);
    BitsJoin(f + [Read], Shifts(b));
    BitsJoin(f, [Read]);
    NoBitsIn(Read);
    hide Shifts, BitsOf, IsBody;
    BodyGoesOn(f, Shifts(b));
    assert BitsOf(f) + [] == BitsOf(f);
  }

  lemma BodyGoesOn(f: seq<Event>, y: seq<Event>)
    requires IsBody(f) && |y| > 0 && forall k | 0 <= k < |y| :: y[k].Shift?
    ensures IsBody(f + [Read] + y)
  {
    var g := f + [Read] + y;
    forall k | 0 <= k < |g| ensures g[k].Shift? || g[k].Read? {
      if k < |f| {
        assert g[k] == f[k];
      } else if k > |f| {
        assert g[k] == y[k - |f| - 1];
      }
    }
    assert g[|g| - 1] == y[|y| - 1];
  }
}
