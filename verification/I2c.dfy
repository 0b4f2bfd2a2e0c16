// Bit-level I2C decoder and X9241 potentiometers: src/boards/i2c_sim.c.

/** The simulated chips, as the bits a master has sent them and the bits they will answer. */
module Xicor {
  import opened Words
  import opened BitStream

  const X9241_ID := 5
  const READ_WIPER := 9
  const WRITE_WIPER := 10
  const DEVICES := 16
  const POTS := 4

  type Wipers = s: seq<Byte> | |s| == 64 witness Zeros + Zeros + Zeros + Zeros

  /** `sent` is what the master has clocked out since the start condition; `response` is what it
      has still to clock in; `trace` is every bit passed to i2c_input. */
  datatype Chip = Chip(inside: bool, sent: seq<bool>, response: seq<bool>, device: nat,
                       wipers: Wipers, trace: seq<bool>)

  const Zeros: seq<Byte> := [0, 0, 0, 0, 0, 0, 0, 0, 0, 0, 0, 0, 0, 0, 0, 0]
  const NoWipers: Wipers := Zeros + Zeros + Zeros + Zeros
  const PowerUp := Chip(false, [], [], 0, NoWipers, [])

  function ByteOf(bits: seq<bool>, k: nat): (b: Byte)
    requires 8 * k + 8 <= |bits|
  {
    FromBitsBound(bits[8 * k..8 * k + 8]);
    assert Pow2(8) == 0x100;
    FromBits(bits[8 * k..8 * k + 8])
  }

  /** The two digits of a byte, and the potentiometer number in a command byte. */
  function Upper(b: Byte): (d: nat)
    ensures d < 0x10
  {
    b / 0x10
  }

  function Lower(b: Byte): (d: nat)
    ensures d < 0x10
  {
    b % 0x10
  }

  function PotOf(b: Byte): (p: nat)
    ensures p < POTS
  {
    b / 4 % 4
  }

  function Place(inst: nat, pot: nat): nat
  {
    POTS * inst + pot
  }

  lemma PlaceUnique(inst: nat, pot: nat, inst': nat, pot': nat)
    requires inst < DEVICES && pot < POTS && inst' < DEVICES && pot' < POTS
    ensures 0 <= Place(inst, pot) < 64
    ensures Place(inst, pot) == Place(inst', pot') <==> inst == inst' && pot == pot'
  {
  }

  function Wiper(c: Chip, inst: nat, pot: nat): Byte
    requires inst < DEVICES && pot < POTS
  {
    c.wipers[Place(inst, pot)]
  }

  /** i2c_ack in ACK_INPUT mode. */
  function Ack(c: Chip): Chip
  {
    c.(trace := c.trace + [false])
  }

  /** x9241_read_write, which sees the bit count modulo 256. */
  function X9241(c: Chip): Chip
    requires |c.sent| >= 8
  {
    var n := |c.sent| % 0x100;
    var inst := Lower(ByteOf(c.sent, 0));
    if n == 8 then (if Upper(ByteOf(c.sent, 0)) == X9241_ID then Ack(c) else c)
    else if n == 16 then
      var b := ByteOf(c.sent, 1);
      if Upper(b) == READ_WIPER then
        Ack(c).(response := c.response + ByteBits(Wiper(c, inst, PotOf(b))))
      else if Upper(b) == WRITE_WIPER then Ack(c)
      else c
    else if n == 24 then
      var b := ByteOf(c.sent, 1);
      if Upper(b) == WRITE_WIPER then
        Ack(c).(wipers := c.wipers[Place(inst, PotOf(b)) := ByteOf(c.sent, 2)])
      else c
    else c
  }

  /** What a device does with a newly latched bit: only type 5 is simulated. */
  function Device(c: Chip): Chip
    requires |c.sent| >= 8
  {
    if c.device == X9241_ID then X9241(c) else c
  }

  function Latch(c: Chip, b: bool): Chip
  {
    var d := c.(sent := c.sent + [b]);
    if |d.sent| < 8 then d
    else Device(if |d.sent| == 8 then d.(device := Upper(ByteOf(d.sent, 0))) else d)
  }

  function Answer(c: Chip): Chip
  {
    if |c.response| > 0 then c.(response := c.response[1..], trace := c.trace + [c.response[0]]) else c
  }

  /** What the bus lines say: Shift is a rising clock edge while the master drives data, Read a
      falling one while it listens. */
  datatype Event = Start | Stop | Shift(b: bool) | Read

  function Apply(c: Chip, e: Event): Chip
  {
    match e
    case Start => c.(inside := true, sent := [], response := [])
    case Stop => c.(inside := false)
    case Shift(b) => if c.inside then Latch(c, b) else c
    case Read => if c.inside then Answer(c) else c
  }

  function ApplyAll(c: Chip, evs: seq<Event>): Chip
  {
    if |evs| == 0 then c else Apply(ApplyAll(c, evs[..|evs| - 1]), evs[|evs| - 1])
  }

  // ---- the bus lines ----

  /** A call of i2c_sim: the new levels of both lines and who drives data. */
  datatype Edge = Edge(clock: bool, data: bool, output: bool)

  predicate StartCondition(clock: bool, data: bool, e: Edge) { clock && e.clock && data && !e.data }
  predicate StopCondition(clock: bool, data: bool, e: Edge) { clock && e.clock && !data && e.data }

  /** The event, if any, when the lines go from (clock, data) to those of `e`. */
  function Decoded(clock: bool, data: bool, e: Edge): seq<Event>
  {
    if StartCondition(clock, data, e) then [Start]
    else if StopCondition(clock, data, e) then [Stop]
    else if !clock && e.clock && e.output then [Shift(e.data)]
    else if clock && !e.clock && !e.output then [Read]
    else []
  }

  datatype Bus = Bus(clock: bool, data: bool, chip: Chip)

  const Idle := Bus(false, false, PowerUp)

  /** i2c_sim. */
  function Sim(b: Bus, e: Edge): Bus
  {
    Bus(e.clock, e.data, ApplyAll(b.chip, Decoded(b.clock, b.data, e)))
  }

  function SimAll(b: Bus, es: seq<Edge>): Bus
  {
    if |es| == 0 then b else Sim(SimAll(b, es[..|es| - 1]), es[|es| - 1])
  }

  /** The events of a run of edges. */
  function Events(b: Bus, es: seq<Edge>): seq<Event>
  {
    if |es| == 0 then []
    else
      var c := SimAll(b, es[..|es| - 1]);
      Events(b, es[..|es| - 1]) + Decoded(c.clock, c.data, es[|es| - 1])
  }

  lemma {:induction false} ApplyMore(c: Chip, evs: seq<Event>, more: seq<Event>)
    ensures ApplyAll(c, evs + more) == ApplyAll(ApplyAll(c, evs), more)
    decreases |more|
  {
    if |more| == 0 {
      assert evs + more == evs;
    } else {
      var m := |more| - 1;
      ApplyMore(c, evs, more[..m]);
      assert (evs + more)[..|evs| + m] == evs + more[..m];
      hide Apply;
    }
  }

  /** The chips depend on the lines only through the decoded events. */
  lemma {:induction false} EdgesAreEvents(b: Bus, es: seq<Edge>)
    ensures SimAll(b, es).chip == ApplyAll(b.chip, Events(b, es))
  {
    if |es| > 0 {
      var m := |es| - 1;
      EdgesAreEvents(b, es[..m]);
      var c := SimAll(b, es[..m]);
      ApplyMore(b.chip, Events(b, es[..m]), Decoded(c.clock, c.data, es[m]));
      hide Apply, Decoded;
    }
  }

  /** Levels of the lines before edge `i`. */
  function LineBefore(b: Bus, es: seq<Edge>, i: nat): Edge
    requires i <= |es|
  {
    if i == 0 then Edge(b.clock, b.data, true) else es[i - 1]
  }

  predicate StartsAt(b: Bus, es: seq<Edge>, i: nat)
    requires i < |es|
  {
    var l := LineBefore(b, es, i);
    StartCondition(l.clock, l.data, es[i])
  }

  predicate StopsAt(b: Bus, es: seq<Edge>, i: nat)
    requires i < |es|
  {
    var l := LineBefore(b, es, i);
    StopCondition(l.clock, l.data, es[i])
  }

  /** A frame is open: a start condition has come and no stop condition since. */
  predicate Open(b: Bus, es: seq<Edge>)
  {
    exists i | 0 <= i < |es| && StartsAt(b, es, i) :: forall k | i < k < |es| :: !StopsAt(b, es, k)
  }

  lemma SamePrefix(b: Bus, es: seq<Edge>, m: nat, i: nat)
    requires i < m <= |es|
    ensures StartsAt(b, es[..m], i) == StartsAt(b, es, i) && StopsAt(b, es[..m], i) == StopsAt(b, es, i)
  {
  }

  lemma OpenStep(b: Bus, es: seq<Edge>)
    requires |es| > 0
    ensures var m := |es| - 1;
      Open(b, es) <==> StartsAt(b, es, m) || (Open(b, es[..m]) && !StopsAt(b, es, m))
  {
    hide StartsAt, StopsAt;
    var m := |es| - 1;
    if Open(b, es) && !StartsAt(b, es, m) {
      var i :| 0 <= i < |es| && StartsAt(b, es, i) && forall k | i < k < |es| :: !StopsAt(b, es, k);
      SamePrefix(b, es, m, i);
      forall k | i < k < m ensures !StopsAt(b, es[..m], k) {
        SamePrefix(b, es, m, k);
      }
    }
    if Open(b, es[..m]) && !StopsAt(b, es, m) {
      var i :| 0 <= i < m && StartsAt(b, es[..m], i) && forall k | i < k < m :: !StopsAt(b, es[..m], k);
      SamePrefix(b, es, m, i);
      forall k | i < k < |es| ensures !StopsAt(b, es, k) {
        if k < m {
          SamePrefix(b, es, m, k);
        }
      }
    }
  }

  lemma {:induction false} LinesFollow(b: Bus, es: seq<Edge>)
    ensures var c := SimAll(b, es);
      var l := LineBefore(b, es, |es|);
      c.clock == l.clock && c.data == l.data
  {
    hide ApplyAll, Decoded;
  }

  lemma ApplyOne(c: Chip, evs: seq<Event>)
    ensures |evs| == 0 ==> ApplyAll(c, evs) == c
    ensures |evs| == 1 ==> ApplyAll(c, evs) == Apply(c, evs[0])
  {
    if |evs| == 1 {
      assert ApplyAll(c, evs[..0]) == c;
    }
    hide Apply;
  }

  lemma InsideStep(c: Chip, e: Event)
    ensures Apply(c, e).inside == (e.Start? || (c.inside && !e.Stop?))
  {
    hide ByteBits, ByteOf, Place;
  }

  /** A frame is open exactly between a falling and a rising data edge with the clock held high;
      no other line activity opens or closes one. */
  lemma {:induction false} FramesAreDataEdges(b: Bus, es: seq<Edge>)
    requires !b.chip.inside
    ensures SimAll(b, es).chip.inside <==> Open(b, es)
  {
    if |es| > 0 {
      var m := |es| - 1;
      var c := SimAll(b, es[..m]);
      var evs := Decoded(c.clock, c.data, es[m]);
      FramesAreDataEdges(b, es[..m]);
      OpenStep(b, es);
      LinesFollow(b, es[..m]);
      ApplyOne(c.chip, evs);
      if |evs| == 1 {
        InsideStep(c.chip, evs[0]);
      }
      hide Apply, ApplyAll, Open;
    }
  }
}

/** The sixteen X9241 chips of four potentiometers are a memory, over every history of events. */
module WiperMemory {
  import opened Words
  import opened BitStream
  import opened Xicor

  function Run(evs: seq<Event>): Chip
  {
    ApplyAll(PowerUp, evs)
  }

  /** The bits shifted in by a list of events. */
  function BitsOf(evs: seq<Event>): seq<bool>
  {
    if |evs| == 0 then []
    else BitsOf(evs[..|evs| - 1]) + if evs[|evs| - 1].Shift? then [evs[|evs| - 1].b] else []
  }

  /** The frame that is open at the end of `evs` began at `j`. */
  predicate FrameFrom(evs: seq<Event>, j: nat)
  {
    j < |evs| && evs[j].Start? && forall k | j < k < |evs| :: !evs[k].Start? && !evs[k].Stop?
  }

  /** Address byte 0101iiii, command byte 1010pprr and a value. */
  predicate IsWrite(bits: seq<bool>, inst: nat, pot: nat, v: Byte)
  {
    && |bits| % 0x100 == 24
    && ByteOf(bits, 0) == 0x50 + inst && 0xA0 + 4 * pot <= ByteOf(bits, 1) < 0xA4 + 4 * pot && ByteOf(bits, 2) == v
  }

  /** Address byte 0101iiii and command byte 1001pprr. */
  predicate IsRead(bits: seq<bool>, inst: nat, pot: nat)
  {
    |bits| == 16 && ByteOf(bits, 0) == 0x50 + inst && 0x90 + 4 * pot <= ByteOf(bits, 1) < 0x94 + 4 * pot
  }

  /** The last event completes a WRITE_WIPER in the open frame. */
  predicate WriteEnds(evs: seq<Event>, inst: nat, pot: nat, v: Byte)
  {
    |evs| > 0 && evs[|evs| - 1].Shift?
    && exists j: nat | j < |evs| && FrameFrom(evs, j) :: IsWrite(BitsOf(evs[j + 1..]), inst, pot, v)
  }

  /** Event `n` of a history completes a WRITE_WIPER. */
  predicate WritesAt(evs: seq<Event>, n: nat, inst: nat, pot: nat, v: Byte)
    requires n < |evs|
  {
    WriteEnds(evs[..n + 1], inst, pot, v)
  }

  lemma WritesPrefix(evs: seq<Event>, m: nat, n: nat, inst: nat, pot: nat, v: Byte)
    requires n < m <= |evs|
    ensures WritesAt(evs[..m], n, inst, pot, v) == WritesAt(evs, n, inst, pot, v)
  {
    assert evs[..m][..n + 1] == evs[..n + 1];
    hide WriteEnds;
  }

  predicate ReadEnds(evs: seq<Event>, inst: nat, pot: nat)
  {
    |evs| > 0 && evs[|evs| - 1].Shift?
    && exists j: nat | j < |evs| && FrameFrom(evs, j) :: IsRead(BitsOf(evs[j + 1..]), inst, pot)
  }

  // ---- one event ----

  predicate Routed(c: Chip)
  {
    |c.sent| >= 8 ==> c.device == Upper(ByteOf(c.sent, 0))
  }

  lemma BytePrefix(bits: seq<bool>, b: bool, k: nat)
    requires 8 * k + 8 <= |bits|
    ensures ByteOf(bits + [b], k) == ByteOf(bits, k)
  {
    assert (bits + [b])[8 * k..8 * k + 8] == bits[8 * k..8 * k + 8];
  }

  lemma LatchRoutes(c: Chip, b: bool)
    requires Routed(c)
    ensures var d := Latch(c, b); d.sent == c.sent + [b] && Routed(d) && d.inside == c.inside
  {
    if |c.sent| >= 8 {
      BytePrefix(c.sent, b, 0);
    }
    hide ByteOf, ByteBits, Place;
  }

  lemma FieldsOfBytes(a: Byte, b: Byte, inst: nat, pot: nat, cmd: nat)
    requires inst < DEVICES && pot < POTS && cmd < 0x10
    ensures Upper(a) == X9241_ID && Lower(a) == inst <==> a == 0x50 + inst
    ensures Upper(b) == cmd && PotOf(b) == pot <==> 0x10 * cmd + 4 * pot <= b < 0x10 * cmd + 4 * pot + 4
  {
    assert b / 0x10 == b / 4 / 4;
  }

  lemma X9241Wiper(c: Chip, inst: nat, pot: nat, v: Byte)
    requires |c.sent| >= 8 && inst < DEVICES && pot < POTS && Upper(ByteOf(c.sent, 0)) == X9241_ID
    ensures IsWrite(c.sent, inst, pot, v) ==> Wiper(X9241(c), inst, pot) == v && X9241(c).trace == c.trace + [false]
    ensures (|c.sent| % 0x100 == 24 ==> !IsWrite(c.sent, inst, pot, ByteOf(c.sent, 2)))
            ==> Wiper(X9241(c), inst, pot) == Wiper(c, inst, pot)
  {
    var n := |c.sent| % 0x100;
    if n == 24 {
      var a, b := ByteOf(c.sent, 0), ByteOf(c.sent, 1);
      FieldsOfBytes(a, b, inst, pot, WRITE_WIPER);
      PlaceUnique(inst, pot, Lower(a), PotOf(b));
    }
    hide ByteOf, ByteBits, Place;
  }

  lemma LatchWiper(c: Chip, b: bool, inst: nat, pot: nat, v: Byte)
    requires Routed(c) && inst < DEVICES && pot < POTS
    ensures IsWrite(c.sent + [b], inst, pot, v)
            ==> Wiper(Latch(c, b), inst, pot) == v && Latch(c, b).trace == c.trace + [false]
    ensures (|c.sent + [b]| % 0x100 == 24 ==> !IsWrite(c.sent + [b], inst, pot, ByteOf(c.sent + [b], 2)))
            ==> Wiper(Latch(c, b), inst, pot) == Wiper(c, inst, pot)
  {
    var d := c.(sent := c.sent + [b]);
    if |c.sent| >= 8 {
      BytePrefix(c.sent, b, 0);
    }
    if |d.sent| >= 8 {
      var e := if |d.sent| == 8 then d.(device := Upper(ByteOf(d.sent, 0))) else d;
      assert e.device == Upper(ByteOf(d.sent, 0));
      if e.device == X9241_ID {
        X9241Wiper(e, inst, pot, v);
      }
    }
    hide ByteOf, ByteBits, Place, X9241;
  }

  // ---- whole histories ----

  lemma RunStep(evs: seq<Event>)
    requires |evs| > 0
    ensures Run(evs) == Apply(Run(evs[..|evs| - 1]), evs[|evs| - 1])
  {
    hide Apply;
  }

  lemma NoBits()
    ensures BitsOf([]) == []
  {
  }

  lemma MoreBits(evs: seq<Event>, j: nat)
    requires j < |evs| - 1
    ensures var m := |evs| - 1;
      BitsOf(evs[j + 1..]) == BitsOf(evs[..m][j + 1..]) + if evs[m].Shift? then [evs[m].b] else []
  {
    var m := |evs| - 1;
    assert evs[j + 1..][..m - j - 1] == evs[..m][j + 1..];
  }

  lemma FramePrefix(evs: seq<Event>, j: nat)
    requires j < |evs| - 1
    ensures var m := |evs| - 1;
      FrameFrom(evs, j) <==> FrameFrom(evs[..m], j) && !evs[m].Start? && !evs[m].Stop?
  {
    var m := |evs| - 1;
    assert forall k | 0 <= k < m :: evs[..m][k] == evs[k];
    if FrameFrom(evs, j) {
      assert !evs[m].Start? && !evs[m].Stop?;
    }
  }

  /** In an open frame the chips hold exactly the bits shifted in since its start. */
  lemma {:induction false} SentIs(evs: seq<Event>, j: nat)
    requires FrameFrom(evs, j)
    ensures var c := Run(evs);
      c.inside && c.sent == BitsOf(evs[j + 1..]) && Routed(c)
    decreases |evs|
  {
    var m := |evs| - 1;
    RunStep(evs);
    if j < m {
      FramePrefix(evs, j);
      SentIs(evs[..m], j);
      MoreBits(evs, j);
      var c := Run(evs[..m]);
      hide Run, BitsOf, ByteOf, Latch;
      match evs[m]
      case Shift(b) => LatchRoutes(c, b);
      case Read =>
    } else {
      assert evs[j + 1..] == [];
      NoBits();
      hide Run, ByteOf;
    }
  }

  /** An open frame has a beginning. */
  lemma {:induction false} FindStart(evs: seq<Event>) returns (j: nat)
    requires Run(evs).inside
    ensures j < |evs| && FrameFrom(evs, j)
    decreases |evs|
  {
    assert evs != [] by {
      RunNothing();
    }
    var m := |evs| - 1;
    RunStep(evs);
    InsideStep(Run(evs[..m]), evs[m]);
    hide Apply, Run;
    if evs[m].Start? {
      j := m;
    } else {
      j := FindStart(evs[..m]);
      FramePrefix(evs, j);
    }
  }

  lemma RunNothing()
    ensures !Run([]).inside
  {
  }

  lemma OneFrame(evs: seq<Event>, j: nat, k: nat)
    requires FrameFrom(evs, j) && FrameFrom(evs, k)
    ensures j == k
  {
  }

  /** A completed write takes effect, and is acknowledged. */
  lemma WriteTakes(evs: seq<Event>, inst: nat, pot: nat, v: Byte)
    requires WriteEnds(evs, inst, pot, v) && inst < DEVICES && pot < POTS
    ensures Wiper(Run(evs), inst, pot) == v
    ensures Run(evs).trace == Run(evs[..|evs| - 1]).trace + [false]
  {
    var m := |evs| - 1;
    var j: nat :| j < |evs| && FrameFrom(evs, j) && IsWrite(BitsOf(evs[j + 1..]), inst, pot, v);
    FramePrefix(evs, j);
    SentIs(evs[..m], j);
    MoreBits(evs, j);
    RunStep(evs);
    LatchWiper(Run(evs[..m]), evs[m].b, inst, pot, v);
    hide Run, BitsOf, ByteOf, Latch, Place;
  }

  /** Nothing else changes a wiper. */
  lemma OnlyWritesChange(evs: seq<Event>, inst: nat, pot: nat)
    requires |evs| > 0 && inst < DEVICES && pot < POTS
    requires forall v: Byte :: !WriteEnds(evs, inst, pot, v)
    ensures Wiper(Run(evs), inst, pot) == Wiper(Run(evs[..|evs| - 1]), inst, pot)
  {
    var m := |evs| - 1;
    var c := Run(evs[..m]);
    RunStep(evs);
    hide Run, BitsOf, ByteOf, Latch, Place, FrameFrom, IsWrite;
    if evs[m].Shift? && c.inside {
      var j := FindStart(evs[..m]);
      FramePrefix(evs, j);
      SentIs(evs[..m], j);
      MoreBits(evs, j);
      LatchWiper(c, evs[m].b, inst, pot, 0);
      var bits := c.sent + [evs[m].b];
      assert BitsOf(evs[j + 1..]) == bits;
      if |bits| % 0x100 == 24 {
        assert !WriteEnds(evs, inst, pot, ByteOf(bits, 2));
      }
    }
  }

  /** Through any history of events, the value of a wiper is the last one written to it. */
  lemma {:induction false} LastWriteHolds(evs: seq<Event>, k: nat, inst: nat, pot: nat, v: Byte)
    requires k < |evs| && inst < DEVICES && pot < POTS && WritesAt(evs, k, inst, pot, v)
    requires forall n, u | k < n < |evs| :: !WritesAt(evs, n, inst, pot, u)
    ensures Wiper(Run(evs), inst, pot) == v
    decreases |evs|
  {
    var m := |evs| - 1;
    assert evs[..m + 1] == evs;
    hide WriteEnds, Run, Place;
    if k == m {
      WriteTakes(evs, inst, pot, v);
    } else {
      WritesPrefix(evs, m, k, inst, pot, v);
      forall n: nat, u: Byte | k < n < m ensures !WritesAt(evs[..m], n, inst, pot, u) {
        WritesPrefix(evs, m, n, inst, pot, u);
      }
      LastWriteHolds(evs[..m], k, inst, pot, v);
      forall u: Byte ensures !WriteEnds(evs, inst, pot, u) {
        assert !WritesAt(evs, m, inst, pot, u);
      }
      OnlyWritesChange(evs, inst, pot);
    }
  }

  /** A wiper never written reads as zero. */
  lemma {:induction false} UnwrittenIsZero(evs: seq<Event>, inst: nat, pot: nat)
    requires inst < DEVICES && pot < POTS
    requires forall n, u | 0 <= n < |evs| :: !WritesAt(evs, n, inst, pot, u)
    ensures Wiper(Run(evs), inst, pot) == 0
  {
    if |evs| > 0 {
      var m := |evs| - 1;
      assert evs[..m + 1] == evs;
      hide WriteEnds, Run, Place;
      forall n: nat, u: Byte | n < m ensures !WritesAt(evs[..m], n, inst, pot, u) {
        WritesPrefix(evs, m, n, inst, pot, u);
      }
      UnwrittenIsZero(evs[..m], inst, pot);
      forall u: Byte ensures !WriteEnds(evs, inst, pot, u) {
        assert !WritesAt(evs, m, inst, pot, u);
      }
      OnlyWritesChange(evs, inst, pot);
    }
  }

  // ---- reading ----

  lemma LatchQuiet(c: Chip, b: bool)
    requires |c.sent| < 15
    ensures Latch(c, b).response == c.response
  {
    hide ByteOf, ByteBits, Place;
  }

  /** No answer is pending before the command byte is complete. */
  lemma {:induction false} NoEarlyAnswer(evs: seq<Event>, j: nat)
    requires FrameFrom(evs, j) && |BitsOf(evs[j + 1..])| < 16
    ensures Run(evs).response == []
    decreases |evs|
  {
    var m := |evs| - 1;
    RunStep(evs);
    if j < m {
      FramePrefix(evs, j);
      MoreBits(evs, j);
      SentIs(evs[..m], j);
      NoEarlyAnswer(evs[..m], j);
      hide Run, BitsOf, ByteOf, Latch;
      if evs[m].Shift? {
        LatchQuiet(Run(evs[..m]), evs[m].b);
      }
    } else {
      hide Run;
    }
  }

  lemma X9241Answers(c: Chip, inst: nat, pot: nat)
    requires inst < DEVICES && pot < POTS && IsRead(c.sent, inst, pot)
    ensures var d := X9241(c);
      d.response == c.response + ByteBits(Wiper(c, inst, pot)) && d.wipers == c.wipers
  {
    FieldsOfBytes(ByteOf(c.sent, 0), ByteOf(c.sent, 1), inst, pot, READ_WIPER);
    hide ByteOf, ByteBits, Place;
  }

  lemma LatchAnswers(c: Chip, b: bool, inst: nat, pot: nat)
    requires Routed(c) && inst < DEVICES && pot < POTS && IsRead(c.sent + [b], inst, pot)
    ensures var d := Latch(c, b);
      d.response == c.response + ByteBits(Wiper(c, inst, pot)) && d.wipers == c.wipers
  {
    var d := c.(sent := c.sent + [b]);
    BytePrefix(c.sent, b, 0);
    X9241Answers(d, inst, pot);
    hide ByteOf, ByteBits, Place, X9241;
  }

  /** A completed read command makes the wiper's eight bits the pending answer. */
  lemma ReadAnswers(evs: seq<Event>, inst: nat, pot: nat)
    requires ReadEnds(evs, inst, pot) && inst < DEVICES && pot < POTS
    ensures var c := Run(evs);
      c.inside && c.response == ByteBits(Wiper(c, inst, pot))
  {
    var m := |evs| - 1;
    var j: nat :| j < |evs| && FrameFrom(evs, j) && IsRead(BitsOf(evs[j + 1..]), inst, pot);
    FramePrefix(evs, j);
    MoreBits(evs, j);
    SentIs(evs[..m], j);
    SentIs(evs, j);
    NoEarlyAnswer(evs[..m], j);
    RunStep(evs);
    LatchAnswers(Run(evs[..m]), evs[m].b, inst, pot);
    hide Run, BitsOf, ByteOf, Latch, Place, ByteBits;
  }

  function Reads(n: nat): (evs: seq<Event>)
    ensures |evs| == n
    decreases n
  {
    if n == 0 then [] else Reads(n - 1) + [Read]
  }

  lemma {:induction false} ReadsShiftOut(c: Chip, n: nat)
    requires c.inside && n <= |c.response|
    ensures var d := ApplyAll(c, Reads(n));
      d.inside && d.response == c.response[n..] && d.trace == c.trace + c.response[..n]
    decreases n
  {
    if n > 0 {
      ReadsShiftOut(c, n - 1);
      assert Reads(n)[..n - 1] == Reads(n - 1);
      AnswerShifts(c, ApplyAll(c, Reads(n - 1)), n - 1);
      hide Apply, Answer;
    }
  }

  lemma AnswerShifts(c: Chip, d: Chip, n: nat)
    requires d.inside && n < |c.response| && d.response == c.response[n..] && d.trace == c.trace + c.response[..n]
    ensures var e := Apply(d, Read);
      e.inside && e.response == c.response[n + 1..] && e.trace == c.trace + c.response[..n + 1]
  {
    assert c.response[..n + 1] == c.response[..n] + [c.response[n]];
  }

  /** After any history: if the last completed write to a potentiometer wrote `v` and a read
      command for it has just been completed, then the next eight falling clock edges in input
      mode pass `v` to the CPU, most significant bit first. */
  lemma ReadReturnsLastWrite(evs: seq<Event>, k: nat, inst: nat, pot: nat, v: Byte)
    requires inst < DEVICES && pot < POTS && ReadEnds(evs, inst, pot)
    requires k < |evs| && WritesAt(evs, k, inst, pot, v)
    requires forall n, u | k < n < |evs| :: !WritesAt(evs, n, inst, pot, u)
    ensures Run(evs + Reads(8)).trace == Run(evs).trace + ByteBits(v)
  {
    LastWriteHolds(evs, k, inst, pot, v);
    ReadAnswers(evs, inst, pot);
    ReadsShiftOut(Run(evs), 8);
    ApplyMore(PowerUp, evs, Reads(8));
    hide ReadEnds, WriteEnds, ByteBits, ApplyAll, Place;
    assert ByteBits(v)[..8] == ByteBits(v);
  }

  /** The same for the bus lines: `es` is every edge from power-up to the end of the read command,
      `q` any edges with eight falling ones in input mode and no other event. */
  lemma WipersAreMemory(es: seq<Edge>, q: seq<Edge>, k: nat, inst: nat, pot: nat, v: Byte)
    requires inst < DEVICES && pot < POTS
    requires var evs := Events(Idle, es);
      && ReadEnds(evs, inst, pot) && k < |evs| && WritesAt(evs, k, inst, pot, v)
      && forall n, u | k < n < |evs| :: !WritesAt(evs, n, inst, pot, u)
    requires Events(SimAll(Idle, es), q) == Reads(8)
    ensures SimAll(SimAll(Idle, es), q).chip.trace == SimAll(Idle, es).chip.trace + ByteBits(v)
  {
    var evs := Events(Idle, es);
    ReadReturnsLastWrite(evs, k, inst, pot, v);
    EdgesAreEvents(Idle, es);
    EdgesAreEvents(SimAll(Idle, es), q);
    ApplyMore(PowerUp, evs, Reads(8));
    hide ReadEnds, WriteEnds, ByteBits, ApplyAll, Place, Events, SimAll, Reads;
  }
}

/** Bit streams in byte buffers. */
module BitBuffer {
  import opened Words
  import opened BitStream
  import opened Xicor

  type Buffer = s: seq<Byte> | |s| == 256 witness seq(256, _ => 0)

  /** i2c_get_bit. */
  function BitAt(buf: Buffer, i: nat): bool
    requires i < 2048
  {
    Has(buf[i / 8], Pow2(7 - i % 8))
  }

  /** Bits `lo` up to `hi` of a buffer. */
  function Stream(buf: Buffer, lo: nat, hi: nat): (bits: seq<bool>)
    requires lo <= hi <= 2048
    ensures |bits| == hi - lo
    ensures forall k | 0 <= k < hi - lo :: bits[k] == BitAt(buf, lo + k)
    decreases hi
  {
    if lo == hi then [] else Stream(buf, lo, hi - 1) + [BitAt(buf, hi - 1)]
  }

  lemma ByteWithBit(x: Byte, j: nat, v: bool)
    requires j < 8
    ensures 0 <= WithBit(x, j, v) < 0x100
  {
    assert Pow2(8) == 0x100;
    WithBitBound(x, j, v, 8);
  }

  /** A buffer with bit `i` written. */
  function WithBitAt(buf: Buffer, i: nat, v: bool): Buffer
    requires i < 2048
  {
    ByteWithBit(buf[i / 8], 7 - i % 8, v);
    buf[i / 8 := WithBit(buf[i / 8], 7 - i % 8, v)]
  }

  lemma SamePlace(i: nat, k: nat)
    ensures i / 8 == k / 8 && i % 8 == k % 8 ==> i == k
  {
  }

  lemma OneBitChanges(buf: Buffer, i: nat, v: bool, k: nat)
    requires i < 2048 && k < 2048
    ensures BitAt(WithBitAt(buf, i, v), k) == if k == i then v else BitAt(buf, k)
  {
    if i / 8 == k / 8 {
      BitStream.WithBitAt(buf[i / 8], 7 - i % 8, v, 7 - k % 8);
      SamePlace(i, k);
    }
    hide WithBit, Has, Pow2;
  }

  lemma AppendBit(buf: Buffer, n: nat, v: bool)
    requires n < 2048
    ensures Stream(WithBitAt(buf, n, v), 0, n + 1) == Stream(buf, 0, n) + [v]
  {
    var b := WithBitAt(buf, n, v);
    forall k: nat | k <= n ensures BitAt(b, k) == if k == n then v else BitAt(buf, k) {
      OneBitChanges(buf, n, v, k);
    }
    hide WithBitAt, BitAt;
    assert Stream(b, 0, n + 1) == Stream(buf, 0, n) + [v];
  }

  lemma ByteAndBit(bitno: nat, k: nat, i: nat)
    requires bitno == 8 * k + i && i < 8
    ensures bitno / 8 == k && bitno % 8 == i
  {
  }

  lemma BitInByte(buf: Buffer, bitno: nat, k: nat, i: nat)
    requires bitno == 8 * k + i && i < 8 && k < 256
    ensures BitAt(buf, bitno) == ByteBits(buf[k])[i]
  {
    ByteAndBit(bitno, k, i);
    ToBitsAt(buf[k], 8, i);
    hide Has, Pow2, ToBits;
  }

  /** Eight bits from a byte boundary are that byte, most significant bit first. */
  lemma ByteStream(buf: Buffer, at: nat, k: nat)
    requires at == 8 * k && k < 256
    ensures Stream(buf, at, at + 8) == ByteBits(buf[k])
  {
    hide BitAt, ByteBits, Stream;
    forall i: nat | i < 8 ensures Stream(buf, at, at + 8)[i] == ByteBits(buf[k])[i] {
      BitInByte(buf, at + i, k, i);
    }
  }

  /** Part of a stream is a stream. */
  lemma StreamSlice(buf: Buffer, lo: nat, mid: nat, end: nat, hi: nat)
    requires lo <= mid <= end <= hi <= 2048
    ensures Stream(buf, lo, hi)[mid - lo..end - lo] == Stream(buf, mid, end)
  {
    hide BitAt;
  }

  /** The bytes of a stream are the bytes of the buffer. */
  lemma BytesOfStream(buf: Buffer, n: nat, k: nat)
    requires n <= 2048 && 8 * k + 8 <= n
    ensures ByteOf(Stream(buf, 0, n), k) == buf[k]
  {
    hide BitAt, ByteBits, FromBits, Stream;
    ByteStream(buf, 8 * k, k);
    StreamSlice(buf, 0, 8 * k, 8 * k + 8, n);
    FromByte(buf[k]);
  }

  lemma FromByte(v: Byte)
    ensures FromBits(ByteBits(v)) == v
  {
    assert Pow2(8) == 0x100;
    ToThenFrom(v, 8);
  }

  lemma SameStream(buf: Buffer, after: Buffer, lo: nat, hi: nat, k: nat)
    requires lo <= hi <= 8 * k && k < 256
    requires forall i | 0 <= i < 256 && i != k :: after[i] == buf[i]
    ensures Stream(after, lo, hi) == Stream(buf, lo, hi)
  {
    forall i: nat | i < hi ensures BitAt(after, i) == BitAt(buf, i) {
      assert i / 8 < k;
      hide Has, Pow2;
    }
    hide BitAt;
  }

  lemma StreamJoin(buf: Buffer, lo: nat, mid: nat, hi: nat)
    requires lo <= mid <= hi <= 2048
    ensures Stream(buf, lo, hi) == Stream(buf, lo, mid) + Stream(buf, mid, hi)
  {
    hide BitAt;
  }

  lemma AppendByte(buf: Buffer, after: Buffer, lo: nat, hi: nat, k: nat)
    requires lo <= hi == 8 * k && k < 256
    requires forall i | 0 <= i < 256 && i != k :: after[i] == buf[i]
    ensures Stream(after, lo, hi + 8) == Stream(buf, lo, hi) + ByteBits(after[k])
  {
    ByteStream(after, hi, k);
    SameStream(buf, after, lo, hi, k);
    StreamJoin(after, lo, hi, hi + 8);
    hide Stream, ByteBits;
  }

  lemma NextBit(buf: Buffer, lo: nat, hi: nat)
    requires lo < hi <= 2048
    ensures var s := Stream(buf, lo, hi);
      |s| > 0 && s[0] == BitAt(buf, lo) && s[1..] == Stream(buf, lo + 1, hi)
  {
    hide BitAt;
  }

  lemma NoBits(buf: Buffer, lo: nat)
    requires lo <= 2048
    ensures Stream(buf, lo, lo) == []
  {
  }

  // ---- room for the answers ----

  /** Answer bytes that can be pending when `n` bits have been sent: a read command is recognised
      once in every 256 bits. */
  function Answers(n: nat): nat { (n + 240) / 256 }

  lemma AnswersGrow(n: nat)
    ensures Answers(n) <= Answers(n + 1)
    ensures (n + 1) % 0x100 == 16 ==> Answers(n + 1) == Answers(n) + 1
  {
  }

  lemma FewAnswers(n: nat)
    requires n <= 2048
    ensures Answers(n) <= 8
  {
  }

  lemma AtLeast(n: nat, k: nat)
    requires n % 0x100 == k
    ensures n >= k
  {
  }

  /** x9241_read_write on a completed command byte `b`, and on a value byte. */
  lemma CommandEffect(c: Chip, inst: nat, b: Byte)
    requires |c.sent| >= 16 && |c.sent| % 0x100 == 16 && b == ByteOf(c.sent, 1) && inst == Lower(ByteOf(c.sent, 0))
    ensures X9241(c) == if Upper(b) == READ_WIPER
                        then Ack(c).(response := c.response + ByteBits(Wiper(c, inst, PotOf(b))))
                        else if Upper(b) == WRITE_WIPER then Ack(c) else c
  {
    hide ByteBits, ByteOf;
  }

  lemma ValueEffect(c: Chip, inst: nat, b: Byte, v: Byte)
    requires |c.sent| >= 24 && |c.sent| % 0x100 == 24 && b == ByteOf(c.sent, 1) && inst == Lower(ByteOf(c.sent, 0))
    requires v == ByteOf(c.sent, 2)
    ensures X9241(c) == if Upper(b) == WRITE_WIPER
                        then Ack(c).(wipers := c.wipers[Place(inst, PotOf(b)) := v]) else c
  {
    hide ByteBits, ByteOf;
  }
}

module I2c {
  import opened Words
  import opened BitStream
  import opened Xicor
  import opened BitBuffer
  import WiperMemory
  import Answered = Acknowledge

  class Simulator {
    const outBuf: array<Byte>
    const inBuf: array<Byte>
    const wipers: array<Byte>
    var outBits: nat
    var inBits: nat
    var inBitsSent: nat
    var device: nat
    var insideFrame: bool
    var clockLast: bool
    var dataLast: bool
    ghost var inBytes: nat
    /** Every bit passed to i2c_input. */
    ghost var trace: seq<bool>

    ghost predicate Valid()
      reads this
    {
      && outBuf.Length == 256 && inBuf.Length == 256 && wipers.Length == 64
      && outBuf != inBuf && outBuf != wipers && inBuf != wipers
      && outBits <= 2048 && inBitsSent <= inBits && inBits == 8 * inBytes && inBytes <= Answers(outBits)
    }

    ghost function View(): Chip
      requires Valid()
      reads this, outBuf, inBuf, wipers
    {
      Chip(insideFrame, Stream(outBuf[..], 0, outBits), Stream(inBuf[..], inBitsSent, inBits), device,
           wipers[..], trace)
    }

    constructor ()
      ensures Valid() && fresh(outBuf) && fresh(inBuf) && fresh(wipers)
      ensures Bus(clockLast, dataLast, View()) == Idle && outBits == 0
    {
      outBuf := new Byte[256](_ => 0);
      inBuf := new Byte[256](_ => 0);
      wipers := new Byte[64](_ => 0);
      outBits, inBits, inBitsSent, device, inBytes := 0, 0, 0, 0, 0;
      insideFrame, clockLast, dataLast, trace := false, false, false, [];
      new;
      assert wipers[..] == NoWipers;
    }

    /** i2c_ack through i2c_input. */
    ghost method Acknowledge()
      requires Valid()
      modifies this`trace
      ensures Valid() && View() == Ack(old(View()))
    {
      trace := trace + [false];
    }

    /** add_byte: the bits of `value` in normal order, at a byte boundary of in_buf. */
    method AddByte(value: Byte)
      requires Valid() && inBytes < 255
      modifies this`inBits, this`inBytes, inBuf
      ensures inBytes == old(inBytes) + 1 && inBits == 8 * inBytes
      ensures Stream(inBuf[..], inBitsSent, inBits) == old(Stream(inBuf[..], inBitsSent, inBits)) + ByteBits(value)
    {
      hide Stream, ByteBits, Answers;
      ghost var before := inBuf[..];
      AddBits(value);
      AppendByte(before, inBuf[..], inBitsSent, 8 * inBytes, inBytes);
      inBytes := inBytes + 1;
    }

    method AddBits(value: Byte)
      requires Valid() && inBytes < 255
      modifies this`inBits, inBuf
      ensures inBits == 8 * inBytes + 8 && inBuf[inBytes] == value
      ensures forall j | 0 <= j < 256 && j != inBytes :: inBuf[j] == old(inBuf[j])
    {
      hide Stream, Has, Pow2, ByteBits, Answers;
      ghost var before := inBuf[..];
      var i := 0;
      while i < 8
        invariant i <= 8 && inBits == 8 * inBytes + i
        invariant forall j | 0 <= j < 256 && j != inBytes :: inBuf[j] == before[j]
        invariant forall j: nat | j < i :: Has(inBuf[inBytes], Pow2(j)) == Has(value, Pow2(j))
      {
        SetInBit(inBits, Has(value, Pow2(i)), inBytes, i);
        inBits := inBits + 1;
        i := i + 1;
      }
      EightBits(inBuf[inBytes], value);
    }

    /** set_bit on in_buf. */
    method SetInBit(bitno: nat, value: bool, ghost k: nat, ghost i: nat)
      requires inBuf.Length == 256 && bitno == 8 * k + i && i < 8 && k < 256
      modifies inBuf
      ensures forall j | 0 <= j < 256 && j != k :: inBuf[j] == old(inBuf[j])
      ensures forall j: nat :: Has(inBuf[k], Pow2(j)) <==> if j == i then value else Has(old(inBuf[k]), Pow2(j))
    {
      ByteAndBit(bitno, k, i);
      ghost var x := inBuf[k];
      ByteWithBit(x, i, value);
      forall j: nat ensures Has(WithBit(x, i, value), Pow2(j)) <==> if j == i then value else Has(x, Pow2(j)) {
        BitStream.WithBitAt(x, i, value, j);
      }
      hide WithBit, Has, Pow2;
      inBuf[bitno / 8] := WithBit(inBuf[bitno / 8], bitno % 8, value);
    }

    /** x9241_read_write with cmd_bits = outBits truncated to eight bits. */
    method X9241ReadWrite(cmdBits: nat)
      requires Valid() && outBits >= 8 && cmdBits == outBits % 0x100
      requires cmdBits == 16 ==> inBytes < Answers(outBits)
      modifies this`inBits, this`inBytes, this`trace, inBuf, wipers
      ensures Valid() && View() == X9241(old(View()))
    {
      BytesOfStream(outBuf[..], outBits, 0);
      hide Stream, ByteBits, ByteOf, Answers;
      var kind, inst := Upper(outBuf[0]), Lower(outBuf[0]);
      if cmdBits == 8 {
        if kind == X9241_ID {
          Acknowledge();
        }
      } else if cmdBits == 16 {
        AtLeast(outBits, 16);
        Command(inst);
      } else if cmdBits == 24 {
        AtLeast(outBits, 24);
        Value(inst);
      }
    }

    method Respond(value: Byte)
      requires Valid() && inBytes < Answers(outBits)
      modifies this`inBits, this`inBytes, this`trace, inBuf
      ensures Valid() && View() == Ack(old(View())).(response := old(View()).response + ByteBits(value))
    {
      hide Stream, ByteBits, Answers;
      FewAnswers(outBits);
      Acknowledge();
      AddByte(value);
    }

    method Command(inst: nat)
      requires Valid() && outBits >= 16 && outBits % 0x100 == 16 && inBytes < Answers(outBits)
      requires inst == Lower(ByteOf(View().sent, 0))
      modifies this`inBits, this`inBytes, this`trace, inBuf
      ensures Valid() && View() == X9241(old(View()))
    {
      BytesOfStream(outBuf[..], outBits, 1);
      CommandEffect(View(), inst, outBuf[1]);
      hide Stream, ByteBits, ByteOf, X9241, Answers, Upper, Lower, PotOf, Place;
      Execute(inst, Upper(outBuf[1]), PotOf(outBuf[1]));
    }

    method Execute(inst: nat, cmd: nat, pot: nat)
      requires Valid() && inBytes < Answers(outBits) && inst < DEVICES && pot < POTS
      modifies this`inBits, this`inBytes, this`trace, inBuf
      ensures Valid()
      ensures var c := old(View());
        View() == if cmd == READ_WIPER then Ack(c).(response := c.response + ByteBits(Wiper(c, inst, pot)))
                  else if cmd == WRITE_WIPER then Ack(c) else c
    {
      PlaceUnique(inst, pot, inst, pot);
      hide Stream, ByteBits, Answers, Place;
      if cmd == READ_WIPER {
        Respond(wipers[Place(inst, pot)]);
      } else if cmd == WRITE_WIPER {
        Acknowledge();
      }
    }

    method Value(inst: nat)
      requires Valid() && outBits >= 24 && outBits % 0x100 == 24
      requires inst == Lower(ByteOf(View().sent, 0))
      modifies this`trace, wipers
      ensures Valid() && View() == X9241(old(View()))
    {
      BytesOfStream(outBuf[..], outBits, 1);
      BytesOfStream(outBuf[..], outBits, 2);
      ValueEffect(View(), inst, outBuf[1], outBuf[2]);
      hide Stream, ByteBits, ByteOf, X9241, Answers, Upper, Lower, PotOf;
      var cmd, pot := Upper(outBuf[1]), PotOf(outBuf[1]);
      if cmd == WRITE_WIPER {
        wipers[Place(inst, pot)] := outBuf[2];
        Acknowledge();
      }
    }

    /** xicor_sim_frame for a rising clock edge in output mode. */
    method LatchBit(data: bool)
      requires Valid() && outBits < 2048
      modifies this`outBits, this`inBits, this`inBytes, this`device, this`trace, outBuf, inBuf, wipers
      ensures Valid() && View() == Latch(old(View()), data)
      ensures WiperMemory.Routed(old(View())) ==>
                View().trace == old(View()).trace + Answered.Acks(old(View()).sent + [data])
    {
      hide Stream, ByteBits, ByteOf, X9241, Answers, Upper, WiperMemory.Routed, Answered.Acks;
      if WiperMemory.Routed(View()) {
        Answered.LatchAcks(View(), data);
      }
      AppendOutBit(data);
      if outBits >= 8 {
        Route();
        if device == X9241_ID {
          X9241ReadWrite(outBits % 0x100);
        }
      }
    }

    /** The eighth bit completes the device type. */
    method Route()
      requires Valid() && outBits >= 8
      modifies this`device
      ensures Valid()
      ensures var c := old(View());
        View() == if outBits == 8 then c.(device := Upper(ByteOf(c.sent, 0))) else c
    {
      hide Stream, ByteBits, ByteOf, Answers, Upper;
      if outBits == 8 {
        BytesOfStream(outBuf[..], outBits, 0);
        device := Upper(outBuf[0]);
      }
    }

    method AppendOutBit(data: bool)
      requires Valid() && outBits < 2048
      modifies this`outBits, outBuf
      ensures Valid() && outBits == old(outBits) + 1 && (outBits % 0x100 == 16 ==> inBytes < Answers(outBits))
      ensures View() == old(View()).(sent := old(View()).sent + [data])
    {
      hide Stream, Answers;
      AppendBit(outBuf[..], outBits, data);
      AnswersGrow(outBits);
      SetOutBit(outBits, data);
      outBits := outBits + 1;
    }

    /** i2c_set_bit on out_buf. */
    method SetOutBit(bitno: nat, value: bool)
      requires Valid() && bitno < 2048
      modifies outBuf
      ensures outBuf[..] == BitBuffer.WithBitAt(old(outBuf[..]), bitno, value)
    {
      ByteWithBit(outBuf[bitno / 8], 7 - bitno % 8, value);
      outBuf[bitno / 8] := WithBit(outBuf[bitno / 8], 7 - bitno % 8, value);
    }

    /** i2c_get_bit on in_buf. */
    method GetInBit(bitno: nat) returns (bit: bool)
      requires Valid() && bitno < 2048
      ensures bit == BitAt(inBuf[..], bitno)
    {
      bit := Has(inBuf[bitno / 8], Pow2(7 - bitno % 8));
    }

    /** xicor_sim_frame for a falling clock edge in input mode. */
    method AnswerBit()
      requires Valid()
      modifies this`inBits, this`inBytes, this`inBitsSent, this`trace
      ensures Valid() && View() == Answer(old(View()))
    {
      hide BitAt, Stream, Answers, Answer;
      if inBitsSent < inBits {
        SendBit();
        if inBitsSent >= inBits {
          ResponseDone();
        }
      } else {
        NothingToSend();
      }
    }

    lemma NothingToSend()
      requires Valid() && inBitsSent == inBits
      ensures Answer(View()) == View()
    {
      NoBits(inBuf[..], inBits);
      hide BitAt, Stream, Answers;
    }

    method SendBit()
      requires Valid() && inBitsSent < inBits
      modifies this`inBitsSent, this`trace
      ensures Valid() && View() == Answer(old(View()))
    {
      hide BitAt, Stream, Answers;
      FewAnswers(outBits);
      NextBit(inBuf[..], inBitsSent, inBits);
      var bit := GetInBit(inBitsSent);
      trace := trace + [bit];
      inBitsSent := inBitsSent + 1;
    }

    method ResponseDone()
      requires Valid() && inBitsSent == inBits
      modifies this`inBits, this`inBytes, this`inBitsSent
      ensures Valid() && View() == old(View())
    {
      NoBits(inBuf[..], inBitsSent);
      NoBits(inBuf[..], 0);
      hide BitAt, Stream, Answers;
      inBitsSent, inBits, inBytes := 0, 0, 0;
    }

    method OnStart()
      requires Valid()
      modifies this
      ensures Valid() && View() == Apply(old(View()), Start)
      ensures outBits == 0
    {
      NoBits(outBuf[..], 0);
      NoBits(inBuf[..], 0);
      hide Stream, Latch, Answer, Answers;
      insideFrame := true;
      outBits, inBits, inBitsSent, inBytes := 0, 0, 0, 0;
    }

    /** A clock edge inside a frame. */
    method OnClock(rising: bool, data: bool, output: bool)
      requires Valid() && outBits < 2048 && insideFrame
      modifies this`outBits, this`inBits, this`inBytes, this`inBitsSent, this`device, this`trace, outBuf, inBuf, wipers
      ensures Valid()
      ensures View() == if rising && output then Latch(old(View()), data)
                        else if !rising && !output then Answer(old(View())) else old(View())
    {
      hide Stream, Latch, Answer, Answers;
      if rising && output {
        LatchBit(data);
      } else if !rising && !output {
        AnswerBit();
      }
    }

    /** i2c_sim. */
    method Sample(clock: bool, data: bool, output: bool)
      requires Valid() && outBits < 2048
      modifies this, outBuf, inBuf, wipers
      ensures Valid()
      ensures Bus(clockLast, dataLast, View()) == Sim(old(Bus(clockLast, dataLast, View())), Edge(clock, data, output))
    {
      hide Stream, Latch, Answer, ApplyAll, Answers;
      ApplyOne(View(), Decoded(clockLast, dataLast, Edge(clock, data, output)));
      if clockLast && clock {
        if dataLast && !data {
          OnStart();
        } else if !dataLast && data {
          insideFrame := false;
        }
      } else if clock != clockLast && insideFrame {
        OnClock(clock, data, output);
      }
      clockLast := clock;
      dataLast := data;
    }
  }

  lemma EightBits(x: Byte, y: Byte)
    requires forall k: nat | k < 8 :: Has(x, Pow2(k)) == Has(y, Pow2(k))
    ensures x == y
  {
    assert Pow2(8) == 0x100;
    SameBits(x, y, 8);
  }
}
