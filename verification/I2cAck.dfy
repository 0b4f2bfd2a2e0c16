// Acknowledgements of the X9241 potentiometers: add_ack in src/boards/i2c_sim.c.

/** Which bits of a frame the chips acknowledge, over every history of events, and everything the
    master clocks in during a session. */
module Acknowledge {
  import opened Words
  import opened BitStream
  import opened Xicor
  import opened WiperMemory
  import opened Master

  /** The first four bits are 0101. */
  predicate Addressed(bits: seq<bool>)
  {
    |bits| >= 8 && !bits[0] && bits[1] && !bits[2] && bits[3]
  }

  /** The second byte begins with 1001 (read) or 1010 (write). */
  predicate Reading(bits: seq<bool>)
  {
    Addressed(bits) && |bits| >= 16 && bits[8] && !bits[9] && !bits[10] && bits[11]
  }

  predicate Writing(bits: seq<bool>)
  {
    Addressed(bits) && |bits| >= 16 && bits[8] && !bits[9] && bits[10] && !bits[11]
  }

  /** The last of these bits is acknowledged: it completes the address byte, the command byte of a
      read or write, or the value of a write. Bits are counted modulo 256. */
  predicate Acknowledged(bits: seq<bool>)
  {
    var n := |bits| % 0x100;
    || (n == 8 && Addressed(bits))
    || (n == 16 && (Reading(bits) || Writing(bits)))
    || (n == 24 && Writing(bits))
  }

  function Acks(bits: seq<bool>): seq<bool>
  {
    if Acknowledged(bits) then [false] else []
  }

  // ---- the upper digit of a byte is its first four bits ----

  function N(b: bool): int { if b then 1 else 0 }

  lemma {:induction false} TwoBits(bits: seq<bool>)
    requires |bits| >= 2
    ensures FromBits(bits) == 4 * FromBits(bits[..|bits| - 2]) + 2 * N(bits[|bits| - 2]) + N(bits[|bits| - 1])
  {
    assert bits[..|bits| - 1][..|bits| - 2] == bits[..|bits| - 2];
  }

  lemma FourBits(bits: seq<bool>)
    requires |bits| == 4
    ensures FromBits(bits) == 8 * N(bits[0]) + 4 * N(bits[1]) + 2 * N(bits[2]) + N(bits[3])
  {
    TwoBits(bits);
    TwoBits(bits[..2]);
    assert bits[..2][..0] == [];
  }

  lemma EightBits(bits: seq<bool>)
    requires |bits| == 8
    ensures FromBits(bits) / 0x10 == 8 * N(bits[0]) + 4 * N(bits[1]) + 2 * N(bits[2]) + N(bits[3])
  {
    hide FromBits;
    TwoBits(bits);
    TwoBits(bits[..6]);
    FourBits(bits[..4]);
    assert bits[..6][..4] == bits[..4];
  }

  lemma UpperIs(bits: seq<bool>, k: nat)
    requires 8 * k + 8 <= |bits|
    ensures Upper(ByteOf(bits, k))
         == 8 * N(bits[8 * k]) + 4 * N(bits[8 * k + 1]) + 2 * N(bits[8 * k + 2]) + N(bits[8 * k + 3])
  {
    hide FromBits;
    EightBits(bits[8 * k..8 * k + 8]);
  }

  // ---- one bit ----

  lemma DeviceAcks(c: Chip)
    requires |c.sent| >= 8 && c.device == Upper(ByteOf(c.sent, 0))
    ensures Device(c).trace == c.trace + Acks(c.sent)
  {
    hide ByteOf, ByteBits, Place;
    UpperIs(c.sent, 0);
    if |c.sent| >= 16 {
      UpperIs(c.sent, 1);
    }
  }

  lemma LatchAcks(c: Chip, b: bool)
    requires Routed(c)
    ensures Latch(c, b).trace == c.trace + Acks(c.sent + [b])
  {
    hide ByteOf, Device, Acknowledged;
    var d := c.(sent := c.sent + [b]);
    if |d.sent| >= 8 {
      if |c.sent| >= 8 {
        BytePrefix(c.sent, b, 0);
      }
      DeviceAcks(if |d.sent| == 8 then d.(device := Upper(ByteOf(d.sent, 0))) else d);
    } else {
      TooFew(d.sent);
    }
  }

  lemma TooFew(bits: seq<bool>)
    requires |bits| < 8
    ensures !Acknowledged(bits)
  {
  }

  /** After any history, in a frame opened at `j`: a bit shifted in adds a low bit to what the
      master clocks in if it is acknowledged, and nothing if not. */
  lemma ShiftAcknowledged(evs: seq<Event>, j: nat)
    requires FrameFrom(evs, j) && evs[|evs| - 1].Shift?
    ensures Run(evs).trace == Run(evs[..|evs| - 1]).trace + Acks(BitsOf(evs[j + 1..]))
  {
    hide Run, BitsOf, Latch, Acknowledged;
    var m := |evs| - 1;
    FramePrefix(evs, j);
    SentIs(evs[..m], j);
    MoreBits(evs, j);
    RunStep(evs);
    LatchAcks(Run(evs[..m]), evs[m].b);
  }

  /** No frame is open at the end of `evs`. */
  predicate Outside(evs: seq<Event>)
  {
    forall j: nat | j < |evs| :: !FrameFrom(evs, j)
  }

  /** Starts, stops and anything outside a frame add nothing. */
  lemma OthersQuiet(evs: seq<Event>)
    requires |evs| > 0
    requires evs[|evs| - 1].Start? || evs[|evs| - 1].Stop? || Outside(evs[..|evs| - 1])
    ensures Run(evs).trace == Run(evs[..|evs| - 1]).trace
  {
    hide Run, Latch, Answer, FrameFrom;
    RunStep(evs);
    if Run(evs[..|evs| - 1]).inside {
      var j := FindStart(evs[..|evs| - 1]);
    }
  }

  // ---- the answer ----

  lemma DeviceSilent(c: Chip)
    requires |c.sent| >= 8 && c.device == Upper(ByteOf(c.sent, 0)) && !Reading(c.sent)
    ensures Device(c).response == c.response
  {
    hide ByteOf, ByteBits, Place;
    UpperIs(c.sent, 0);
    if |c.sent| >= 16 {
      UpperIs(c.sent, 1);
    }
  }

  lemma LatchSilent(c: Chip, b: bool)
    requires Routed(c) && !Reading(c.sent + [b])
    ensures Latch(c, b).response == c.response
  {
    hide ByteOf, Device, Reading;
    var d := c.(sent := c.sent + [b]);
    if |d.sent| >= 8 {
      if |c.sent| >= 8 {
        BytePrefix(c.sent, b, 0);
      }
      DeviceSilent(if |d.sent| == 8 then d.(device := Upper(ByteOf(d.sent, 0))) else d);
    }
  }

  /** Only a frame with a read command has anything to answer. */
  lemma {:induction false} OnlyReadsAnswer(evs: seq<Event>, j: nat)
    requires FrameFrom(evs, j) && !Reading(BitsOf(evs[j + 1..]))
    ensures Run(evs).response == []
    decreases |evs|
  {
    var m := |evs| - 1;
    RunStep(evs);
    if j < m {
      hide Run, BitsOf, Latch;
      FramePrefix(evs, j);
      MoreBits(evs, j);
      SentIs(evs[..m], j);
      OnlyReadsAnswer(evs[..m], j);
      if evs[m].Shift? {
        hide Reading;
        LatchSilent(Run(evs[..m]), evs[m].b);
      }
    } else {
      hide Run;
    }
  }

  /** So a clock pulse in which the master listens adds nothing in any other frame. */
  lemma NothingToRead(evs: seq<Event>, j: nat)
    requires FrameFrom(evs, j) && evs[|evs| - 1].Read? && !Reading(BitsOf(evs[j + 1..]))
    ensures Run(evs).trace == Run(evs[..|evs| - 1]).trace
  {
    hide Run, BitsOf, Reading;
    var m := |evs| - 1;
    FramePrefix(evs, j);
    MoreBits(evs, j);
    assert BitsOf(evs[..m][j + 1..]) + [] == BitsOf(evs[..m][j + 1..]);
    OnlyReadsAnswer(evs[..m], j);
    RunStep(evs);
  }

  // ---- a whole frame ----

  /** The acknowledgements of every bit in turn. */
  function AllAcks(bits: seq<bool>): seq<bool>
  {
    if |bits| == 0 then [] else AllAcks(bits[..|bits| - 1]) + Acks(bits)
  }

  /** Bits and listening clock pulses, none of them after a read command is complete. */
  predicate Asking(x: seq<Event>)
  {
    forall k | 0 <= k < |x| :: x[k].Shift? || (x[k].Read? && !Reading(BitsOf(x[..k])))
  }

  lemma AskingPrefix(x: seq<Event>)
    requires |x| > 0 && Asking(x)
    ensures Asking(x[..|x| - 1])
    ensures x[|x| - 1].Shift? || (x[|x| - 1].Read? && !Reading(BitsOf(x[..|x| - 1])))
  {
    hide Reading, BitsOf;
    var m := |x| - 1;
    forall k | 0 <= k < m ensures x[..m][k].Shift? || (x[..m][k].Read? && !Reading(BitsOf(x[..m][..k]))) {
      assert x[..m][..k] == x[..k];
    }
  }

  lemma OpenedFrame(h: seq<Event>, x: seq<Event>)
    requires Asking(x)
    ensures FrameFrom(h + [Start] + x, |h|) && (h + [Start] + x)[|h| + 1..] == x
  {
    hide Reading, BitsOf;
    var all := h + [Start] + x;
    forall k | |h| < k < |all| ensures !all[k].Start? && !all[k].Stop? {
      assert all[k] == x[k - |h| - 1];
    }
  }

  /** What a frame adds is the acknowledgements of its bits, whatever came before it. */
  lemma {:induction false} FrameTrace(h: seq<Event>, x: seq<Event>)
    requires Asking(x)
    ensures Run(h + [Start] + x).trace == Run(h).trace + AllAcks(BitsOf(x))
    decreases |x|
  {
    hide Run, Reading, Acks, Asking, BitsOf;
    var all := h + [Start] + x;
    if |x| == 0 {
      NoBits();
      assert all == h + [Start] && all[..|all| - 1] == h;
      OthersQuiet(all);
      assert Run(h).trace + [] == Run(h).trace;
    } else {
      var m := |x| - 1;
      AskingPrefix(x);
      OpenedFrame(h, x);
      assert all[..|all| - 1] == h + [Start] + x[..m] && all[|all| - 1] == x[m];
      FrameTrace(h, x[..m]);
      LastAdds(all, |h|, x);
    }
  }

  lemma LastAdds(all: seq<Event>, j: nat, x: seq<Event>)
    requires |x| > 0 && j < |all| && FrameFrom(all, j) && all[j + 1..] == x
    requires x[|x| - 1].Shift? || (x[|x| - 1].Read? && !Reading(BitsOf(x[..|x| - 1])))
    ensures x[|x| - 1].Shift? ==> AllAcks(BitsOf(x)) == AllAcks(BitsOf(x[..|x| - 1])) + Acks(BitsOf(x))
    ensures x[|x| - 1].Shift? ==> Run(all).trace == Run(all[..|all| - 1]).trace + Acks(BitsOf(x))
    ensures x[|x| - 1].Read? ==> BitsOf(x) == BitsOf(x[..|x| - 1]) && Run(all).trace == Run(all[..|all| - 1]).trace
  {
    hide Run, Reading, Acknowledged;
    assert all[|all| - 1] == x[|x| - 1];
    if x[|x| - 1].Shift? {
      ShiftAcknowledged(all, j);
      assert BitsOf(x)[..|BitsOf(x)| - 1] == BitsOf(x[..|x| - 1]);
    } else {
      assert BitsOf(x[..|x| - 1]) + [] == BitsOf(x[..|x| - 1]);
      NothingToRead(all, j);
    }
  }

  // ---- sessions ----

  /** A whole read or write command. */
  predicate Command(bits: seq<bool>)
  {
    (|bits| == 16 && Reading(bits)) || (|bits| == 24 && Writing(bits))
  }

  /** One low bit for each of `m` / 8 bytes. */
  function Lows(m: nat): seq<bool>
  {
    if m < 8 then [] else if m < 16 then [false] else if m < 24 then [false, false] else [false, false, false]
  }

  lemma CommandAck(bits: seq<bool>, m: nat)
    requires Command(bits) && 0 < m <= |bits|
    ensures Acknowledged(bits[..m]) <==> m % 8 == 0
  {
  }

  lemma {:induction false} CommandAcks(bits: seq<bool>, m: nat)
    requires Command(bits) && m <= |bits|
    ensures AllAcks(bits[..m]) == Lows(m)
    decreases m
  {
    hide Command, Acknowledged;
    if m > 0 {
      CommandAcks(bits, m - 1);
      CommandAck(bits, m);
      assert bits[..m][..m - 1] == bits[..m - 1];
      CommandLength(bits);
    }
  }

  lemma CommandLength(bits: seq<bool>)
    requires Command(bits)
    ensures |bits| <= 24
  {
  }

  lemma TopOf(v: Byte)
    ensures var b := ByteBits(v);
      v / 0x10 == 8 * N(b[0]) + 4 * N(b[1]) + 2 * N(b[2]) + N(b[3])
  {
    hide ByteBits, FromBits;
    ByteToBits(v);
    EightBits(ByteBits(v));
  }

  lemma WriteIsCommand(inst: nat, pot: nat, reg: nat, v: Byte)
    requires inst < DEVICES && pot < POTS && reg < 4
    ensures Command(WriteBits(inst, pot, reg, v)) && |WriteBits(inst, pot, reg, v)| == 24
  {
    hide ByteBits;
    TopOf(AddressByte(inst));
    TopOf(CommandByte(WRITE_WIPER, pot, reg));
  }

  lemma ReadIsCommand(inst: nat, pot: nat, reg: nat)
    requires inst < DEVICES && pot < POTS && reg < 4
    ensures Command(ReadBits(inst, pot, reg)) && |ReadBits(inst, pot, reg)| == 16
  {
    hide ByteBits;
    TopOf(AddressByte(inst));
    TopOf(CommandByte(READ_WIPER, pot, reg));
  }

  lemma NotYetReading(x: seq<Event>, k: nat)
    requires k < |x| && IsBody(x) && Command(BitsOf(x)) && x[k].Read?
    ensures !Reading(BitsOf(x[..k]))
  {
    hide BitsOf;
    BitsPrefix(x, k);
    ShorterPrefix(x, k);
  }

  /** A body ends in a bit, so a proper prefix has fewer. */
  lemma ShorterPrefix(x: seq<Event>, k: nat)
    requires k < |x| && IsBody(x)
    ensures |BitsOf(x[..k])| < |BitsOf(x)|
  {
    var m := |x| - 1;
    BitsPrefix(x[..m], k);
    assert x[..m][..k] == x[..k];
  }

  /** A command with listening pulses anywhere in it is acknowledged once a byte. */
  lemma CommandTrace(h: seq<Event>, x: seq<Event>)
    requires IsBody(x) && Command(BitsOf(x))
    ensures Asking(x) && Run(h + [Start] + x).trace == Run(h).trace + Lows(|BitsOf(x)|)
  {
    hide BitsOf, Reading, Run, Command, Lows;
    forall k | 0 <= k < |x| ensures x[k].Shift? || (x[k].Read? && !Reading(BitsOf(x[..k]))) {
      if x[k].Read? {
        NotYetReading(x, k);
      }
    }
    FrameTrace(h, x);
    CommandAcks(BitsOf(x), |BitsOf(x)|);
    assert BitsOf(x)[..|BitsOf(x)|] == BitsOf(x);
  }

  lemma WriteTrace(h: seq<Event>, f: seq<Event>, inst: nat, pot: nat, reg: nat, v: Byte)
    requires inst < DEVICES && pot < POTS && reg < 4
    requires IsBody(f) && BitsOf(f) == WriteBits(inst, pot, reg, v)
    ensures Run(h + [Start] + f).trace == Run(h).trace + [false, false, false]
  {
    hide BitsOf, Run, Command, IsBody, WriteBits;
    WriteIsCommand(inst, pot, reg, v);
    CommandTrace(h, f);
  }

  lemma ReadTrace(h: seq<Event>, g: seq<Event>, inst: nat, pot: nat, reg: nat)
    requires inst < DEVICES && pot < POTS && reg < 4
    requires IsBody(g) && BitsOf(g) == ReadBits(inst, pot, reg)
    ensures Run(h + [Start] + g).trace == Run(h).trace + [false, false]
  {
    hide BitsOf, Run, Command, IsBody, ReadBits;
    ReadIsCommand(inst, pot, reg);
    CommandTrace(h, g);
  }

  /** The write with what the master sends before its stop condition. */
  function Tail(f: seq<Event>, driving: bool): seq<Event>
  {
    f + if driving then [Read, Shift(false)] else [Read]
  }

  lemma AskingMore(x: seq<Event>, e: Event)
    requires Asking(x) && (e.Shift? || (e.Read? && !Reading(BitsOf(x))))
    ensures Asking(x + [e])
  {
    hide Reading, BitsOf;
    var y := x + [e];
    forall k | 0 <= k < |y| ensures y[k].Shift? || (y[k].Read? && !Reading(BitsOf(y[..k]))) {
      if k < |x| {
        assert y[..k] == x[..k];
      } else {
        assert y[..k] == x;
      }
    }
  }

  lemma TailBits(f: seq<Event>, driving: bool)
    ensures BitsOf(Tail(f, driving)) == BitsOf(f) + if driving then [false] else []
  {
    hide BitsOf;
    BitsJoin(f, [Read]);
    NoBitsIn(Read);
    BitsJoin(f + [Read], [Shift(false)]);
    OneBit(false);
    if driving {
      assert f + [Read] + [Shift(false)] == Tail(f, driving);
    }
  }

  lemma OneBit(b: bool)
    ensures BitsOf([Shift(b)]) == [b]
  {
    assert [Shift(b)][..0] == [];
  }

  lemma TailAsks(f: seq<Event>, driving: bool)
    requires Asking(f) && Command(BitsOf(f)) && |BitsOf(f)| == 24
    ensures Asking(Tail(f, driving)) && AllAcks(BitsOf(Tail(f, driving))) == [false, false, false]
  {
    hide BitsOf, Asking, Acknowledged, Command, Reading;
    TailBits(f, false);
    CommandWrites(BitsOf(f));
    AskingMore(f, Read);
    CommandAcks(BitsOf(f), 24);
    assert BitsOf(f)[..24] == BitsOf(f) && BitsOf(f) + [] == BitsOf(f);
    if driving {
      TailBits(f, true);
      AskingMore(f + [Read], Shift(false));
      assert f + [Read] + [Shift(false)] == Tail(f, true);
      assert (BitsOf(f) + [false])[..24] == BitsOf(f);
    }
  }

  lemma CommandWrites(bits: seq<bool>)
    requires Command(bits) && |bits| == 24
    ensures !Reading(bits) && !Acknowledged(bits + [false])
  {
  }

  /** Nothing is clocked in at a stop, nor after it. */
  lemma StopTrace(w: seq<Event>, driving: bool)
    ensures Run(w + [Stop] + if driving then [Shift(true)] else []).trace == Run(w).trace
  {
    hide Run;
    var s := w + [Stop];
    assert s[..|w|] == w;
    OthersQuiet(s);
    if driving {
      var t := s + [Shift(true)];
      assert t[..|s|] == s && s[|w|].Stop?;
      OthersQuiet(t);
    } else {
      assert s + [] == s;
    }
  }

  /** Between the last bit of a write and the next start nothing is clocked in. */
  lemma WrittenTrace(h: seq<Event>, f: seq<Event>, driving: bool)
    requires IsBody(f) && Command(BitsOf(f)) && |BitsOf(f)| == 24
    ensures Run(h + [Start] + f + Between(driving)).trace == Run(h).trace + [false, false, false]
  {
    hide BitsOf, Run, Command, Asking, IsBody;
    CommandTrace(h, f);
    TailAsks(f, driving);
    FrameTrace(h, Tail(f, driving));
    StopTrace(h + [Start] + Tail(f, driving), driving);
    assert h + [Start] + Tail(f, driving) + [Stop] + (if driving then [Shift(true)] else [])
        == h + [Start] + f + Between(driving);
  }

  /** Everything a master clocks in that writes a potentiometer, stops, and reads it back: an
      acknowledgement for each of the five bytes it sends, and the value it wrote. */
  lemma SessionTrace(h: seq<Event>, driving: bool, f: seq<Event>, g: seq<Event>,
                     inst: nat, pot: nat, reg: nat, reg': nat, v: Byte)
    requires inst < DEVICES && pot < POTS && reg < 4 && reg' < 4
    requires IsBody(f) && BitsOf(f) == WriteBits(inst, pot, reg, v)
    requires IsBody(g) && BitsOf(g) == ReadBits(inst, pot, reg')
    ensures Run(h + Session(f, Between(driving), [], g) + Reads(8)).trace
         == Run(h).trace + [false, false, false, false, false] + ByteBits(v)
  {
    hide BitsOf, Run, Command, IsBody, WriteBits, ReadBits, Between, ByteBits, Reads, Session;
    WriteIsCommand(inst, pot, reg, v);
    WrittenTrace(h, f, driving);
    ReadTrace(h + [Start] + f + Between(driving), g, inst, pot, reg');
    BetweenBits(driving);
    WriteThenReadReturns(h, f, Between(driving), [], g, inst, pot, reg, reg', v);
    SessionIs(h, f, Between(driving), [], g);
    assert (h + [Start] + f + Between(driving)) + Flat([]) == h + [Start] + f + Between(driving);
  }

  /** The same on the bus lines, from any history of line movements, for masters of both kinds. One
      that drives data while it raises the clock before its first start clocks a bit in, which may
      be acknowledged if a frame was open. */
  lemma DrivenSessionTrace(es: seq<Edge>, driving: bool, f: seq<Event>, g: seq<Event>,
                           inst: nat, pot: nat, reg: nat, reg': nat, v: Byte)
    requires inst < DEVICES && pot < POTS && reg < 4 && reg' < 4
    requires IsBody(f) && BitsOf(f) == WriteBits(inst, pot, reg, v)
    requires IsBody(g) && BitsOf(g) == ReadBits(inst, pot, reg')
    ensures var b := SimAll(Idle, es);
      var c := SimAll(SimAll(b, DriveAll(WriteStopRead(f, g), driving)), DriveAll(Reads(8), driving));
      var before := Run(Events(Idle, es) + if driving then [Shift(true)] else []).trace;
      c.chip.trace == before + [false, false, false, false, false] + ByteBits(v)
  {
    var p := if driving then [Shift(true)] else [];
    hide IsBody, BitsOf, WriteBits, ReadBits, SimAll, DriveAll, Session, ByteBits, Reads, Between, Run;
    DrivenChips(es, driving, f, g, p);
    SessionTrace(Events(Idle, es) + p, driving, f, g, inst, pot, reg, reg', v);
  }
}
