// Serial receive buffer of the 6303: src/arch/h6303/sci.c.

/** Bytes come in through sci_in and leave through reads of RDR, while the program and the clock
    do anything else to the register block. */
module Sci {
  import opened Words
  import opened Device
  import Q = Sequences

  /** A read of RDR that takes a byte out of the buffer. */
  predicate Takes(d: Dev, a: Action)
  {
    a == Read(RDR) && d.running && |d.pending| > 0
  }

  /** The bytes that RDR reads returned from the buffer. */
  function Delivered(d: Dev, acts: seq<Action>): seq<Byte>
    requires AllPossible(acts)
  {
    if |acts| == 0 then []
    else
      var c := PerformAll(d, acts[..|acts| - 1]);
      Delivered(d, acts[..|acts| - 1]) + if Takes(c, acts[|acts| - 1]) then [Get(c, RDR).v] else []
  }

  /** The bytes that sci_in took. */
  function Arrived(d: Dev, acts: seq<Action>): seq<Byte>
    requires AllPossible(acts)
  {
    if |acts| == 0 then []
    else
      var c := PerformAll(d, acts[..|acts| - 1]);
      var a := acts[|acts| - 1];
      Arrived(d, acts[..|acts| - 1]) + if a.Receive? then a.s[..Accepted(c, a.s)] else []
  }

  /** The indices stay in the buffer, and an empty buffer starts at its beginning. */
  predicate Sound(d: Dev)
  {
    d.rxindex + |d.pending| <= BUFSIZE && (|d.pending| == 0 ==> d.rxindex == 0)
  }

  predicate SameQueue(d: Dev, e: Dev)
  {
    e.pending == d.pending && e.rxindex == d.rxindex && e.running == d.running
  }

  lemma ComparesKeepQueue(d: Dev, n: nat)
    ensures SameQueue(d, Compare1(d, n)) && SameQueue(d, Compare2(d, n)) && SameQueue(d, Timer2(d, n))
  {
    hide Has, Set, T2Ticks, Matches;
  }

  lemma TickKeepsQueue(d: Dev, n: nat)
    ensures SameQueue(d, Tick(d, n))
  {
    hide Compare1, Compare2, Timer2, Hi, Lo;
    ComparesKeepQueue(d, n);
    ComparesKeepQueue(Compare1(d, n), n);
    ComparesKeepQueue(Compare2(Compare1(d, n), n), n);
  }

  lemma PutKeepsQueue(d: Dev, offs: nat, v: Byte)
    requires offs < NIREGS
    ensures SameQueue(d, Put(d, offs, v))
  {
    hide Has, Copy, Clear, ByteOp, TrcsrValue;
  }

  lemma GetQueue(d: Dev, offs: nat)
    requires offs < NIREGS
    ensures var g := Get(d, offs);
      if Takes(d, Read(offs))
      then g.v == d.pending[0] && g.d.pending == d.pending[1..] && g.d.running
           && g.d.rxindex == if |d.pending| == 1 then 0 else d.rxindex + 1
      else g.d.pending == d.pending && g.d.running == d.running
           && (g.d.rxindex == d.rxindex || (|d.pending| == 0 && g.d.rxindex == 0))
  {
    hide Has, Copy, TrcsrValue, Tcsr2Value;
  }

  /** What each action does to the queue. */
  lemma QueueStep(d: Dev, a: Action)
    requires a.Possible() && Sound(d)
    ensures var e := Perform(d, a);
      && Sound(e)
      && (if Takes(d, a) then [Get(d, RDR).v] else []) + e.pending
         == d.pending + (if a.Receive? then a.s[..Accepted(d, a.s)] else [])
  {
    match a
    case Read(offs) => GetQueue(d, offs);
    case Write(offs, v) => PutKeepsQueue(d, offs, v);
    case Pass(n) => TickKeepsQueue(d, n);
    case Receive(s) =>
    case Switch(on) =>
    hide Get, Put, Tick;
  }

  /** The buffer is a first-in first-out queue on every run: what was delivered, followed by what
      is pending, is what was pending at first followed by what was accepted. */
  lemma {:induction false} QueueRefined(d: Dev, acts: seq<Action>)
    requires AllPossible(acts) && Sound(d)
    ensures var e := PerformAll(d, acts);
      Sound(e) && Delivered(d, acts) + e.pending == d.pending + Arrived(d, acts)
  {
    if |acts| > 0 {
      var m := |acts| - 1;
      var c := PerformAll(d, acts[..m]);
      QueueRefined(d, acts[..m]);
      QueueStep(c, acts[m]);
      hide Perform, Takes, Get, Accepted, Sound;
      var outs := Delivered(d, acts[..m]);
      var out := if Takes(c, acts[m]) then [Get(c, RDR).v] else [];
      var added := if acts[m].Receive? then acts[m].s[..Accepted(c, acts[m].s)] else [];
      Q.QueueStep(outs, out, PerformAll(d, acts).pending, d.pending, Arrived(d, acts[..m]), added, c.pending);
    }
  }

  /** sci_in takes all it is given, or as much as fits behind what is already there; once the
      buffer has been drained the whole of it is free again. */
  lemma AcceptsWhatFits(d: Dev, acts: seq<Action>, s: seq<Byte>)
    requires AllPossible(acts) && Sound(d)
    ensures var e := PerformAll(d, acts);
      && 0 <= Room(e)
      && Accepted(e, s) == (if |s| <= Room(e) then |s| else Room(e))
      && (|e.pending| == 0 ==> Room(e) == BUFSIZE)
  {
    QueueRefined(d, acts);
  }

  /** The program sees RDRF set exactly while bytes are pending, and TDRE always. */
  lemma ReceiveFlag(d: Dev)
    ensures Has(Get(d, TRCSR).v, RDRF) <==> |d.pending| > 0
    ensures Has(Get(d, TRCSR).v, TDRE)
  {
    StatusBits(d.Reg(TRCSR));
    hide Has, Set, Clear;
  }

  lemma StatusBits(x: Byte)
    ensures var t := Set(x, TDRE);
      Has(Set(t, RDRF), RDRF) && !Has(Clear(t, RDRF), RDRF) && Has(Set(t, RDRF), TDRE) && Has(Clear(t, RDRF), TDRE)
  {
  }

  /** A serial receive interrupt is requested exactly while enabled and bytes are pending. */
  lemma ReceiveInterrupt(d: Dev)
    requires Has(d.Reg(TRCSR), RIE) && !Has(d.Reg(TRCSR), TIE)
    ensures SerialInt(d) <==> Has(Get(d, TRCSR).v, RDRF)
  {
    ReceiveFlag(d);
    hide Has, Get;
  }
}
