// Serial peripheral interface of the 6811: src/arch/m6811/spi.c.

module SpiProtocol {
  import opened Words
  import Q = Sequences

  const BUFSIZE := 1024
  const SPIF := 0x80
  const SPIE := 0x80

  /** The three registers; `pending` is the part of the receive buffer not clocked in yet, which
      starts at `index`; `statusRead` is the flag that an access to SPSR sets. */
  datatype Spi = Spi(spcr: Byte, spsr: Byte, spdr: Byte, statusRead: bool, interrupt: bool,
                     index: nat, pending: seq<Byte>)
  {
    predicate Spif() { Has(spsr, SPIF) }

    function Room(): int { BUFSIZE - index - |pending| }

    /** A write to SPDR would start a transfer. */
    predicate Ready() { statusRead || !Spif() }
  }

  function Reset(spcr: Byte, spdr: Byte): Spi
  {
    Spi(spcr, 0, spdr, false, false, 0, [])
  }

  function Accepted(s: Spi, bytes: seq<Byte>): (n: nat)
    ensures n <= |bytes|
  {
    if |bytes| <= s.Room() then |bytes| else if s.Room() > 0 then s.Room() else 0
  }

  /** spi_in. */
  function In(s: Spi, bytes: seq<Byte>): Spi
  {
    s.(pending := s.pending + bytes[..Accepted(s, bytes)])
  }

  /** Reading SPSR and then accessing SPDR clears SPIF. */
  function Acknowledge(s: Spi): Spi
  {
    if s.statusRead then s.(spsr := 0, interrupt := false) else s
  }

  function Transfer(s: Spi, v: Byte): Spi
  {
    var t := s.(spdr := v, spsr := SPIF, interrupt := s.interrupt || Has(s.spcr, SPIE));
    if |t.pending| > 1 then t.(spdr := t.pending[0], pending := t.pending[1..], index := t.index + 1)
    else if |t.pending| == 1 then t.(spdr := t.pending[0], pending := [], index := 0)
    else t.(index := 0)
  }

  /** spdr_putb. */
  function Write(s: Spi, v: Byte): Spi
  {
    var t := Acknowledge(s);
    (if t.Spif() then t else Transfer(t, v)).(statusRead := false)
  }

  datatype Action = Input(bytes: seq<Byte>) | ReadStatus | ReadData | WriteData(v: Byte) | WriteControl(v: Byte)

  function Perform(s: Spi, a: Action): Spi
  {
    match a
    case Input(bytes) => In(s, bytes)
    case ReadStatus => s.(statusRead := true)
    case ReadData => Acknowledge(s)
    case WriteData(v) => Write(s, v)
    case WriteControl(v) => s.(spcr := v)
  }

  function PerformAll(s: Spi, acts: seq<Action>): Spi
  {
    if |acts| == 0 then s else Perform(PerformAll(s, acts[..|acts| - 1]), acts[|acts| - 1])
  }

  // ---- the data ----

  /** Bytes clocked in by transfers, as SPDR shows them. */
  function ClockedIn(s: Spi, acts: seq<Action>): seq<Byte>
  {
    if |acts| == 0 then []
    else
      var c := PerformAll(s, acts[..|acts| - 1]);
      var a := acts[|acts| - 1];
      ClockedIn(s, acts[..|acts| - 1])
      + if a.WriteData? && c.Ready() && |c.pending| > 0 then [Perform(c, a).spdr] else []
  }

  function Arrived(s: Spi, acts: seq<Action>): seq<Byte>
  {
    if |acts| == 0 then []
    else
      var c := PerformAll(s, acts[..|acts| - 1]);
      var a := acts[|acts| - 1];
      Arrived(s, acts[..|acts| - 1]) + if a.Input? then a.bytes[..Accepted(c, a.bytes)] else []
  }

  predicate Sound(s: Spi)
  {
    && s.index + |s.pending| <= BUFSIZE && (|s.pending| == 0 ==> s.index == 0)
    && (s.interrupt ==> s.Spif())
  }

  lemma WriteEffect(s: Spi, v: Byte)
    ensures var t := Write(s, v);
      && t.Spif() && !t.statusRead && t.spcr == s.spcr
      && (s.Ready() ==> t.interrupt == (Has(s.spcr, SPIE) || (!s.statusRead && s.interrupt)))
      && (!s.Ready() ==> t == s)
      && t.spdr == (if !s.Ready() then s.spdr else if |s.pending| > 0 then s.pending[0] else v)
      && t.pending == (if s.Ready() && |s.pending| > 0 then s.pending[1..] else s.pending)
  {
    assert Has(SPIF, SPIF) && !Has(0, SPIF);
  }

  lemma WriteSound(s: Spi, v: Byte)
    requires Sound(s)
    ensures Sound(Write(s, v))
  {
    assert Has(SPIF, SPIF) && !Has(0, SPIF);
  }

  lemma ActionStep(s: Spi, a: Action)
    requires Sound(s)
    ensures var t := Perform(s, a);
      && Sound(t)
      && (if a.WriteData? && s.Ready() && |s.pending| > 0 then [t.spdr] else []) + t.pending
         == s.pending + (if a.Input? then a.bytes[..Accepted(s, a.bytes)] else [])
  {
    if a.WriteData? {
      WriteEffect(s, a.v);
      WriteSound(s, a.v);
    }
    hide Write, Has;
  }

  /** The bytes clocked in are the accepted inputs in order, none lost and none repeated; the
      buffer never overflows, and an interrupt is only pending while SPIF is set. */
  lemma {:induction false} ClockedInOrder(s: Spi, acts: seq<Action>)
    requires Sound(s)
    ensures var t := PerformAll(s, acts);
      Sound(t) && ClockedIn(s, acts) + t.pending == s.pending + Arrived(s, acts)
  {
    if |acts| > 0 {
      var m := |acts| - 1;
      var c, a := PerformAll(s, acts[..m]), acts[m];
      ClockedInOrder(s, acts[..m]);
      ActionStep(c, a);
      var out := if a.WriteData? && c.Ready() && |c.pending| > 0 then [Perform(c, a).spdr] else [];
      var more := if a.Input? then a.bytes[..Accepted(c, a.bytes)] else [];
      hide Perform, Accepted, Sound;
      Q.QueueStep(ClockedIn(s, acts[..m]), out, Perform(c, a).pending, s.pending, Arrived(s, acts[..m]), more, c.pending);
    }
  }

  lemma InterruptMeansSpif(spcr: Byte, spdr: Byte, acts: seq<Action>)
    ensures var t := PerformAll(Reset(spcr, spdr), acts); t.interrupt ==> t.Spif()
  {
    ClockedInOrder(Reset(spcr, spdr), acts);
  }

  // ---- the handshake ----

  predicate NoWriteAfter(acts: seq<Action>, j: int)
    requires 0 <= j
  {
    forall k | j < k < |acts| :: !acts[k].WriteData?
  }

  /** SPSR was read and SPDR not written since. */
  predicate StatusSeen(acts: seq<Action>)
  {
    exists j | 0 <= j < |acts| && acts[j].ReadStatus? :: NoWriteAfter(acts, j)
  }

  /** SPSR was read, then SPDR was read, and SPDR not written since the former. */
  predicate Acknowledged(acts: seq<Action>)
  {
    exists j | 0 <= j < |acts| && acts[j].ReadData? :: StatusSeen(acts[..j]) && NoWriteAfter(acts, j)
  }

  predicate Written(acts: seq<Action>)
  {
    exists j | 0 <= j < |acts| :: acts[j].WriteData?
  }

  lemma WriteAfterStep(acts: seq<Action>, m: nat, j: nat)
    requires |acts| == m + 1 && j <= m
    ensures NoWriteAfter(acts, j) <==> j == m || (NoWriteAfter(acts[..m], j) && !acts[m].WriteData?)
  {
    var b := acts[..m];
    assert forall k | 0 <= k < m :: b[k] == acts[k];
    if j < m && NoWriteAfter(acts, j) {
      assert !acts[m].WriteData?;
    }
  }

  lemma SeenStep(acts: seq<Action>)
    requires |acts| > 0
    ensures var m := |acts| - 1;
      StatusSeen(acts) <==> acts[m].ReadStatus? || (StatusSeen(acts[..m]) && !acts[m].WriteData?)
  {
    hide NoWriteAfter;
    var m := |acts| - 1;
    WriteAfterStep(acts, m, m);
    if StatusSeen(acts[..m]) && !acts[m].WriteData? {
      var j :| 0 <= j < m && acts[..m][j].ReadStatus? && NoWriteAfter(acts[..m], j);
      WriteAfterStep(acts, m, j);
      assert acts[j].ReadStatus?;
    }
    if StatusSeen(acts) && !acts[m].ReadStatus? {
      var j :| 0 <= j < |acts| && acts[j].ReadStatus? && NoWriteAfter(acts, j);
      WriteAfterStep(acts, m, j);
      assert acts[..m][j].ReadStatus?;
    }
  }

  lemma AcknowledgedStep(acts: seq<Action>)
    requires |acts| > 0
    ensures var m := |acts| - 1;
      Acknowledged(acts) <==> (acts[m].ReadData? && StatusSeen(acts[..m]))
                              || (Acknowledged(acts[..m]) && !acts[m].WriteData?)
  {
    hide NoWriteAfter, StatusSeen;
    var m := |acts| - 1;
    WriteAfterStep(acts, m, m);
    if Acknowledged(acts[..m]) && !acts[m].WriteData? {
      var j :| 0 <= j < m && acts[..m][j].ReadData? && StatusSeen(acts[..m][..j]) && NoWriteAfter(acts[..m], j);
      WriteAfterStep(acts, m, j);
      assert acts[..m][..j] == acts[..j] && acts[j].ReadData?;
    }
    if Acknowledged(acts) && !(acts[m].ReadData? && StatusSeen(acts[..m])) {
      var j :| 0 <= j < |acts| && acts[j].ReadData? && StatusSeen(acts[..j]) && NoWriteAfter(acts, j);
      WriteAfterStep(acts, m, j);
      assert acts[..m][..j] == acts[..j] && acts[..m][j].ReadData?;
    }
  }

  lemma WrittenStep(acts: seq<Action>)
    requires |acts| > 0
    ensures Written(acts) <==> Written(acts[..|acts| - 1]) || acts[|acts| - 1].WriteData?
  {
    var b := acts[..|acts| - 1];
    assert forall k | 0 <= k < |b| :: b[k] == acts[k];
    if Written(b) {
      var j :| 0 <= j < |b| && b[j].WriteData?;
      assert acts[j].WriteData?;
    }
    if Written(acts) && !acts[|acts| - 1].WriteData? {
      var j :| 0 <= j < |acts| && acts[j].WriteData?;
      assert b[j].WriteData?;
    }
  }

  lemma FlagsStep(s: Spi, a: Action)
    ensures var t := Perform(s, a);
      && t.statusRead == (a.ReadStatus? || (s.statusRead && !a.WriteData?))
      && t.Spif() == (a.WriteData? || (s.Spif() && !(a.ReadData? && s.statusRead)))
  {
    if a.WriteData? {
      WriteEffect(s, a.v);
    }
    assert !Has(0, SPIF);
    hide Write, Has;
  }

  /** What the two handshake flags say about the history since reset. */
  lemma {:induction false} FlagMeaning(spcr: Byte, spdr: Byte, acts: seq<Action>)
    ensures var t := PerformAll(Reset(spcr, spdr), acts);
      && (t.statusRead <==> StatusSeen(acts))
      && (t.Spif() <==> Written(acts) && !Acknowledged(acts))
      && (Acknowledged(acts) ==> StatusSeen(acts))
  {
    if |acts| > 0 {
      var m := |acts| - 1;
      FlagMeaning(spcr, spdr, acts[..m]);
      FlagsStep(PerformAll(Reset(spcr, spdr), acts[..m]), acts[m]);
      SeenStep(acts);
      AcknowledgedStep(acts);
      WrittenStep(acts);
      hide Perform, StatusSeen, Acknowledged, Written, Has, Reset;
    } else {
      assert !Has(0, SPIF);
    }
  }

  /** A write to SPDR transfers exactly when it is the first one or SPSR was read since the last
      one; otherwise it changes nothing. */
  lemma TransferCondition(spcr: Byte, spdr: Byte, acts: seq<Action>, v: Byte)
    ensures var s := PerformAll(Reset(spcr, spdr), acts);
      && (s.Ready() <==> !Written(acts) || StatusSeen(acts))
      && (s.Ready() ==> Write(s, v).spdr == if |s.pending| > 0 then s.pending[0] else v)
      && (!s.Ready() ==> Write(s, v) == s)
  {
    FlagMeaning(spcr, spdr, acts);
    WriteEffect(PerformAll(Reset(spcr, spdr), acts), v);
    hide Write, Has, StatusSeen, Acknowledged, Written, PerformAll;
  }

  function Transfers(s: Spi, acts: seq<Action>): nat
  {
    if |acts| == 0 then 0
    else
      Transfers(s, acts[..|acts| - 1])
      + if acts[|acts| - 1].WriteData? && PerformAll(s, acts[..|acts| - 1]).Ready() then 1 else 0
  }

  function StatusReads(acts: seq<Action>): nat
  {
    if |acts| == 0 then 0
    else StatusReads(acts[..|acts| - 1]) + if acts[|acts| - 1].ReadStatus? then 1 else 0
  }

  /** Every transfer but the first needs its own status read. */
  lemma {:induction false} TransfersBounded(s: Spi, acts: seq<Action>)
    ensures Transfers(s, acts) + (if PerformAll(s, acts).Ready() then 1 else 0) <= 1 + StatusReads(acts)
  {
    if |acts| > 0 {
      TransfersBounded(s, acts[..|acts| - 1]);
      FlagsStep(PerformAll(s, acts[..|acts| - 1]), acts[|acts| - 1]);
      hide Perform, Has;
    }
  }

  // ---- interrupts ----

  /** Action `k` transfers a byte. */
  predicate TransfersAt(s: Spi, acts: seq<Action>, k: nat)
    requires k < |acts|
  {
    acts[k].WriteData? && PerformAll(s, acts[..k]).Ready()
  }

  /** Transfers interrupted the CPU when the last one was made. */
  predicate Enabled(s: Spi, acts: seq<Action>)
  {
    exists k: nat | k < |acts| && TransfersAt(s, acts, k) && Has(PerformAll(s, acts[..k]).spcr, SPIE) ::
      forall j: nat | k < j < |acts| :: !TransfersAt(s, acts, j)
  }

  lemma TransferPrefix(s: Spi, acts: seq<Action>, k: nat)
    requires k < |acts| - 1
    ensures TransfersAt(s, acts[..|acts| - 1], k) == TransfersAt(s, acts, k) && acts[..|acts| - 1][..k] == acts[..k]
  {
    hide PerformAll;
    assert acts[..|acts| - 1][..k] == acts[..k];
  }

  lemma EnabledStep(s: Spi, acts: seq<Action>)
    requires |acts| > 0
    ensures var m := |acts| - 1;
      var c := PerformAll(s, acts[..m]);
      Enabled(s, acts) <==> if TransfersAt(s, acts, m) then Has(c.spcr, SPIE) else Enabled(s, acts[..m])
  {
    hide PerformAll, TransfersAt, Has;
    var m := |acts| - 1;
    forall k: nat | k < m ensures TransfersAt(s, acts[..m], k) == TransfersAt(s, acts, k) && acts[..m][..k] == acts[..k] {
      TransferPrefix(s, acts, k);
    }
    if Enabled(s, acts) {
      var k: nat :| k < |acts| && TransfersAt(s, acts, k) && Has(PerformAll(s, acts[..k]).spcr, SPIE)
                    && forall j: nat | k < j < |acts| :: !TransfersAt(s, acts, j);
      if !TransfersAt(s, acts, m) {
        assert TransfersAt(s, acts[..m], k);
      }
    }
    if Enabled(s, acts[..m]) && !TransfersAt(s, acts, m) {
      var k: nat :| k < m && TransfersAt(s, acts[..m], k) && Has(PerformAll(s, acts[..m][..k]).spcr, SPIE)
                    && forall j: nat | k < j < m :: !TransfersAt(s, acts[..m], j);
      assert TransfersAt(s, acts, k);
    }
  }

  lemma InterruptStep(s: Spi, a: Action)
    requires Sound(s)
    ensures var t := Perform(s, a);
      t.interrupt == if a.WriteData? && s.Ready() then Has(s.spcr, SPIE)
                     else s.interrupt && !(a.ReadData? && s.statusRead)
  {
    hide Write, Has;
    if a.WriteData? {
      WriteEffect(s, a.v);
    }
  }

  /** The SPI interrupt is raised exactly while SPIF is set, if SPIE was at the latest transfer. */
  lemma {:induction false} InterruptMeaning(spcr: Byte, spdr: Byte, acts: seq<Action>)
    ensures var s := Reset(spcr, spdr);
      var t := PerformAll(s, acts);
      t.interrupt <==> t.Spif() && Enabled(s, acts)
  {
    var s := Reset(spcr, spdr);
    if |acts| > 0 {
      hide Perform, Enabled, Reset, Has, Sound;
      var m := |acts| - 1;
      InterruptMeaning(spcr, spdr, acts[..m]);
      ResetSound(spcr, spdr);
      ClockedInOrder(s, acts[..m]);
      InterruptStep(PerformAll(s, acts[..m]), acts[m]);
      FlagsStep(PerformAll(s, acts[..m]), acts[m]);
      EnabledStep(s, acts);
    } else {
      assert !Has(0, SPIF);
    }
  }

  lemma ResetSound(spcr: Byte, spdr: Byte)
    ensures Sound(Reset(spcr, spdr))
  {
  }

  /** spi_in takes what fits into 1024 bytes behind what is pending. */
  lemma InputTakes(s: Spi, acts: seq<Action>, bytes: seq<Byte>)
    requires Sound(s)
    ensures var t := PerformAll(s, acts);
      var room := 1024 - t.index - |t.pending|;
      && room >= 0
      && Perform(t, Input(bytes)) == t.(pending := t.pending + bytes[..if |bytes| <= room then |bytes| else room])
  {
    ClockedInOrder(s, acts);
    hide PerformAll, ClockedIn, Arrived;
  }
}

module Spi {
  import opened Words
  import P = SpiProtocol

  const NIREGS := 0x40
  const SPCR := 0x28
  const SPSR := 0x29
  const SPDR := 0x2A

  class SerialPeripheral {
    const iram: array<Byte>
    const rxBuf: array<Byte>
    var statusRead: bool
    var interrupt: bool
    var rxIndex: nat
    var rxCount: nat

    ghost predicate Valid()
      reads this
    {
      && iram.Length == NIREGS && rxBuf.Length == P.BUFSIZE && iram != rxBuf
      && rxIndex <= rxCount <= P.BUFSIZE
    }

    ghost function View(): P.Spi
      requires Valid()
      reads this, iram, rxBuf
    {
      P.Spi(iram[SPCR], iram[SPSR], iram[SPDR], statusRead, interrupt, rxIndex, rxBuf[rxIndex..rxCount])
    }

    constructor ()
      ensures Valid() && fresh(iram) && fresh(rxBuf) && View() == P.Reset(0, 0)
    {
      iram := new Byte[NIREGS](_ => 0);
      rxBuf := new Byte[P.BUFSIZE](_ => 0);
      statusRead, interrupt, rxIndex, rxCount := false, false, 0, 0;
    }

    method Receive(bytes: seq<Byte>) returns (i: nat)
      requires Valid()
      modifies this`rxCount, rxBuf
      ensures Valid() && View() == P.In(old(View()), bytes) && i == P.Accepted(old(View()), bytes)
    {
      ghost var before := View();
      i := 0;
      while i < |bytes| && rxCount < P.BUFSIZE
        invariant Valid() && i <= |bytes|
        invariant View() == before.(pending := before.pending + bytes[..i])
      {
        ghost var pending := rxBuf[rxIndex..rxCount];
        rxBuf[rxCount] := bytes[i];
        rxCount := rxCount + 1;
        assert rxBuf[rxIndex..rxCount] == pending + [bytes[i]];
        assert bytes[..i + 1] == bytes[..i] + [bytes[i]];
        i := i + 1;
      }
    }

    method SpsrGetB() returns (v: Byte)
      requires Valid()
      modifies this`statusRead
      ensures Valid() && v == iram[SPSR] && View() == P.Perform(old(View()), P.ReadStatus)
    {
      statusRead := true;
      v := iram[SPSR];
    }

    method Acknowledge()
      requires Valid()
      modifies this`interrupt, iram
      ensures Valid() && View() == P.Acknowledge(old(View()))
    {
      if statusRead {
        iram[SPSR] := 0;
        interrupt := false;
      }
    }

    method SpdrGetB() returns (v: Byte)
      requires Valid()
      modifies this`interrupt, iram
      ensures Valid() && v == old(iram[SPDR]) && View() == P.Perform(old(View()), P.ReadData)
    {
      Acknowledge();
      v := iram[SPDR];
    }

    method SpdrPutB(v: Byte)
      requires Valid()
      modifies this, iram
      ensures Valid() && View() == P.Perform(old(View()), P.WriteData(v))
    {
      Acknowledge();
      if !Has(iram[SPSR], P.SPIF) {
        Transfer(v);
      }
      statusRead := false;
    }

    /** Clock a byte out and, if one is waiting, a byte in. */
    method Transfer(v: Byte)
      requires Valid()
      modifies this, iram
      ensures Valid() && View() == P.Transfer(old(View()), v)
    {
      ghost var before := rxBuf[rxIndex..rxCount];
      iram[SPDR] := v;
      iram[SPSR] := P.SPIF;
      if Has(iram[SPCR], P.SPIE) {
        interrupt := true;
      }
      if rxIndex != rxCount {
        iram[SPDR] := rxBuf[rxIndex];
        rxIndex := rxIndex + 1;
        assert rxBuf[rxIndex..rxCount] == before[1..];
      }
      if rxIndex == rxCount {
        rxIndex, rxCount := 0, 0;
      }
    }
  }
}
