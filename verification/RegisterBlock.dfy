// On-chip registers of the 6303: src/arch/h6303/ireg.c, timer.c and sci.c.

/** The register block as a value, and what each access and each timer step does to it. */
module Device {
  import opened Words

  const NIREGS := 0x21
  const BUFSIZE := 1024

  // Register offsets (inc/arch/h6303/chip.h)
  const TCSR1 := 0x08
  const FRC := 0x09
  const OCR1 := 0x0B
  const TCSR2 := 0x0F
  const TRCSR := 0x11
  const RDR := 0x12
  const TDR := 0x13
  const OCR2 := 0x19
  const TCSR3 := 0x1B
  const TCONR := 0x1C
  const T2CNT := 0x1D

  // Register bits
  const ETOI := 0x04
  const EOCI1 := 0x08
  const EICI := 0x10
  const TOF := 0x20
  const OCF1 := 0x40
  const ICF := 0x80
  const EOCI2 := 0x08
  const OCF2 := 0x20
  const TE2 := 0x10
  const CMF := 0x80
  const TIE := 0x04
  const RIE := 0x10
  const TDRE := 0x20
  const RDRF := 0x80

  type Iram = s: seq<Byte> | |s| == NIREGS witness seq(NIREGS, _ => 0)

  /** `tcsrRead` and `tcsr2Read` are the read-then-write handshake flags of timer.c. `pending`
      is the part of recvbuf not read yet, which starts at `rxindex`; `output` is every byte
      handed to io_putb. */
  datatype Dev = Dev(iram: Iram, tcsrRead: bool, tcsr2Read: bool,
                     rxindex: nat, pending: seq<Byte>, txint: bool, running: bool, output: seq<Byte>)
  {
    function Reg(offs: nat): Byte
      requires offs < NIREGS
    {
      iram[offs]
    }

    function RegW(offs: nat): Word
      requires offs + 1 < NIREGS
    {
      Join(iram[offs], iram[offs + 1])
    }

    function With(offs: nat, v: Byte): Dev
      requires offs < NIREGS
    {
      this.(iram := iram[offs := v])
    }

    function Raise(offs: nat, m: int): Dev
      requires offs < NIREGS && m in {1, 2, 4, 8, 0x10, 0x20, 0x40, 0x80}
    {
      With(offs, Set(iram[offs], m))
    }
  }

  datatype Got = Got(d: Dev, v: Byte)

  function GetTcsr1(d: Dev): Got
  {
    Got(d.(tcsrRead := d.tcsrRead || Has(d.Reg(TCSR1), OCF1)), d.Reg(TCSR1))
  }

  /** ICF and OCF1 are mirrored from TCSR1. */
  function Tcsr2Value(d: Dev): Byte
  {
    Copy(Copy(d.Reg(TCSR2), d.Reg(TCSR1), OCF1), d.Reg(TCSR1), ICF)
  }

  function GetTcsr2(d: Dev): Got
  {
    Got(d.(tcsrRead := d.tcsrRead || Has(Tcsr2Value(d), OCF1),
           tcsr2Read := d.tcsr2Read || Has(Tcsr2Value(d), OCF2)), Tcsr2Value(d))
  }

  function TrcsrValue(d: Dev): Byte
  {
    var t := Set(d.Reg(TRCSR), TDRE);
    if |d.pending| > 0 then Set(t, RDRF) else Clear(t, RDRF)
  }

  function GetRdr(d: Dev): Got
  {
    if !d.running then Got(d, d.Reg(RDR))
    else
      var e := if |d.pending| > 0
               then d.With(RDR, d.pending[0]).(pending := d.pending[1..], rxindex := d.rxindex + 1)
               else d;
      var e := if |e.pending| == 0 then e.(rxindex := 0) else e;
      Got(e, e.Reg(RDR))
  }

  /** A byte read from the register block, through ireg_getb_func. */
  function Get(d: Dev, offs: nat): Got
    requires offs < NIREGS
  {
    if offs == TCSR1 then GetTcsr1(d)
    else if offs == TCSR2 then GetTcsr2(d)
    else if offs == TRCSR then Got(d, TrcsrValue(d))
    else if offs == RDR then GetRdr(d)
    else Got(d, d.Reg(offs))
  }

  /** Keep bits ICF, OCF1 and TOF of TCSR1 and take the rest from `v`. Writing TCSR2 does the same:
      the source names OCF2 there, which is the bit of TOF, and stores into TCSR1. */
  function PutTcsr(d: Dev, v: Byte): Dev
  {
    var t := d.Reg(TCSR1);
    d.With(TCSR1, Copy(Copy(Copy(v, t, ICF), t, OCF1), t, TOF))
  }

  function PutOcr1(d: Dev, offs: nat, v: Byte): Dev
    requires offs == OCR1 || offs == OCR1 + 1
  {
    var e := d.With(offs, v);
    if e.tcsrRead then e.With(TCSR1, Clear(e.Reg(TCSR1), OCF1)).(tcsrRead := false) else e
  }

  function PutTrcsr(d: Dev, v: Byte): Dev
  {
    var e := d.With(TRCSR, v);
    e.(txint := Has(TrcsrValue(e), TIE))
  }

  function PutTdr(d: Dev, v: Byte): Dev
  {
    var e := d.With(TDR, v).(output := d.output + [v]);
    e.(txint := e.txint || Has(TrcsrValue(e), TIE))
  }

  predicate IsPort(offs: nat) { offs == 2 || offs == 3 || offs == 6 || offs == 7 }

  /** A byte written to the register block, through ireg_putb_func. */
  function Put(d: Dev, offs: nat, v: Byte): Dev
    requires offs < NIREGS
  {
    if IsPort(offs) then d.With(offs, ByteOp(XOR, v, d.Reg(offs - 2)))
    else if offs == TCSR1 then PutTcsr(d, v)
    else if offs == OCR1 || offs == OCR1 + 1 then PutOcr1(d, offs, v)
    else if offs == TCSR2 then PutTcsr(d, v)
    else if offs == TRCSR then PutTrcsr(d, v)
    else if offs == TDR then PutTdr(d, v)
    else d.With(offs, v)
  }

  /** t2cnt_get_prescale_bits, which tests the low bits of TCONR. */
  function Prescale(tconr: Byte): nat
  {
    if tconr % 4 == 1 then 3 else if tconr % 4 == 2 then 7 else 0
  }

  function Divisor(tconr: Byte): (p: nat)
    ensures p == 1 || p == 8 || p == 128
  {
    if tconr % 4 == 1 then 8 else if tconr % 4 == 2 then 128 else 1
  }

  /** A compare event: the counter, not reduced modulo 65536, passes the compare value. */
  predicate Matches(frc: Word, n: nat, ocr: Word)
  {
    frc < ocr <= frc + n
  }

  function Compare1(d: Dev, n: nat): Dev
  {
    if Matches(d.RegW(FRC), n, d.RegW(OCR1)) then d.Raise(TCSR1, OCF1).(tcsrRead := false) else d
  }

  function Compare2(d: Dev, n: nat): Dev
  {
    if Matches(d.RegW(FRC), n, d.RegW(OCR2)) then d.Raise(TCSR2, OCF2).(tcsr2Read := false) else d
  }

  /** The source tests TE2 in the word at TCSR3, so the bit it reads is bit 4 of TCONR. */
  predicate T2Enabled(d: Dev) { Has(d.Reg(TCONR), TE2) }

  /** Ticks that timer 2 receives while FRC advances by `n`. */
  function T2Ticks(frc: Word, n: nat, tconr: Byte): nat
  {
    (frc + n) / Divisor(tconr) - frc / Divisor(tconr)
  }

  predicate T2Matches(cnt: nat, ticks: nat, tconr: Byte)
  {
    cnt < tconr <= cnt + ticks
  }

  function CountTimer2(d: Dev, ticks: nat): Dev
  {
    var tconr := d.Reg(TCONR);
    var cnt := d.Reg(T2CNT);
    if T2Matches(cnt, ticks, tconr)
    then d.Raise(TCSR3, CMF).(tcsr2Read := false).With(T2CNT, (cnt + ticks - tconr) % 0x100)
    else d.With(T2CNT, (cnt + ticks) % 0x100)
  }

  function Timer2(d: Dev, n: nat): Dev
  {
    if T2Enabled(d) then CountTimer2(d, T2Ticks(d.RegW(FRC), n, d.Reg(TCONR))) else d
  }

  function NextFrc(d: Dev, n: nat): Word
  {
    (d.RegW(FRC) + n) % 0x1_0000
  }

  /** timer_inc: `n` clock cycles pass. */
  function Tick(d: Dev, n: nat): Dev
  {
    var e := Timer2(Compare2(Compare1(d, n), n), n);
    var frc := NextFrc(d, n);
    e.With(FRC, Hi(frc)).With(FRC + 1, Lo(frc))
  }

  /** sci_in: accept as many bytes as the buffer has room for. */
  function Room(d: Dev): int { BUFSIZE - d.rxindex - |d.pending| }

  function Accepted(d: Dev, s: seq<Byte>): (n: nat)
    ensures n <= |s|
  {
    if |s| <= Room(d) then |s| else if Room(d) > 0 then Room(d) else 0
  }

  function SciIn(d: Dev, s: seq<Byte>): Dev
  {
    d.(pending := d.pending + s[..Accepted(d, s)])
  }

  predicate SerialInt(d: Dev)
  {
    (|d.pending| > 0 && Has(d.Reg(TRCSR), RIE)) || (d.txint && Has(d.Reg(TRCSR), TIE))
  }

  datatype Request = None | Vector(addr: Word)

  /** The interrupt that instr_exec would take, in its priority order. */
  function Pending(d: Dev): Request
  {
    var t := d.Reg(TCSR1);
    var t2 := d.Reg(TCSR2);
    if Has(t, ICF) && Has(t, EICI) then Vector(0xFFF6)
    else if (Has(t, OCF1) && Has(t, EOCI1)) || (Has(t2, OCF2) && Has(t2, EOCI2)) then Vector(0xFFF4)
    else if Has(t, TOF) && Has(t, ETOI) then Vector(0xFFF2)
    else if SerialInt(d) then Vector(0xFFF0)
    else None
  }

  // ---- interrupt priority ----

  datatype Source = Capture | Compare | Overflow | Serial

  function VectorOf(src: Source): Word
  {
    match src case Capture => 0xFFF6 case Compare => 0xFFF4 case Overflow => 0xFFF2 case Serial => 0xFFF0
  }

  /** A flag of the source is raised and enabled. */
  predicate Requested(d: Dev, src: Source)
  {
    match src
    case Capture => Has(d.Reg(TCSR1), ICF) && Has(d.Reg(TCSR1), EICI)
    case Compare => (Has(d.Reg(TCSR1), OCF1) && Has(d.Reg(TCSR1), EOCI1))
                    || (Has(d.Reg(TCSR2), OCF2) && Has(d.Reg(TCSR2), EOCI2))
    case Overflow => Has(d.Reg(TCSR1), TOF) && Has(d.Reg(TCSR1), ETOI)
    case Serial => SerialInt(d)
  }

  /** Vectors of higher priority lie at higher addresses. */
  predicate Highest(d: Dev, src: Source)
  {
    Requested(d, src) && forall other: Source | Requested(d, other) :: VectorOf(other) <= VectorOf(src)
  }

  /** `q` is the request to take: none if nothing is requested, else the highest. */
  predicate Chosen(d: Dev, q: Request)
  {
    match q
    case None => forall src: Source :: !Requested(d, src)
    case Vector(addr) => exists src: Source :: Highest(d, src) && addr == VectorOf(src)
  }

  /** The choice is right, and it is the only right one. */
  lemma PendingIsHighest(d: Dev, q: Request)
    ensures Chosen(d, q) <==> q == Pending(d)
  {
    var t, t2 := d.Reg(TCSR1), d.Reg(TCSR2);
    assert Requested(d, Capture) <==> Has(t, ICF) && Has(t, EICI);
    assert Requested(d, Serial) <==> SerialInt(d);
    hide Has, SerialInt;
    match Pending(d)
    case None =>
      assert forall src: Source :: !Requested(d, src);
    case Vector(addr) =>
      var src := if addr == 0xFFF6 then Capture else if addr == 0xFFF4 then Compare
                 else if addr == 0xFFF2 then Overflow else Serial;
      assert Highest(d, src) && addr == VectorOf(src);
  }

  // ---- histories ----

  /** Everything that can happen to the register block; `Switch` starts or stops the processor. */
  datatype Action = Read(offs: nat) | Write(offs: nat, v: Byte) | Pass(n: nat) | Receive(s: seq<Byte>)
                  | Switch(on: bool)
  {
    predicate Possible() { (Read? || Write?) ==> offs < NIREGS }
  }

  function Perform(d: Dev, a: Action): Dev
    requires a.Possible()
  {
    match a
    case Read(offs) => Get(d, offs).d
    case Write(offs, v) => Put(d, offs, v)
    case Pass(n) => Tick(d, n)
    case Receive(s) => SciIn(d, s)
    case Switch(on) => d.(running := on)
  }

  predicate AllPossible(acts: seq<Action>)
  {
    forall i | 0 <= i < |acts| :: acts[i].Possible()
  }

  function PerformAll(d: Dev, acts: seq<Action>): Dev
    requires AllPossible(acts)
  {
    if |acts| == 0 then d else Perform(PerformAll(d, acts[..|acts| - 1]), acts[|acts| - 1])
  }
}

/** The same block as the simulator keeps it: `iram`, the flags, and recvbuf with its indices. */
module RegisterBlock {
  import opened Words
  import opened Device

  class RegisterBlock {
    const iram: array<Byte>
    const recvbuf: array<Byte>
    var tcsrRead: bool
    var tcsr2Read: bool
    var rxindex: nat
    var rxinterrupts: nat
    var txinterrupts: bool
    var running: bool
    ghost var output: seq<Byte>

    ghost predicate Valid()
      reads this
    {
      && iram.Length == NIREGS && recvbuf.Length == BUFSIZE && iram != recvbuf
      && rxindex + rxinterrupts <= BUFSIZE
    }

    ghost function View(): Dev
      requires Valid()
      reads this, iram, recvbuf
    {
      Dev(iram[..], tcsrRead, tcsr2Read, rxindex, recvbuf[rxindex..rxindex + rxinterrupts],
          txinterrupts, running, output)
    }

    constructor ()
      ensures Valid() && fresh(iram) && fresh(recvbuf)
      ensures View() == Dev(seq(NIREGS, _ => 0), false, false, 0, [], false, false, [])
    {
      iram := new Byte[NIREGS](_ => 0);
      recvbuf := new Byte[BUFSIZE](_ => 0);
      tcsrRead, tcsr2Read, txinterrupts, running := false, false, false, false;
      rxindex, rxinterrupts, output := 0, 0, [];
      new;
      assert iram[..] == seq(NIREGS, _ => 0);
    }

    method GetByte(offs: nat) returns (v: Byte)
      requires Valid() && offs < NIREGS
      modifies this, iram
      ensures Valid() && Got(View(), v) == Get(old(View()), offs)
    {
      if offs == TCSR1 {
        v := iram[TCSR1];
        if Has(v, OCF1) {
          tcsrRead := true;
        }
      } else if offs == TCSR2 {
        v := iram[TCSR2];
        v := Copy(v, iram[TCSR1], OCF1);
        v := Copy(v, iram[TCSR1], ICF);
        if Has(v, OCF2) {
          tcsr2Read := true;
        }
        if Has(v, OCF1) {
          tcsrRead := true;
        }
      } else if offs == TRCSR {
        v := ReadTrcsr();
      } else if offs == RDR {
        v := ReadRdr();
      } else {
        v := iram[offs];
      }
    }

    method ReadTrcsr() returns (v: Byte)
      requires Valid()
      ensures v == TrcsrValue(View())
    {
      v := Set(iram[TRCSR], TDRE);
      if rxinterrupts != 0 {
        v := Set(v, RDRF);
      } else {
        v := Clear(v, RDRF);
      }
    }

    /** rdr_getb: while the CPU runs, reading eats a byte of recvbuf. */
    method ReadRdr() returns (v: Byte)
      requires Valid()
      modifies this, iram
      ensures Valid() && Got(View(), v) == GetRdr(old(View()))
    {
      ghost var before := recvbuf[rxindex..rxindex + rxinterrupts];
      if running {
        if rxinterrupts != 0 {
          iram[RDR] := recvbuf[rxindex];
          rxindex := rxindex + 1;
          rxinterrupts := rxinterrupts - 1;
          assert recvbuf[rxindex..rxindex + rxinterrupts] == before[1..];
        }
        if rxinterrupts == 0 {
          rxindex := 0;
        }
      }
      v := iram[RDR];
    }

    method PutByte(offs: nat, v: Byte)
      requires Valid() && offs < NIREGS
      modifies this, iram
      ensures Valid() && View() == Put(old(View()), offs, v)
    {
      hide ByteOp, Copy, Set, Clear, Has, TrcsrValue;
      if IsPort(offs) {
        iram[offs] := ByteOp(XOR, v, iram[offs - 2]);
      } else if offs == TCSR1 {
        WriteTcsr(v);
      } else if offs == OCR1 || offs == OCR1 + 1 {
        WriteOcr1(offs, v);
      } else if offs == TCSR2 {
        WriteTcsr(v);
      } else if offs == TRCSR {
        iram[TRCSR] := v;
        var trcsr := ReadTrcsr();
        txinterrupts := Has(trcsr, TIE);
      } else if offs == TDR {
        iram[TDR] := v;
        output := output + [v];
        var trcsr := ReadTrcsr();
        if Has(trcsr, TIE) {
          txinterrupts := true;
        }
      } else {
        iram[offs] := v;
      }
    }

    /** ocr1_putb. */
    method WriteOcr1(offs: nat, v: Byte)
      requires Valid() && (offs == OCR1 || offs == OCR1 + 1)
      modifies this, iram
      ensures Valid() && View() == PutOcr1(old(View()), offs, v)
    {
      iram[offs] := v;
      if tcsrRead {
        iram[TCSR1] := Clear(iram[TCSR1], OCF1);
        tcsrRead := false;
      }
    }

    method WriteTcsr(v: Byte)
      requires Valid()
      modifies iram
      ensures Valid() && View() == PutTcsr(old(View()), v)
    {
      var t := iram[TCSR1];
      iram[TCSR1] := Copy(Copy(Copy(v, t, ICF), t, OCF1), t, TOF);
    }

    method ReceiveBytes(s: seq<Byte>) returns (i: nat)
      requires Valid()
      modifies this, recvbuf
      ensures Valid() && View() == SciIn(old(View()), s)
      ensures i == Accepted(old(View()), s)
    {
      ghost var before := View();
      i := 0;
      while i < |s| && rxindex + rxinterrupts < BUFSIZE
        invariant Valid() && i <= |s|
        invariant View() == before.(pending := before.pending + s[..i])
      {
        ReceiveByte(s[i]);
        assert s[..i + 1] == s[..i] + [s[i]];
        i := i + 1;
      }
    }

    method ReceiveByte(b: Byte)
      requires Valid() && rxindex + rxinterrupts < BUFSIZE
      modifies this`rxinterrupts, recvbuf
      ensures Valid() && View() == old(View()).(pending := old(View()).pending + [b])
    {
      ghost var pending := recvbuf[rxindex..rxindex + rxinterrupts];
      recvbuf[rxindex + rxinterrupts] := b;
      rxinterrupts := rxinterrupts + 1;
      assert recvbuf[rxindex..rxindex + rxinterrupts] == pending + [b];
    }

    method Advance(ncycles: nat)
      requires Valid()
      modifies this, iram
      ensures Valid() && View() == Tick(old(View()), ncycles)
    {
      var frcNew := (Join(iram[FRC], iram[FRC + 1]) + ncycles) % 0x1_0000;
      assert frcNew == NextFrc(View(), ncycles);
      hide Compare1, Compare2, Timer2, Hi, Lo, Join, NextFrc;
      AdvanceOcr1(ncycles);
      AdvanceOcr2(ncycles);
      AdvanceT2(ncycles);
      PutWord(FRC, frcNew);
    }

    /** ireg_putw. */
    method PutWord(offs: nat, w: Word)
      requires Valid() && offs + 1 < NIREGS
      modifies iram
      ensures Valid() && View() == old(View()).With(offs, Hi(w)).With(offs + 1, Lo(w))
    {
      iram[offs] := Hi(w);
      iram[offs + 1] := Lo(w);
    }

    method AdvanceOcr1(ncycles: nat)
      requires Valid()
      modifies this, iram
      ensures Valid() && View() == Compare1(old(View()), ncycles)
    {
      var frcOld := Join(iram[FRC], iram[FRC + 1]);
      var ocr1 := Join(iram[OCR1], iram[OCR1 + 1]);
      if frcOld + ncycles >= ocr1 && frcOld < ocr1 {
        iram[TCSR1] := Set(iram[TCSR1], OCF1);
        tcsrRead := false;
      }
    }

    method AdvanceOcr2(ncycles: nat)
      requires Valid()
      modifies this, iram
      ensures Valid() && View() == Compare2(old(View()), ncycles)
    {
      var frcOld := Join(iram[FRC], iram[FRC + 1]);
      var ocr2 := Join(iram[OCR2], iram[OCR2 + 1]);
      if frcOld + ncycles >= ocr2 && frcOld < ocr2 {
        iram[TCSR2] := Set(iram[TCSR2], OCF2);
        tcsr2Read := false;
      }
    }

    method AdvanceT2(ncycles: nat)
      requires Valid()
      modifies this, iram
      ensures Valid() && View() == Timer2(old(View()), ncycles)
    {
      var frcOld := Join(iram[FRC], iram[FRC + 1]);
      var frcNew := frcOld + ncycles;
      LowByteBit(iram[TCSR3], iram[TCSR3 + 1]);
      if Has(Join(iram[TCSR3], iram[TCSR3 + 1]), TE2) {
        var p := ReadDivisor();
        var ticks := frcNew / p - frcOld / p;
        assert ticks == T2Ticks(frcOld, ncycles, iram[TCONR]);
        hide T2Ticks, Has, Divisor;
        CountT2(ticks);
      }
    }

    lemma LowByteBit(hi: Byte, lo: Byte)
      ensures Has(Join(hi, lo), TE2) == Has(lo, TE2)
    {
      assert (hi * 0x100 + lo) / 0x10 == 0x10 * hi + lo / 0x10;
    }

    method CountT2(ticks: nat)
      requires Valid()
      modifies this, iram
      ensures Valid() && View() == CountTimer2(old(View()), ticks)
    {
      var cntOld := iram[T2CNT];
      var cntNew := cntOld + ticks;
      var tconr := iram[TCONR];
      if cntNew >= tconr && cntOld < tconr {
        cntNew := cntNew - tconr;
        iram[TCSR3] := Set(iram[TCSR3], CMF);
        tcsr2Read := false;
      }
      iram[T2CNT] := cntNew % 0x100;
    }

    /** t2cnt_get_prescale_bits as the power of two it shifts by. */
    method ReadDivisor() returns (p: nat)
      requires Valid()
      ensures p == Divisor(View().Reg(TCONR)) == Pow2(Prescale(View().Reg(TCONR)))
    {
      assert Pow2(3) == 8 && Pow2(7) == 128;
      match iram[TCONR] % 4
      case 1 => p := 8;
      case 2 => p := 128;
      case _ => p := 1;
    }

    method SerialRequest() returns (b: bool)
      requires Valid()
      ensures b == SerialInt(View())
    {
      b := (rxinterrupts > 0 && Has(iram[TRCSR], RIE)) || (txinterrupts && Has(iram[TRCSR], TIE));
    }

    /** The flags that instr_exec looks at, in its order. */
    method PendingRequest() returns (q: Request)
      requires Valid()
      ensures q == Pending(View()) && Chosen(View(), q)
    {
      PendingIsHighest(View(), Pending(View()));
      hide Has, SerialInt, Chosen;
      var t := iram[TCSR1];
      var t2 := iram[TCSR2];
      var serial := SerialRequest();
      if Has(t, ICF) && Has(t, EICI) {
        q := Vector(0xFFF6);
      } else if (Has(t, OCF1) && Has(t, EOCI1)) || (Has(t2, OCF2) && Has(t2, EOCI2)) {
        q := Vector(0xFFF4);
      } else if Has(t, TOF) && Has(t, ETOI) {
        q := Vector(0xFFF2);
      } else if serial {
        q := Vector(0xFFF0);
      } else {
        q := None;
      }
    }
  }
}
