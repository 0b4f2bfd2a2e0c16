// Shift-register output of the NC-CPU board: src/boards/nccpu.c.

/** The bytes that the CPU clocks out fill a ring; a strobe copies the ring to the boards. */
module ShiftRing {
  import opened Words

  const BOARDS := 8

  type Buffer = s: seq<Byte> | |s| == 16 witness [0, 0, 0, 0, 0, 0, 0, 0, 0, 0, 0, 0, 0, 0, 0, 0]

  datatype Ring = Ring(buf: Buffer, index: nat)

  const Zeros: Buffer := [0, 0, 0, 0, 0, 0, 0, 0, 0, 0, 0, 0, 0, 0, 0, 0]

  function Put(r: Ring, v: Byte): Ring
    requires r.index < 16
  {
    Ring(r.buf[r.index := v], if r.index + 1 >= 16 then 0 else r.index + 1)
  }

  function PutAll(s: seq<Byte>): (r: Ring)
    ensures r.index < 16
  {
    if |s| == 0 then Ring(Zeros, 0) else Put(PutAll(s[..|s| - 1]), s[|s| - 1])
  }

  /** Byte `k` from the ring position, oldest first. */
  function Oldest(r: Ring, k: nat): Byte
  {
    r.buf[(r.index + k) % 16]
  }

  /** The last sixteen bytes of a stream, taken as preceded by sixteen zero bytes. */
  function LastSixteen(s: seq<Byte>): (t: seq<Byte>)
    ensures |t| == 16
  {
    (Zeros + s)[|s|..]
  }

  lemma PutShifts(r: Ring, v: Byte, k: nat)
    requires r.index < 16 && k < 16
    ensures Oldest(Put(r, v), k) == if k == 15 then v else Oldest(r, k + 1)
  {
    if r.index + 1 + k < 16 {
      assert (r.index + 1 + k) % 16 == r.index + 1 + k;
    } else {
      assert (r.index + 1 + k) % 16 == r.index + 1 + k - 16;
    }
    if r.index == 15 {
      assert Put(r, v).index == 0 && (0 + k) % 16 == k;
    }
  }

  lemma LastShifts(s: seq<Byte>, k: nat)
    requires |s| > 0 && k < 16
    ensures LastSixteen(s)[k] == if k == 15 then s[|s| - 1] else LastSixteen(s[..|s| - 1])[k + 1]
  {
  }

  /** Whatever the ring index, reading on from it gives the last sixteen bytes written. */
  lemma {:induction false} RingHoldsLast(s: seq<Byte>, k: nat)
    requires k < 16
    ensures Oldest(PutAll(s), k) == LastSixteen(s)[k]
    decreases |s|
  {
    if |s| > 0 {
      PutShifts(PutAll(s[..|s| - 1]), s[|s| - 1], k);
      LastShifts(s, k);
      if k < 15 {
        RingHoldsLast(s[..|s| - 1], k + 1);
      }
      hide Put, LastSixteen, Oldest;
    }
  }

  /** The boards' outputs after a strobe. */
  datatype Outputs = Outputs(triacs: seq<Byte>, relays: seq<Byte>)

  predicate Latched(r: Ring, o: Outputs)
  {
    && |o.triacs| == BOARDS && |o.relays| == BOARDS
    && forall i | 0 <= i < BOARDS ::
         o.triacs[i] == Oldest(r, 2 * (7 - i)) && o.relays[i] == Oldest(r, 2 * (7 - i) + 1)
  }

  /** For every stream written, a strobe gives board `i` the pair of bytes at offset 2 * (7 - i)
      of its last sixteen: the last board in the chain gets the pair clocked out first. */
  lemma BoardsGetLastSixteen(s: seq<Byte>, o: Outputs, i: nat)
    requires Latched(PutAll(s), o) && i < BOARDS
    ensures o.triacs[i] == LastSixteen(s)[2 * (7 - i)]
    ensures o.relays[i] == LastSixteen(s)[2 * (7 - i) + 1]
  {
    RingHoldsLast(s, 2 * (7 - i));
    RingHoldsLast(s, 2 * (7 - i) + 1);
    hide Oldest, LastSixteen, PutAll;
  }

  /** Outputs of the boards do not depend on anything written before the last sixteen bytes. */
  lemma OldBytesForgotten(s: seq<Byte>, t: seq<Byte>, o: Outputs, p: Outputs)
    requires |t| == 16 && Latched(PutAll(s + t), o) && Latched(PutAll(t), p)
    ensures o == p
  {
    assert LastSixteen(s + t) == t == LastSixteen(t);
    forall i: nat | i < BOARDS ensures o.triacs[i] == p.triacs[i] && o.relays[i] == p.relays[i] {
      BoardsGetLastSixteen(s + t, o, i);
      BoardsGetLastSixteen(t, p, i);
    }
    assert o.triacs == p.triacs && o.relays == p.relays;
  }
}

module NcCpu {
  import opened Words
  import opened ShiftRing

  class Board {
    const putBuf: array<Byte>
    const triacs: array<Byte>
    const relays: array<Byte>
    var index: nat
    /** Every byte written so far. */
    ghost var written: seq<Byte>

    ghost predicate Valid()
      reads this, putBuf
    {
      && putBuf.Length == 16 && triacs.Length == BOARDS && relays.Length == BOARDS
      && putBuf != triacs && putBuf != relays && triacs != relays
      && Ring(putBuf[..], index) == PutAll(written)
    }

    constructor ()
      ensures Valid() && written == [] && fresh(putBuf) && fresh(triacs) && fresh(relays)
    {
      putBuf := new Byte[16](_ => 0);
      triacs := new Byte[BOARDS](_ => 0);
      relays := new Byte[BOARDS](_ => 0);
      index, written := 0, [];
      new;
      assert putBuf[..] == Zeros;
    }

    /** The ring write of nccpu_spi_putb. */
    method PutB(value: Byte)
      requires Valid()
      modifies this, putBuf
      ensures Valid() && written == old(written) + [value]
    {
      assert (written + [value])[..|written|] == written;
      putBuf[index] := value;
      index := index + 1;
      if index >= putBuf.Length {
        index := 0;
      }
      written := written + [value];
    }

    method RingByte(j: nat) returns (v: Byte)
      requires Valid() && index <= j
      ensures v == Oldest(PutAll(written), j - index)
    {
      v := putBuf[j % 16];
    }

    /** latch_output. */
    method LatchOutput()
      requires Valid()
      modifies triacs, relays
      ensures Valid()
      ensures forall i: nat | i < BOARDS ::
                triacs[i] == LastSixteen(written)[2 * (7 - i)] && relays[i] == LastSixteen(written)[2 * (7 - i) + 1]
    {
      hide Oldest, LastSixteen;
      ghost var r := PutAll(written);
      var i := relays.Length - 1;
      var j := index;
      while i >= 0
        invariant -1 <= i < BOARDS && j == index + 2 * (7 - i) && Valid()
        invariant forall k | i < k < BOARDS :: triacs[k] == Oldest(r, 2 * (7 - k)) && relays[k] == Oldest(r, 2 * (7 - k) + 1)
      {
        triacs[i] := RingByte(j);
        j := j + 1;
        relays[i] := RingByte(j);
        j := j + 1;
        i := i - 1;
      }
      forall k: nat | k < BOARDS
        ensures triacs[k] == LastSixteen(written)[2 * (7 - k)] && relays[k] == LastSixteen(written)[2 * (7 - k) + 1]
      {
        BoardsGetLastSixteen(written, Outputs(triacs[..], relays[..]), k);
      }
    }
  }
}
