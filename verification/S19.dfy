// S19 record loader: src/base/fileio.c.

/** What a line of an S19 file holds, and what loading it does. */
module S19Format {
  import opened Words

  type Ram = s: seq<Byte> | |s| == 0x1_0000 witness seq(0x1_0000, _ => 0)

  predicate IsHex(c: char)
  {
    '0' <= c <= '9' || 'A' <= c <= 'F' || 'a' <= c <= 'f'
  }

  function Digit(c: char): (d: nat)
    requires IsHex(c)
    ensures d < 0x10
  {
    if c <= '9' then c as int - '0' as int
    else if c <= 'F' then c as int - 'A' as int + 10
    else c as int - 'a' as int + 10
  }

  /** A C string: past its end there is a zero character. */
  function CharAt(line: string, i: nat): char
  {
    if i < |line| then line[i] else '\0'
  }

  predicate HexAt(line: string, pos: nat)
  {
    pos + 1 < |line| && IsHex(line[pos]) && IsHex(line[pos + 1])
  }

  /** A two-digit hexadecimal field. */
  function ByteAt(line: string, pos: nat): Byte
    requires HexAt(line, pos)
  {
    0x10 * Digit(line[pos]) + Digit(line[pos + 1])
  }

  predicate IsData(line: string) { CharAt(line, 0) == 'S' && CharAt(line, 1) == '1' }

  /** A line that load_line_s19 passes over: not a record, or a header or end record. */
  predicate Ignored(line: string)
  {
    CharAt(line, 0) != 'S' || CharAt(line, 1) == '9' || CharAt(line, 1) == '0'
  }

  /** Bytes of data announced by count byte `n`; a count below 3 announces none. */
  function DataCount(n: Byte): nat { if n < 3 then 0 else n - 3 }

  /** `k` fields follow "S1": count, two of address, the data, and the checksum. */
  predicate FieldsAt(line: string, k: nat)
  {
    forall j: nat | j < k :: HexAt(line, 2 + 2 * j)
  }

  /** The fields that the loader reads are hexadecimal. */
  predicate Readable(line: string)
  {
    IsData(line) ==> HexAt(line, 2) && FieldsAt(line, DataCount(ByteAt(line, 2)) + 4)
  }

  function DataLength(line: string): nat
    requires IsData(line) && Readable(line)
  {
    DataCount(ByteAt(line, 2))
  }

  function Addr(line: string): Word
    requires IsData(line) && Readable(line)
  {
    assert HexAt(line, 2 + 2 * 1) && HexAt(line, 2 + 2 * 2);
    Join(ByteAt(line, 4), ByteAt(line, 6))
  }

  /** Its data stay inside memory. */
  predicate Fits(line: string)
    requires Readable(line)
  {
    IsData(line) ==> Addr(line) + DataLength(line) <= 0x1_0000
  }

  predicate Loadable(line: string) { Readable(line) && Fits(line) }

  function DataAt(line: string, k: nat): Byte
    requires IsData(line) && Readable(line) && k < DataLength(line)
  {
    assert HexAt(line, 2 + 2 * (k + 3));
    ByteAt(line, 8 + 2 * k)
  }

  /** Sum of the first `k` fields. */
  function FieldSum(line: string, k: nat): nat
    requires FieldsAt(line, k)
  {
    if k == 0 then 0 else FieldSum(line, k - 1) + ByteAt(line, 2 + 2 * (k - 1))
  }

  /** All bytes of the record, the checksum included, sum to 0xFF modulo 256. */
  predicate Sums(line: string)
    requires IsData(line) && Readable(line)
  {
    FieldSum(line, DataLength(line) + 4) % 0x100 == 0xFF
  }

  predicate Accepted(line: string)
    requires Readable(line)
  {
    if IsData(line) then Sums(line) else Ignored(line)
  }

  predicate Covers(line: string, a: int)
    requires Loadable(line)
  {
    IsData(line) && Addr(line) <= a < Addr(line) + DataLength(line)
  }

  function Stored(line: string, a: int): Byte
    requires Loadable(line) && Covers(line, a)
  {
    DataAt(line, a - Addr(line))
  }

  /** `after` is `before` with the record's data in place. A record with a wrong checksum is
      stored too: the loader checks only afterwards. */
  ghost predicate Loads(line: string, before: Ram, after: Ram)
    requires Loadable(line)
  {
    forall a | 0 <= a < 0x1_0000 :: after[a] == if Covers(line, a) then Stored(line, a) else before[a]
  }

  // ---- the record format ----

  function HexChar(d: nat): (c: char)
    requires d < 0x10
    ensures IsHex(c) && Digit(c) == d
  {
    if d < 10 then '0' + d as char else 'A' + (d - 10) as char
  }

  function Hex(b: Byte): string
  {
    [HexChar(b / 0x10), HexChar(b % 0x10)]
  }

  function HexAll(bytes: seq<Byte>): string
  {
    if |bytes| == 0 then "" else HexAll(bytes[..|bytes| - 1]) + Hex(bytes[|bytes| - 1])
  }

  function Sum(bytes: seq<Byte>): nat
  {
    if |bytes| == 0 then 0 else Sum(bytes[..|bytes| - 1]) + bytes[|bytes| - 1]
  }

  /** Count, address, data and the complement of their sum. */
  function RecordBytes(addr: Word, data: seq<Byte>): seq<Byte>
    requires |data| <= 0xFC
  {
    var body := [|data| + 3, Hi(addr), Lo(addr)] + data;
    body + [0xFF - Sum(body) % 0x100]
  }

  /** A record of the format: "S1" and its bytes in hexadecimal. */
  function Encode(addr: Word, data: seq<Byte>): string
    requires |data| <= 0xFC
  {
    "S1" + HexAll(RecordBytes(addr, data))
  }

  lemma {:induction false} HexAllAt(bytes: seq<Byte>, tail: string, j: nat)
    requires j < |bytes|
    ensures var line := "S1" + HexAll(bytes) + tail;
      HexAt(line, 2 + 2 * j) && ByteAt(line, 2 + 2 * j) == bytes[j] && |HexAll(bytes)| == 2 * |bytes|
    decreases |bytes|
  {
    HexLength(bytes);
    var m := |bytes| - 1;
    HexLength(bytes[..m]);
    if j < m {
      HexAllAt(bytes[..m], Hex(bytes[m]) + tail, j);
      assert "S1" + HexAll(bytes) + tail == "S1" + HexAll(bytes[..m]) + (Hex(bytes[m]) + tail);
    } else {
      var line := "S1" + HexAll(bytes) + tail;
      assert line[2 + 2 * j..2 + 2 * j + 2] == Hex(bytes[m]);
      assert line[2 + 2 * j] == HexChar(bytes[m] / 0x10) && line[2 + 2 * j + 1] == HexChar(bytes[m] % 0x10);
    }
  }

  lemma {:induction false} HexLength(bytes: seq<Byte>)
    ensures |HexAll(bytes)| == 2 * |bytes|
  {
    if |bytes| > 0 {
      HexLength(bytes[..|bytes| - 1]);
    }
  }

  /** Sum of the first fields of a line whose fields are `bytes`. */
  lemma {:induction false} FieldSumIs(line: string, bytes: seq<Byte>, k: nat)
    requires k <= |bytes| && FieldsAt(line, |bytes|)
    requires forall j: nat | j < |bytes| :: ByteAt(line, 2 + 2 * j) == bytes[j]
    ensures FieldSum(line, k) == Sum(bytes[..k])
  {
    if k > 0 {
      FieldSumIs(line, bytes, k - 1);
      assert bytes[..k][..k - 1] == bytes[..k - 1];
    }
  }

  lemma FieldsOfRecord(addr: Word, data: seq<Byte>, tail: string)
    requires |data| <= 0xFC
    ensures var line := Encode(addr, data) + tail;
      var bytes := RecordBytes(addr, data);
      && |bytes| == |data| + 4 && FieldsAt(line, |bytes|)
      && (forall j: nat | j < |bytes| :: ByteAt(line, 2 + 2 * j) == bytes[j])
  {
    var line := Encode(addr, data) + tail;
    var bytes := RecordBytes(addr, data);
    forall j: nat | j < |bytes| ensures HexAt(line, 2 + 2 * j) && ByteAt(line, 2 + 2 * j) == bytes[j] {
      HexAllAt(bytes, tail, j);
    }
  }

  lemma RecordSum(addr: Word, data: seq<Byte>)
    requires |data| <= 0xFC
    ensures Sum(RecordBytes(addr, data)) % 0x100 == 0xFF
  {
    var body := [|data| + 3, Hi(addr), Lo(addr)] + data;
    var all := RecordBytes(addr, data);
    assert all[..|all| - 1] == body;
  }

  lemma RecordIsReadable(addr: Word, data: seq<Byte>, tail: string)
    requires |data| <= 0xFC
    ensures var line := Encode(addr, data) + tail;
      IsData(line) && Readable(line) && DataLength(line) == |data|
  {
    var line := Encode(addr, data) + tail;
    var bytes := RecordBytes(addr, data);
    FieldsOfRecord(addr, data, tail);
    StartsS1(HexAll(bytes), tail);
    assert ByteAt(line, 2 + 2 * 0) == bytes[0] == |data| + 3;
    hide Sum, ByteAt, HexAll, HexAt;
  }

  lemma StartsS1(fields: string, tail: string)
    ensures IsData("S1" + fields + tail)
  {
  }

  lemma RecordSums(addr: Word, data: seq<Byte>, tail: string)
    requires |data| <= 0xFC
    ensures var line := Encode(addr, data) + tail;
      FieldsAt(line, |data| + 4) && FieldSum(line, |data| + 4) == Sum(RecordBytes(addr, data))
  {
    var line := Encode(addr, data) + tail;
    var bytes := RecordBytes(addr, data);
    FieldsOfRecord(addr, data, tail);
    FieldSumIs(line, bytes, |bytes|);
    assert bytes[..|bytes|] == bytes;
    hide Sum, ByteAt, Encode, HexAll, FieldSum, RecordBytes;
  }

  lemma RecordCarries(addr: Word, data: seq<Byte>, tail: string, k: nat)
    requires |data| <= 0xFC
    requires var line := Encode(addr, data) + tail; IsData(line) && Readable(line) && DataLength(line) == |data|
    ensures var line := Encode(addr, data) + tail;
      Addr(line) == addr && (k < |data| ==> DataAt(line, k) == data[k])
  {
    var line := Encode(addr, data) + tail;
    hide Sum, ByteAt, Encode, Readable, HexAt, RecordBytes, IsData, DataLength;
    FieldsOfRecord(addr, data, tail);
    RecordBytesAt(addr, data, k);
    assert ByteAt(line, 2 + 2 * 1) == RecordBytes(addr, data)[1] && ByteAt(line, 2 + 2 * 2) == RecordBytes(addr, data)[2];
    if k < |data| {
      assert ByteAt(line, 2 + 2 * (k + 3)) == RecordBytes(addr, data)[k + 3];
    }
  }

  lemma RecordBytesAt(addr: Word, data: seq<Byte>, k: nat)
    requires |data| <= 0xFC
    ensures var bytes := RecordBytes(addr, data);
      && |bytes| == |data| + 4 && Join(bytes[1], bytes[2]) == addr
      && (k < |data| ==> bytes[k + 3] == data[k])
  {
    hide Sum;
    JoinHiLo(addr);
  }

  /** Loading inverts encoding: an encoded record, whatever follows it on the line, is readable,
      is accepted, and carries exactly its address and data. */
  lemma EncodeRoundTrip(addr: Word, data: seq<Byte>, tail: string)
    requires |data| <= 0xFC
    ensures var line := Encode(addr, data) + tail;
      && IsData(line) && Readable(line) && Accepted(line)
      && Addr(line) == addr && DataLength(line) == |data|
      && forall k: nat | k < |data| :: DataAt(line, k) == data[k]
  {
    var line := Encode(addr, data) + tail;
    RecordIsReadable(addr, data, tail);
    RecordSums(addr, data, tail);
    RecordSum(addr, data);
    hide Sum, ByteAt, Encode, FieldSum, RecordBytes, Readable, IsData;
    RecordCarries(addr, data, tail, 0);
    forall k: nat | k < |data| ensures DataAt(line, k) == data[k] {
      RecordCarries(addr, data, tail, k);
    }
  }

  /** So if the data fit, the line can be loaded, and loading it changes exactly the bytes from
      `addr` on, to `data`. */
  lemma LoadInvertsEncode(addr: Word, data: seq<Byte>, tail: string, before: Ram, after: Ram)
    requires |data| <= 0xFC && addr + |data| <= 0x1_0000
    ensures var line := Encode(addr, data) + tail;
      && Loadable(line)
      && (Loads(line, before, after) <==> after == before[..addr] + data + before[addr + |data|..])
  {
    EncodeRoundTrip(addr, data, tail);
    hide Encode, Readable, Accepted, Addr, DataAt, IsData, DataLength;
    var line := Encode(addr, data) + tail;
    var w := before[..addr] + data + before[addr + |data|..];
    forall a | 0 <= a < 0x1_0000 ensures w[a] == if Covers(line, a) then Stored(line, a) else before[a] {
    }
    if Loads(line, before, after) {
      assert forall a | 0 <= a < 0x1_0000 :: after[a] == w[a];
    }
  }

  /** Hexadecimal digits of both cases. */
  lemma Digits(d: nat)
    requires d < 0x10
    ensures var (l, u) := ("0123456789abcdef"[d], "0123456789ABCDEF"[d]);
      IsHex(l) && IsHex(u) && Digit(l) == d && Digit(u) == d
  {
  }

  /** No other characters are digits. */
  lemma OnlyDigits(c: char)
    ensures IsHex(c) <==> c in "0123456789abcdefABCDEF"
  {
    if IsHex(c) {
      Digits(Digit(c));
    }
  }

  /** A line that is not a data record stores nothing. It is accepted if it is no record at all, a
      header or an end record. */
  lemma OtherLines(line: string, before: Ram, after: Ram)
    requires !(|line| > 1 && line[0] == 'S' && line[1] == '1')
    ensures Loadable(line) && (Loads(line, before, after) <==> after == before)
    ensures Accepted(line) <==> |line| == 0 || line[0] != 'S' || (|line| > 1 && line[1] in {'0', '9'})
  {
    assert !IsData(line);
  }

  // ---- the checksum ----

  /** The record has the fields of another except that field `k` differs. */
  predicate Altered(line: string, other: string, k: nat)
    requires IsData(line) && Readable(line) && IsData(other) && Readable(other)
  {
    && DataLength(line) == DataLength(other) && k < DataLength(line) + 4
    && ByteAt(line, 2 + 2 * k) != ByteAt(other, 2 + 2 * k)
    && forall j: nat | j < DataLength(line) + 4 && j != k :: ByteAt(line, 2 + 2 * j) == ByteAt(other, 2 + 2 * j)
  }

  lemma {:induction false} SumChanges(line: string, other: string, k: nat, n: nat)
    requires FieldsAt(line, n) && FieldsAt(other, n)
    requires forall j: nat | j < n && j != k :: ByteAt(line, 2 + 2 * j) == ByteAt(other, 2 + 2 * j)
    ensures FieldSum(other, n) - FieldSum(line, n)
         == if k < n then ByteAt(other, 2 + 2 * k) - ByteAt(line, 2 + 2 * k) else 0
  {
    if n > 0 {
      SumChanges(line, other, k, n - 1);
    }
  }

  lemma DifferentResidue(x: int, y: int)
    requires x != y && -0x100 < x - y < 0x100
    ensures x % 0x100 != y % 0x100
  {
  }

  /** Altering any one address, data or checksum byte of an accepted record gets it rejected. */
  lemma AlterationRejected(line: string, other: string, k: nat)
    requires IsData(line) && Readable(line) && IsData(other) && Readable(other)
    requires Altered(line, other, k) && Accepted(line)
    ensures !Accepted(other)
  {
    var n := DataLength(line) + 4;
    SumChanges(line, other, k, n);
    DifferentResidue(FieldSum(line, n), FieldSum(other, n));
  }

  // ---- files ----

  predicate AllLoadable(lines: seq<string>)
  {
    forall i | 0 <= i < |lines| :: Loadable(lines[i])
  }

  /** Memory before, between and after the lines of a run without rejections. */
  ghost predicate LoadsAll(lines: seq<string>, rams: seq<Ram>)
    requires AllLoadable(lines)
  {
    |rams| == |lines| + 1 && forall i | 0 <= i < |lines| :: Loads(lines[i], rams[i], rams[i + 1])
  }

  /** No byte of memory is given by two of the lines. */
  predicate Disjoint(lines: seq<string>)
    requires AllLoadable(lines)
  {
    forall i, j, a | 0 <= i < j < |lines| && 0 <= a < 0x1_0000 :: !(Covers(lines[i], a) && Covers(lines[j], a))
  }

  lemma {:induction false} Untouched(lines: seq<string>, rams: seq<Ram>, n: nat, a: nat)
    requires AllLoadable(lines) && LoadsAll(lines, rams) && n <= |lines| && a < 0x1_0000
    requires forall i | n <= i < |lines| :: !Covers(lines[i], a)
    ensures rams[|lines|][a] == rams[n][a]
    decreases |lines| - n
  {
    if n < |lines| {
      Untouched(lines, rams, n + 1, a);
      assert Loads(lines[n], rams[n], rams[n + 1]);
      hide Covers, Loadable, Stored;
    }
  }

  lemma {:induction false} CoveredByte(lines: seq<string>, rams: seq<Ram>, n: nat, a: nat)
    requires AllLoadable(lines) && LoadsAll(lines, rams) && n < |lines| && a < 0x1_0000
    requires Covers(lines[n], a)
    requires forall i | 0 <= i < |lines| && Covers(lines[i], a) :: lines[i] == lines[n]
    ensures rams[|lines|][a] == Stored(lines[n], a)
    decreases |lines| - n
  {
    hide Covers, Loadable, Stored;
    if m :| n < m < |lines| && Covers(lines[m], a) {
      CoveredByte(lines, rams, m, a);
    } else {
      assert Loads(lines[n], rams[n], rams[n + 1]);
      Untouched(lines, rams, n + 1, a);
    }
  }

  /** A list of records that do not overlap leaves the same memory in every order. */
  lemma OrderIrrelevant(lines: seq<string>, rams: seq<Ram>, lines': seq<string>, rams': seq<Ram>)
    requires AllLoadable(lines) && LoadsAll(lines, rams) && Disjoint(lines)
    requires AllLoadable(lines') && LoadsAll(lines', rams')
    requires multiset(lines) == multiset(lines') && rams[0] == rams'[0]
    ensures rams[|lines|] == rams'[|lines'|]
  {
    hide Covers, Loadable, Stored, Loads, Disjoint;
    forall a: nat | a < 0x1_0000 ensures rams[|lines|][a] == rams'[|lines'|][a] {
      SameByte(lines, rams, lines', rams', a);
    }
  }

  lemma SameByte(lines: seq<string>, rams: seq<Ram>, lines': seq<string>, rams': seq<Ram>, a: nat)
    requires AllLoadable(lines) && LoadsAll(lines, rams) && Disjoint(lines)
    requires AllLoadable(lines') && LoadsAll(lines', rams')
    requires multiset(lines) == multiset(lines') && rams[0] == rams'[0] && a < 0x1_0000
    ensures rams[|lines|][a] == rams'[|lines'|][a]
  {
    hide Covers, Loadable, Stored, Loads;
    assert forall line :: line in lines' <==> line in lines by {
      assert forall line :: (line in lines <==> line in multiset(lines)) && (line in lines' <==> line in multiset(lines'));
    }
    if n :| 0 <= n < |lines| && Covers(lines[n], a) {
      assert lines[n] in lines';
      var m :| 0 <= m < |lines'| && lines'[m] == lines[n];
      forall i | 0 <= i < |lines'| && Covers(lines'[i], a) ensures lines'[i] == lines[n] {
        assert lines'[i] in lines;
      }
      CoveredByte(lines, rams, n, a);
      CoveredByte(lines', rams', m, a);
    } else {
      forall m | 0 <= m < |lines'| ensures !Covers(lines'[m], a) {
        assert lines'[m] in lines;
      }
      Untouched(lines, rams, 0, a);
      Untouched(lines', rams', 0, a);
    }
  }
}

/** Facts about fields that the loader's loop relies on. */
module S19Fields {
  import opened Words
  import opened S19Format

  /** The first `n` data bytes are in place. */
  ghost predicate Partly(line: string, before: Ram, now: Ram, n: nat)
    requires IsData(line) && Loadable(line) && n <= DataLength(line)
  {
    forall a | 0 <= a < 0x1_0000 ::
      now[a] == if Addr(line) <= a < Addr(line) + n then DataAt(line, a - Addr(line)) else before[a]
  }

  lemma AddressFields(line: string)
    requires IsData(line) && Readable(line)
    ensures HexAt(line, 4) && HexAt(line, 6)
    ensures Addr(line) / 0x100 == ByteAt(line, 4) && Addr(line) % 0x100 == ByteAt(line, 6)
  {
    assert HexAt(line, 2 + 2 * 1) && HexAt(line, 2 + 2 * 2);
    hide ByteAt;
  }

  lemma HeadSum(line: string)
    requires IsData(line) && Readable(line)
    ensures FieldsAt(line, 3) && HexAt(line, 4) && HexAt(line, 6)
    ensures FieldSum(line, 3) == ByteAt(line, 2) + ByteAt(line, 4) + ByteAt(line, 6)
  {
    assert HexAt(line, 2 + 2 * 1) && HexAt(line, 2 + 2 * 2);
    hide ByteAt;
    assert FieldSum(line, 1) == ByteAt(line, 2);
    assert FieldSum(line, 2) == ByteAt(line, 2) + ByteAt(line, 4);
  }

  lemma Complement(total: nat, csum: Byte)
    ensures csum == 0xFF - total % 0x100 <==> (total + csum) % 0x100 == 0xFF
  {
  }

  /** The field after `n` data bytes is the next one, or the checksum. */
  lemma SumStep(line: string, n: nat)
    requires IsData(line) && Readable(line) && n <= DataLength(line)
    ensures FieldsAt(line, n + 4) && HexAt(line, 8 + n * 2)
    ensures FieldSum(line, n + 4) == FieldSum(line, n + 3) + ByteAt(line, 8 + n * 2)
    ensures n < DataLength(line) ==> DataAt(line, n) == ByteAt(line, 8 + n * 2)
  {
    assert HexAt(line, 2 + 2 * (n + 3));
    hide ByteAt, HexAt;
  }
}

module S19 {
  import opened Words
  import opened S19Format
  import opened S19Fields

  class Loader {
    const ram: array<Byte>

    ghost predicate Valid() { ram.Length == 0x1_0000 }

    constructor ()
      ensures Valid() && fresh(ram) && forall a | 0 <= a < 0x1_0000 :: ram[a] == 0
    {
      ram := new Byte[0x1_0000](_ => 0);
    }

    /** load_line_s19: 0 on success, -1 for a bad checksum or an unknown record type. */
    method LoadLine(line: string) returns (code: int)
      requires Valid() && Loadable(line)
      modifies ram
      ensures code == if Accepted(line) then 0 else -1
      ensures Loads(line, old(ram[..]), ram[..])
    {
      code := 0;
      if CharAt(line, 0) == 'S' {
        if CharAt(line, 1) == '1' {
          code := LoadData(line);
        } else if CharAt(line, 1) != '9' && CharAt(line, 1) != '0' {
          code := -1;
        }
      }
    }

    method LoadData(line: string) returns (code: int)
      requires Valid() && Loadable(line) && IsData(line)
      modifies ram
      ensures code == if Sums(line) then 0 else -1
      ensures Loads(line, old(ram[..]), ram[..])
    {
      AddressFields(line);
      HeadSum(line);
      hide ByteAt, FieldSum, HexAt, DataAt, Addr;
      var sum: int := ByteAt(line, 2);
      sum := sum + Addr(line) / 0x100;
      sum := sum + Addr(line) % 0x100;
      sum := StoreData(line, sum);
      code := Check(line, sum);
    }

    /** The comparison of the complemented sum with the checksum field. */
    method Check(line: string, total: nat) returns (code: int)
      requires IsData(line) && Readable(line)
      requires FieldsAt(line, DataLength(line) + 3) && total == FieldSum(line, DataLength(line) + 3)
      ensures code == if Sums(line) then 0 else -1
    {
      SumStep(line, DataLength(line));
      var sum := 0xFF - total % 0x100;
      var csum := ByteAt(line, 8 + DataLength(line) * 2);
      Complement(total, csum);
      hide ByteAt, FieldSum, HexAt, DataAt, FieldsAt;
      code := if csum != sum then -1 else 0;
    }

    /** The data loop, which adds each byte to the running sum. */
    method StoreData(line: string, start: nat) returns (sum: nat)
      requires Valid() && Loadable(line) && IsData(line)
      requires FieldsAt(line, 3) && start == FieldSum(line, 3)
      modifies ram
      ensures FieldsAt(line, DataLength(line) + 3) && sum == FieldSum(line, DataLength(line) + 3)
      ensures Loads(line, old(ram[..]), ram[..])
    {
      hide ByteAt, FieldSum, HexAt, DataAt, Addr, FieldsAt;
      ghost var before := ram[..];
      var nbytes := ByteAt(line, 2);
      var addr := Addr(line);
      sum := start;
      var i := 2;
      while i < nbytes - 1
        invariant 2 <= i <= DataLength(line) + 2
        invariant FieldsAt(line, i + 1) && sum == FieldSum(line, i + 1)
        invariant Partly(line, before, ram[..], i - 2)
      {
        SumStep(line, i - 2);
        var val := DataAt(line, i - 2);
        ram[addr + i - 2] := val;
        sum := sum + val;
        i := i + 1;
      }
    }

    /** The loop of load_file over the lines of a file, up to the first rejected one. */
    method LoadFile(lines: seq<string>) returns (code: int, ghost rams: seq<Ram>)
      requires Valid() && AllLoadable(lines) && |lines| > 0
      modifies ram
      ensures 0 < |rams| <= |lines| + 1 && rams[0] == old(ram[..]) && rams[|rams| - 1] == ram[..]
      ensures LoadsAll(lines[..|rams| - 1], rams)
      ensures code == 0 ==> |rams| == |lines| + 1 && forall i | 0 <= i < |lines| :: Accepted(lines[i])
      ensures code != 0 ==> code == -1 && |rams| > 1 && !Accepted(lines[|rams| - 2])
                            && forall i | 0 <= i < |rams| - 2 :: Accepted(lines[i])
    {
      var n := 0;
      rams := [ram[..]];
      code := 0;
      while n < |lines| && code == 0
        invariant n <= |lines| && |rams| == n + 1 && rams[0] == old(ram[..]) && rams[n] == ram[..]
        invariant LoadsAll(lines[..n], rams)
        invariant code == 0 ==> forall i | 0 <= i < n :: Accepted(lines[i])
        invariant code != 0 ==> code == -1 && n > 0 && !Accepted(lines[n - 1])
                                && forall i | 0 <= i < n - 1 :: Accepted(lines[i])
        decreases |lines| - n
      {
        code := LoadLine(lines[n]);
        rams := rams + [ram[..]];
        n := n + 1;
      }
    }
  }
}
