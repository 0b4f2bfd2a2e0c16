// What the instruction set promises of results and flags, in numbers and bits.

/** A reference for the instructions that does not know how the simulator computes them. */
module Manual {
  import opened Words
  import opened Alu

  /** The two widths of operands. */
  predicate IsWidth(w: int) { w == 0x100 || w == 0x1_0000 }

  /** The two's-complement reading of `x`. */
  function Two(x: int, w: int): int
    requires IsWidth(w)
  {
    if 2 * x >= w then x - w else x
  }

  predicate FitsSigned(x: int, w: int)
    requires IsWidth(w)
  {
    -w <= 2 * x < w
  }

  /** N and Z describe the result `v`. */
  predicate Describes(g: Flags, v: int, w: int)
    requires IsWidth(w)
  {
    0 <= v < w && (g.n <==> 2 * v >= w) && (g.z <==> v == 0)
  }

  /** `v` is x + y + c, C the carry, V says that the signed sum does not fit. */
  predicate IsSum(x: int, y: int, c: bool, w: int, v: int, g: Flags)
    requires IsWidth(w)
  {
    var carry := if c then 1 else 0;
    && v + (if g.c then w else 0) == x + y + carry && Describes(g, v, w)
    && (g.v <==> !FitsSigned(Two(x, w) + Two(y, w) + carry, w))
  }

  /** `v` is x - y - c but for C, V says that the signed difference does not fit. */
  predicate IsDifference(x: int, y: int, c: bool, w: int, v: int, g: Flags)
    requires IsWidth(w)
  {
    var borrow := if c then 1 else 0;
    && v == (x - y - borrow) % w && Describes(g, v, w)
    && (g.v <==> !FitsSigned(Two(x, w) - Two(y, w) - borrow, w))
  }

  /** C is the borrow of x - y - c. */
  predicate IsBorrow(x: int, y: int, c: bool, g: Flags)
  {
    g.c <==> x < y + if c then 1 else 0
  }

  /** Flags of a value that was only moved or combined bit by bit. */
  predicate IsMoved(v: int, w: int, f: Flags, g: Flags)
    requires IsWidth(w)
  {
    Describes(g, v, w) && !g.v && g.c == f.c
  }

  predicate KeepsHI(f: Flags, g: Flags) { g.h == f.h && g.i == f.i }

  predicate BitOn(x: int, k: nat) { x / Pow2(k) % 2 == 1 }

  predicate IsAnd(r: int, x: int, y: int)
  {
    0 <= r < 0x100 && forall k: nat | k < 8 :: BitOn(r, k) <==> BitOn(x, k) && BitOn(y, k)
  }

  predicate IsOr(r: int, x: int, y: int)
  {
    0 <= r < 0x100 && forall k: nat | k < 8 :: BitOn(r, k) <==> BitOn(x, k) || BitOn(y, k)
  }

  predicate IsXor(r: int, x: int, y: int)
  {
    0 <= r < 0x100 && forall k: nat | k < 8 :: BitOn(r, k) <==> BitOn(x, k) != BitOn(y, k)
  }

  /** Digits that stand for an accumulator operation with a byte, in the low half of an opcode. */
  predicate IsByteDigit(d: int) { d in {0, 1, 2, 4, 5, 6, 8, 9, 0xA, 0xB} }

  /** sub, cmp, sbc, and, bit, lda, eor, adc, ora and add: accumulator `x` and flags `f` with
      operand `m` become `v` and `g`. */
  predicate ByteEffect(d: int, x: int, m: int, f: Flags, v: int, g: Flags)
  {
    match d
    case 0 => IsDifference(x, m, false, 0x100, v, g) && IsBorrow(x, m, false, g) && KeepsHI(f, g)
    case 1 => v == x && IsDifference(x, m, false, 0x100, (x - m) % 0x100, g) && IsBorrow(x, m, false, g) && KeepsHI(f, g)
    case 2 => IsDifference(x, m, f.c, 0x100, v, g) && IsBorrow(x, m, f.c, g) && KeepsHI(f, g)
    case 4 => IsAnd(v, x, m) && IsMoved(v, 0x100, f, g) && KeepsHI(f, g)
    case 5 => v == x && KeepsHI(f, g) && exists r: Byte :: IsAnd(r, x, m) && IsMoved(r, 0x100, f, g)
    case 6 => v == m && IsMoved(v, 0x100, f, g) && KeepsHI(f, g)
    case 8 => IsXor(v, x, m) && IsMoved(v, 0x100, f, g) && KeepsHI(f, g)
    case 9 => IsSum(x, m, f.c, 0x100, v, g) && IsHalf(x, m, f.c, g) && g.i == f.i
    case 0xA => IsOr(v, x, m) && IsMoved(v, 0x100, f, g) && KeepsHI(f, g)
    case _ => IsSum(x, m, false, 0x100, v, g) && IsHalf(x, m, false, g) && g.i == f.i
  }

  /** H is the carry out of the low digit. */
  predicate IsHalf(x: int, m: int, c: bool, g: Flags)
  {
    g.h <==> x % 0x10 + m % 0x10 + (if c then 1 else 0) >= 0x10
  }

  /** Digits that stand for an operation on one byte, in the low half of an opcode 0x40 to 0x7F. */
  predicate IsModifyDigit(d: int) { d in {0, 3, 4, 6, 7, 8, 9, 0xA, 0xC, 0xD, 0xF} }

  /** neg, com, lsr, ror, asr, asl, rol, dec, inc, tst and clr. */
  predicate ModifyEffect(d: int, x: int, f: Flags, v: int, g: Flags)
  {
    var out := if g.c then 1 else 0;
    && KeepsHI(f, g) && Describes(g, v, 0x100)
    && match d
       case 0 => IsDifference(0, x, false, 0x100, v, g) && IsBorrow(0, x, false, g)
       case 3 => v == 0xFF - x && g.c && !g.v
       case 4 => x == 2 * v + out && v < 0x80 && g.v == (g.n != g.c)
       case 6 => x + (if f.c then 0x100 else 0) == 2 * v + out && g.v == (g.n != g.c)
       case 7 => Two(x, 0x100) == 2 * Two(v, 0x100) + out && g.v == (g.n != g.c)
       case 8 => v + 0x100 * out == 2 * x && g.v == (g.n != g.c)
       case 9 => v + 0x100 * out == 2 * x + (if f.c then 1 else 0) && g.v == (g.n != g.c)
       case 0xA => v == (x - 1) % 0x100 && g.c == f.c && g.v == (x == 0x80)
       case 0xC => v == (x + 1) % 0x100 && g.c == f.c && g.v == (x == 0x7F)
       case 0xD => v == x && !g.v && !g.c
       case _ => v == 0 && !g.v && !g.c
  }

  /** The condition of the even branch opcodes; each odd one is the negation of the one below. */
  predicate EvenCondition(d: int, f: Flags)
  {
    match d
    case 0 => true
    case 2 => !f.c && !f.z
    case 4 => !f.c
    case 6 => !f.z
    case 8 => !f.v
    case 0xA => !f.n
    case 0xC => f.n == f.v
    case _ => !f.z && f.n == f.v
  }

  predicate Condition(d: int, f: Flags)
  {
    if d % 2 == 0 then EvenCondition(d, f) else !EvenCondition(d - 1, f)
  }

  /** The condition codes as the byte that tpa and interrupts see. */
  function FlagByte(f: Flags): int
  {
    0xC0 + (if f.h then 32 else 0) + (if f.i then 16 else 0) + (if f.n then 8 else 0)
    + (if f.z then 4 else 0) + (if f.v then 2 else 0) + (if f.c then 1 else 0)
  }

  /** The condition codes that tap and rti take from a byte. */
  predicate FlagsFrom(b: int, f: Flags)
  {
    && f.c == BitOn(b, 0) && f.v == BitOn(b, 1) && f.z == BitOn(b, 2)
    && f.n == BitOn(b, 3) && f.i == BitOn(b, 4) && f.h == BitOn(b, 5)
  }

  // ---- words, condition codes and registers ----

  /** The high byte comes first. */
  function Pair(hi: int, lo: int): int { 0x100 * hi + lo }

  /** A branch displacement. */
  function Displacement(b: int): int { if b >= 0x80 then b - 0x100 else b }
}
