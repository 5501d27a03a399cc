/**
 CRC-32 (src/tbx/hash/crc32.cpp): the table-driven digester, the bit-serial division it
 refines, and the error-detection guarantee that makes it usable as a file checksum.

 The operations on registers are small named functions, so that the proofs about long
 messages can hide their bits and argue from the few algebraic laws below.
 */
module Crc32 {

  import opened Bytes

  /** The reflected generator polynomial. */
  const POLYNOMIAL: bv32 := 0xEDB8_8320

  // ---------------------------------------------------------------------------------------
  // Reference: division of the message by the polynomial, one bit at a time.
  // ---------------------------------------------------------------------------------------

  predicate Odd(x: bv32) { x & 1 == 1 }

  function Half(x: bv32): bv32 { x >> 1 }

  function Xor(x: bv32, y: bv32): bv32 { x ^ y }

  function Not(x: bv32): bv32 { !x }

  /** One step of the division: shift the register, subtract the polynomial if a one fell out. */
  function DivideBit(register: bv32): bv32 {
    if Odd(register) then Xor(Half(register), POLYNOMIAL) else Half(register)
  }

  /** Feeds one message bit: it is added to the bit about to leave the register. */
  function FeedBit(register: bv32, bit: bool): bv32 {
    DivideBit(if bit then Xor(register, 1) else register)
  }

  function Divide(register: bv32, bits: seq<bool>): bv32
    decreases |bits|
  {
    if bits == [] then register else Divide(FeedBit(register, bits[0]), bits[1..])
  }

  /** The low `n` bits of a word, least significant first. */
  function LowBits(word: bv32, n: nat): (bits: seq<bool>)
    ensures |bits| == n
    decreases n
  {
    if n == 0 then [] else [Odd(word)] + LowBits(Half(word), n - 1)
  }

  function ByteBits(b: byte): (bits: seq<bool>)
    ensures |bits| == 8
  {
    LowBits(b as bv32, 8)
  }

  /** The message as bits; section 8 of RFC 1952 takes each byte least significant bit first. */
  function MessageBits(data: seq<byte>): (bits: seq<bool>)
    ensures |bits| == 8 * |data|
  {
    if data == [] then [] else ByteBits(data[0]) + MessageBits(data[1..])
  }

  /** The checksum after a message; the register is kept complemented between messages. */
  function Checksum(previous: bv32, data: seq<byte>): bv32 {
    Not(Divide(Not(previous), MessageBits(data)))
  }

  // ---------------------------------------------------------------------------------------
  // Algebra of the division.
  // ---------------------------------------------------------------------------------------

  lemma NotNot(x: bv32)
    ensures Not(Not(x)) == x
  {
  }

  lemma HalfXor(x: bv32, y: bv32)
    ensures Half(Xor(x, y)) == Xor(Half(x), Half(y))
    ensures Odd(Xor(x, y)) == (Odd(x) != Odd(y))
  {
  }

  lemma XorAssociative(a: bv32, b: bv32, c: bv32)
    ensures Xor(a, Xor(b, c)) == Xor(Xor(a, b), c)
  {
  }

  lemma XorBasics(a: bv32, b: bv32)
    ensures Xor(a, b) == Xor(b, a)
    ensures Xor(a, a) == 0
    ensures Xor(a, 0) == a
  {
  }

  lemma XorLaws(a: bv32, b: bv32, c: bv32)
    ensures Xor(Xor(a, c), Xor(b, c)) == Xor(a, b)
    ensures Xor(Xor(a, c), b) == Xor(Xor(a, b), c)
    ensures Xor(a, Xor(b, c)) == Xor(Xor(a, b), c)
    ensures Xor(Xor(a, b), b) == a
    ensures Xor(a, a) == 0
    ensures Xor(a, 0) == a
  {
    hide Xor;
    XorBasics(a, b);
    XorBasics(b, c);
    XorBasics(c, c);
    XorAssociative(a, b, c);
    XorAssociative(a, c, b);
    XorAssociative(a, b, b);
    XorAssociative(Xor(a, c), b, c);
    XorAssociative(Xor(a, b), c, c);
    XorBasics(b, b);
    XorBasics(Xor(a, b), 0);
  }

  lemma DivideBitLinear(x: bv32, y: bv32)
    ensures DivideBit(Xor(x, y)) == Xor(DivideBit(x), DivideBit(y))
  {
    hide Xor, Half, Odd;
    HalfXor(x, y);
    XorLaws(Half(x), Half(y), POLYNOMIAL);
  }

  /** The polynomial's top bit records which bit fell out. */
  lemma TopBitRecords(x: bv32)
    ensures Odd(x) <==> DivideBit(x) >= 0x8000_0000
  {
  }

  lemma HalfAndParity(x: bv32, y: bv32)
    requires Half(x) == Half(y) && Odd(x) == Odd(y)
    ensures x == y
  {
  }

  lemma DivideBitInjective(x: bv32, y: bv32)
    requires DivideBit(x) == DivideBit(y)
    ensures x == y
  {
    hide Xor, Half, Odd;
    TopBitRecords(x);
    TopBitRecords(y);
    XorLaws(Half(x), POLYNOMIAL, 0);
    XorLaws(Half(y), POLYNOMIAL, 0);
    HalfAndParity(x, y);
  }

  lemma FeedBitInjective(x: bv32, y: bv32, bit: bool)
    requires FeedBit(x, bit) == FeedBit(y, bit)
    ensures x == y
  {
    hide DivideBit, Xor;
    DivideBitInjective(if bit then Xor(x, 1) else x, if bit then Xor(y, 1) else y);
    XorLaws(x, 1, 0);
    XorLaws(y, 1, 0);
  }

  lemma {:induction false} DivideInjective(x: bv32, y: bv32, bits: seq<bool>)
    requires Divide(x, bits) == Divide(y, bits)
    ensures x == y
    decreases |bits|
  {
    hide FeedBit;
    if bits != [] {
      DivideInjective(FeedBit(x, bits[0]), FeedBit(y, bits[0]), bits[1..]);
      FeedBitInjective(x, y, bits[0]);
    }
  }

  lemma {:induction false} DivideConcat(register: bv32, a: seq<bool>, b: seq<bool>)
    ensures Divide(register, a + b) == Divide(Divide(register, a), b)
    decreases |a|
  {
    hide FeedBit;
    if a == [] {
      assert a + b == b;
    } else {
      DivideConcat(FeedBit(register, a[0]), a[1..], b);
      assert (a + b)[1..] == a[1..] + b;
    }
  }

  lemma {:induction false} MessageBitsConcat(a: seq<byte>, b: seq<byte>)
    ensures MessageBits(a + b) == MessageBits(a) + MessageBits(b)
  {
    hide ByteBits;
    if a == [] {
      assert a + b == b;
    } else {
      assert (a + b)[1..] == a[1..] + b;
      MessageBitsConcat(a[1..], b);
    }
  }

  /** Checksumming in two updates is checksumming the concatenation. */
  lemma ChecksumConcat(previous: bv32, a: seq<byte>, b: seq<byte>)
    ensures Checksum(Checksum(previous, a), b) == Checksum(previous, a + b)
  {
    hide FeedBit, ByteBits, Not;
    MessageBitsConcat(a, b);
    DivideConcat(Not(previous), MessageBits(a), MessageBits(b));
    NotNot(Divide(Not(previous), MessageBits(a)));
  }

  // ---------------------------------------------------------------------------------------
  // Error detection.
  // ---------------------------------------------------------------------------------------

  /** `mark` still has a set bit after being shifted right `n` times. */
  predicate Survives(mark: bv32, n: nat)
    decreases n
  {
    mark != 0 && (n > 0 ==> Survives(Half(mark), n - 1))
  }

  lemma TopBitSurvives(n: nat)
    requires n <= 31
    ensures Survives(0x8000_0000, n)
  {
    SurvivesFewer(0x8000_0000, 31, n) by {
      assert Survives(1, 0);
      assert Survives(0x10, 4);
      assert Survives(0x100, 8);
      assert Survives(0x1000, 12);
      assert Survives(0x1_0000, 16);
      assert Survives(0x10_0000, 20);
      assert Survives(0x100_0000, 24);
      assert Survives(0x1000_0000, 28);
    }
  }

  lemma {:induction false} SurvivesFewer(mark: bv32, n: nat, m: nat)
    requires Survives(mark, n) && m <= n
    ensures Survives(mark, m)
    decreases n
  {
    hide Half;
    if m > 0 {
      SurvivesFewer(Half(mark), n - 1, m - 1);
    }
  }

  predicate AtLeast(d: bv32, mark: bv32) { d >= mark }

  lemma HalfMonotone(d: bv32, mark: bv32)
    requires AtLeast(d, mark)
    ensures AtLeast(Half(d), Half(mark)) && AtLeast(0x8000_0000, Half(mark))
  {
  }

  lemma HalfIgnoresLowBit(d: bv32)
    ensures Half(Xor(d, 1)) == Half(d)
  {
  }

  lemma DivideBitKeeps(d: bv32, mark: bv32)
    requires AtLeast(Half(d), Half(mark)) && AtLeast(0x8000_0000, Half(mark))
    ensures AtLeast(DivideBit(d), Half(mark))
  {
    hide Xor, Half, Odd;
    TopBitRecords(d);
  }

  lemma FeedBitDifference(x: bv32, y: bv32, b: bool, c: bool)
    ensures Xor(FeedBit(x, b), FeedBit(y, c)) == FeedBit(Xor(x, y), b != c)
  {
    hide DivideBit, Xor;
    DivideBitLinear(if b then Xor(x, 1) else x, if c then Xor(y, 1) else y);
    XorLaws(x, y, 1);
  }

  lemma DifferenceStep(d: bv32, mark: bv32, bit: bool)
    requires AtLeast(d, mark)
    ensures AtLeast(FeedBit(d, bit), Half(mark))
  {
    hide Xor, Half, DivideBit, AtLeast;
    HalfMonotone(d, mark);
    HalfIgnoresLowBit(d);
    DivideBitKeeps(if bit then Xor(d, 1) else d, mark);
  }

  lemma NothingAtLeast(mark: bv32)
    requires mark != 0
    ensures !AtLeast(0, mark)
  {
  }

  /** Registers whose difference lies high enough cannot be brought together by few bits. */
  lemma {:induction false} StayApart(x: bv32, y: bv32, u: seq<bool>, v: seq<bool>, mark: bv32)
    requires |u| == |v| && AtLeast(Xor(x, y), mark) && Survives(mark, |u|)
    ensures Divide(x, u) != Divide(y, v)
    decreases |u|
  {
    hide FeedBit, Xor, Half, AtLeast;
    if u == [] {
      XorLaws(x, y, 0);
      NothingAtLeast(mark);
    } else {
      FeedBitDifference(x, y, u[0], v[0]);
      DifferenceStep(Xor(x, y), mark, u[0] != v[0]);
      StayApart(FeedBit(x, u[0]), FeedBit(y, v[0]), u[1..], v[1..], Half(mark));
    }
  }

  lemma FirstDifference(register: bv32, b: bool)
    ensures Xor(FeedBit(register, b), FeedBit(register, !b)) >= 0x8000_0000
  {
    hide FeedBit, Xor;
    FeedBitDifference(register, register, b, !b);
    XorLaws(register, 0, 0);
    assert FeedBit(0, true) >= 0x8000_0000 by {
      FeedOne();
    }
  }

  lemma FeedOne()
    ensures FeedBit(0, true) >= 0x8000_0000
  {
    TopBitRecords(Xor(0, 1));
  }

  /** At most 32 message bits: different bits always leave different registers. */
  lemma {:induction false} ShortBlocksDiffer(register: bv32, u: seq<bool>, v: seq<bool>)
    requires |u| == |v| <= 32 && u != v
    ensures Divide(register, u) != Divide(register, v)
    decreases |u|
  {
    hide FeedBit, Xor, Survives;
    if u[0] == v[0] {
      assert u == [u[0]] + u[1..] && v == [v[0]] + v[1..];
      ShortBlocksDiffer(FeedBit(register, u[0]), u[1..], v[1..]);
    } else {
      FirstDifference(register, u[0]);
      assert v[0] == !u[0];
      TopBitSurvives(|u| - 1);
      StayApart(FeedBit(register, u[0]), FeedBit(register, v[0]), u[1..], v[1..], 0x8000_0000);
    }
  }

  /** The same window, with equal bits before and after it. */
  lemma BurstDivides(register: bv32, p: seq<bool>, u: seq<bool>, v: seq<bool>, q: seq<bool>)
    requires |u| == |v| <= 32 && u != v
    ensures Divide(register, p + (u + q)) != Divide(register, p + (v + q))
  {
    hide Divide;
    DivideConcat(register, p, u + q);
    DivideConcat(register, p, v + q);
    var before := Divide(register, p);
    DivideConcat(before, u, q);
    DivideConcat(before, v, q);
    ShortBlocksDiffer(before, u, v);
    if Divide(Divide(before, u), q) == Divide(Divide(before, v), q) {
      DivideInjective(Divide(before, u), Divide(before, v), q);
    }
  }

  /** The bits of two messages of equal length differ, but only from `start` to `end`, which is no more than 32 bits. */
  ghost predicate Burst(data: seq<byte>, corrupted: seq<byte>, start: nat, end: nat) {
    && |data| == |corrupted| && start <= end <= 8 * |data| && end - start <= 32
    && MessageBits(data)[..start] == MessageBits(corrupted)[..start]
    && MessageBits(data)[end..] == MessageBits(corrupted)[end..]
    && MessageBits(data) != MessageBits(corrupted)
  }

  /** Burst detection: after a burst, at any alignment, the checksum is another one. */
  lemma BurstDetected(previous: bv32, data: seq<byte>, corrupted: seq<byte>, start: nat, end: nat)
    requires Burst(data, corrupted, start, end)
    ensures Checksum(previous, data) != Checksum(previous, corrupted)
  {
    hide Divide, MessageBits, Not;
    var p, q := MessageBits(data), MessageBits(corrupted);
    assert p == p[..start] + (p[start..end] + p[end..]);
    assert q == q[..start] + (q[start..end] + q[end..]);
    BurstDivides(Not(previous), p[..start], p[start..end], q[start..end], p[end..]);
    NotNot(Divide(Not(previous), p));
    NotNot(Divide(Not(previous), q));
  }

  // ---------------------------------------------------------------------------------------
  // The table form.
  // ---------------------------------------------------------------------------------------

  /** `n` steps of the division with no message bits, as the table is filled. */
  function Shift(register: bv32, n: nat): bv32
    decreases n
  {
    if n == 0 then register else Shift(DivideBit(register), n - 1)
  }

  lemma {:induction false} ShiftLinear(x: bv32, y: bv32, n: nat)
    ensures Shift(Xor(x, y), n) == Xor(Shift(x, n), Shift(y, n))
    decreases n
  {
    hide DivideBit, Xor;
    if n > 0 {
      DivideBitLinear(x, y);
      ShiftLinear(DivideBit(x), DivideBit(y), n - 1);
    }
  }

  /** `word` has no set bit above the lowest `n`. */
  predicate Fits(word: bv32, n: nat)
    decreases n
  {
    if n == 0 then word == 0 else Fits(Half(word), n - 1)
  }

  lemma SplitLowBit(word: bv32)
    ensures var even := word & 0xffff_fffe;
            !Odd(even) && Half(even) == Half(word) && word == Xor(if Odd(word) then 1 else 0, even)
  {
    assert word == (word & 1) ^ (word & 0xffff_fffe);
    assert word & 1 == if Odd(word) then 1 else 0;
    assert (word & 0xffff_fffe) & 1 == 0;
  }

  lemma AbsorbBit(register: bv32, word: bv32)
    ensures DivideBit(Xor(register, word)) == Xor(FeedBit(register, Odd(word)), Half(word))
  {
    hide Xor, Odd, Half;
    var even := word & 0xffff_fffe;
    SplitLowBit(word);
    XorLaws(register, if Odd(word) then 1 else 0, even);
    XorLaws(register, 0, 0);
    DivideBitLinear(if Odd(word) then Xor(register, 1) else register, even);
  }

  /** Adding a whole word first and shifting after is feeding its bits one at a time. */
  lemma {:induction false} AbsorbWord(register: bv32, word: bv32, n: nat)
    requires Fits(word, n)
    ensures Divide(register, LowBits(word, n)) == Shift(Xor(register, word), n)
    decreases n
  {
    hide DivideBit, FeedBit, Xor, Odd, Half;
    if n > 0 {
      AbsorbBit(register, word);
      AbsorbWord(FeedBit(register, Odd(word)), Half(word), n - 1);
      assert LowBits(word, n)[1..] == LowBits(Half(word), n - 1);
    } else {
      XorLaws(register, 0, 0);
    }
  }

  lemma ByteFits(b: byte)
    ensures Fits(b as bv32, 8)
  {
    var w := b as bv32;
    assert w >> 1 >> 1 >> 1 >> 1 >> 1 >> 1 >> 1 >> 1 == 0;
    assert Fits(w >> 1 >> 1 >> 1 >> 1, 4);
    assert Fits(w >> 1 >> 1, 6);
  }

  lemma ShiftEven(word: bv32, n: nat)
    requires word & 1 == 0 && n > 0
    ensures Shift(word, n) == Shift(word >> 1, n - 1)
  {
  }

  lemma ShiftEvenTwice(word: bv32, n: nat)
    requires word & 3 == 0 && n > 1
    ensures Shift(word, n) == Shift(word >> 2, n - 2)
  {
    ShiftEven(word, n);
    ShiftEven(word >> 1, n - 1);
    assert word >> 1 >> 1 == word >> 2;
  }

  lemma ShiftEvenFour(word: bv32, n: nat)
    requires word & 15 == 0 && n > 3
    ensures Shift(word, n) == Shift(word >> 4, n - 4)
  {
    hide Shift;
    ShiftEvenTwice(word, n);
    ShiftEvenTwice(word >> 2, n - 2);
    assert word >> 2 >> 2 == word >> 4;
  }

  lemma DropLowByte(word: bv32)
    requires word & 0xff == 0
    ensures Shift(word, 8) == word >> 8
  {
    hide DivideBit;
    ShiftEvenFour(word, 8);
    ShiftEvenFour(word >> 4, 4);
    assert word >> 4 >> 4 == word >> 8;
  }

  /** The index a lookup uses, as the source computes it. */
  function Index(crc: bv32, b: byte): (i: bv32)
    ensures i < 256
  {
    (crc & 0xff) ^ (b as bv32)
  }

  lemma SplitRegister(crc: bv32, b: byte)
    ensures var high := crc & 0xffff_ff00;
            high & 0xff == 0 && high >> 8 == crc >> 8 && Xor(crc, b as bv32) == Xor(high, Index(crc, b))
  {
  }

  /** One table lookup is eight steps of the division. */
  lemma TableStep(crc: bv32, b: byte)
    ensures Xor(crc >> 8, Shift(Index(crc, b), 8)) == Divide(crc, ByteBits(b))
  {
    hide DivideBit, Shift, Divide, Fits, LowBits, Xor, Index;
    var high := crc & 0xffff_ff00;
    SplitRegister(crc, b);
    ByteFits(b);
    AbsorbWord(crc, b as bv32, 8);
    ShiftLinear(high, Index(crc, b), 8);
    DropLowByte(high);
  }

  ghost predicate IsTable(lut: array<bv32>)
    reads lut
  {
    lut.Length == 256 && forall i :: 0 <= i < 256 ==> lut[i] == Shift(i as bv32, 8)
  }

  /** All ones for an odd register, and 0 for an even one. */
  lemma LowBitMask(crc: bv32)
    ensures -(crc & 1) == if crc & 1 == 1 then 0xffff_ffff else 0
  {
    assert crc & 1 == 0 || crc & 1 == 1;
  }

  lemma MaskIsBranch(crc: bv32)
    ensures (crc >> 1) ^ (-(crc & 1) & POLYNOMIAL) == DivideBit(crc)
  {
    LowBitMask(crc);
    if crc & 1 == 1 {
      assert -(crc & 1) & POLYNOMIAL == POLYNOMIAL;
    } else {
      assert -(crc & 1) & POLYNOMIAL == 0;
    }
  }

  /** Fills the lookup table, each entry by eight masked shifts. */
  method PrecomputeLut(lut: array<bv32>)
    requires lut.Length == 256
    modifies lut
    ensures IsTable(lut)
  {
    hide DivideBit, Shift;
    for i := 0 to 256
      invariant forall k :: 0 <= k < i ==> lut[k] == Shift(k as bv32, 8)
    {
      lut[i] := EightShifts(i as bv32);
    }
  }

  /** The inner loop of the table: the source's mask `-(crc & 1) & POLYNOMIAL` is the branch. */
  method EightShifts(start: bv32) returns (crc: bv32)
    ensures crc == Shift(start, 8)
  {
    hide DivideBit;
    crc := start;
    var j := 0;
    while j < 8
      invariant j <= 8 && Shift(crc, 8 - j) == Shift(start, 8)
    {
      MaskIsBranch(crc);
      crc := (crc >> 1) ^ (-(crc & 1) & POLYNOMIAL);
      j := j + 1;
    }
  }

  /** The digester: a lookup table and the running checksum. */
  class Digester {
    const lut: array<bv32>
    var value: bv32

    ghost predicate Valid()
      reads this, lut
    {
      IsTable(lut)
    }

    constructor ()
      ensures Valid() && fresh(lut) && value == 0
    {
      value := 0;
      lut := new bv32[256];
      new;
      PrecomputeLut(lut);
    }

    /** Continues `previous` over `data`, one table lookup a byte. */
    method Continue(data: seq<byte>, previous: bv32) returns (crc: bv32)
      requires Valid()
      ensures crc == Checksum(previous, data)
    {
      hide ByteBits, FeedBit, Shift, Xor, Index;
      crc := Not(previous);
      var i := 0;
      while i < |data|
        invariant i <= |data|
        invariant Divide(crc, MessageBits(data[i..])) == Divide(Not(previous), MessageBits(data))
      {
        TableStep(crc, data[i]);
        assert data[i..][1..] == data[i + 1..];
        DivideConcat(crc, ByteBits(data[i]), MessageBits(data[i + 1..]));
        crc := Xor(crc >> 8, lut[Index(crc, data[i]) as int]);
        i := i + 1;
      }
      crc := Not(crc);
    }

    method Update(data: seq<byte>)
      requires Valid()
      modifies this`value
      ensures Valid() && value == Checksum(old(value), data)
    {
      value := Continue(data, value);
    }
  }
}
