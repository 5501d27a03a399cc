/**
 The 32-bit arithmetic of `MD5::update` (src/tbx/hash/md5.cpp): the bit counter, kept in two halves,
 and the block loop, whose index is 32 bits wide.
 */
module Md5Count {
  import opened Bytes

  const TWO29: nat := 0x2000_0000
  const TWO32: nat := 0x1_0000_0000
  const TWO61: nat := 0x2000_0000_0000_0000
  const TWO64: nat := 0x1_0000_0000_0000_0000

  // ---------------------------------------------------------------------------------------
  // The counter
  // ---------------------------------------------------------------------------------------

  /** `count[0]` and `count[1]` */
  datatype BitCount = BitCount(low: nat, high: nat)

  predicate InWords(c: BitCount) {
    c.low < TWO32 && c.high < TWO32
  }

  function Bits(c: BitCount): nat {
    c.low + TWO32 * c.high
  }

  /** The counter after an update of `length` bytes. */
  function Counted(c: BitCount, length: nat): BitCount {
    var low := (c.low + 8 * length) % TWO32;
    var high := if low < 8 * length then (c.high + 1) % TWO32 else c.high;
    BitCount(low, (high + length / TWO29) % TWO32)
  }

  /** The counter after updates of the given lengths. */
  function CountAll(pieces: seq<nat>): BitCount
    decreases |pieces|
  {
    if pieces == [] then BitCount(0, 0) else Counted(CountAll(pieces[..|pieces| - 1]), pieces[|pieces| - 1])
  }

  /** The counter holds the bits of `n` bytes modulo 2^64. */
  ghost predicate Right(c: BitCount, n: nat) {
    InWords(c) && Bits(c) == 8 * n % TWO64
  }

  /** An update below 2^29 bytes counts right; a longer one only if the low half really overflows. */
  predicate CarryAgrees(low: nat, length: nat) {
    length < TWO29 || low + 8 * (length % TWO29) >= TWO32
  }

  function Excess(low: nat, length: nat): nat {
    if CarryAgrees(low, length) then 0 else 1
  }

  lemma ModuloSquare(low: nat, h: nat)
    requires low < TWO32
    ensures (low + TWO32 * h) % TWO64 == low + TWO32 * (h % TWO32)
  {
    var k := h / TWO32;
    assert low + TWO32 * h == TWO64 * k + (low + TWO32 * (h % TWO32));
  }

  lemma ModuloPlus(x: nat, q: nat)
    ensures (x % TWO32 + q) % TWO32 == (x + q) % TWO32
  {
    var k := x / TWO32;
    assert x + q == TWO32 * k + (x % TWO32 + q);
  }

  /** One update adds its bits, and 2^32 too many when the carry does not agree. */
  lemma CountedBits(c: BitCount, length: nat)
    requires InWords(c)
    ensures InWords(Counted(c, length))
    ensures Bits(Counted(c, length)) == (Bits(c) + 8 * length + TWO32 * Excess(c.low, length)) % TWO64
    ensures Counted(c, length).low == (c.low + 8 * length) % TWO32
  {
    var q, r := length / TWO29, 8 * (length % TWO29);
    assert 8 * length == TWO32 * q + r;
    var carry := if c.low + r >= TWO32 then 1 else 0;
    var low := c.low + r - TWO32 * carry;
    assert (c.low + 8 * length) % TWO32 == low by {
      assert c.low + 8 * length == TWO32 * (q + carry) + low;
    }
    var counted := if low < 8 * length then 1 else 0;
    assert q > 0 ==> counted == 1;
    assert q == 0 ==> counted == carry;
    assert length < TWO29 <==> q == 0;
    assert counted == carry + Excess(c.low, length);
    ModuloPlus(c.high + 1, q);
    assert Counted(c, length) == BitCount(low, (c.high + counted + q) % TWO32);
    assert Bits(c) + 8 * length + TWO32 * Excess(c.low, length) == low + TWO32 * (c.high + counted + q);
    ModuloSquare(low, c.high + counted + q);
  }

  lemma ModuloPlus64(x: nat, q: nat)
    ensures (x % TWO64 + q) % TWO64 == (x + q) % TWO64
  {
    var k := x / TWO64;
    assert x + q == TWO64 * k + (x % TWO64 + q);
  }

  lemma RightExactly(bits: nat, excess: nat)
    requires excess < TWO32
    ensures (bits + TWO32 * excess) % TWO64 == bits % TWO64 <==> excess == 0
  {
    var k, r := bits / TWO64, bits % TWO64;
    assert bits == TWO64 * k + r;
    if excess > 0 {
      assert TWO32 * excess < TWO64;
      if r + TWO32 * excess < TWO64 {
        assert bits + TWO32 * excess == TWO64 * k + (r + TWO32 * excess);
      } else {
        assert bits + TWO32 * excess == TWO64 * (k + 1) + (r + TWO32 * excess - TWO64);
      }
    }
  }

  /**
   After an update that comes to an end, a right counter is right again exactly when the carry
   agrees.
   */
  lemma CounterIsExact(c: BitCount, n: nat, length: nat)
    requires Right(c, n) && UpdateEnds(c.low / 8 % 64, length)
    ensures Right(Counted(c, length), n + length) <==> CarryAgrees(c.low, length)
  {
    CountedBits(c, length);
    ModuloPlus64(8 * n, 8 * length + TWO32 * Excess(c.low, length));
    RightExactly(8 * (n + length), Excess(c.low, length));
  }

  /** 2^29 bytes in one update: `count[1]` is 2, and should be 1. */
  lemma CounterFails()
    ensures UpdateEnds(0, TWO29) && Counted(BitCount(0, 0), TWO29) == BitCount(0, 2) && Right(BitCount(0, 1), TWO29)
    ensures !CarryAgrees(0, TWO29) && !Right(CountAll([TWO29]), TWO29)
  {
    assert [TWO29][..0] == [];
    assert CountAll([TWO29]) == Counted(BitCount(0, 0), TWO29);
  }

  // ---------------------------------------------------------------------------------------
  // Whole runs
  // ---------------------------------------------------------------------------------------

  /** How many of the updates count one too many into the high half. */
  ghost function Miscounts(pieces: seq<nat>): nat
    decreases |pieces|
  {
    if pieces == [] then 0
    else
      var front, last := pieces[..|pieces| - 1], pieces[|pieces| - 1];
      Miscounts(front) + Excess(8 * Total(front) % TWO32, last)
  }

  lemma TotalLast(pieces: seq<nat>)
    requires pieces != []
    ensures Total(pieces) == Total(pieces[..|pieces| - 1]) + pieces[|pieces| - 1]
  {
    SumAppend(pieces[..|pieces| - 1], pieces[|pieces| - 1]);
    assert pieces[..|pieces| - 1] + [pieces[|pieces| - 1]] == pieces;
  }

  lemma {:induction false} RunBits(pieces: seq<nat>)
    ensures var c := CountAll(pieces);
            InWords(c) && c.low == 8 * Total(pieces) % TWO32
            && Bits(c) == (8 * Total(pieces) + TWO32 * Miscounts(pieces)) % TWO64
    decreases |pieces|
  {
    hide Counted, Excess, Total;
    if pieces == [] {
      NothingCounted();
    } else {
      var front, last := pieces[..|pieces| - 1], pieces[|pieces| - 1];
      RunBits(front);
      var c := CountAll(front);
      TotalLast(pieces);
      CountedBits(c, last);
      ModuloPlus(8 * Total(front), 8 * last);
      ModuloPlus64(8 * Total(front) + TWO32 * Miscounts(front), 8 * last + TWO32 * Excess(c.low, last));
    }
  }

  lemma NothingCounted()
    ensures Total([]) == 0 && InWords(BitCount(0, 0)) && Bits(BitCount(0, 0)) == 0
  {
  }

  lemma {:induction false} MiscountsAreLong(pieces: seq<nat>)
    ensures TWO29 * Miscounts(pieces) <= Total(pieces)
    ensures Miscounts(pieces) == 0 <==> EveryCarryAgrees(pieces)
    decreases |pieces|
  {
    hide Total;
    if pieces == [] {
      NothingCounted();
    } else {
      var front, last := pieces[..|pieces| - 1], pieces[|pieces| - 1];
      MiscountsAreLong(front);
      TotalLast(pieces);
      forall k | 0 <= k < |front|
        ensures front[..k] == pieces[..k] && front[k] == pieces[k]
      {
      }
      assert EveryCarryAgrees(pieces) <==> EveryCarryAgrees(front) && CarryAt(pieces, |front|) by {
        forall k | 0 <= k < |front|
          ensures CarryAt(pieces, k) <==> CarryAt(front, k)
        {
        }
      }
    }
  }

  /** Piece `k` is below 2^29 bytes, or makes the low half overflow. */
  ghost predicate CarryAt(pieces: seq<nat>, k: nat)
    requires k < |pieces|
  {
    CarryAgrees(8 * Total(pieces[..k]) % TWO32, pieces[k])
  }

  ghost predicate EveryCarryAgrees(pieces: seq<nat>) {
    forall k :: 0 <= k < |pieces| ==> CarryAt(pieces, k)
  }

  /** Over a whole run of updates, fewer than 2^61 bytes in all, the counter ends up right exactly when every carry agrees. */
  lemma RunCountsExactly(pieces: seq<nat>)
    requires Total(pieces) < TWO61
    ensures Right(CountAll(pieces), Total(pieces)) <==> EveryCarryAgrees(pieces)
  {
    hide CountAll, Miscounts, EveryCarryAgrees;
    RunBits(pieces);
    MiscountsAreLong(pieces);
    RightExactly(8 * Total(pieces), Miscounts(pieces));
  }

  predicate AllBelow(pieces: seq<nat>, limit: nat) {
    forall k :: 0 <= k < |pieces| ==> pieces[k] < limit
  }

  /** Pieces below 2^29 bytes are counted right, however many bytes there are in all. */
  lemma ShortPiecesCountRight(pieces: seq<nat>)
    requires AllBelow(pieces, TWO29)
    ensures EveryCarryAgrees(pieces) && Right(CountAll(pieces), Total(pieces))
  {
    hide CountAll, Miscounts, Total;
    RunBits(pieces);
    assert forall k :: 0 <= k < |pieces| ==> CarryAt(pieces, k);
    MiscountsAreLong(pieces);
  }

  // ---------------------------------------------------------------------------------------
  // The loop
  // ---------------------------------------------------------------------------------------

  /** The index `i` of the block loop before its turn `n`; a 32-bit number. */
  function LoopIndex(index: nat, n: nat): nat
    requires index < 64
  {
    (64 - index + 64 * n) % TWO32
  }

  /** The loop's condition after turn `n`, `i + blocksize <= length`. */
  predicate Continues(index: nat, length: nat, n: nat)
    requires index < 64
  {
    (LoopIndex(index, n) + 64) % TWO32 <= length
  }

  /** There is a whole block, and then the loop's condition holds at every turn. */
  ghost predicate LoopsForever(index: nat, length: nat)
    requires index < 64
  {
    64 - index <= length && forall n: nat :: Continues(index, length, n)
  }

  /** With `index` bytes waiting, an update of `length` bytes comes to an end. */
  predicate UpdateEnds(index: nat, length: nat) {
    if index == 0 then length < TWO32 - 64 else index + length < TWO32
  }

  lemma NextIndex(index: nat, n: nat, length: nat)
    requires index < 64 && UpdateEnds(index, length) && 64 - index + 64 * n <= length
    ensures LoopIndex(index, n) == 64 - index + 64 * n
    ensures (LoopIndex(index, n) + 64) % TWO32 == 64 - index + 64 * (n + 1)
  {
    var next := 64 - index + 64 * (n + 1);
    assert next + index == 64 * (n + 2);
    assert next + index <= length + index + 64;
    assert TWO32 == 64 * 0x400_0000;
    assert n + 2 <= 0x400_0000;
    assert next < TWO32;
  }

  lemma NextLargest(index: nat, n: nat)
    requires index < 64
    ensures (LoopIndex(index, n) + 64) % TWO32 <= if index == 0 then TWO32 - 64 else TWO32 - index
  {
    ModuloPlus(64 - index + 64 * n, 64);
    var x := 64 * (n + 2) - index;
    var q, r := x / TWO32, x % TWO32;
    assert x == TWO32 * q + r;
    var j := n + 2 - 0x400_0000 * q;
    assert r + index == 64 * j;
    assert r + index < 64 * 0x400_0001;
    assert j <= 0x400_0000;
  }

  /** The block loop comes to an end exactly on these lengths. */
  lemma UpdateEndsExactly(index: nat, length: nat)
    requires index < 64
    ensures UpdateEnds(index, length) <==> !LoopsForever(index, length)
  {
    hide LoopIndex;
    if UpdateEnds(index, length) && length >= 64 - index {
      var n := (length - (64 - index)) / 64;
      assert 64 * n <= length - (64 - index) < 64 * n + 64;
      NextIndex(index, n, length);
      assert !Continues(index, length, n);
    }
    if !UpdateEnds(index, length) {
      forall n: nat
        ensures Continues(index, length, n)
      {
        NextLargest(index, n);
      }
    }
  }

  /** 2^32 - 64 bytes: with nothing waiting the loop goes on for ever, with one byte waiting it ends. */
  lemma UpdateNeverEnds()
    ensures LoopsForever(0, TWO32 - 64) && !LoopsForever(1, TWO32 - 64)
  {
    hide LoopsForever;
    UpdateEndsExactly(0, TWO32 - 64);
    UpdateEndsExactly(1, TWO32 - 64);
  }
}
