/**
 SHA-1 as FIPS 180-4 defines it: sections 4.1.1, 4.2.1, 5.1.1, 5.3.1 and 6.1.2.
 */
module Sha1Standard {
  import opened Bytes

  type Word = bv32

  function Rotl(x: Word, n: bv32): Word
    requires 0 < n < 32
  {
    (x << n) | (x >> (32 - n))
  }

  function Ch(x: Word, y: Word, z: Word): Word { (x & y) ^ (!x & z) }

  function Parity(x: Word, y: Word, z: Word): Word { x ^ y ^ z }

  function Maj(x: Word, y: Word, z: Word): Word { (x & y) ^ (x & z) ^ (y & z) }

  function Mix(t: nat, x: Word, y: Word, z: Word): Word {
    if t < 20 then Ch(x, y, z) else if t < 40 then Parity(x, y, z) else if t < 60 then Maj(x, y, z) else Parity(x, y, z)
  }

  function Constant(t: nat): Word {
    if t < 20 then 0x5a82_7999 else if t < 40 then 0x6ed9_eba1 else if t < 60 then 0x8f1b_bcdc else 0xca62_c1d6
  }

  /** A sixteen-word message block. */
  type Block = s: seq<Word> | |s| == 16 witness seq(16, _ => 0)

  function Expand(x: Word, y: Word, z: Word, w: Word): Word {
    Rotl(x ^ y ^ z ^ w, 1)
  }

  /** Word `t` of the message schedule. */
  function Schedule(m: Block, t: nat): Word {
    if t < 16 then m[t]
    else Expand(Schedule(m, t - 3), Schedule(m, t - 8), Schedule(m, t - 14), Schedule(m, t - 16))
  }

  datatype Registers = Registers(a: Word, b: Word, c: Word, d: Word, e: Word)

  function Temp(rotated: Word, f: Word, e: Word, k: Word, w: Word): Word {
    rotated + f + e + k + w
  }

  function Round(r: Registers, f: Word, k: Word, w: Word): Registers {
    Registers(Temp(Rotl(r.a, 5), f, r.e, k, w), r.a, Rotl(r.b, 30), r.c, r.d)
  }

  /** The working variables after `t` rounds. */
  function Rounds(start: Registers, m: Block, t: nat): Registers {
    if t == 0 then start
    else
      var r := Rounds(start, m, t - 1);
      Round(r, Mix(t - 1, r.b, r.c, r.d), Constant(t - 1), Schedule(m, t - 1))
  }

  function AddRegisters(r: Registers, s: Registers): Registers {
    Registers(r.a + s.a, r.b + s.b, r.c + s.c, r.d + s.d, r.e + s.e)
  }

  /** One application of the compression function. */
  function Compress(h: Registers, m: Block): Registers {
    AddRegisters(h, Rounds(h, m, 80))
  }

  function BigEndian(b0: byte, b1: byte, b2: byte, b3: byte): Word {
    ((b0 as Word) << 24) | ((b1 as Word) << 16) | ((b2 as Word) << 8) | (b3 as Word)
  }

  function WordsOf(bytes: seq<byte>): Block
    requires |bytes| == 64
  {
    seq(16, i requires 0 <= i < 16 => BigEndian(bytes[4 * i], bytes[4 * i + 1], bytes[4 * i + 2], bytes[4 * i + 3]))
  }

  /** The initial hash value (section 5.3.1). */
  function Initial(): Registers {
    Registers(0x6745_2301, 0xefcd_ab89, 0x98ba_dcfe, 0x1032_5476, 0xc3d2_e1f0)
  }

  predicate WholeBlocks(data: seq<byte>) {
    |data| % 64 == 0
  }

  /** The hash value after a whole number of blocks. */
  function HashBlocks(h: Registers, data: seq<byte>): Registers
    requires WholeBlocks(data)
    decreases |data|
  {
    if data == [] then h else HashBlocks(Compress(h, WordsOf(data[..64])), data[64..])
  }

  /** Messages are shorter than 2^64 bits. */
  predicate Short(n: nat) {
    8 * n < 0x1_0000_0000_0000_0000
  }

  /** The eight bits of `x` starting at bit `from`. */
  function Octet(x: bv64, from: bv64): byte
    requires from <= 56
  {
    ((x >> from) & 0xff) as byte
  }

  /** The length in bits of a message of `n` bytes. */
  function BitLength(n: nat): bv64
    requires Short(n)
  {
    (8 * n) as bv64
  }

  /** The length in bits, as eight bytes, most significant first. */
  function LengthBytes(n: nat): (s: seq<byte>)
    requires Short(n)
    ensures |s| == 8
  {
    var bits := BitLength(n);
    [Octet(bits, 56), Octet(bits, 48), Octet(bits, 40), Octet(bits, 32),
     Octet(bits, 24), Octet(bits, 16), Octet(bits, 8), Octet(bits, 0)]
  }

  /** How many zero bytes follow the 0x80 byte: the fewest that make the length fit. */
  function Zeros(n: nat): (k: nat)
    ensures (n + 1 + k + 8) % 64 == 0 && k < 64
  {
    (119 - n % 64) % 64
  }

  /** The padded message (section 5.1.1). */
  function Pad(message: seq<byte>): (padded: seq<byte>)
    requires Short(|message|)
    ensures WholeBlocks(padded)
  {
    message + [0x80] + seq(Zeros(|message|), _ => 0) + LengthBytes(|message|)
  }

  function WordBytes(w: Word): (s: seq<byte>)
    ensures |s| == 4
  {
    [((w >> 24) & 0xff) as byte, ((w >> 16) & 0xff) as byte, ((w >> 8) & 0xff) as byte, (w & 0xff) as byte]
  }

  function DigestBytes(h: Registers): (s: seq<byte>)
    ensures |s| == 20
  {
    WordBytes(h.a) + WordBytes(h.b) + WordBytes(h.c) + WordBytes(h.d) + WordBytes(h.e)
  }

  /** The SHA-1 digest of a message. */
  function Sha1(message: seq<byte>): (digest: seq<byte>)
    requires Short(|message|)
    ensures |digest| == 20
  {
    DigestBytes(HashBlocks(Initial(), Pad(message)))
  }

  lemma {:induction false} HashBlocksConcat(h: Registers, a: seq<byte>, b: seq<byte>)
    requires WholeBlocks(a) && WholeBlocks(b)
    ensures HashBlocks(h, a + b) == HashBlocks(HashBlocks(h, a), b)
    decreases |a|
  {
    hide Compress;
    if a == [] {
      assert a + b == b;
    } else {
      assert (a + b)[..64] == a[..64] && (a + b)[64..] == a[64..] + b;
      HashBlocksConcat(Compress(h, WordsOf(a[..64])), a[64..], b);
    }
  }

  lemma HashOneBlock(h: Registers, block: seq<byte>)
    requires |block| == 64
    ensures HashBlocks(h, block) == Compress(h, WordsOf(block))
  {
    hide Compress;
    assert block[..64] == block && block[64..] == [];
  }
}

/**
 The SHA-1 object (src/tbx/hash/sha1.cpp, src/tbx/hash/hash.h): an unrolled compression function
 over a circular sixteen-word block, with rotated registers, behind a partial-block buffer.
 */
module Sha1Digester {
  import opened Bytes
  import opened Sha1Standard

  // ---------------------------------------------------------------------------------------
  // The unrolled rounds
  // ---------------------------------------------------------------------------------------

  function F(w: Word, x: Word, y: Word): Word { (w & (x ^ y)) ^ y }

  function G(w: Word, x: Word, y: Word): Word { w ^ x ^ y }

  function H(w: Word, x: Word, y: Word): Word { ((w | x) & y) | (w & x) }

  lemma FIsCh(w: Word, x: Word, y: Word)
    ensures F(w, x, y) == Ch(w, x, y)
  {
    assert (w & (x ^ y)) ^ y == (w & x) ^ (!w & y);
  }

  lemma HIsMaj(w: Word, x: Word, y: Word)
    ensures H(w, x, y) == Maj(w, x, y)
  {
    assert ((w | x) & y) | (w & x) == (w & x) ^ (w & y) ^ (x & y);
  }

  /** Where a compression started, for stating how far it has come. */
  datatype Run = Run(start: Registers, m: Block)

  /** The circular block holds the sixteen most recent words of the schedule. */
  ghost predicate Window(block: seq<Word>, m: Block, t: nat) {
    |block| == 16 &&
    var oldest := if t < 16 then 0 else t - 16;
    forall k :: oldest <= k < oldest + 16 ==> block[k % 16] == Schedule(m, k)
  }

  /** The registers, in the order the next call names them, are those after `t` rounds. */
  ghost predicate Reached(run: Run, t: nat, v: Word, w: Word, x: Word, y: Word, z: Word) {
    Registers(v, w, x, y, z) == Rounds(run.start, run.m, t)
  }

  /** What the source adds to a register: its `+=` of a four-term sum. */
  function Accumulated(z: Word, f: Word, word: Word, magic: Word, rotated: Word): Word {
    z + (f + word + magic + rotated)
  }

  lemma AddReorders(z: Word, f: Word, word: Word, magic: Word, rotated: Word)
    ensures Accumulated(z, f, word, magic, rotated) == Temp(rotated, f, z, magic, word)
  {
  }

  /** The common part of every round (the source's `rf`). */
  method Rf(f: Word, magic: Word, word: Word, v: Word, w: Word, x: Word, y: Word, z: Word) returns (w': Word, z': Word)
    ensures Registers(z', v, w', x, y) == Round(Registers(v, w, x, y, z), f, magic, word)
  {
    hide Rotl, Temp, Accumulated;
    AddReorders(z, f, word, magic, Rotl(v, 5));
    z' := Accumulated(z, f, word, magic, Rotl(v, 5));
    w' := Rotl(w, 30);
  }

  /** The next schedule word, computed from four words of the circular block. */
  method Blk(block: array<Word>, i: nat, ghost m: Block, ghost t: nat)
    requires block.Length == 16 && t >= 16 && i == t % 16 && Window(block[..], m, t)
    modifies block
    ensures Window(block[..], m, t + 1) && block[i] == Schedule(m, t)
  {
    hide Expand, Schedule, Window;
    ghost var was := block[..];
    WordBack(was, m, t, 3);
    WordBack(was, m, t, 8);
    WordBack(was, m, t, 14);
    WordBack(was, m, t, 16);
    ScheduleUnfolds(m, t);
    var w3, w8, w14 := block[(i + 13) % 16], block[(i + 8) % 16], block[(i + 2) % 16];
    assert w3 == was[(i + 13) % 16] && w8 == was[(i + 8) % 16] && w14 == was[(i + 2) % 16];
    block[i] := Expand(w3, w8, w14, block[i]);
    assert block[..] == was[i := Schedule(m, t)];
    WindowMoves(was, m, t);
  }

  lemma ScheduleUnfolds(m: Block, t: nat)
    requires t >= 16
    ensures Schedule(m, t) == Expand(Schedule(m, t - 3), Schedule(m, t - 8), Schedule(m, t - 14), Schedule(m, t - 16))
  {
    hide Expand;
  }

  lemma WordBack(block: seq<Word>, m: Block, t: nat, back: nat)
    requires 0 < back <= 16 <= t && Window(block, m, t)
    ensures |block| == 16 && block[(t % 16 + (16 - back)) % 16] == Schedule(m, t - back)
  {
    hide Schedule;
    CircularIndex(t, back);
    assert block[(t - back) % 16] == Schedule(m, t - back);
  }

  lemma WindowMoves(block: seq<Word>, m: Block, t: nat)
    requires t >= 16 && Window(block, m, t)
    ensures Window(block[t % 16 := Schedule(m, t)], m, t + 1)
  {
    hide Schedule;
    forall k | t - 15 <= k < t + 1
      ensures block[t % 16 := Schedule(m, t)][k % 16] == Schedule(m, k)
    {
      if k < t {
        DifferentSlots(k, t);
      }
    }
  }

  lemma ModIs(x: int, q: int, r: int)
    requires x == 16 * q + r && 0 <= r < 16
    ensures x % 16 == r
  {
  }

  lemma CircularIndex(t: nat, back: nat)
    requires 0 < back <= 16 <= t
    ensures (t % 16 + (16 - back)) % 16 == (t - back) % 16
  {
    var q, i := t / 16, t % 16;
    if i >= back {
      ModIs(i + 16 - back, 1, i - back);
      ModIs(t - back, q, i - back);
    } else {
      ModIs(i + 16 - back, 0, i + 16 - back);
      ModIs(t - back, q - 1, i + 16 - back);
    }
  }

  lemma DifferentSlots(k: nat, t: nat)
    requires k < t < k + 16
    ensures k % 16 != t % 16
  {
  }

  /** Before round 16 a round reads its word from the block as it was given. */
  method R0(block: array<Word>, v: Word, w: Word, x: Word, y: Word, z: Word, i: nat, ghost run: Run, ghost t: nat)
    returns (w': Word, z': Word)
    requires block.Length == 16 && i == t < 16 && Window(block[..], run.m, t) && Reached(run, t, v, w, x, y, z)
    ensures Window(block[..], run.m, t + 1) && Reached(run, t + 1, z', v, w', x, y)
  {
    hide F, Ch, Round;
    FIsCh(w, x, y);
    assert block[..][t % 16] == Schedule(run.m, t);
    w', z' := Rf(F(w, x, y), 0x5a82_7999, block[i], v, w, x, y, z);
  }

  method R1(block: array<Word>, v: Word, w: Word, x: Word, y: Word, z: Word, i: nat, ghost run: Run, ghost t: nat)
    returns (w': Word, z': Word)
    requires block.Length == 16 && 16 <= t < 20 && i == t % 16
    requires Window(block[..], run.m, t) && Reached(run, t, v, w, x, y, z)
    modifies block
    ensures Window(block[..], run.m, t + 1) && Reached(run, t + 1, z', v, w', x, y)
  {
    hide F, Ch, Round, Window;
    FIsCh(w, x, y);
    Blk(block, i, run.m, t);
    w', z' := Rf(F(w, x, y), 0x5a82_7999, block[i], v, w, x, y, z);
  }

  method R2(block: array<Word>, v: Word, w: Word, x: Word, y: Word, z: Word, i: nat, ghost run: Run, ghost t: nat)
    returns (w': Word, z': Word)
    requires block.Length == 16 && 20 <= t < 40 && i == t % 16
    requires Window(block[..], run.m, t) && Reached(run, t, v, w, x, y, z)
    modifies block
    ensures Window(block[..], run.m, t + 1) && Reached(run, t + 1, z', v, w', x, y)
  {
    hide Expand, Round, Window;
    Blk(block, i, run.m, t);
    w', z' := Rf(G(w, x, y), 0x6ed9_eba1, block[i], v, w, x, y, z);
  }

  method R3(block: array<Word>, v: Word, w: Word, x: Word, y: Word, z: Word, i: nat, ghost run: Run, ghost t: nat)
    returns (w': Word, z': Word)
    requires block.Length == 16 && 40 <= t < 60 && i == t % 16
    requires Window(block[..], run.m, t) && Reached(run, t, v, w, x, y, z)
    modifies block
    ensures Window(block[..], run.m, t + 1) && Reached(run, t + 1, z', v, w', x, y)
  {
    hide H, Maj, Round, Window;
    HIsMaj(w, x, y);
    Blk(block, i, run.m, t);
    w', z' := Rf(H(w, x, y), 0x8f1b_bcdc, block[i], v, w, x, y, z);
  }

  method R4(block: array<Word>, v: Word, w: Word, x: Word, y: Word, z: Word, i: nat, ghost run: Run, ghost t: nat)
    returns (w': Word, z': Word)
    requires block.Length == 16 && 60 <= t < 80 && i == t % 16
    requires Window(block[..], run.m, t) && Reached(run, t, v, w, x, y, z)
    modifies block
    ensures Window(block[..], run.m, t + 1) && Reached(run, t + 1, z', v, w', x, y)
  {
    hide Expand, Round, Window;
    Blk(block, i, run.m, t);
    w', z' := Rf(G(w, x, y), 0xca62_c1d6, block[i], v, w, x, y, z);
  }

  class Sha1Object {
    var digest: Registers
    /** The bytes of the current block that did not fill it yet. */
    const buffer: array<byte>
    var bufferSize: nat
    var transforms: nat
    /** Everything given to `Update` so far. */
    ghost var message: seq<byte>

    // The unrolled rounds, twenty to a method: after every fifth call the registers are back in order.

    static method FirstTwenty(block: array<Word>, a0: Word, b0: Word, c0: Word, d0: Word, e0: Word, ghost run: Run)
      returns (a: Word, b: Word, c: Word, d: Word, e: Word)
      requires block.Length == 16 && Window(block[..], run.m, 0) && Reached(run, 0, a0, b0, c0, d0, e0)
      modifies block
      ensures Window(block[..], run.m, 20) && Reached(run, 20, a, b, c, d, e)
    {
      hide Window, Reached;
      a, b, c, d, e := a0, b0, c0, d0, e0;
      b, e := R0(block, a, b, c, d, e,  0, run, 0);
      a, d := R0(block, e, a, b, c, d,  1, run, 1);
      e, c := R0(block, d, e, a, b, c,  2, run, 2);
      d, b := R0(block, c, d, e, a, b,  3, run, 3);
      c, a := R0(block, b, c, d, e, a,  4, run, 4);
      b, e := R0(block, a, b, c, d, e,  5, run, 5);
      a, d := R0(block, e, a, b, c, d,  6, run, 6);
      e, c := R0(block, d, e, a, b, c,  7, run, 7);
      d, b := R0(block, c, d, e, a, b,  8, run, 8);
      c, a := R0(block, b, c, d, e, a,  9, run, 9);
      b, e := R0(block, a, b, c, d, e, 10, run, 10);
      a, d := R0(block, e, a, b, c, d, 11, run, 11);
      e, c := R0(block, d, e, a, b, c, 12, run, 12);
      d, b := R0(block, c, d, e, a, b, 13, run, 13);
      c, a := R0(block, b, c, d, e, a, 14, run, 14);
      b, e := R0(block, a, b, c, d, e, 15, run, 15);
      a, d := R1(block, e, a, b, c, d,  0, run, 16);
      e, c := R1(block, d, e, a, b, c,  1, run, 17);
      d, b := R1(block, c, d, e, a, b,  2, run, 18);
      c, a := R1(block, b, c, d, e, a,  3, run, 19);
    }

    static method SecondTwenty(block: array<Word>, a0: Word, b0: Word, c0: Word, d0: Word, e0: Word, ghost run: Run)
      returns (a: Word, b: Word, c: Word, d: Word, e: Word)
      requires block.Length == 16 && Window(block[..], run.m, 20) && Reached(run, 20, a0, b0, c0, d0, e0)
      modifies block
      ensures Window(block[..], run.m, 40) && Reached(run, 40, a, b, c, d, e)
    {
      hide Window, Reached;
      a, b, c, d, e := a0, b0, c0, d0, e0;
      b, e := R2(block, a, b, c, d, e,  4, run, 20);
      a, d := R2(block, e, a, b, c, d,  5, run, 21);
      e, c := R2(block, d, e, a, b, c,  6, run, 22);
      d, b := R2(block, c, d, e, a, b,  7, run, 23);
      c, a := R2(block, b, c, d, e, a,  8, run, 24);
      b, e := R2(block, a, b, c, d, e,  9, run, 25);
      a, d := R2(block, e, a, b, c, d, 10, run, 26);
      e, c := R2(block, d, e, a, b, c, 11, run, 27);
      d, b := R2(block, c, d, e, a, b, 12, run, 28);
      c, a := R2(block, b, c, d, e, a, 13, run, 29);
      b, e := R2(block, a, b, c, d, e, 14, run, 30);
      a, d := R2(block, e, a, b, c, d, 15, run, 31);
      e, c := R2(block, d, e, a, b, c,  0, run, 32);
      d, b := R2(block, c, d, e, a, b,  1, run, 33);
      c, a := R2(block, b, c, d, e, a,  2, run, 34);
      b, e := R2(block, a, b, c, d, e,  3, run, 35);
      a, d := R2(block, e, a, b, c, d,  4, run, 36);
      e, c := R2(block, d, e, a, b, c,  5, run, 37);
      d, b := R2(block, c, d, e, a, b,  6, run, 38);
      c, a := R2(block, b, c, d, e, a,  7, run, 39);
    }

    static method ThirdTwenty(block: array<Word>, a0: Word, b0: Word, c0: Word, d0: Word, e0: Word, ghost run: Run)
      returns (a: Word, b: Word, c: Word, d: Word, e: Word)
      requires block.Length == 16 && Window(block[..], run.m, 40) && Reached(run, 40, a0, b0, c0, d0, e0)
      modifies block
      ensures Window(block[..], run.m, 60) && Reached(run, 60, a, b, c, d, e)
    {
      hide Window, Reached;
      a, b, c, d, e := a0, b0, c0, d0, e0;
      b, e := R3(block, a, b, c, d, e,  8, run, 40);
      a, d := R3(block, e, a, b, c, d,  9, run, 41);
      e, c := R3(block, d, e, a, b, c, 10, run, 42);
      d, b := R3(block, c, d, e, a, b, 11, run, 43);
      c, a := R3(block, b, c, d, e, a, 12, run, 44);
      b, e := R3(block, a, b, c, d, e, 13, run, 45);
      a, d := R3(block, e, a, b, c, d, 14, run, 46);
      e, c := R3(block, d, e, a, b, c, 15, run, 47);
      d, b := R3(block, c, d, e, a, b,  0, run, 48);
      c, a := R3(block, b, c, d, e, a,  1, run, 49);
      b, e := R3(block, a, b, c, d, e,  2, run, 50);
      a, d := R3(block, e, a, b, c, d,  3, run, 51);
      e, c := R3(block, d, e, a, b, c,  4, run, 52);
      d, b := R3(block, c, d, e, a, b,  5, run, 53);
      c, a := R3(block, b, c, d, e, a,  6, run, 54);
      b, e := R3(block, a, b, c, d, e,  7, run, 55);
      a, d := R3(block, e, a, b, c, d,  8, run, 56);
      e, c := R3(block, d, e, a, b, c,  9, run, 57);
      d, b := R3(block, c, d, e, a, b, 10, run, 58);
      c, a := R3(block, b, c, d, e, a, 11, run, 59);
    }

    static method LastTwenty(block: array<Word>, a0: Word, b0: Word, c0: Word, d0: Word, e0: Word, ghost run: Run)
      returns (a: Word, b: Word, c: Word, d: Word, e: Word)
      requires block.Length == 16 && Window(block[..], run.m, 60) && Reached(run, 60, a0, b0, c0, d0, e0)
      modifies block
      ensures Window(block[..], run.m, 80) && Reached(run, 80, a, b, c, d, e)
    {
      hide Window, Reached;
      a, b, c, d, e := a0, b0, c0, d0, e0;
      b, e := R4(block, a, b, c, d, e, 12, run, 60);
      a, d := R4(block, e, a, b, c, d, 13, run, 61);
      e, c := R4(block, d, e, a, b, c, 14, run, 62);
      d, b := R4(block, c, d, e, a, b, 15, run, 63);
      c, a := R4(block, b, c, d, e, a,  0, run, 64);
      b, e := R4(block, a, b, c, d, e,  1, run, 65);
      a, d := R4(block, e, a, b, c, d,  2, run, 66);
      e, c := R4(block, d, e, a, b, c,  3, run, 67);
      d, b := R4(block, c, d, e, a, b,  4, run, 68);
      c, a := R4(block, b, c, d, e, a,  5, run, 69);
      b, e := R4(block, a, b, c, d, e,  6, run, 70);
      a, d := R4(block, e, a, b, c, d,  7, run, 71);
      e, c := R4(block, d, e, a, b, c,  8, run, 72);
      d, b := R4(block, c, d, e, a, b,  9, run, 73);
      c, a := R4(block, b, c, d, e, a, 10, run, 74);
      b, e := R4(block, a, b, c, d, e, 11, run, 75);
      a, d := R4(block, e, a, b, c, d, 12, run, 76);
      e, c := R4(block, d, e, a, b, c, 13, run, 77);
      d, b := R4(block, c, d, e, a, b, 14, run, 78);
      c, a := R4(block, b, c, d, e, a, 15, run, 79);
    }

    method Transform(block: array<Word>)
      requires block.Length == 16
      modifies this`digest, this`transforms, block
      ensures digest == Compress(old(digest), old(block[..])) && transforms == old(transforms) + 1
    {
      hide Rounds, Window, Schedule, Reached, AddRegisters;
      ghost var run := Run(digest, block[..]);
      var a, b, c, d, e := digest.a, digest.b, digest.c, digest.d, digest.e;
      Start(run);
      a, b, c, d, e := FirstTwenty(block, a, b, c, d, e, run);
      a, b, c, d, e := SecondTwenty(block, a, b, c, d, e, run);
      a, b, c, d, e := ThirdTwenty(block, a, b, c, d, e, run);
      a, b, c, d, e := LastTwenty(block, a, b, c, d, e, run);
      Finish(run, a, b, c, d, e);
      digest := AddRegisters(digest, Registers(a, b, c, d, e));
      transforms := transforms + 1;
    }

    static method BufferToBlock(bytes: seq<byte>, block: array<Word>)
      requires |bytes| == 64 && block.Length == 16
      modifies block
      ensures block[..] == WordsOf(bytes)
    {
      hide BigEndian;
      for i := 0 to 16
        invariant forall k :: 0 <= k < i ==> block[k] == BigEndian(bytes[4 * k], bytes[4 * k + 1], bytes[4 * k + 2], bytes[4 * k + 3])
      {
        block[i] := BigEndian(bytes[4 * i], bytes[4 * i + 1], bytes[4 * i + 2], bytes[4 * i + 3]);
      }
    }

    /** `data` starts at place `at` of the partial block; the bytes before it stay. */
    method Store(at: nat, data: seq<byte>)
      requires buffer.Length == 64 && at + |data| <= 64
      modifies buffer
      ensures buffer[..at] == old(buffer[..at]) && buffer[at..at + |data|] == data
    {
      for k := 0 to |data|
        invariant buffer[..at] == old(buffer[..at]) && buffer[at..at + k] == data[..k]
      {
        buffer[at + k] := data[k];
      }
    }

    /** The object has taken in `m`: whole blocks are hashed, the rest waits in the buffer. */
    ghost predicate Absorbed(m: seq<byte>)
      reads this`digest, this`bufferSize, this`transforms, buffer
    {
      buffer.Length == 64 && bufferSize < 64 && 64 * transforms + bufferSize == |m|
      && digest == HashBlocks(Initial(), m[..64 * transforms])
      && buffer[..bufferSize] == m[64 * transforms..]
    }

    ghost predicate Valid()
      reads this, buffer
    {
      Absorbed(message)
    }

    constructor ()
      ensures Valid() && message == [] && fresh(buffer)
    {
      digest := Initial();
      bufferSize := 0;
      transforms := 0;
      message := [];
      buffer := new byte[64];
    }

    /** A full block is in `block`: hashing it advances the absorbed message by 64 bytes. */
    method HashBlock(block: array<Word>, ghost m: seq<byte>, ghost bytes: seq<byte>)
      requires block.Length == 16 && buffer.Length == 64 && bufferSize == 0
      requires |m| == 64 * transforms && |bytes| == 64 && block[..] == WordsOf(bytes)
      requires digest == HashBlocks(Initial(), m)
      modifies this`digest, this`transforms, block
      ensures Absorbed(m + bytes) && transforms == old(transforms) + 1
    {
      hide WordsOf, Compress, HashBlocks;
      HashBlocksConcat(Initial(), m, bytes);
      HashOneBlock(digest, bytes);
      Transform(block);
      assert (m + bytes)[..64 * transforms] == m + bytes;
    }

    /** One turn of the update loop: `fill` completes the current block. */
    method Complete(fill: seq<byte>, block: array<Word>, ghost m: seq<byte>)
      requires Absorbed(m) && |fill| == 64 - bufferSize && block.Length == 16
      modifies this`digest, this`transforms, this`bufferSize, buffer, block
      ensures Absorbed(m + fill) && bufferSize == 0
    {
      hide WordsOf, Compress, HashBlocks;
      ghost var hashed, bytes := m[..64 * transforms], m[64 * transforms..] + fill;
      if bufferSize == 0 {
        assert bytes == fill;
        BufferToBlock(fill, block);
      } else {
        Store(bufferSize, fill);
        assert buffer[..] == buffer[..bufferSize] + buffer[bufferSize..64];
        BufferToBlock(buffer[..], block);
        bufferSize := 0;
      }
      HashBlock(block, hashed, bytes);
      assert hashed + bytes == m + fill;
    }

    /** Fewer bytes than complete the block wait in the buffer. */
    method Keep(rest: seq<byte>, ghost m: seq<byte>)
      requires Absorbed(m) && |rest| < 64 - bufferSize
      modifies this`bufferSize, buffer
      ensures Absorbed(m + rest)
    {
      hide HashBlocks;
      Store(bufferSize, rest);
      bufferSize := bufferSize + |rest|;
      assert (m + rest)[..64 * transforms] == m[..64 * transforms];
      assert (m + rest)[64 * transforms..] == m[64 * transforms..] + rest;
      assert buffer[..bufferSize] == old(buffer[..bufferSize]) + rest;
    }

    method Update(data: seq<byte>)
      requires Valid()
      modifies this, buffer
      ensures Valid() && message == old(message) + data
    {
      hide Absorbed;
      var block := new Word[16];
      var length := |data|;
      var pos := 0;
      assert message + data[..0] == message;
      Room(message);
      var toFill := 64 - bufferSize;
      while length >= toFill
        invariant pos + length == |data| && 0 <= length && 1 <= toFill == 64 - bufferSize
        invariant message == old(message) && Absorbed(message + data[..pos])
        decreases length
      {
        Complete(data[pos..pos + toFill], block, message + data[..pos]);
        assert (message + data[..pos]) + data[pos..pos + toFill] == message + data[..pos + toFill];
        length := length - toFill;
        pos := pos + toFill;
        toFill := 64;
      }
      if length > 0 {
        Keep(data[pos..], message + data[..pos]);
      }
      assert (message + data[..pos]) + data[pos..] == message + data;
      assert length == 0 ==> message + data[..pos] == message + data;
      message := message + data;
    }

    lemma Room(m: seq<byte>)
      requires Absorbed(m)
      ensures bufferSize < 64
    {
    }

    /**
     The digest of everything absorbed. The object is used up: its buffer now holds padding.
     */
    method Finalize() returns (result: seq<byte>)
      requires Valid() && Short(|message|)
      modifies this`digest, this`bufferSize, this`transforms, buffer
      ensures result == Sha1(message)
    {
      hide WordsOf, Compress, HashBlocks, LengthBytes, Pad, Initial, DigestBytes, Tail, WholeBlocks;
      var n := transforms * 64 + bufferSize;
      var block := new Word[16];
      ghost var whole, waiting, before := message[..64 * transforms], message[64 * transforms..], digest;
      assert WholeBlocks(whole) && n == |message| by { WholePrefix(message, transforms); }
      buffer[bufferSize] := 0x80;
      bufferSize := bufferSize + 1;
      ghost var first: seq<byte> := [];
      HashNothing(before);
      if bufferSize > 56 {
        first := waiting + [0x80] + seq(63 - |waiting|, _ => 0);
        FinishBlock(block, first);
        bufferSize := 0;
      }
      ghost var kept := buffer[..bufferSize];
      Clear(bufferSize, 56);
      ghost var last := kept + seq(56 - |kept|, _ => 0) + LengthBytes(n);
      FinishLength(n, block, last);
      TailParts(waiting, n, first, kept, last);
      FinishedDigest(message, whole, waiting, first, last);
      result := DigestBytes(digest);
    }

    /** No room for the length: the rest of the block is cleared and hashed. */
    method FinishBlock(block: array<Word>, ghost full: seq<byte>)
      requires buffer.Length == 64 && bufferSize <= 64 && block.Length == 16
      requires full == buffer[..bufferSize] + seq(64 - bufferSize, _ => 0)
      modifies this`digest, this`transforms, buffer, block
      ensures digest == HashBlocks(old(digest), full)
    {
      hide WordsOf, Compress, HashBlocks;
      Clear(bufferSize, 64);
      assert buffer[..] == full;
      BufferToBlock(buffer[..], block);
      HashOneBlock(digest, full);
      Transform(block);
    }

    /** The last block: its last two words become the length in bits. */
    method FinishLength(n: nat, block: array<Word>, ghost last: seq<byte>)
      requires buffer.Length == 64 && block.Length == 16 && Short(n)
      requires last == buffer[..56] + LengthBytes(n)
      modifies this`digest, this`transforms, block
      ensures digest == HashBlocks(old(digest), last)
    {
      hide WordsOf, Compress, HashBlocks, LengthBytes, BitLength;
      var length := BitLength(n);
      BufferToBlock(buffer[..], block);
      block[15] := (length & 0xffff_ffff) as Word;
      block[14] := ((length >> 32) & 0xffff_ffff) as Word;
      LengthIsLast(buffer[..], n);
      assert buffer[..][..56] == buffer[..56];
      HashOneBlock(digest, last);
      Transform(block);
    }

    method Clear(from: nat, to: nat)
      requires buffer.Length == 64 && from <= to <= 64
      modifies buffer
      ensures buffer[..from] == old(buffer[..from]) && forall k :: from <= k < to ==> buffer[k] == 0
    {
      for k := from to to
        invariant buffer[..from] == old(buffer[..from]) && forall j :: from <= j < k ==> buffer[j] == 0
      {
        buffer[k] := 0;
      }
    }
  }

  lemma WholePrefix(m: seq<byte>, n: nat)
    requires 64 * n <= |m|
    ensures WholeBlocks(m[..64 * n])
  {
  }

  lemma HashNothing(h: Registers)
    ensures HashBlocks(h, []) == h
  {
  }

  /** What follows the whole blocks in the padded message. */
  ghost function Tail(waiting: seq<byte>, n: nat): (tail: seq<byte>)
    requires Short(n) && |waiting| < 64
    ensures WholeBlocks(tail)
  {
    var zeros := if |waiting| < 56 then 55 - |waiting| else 119 - |waiting|;
    waiting + [0x80] + seq(zeros, _ => 0) + LengthBytes(n)
  }

  lemma PadSplits(whole: seq<byte>, waiting: seq<byte>)
    requires WholeBlocks(whole) && |waiting| < 64 && Short(|whole + waiting|)
    ensures Pad(whole + waiting) == whole + Tail(waiting, |whole + waiting|)
  {
    hide LengthBytes;
    assert |whole + waiting| % 64 == |waiting|;
  }

  /** With the 0x80 byte, the waiting bytes may or may not leave room for the length. */
  lemma TailParts(waiting: seq<byte>, n: nat, first: seq<byte>, kept: seq<byte>, last: seq<byte>)
    requires Short(n) && |waiting| < 64
    requires if |waiting| < 56 then first == [] && kept == waiting + [0x80]
             else kept == [] && first == waiting + [0x80] + seq(63 - |waiting|, _ => 0)
    requires last == kept + seq(56 - |kept|, _ => 0) + LengthBytes(n)
    ensures first + last == Tail(waiting, n) && WholeBlocks(first) && WholeBlocks(last)
  {
    hide LengthBytes;
  }

  lemma FinishedDigest(m: seq<byte>, whole: seq<byte>, waiting: seq<byte>, first: seq<byte>, last: seq<byte>)
    requires Short(|m|) && m == whole + waiting && WholeBlocks(whole) && |waiting| < 64
    requires WholeBlocks(first) && WholeBlocks(last) && first + last == Tail(waiting, |m|)
    ensures HashBlocks(HashBlocks(HashBlocks(Initial(), whole), first), last) == HashBlocks(Initial(), Pad(m))
  {
    hide HashBlocks, Pad, Tail, Initial, WholeBlocks;
    PadSplits(whole, waiting);
    ThreeParts(Initial(), whole, first, last, Tail(waiting, |m|), Pad(m));
  }

  lemma ThreeParts(h: Registers, whole: seq<byte>, first: seq<byte>, last: seq<byte>, rest: seq<byte>, all: seq<byte>)
    requires WholeBlocks(whole) && WholeBlocks(first) && WholeBlocks(last) && WholeBlocks(rest) && WholeBlocks(all)
    requires rest == first + last && all == whole + rest
    ensures HashBlocks(HashBlocks(HashBlocks(h, whole), first), last) == HashBlocks(h, all)
  {
    hide HashBlocks, WholeBlocks;
    HashBlocksConcat(HashBlocks(h, whole), first, last);
    HashBlocksConcat(h, whole, rest);
  }

  /** Overwriting the last two words is having the length in the last eight bytes. */
  lemma LengthIsLast(bytes: seq<byte>, n: nat)
    requires |bytes| == 64 && Short(n)
    ensures var length := BitLength(n);
            WordsOf(bytes)[15 := (length & 0xffff_ffff) as Word][14 := ((length >> 32) & 0xffff_ffff) as Word]
            == WordsOf(bytes[..56] + LengthBytes(n))
  {
    hide BigEndian, LengthBytes, BitLength;
    var last := bytes[..56] + LengthBytes(n);
    LengthWords(n);
    forall i | 0 <= i < 14
      ensures WordsOf(last)[i] == WordsOf(bytes)[i]
    {
      assert last[4 * i] == bytes[4 * i] && last[4 * i + 1] == bytes[4 * i + 1]
          && last[4 * i + 2] == bytes[4 * i + 2] && last[4 * i + 3] == bytes[4 * i + 3];
    }
    assert last[56..] == LengthBytes(n);
    assert last[56] == LengthBytes(n)[0] && last[57] == LengthBytes(n)[1] && last[58] == LengthBytes(n)[2] && last[59] == LengthBytes(n)[3];
    assert last[60] == LengthBytes(n)[4] && last[61] == LengthBytes(n)[5] && last[62] == LengthBytes(n)[6] && last[63] == LengthBytes(n)[7];
  }

  lemma LengthWords(n: nat)
    requires Short(n)
    ensures var length := BitLength(n); var s := LengthBytes(n);
            BigEndian(s[0], s[1], s[2], s[3]) == ((length >> 32) & 0xffff_ffff) as Word
            && BigEndian(s[4], s[5], s[6], s[7]) == (length & 0xffff_ffff) as Word
  {
    hide BigEndian, Octet, BitLength;
    HalvesOfLength(BitLength(n));
  }

  lemma HalvesOfLength(bits: bv64)
    ensures BigEndian(Octet(bits, 56), Octet(bits, 48), Octet(bits, 40), Octet(bits, 32)) == ((bits >> 32) & 0xffff_ffff) as Word
    ensures BigEndian(Octet(bits, 24), Octet(bits, 16), Octet(bits, 8), Octet(bits, 0)) == (bits & 0xffff_ffff) as Word
  {
  }

  lemma Start(run: Run)
    ensures var r := run.start; Reached(run, 0, r.a, r.b, r.c, r.d, r.e) && Window(run.m, run.m, 0)
  {
  }

  lemma Finish(run: Run, a: Word, b: Word, c: Word, d: Word, e: Word)
    requires Reached(run, 80, a, b, c, d, e)
    ensures Compress(run.start, run.m) == AddRegisters(run.start, Registers(a, b, c, d, e))
  {
    hide Rounds, AddRegisters;
  }
}
