/** MD5 as RFC 1321 defines it: sections 3.1 to 3.5. */
module Md5Standard {
  import opened Bytes

  type Word = bv32

  function Rotl(x: Word, n: bv32): Word
    requires 0 < n < 32
  {
    (x << n) | (x >> (32 - n))
  }

  // The four auxiliary functions (section 3.4).

  function F(x: Word, y: Word, z: Word): Word { (x & y) | (!x & z) }

  function G(x: Word, y: Word, z: Word): Word { (x & z) | (y & !z) }

  function H(x: Word, y: Word, z: Word): Word { x ^ y ^ z }

  function I(x: Word, y: Word, z: Word): Word { y ^ (x | !z) }

  function Mix(t: nat, x: Word, y: Word, z: Word): Word {
    if t < 16 then F(x, y, z) else if t < 32 then G(x, y, z) else if t < 48 then H(x, y, z) else I(x, y, z)
  }

  /** Which word of the block operation `t` uses. */
  function WordIndex(t: nat): (k: nat)
    ensures k < 16
  {
    if t < 16 then t else if t < 32 then (5 * t + 1) % 16 else if t < 48 then (3 * t + 5) % 16 else (7 * t) % 16
  }

  /** By how much operation `t` rotates. */
  function Amount(t: nat): (s: bv32)
    ensures 0 < s < 32
  {
    var turn := t % 4;
    if t < 16 then (if turn == 0 then 7 else if turn == 1 then 12 else if turn == 2 then 17 else 22)
    else if t < 32 then (if turn == 0 then 5 else if turn == 1 then 9 else if turn == 2 then 14 else 20)
    else if t < 48 then (if turn == 0 then 4 else if turn == 1 then 11 else if turn == 2 then 16 else 23)
    else (if turn == 0 then 6 else if turn == 1 then 10 else if turn == 2 then 15 else 21)
  }

  /** Four entries of the table of sines: entry t is the integer part of 2^32 |sin(t + 1)|. */
  function SineRow(t: nat): (s: seq<Word>)
    ensures |s| == 4
  {
    if t < 16 then
      (if t < 4 then [0xd76a_a478, 0xe8c7_b756, 0x2420_70db, 0xc1bd_ceee] else if t < 8 then [0xf57c_0faf, 0x4787_c62a, 0xa830_4613, 0xfd46_9501]
       else if t < 12 then [0x6980_98d8, 0x8b44_f7af, 0xffff_5bb1, 0x895c_d7be] else [0x6b90_1122, 0xfd98_7193, 0xa679_438e, 0x49b4_0821])
    else if t < 32 then
      (if t < 20 then [0xf61e_2562, 0xc040_b340, 0x265e_5a51, 0xe9b6_c7aa] else if t < 24 then [0xd62f_105d, 0x0244_1453, 0xd8a1_e681, 0xe7d3_fbc8]
       else if t < 28 then [0x21e1_cde6, 0xc337_07d6, 0xf4d5_0d87, 0x455a_14ed] else [0xa9e3_e905, 0xfcef_a3f8, 0x676f_02d9, 0x8d2a_4c8a])
    else if t < 48 then
      (if t < 36 then [0xfffa_3942, 0x8771_f681, 0x6d9d_6122, 0xfde5_380c] else if t < 40 then [0xa4be_ea44, 0x4bde_cfa9, 0xf6bb_4b60, 0xbebf_bc70]
       else if t < 44 then [0x289b_7ec6, 0xeaa1_27fa, 0xd4ef_3085, 0x0488_1d05] else [0xd9d4_d039, 0xe6db_99e5, 0x1fa2_7cf8, 0xc4ac_5665])
    else
      (if t < 52 then [0xf429_2244, 0x432a_ff97, 0xab94_23a7, 0xfc93_a039] else if t < 56 then [0x655b_59c3, 0x8f0c_cc92, 0xffef_f47d, 0x8584_5dd1]
       else if t < 60 then [0x6fa8_7e4f, 0xfe2c_e6e0, 0xa301_4314, 0x4e08_11a1] else [0xf753_7e82, 0xbd3a_f235, 0x2ad7_d2bb, 0xeb86_d391])
  }

  function Sine(t: nat): Word {
    SineRow(t)[t % 4]
  }

  type Block = s: seq<Word> | |s| == 16 witness seq(16, _ => 0)

  datatype Registers = Registers(a: Word, b: Word, c: Word, d: Word)

  /** `b + ((a + f + x + ac) <<< s)`. */
  function Operation(a: Word, b: Word, f: Word, x: Word, s: bv32, ac: Word): Word
    requires 0 < s < 32
  {
    Rotl(a + f + x + ac, s) + b
  }

  /** The registers after `t` operations, each renamed for the next one. */
  function Rounds(start: Registers, m: Block, t: nat): Registers {
    if t == 0 then start
    else
      var r := Rounds(start, m, t - 1);
      Registers(r.d, Operation(r.a, r.b, Mix(t - 1, r.b, r.c, r.d), m[WordIndex(t - 1)], Amount(t - 1), Sine(t - 1)), r.b, r.c)
  }

  function AddRegisters(r: Registers, s: Registers): Registers {
    Registers(r.a + s.a, r.b + s.b, r.c + s.c, r.d + s.d)
  }

  function Compress(h: Registers, m: Block): Registers {
    AddRegisters(h, Rounds(h, m, 64))
  }

  function LittleEndianWord(b0: byte, b1: byte, b2: byte, b3: byte): Word {
    (b0 as Word) | ((b1 as Word) << 8) | ((b2 as Word) << 16) | ((b3 as Word) << 24)
  }

  function WordsOf(bytes: seq<byte>): Block
    requires |bytes| == 64
  {
    seq(16, i requires 0 <= i < 16 => LittleEndianWord(bytes[4 * i], bytes[4 * i + 1], bytes[4 * i + 2], bytes[4 * i + 3]))
  }

  function Initial(): Registers {
    Registers(0x6745_2301, 0xefcd_ab89, 0x98ba_dcfe, 0x1032_5476)
  }

  predicate WholeBlocks(data: seq<byte>) {
    |data| % 64 == 0
  }

  function HashBlocks(h: Registers, data: seq<byte>): Registers
    requires WholeBlocks(data)
    decreases |data|
  {
    if data == [] then h else HashBlocks(Compress(h, WordsOf(data[..64])), data[64..])
  }

  /** Zero bytes that bring the length to 56 modulo 64 after the 0x80 byte. */
  function Zeros(n: nat): (k: nat)
    ensures (n + 1 + k + 8) % 64 == 0 && k < 64
  {
    (119 - n % 64) % 64
  }

  /** The low 64 bits of the length in bits, least significant byte first. */
  function LengthBytes(n: nat): (s: seq<byte>)
    ensures |s| == 8
  {
    LittleEndian(8 * n, 8)
  }

  /** The padded message (sections 3.1 and 3.2). */
  function Pad(message: seq<byte>): (padded: seq<byte>)
    ensures WholeBlocks(padded)
  {
    message + [0x80] + seq(Zeros(|message|), _ => 0) + LengthBytes(|message|)
  }

  function WordBytes(w: Word): (s: seq<byte>)
    ensures |s| == 4
  {
    [(w & 0xff) as byte, ((w >> 8) & 0xff) as byte, ((w >> 16) & 0xff) as byte, ((w >> 24) & 0xff) as byte]
  }

  function DigestBytes(h: Registers): (s: seq<byte>)
    ensures |s| == 16
  {
    WordBytes(h.a) + WordBytes(h.b) + WordBytes(h.c) + WordBytes(h.d)
  }

  function Md5(message: seq<byte>): (digest: seq<byte>)
    ensures |digest| == 16
  {
    DigestBytes(HashBlocks(Initial(), Pad(message)))
  }

  lemma {:induction false} HashBlocksConcat(h: Registers, a: seq<byte>, b: seq<byte>)
    requires WholeBlocks(a) && WholeBlocks(b)
    ensures WholeBlocks(a + b) && HashBlocks(h, a + b) == HashBlocks(HashBlocks(h, a), b)
    decreases |a|
  {
    hide Compress;
    if a == [] {
      assert a + b == b;
    } else {
      assert (a + b)[..64] == a[..64] && (a + b)[64..] == a[64..] + b;
      HashBlocksConcat(Compress(h, WordsOf(a[..64])), a[64..], b);
    }
  }

  lemma HashOneBlock(h: Registers, block: seq<byte>)
    requires |block| == 64
    ensures HashBlocks(h, block) == Compress(h, WordsOf(block))
  {
    hide Compress;
    assert block[..64] == block && block[64..] == [];
  }
}

/** The MD5 object (src/tbx/hash/md5.cpp, src/tbx/hash/hash.h). */
module Md5Digester {
  import opened Bytes
  import opened Md5Count
  import opened Md5Standard

  datatype Run = Run(start: Registers, m: Block)

  /** The registers, in the order the next operation names them, are those after `t` operations. */
  ghost predicate Reached(run: Run, t: nat, a: Word, b: Word, c: Word, d: Word) {
    Registers(a, b, c, d) == Rounds(run.start, run.m, t)
  }

  /** The constants of a call are those of operation `t`. */
  ghost predicate Constants(t: nat, k: nat, s: bv32, ac: Word) {
    k == WordIndex(t) && s == Amount(t) && ac == Sine(t)
  }

  method RfF(x: Block, a: Word, b: Word, c: Word, d: Word, k: nat, s: bv32, ac: Word, ghost run: Run, ghost t: nat)
    returns (a': Word)
    requires 0 < s < 32 && k < 16 && 0 <= t < 16 && Constants(t, k, s, ac)
    requires x == run.m && Reached(run, t, a, b, c, d)
    ensures Reached(run, t + 1, d, a', b, c)
  {
    hide F, Operation, Amount, WordIndex, Sine;
    a' := Operation(a, b, F(b, c, d), x[k], s, ac);
  }

  method RfG(x: Block, a: Word, b: Word, c: Word, d: Word, k: nat, s: bv32, ac: Word, ghost run: Run, ghost t: nat)
    returns (a': Word)
    requires 0 < s < 32 && k < 16 && 16 <= t < 32 && Constants(t, k, s, ac)
    requires x == run.m && Reached(run, t, a, b, c, d)
    ensures Reached(run, t + 1, d, a', b, c)
  {
    hide G, Operation, Amount, WordIndex, Sine;
    a' := Operation(a, b, G(b, c, d), x[k], s, ac);
  }

  method RfH(x: Block, a: Word, b: Word, c: Word, d: Word, k: nat, s: bv32, ac: Word, ghost run: Run, ghost t: nat)
    returns (a': Word)
    requires 0 < s < 32 && k < 16 && 32 <= t < 48 && Constants(t, k, s, ac)
    requires x == run.m && Reached(run, t, a, b, c, d)
    ensures Reached(run, t + 1, d, a', b, c)
  {
    hide H, Operation, Amount, WordIndex, Sine;
    a' := Operation(a, b, H(b, c, d), x[k], s, ac);
  }

  method RfI(x: Block, a: Word, b: Word, c: Word, d: Word, k: nat, s: bv32, ac: Word, ghost run: Run, ghost t: nat)
    returns (a': Word)
    requires 0 < s < 32 && k < 16 && 48 <= t < 64 && Constants(t, k, s, ac)
    requires x == run.m && Reached(run, t, a, b, c, d)
    ensures Reached(run, t + 1, d, a', b, c)
  {
    hide I, Operation, Amount, WordIndex, Sine;
    a' := Operation(a, b, I(b, c, d), x[k], s, ac);
  }

  class Md5Object {
    var state: Registers
    /** Number of message bits modulo 2^64: low and high 32 bits. */
    var countLow: nat
    var countHigh: nat
    const buffer: array<byte>
    var finalized: bool
    var digest: seq<byte>
    /** Everything given to `Update` so far, and in pieces of which lengths. */
    ghost var message: seq<byte>
    ghost var pieces: seq<nat>

    static method Round1(x: Block, a0: Word, b0: Word, c0: Word, d0: Word, ghost run: Run)
      returns (a: Word, b: Word, c: Word, d: Word)
      requires x == run.m && Reached(run, 0, a0, b0, c0, d0)
      ensures Reached(run, 16, a, b, c, d)
    {
      hide Reached, Constants;
      RowConstants1First();
      RowConstants1Second();
      a, b, c, d := a0, b0, c0, d0;
      a := RfF(x, a, b, c, d,  0,  7, 0xd76a_a478, run, 0);
      d := RfF(x, d, a, b, c,  1, 12, 0xe8c7_b756, run, 1);
      c := RfF(x, c, d, a, b,  2, 17, 0x2420_70db, run, 2);
      b := RfF(x, b, c, d, a,  3, 22, 0xc1bd_ceee, run, 3);
      a := RfF(x, a, b, c, d,  4,  7, 0xf57c_0faf, run, 4);
      d := RfF(x, d, a, b, c,  5, 12, 0x4787_c62a, run, 5);
      c := RfF(x, c, d, a, b,  6, 17, 0xa830_4613, run, 6);
      b := RfF(x, b, c, d, a,  7, 22, 0xfd46_9501, run, 7);
      a := RfF(x, a, b, c, d,  8,  7, 0x6980_98d8, run, 8);
      d := RfF(x, d, a, b, c,  9, 12, 0x8b44_f7af, run, 9);
      c := RfF(x, c, d, a, b, 10, 17, 0xffff_5bb1, run, 10);
      b := RfF(x, b, c, d, a, 11, 22, 0x895c_d7be, run, 11);
      a := RfF(x, a, b, c, d, 12,  7, 0x6b90_1122, run, 12);
      d := RfF(x, d, a, b, c, 13, 12, 0xfd98_7193, run, 13);
      c := RfF(x, c, d, a, b, 14, 17, 0xa679_438e, run, 14);
      b := RfF(x, b, c, d, a, 15, 22, 0x49b4_0821, run, 15);
    }

    static method Round2(x: Block, a0: Word, b0: Word, c0: Word, d0: Word, ghost run: Run)
      returns (a: Word, b: Word, c: Word, d: Word)
      requires x == run.m && Reached(run, 16, a0, b0, c0, d0)
      ensures Reached(run, 32, a, b, c, d)
    {
      hide Reached, Constants;
      RowConstants2First();
      RowConstants2Second();
      a, b, c, d := a0, b0, c0, d0;
      a := RfG(x, a, b, c, d,  1,  5, 0xf61e_2562, run, 16);
      d := RfG(x, d, a, b, c,  6,  9, 0xc040_b340, run, 17);
      c := RfG(x, c, d, a, b, 11, 14, 0x265e_5a51, run, 18);
      b := RfG(x, b, c, d, a,  0, 20, 0xe9b6_c7aa, run, 19);
      a := RfG(x, a, b, c, d,  5,  5, 0xd62f_105d, run, 20);
      d := RfG(x, d, a, b, c, 10,  9, 0x0244_1453, run, 21);
      c := RfG(x, c, d, a, b, 15, 14, 0xd8a1_e681, run, 22);
      b := RfG(x, b, c, d, a,  4, 20, 0xe7d3_fbc8, run, 23);
      a := RfG(x, a, b, c, d,  9,  5, 0x21e1_cde6, run, 24);
      d := RfG(x, d, a, b, c, 14,  9, 0xc337_07d6, run, 25);
      c := RfG(x, c, d, a, b,  3, 14, 0xf4d5_0d87, run, 26);
      b := RfG(x, b, c, d, a,  8, 20, 0x455a_14ed, run, 27);
      a := RfG(x, a, b, c, d, 13,  5, 0xa9e3_e905, run, 28);
      d := RfG(x, d, a, b, c,  2,  9, 0xfcef_a3f8, run, 29);
      c := RfG(x, c, d, a, b,  7, 14, 0x676f_02d9, run, 30);
      b := RfG(x, b, c, d, a, 12, 20, 0x8d2a_4c8a, run, 31);
    }

    static method Round3(x: Block, a0: Word, b0: Word, c0: Word, d0: Word, ghost run: Run)
      returns (a: Word, b: Word, c: Word, d: Word)
      requires x == run.m && Reached(run, 32, a0, b0, c0, d0)
      ensures Reached(run, 48, a, b, c, d)
    {
      hide Reached, Constants;
      RowConstants3First();
      RowConstants3Second();
      a, b, c, d := a0, b0, c0, d0;
      a := RfH(x, a, b, c, d,  5,  4, 0xfffa_3942, run, 32);
      d := RfH(x, d, a, b, c,  8, 11, 0x8771_f681, run, 33);
      c := RfH(x, c, d, a, b, 11, 16, 0x6d9d_6122, run, 34);
      b := RfH(x, b, c, d, a, 14, 23, 0xfde5_380c, run, 35);
      a := RfH(x, a, b, c, d,  1,  4, 0xa4be_ea44, run, 36);
      d := RfH(x, d, a, b, c,  4, 11, 0x4bde_cfa9, run, 37);
      c := RfH(x, c, d, a, b,  7, 16, 0xf6bb_4b60, run, 38);
      b := RfH(x, b, c, d, a, 10, 23, 0xbebf_bc70, run, 39);
      a := RfH(x, a, b, c, d, 13,  4, 0x289b_7ec6, run, 40);
      d := RfH(x, d, a, b, c,  0, 11, 0xeaa1_27fa, run, 41);
      c := RfH(x, c, d, a, b,  3, 16, 0xd4ef_3085, run, 42);
      b := RfH(x, b, c, d, a,  6, 23, 0x0488_1d05, run, 43);
      a := RfH(x, a, b, c, d,  9,  4, 0xd9d4_d039, run, 44);
      d := RfH(x, d, a, b, c, 12, 11, 0xe6db_99e5, run, 45);
      c := RfH(x, c, d, a, b, 15, 16, 0x1fa2_7cf8, run, 46);
      b := RfH(x, b, c, d, a,  2, 23, 0xc4ac_5665, run, 47);
    }

    static method Round4(x: Block, a0: Word, b0: Word, c0: Word, d0: Word, ghost run: Run)
      returns (a: Word, b: Word, c: Word, d: Word)
      requires x == run.m && Reached(run, 48, a0, b0, c0, d0)
      ensures Reached(run, 64, a, b, c, d)
    {
      hide Reached, Constants;
      RowConstants4First();
      RowConstants4Second();
      a, b, c, d := a0, b0, c0, d0;
      a := RfI(x, a, b, c, d,  0,  6, 0xf429_2244, run, 48);
      d := RfI(x, d, a, b, c,  7, 10, 0x432a_ff97, run, 49);
      c := RfI(x, c, d, a, b, 14, 15, 0xab94_23a7, run, 50);
      b := RfI(x, b, c, d, a,  5, 21, 0xfc93_a039, run, 51);
      a := RfI(x, a, b, c, d, 12,  6, 0x655b_59c3, run, 52);
      d := RfI(x, d, a, b, c,  3, 10, 0x8f0c_cc92, run, 53);
      c := RfI(x, c, d, a, b, 10, 15, 0xffef_f47d, run, 54);
      b := RfI(x, b, c, d, a,  1, 21, 0x8584_5dd1, run, 55);
      a := RfI(x, a, b, c, d,  8,  6, 0x6fa8_7e4f, run, 56);
      d := RfI(x, d, a, b, c, 15, 10, 0xfe2c_e6e0, run, 57);
      c := RfI(x, c, d, a, b,  6, 15, 0xa301_4314, run, 58);
      b := RfI(x, b, c, d, a, 13, 21, 0x4e08_11a1, run, 59);
      a := RfI(x, a, b, c, d,  4,  6, 0xf753_7e82, run, 60);
      d := RfI(x, d, a, b, c, 11, 10, 0xbd3a_f235, run, 61);
      c := RfI(x, c, d, a, b,  2, 15, 0x2ad7_d2bb, run, 62);
      b := RfI(x, b, c, d, a,  9, 21, 0xeb86_d391, run, 63);
    }

    method Transform(bytes: seq<byte>)
      requires |bytes| == 64
      modifies this`state
      ensures state == Compress(old(state), WordsOf(bytes))
    {
      hide Rounds, Reached, AddRegisters, WordsOf;
      ghost var run := Run(state, WordsOf(bytes));
      var x := Decode(bytes);
      var a, b, c, d := state.a, state.b, state.c, state.d;
      Start(run);
      a, b, c, d := Round1(x, a, b, c, d, run);
      a, b, c, d := Round2(x, a, b, c, d, run);
      a, b, c, d := Round3(x, a, b, c, d, run);
      a, b, c, d := Round4(x, a, b, c, d, run);
      Finish(run, a, b, c, d);
      state := AddRegisters(state, Registers(a, b, c, d));
    }

    static method Decode(bytes: seq<byte>) returns (x: Block)
      requires |bytes| == 64
      ensures x == WordsOf(bytes)
    {
      hide LittleEndianWord;
      var output := new Word[16];
      for i := 0 to 16
        invariant forall k :: 0 <= k < i ==>
          output[k] == LittleEndianWord(bytes[4 * k], bytes[4 * k + 1], bytes[4 * k + 2], bytes[4 * k + 3])
      {
        output[i] := LittleEndianWord(bytes[4 * i], bytes[4 * i + 1], bytes[4 * i + 2], bytes[4 * i + 3]);
      }
      x := output[..];
    }

    /** The message is `m`: whole blocks are hashed, and the rest waits in the buffer. */
    ghost predicate Absorbed(m: seq<byte>)
      reads this`state, buffer
    {
      buffer.Length == 64 && Hashed(m[..Whole(m)]) && buffer[..|m| - Whole(m)] == m[Whole(m)..]
    }

    /** The state is that of whole blocks. */
    ghost predicate Hashed(whole: seq<byte>)
      reads this`state
    {
      WholeBlocks(whole) && state == HashBlocks(Initial(), whole)
    }

    /** The counter has counted the pieces of the message. */
    ghost predicate Counting()
      reads this`countLow, this`countHigh, this`message, this`pieces
    {
      |message| == Total(pieces) && BitCount(countLow, countHigh) == CountAll(pieces)
    }

    ghost predicate Valid()
      reads this, buffer
    {
      buffer.Length == 64 && if finalized then digest == FinalDigest(message, CountAll(pieces)) else Absorbed(message) && Counting()
    }

    constructor ()
      ensures Valid() && message == [] && pieces == [] && !finalized && fresh(buffer)
    {
      state := Initial();
      countLow, countHigh := 0, 0;
      finalized := false;
      digest := [];
      message, pieces := [], [];
      buffer := new byte[64];
    }

    /** `data` starts at place `at` of the partial block; the bytes before it stay. */
    method Store(at: nat, data: seq<byte>)
      requires buffer.Length == 64 && at + |data| <= 64
      modifies buffer
      ensures buffer[..at] == old(buffer[..at]) && buffer[at..at + |data|] == data
    {
      for k := 0 to |data|
        invariant buffer[..at] == old(buffer[..at]) && buffer[at..at + k] == data[..k]
      {
        buffer[at + k] := data[k];
      }
    }

    /** One more block. */
    method TransformBlock(bytes: seq<byte>, ghost whole: seq<byte>)
      requires |bytes| == 64 && Hashed(whole)
      modifies this`state
      ensures Hashed(whole + bytes)
    {
      hide WordsOf, Compress, HashBlocks, Initial;
      HashBlocksConcat(Initial(), whole, bytes);
      HashOneBlock(state, bytes);
      Transform(bytes);
    }

    /** The bit counter takes in `length` more bytes. */
    method Count(length: nat)
      requires countLow < TWO32 && countHigh < TWO32
      modifies this`countLow, this`countHigh
      ensures BitCount(countLow, countHigh) == Counted(old(BitCount(countLow, countHigh)), length)
    {
      var bits := 8 * length;
      countLow := (countLow + bits) % TWO32;
      if countLow < bits {
        countHigh := (countHigh + 1) % TWO32;
      }
      countHigh := (countHigh + length / TWO29) % TWO32;
    }

    /** Hashes every block that `data` completes; `i` bytes are used up, `kept` bytes wait. */
    method HashWholeBlocks(data: seq<byte>, index: nat, ghost m: seq<byte>) returns (i: nat, kept: nat, ghost whole: seq<byte>)
      requires buffer.Length == 64 && index == |m| - Whole(m) && UpdateEnds(index, |data|)
      requires Hashed(m[..Whole(m)]) && buffer[..index] == m[Whole(m)..]
      modifies this`state, buffer
      ensures i <= |data| && |data| - i < 64 - kept && Hashed(whole) && whole + buffer[..kept] == m + data[..i]
    {
      hide HashBlocks, Initial, UpdateEnds, LoopIndex;
      ghost var waiting := m[Whole(m)..];
      whole := m[..Whole(m)];
      var firstpart := 64 - index;
      i, kept := 0, index;
      if |data| >= firstpart {
        Store(index, data[..firstpart]);
        assert buffer[..] == waiting + data[..firstpart];
        TransformBlock(buffer[..], whole);
        whole := whole + buffer[..];
        i, kept := firstpart, 0;
        ghost var turns: nat := 0;
        NextIndex(index, turns, |data|);
        while (i + 64) % TWO32 <= |data|
          invariant firstpart <= i <= |data| && Hashed(whole) && whole == m + data[..i]
          invariant i == firstpart + 64 * turns && (i + 64) % TWO32 == i + 64
          decreases |data| - i
        {
          TransformBlock(data[i..i + 64], whole);
          whole := whole + data[i..i + 64];
          assert data[..i + 64] == data[..i] + data[i..i + 64];
          i := i + 64;
          turns := turns + 1;
          NextIndex(index, turns, |data|);
        }
      }
    }

    /** Takes in more message, of every length on which the loop comes to an end. */
    method Update(data: seq<byte>)
      requires Valid() && !finalized && UpdateEnds(|message| % 64, |data|)
      modifies this`state, this`countLow, this`countHigh, this`message, this`pieces, buffer
      ensures Valid() && message == old(message) + data && pieces == old(pieces) + [|data|]
    {
      hide HashBlocks, Initial, Hashed, Absorbed, CountAll, Counted, UpdateEnds, Total, Whole, FinalDigest;
      var index := CountAndIndex(data);
      ghost var whole;
      var i: nat;
      i, index, whole := HashWholeBlocks(data, index, message);
      ghost var waiting := buffer[..index];
      Store(index, data[i..]);
      FitsTogether(message, data, whole, waiting, i);
      message, pieces := message + data, pieces + [|data|];
    }

    /** The place in the block before the update, and the counter after it. */
    method CountAndIndex(data: seq<byte>) returns (index: nat)
      requires Absorbed(message) && Counting()
      modifies this`countLow, this`countHigh
      ensures Total(pieces + [|data|]) == |message + data| && BitCount(countLow, countHigh) == CountAll(pieces + [|data|])
      ensures buffer.Length == 64 && index == |message| - Whole(message) == |message| % 64
      ensures Hashed(message[..Whole(message)]) && buffer[..index] == message[Whole(message)..]
    {
      hide Counted, Total, Hashed;
      RunBits(pieces);
      LowIndex(countLow, |message|);
      index := countLow / 8 % 64;
      Count(|data|);
      SumAppend(pieces, |data|);
      assert (pieces + [|data|])[..|pieces|] == pieces;
    }

    lemma FitsTogether(m: seq<byte>, data: seq<byte>, whole: seq<byte>, waiting: seq<byte>, i: nat)
      requires buffer.Length == 64 && Hashed(whole)
      requires i <= |data| && |data| - i < 64 - |waiting| && whole + waiting == m + data[..i]
      requires buffer[..|waiting|] == waiting && buffer[|waiting|..|waiting| + |data[i..]|] == data[i..]
      ensures Absorbed(m + data)
    {
      hide HashBlocks, Initial;
      var rest := waiting + data[i..];
      assert m + data == (m + data[..i]) + data[i..];
      assert whole + rest == (whole + waiting) + data[i..];
      WholeIs(whole, rest);
      assert buffer[..|rest|] == buffer[..|waiting|] + buffer[|waiting|..|rest|];
    }

    /**
     The digest of everything taken in, with the counter's bytes behind the padding; asking again
     gives it again. It is the MD5 whenever every carry agreed.
     */
    method Finalize() returns (result: seq<byte>)
      requires Valid()
      modifies this, buffer
      ensures Valid() && finalized && message == old(message) && pieces == old(pieces)
      ensures result == FinalDigest(message, CountAll(pieces))
    {
      hide HashBlocks, Initial, LittleEndian, CountAll, UpdateEnds, CounterBytes;
      if !finalized {
        ghost var m, lengths := message, pieces;
        RunBits(pieces);
        LowIndex(countLow, |m|);
        var bits := CounterBytes(BitCount(countLow, countHigh));
        var index := countLow / 8 % 64;
        var padLen := if index < 56 then 56 - index else 120 - index;
        var padding := [0x80] + seq(63, _ => 0);
        ShortUpdateEnds(|message| % 64, padLen);
        Update(padding[..padLen]);
        ShortUpdateEnds(|message| % 64, 8);
        Update(bits);
        PaddingIs(m, padding[..padLen], bits);
        assert Hashed(Padded(m, bits)) by { WholeIs(Padded(m, bits), []); assert Padded(m, bits) + [] == Padded(m, bits) && message == Padded(m, bits); }
        digest := DigestBytes(state);
        Clear();
        countLow, countHigh := 0, 0;
        finalized := true;
        message, pieces := m, lengths;
      }
      result := digest;
    }

    method Clear()
      requires buffer.Length == 64
      modifies buffer
    {
      for k := 0 to 64 {
        buffer[k] := 0;
      }
    }
  }

  /** The constants of the first eight calls of round 1. */
  lemma RowConstants1First()
    ensures Constants(0, 0, 7, 0xd76a_a478) && Constants(1, 1, 12, 0xe8c7_b756)
    ensures Constants(2, 2, 17, 0x2420_70db) && Constants(3, 3, 22, 0xc1bd_ceee)
    ensures Constants(4, 4, 7, 0xf57c_0faf) && Constants(5, 5, 12, 0x4787_c62a)
    ensures Constants(6, 6, 17, 0xa830_4613) && Constants(7, 7, 22, 0xfd46_9501)
  {
  }

  /** The constants of the second eight calls of round 1. */
  lemma RowConstants1Second()
    ensures Constants(8, 8, 7, 0x6980_98d8) && Constants(9, 9, 12, 0x8b44_f7af)
    ensures Constants(10, 10, 17, 0xffff_5bb1) && Constants(11, 11, 22, 0x895c_d7be)
    ensures Constants(12, 12, 7, 0x6b90_1122) && Constants(13, 13, 12, 0xfd98_7193)
    ensures Constants(14, 14, 17, 0xa679_438e) && Constants(15, 15, 22, 0x49b4_0821)
  {
  }

  /** The constants of the first eight calls of round 2. */
  lemma RowConstants2First()
    ensures Constants(16, 1, 5, 0xf61e_2562) && Constants(17, 6, 9, 0xc040_b340)
    ensures Constants(18, 11, 14, 0x265e_5a51) && Constants(19, 0, 20, 0xe9b6_c7aa)
    ensures Constants(20, 5, 5, 0xd62f_105d) && Constants(21, 10, 9, 0x0244_1453)
    ensures Constants(22, 15, 14, 0xd8a1_e681) && Constants(23, 4, 20, 0xe7d3_fbc8)
  {
  }

  /** The constants of the second eight calls of round 2. */
  lemma RowConstants2Second()
    ensures Constants(24, 9, 5, 0x21e1_cde6) && Constants(25, 14, 9, 0xc337_07d6)
    ensures Constants(26, 3, 14, 0xf4d5_0d87) && Constants(27, 8, 20, 0x455a_14ed)
    ensures Constants(28, 13, 5, 0xa9e3_e905) && Constants(29, 2, 9, 0xfcef_a3f8)
    ensures Constants(30, 7, 14, 0x676f_02d9) && Constants(31, 12, 20, 0x8d2a_4c8a)
  {
  }

  /** The constants of the first eight calls of round 3. */
  lemma RowConstants3First()
    ensures Constants(32, 5, 4, 0xfffa_3942) && Constants(33, 8, 11, 0x8771_f681)
    ensures Constants(34, 11, 16, 0x6d9d_6122) && Constants(35, 14, 23, 0xfde5_380c)
    ensures Constants(36, 1, 4, 0xa4be_ea44) && Constants(37, 4, 11, 0x4bde_cfa9)
    ensures Constants(38, 7, 16, 0xf6bb_4b60) && Constants(39, 10, 23, 0xbebf_bc70)
  {
  }

  /** The constants of the second eight calls of round 3. */
  lemma RowConstants3Second()
    ensures Constants(40, 13, 4, 0x289b_7ec6) && Constants(41, 0, 11, 0xeaa1_27fa)
    ensures Constants(42, 3, 16, 0xd4ef_3085) && Constants(43, 6, 23, 0x0488_1d05)
    ensures Constants(44, 9, 4, 0xd9d4_d039) && Constants(45, 12, 11, 0xe6db_99e5)
    ensures Constants(46, 15, 16, 0x1fa2_7cf8) && Constants(47, 2, 23, 0xc4ac_5665)
  {
  }

  /** The constants of the first eight calls of round 4. */
  lemma RowConstants4First()
    ensures Constants(48, 0, 6, 0xf429_2244) && Constants(49, 7, 10, 0x432a_ff97)
    ensures Constants(50, 14, 15, 0xab94_23a7) && Constants(51, 5, 21, 0xfc93_a039)
    ensures Constants(52, 12, 6, 0x655b_59c3) && Constants(53, 3, 10, 0x8f0c_cc92)
    ensures Constants(54, 10, 15, 0xffef_f47d) && Constants(55, 1, 21, 0x8584_5dd1)
  {
  }

  /** The constants of the second eight calls of round 4. */
  lemma RowConstants4Second()
    ensures Constants(56, 8, 6, 0x6fa8_7e4f) && Constants(57, 15, 10, 0xfe2c_e6e0)
    ensures Constants(58, 6, 15, 0xa301_4314) && Constants(59, 13, 21, 0x4e08_11a1)
    ensures Constants(60, 4, 6, 0xf753_7e82) && Constants(61, 11, 10, 0xbd3a_f235)
    ensures Constants(62, 2, 15, 0x2ad7_d2bb) && Constants(63, 9, 21, 0xeb86_d391)
  {
  }

  /** Where the waiting bytes of a message start. */
  ghost function Whole(m: seq<byte>): (n: nat)
    ensures n <= |m| < n + 64 && WholeBlocks(m[..n])
  {
    |m| - |m| % 64
  }

  lemma WholeIs(whole: seq<byte>, rest: seq<byte>)
    requires WholeBlocks(whole) && |rest| < 64
    ensures Whole(whole + rest) == |whole|
    ensures (whole + rest)[..|whole|] == whole && (whole + rest)[|whole|..] == rest
  {
  }

  /** The two halves of the counter, as `finalize` encodes them. */
  function CounterBytes(c: BitCount): (s: seq<byte>)
    ensures |s| == 8
  {
    LittleEndian(c.low, 4) + LittleEndian(c.high, 4)
  }

  /** The message, padded as section 3.1 of RFC 1321 says, and then eight bytes. */
  function Padded(message: seq<byte>, bits: seq<byte>): (padded: seq<byte>)
    requires |bits| == 8
    ensures WholeBlocks(padded)
  {
    message + [0x80] + seq(Zeros(|message|), _ => 0) + bits
  }

  /** The digest of `message` when the counter stands at `c`. */
  function FinalDigest(message: seq<byte>, c: BitCount): (digest: seq<byte>)
    ensures |digest| == 16
  {
    DigestBytes(HashBlocks(Initial(), Padded(message, CounterBytes(c))))
  }

  /** With a right counter, it is the MD5. */
  lemma RightGivesMd5(message: seq<byte>, c: BitCount)
    requires Right(c, |message|)
    ensures FinalDigest(message, c) == Md5(message)
  {
    hide HashBlocks, LengthBytes, CounterBytes;
    RightBytes(c, |message|);
  }

  /** Taken in by pieces below 2^29 bytes, every message gets its MD5. */
  lemma ShortPiecesGiveMd5(message: seq<byte>, pieces: seq<nat>)
    requires |message| == Total(pieces) && AllBelow(pieces, TWO29)
    ensures FinalDigest(message, CountAll(pieces)) == Md5(message)
  {
    ShortPiecesCountRight(pieces);
    RightGivesMd5(message, CountAll(pieces));
  }

  /** The padding bytes the source passes to `Update`, then the counter, make the padded message. */
  lemma PaddingIs(m: seq<byte>, padding: seq<byte>, bits: seq<byte>)
    requires padding == ([0x80] + seq(63, _ => 0))[..(if |m| % 64 < 56 then 56 - |m| % 64 else 120 - |m| % 64)]
    requires |bits| == 8
    ensures (m + padding) + bits == Padded(m, bits)
  {
    assert padding == [0x80] + seq(Zeros(|m|), _ => 0);
  }

  lemma LowIndex(low: nat, n: nat)
    requires low == 8 * n % TWO32
    ensures low / 8 % 64 == n % 64
  {
    var k := 8 * n / TWO32;
    assert low == 8 * (n - TWO29 * k);
    assert low / 8 == n - TWO29 * k;
    ModuloSixtyFour(n, (TWO29 / 64) * k);
  }

  lemma ModuloSixtyFour(n: nat, j: nat)
    requires 64 * j <= n
    ensures (n - 64 * j) % 64 == n % 64
  {
  }

  lemma ShortUpdateEnds(index: nat, length: nat)
    requires index < 64 && length <= 64
    ensures UpdateEnds(index, length)
  {
  }

  lemma RightBytes(c: BitCount, n: nat)
    requires Right(c, n)
    ensures CounterBytes(c) == LengthBytes(n)
  {
    hide LittleEndian;
    Powers();
    LittleEndianSplit(c.low, c.high, 4, 4);
    LittleEndianCut(c.low + TWO32 * c.high, 8 * n / TWO64, 8);
  }

  lemma Powers()
    ensures Base(4) == TWO32 && Base(8) == TWO64
  {
  }

  lemma Start(run: Run)
    ensures var r := run.start; Reached(run, 0, r.a, r.b, r.c, r.d)
  {
  }

  lemma Finish(run: Run, a: Word, b: Word, c: Word, d: Word)
    requires Reached(run, 64, a, b, c, d)
    ensures Compress(run.start, run.m) == AddRegisters(run.start, Registers(a, b, c, d))
  {
    hide Rounds, AddRegisters;
  }
}
