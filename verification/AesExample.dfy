/**
 The examples of FIPS 197 (src/crypto/aes.cpp): the key expansions of appendix A as far as every
 branch is taken, and the cipher example of appendix C.1, round by round.
 */
module AesExample {
  import opened Bytes
  import opened AesField
  import opened AesStandard
  import opened AesCipher

  /** A word as the standard prints it. */
  function Read(x: bv32): Word {
    Word((x >> 24) as byte, ((x >> 16) & 0xff) as byte, ((x >> 8) & 0xff) as byte, (x & 0xff) as byte)
  }

  /** A key or a block from its words. */
  function Spell(words: seq<bv32>): (bytes: seq<byte>)
    ensures |bytes| == 4 * |words|
  {
    if words == [] then [] else Read(words[0]).Bytes() + Spell(words[1..])
  }

  lemma {:induction false} WordSpelled(words: seq<bv32>, i: nat)
    requires i < |words|
    ensures WordAt(Spell(words), i) == Read(words[i])
    decreases i
  {
    hide Read;
    var rest := Spell(words[1..]);
    if i > 0 {
      WordSpelled(words[1..], i - 1);
      assert forall k :: 4 <= k < 4 * |words| ==> Spell(words)[k] == rest[k - 4];
    }
  }

  function Plus(v: bv32, w: bv32): bv32 { v ^ w }

  // ---------------------------------------------------------------------------------------
  // Key expansion
  // ---------------------------------------------------------------------------------------

  /** The words of the expanded key from word `from` on. */
  ghost predicate WordsAre(key: seq<byte>, nk: nat, from: nat, words: seq<bv32>) {
    KeyWords(nk) && |key| == 4 * nk && forall k :: 0 <= k < |words| ==> ExpandedWord(key, nk, from + k) == Read(words[k])
  }

  lemma KeyItself(words: seq<bv32>)
    requires KeyWords(|words|)
    ensures WordsAre(Spell(words), |words|, 0, words)
  {
    hide Read, Spell;
    forall k | 0 <= k < |words|
      ensures ExpandedWord(Spell(words), |words|, 0 + k) == Read(words[k])
    {
      WordSpelled(words, k);
    }
  }

  /** The words between the turned one and the next, each the sum of two others; of eight, the fifth is left out. */
  predicate Follow(before: seq<bv32>, words: seq<bv32>)
    requires |before| == |words| && KeyWords(|words|)
  {
    && words[1] == Plus(before[1], words[0]) && words[2] == Plus(before[2], words[1]) && words[3] == Plus(before[3], words[2])
    && (|words| == 6 ==> words[4] == Plus(before[4], words[3]))
    && (|words| >= 6 ==> words[5] == Plus(before[5], words[4]))
    && (|words| == 8 ==> words[6] == Plus(before[6], words[5]) && words[7] == Plus(before[7], words[6]))
  }

  lemma AddRead(v: bv32, w: bv32)
    ensures AddWords(Read(v), Read(w)) == Read(Plus(v, w))
  {
  }

  lemma Unchanged(last: bv32, nk: nat, i: nat)
    requires KeyWords(nk) && i % nk != 0 && !(nk == 8 && i % nk == 4)
    ensures Turned(Read(last), nk, i) == Read(last)
  {
    hide Read, AddWords, SubWord, RotWord, RoundConstant;
  }

  lemma InGroup(nk: nat, from: nat, k: nat)
    requires KeyWords(nk) && from % nk == 0 && k < nk
    ensures (from + k) % nk == k
  {
    if nk == 4 { } else if nk == 6 { } else { assert nk == 8; }
  }

  lemma UnfoldWord(key: seq<byte>, nk: nat, i: nat)
    requires KeyWords(nk) && |key| == 4 * nk && i >= nk
    ensures ExpandedWord(key, nk, i) == AddWords(ExpandedWord(key, nk, i - nk), Turned(ExpandedWord(key, nk, i - 1), nk, i))
  {
    hide AddWords, Turned;
  }

  /**
   The next as many words as the key has: `first` is what is added to give the first of them, `middle`
   what is added to give the fifth of eight.
   */
  lemma NextWords(key: seq<byte>, nk: nat, from: nat, before: seq<bv32>, first: bv32, middle: bv32, words: seq<bv32>)
    requires KeyWords(nk) && |key| == 4 * nk && |before| == |words| == nk && from >= nk && from % nk == 0
    requires WordsAre(key, nk, from - nk, before)
    requires Turned(Read(before[nk - 1]), nk, from) == Read(first) && words[0] == Plus(before[0], first) && Follow(before, words)
    requires nk == 8 ==> Turned(Read(words[3]), nk, from + 4) == Read(middle) && words[4] == Plus(before[4], middle)
    ensures WordsAre(key, nk, from, words)
  {
    hide ExpandedWord, Turned, AddWords, Read, Plus, Follow, WordsAre;
    NoWords(key, nk, from, words);
    for k := 0 to nk
      invariant WordsAre(key, nk, from, words[..k])
    {
      NextWord(key, nk, from, before, first, middle, words, k);
      OneMore(key, nk, from, words, k);
    }
    assert words[..nk] == words;
  }

  lemma NoWords(key: seq<byte>, nk: nat, from: nat, words: seq<bv32>)
    requires KeyWords(nk) && |key| == 4 * nk
    ensures WordsAre(key, nk, from, words[..0])
  {
  }

  lemma OneMore(key: seq<byte>, nk: nat, from: nat, words: seq<bv32>, k: nat)
    requires k < |words| && WordsAre(key, nk, from, words[..k]) && ExpandedWord(key, nk, from + k) == Read(words[k])
    ensures WordsAre(key, nk, from, words[..k + 1])
  {
    hide ExpandedWord, Read;
    forall j | 0 <= j < k
      ensures ExpandedWord(key, nk, from + j) == Read(words[j])
    {
      assert words[..k][j] == words[j];
    }
  }

  lemma NextWord(key: seq<byte>, nk: nat, from: nat, before: seq<bv32>, first: bv32, middle: bv32, words: seq<bv32>, k: nat)
    requires KeyWords(nk) && |key| == 4 * nk && |before| == |words| == nk && from >= nk && from % nk == 0 && k < nk
    requires WordsAre(key, nk, from - nk, before) && WordsAre(key, nk, from, words[..k])
    requires Turned(Read(before[nk - 1]), nk, from) == Read(first) && words[0] == Plus(before[0], first) && Follow(before, words)
    requires nk == 8 ==> Turned(Read(words[3]), nk, from + 4) == Read(middle) && words[4] == Plus(before[4], middle)
    ensures ExpandedWord(key, nk, from + k) == Read(words[k])
  {
    hide ExpandedWord, Turned, AddWords, Read, Plus;
    var i := from + k;
    UnfoldWord(key, nk, i);
    assert ExpandedWord(key, nk, (from - nk) + k) == Read(before[k]);
    if k == 0 {
      assert ExpandedWord(key, nk, (from - nk) + (nk - 1)) == Read(before[nk - 1]);
      AddRead(before[0], first);
    } else {
      assert ExpandedWord(key, nk, from + (k - 1)) == Read(words[..k][k - 1]);
      InGroup(nk, from, k);
      if nk == 8 && k == 4 {
        AddRead(before[4], middle);
      } else {
        Unchanged(words[k - 1], nk, i);
        AddRead(before[k], words[k - 1]);
        Following(before, words, k);
      }
    }
  }

  lemma Following(before: seq<bv32>, words: seq<bv32>, k: nat)
    requires |before| == |words| && KeyWords(|words|) && Follow(before, words) && 0 < k < |words| && !(|words| == 8 && k == 4)
    ensures words[k] == Plus(before[k], words[k - 1])
  {
    hide Plus;
  }

  function Key128(): seq<bv32> {
    [0x2b7e_1516, 0x28ae_d2a6, 0xabf7_1588, 0x09cf_4f3c]
  }

  lemma Turned128At4()
    ensures Turned(Read(0x09cf_4f3c), 4, 4) == Read(0x8b84_eb01)
  {}

  lemma Turned128At8()
    ensures Turned(Read(0x2a6c_7605), 4, 8) == Read(0x5238_6be5)
  {}

  /** Words 4 to 11 of the expansion of the 128-bit key 2b7e1516 28aed2a6 abf71588 09cf4f3c (appendix A.1). */
  lemma Expansion128()
    ensures WordsAre(Spell(Key128()), 4, 4,
                     [0xa0fa_fe17, 0x8854_2cb1, 0x23a3_3939, 0x2a6c_7605])
    ensures WordsAre(Spell(Key128()), 4, 8,
                     [0xf2c2_95f2, 0x7a96_b943, 0x5935_807a, 0x7359_f67f])
  {
    hide WordsAre, Turned, Read, Spell;
    KeyItself(Key128());
    Turned128At4();
    NextWords(Spell(Key128()), 4, 4,
              Key128(),
              0x8b84_eb01, 0,
              [0xa0fa_fe17, 0x8854_2cb1, 0x23a3_3939, 0x2a6c_7605]);
    Turned128At8();
    NextWords(Spell(Key128()), 4, 8,
              [0xa0fa_fe17, 0x8854_2cb1, 0x23a3_3939, 0x2a6c_7605],
              0x5238_6be5, 0,
              [0xf2c2_95f2, 0x7a96_b943, 0x5935_807a, 0x7359_f67f]);
  }

  function Key192(): seq<bv32> {
    [0x8e73_b0f7, 0xda0e_6452, 0xc810_f32b, 0x8090_79e5, 0x62f8_ead2, 0x522c_6b7b]
  }

  lemma Turned192At6()
    ensures Turned(Read(0x522c_6b7b), 6, 6) == Read(0x707f_2100)
  {}

  lemma Turned192At12()
    ensures Turned(Read(0x5c56_fec2), 6, 12) == Read(0xb3bb_254a)
  {}

  /** Words 6 to 17 of the expansion of the 192-bit key of appendix A.2. */
  lemma Expansion192()
    ensures WordsAre(Spell(Key192()), 6, 6,
                     [0xfe0c_91f7, 0x2402_f5a5, 0xec12_068e, 0x6c82_7f6b, 0x0e7a_95b9, 0x5c56_fec2])
    ensures WordsAre(Spell(Key192()), 6, 12,
                     [0x4db7_b4bd, 0x69b5_4118, 0x85a7_4796, 0xe925_38fd, 0xe75f_ad44, 0xbb09_5386])
  {
    hide WordsAre, Turned, Read, Spell;
    KeyItself(Key192());
    Turned192At6();
    NextWords(Spell(Key192()), 6, 6,
              Key192(),
              0x707f_2100, 0,
              [0xfe0c_91f7, 0x2402_f5a5, 0xec12_068e, 0x6c82_7f6b, 0x0e7a_95b9, 0x5c56_fec2]);
    Turned192At12();
    NextWords(Spell(Key192()), 6, 12,
              [0xfe0c_91f7, 0x2402_f5a5, 0xec12_068e, 0x6c82_7f6b, 0x0e7a_95b9, 0x5c56_fec2],
              0xb3bb_254a, 0,
              [0x4db7_b4bd, 0x69b5_4118, 0x85a7_4796, 0xe925_38fd, 0xe75f_ad44, 0xbb09_5386]);
  }

  function Key256(): seq<bv32> {
    [0x603d_eb10, 0x15ca_71be, 0x2b73_aef0, 0x857d_7781, 0x1f35_2c07, 0x3b61_08d7, 0x2d98_10a3, 0x0914_dff4]
  }

  lemma Turned256At8()
    ensures Turned(Read(0x0914_dff4), 8, 8) == Read(0xfb9e_bf01)
  {}

  lemma Turned256At12()
    ensures Turned(Read(0x2067_fcde), 8, 12) == Read(0xb785_b01d)
  {}

  lemma Turned256At16()
    ensures Turned(Read(0xb75d_5b9a), 8, 16) == Read(0x4e39_b8a9)
  {}

  lemma Turned256At20()
    ensures Turned(Read(0xde8e_be96), 8, 20) == Read(0x1d19_ae90)
  {}

  /** Words 8 to 23 of the expansion of the 256-bit key of appendix A.3; words 12 and 20 are substituted without being turned. */
  lemma Expansion256()
    ensures WordsAre(Spell(Key256()), 8, 8,
                     [0x9ba3_5411, 0x8e69_25af, 0xa51a_8b5f, 0x2067_fcde, 0xa8b0_9c1a, 0x93d1_94cd, 0xbe49_846e, 0xb75d_5b9a])
    ensures WordsAre(Spell(Key256()), 8, 16,
                     [0xd59a_ecb8, 0x5bf3_c917, 0xfee9_4248, 0xde8e_be96, 0xb5a9_328a, 0x2678_a647, 0x9831_2229, 0x2f6c_79b3])
  {
    hide WordsAre, Turned, Read, Spell;
    KeyItself(Key256());
    Turned256At8();
    Turned256At12();
    NextWords(Spell(Key256()), 8, 8,
              Key256(),
              0xfb9e_bf01, 0xb785_b01d,
              [0x9ba3_5411, 0x8e69_25af, 0xa51a_8b5f, 0x2067_fcde, 0xa8b0_9c1a, 0x93d1_94cd, 0xbe49_846e, 0xb75d_5b9a]);
    Turned256At16();
    Turned256At20();
    NextWords(Spell(Key256()), 8, 16,
              [0x9ba3_5411, 0x8e69_25af, 0xa51a_8b5f, 0x2067_fcde, 0xa8b0_9c1a, 0x93d1_94cd, 0xbe49_846e, 0xb75d_5b9a],
              0x4e39_b8a9, 0x1d19_ae90,
              [0xd59a_ecb8, 0x5bf3_c917, 0xfee9_4248, 0xde8e_be96, 0xb5a9_328a, 0x2678_a647, 0x9831_2229, 0x2f6c_79b3]);
  }

  // ---------------------------------------------------------------------------------------
  // The cipher
  // ---------------------------------------------------------------------------------------

  /** A state as the standard prints it: its columns. */
  datatype State = State(a: bv32, b: bv32, c: bv32, d: bv32) {
    function Columns(): seq<bv32> {
      [a, b, c, d]
    }

    function Bytes(): Block {
      BlockOf(Read(a), Read(b), Read(c), Read(d))
    }
  }

  function ByteAt(w: Word, i: nat): byte {
    if i == 0 then w.b0 else if i == 1 then w.b1 else if i == 2 then w.b2 else w.b3
  }

  function ByteOf(a: Word, b: Word, c: Word, d: Word, k: nat): byte {
    if k < 4 then ByteAt(a, k) else if k < 8 then ByteAt(b, k - 4) else if k < 12 then ByteAt(c, k - 8) else ByteAt(d, k - 12)
  }

  function BlockOf(a: Word, b: Word, c: Word, d: Word): Block {
    seq(16, k requires 0 <= k < 16 => ByteOf(a, b, c, d, k))
  }

  lemma SubstitutedIs(a: Word, b: Word, c: Word, d: Word)
    ensures SubBytes(BlockOf(a, b, c, d)) == BlockOf(SubWord(a), SubWord(b), SubWord(c), SubWord(d))
  {
    hide Sbox;
  }

  function Column(a: Word, b: Word, c: Word, d: Word, j: nat): Word {
    if j == 0 then a else if j == 1 then b else if j == 2 then c else d
  }

  lemma InColumn(a: Word, b: Word, c: Word, d: Word, j: nat, i: nat)
    requires j < 4 && i < 4
    ensures ByteOf(a, b, c, d, 4 * j + i) == ByteAt(Column(a, b, c, d, j), i)
  {
    hide ByteAt;
    assert j == 0 || j == 1 || j == 2 || j == 3;
  }

  lemma ShiftedAt(a: Word, b: Word, c: Word, d: Word, j: nat, i: nat)
    requires j < 4 && i < 4
    ensures ByteOf(a, b, c, d, Right(4 * j + i, i))
         == ByteOf(Word(a.b0, b.b1, c.b2, d.b3), Word(b.b0, c.b1, d.b2, a.b3), Word(c.b0, d.b1, a.b2, b.b3), Word(d.b0, a.b1, b.b2, c.b3), 4 * j + i)
  {
    hide ByteOf;
    var from := if j + i < 4 then j + i else j + i - 4;
    assert Right(4 * j + i, i) == 4 * from + i;
    InColumn(a, b, c, d, from, i);
    InColumn(Word(a.b0, b.b1, c.b2, d.b3), Word(b.b0, c.b1, d.b2, a.b3), Word(c.b0, d.b1, a.b2, b.b3), Word(d.b0, a.b1, b.b2, c.b3), j, i);
    if i == 0 { } else if i == 1 { } else if i == 2 { } else { assert i == 3; }
  }

  /** The rows turned left by 0, 1, 2 and 3 columns, written out. */
  lemma ShiftedIs(a: Word, b: Word, c: Word, d: Word)
    ensures ShiftRows(BlockOf(a, b, c, d))
         == BlockOf(Word(a.b0, b.b1, c.b2, d.b3), Word(b.b0, c.b1, d.b2, a.b3), Word(c.b0, d.b1, a.b2, b.b3), Word(d.b0, a.b1, b.b2, c.b3))
  {
    hide ByteOf, Right;
    var t := BlockOf(Word(a.b0, b.b1, c.b2, d.b3), Word(b.b0, c.b1, d.b2, a.b3), Word(c.b0, d.b1, a.b2, b.b3), Word(d.b0, a.b1, b.b2, c.b3));
    forall k | 0 <= k < 16
      ensures ShiftRows(BlockOf(a, b, c, d))[k] == t[k]
    {
      ShiftedAt(a, b, c, d, k / 4, k % 4);
      assert 4 * (k / 4) + k % 4 == k;
    }
  }

  function Mixed(w: Word): Word {
    Word(MixByte(w.b0, w.b1, w.b2, w.b3), MixByte(w.b1, w.b2, w.b3, w.b0), MixByte(w.b2, w.b3, w.b0, w.b1), MixByte(w.b3, w.b0, w.b1, w.b2))
  }

  lemma MixedAt(a: Word, b: Word, c: Word, d: Word, j: nat, i: nat)
    requires j < 4 && i < 4
    ensures MixAt(BlockOf(a, b, c, d), 4 * j + i) == ByteOf(Mixed(a), Mixed(b), Mixed(c), Mixed(d), 4 * j + i)
  {
    hide MixByte, MixAt, ByteOf, Column;
    var s := BlockOf(a, b, c, d);
    ColumnBytes(s, 4 * j);
    InColumn(a, b, c, d, j, 0);
    InColumn(a, b, c, d, j, 1);
    InColumn(a, b, c, d, j, 2);
    InColumn(a, b, c, d, j, 3);
    InColumn(Mixed(a), Mixed(b), Mixed(c), Mixed(d), j, i);
    MixedColumn(a, b, c, d, j);
    if i == 0 { } else if i == 1 { } else if i == 2 { } else { assert i == 3; }
  }

  lemma MixedColumn(a: Word, b: Word, c: Word, d: Word, j: nat)
    ensures Column(Mixed(a), Mixed(b), Mixed(c), Mixed(d), j) == Mixed(Column(a, b, c, d, j))
  {
    hide Mixed;
  }

  lemma MixedIs(a: Word, b: Word, c: Word, d: Word)
    ensures MixColumns(BlockOf(a, b, c, d)) == BlockOf(Mixed(a), Mixed(b), Mixed(c), Mixed(d))
  {
    hide MixByte, MixAt, ByteOf;
    var s := BlockOf(a, b, c, d);
    forall k | 0 <= k < 16
      ensures MixAt(s, k) == ByteOf(Mixed(a), Mixed(b), Mixed(c), Mixed(d), k)
    {
      MixedAt(a, b, c, d, k / 4, k % 4);
      assert 4 * (k / 4) + k % 4 == k;
    }
  }

  lemma SumIs(a: Word, b: Word, c: Word, d: Word, e: Word, f: Word, g: Word, h: Word)
    ensures AddBlocks(BlockOf(a, b, c, d), BlockOf(e, f, g, h)) == BlockOf(AddWords(a, e), AddWords(b, f), AddWords(c, g), AddWords(d, h))
  {
    hide Add, ByteOf, AddWords;
    forall k | 0 <= k < 16
      ensures Add(ByteOf(a, b, c, d, k), ByteOf(e, f, g, h, k)) == ByteOf(AddWords(a, e), AddWords(b, f), AddWords(c, g), AddWords(d, h), k)
    {
      SumAt(a, b, c, d, e, f, g, h, k);
    }
  }

  lemma SumAt(a: Word, b: Word, c: Word, d: Word, e: Word, f: Word, g: Word, h: Word, k: nat)
    requires k < 16
    ensures Add(ByteOf(a, b, c, d, k), ByteOf(e, f, g, h, k)) == ByteOf(AddWords(a, e), AddWords(b, f), AddWords(c, g), AddWords(d, h), k)
  {
    hide Add;
  }

  lemma MixByteIs(a: byte, b: byte, c: byte, d: byte)
    ensures MixByte(a, b, c, d) == Add(XTime(a), Add(XTime(b), Add(b, Add(c, d))))
  {
    hide XTime, Multiply, GfMul, Sum, Add;
    MultiplyIsProduct(a, 2);
    MultiplyIsProduct(b, 3);
    MultiplyTwoThree(a);
    MultiplyTwoThree(b);
    PlusIsAdd(XTime(b), b);
    SumAsAdds(XTime(a), XTime(b), b, c, d);
  }

  lemma PlusIsAdd(x: byte, y: byte)
    ensures x ^ y == Add(x, y)
  {
  }

  lemma SumAsAdds(p: byte, q: byte, b: byte, c: byte, d: byte)
    ensures Sum(p, Add(q, b), c, d) == Add(p, Add(q, Add(b, Add(c, d))))
  {
    hide Add;
    AddAssociative(p, Add(q, b), Add(c, d));
    AddAssociative(q, b, Add(c, d));
  }

  /** A column times the matrix of 2, 3, 1 and 1. */
  function Matrix(w: Word): Word {
    Word(Add(XTime(w.b0), Add(XTime(w.b1), Add(w.b1, Add(w.b2, w.b3)))),
         Add(XTime(w.b1), Add(XTime(w.b2), Add(w.b2, Add(w.b3, w.b0)))),
         Add(XTime(w.b2), Add(XTime(w.b3), Add(w.b3, Add(w.b0, w.b1)))),
         Add(XTime(w.b3), Add(XTime(w.b0), Add(w.b0, Add(w.b1, w.b2)))))
  }

  lemma MixedIsMatrix(w: Word)
    ensures Mixed(w) == Matrix(w)
  {
    hide MixByte, XTime, Add;
    MixByteIs(w.b0, w.b1, w.b2, w.b3);
    MixByteIs(w.b1, w.b2, w.b3, w.b0);
    MixByteIs(w.b2, w.b3, w.b0, w.b1);
    MixByteIs(w.b3, w.b0, w.b1, w.b2);
  }

  predicate AreSubstituted(s: State, t: State) {
    IsSubstituted(s.a, t.a) && IsSubstituted(s.b, t.b) && IsSubstituted(s.c, t.c) && IsSubstituted(s.d, t.d)
  }

  predicate IsSubstituted(x: bv32, y: bv32) {
    SubWord(Read(x)) == Read(y)
  }

  predicate AreShifted(s: State, t: State) {
    var (a, b, c, d) := (Read(s.a), Read(s.b), Read(s.c), Read(s.d));
    && Read(t.a) == Word(a.b0, b.b1, c.b2, d.b3) && Read(t.b) == Word(b.b0, c.b1, d.b2, a.b3)
    && Read(t.c) == Word(c.b0, d.b1, a.b2, b.b3) && Read(t.d) == Word(d.b0, a.b1, b.b2, c.b3)
  }

  predicate AreMixed(s: State, t: State) {
    Matrix(Read(s.a)) == Read(t.a) && Matrix(Read(s.b)) == Read(t.b) && Matrix(Read(s.c)) == Read(t.c) && Matrix(Read(s.d)) == Read(t.d)
  }

  function Sums(s: State, k: State): State {
    State(Plus(s.a, k.a), Plus(s.b, k.b), Plus(s.c, k.c), Plus(s.d, k.d))
  }

  lemma SubstitutedAre(s: State, t: State)
    requires AreSubstituted(s, t)
    ensures SubBytes(s.Bytes()) == t.Bytes()
  {
    hide Read, SubWord, BlockOf, SubBytes;
    SubstitutedIs(Read(s.a), Read(s.b), Read(s.c), Read(s.d));
  }

  lemma ShiftedAre(s: State, t: State)
    requires AreShifted(s, t)
    ensures ShiftRows(s.Bytes()) == t.Bytes()
  {
    hide Read, BlockOf, ShiftRows;
    ShiftedIs(Read(s.a), Read(s.b), Read(s.c), Read(s.d));
  }

  lemma MixedAre(s: State, t: State)
    requires AreMixed(s, t)
    ensures MixColumns(s.Bytes()) == t.Bytes()
  {
    hide Read, BlockOf, MixColumns, Matrix, Mixed;
    MixedIs(Read(s.a), Read(s.b), Read(s.c), Read(s.d));
    MixedIsMatrix(Read(s.a));
    MixedIsMatrix(Read(s.b));
    MixedIsMatrix(Read(s.c));
    MixedIsMatrix(Read(s.d));
  }

  lemma SumsAre(s: State, k: State)
    ensures AddBlocks(s.Bytes(), k.Bytes()) == Sums(s, k).Bytes()
  {
    hide Read, BlockOf, AddBlocks, AddWords, Plus;
    SumIs(Read(s.a), Read(s.b), Read(s.c), Read(s.d), Read(k.a), Read(k.b), Read(k.c), Read(k.d));
    AddRead(s.a, k.a);
    AddRead(s.b, k.b);
    AddRead(s.c, k.c);
    AddRead(s.d, k.d);
  }

  /** The key 00010203 04050607 08090a0b 0c0d0e0f. */
  function KeyC1(): seq<bv32> {
    [0x0001_0203, 0x0405_0607, 0x0809_0a0b, 0x0c0d_0e0f]
  }

  function KeysC1(): (keys: seq<Block>)
    ensures |keys| == 11
  {
    KeySchedule(Spell(KeyC1()), 4)
  }

  /** Round key `r`. */
  ghost predicate KeyIs(r: nat, k: State) {
    r < 11 && KeysC1()[r] == k.Bytes()
  }

  lemma RoundKeySpelled(r: nat, k: State)
    requires r < 11 && WordsAre(Spell(KeyC1()), 4, 4 * r, k.Columns())
    ensures KeyIs(r, k)
  {
    hide ExpandedWord, Read, Spell, KeyC1;
    var key, words := Spell(KeyC1()), k.Columns();
    forall i | 0 <= i < 16
      ensures RoundKeyOf(key, 4, r)[i] == k.Bytes()[i]
    {
      KeyByteOf(key, r, i / 4, i % 4);
      assert ExpandedWord(key, 4, 4 * r + i / 4) == Read(words[i / 4]);
      ColumnAt(k, i / 4, i % 4);
      assert i == 4 * (i / 4) + i % 4;
    }
    assert RoundKeyOf(key, 4, r) == k.Bytes();
  }

  lemma ColumnAt(k: State, j: nat, i: nat)
    requires j < 4 && i < 4
    ensures k.Bytes()[4 * j + i] == Read(k.Columns()[j]).Bytes()[i]
  {
    hide Read, ByteOf, ByteAt, Column;
    InColumn(Read(k.a), Read(k.b), Read(k.c), Read(k.d), j, i);
    ColumnIs(k, j);
    ByteAtIs(Read(k.Columns()[j]), i);
  }

  lemma ColumnIs(k: State, j: nat)
    requires j < 4
    ensures Column(Read(k.a), Read(k.b), Read(k.c), Read(k.d), j) == Read(k.Columns()[j])
  {
    hide Read;
    if j == 0 { } else if j == 1 { } else if j == 2 { } else { assert j == 3; }
  }

  lemma ByteAtIs(w: Word, i: nat)
    requires i < 4
    ensures w.Bytes()[i] == ByteAt(w, i)
  {
  }

  lemma KeyByteOf(key: seq<byte>, r: nat, j: nat, i: nat)
    requires |key| == 16 && j < 4 && i < 4
    ensures var w := ExpandedWord(key, 4, 4 * r + j); KeyByte(key, 4, 16 * r + (4 * j + i)) == w.Bytes()[i]
  {
    hide ExpandedWord;
    KeyBytesOfWord(key, 4, 4 * r + j);
    assert 16 * r + (4 * j + i) == 4 * (4 * r + j) + i;
  }

  const PLAIN: State := State(0x0011_2233, 0x4455_6677, 0x8899_aabb, 0xccdd_eeff)

  /** The state after round `r`. */
  ghost predicate StateIs(r: nat, s: State) {
    r < 11 && AesStandard.Rounds(KeysC1(), PLAIN.Bytes(), r) == s.Bytes()
  }

  lemma FirstState(key: State)
    requires KeyIs(0, key)
    ensures StateIs(0, Sums(PLAIN, key))
  {
    hide KeysC1, Sums, AddBlocks, BlockOf;
    SumsAre(PLAIN, key);
  }

  lemma NextState(r: nat, s: State, substituted: State, shifted: State, mixed: State, key: State)
    requires 0 < r < 11 && StateIs(r - 1, s) && KeyIs(r, key)
    requires AreSubstituted(s, substituted) && AreShifted(substituted, shifted) && AreMixed(shifted, mixed)
    ensures StateIs(r, Sums(mixed, key))
  {
    hide KeysC1, Sums, AddBlocks, AreMixed, MixColumns, AreShifted, ShiftRows, AreSubstituted, SubBytes, BlockOf;
    SubstitutedAre(s, substituted);
    ShiftedAre(substituted, shifted);
    MixedAre(shifted, mixed);
    SumsAre(mixed, key);
  }

  lemma TurnedC1At4()
    ensures Turned(Read(0x0c0d_0e0f), 4, 4) == Read(0xd6ab_76fe)
  {}

  lemma TurnedC1At8()
    ensures Turned(Read(0xd6ab_76fe), 4, 8) == Read(0x6038_bbf6)
  {}

  lemma TurnedC1At12()
    ensures Turned(Read(0x6830_b3fe), 4, 12) == Read(0x006d_bb45)
  {}

  lemma TurnedC1At16()
    ensures Turned(Read(0x0469_bf41), 4, 16) == Read(0xf108_83f2)
  {}

  lemma TurnedC1At20()
    ensures Turned(Read(0xfd05_8dfd), 4, 20) == Read(0x7b5d_5454)
  {}

  lemma TurnedC1At24()
    ensures Turned(Read(0xadf6_22aa), 4, 24) == Read(0x6293_ac95)
  {}

  lemma TurnedC1At28()
    ensures Turned(Read(0x0aa3_1f6b), 4, 28) == Read(0x4ac0_7f67)
  {}

  lemma TurnedC1At32()
    ensures Turned(Read(0x4ea9_c026), 4, 32) == Read(0x53ba_f72f)
  {}

  lemma TurnedC1At36()
    ensures Turned(Read(0xaebf_7ad2), 4, 36) == Read(0x13da_b5e4)
  {}

  lemma TurnedC1At40()
    ensures Turned(Read(0xbe2c_974e), 4, 40) == Read(0x4788_2fae)
  {}

  /** The round keys of the example. */
  lemma ExpansionC1(r: nat)
    requires r < 11
    ensures r == 0 ==> WordsAre(Spell(KeyC1()), 4, 0, KeyC1())
    ensures r == 1 ==> WordsAre(Spell(KeyC1()), 4, 4 * r, [0xd6aa_74fd, 0xd2af_72fa, 0xdaa6_78f1, 0xd6ab_76fe])
    ensures r == 2 ==> WordsAre(Spell(KeyC1()), 4, 4 * r, [0xb692_cf0b, 0x643d_bdf1, 0xbe9b_c500, 0x6830_b3fe])
    ensures r == 3 ==> WordsAre(Spell(KeyC1()), 4, 4 * r, [0xb6ff_744e, 0xd2c2_c9bf, 0x6c59_0cbf, 0x0469_bf41])
    ensures r == 4 ==> WordsAre(Spell(KeyC1()), 4, 4 * r, [0x47f7_f7bc, 0x9535_3e03, 0xf96c_32bc, 0xfd05_8dfd])
    ensures r == 5 ==> WordsAre(Spell(KeyC1()), 4, 4 * r, [0x3caa_a3e8, 0xa99f_9deb, 0x50f3_af57, 0xadf6_22aa])
    ensures r == 6 ==> WordsAre(Spell(KeyC1()), 4, 4 * r, [0x5e39_0f7d, 0xf7a6_9296, 0xa755_3dc1, 0x0aa3_1f6b])
    ensures r == 7 ==> WordsAre(Spell(KeyC1()), 4, 4 * r, [0x14f9_701a, 0xe35f_e28c, 0x440a_df4d, 0x4ea9_c026])
    ensures r == 8 ==> WordsAre(Spell(KeyC1()), 4, 4 * r, [0x4743_8735, 0xa41c_65b9, 0xe016_baf4, 0xaebf_7ad2])
    ensures r == 9 ==> WordsAre(Spell(KeyC1()), 4, 4 * r, [0x5499_32d1, 0xf085_5768, 0x1093_ed9c, 0xbe2c_974e])
    ensures r == 10 ==> WordsAre(Spell(KeyC1()), 4, 4 * r, [0x1311_1d7f, 0xe394_4a17, 0xf307_a78b, 0x4d2b_30c5])
    decreases r
  {
    hide WordsAre, Turned, Read, Spell;
    if r == 0 {
      KeyItself(KeyC1());
    } else {
      ExpansionC1(r - 1);
      match r {
        case 1 =>
          TurnedC1At4();
          NextWords(Spell(KeyC1()), 4, 4, KeyC1(), 0xd6ab_76fe, 0,
                    [0xd6aa_74fd, 0xd2af_72fa, 0xdaa6_78f1, 0xd6ab_76fe]);
        case 2 =>
          TurnedC1At8();
          NextWords(Spell(KeyC1()), 4, 8, [0xd6aa_74fd, 0xd2af_72fa, 0xdaa6_78f1, 0xd6ab_76fe], 0x6038_bbf6, 0,
                    [0xb692_cf0b, 0x643d_bdf1, 0xbe9b_c500, 0x6830_b3fe]);
        case 3 =>
          TurnedC1At12();
          NextWords(Spell(KeyC1()), 4, 12, [0xb692_cf0b, 0x643d_bdf1, 0xbe9b_c500, 0x6830_b3fe], 0x006d_bb45, 0,
                    [0xb6ff_744e, 0xd2c2_c9bf, 0x6c59_0cbf, 0x0469_bf41]);
        case 4 =>
          TurnedC1At16();
          NextWords(Spell(KeyC1()), 4, 16, [0xb6ff_744e, 0xd2c2_c9bf, 0x6c59_0cbf, 0x0469_bf41], 0xf108_83f2, 0,
                    [0x47f7_f7bc, 0x9535_3e03, 0xf96c_32bc, 0xfd05_8dfd]);
        case 5 =>
          TurnedC1At20();
          NextWords(Spell(KeyC1()), 4, 20, [0x47f7_f7bc, 0x9535_3e03, 0xf96c_32bc, 0xfd05_8dfd], 0x7b5d_5454, 0,
                    [0x3caa_a3e8, 0xa99f_9deb, 0x50f3_af57, 0xadf6_22aa]);
        case 6 =>
          TurnedC1At24();
          NextWords(Spell(KeyC1()), 4, 24, [0x3caa_a3e8, 0xa99f_9deb, 0x50f3_af57, 0xadf6_22aa], 0x6293_ac95, 0,
                    [0x5e39_0f7d, 0xf7a6_9296, 0xa755_3dc1, 0x0aa3_1f6b]);
        case 7 =>
          TurnedC1At28();
          NextWords(Spell(KeyC1()), 4, 28, [0x5e39_0f7d, 0xf7a6_9296, 0xa755_3dc1, 0x0aa3_1f6b], 0x4ac0_7f67, 0,
                    [0x14f9_701a, 0xe35f_e28c, 0x440a_df4d, 0x4ea9_c026]);
        case 8 =>
          TurnedC1At32();
          NextWords(Spell(KeyC1()), 4, 32, [0x14f9_701a, 0xe35f_e28c, 0x440a_df4d, 0x4ea9_c026], 0x53ba_f72f, 0,
                    [0x4743_8735, 0xa41c_65b9, 0xe016_baf4, 0xaebf_7ad2]);
        case 9 =>
          TurnedC1At36();
          NextWords(Spell(KeyC1()), 4, 36, [0x4743_8735, 0xa41c_65b9, 0xe016_baf4, 0xaebf_7ad2], 0x13da_b5e4, 0,
                    [0x5499_32d1, 0xf085_5768, 0x1093_ed9c, 0xbe2c_974e]);
        case _ =>
          TurnedC1At40();
          NextWords(Spell(KeyC1()), 4, 40, [0x5499_32d1, 0xf085_5768, 0x1093_ed9c, 0xbe2c_974e], 0x4788_2fae, 0,
                    [0x1311_1d7f, 0xe394_4a17, 0xf307_a78b, 0x4d2b_30c5]);
      }
    }
  }

  lemma RoundKey0()
    ensures KeyIs(0, State(0x0001_0203, 0x0405_0607, 0x0809_0a0b, 0x0c0d_0e0f))
  {
    hide WordsAre, KeyIs, Spell;
    ExpansionC1(0);
    RoundKeySpelled(0, State(0x0001_0203, 0x0405_0607, 0x0809_0a0b, 0x0c0d_0e0f));
  }

  lemma RoundKey1()
    ensures KeyIs(1, State(0xd6aa_74fd, 0xd2af_72fa, 0xdaa6_78f1, 0xd6ab_76fe))
  {
    hide WordsAre, KeyIs, Spell;
    ExpansionC1(1);
    RoundKeySpelled(1, State(0xd6aa_74fd, 0xd2af_72fa, 0xdaa6_78f1, 0xd6ab_76fe));
  }

  lemma RoundKey2()
    ensures KeyIs(2, State(0xb692_cf0b, 0x643d_bdf1, 0xbe9b_c500, 0x6830_b3fe))
  {
    hide WordsAre, KeyIs, Spell;
    ExpansionC1(2);
    RoundKeySpelled(2, State(0xb692_cf0b, 0x643d_bdf1, 0xbe9b_c500, 0x6830_b3fe));
  }

  lemma RoundKey3()
    ensures KeyIs(3, State(0xb6ff_744e, 0xd2c2_c9bf, 0x6c59_0cbf, 0x0469_bf41))
  {
    hide WordsAre, KeyIs, Spell;
    ExpansionC1(3);
    RoundKeySpelled(3, State(0xb6ff_744e, 0xd2c2_c9bf, 0x6c59_0cbf, 0x0469_bf41));
  }

  lemma RoundKey4()
    ensures KeyIs(4, State(0x47f7_f7bc, 0x9535_3e03, 0xf96c_32bc, 0xfd05_8dfd))
  {
    hide WordsAre, KeyIs, Spell;
    ExpansionC1(4);
    RoundKeySpelled(4, State(0x47f7_f7bc, 0x9535_3e03, 0xf96c_32bc, 0xfd05_8dfd));
  }

  lemma RoundKey5()
    ensures KeyIs(5, State(0x3caa_a3e8, 0xa99f_9deb, 0x50f3_af57, 0xadf6_22aa))
  {
    hide WordsAre, KeyIs, Spell;
    ExpansionC1(5);
    RoundKeySpelled(5, State(0x3caa_a3e8, 0xa99f_9deb, 0x50f3_af57, 0xadf6_22aa));
  }

  lemma RoundKey6()
    ensures KeyIs(6, State(0x5e39_0f7d, 0xf7a6_9296, 0xa755_3dc1, 0x0aa3_1f6b))
  {
    hide WordsAre, KeyIs, Spell;
    ExpansionC1(6);
    RoundKeySpelled(6, State(0x5e39_0f7d, 0xf7a6_9296, 0xa755_3dc1, 0x0aa3_1f6b));
  }

  lemma RoundKey7()
    ensures KeyIs(7, State(0x14f9_701a, 0xe35f_e28c, 0x440a_df4d, 0x4ea9_c026))
  {
    hide WordsAre, KeyIs, Spell;
    ExpansionC1(7);
    RoundKeySpelled(7, State(0x14f9_701a, 0xe35f_e28c, 0x440a_df4d, 0x4ea9_c026));
  }

  lemma RoundKey8()
    ensures KeyIs(8, State(0x4743_8735, 0xa41c_65b9, 0xe016_baf4, 0xaebf_7ad2))
  {
    hide WordsAre, KeyIs, Spell;
    ExpansionC1(8);
    RoundKeySpelled(8, State(0x4743_8735, 0xa41c_65b9, 0xe016_baf4, 0xaebf_7ad2));
  }

  lemma RoundKey9()
    ensures KeyIs(9, State(0x5499_32d1, 0xf085_5768, 0x1093_ed9c, 0xbe2c_974e))
  {
    hide WordsAre, KeyIs, Spell;
    ExpansionC1(9);
    RoundKeySpelled(9, State(0x5499_32d1, 0xf085_5768, 0x1093_ed9c, 0xbe2c_974e));
  }

  lemma RoundKey10()
    ensures KeyIs(10, State(0x1311_1d7f, 0xe394_4a17, 0xf307_a78b, 0x4d2b_30c5))
  {
    hide WordsAre, KeyIs, Spell;
    ExpansionC1(10);
    RoundKeySpelled(10, State(0x1311_1d7f, 0xe394_4a17, 0xf307_a78b, 0x4d2b_30c5));
  }

  lemma State0()
    ensures StateIs(0, State(0x0010_2030, 0x4050_6070, 0x8090_a0b0, 0xc0d0_e0f0))
  {
    hide StateIs, KeyIs;
    RoundKey0();
    FirstState(State(0x0001_0203, 0x0405_0607, 0x0809_0a0b, 0x0c0d_0e0f));
  }

  lemma Substituted1At0()
    ensures IsSubstituted(0x0010_2030, 0x63ca_b704)
  {}

  lemma Substituted1At1()
    ensures IsSubstituted(0x4050_6070, 0x0953_d051)
  {}

  lemma Substituted1At2()
    ensures IsSubstituted(0x8090_a0b0, 0xcd60_e0e7)
  {}

  lemma Substituted1At3()
    ensures IsSubstituted(0xc0d0_e0f0, 0xba70_e18c)
  {}

  lemma Mixed1()
    ensures AreShifted(State(0x63ca_b704, 0x0953_d051, 0xcd60_e0e7, 0xba70_e18c),
                       State(0x6353_e08c, 0x0960_e104, 0xcd70_b751, 0xbaca_d0e7))
    ensures AreMixed(State(0x6353_e08c, 0x0960_e104, 0xcd70_b751, 0xbaca_d0e7),
                     State(0x5f72_6415, 0x57f5_bc92, 0xf7be_3b29, 0x1db9_f91a))
  {}

  lemma State1()
    ensures StateIs(1, State(0x89d8_10e8, 0x855a_ce68, 0x2d18_43d8, 0xcb12_8fe4))
  {
    hide StateIs, KeyIs, IsSubstituted, AreMixed, AreShifted;
    State0();
    RoundKey1();
    Substituted1At0();
    Substituted1At1();
    Substituted1At2();
    Substituted1At3();
    Mixed1();
    NextState(1, State(0x0010_2030, 0x4050_6070, 0x8090_a0b0, 0xc0d0_e0f0),
              State(0x63ca_b704, 0x0953_d051, 0xcd60_e0e7, 0xba70_e18c),
              State(0x6353_e08c, 0x0960_e104, 0xcd70_b751, 0xbaca_d0e7),
              State(0x5f72_6415, 0x57f5_bc92, 0xf7be_3b29, 0x1db9_f91a),
              State(0xd6aa_74fd, 0xd2af_72fa, 0xdaa6_78f1, 0xd6ab_76fe));
  }

  lemma Substituted2At0()
    ensures IsSubstituted(0x89d8_10e8, 0xa761_ca9b)
  {}

  lemma Substituted2At1()
    ensures IsSubstituted(0x855a_ce68, 0x97be_8b45)
  {}

  lemma Substituted2At2()
    ensures IsSubstituted(0x2d18_43d8, 0xd8ad_1a61)
  {}

  lemma Substituted2At3()
    ensures IsSubstituted(0xcb12_8fe4, 0x1fc9_7369)
  {}

  lemma Mixed2()
    ensures AreShifted(State(0xa761_ca9b, 0x97be_8b45, 0xd8ad_1a61, 0x1fc9_7369),
                       State(0xa7be_1a69, 0x97ad_739b, 0xd8c9_ca45, 0x1f61_8b61))
    ensures AreMixed(State(0xa7be_1a69, 0x97ad_739b, 0xd8c9_ca45, 0x1f61_8b61),
                     State(0xff87_9684, 0x31d8_6a51, 0x6451_51fa, 0x773a_d009))
  {}

  lemma State2()
    ensures StateIs(2, State(0x4915_598f, 0x55e5_d7a0, 0xdaca_94fa, 0x1f0a_63f7))
  {
    hide StateIs, KeyIs, IsSubstituted, AreMixed, AreShifted;
    State1();
    RoundKey2();
    Substituted2At0();
    Substituted2At1();
    Substituted2At2();
    Substituted2At3();
    Mixed2();
    NextState(2, State(0x89d8_10e8, 0x855a_ce68, 0x2d18_43d8, 0xcb12_8fe4),
              State(0xa761_ca9b, 0x97be_8b45, 0xd8ad_1a61, 0x1fc9_7369),
              State(0xa7be_1a69, 0x97ad_739b, 0xd8c9_ca45, 0x1f61_8b61),
              State(0xff87_9684, 0x31d8_6a51, 0x6451_51fa, 0x773a_d009),
              State(0xb692_cf0b, 0x643d_bdf1, 0xbe9b_c500, 0x6830_b3fe));
  }

  lemma Substituted3At0()
    ensures IsSubstituted(0x4915_598f, 0x3b59_cb73)
  {}

  lemma Substituted3At1()
    ensures IsSubstituted(0x55e5_d7a0, 0xfcd9_0ee0)
  {}

  lemma Substituted3At2()
    ensures IsSubstituted(0xdaca_94fa, 0x5774_222d)
  {}

  lemma Substituted3At3()
    ensures IsSubstituted(0x1f0a_63f7, 0xc067_fb68)
  {}

  lemma Mixed3()
    ensures AreShifted(State(0x3b59_cb73, 0xfcd9_0ee0, 0x5774_222d, 0xc067_fb68),
                       State(0x3bd9_2268, 0xfc74_fb73, 0x5767_cbe0, 0xc059_0e2d))
    ensures AreMixed(State(0x3bd9_2268, 0xfc74_fb73, 0x5767_cbe0, 0xc059_0e2d),
                     State(0x4c9c_1e66, 0xf771_f076, 0x2c3f_868e, 0x534d_f256))
  {}

  lemma State3()
    ensures StateIs(3, State(0xfa63_6a28, 0x25b3_39c9, 0x4066_8a31, 0x5724_4d17))
  {
    hide StateIs, KeyIs, IsSubstituted, AreMixed, AreShifted;
    State2();
    RoundKey3();
    Substituted3At0();
    Substituted3At1();
    Substituted3At2();
    Substituted3At3();
    Mixed3();
    NextState(3, State(0x4915_598f, 0x55e5_d7a0, 0xdaca_94fa, 0x1f0a_63f7),
              State(0x3b59_cb73, 0xfcd9_0ee0, 0x5774_222d, 0xc067_fb68),
              State(0x3bd9_2268, 0xfc74_fb73, 0x5767_cbe0, 0xc059_0e2d),
              State(0x4c9c_1e66, 0xf771_f076, 0x2c3f_868e, 0x534d_f256),
              State(0xb6ff_744e, 0xd2c2_c9bf, 0x6c59_0cbf, 0x0469_bf41));
  }

  lemma Substituted4At0()
    ensures IsSubstituted(0xfa63_6a28, 0x2dfb_0234)
  {}

  lemma Substituted4At1()
    ensures IsSubstituted(0x25b3_39c9, 0x3f6d_12dd)
  {}

  lemma Substituted4At2()
    ensures IsSubstituted(0x4066_8a31, 0x0933_7ec7)
  {}

  lemma Substituted4At3()
    ensures IsSubstituted(0x5724_4d17, 0x5b36_e3f0)
  {}

  lemma Mixed4()
    ensures AreShifted(State(0x2dfb_0234, 0x3f6d_12dd, 0x0933_7ec7, 0x5b36_e3f0),
                       State(0x2d6d_7ef0, 0x3f33_e334, 0x0936_02dd, 0x5bfb_12c7))
    ensures AreMixed(State(0x2d6d_7ef0, 0x3f33_e334, 0x0936_02dd, 0x5bfb_12c7),
                     State(0x6385_b79f, 0xfc53_8df9, 0x97be_478e, 0x7547_d691))
  {}

  lemma State4()
    ensures StateIs(4, State(0x2472_4023, 0x6966_b3fa, 0x6ed2_7532, 0x8842_5b6c))
  {
    hide StateIs, KeyIs, IsSubstituted, AreMixed, AreShifted;
    State3();
    RoundKey4();
    Substituted4At0();
    Substituted4At1();
    Substituted4At2();
    Substituted4At3();
    Mixed4();
    NextState(4, State(0xfa63_6a28, 0x25b3_39c9, 0x4066_8a31, 0x5724_4d17),
              State(0x2dfb_0234, 0x3f6d_12dd, 0x0933_7ec7, 0x5b36_e3f0),
              State(0x2d6d_7ef0, 0x3f33_e334, 0x0936_02dd, 0x5bfb_12c7),
              State(0x6385_b79f, 0xfc53_8df9, 0x97be_478e, 0x7547_d691),
              State(0x47f7_f7bc, 0x9535_3e03, 0xf96c_32bc, 0xfd05_8dfd));
  }

  lemma Substituted5At0()
    ensures IsSubstituted(0x2472_4023, 0x3640_0926)
  {}

  lemma Substituted5At1()
    ensures IsSubstituted(0x6966_b3fa, 0xf933_6d2d)
  {}

  lemma Substituted5At2()
    ensures IsSubstituted(0x6ed2_7532, 0x9fb5_9d23)
  {}

  lemma Substituted5At3()
    ensures IsSubstituted(0x8842_5b6c, 0xc42c_3950)
  {}

  lemma Mixed5()
    ensures AreShifted(State(0x3640_0926, 0xf933_6d2d, 0x9fb5_9d23, 0xc42c_3950),
                       State(0x3633_9d50, 0xf9b5_3926, 0x9f2c_092d, 0xc440_6d23))
    ensures AreMixed(State(0x3633_9d50, 0xf9b5_3926, 0x9f2c_092d, 0xc440_6d23),
                     State(0xf4bc_d454, 0x32e5_54d0, 0x75f1_d6c5, 0x1dd0_3b3c))
  {}

  lemma State5()
    ensures StateIs(5, State(0xc816_77bc, 0x9b7a_c93b, 0x2502_7992, 0xb026_1996))
  {
    hide StateIs, KeyIs, IsSubstituted, AreMixed, AreShifted;
    State4();
    RoundKey5();
    Substituted5At0();
    Substituted5At1();
    Substituted5At2();
    Substituted5At3();
    Mixed5();
    NextState(5, State(0x2472_4023, 0x6966_b3fa, 0x6ed2_7532, 0x8842_5b6c),
              State(0x3640_0926, 0xf933_6d2d, 0x9fb5_9d23, 0xc42c_3950),
              State(0x3633_9d50, 0xf9b5_3926, 0x9f2c_092d, 0xc440_6d23),
              State(0xf4bc_d454, 0x32e5_54d0, 0x75f1_d6c5, 0x1dd0_3b3c),
              State(0x3caa_a3e8, 0xa99f_9deb, 0x50f3_af57, 0xadf6_22aa));
  }

  lemma Substituted6At0()
    ensures IsSubstituted(0xc816_77bc, 0xe847_f565)
  {}

  lemma Substituted6At1()
    ensures IsSubstituted(0x9b7a_c93b, 0x14da_dde2)
  {}

  lemma Substituted6At2()
    ensures IsSubstituted(0x2502_7992, 0x3f77_b64f)
  {}

  lemma Substituted6At3()
    ensures IsSubstituted(0xb026_1996, 0xe7f7_d490)
  {}

  lemma Mixed6()
    ensures AreShifted(State(0xe847_f565, 0x14da_dde2, 0x3f77_b64f, 0xe7f7_d490),
                       State(0xe8da_b690, 0x1477_d465, 0x3ff7_f5e2, 0xe747_dd4f))
    ensures AreMixed(State(0xe8da_b690, 0x1477_d465, 0x3ff7_f5e2, 0xe747_dd4f),
                     State(0x9816_ee74, 0x00f8_7f55, 0x6b2c_049c, 0x8e5a_d036))
  {}

  lemma State6()
    ensures StateIs(6, State(0xc62f_e109, 0xf75e_edc3, 0xcc79_395d, 0x84f9_cf5d))
  {
    hide StateIs, KeyIs, IsSubstituted, AreMixed, AreShifted;
    State5();
    RoundKey6();
    Substituted6At0();
    Substituted6At1();
    Substituted6At2();
    Substituted6At3();
    Mixed6();
    NextState(6, State(0xc816_77bc, 0x9b7a_c93b, 0x2502_7992, 0xb026_1996),
              State(0xe847_f565, 0x14da_dde2, 0x3f77_b64f, 0xe7f7_d490),
              State(0xe8da_b690, 0x1477_d465, 0x3ff7_f5e2, 0xe747_dd4f),
              State(0x9816_ee74, 0x00f8_7f55, 0x6b2c_049c, 0x8e5a_d036),
              State(0x5e39_0f7d, 0xf7a6_9296, 0xa755_3dc1, 0x0aa3_1f6b));
  }

  lemma Substituted7At0()
    ensures IsSubstituted(0xc62f_e109, 0xb415_f801)
  {}

  lemma Substituted7At1()
    ensures IsSubstituted(0xf75e_edc3, 0x6858_552e)
  {}

  lemma Substituted7At2()
    ensures IsSubstituted(0xcc79_395d, 0x4bb6_124c)
  {}

  lemma Substituted7At3()
    ensures IsSubstituted(0x84f9_cf5d, 0x5f99_8a4c)
  {}

  lemma Mixed7()
    ensures AreShifted(State(0xb415_f801, 0x6858_552e, 0x4bb6_124c, 0x5f99_8a4c),
                       State(0xb458_124c, 0x68b6_8a01, 0x4b99_f82e, 0x5f15_554c))
    ensures AreMixed(State(0xb458_124c, 0x68b6_8a01, 0x4b99_f82e, 0x5f15_554c),
                     State(0xc57e_1c15, 0x9a9b_d286, 0xf05f_4be0, 0x98c6_3439))
  {}

  lemma State7()
    ensures StateIs(7, State(0xd187_6c0f, 0x79c4_300a, 0xb455_94ad, 0xd66f_f41f))
  {
    hide StateIs, KeyIs, IsSubstituted, AreMixed, AreShifted;
    State6();
    RoundKey7();
    Substituted7At0();
    Substituted7At1();
    Substituted7At2();
    Substituted7At3();
    Mixed7();
    NextState(7, State(0xc62f_e109, 0xf75e_edc3, 0xcc79_395d, 0x84f9_cf5d),
              State(0xb415_f801, 0x6858_552e, 0x4bb6_124c, 0x5f99_8a4c),
              State(0xb458_124c, 0x68b6_8a01, 0x4b99_f82e, 0x5f15_554c),
              State(0xc57e_1c15, 0x9a9b_d286, 0xf05f_4be0, 0x98c6_3439),
              State(0x14f9_701a, 0xe35f_e28c, 0x440a_df4d, 0x4ea9_c026));
  }

  lemma Substituted8At0()
    ensures IsSubstituted(0xd187_6c0f, 0x3e17_5076)
  {}

  lemma Substituted8At1()
    ensures IsSubstituted(0x79c4_300a, 0xb61c_0467)
  {}

  lemma Substituted8At2()
    ensures IsSubstituted(0xb455_94ad, 0x8dfc_2295)
  {}

  lemma Substituted8At3()
    ensures IsSubstituted(0xd66f_f41f, 0xf6a8_bfc0)
  {}

  lemma Mixed8()
    ensures AreShifted(State(0x3e17_5076, 0xb61c_0467, 0x8dfc_2295, 0xf6a8_bfc0),
                       State(0x3e1c_22c0, 0xb6fc_bf76, 0x8da8_5067, 0xf617_0495))
    ensures AreMixed(State(0x3e1c_22c0, 0xb6fc_bf76, 0x8da8_5067, 0xf617_0495),
                     State(0xbaa0_3de7, 0xa1f9_b56e, 0xd551_2cba, 0x5f41_4d23))
  {}

  lemma State8()
    ensures StateIs(8, State(0xfde3_bad2, 0x05e5_d0d7, 0x3547_964e, 0xf1fe_37f1))
  {
    hide StateIs, KeyIs, IsSubstituted, AreMixed, AreShifted;
    State7();
    RoundKey8();
    Substituted8At0();
    Substituted8At1();
    Substituted8At2();
    Substituted8At3();
    Mixed8();
    NextState(8, State(0xd187_6c0f, 0x79c4_300a, 0xb455_94ad, 0xd66f_f41f),
              State(0x3e17_5076, 0xb61c_0467, 0x8dfc_2295, 0xf6a8_bfc0),
              State(0x3e1c_22c0, 0xb6fc_bf76, 0x8da8_5067, 0xf617_0495),
              State(0xbaa0_3de7, 0xa1f9_b56e, 0xd551_2cba, 0x5f41_4d23),
              State(0x4743_8735, 0xa41c_65b9, 0xe016_baf4, 0xaebf_7ad2));
  }

  lemma Substituted9At0()
    ensures IsSubstituted(0xfde3_bad2, 0x5411_f4b5)
  {}

  lemma Substituted9At1()
    ensures IsSubstituted(0x05e5_d0d7, 0x6bd9_700e)
  {}

  lemma Substituted9At2()
    ensures IsSubstituted(0x3547_964e, 0x96a0_902f)
  {}

  lemma Substituted9At3()
    ensures IsSubstituted(0xf1fe_37f1, 0xa1bb_9aa1)
  {}

  lemma Mixed9()
    ensures AreShifted(State(0x5411_f4b5, 0x6bd9_700e, 0x96a0_902f, 0xa1bb_9aa1),
                       State(0x54d9_90a1, 0x6ba0_9ab5, 0x96bb_f40e, 0xa111_702f))
    ensures AreMixed(State(0x54d9_90a1, 0x6ba0_9ab5, 0x96bb_f40e, 0xa111_702f),
                     State(0xe9f7_4eec, 0x0230_20f6, 0x1bf2_ccf2, 0x353c_21c7))
  {}

  lemma State9()
    ensures StateIs(9, State(0xbd6e_7c3d, 0xf2b5_779e, 0x0b61_216e, 0x8b10_b689))
  {
    hide StateIs, KeyIs, IsSubstituted, AreMixed, AreShifted;
    State8();
    RoundKey9();
    Substituted9At0();
    Substituted9At1();
    Substituted9At2();
    Substituted9At3();
    Mixed9();
    NextState(9, State(0xfde3_bad2, 0x05e5_d0d7, 0x3547_964e, 0xf1fe_37f1),
              State(0x5411_f4b5, 0x6bd9_700e, 0x96a0_902f, 0xa1bb_9aa1),
              State(0x54d9_90a1, 0x6ba0_9ab5, 0x96bb_f40e, 0xa111_702f),
              State(0xe9f7_4eec, 0x0230_20f6, 0x1bf2_ccf2, 0x353c_21c7),
              State(0x5499_32d1, 0xf085_5768, 0x1093_ed9c, 0xbe2c_974e));
  }

  lemma Substituted10At0()
    ensures IsSubstituted(0xbd6e_7c3d, 0x7a9f_1027)
  {}

  lemma Substituted10At1()
    ensures IsSubstituted(0xf2b5_779e, 0x89d5_f50b)
  {}

  lemma Substituted10At2()
    ensures IsSubstituted(0x0b61_216e, 0x2bef_fd9f)
  {}

  lemma Substituted10At3()
    ensures IsSubstituted(0x8b10_b689, 0x3dca_4ea7)
  {}

  lemma LastShift()
    ensures AreShifted(State(0x7a9f_1027, 0x89d5_f50b, 0x2bef_fd9f, 0x3dca_4ea7),
                       State(0x7ad5_fda7, 0x89ef_4e27, 0x2bca_100b, 0x3d9f_f59f))
  {}

  /** Bytes that make up the same words are the same bytes. */
  lemma SameBytes(s: seq<byte>, t: seq<byte>)
    requires |s| == |t| == 16
    requires WordAt(s, 0) == WordAt(t, 0) && WordAt(s, 1) == WordAt(t, 1) && WordAt(s, 2) == WordAt(t, 2) && WordAt(s, 3) == WordAt(t, 3)
    ensures s == t
  {
    forall k | 0 <= k < 16
      ensures s[k] == t[k]
    {
      SameByte(s, t, k / 4, k % 4);
      assert 4 * (k / 4) + k % 4 == k;
    }
  }

  lemma SameByte(s: seq<byte>, t: seq<byte>, j: nat, i: nat)
    requires |s| == |t| == 16 && j < 4 && i < 4 && WordAt(s, j) == WordAt(t, j)
    ensures s[4 * j + i] == t[4 * j + i]
  {
    if i == 0 { } else if i == 1 { } else if i == 2 { } else { assert i == 3; }
  }

  lemma WordOfState(s: State, j: nat)
    requires j < 4
    ensures WordAt(s.Bytes(), j) == Read(s.Columns()[j])
  {
    hide Read, ByteOf;
    ColumnAt(s, j, 0);
    ColumnAt(s, j, 1);
    ColumnAt(s, j, 2);
    ColumnAt(s, j, 3);
  }

  lemma StateSpelled(s: State, bytes: Block)
    requires WordAt(bytes, 0) == Read(s.a) && WordAt(bytes, 1) == Read(s.b) && WordAt(bytes, 2) == Read(s.c) && WordAt(bytes, 3) == Read(s.d)
    ensures s.Bytes() == bytes
  {
    hide Read, BlockOf;
    WordOfState(s, 0);
    WordOfState(s, 1);
    WordOfState(s, 2);
    WordOfState(s, 3);
    SameBytes(s.Bytes(), bytes);
  }

  lemma KeySpelled(bytes: seq<byte>)
    requires |bytes| == 16 && WordAt(bytes, 0) == Read(KeyC1()[0]) && WordAt(bytes, 1) == Read(KeyC1()[1])
    requires WordAt(bytes, 2) == Read(KeyC1()[2]) && WordAt(bytes, 3) == Read(KeyC1()[3])
    ensures Spell(KeyC1()) == bytes
  {
    hide Read, Spell;
    WordSpelled(KeyC1(), 0);
    WordSpelled(KeyC1(), 1);
    WordSpelled(KeyC1(), 2);
    WordSpelled(KeyC1(), 3);
    SameBytes(Spell(KeyC1()), bytes);
  }

  lemma LastState()
    ensures Cipher(KeysC1(), PLAIN.Bytes()) == State(0x69c4_e0d8, 0x6a7b_0430, 0xd8cd_b780, 0x70b4_c55a).Bytes()
  {
    hide IsSubstituted, AreShifted, SubBytes, ShiftRows, AddBlocks, KeySchedule, Spell, BlockOf;
    State9();
    RoundKey10();
    Substituted10At0();
    Substituted10At1();
    Substituted10At2();
    Substituted10At3();
    LastShift();
    var s, key := State(0xbd6e_7c3d, 0xf2b5_779e, 0x0b61_216e, 0x8b10_b689), State(0x1311_1d7f, 0xe394_4a17, 0xf307_a78b, 0x4d2b_30c5);
    var t, u := State(0x7a9f_1027, 0x89d5_f50b, 0x2bef_fd9f, 0x3dca_4ea7), State(0x7ad5_fda7, 0x89ef_4e27, 0x2bca_100b, 0x3d9f_f59f);
    SubstitutedAre(s, t);
    ShiftedAre(t, u);
    SumsAre(u, key);
  }

  /** Enciphering the block 00112233 44556677 8899aabb ccddeeff under the key 00010203 04050607 08090a0b 0c0d0e0f. */
  lemma CipherExample()
    ensures Cipher(KeySchedule([0x00, 0x01, 0x02, 0x03, 0x04, 0x05, 0x06, 0x07, 0x08, 0x09, 0x0a, 0x0b, 0x0c, 0x0d, 0x0e, 0x0f], 4),
                   [0x00, 0x11, 0x22, 0x33, 0x44, 0x55, 0x66, 0x77, 0x88, 0x99, 0xaa, 0xbb, 0xcc, 0xdd, 0xee, 0xff])
         == [0x69, 0xc4, 0xe0, 0xd8, 0x6a, 0x7b, 0x04, 0x30, 0xd8, 0xcd, 0xb7, 0x80, 0x70, 0xb4, 0xc5, 0x5a]
  {
    hide Cipher, KeySchedule, Spell, BlockOf;
    LastState();
    KeySpelled([0x00, 0x01, 0x02, 0x03, 0x04, 0x05, 0x06, 0x07, 0x08, 0x09, 0x0a, 0x0b, 0x0c, 0x0d, 0x0e, 0x0f]);
    StateSpelled(PLAIN, [0x00, 0x11, 0x22, 0x33, 0x44, 0x55, 0x66, 0x77, 0x88, 0x99, 0xaa, 0xbb, 0xcc, 0xdd, 0xee, 0xff]);
    StateSpelled(State(0x69c4_e0d8, 0x6a7b_0430, 0xd8cd_b780, 0x70b4_c55a),
                 [0x69, 0xc4, 0xe0, 0xd8, 0x6a, 0x7b, 0x04, 0x30, 0xd8, 0xcd, 0xb7, 0x80, 0x70, 0xb4, 0xc5, 0x5a]);
  }
}
