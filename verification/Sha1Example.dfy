/**
 SHA-1 of "abc", round by round: the first example of FIPS 180 (src/tbx/hash/hash.h:152-153,
 src/tbx/hash/sha1.cpp).
 */
module Sha1Example {
  import opened Bytes
  import opened Sha1Standard

  /** Constant `k` of twenty rounds is the integer part of 2^30 times the square root of `n`. */
  predicate IsRoot(k: nat, n: nat) {
    k * k <= n * 0x1000_0000_0000_0000 < (k + 1) * (k + 1)
  }

  /** The four constants are the roots of 2, 3, 5 and 10. */
  lemma ConstantsAreRoots(t: nat)
    requires t < 80
    ensures IsRoot(Constant(t) as nat, if t < 20 then 2 else if t < 40 then 3 else if t < 60 then 5 else 10)
  {
    assert IsRoot(0x5a82_7999, 2) && IsRoot(0x6ed9_eba1, 3) && IsRoot(0x8f1b_bcdc, 5) && IsRoot(0xca62_c1d6, 10);
    assert 0x5a82_7999 as Word as nat == 0x5a82_7999;
    assert 0x6ed9_eba1 as Word as nat == 0x6ed9_eba1;
    assert 0x8f1b_bcdc as Word as nat == 0x8f1b_bcdc;
    assert 0xca62_c1d6 as Word as nat == 0xca62_c1d6;
  }

  const ABC: seq<byte> := [0x61, 0x62, 0x63]

  /** "abc", padded to one block. */
  function AbcBlock(): Block {
    [0x6162_6380, 0x0000_0000, 0x0000_0000, 0x0000_0000, 0x0000_0000, 0x0000_0000, 0x0000_0000, 0x0000_0000,
     0x0000_0000, 0x0000_0000, 0x0000_0000, 0x0000_0000, 0x0000_0000, 0x0000_0000, 0x0000_0000, 0x0000_0018]
  }

  lemma PaddedAbc()
    ensures Short(3) && |Pad(ABC)| == 64 && WordsOf(Pad(ABC)) == AbcBlock()
  {
    hide LengthBytes, WordsOf;
    LengthOfThree();
    WordsOfAbc(Pad(ABC));
  }

  lemma WordsOfAbc(p: seq<byte>)
    requires p == ABC + [0x80] + seq(52, _ => 0) + [0, 0, 0, 0, 0, 0, 0, 24]
    ensures |p| == 64 && WordsOf(p) == AbcBlock()
  {
    hide BigEndian;
    FirstWord();
    assert p[0] == 0x61 && p[1] == 0x62 && p[2] == 0x63 && p[3] == 0x80;
    assert forall i :: 4 <= i < 56 ==> p[i] == 0;
    assert p[56..] == [0, 0, 0, 0, 0, 0, 0, 24];
    assert p[56] == 0 && p[57] == 0 && p[58] == 0 && p[59] == 0 && p[60] == 0 && p[61] == 0 && p[62] == 0 && p[63] == 24;
    forall i | 0 <= i < 16
      ensures WordsOf(p)[i] == AbcBlock()[i]
    {
      if 0 < i < 15 {
        assert p[4 * i] == 0 && p[4 * i + 1] == 0 && p[4 * i + 2] == 0 && p[4 * i + 3] == 0;
      }
    }
  }

  lemma LengthOfThree()
    ensures LengthBytes(3) == [0, 0, 0, 0, 0, 0, 0, 24]
  {
    assert BitLength(3) == 24;
  }

  lemma FirstWord()
    ensures BigEndian(0x61, 0x62, 0x63, 0x80) == 0x6162_6380 && BigEndian(0, 0, 0, 0) == 0 && BigEndian(0, 0, 0, 24) == 24
  {
  }

  // ---------------------------------------------------------------------------------------
  // The message schedule
  // ---------------------------------------------------------------------------------------

  /** Word `t` of the schedule. */
  ghost predicate WordIs(t: nat, w: Word) {
    Schedule(AbcBlock(), t) == w
  }

  /** The words from `t` on. */
  ghost predicate WordsAre(t: nat, words: seq<Word>) {
    forall k :: 0 <= k < |words| ==> Schedule(AbcBlock(), t + k) == words[k]
  }

  /** Sixteen words, one by one. */
  ghost predicate SixteenWords(t: nat, w: seq<Word>)
    requires |w| == 16
  {
    && WordIs(t, w[0]) && WordIs(t + 1, w[1]) && WordIs(t + 2, w[2]) && WordIs(t + 3, w[3])
    && WordIs(t + 4, w[4]) && WordIs(t + 5, w[5]) && WordIs(t + 6, w[6]) && WordIs(t + 7, w[7])
    && WordIs(t + 8, w[8]) && WordIs(t + 9, w[9]) && WordIs(t + 10, w[10]) && WordIs(t + 11, w[11])
    && WordIs(t + 12, w[12]) && WordIs(t + 13, w[13]) && WordIs(t + 14, w[14]) && WordIs(t + 15, w[15])
  }

  lemma EachWord(t: nat, w: seq<Word>)
    requires |w| == 16 && WordsAre(t, w)
    ensures SixteenWords(t, w)
  {
    hide Schedule, AbcBlock;
  }

  lemma AllWords(t: nat, w: seq<Word>)
    requires |w| == 16 && SixteenWords(t, w)
    ensures WordsAre(t, w)
  {
    hide Schedule, AbcBlock;
    forall k | 0 <= k < 16
      ensures WordIs(t + k, w[k])
    {
      if k < 8 {
        assert k == 0 || k == 1 || k == 2 || k == 3 || k == 4 || k == 5 || k == 6 || k == 7;
      } else {
        assert k == 8 || k == 9 || k == 10 || k == 11 || k == 12 || k == 13 || k == 14 || k == 15;
      }
    }
    forall k | 0 <= k < 16
      ensures Schedule(AbcBlock(), t + k) == w[k]
    {
      assert WordIs(t + k, w[k]);
    }
  }

  lemma FirstSixteen()
    ensures WordsAre(0, WORDS_0)
  {
    assert WORDS_0 == AbcBlock();
  }

  lemma NextWord(t: nat, w3: Word, w8: Word, w14: Word, w16: Word, w: Word)
    requires t >= 16 && WordIs(t - 3, w3) && WordIs(t - 8, w8) && WordIs(t - 14, w14) && WordIs(t - 16, w16)
    requires Expand(w3, w8, w14, w16) == w
    ensures WordIs(t, w)
  {
    hide Expand, AbcBlock;
  }

  const WORDS_0: seq<Word> := [
    0x6162_6380, 0x0000_0000, 0x0000_0000, 0x0000_0000, 0x0000_0000, 0x0000_0000, 0x0000_0000, 0x0000_0000,
    0x0000_0000, 0x0000_0000, 0x0000_0000, 0x0000_0000, 0x0000_0000, 0x0000_0000, 0x0000_0000, 0x0000_0018
  ]

  const WORDS_16: seq<Word> := [
    0xc2c4_c700, 0x0000_0000, 0x0000_0030, 0x8589_8e01, 0x0000_0000, 0x0000_0060, 0x0b13_1c03, 0x0000_0030,
    0x8589_8ec1, 0x1626_3806, 0x0000_0000, 0x0000_0180, 0x2c4c_700c, 0x0000_00f0, 0x93af_b507, 0x5898_e048
  ]

  /** Words 16 to 31. */
  lemma WordsFrom16()
    ensures WordsAre(16, WORDS_16)
  {
    hide WordIs, WordsAre;
    FirstSixteen();
    EachWord(0, WORDS_0);
    NextWord(16, 0x0000_0000, 0x0000_0000, 0x0000_0000, 0x6162_6380, 0xc2c4_c700);
    NextWord(17, 0x0000_0000, 0x0000_0000, 0x0000_0000, 0x0000_0000, 0x0000_0000);
    NextWord(18, 0x0000_0018, 0x0000_0000, 0x0000_0000, 0x0000_0000, 0x0000_0030);
    NextWord(19, 0xc2c4_c700, 0x0000_0000, 0x0000_0000, 0x0000_0000, 0x8589_8e01);
    NextWord(20, 0x0000_0000, 0x0000_0000, 0x0000_0000, 0x0000_0000, 0x0000_0000);
    NextWord(21, 0x0000_0030, 0x0000_0000, 0x0000_0000, 0x0000_0000, 0x0000_0060);
    NextWord(22, 0x8589_8e01, 0x0000_0000, 0x0000_0000, 0x0000_0000, 0x0b13_1c03);
    NextWord(23, 0x0000_0000, 0x0000_0018, 0x0000_0000, 0x0000_0000, 0x0000_0030);
    NextWord(24, 0x0000_0060, 0xc2c4_c700, 0x0000_0000, 0x0000_0000, 0x8589_8ec1);
    NextWord(25, 0x0b13_1c03, 0x0000_0000, 0x0000_0000, 0x0000_0000, 0x1626_3806);
    NextWord(26, 0x0000_0030, 0x0000_0030, 0x0000_0000, 0x0000_0000, 0x0000_0000);
    NextWord(27, 0x8589_8ec1, 0x8589_8e01, 0x0000_0000, 0x0000_0000, 0x0000_0180);
    NextWord(28, 0x1626_3806, 0x0000_0000, 0x0000_0000, 0x0000_0000, 0x2c4c_700c);
    NextWord(29, 0x0000_0000, 0x0000_0060, 0x0000_0018, 0x0000_0000, 0x0000_00f0);
    NextWord(30, 0x0000_0180, 0x0b13_1c03, 0xc2c4_c700, 0x0000_0000, 0x93af_b507);
    NextWord(31, 0x2c4c_700c, 0x0000_0030, 0x0000_0000, 0x0000_0018, 0x5898_e048);
    AllWords(16, WORDS_16);
  }

  const WORDS_32: seq<Word> := [
    0x8e9a_9202, 0x0000_0600, 0xb131_c0f0, 0x1626_3bc6, 0x4ebe_d41e, 0x6263_80a1, 0x1626_3806, 0x0000_18c0,
    0xd2e1_38c4, 0x0000_0f00, 0x3afb_5079, 0x898e_04e5, 0xe2ba_3c2b, 0x0000_60c0, 0x053a_37cd, 0x7445_8547
  ]

  /** Words 32 to 47. */
  lemma WordsFrom32()
    ensures WordsAre(32, WORDS_32)
  {
    hide WordIs, WordsAre;
    WordsFrom16();
    EachWord(16, WORDS_16);
    NextWord(32, 0x0000_00f0, 0x8589_8ec1, 0x0000_0030, 0xc2c4_c700, 0x8e9a_9202);
    NextWord(33, 0x93af_b507, 0x1626_3806, 0x8589_8e01, 0x0000_0000, 0x0000_0600);
    NextWord(34, 0x5898_e048, 0x0000_0000, 0x0000_0000, 0x0000_0030, 0xb131_c0f0);
    NextWord(35, 0x8e9a_9202, 0x0000_0180, 0x0000_0060, 0x8589_8e01, 0x1626_3bc6);
    NextWord(36, 0x0000_0600, 0x2c4c_700c, 0x0b13_1c03, 0x0000_0000, 0x4ebe_d41e);
    NextWord(37, 0xb131_c0f0, 0x0000_00f0, 0x0000_0030, 0x0000_0060, 0x6263_80a1);
    NextWord(38, 0x1626_3bc6, 0x93af_b507, 0x8589_8ec1, 0x0b13_1c03, 0x1626_3806);
    NextWord(39, 0x4ebe_d41e, 0x5898_e048, 0x1626_3806, 0x0000_0030, 0x0000_18c0);
    NextWord(40, 0x6263_80a1, 0x8e9a_9202, 0x0000_0000, 0x8589_8ec1, 0xd2e1_38c4);
    NextWord(41, 0x1626_3806, 0x0000_0600, 0x0000_0180, 0x1626_3806, 0x0000_0f00);
    NextWord(42, 0x0000_18c0, 0xb131_c0f0, 0x2c4c_700c, 0x0000_0000, 0x3afb_5079);
    NextWord(43, 0xd2e1_38c4, 0x1626_3bc6, 0x0000_00f0, 0x0000_0180, 0x898e_04e5);
    NextWord(44, 0x0000_0f00, 0x4ebe_d41e, 0x93af_b507, 0x2c4c_700c, 0xe2ba_3c2b);
    NextWord(45, 0x3afb_5079, 0x6263_80a1, 0x5898_e048, 0x0000_00f0, 0x0000_60c0);
    NextWord(46, 0x898e_04e5, 0x1626_3806, 0x8e9a_9202, 0x93af_b507, 0x053a_37cd);
    NextWord(47, 0xe2ba_3c2b, 0x0000_18c0, 0x0000_0600, 0x5898_e048, 0x7445_8547);
    AllWords(32, WORDS_32);
  }

  const WORDS_48: seq<Word> := [
    0xda94_15ed, 0x2638_0a16, 0x6263_83a1, 0x4ebf_54de, 0x3835_b44b, 0x0000_f600, 0x1e84_c7a3, 0x98e0_4d98,
    0x651d_16a0, 0x6265_8ca1, 0x4585_44d6, 0x4458_4cb7, 0x7ba0_6619, 0x6380_aea2, 0x0ae5_5269, 0x627b_49a1
  ]

  /** Words 48 to 63. */
  lemma WordsFrom48()
    ensures WordsAre(48, WORDS_48)
  {
    hide WordIs, WordsAre;
    WordsFrom32();
    EachWord(32, WORDS_32);
    NextWord(48, 0x0000_60c0, 0xd2e1_38c4, 0xb131_c0f0, 0x8e9a_9202, 0xda94_15ed);
    NextWord(49, 0x053a_37cd, 0x0000_0f00, 0x1626_3bc6, 0x0000_0600, 0x2638_0a16);
    NextWord(50, 0x7445_8547, 0x3afb_5079, 0x4ebe_d41e, 0xb131_c0f0, 0x6263_83a1);
    NextWord(51, 0xda94_15ed, 0x898e_04e5, 0x6263_80a1, 0x1626_3bc6, 0x4ebf_54de);
    NextWord(52, 0x2638_0a16, 0xe2ba_3c2b, 0x1626_3806, 0x4ebe_d41e, 0x3835_b44b);
    NextWord(53, 0x6263_83a1, 0x0000_60c0, 0x0000_18c0, 0x6263_80a1, 0x0000_f600);
    NextWord(54, 0x4ebf_54de, 0x053a_37cd, 0xd2e1_38c4, 0x1626_3806, 0x1e84_c7a3);
    NextWord(55, 0x3835_b44b, 0x7445_8547, 0x0000_0f00, 0x0000_18c0, 0x98e0_4d98);
    NextWord(56, 0x0000_f600, 0xda94_15ed, 0x3afb_5079, 0xd2e1_38c4, 0x651d_16a0);
    NextWord(57, 0x1e84_c7a3, 0x2638_0a16, 0x898e_04e5, 0x0000_0f00, 0x6265_8ca1);
    NextWord(58, 0x98e0_4d98, 0x6263_83a1, 0xe2ba_3c2b, 0x3afb_5079, 0x4585_44d6);
    NextWord(59, 0x651d_16a0, 0x4ebf_54de, 0x0000_60c0, 0x898e_04e5, 0x4458_4cb7);
    NextWord(60, 0x6265_8ca1, 0x3835_b44b, 0x053a_37cd, 0xe2ba_3c2b, 0x7ba0_6619);
    NextWord(61, 0x4585_44d6, 0x0000_f600, 0x7445_8547, 0x0000_60c0, 0x6380_aea2);
    NextWord(62, 0x4458_4cb7, 0x1e84_c7a3, 0xda94_15ed, 0x053a_37cd, 0x0ae5_5269);
    NextWord(63, 0x7ba0_6619, 0x98e0_4d98, 0x2638_0a16, 0x7445_8547, 0x627b_49a1);
    AllWords(48, WORDS_48);
  }

  const WORDS_64: seq<Word> := [
    0x7cd4_5c9d, 0x000f_0000, 0xfb50_753a, 0xec67_65e8, 0xba3c_2be2, 0x0060_c000, 0x3a37_cd05, 0x4585_46f4,
    0xb859_9dd6, 0x380a_1a26, 0x01e0_2203, 0xe7cc_3456, 0xe6e6_0b69, 0x00f6_0a00, 0x5795_ef4f, 0x822e_0879
  ]

  /** Words 64 to 79. */
  lemma WordsFrom64()
    ensures WordsAre(64, WORDS_64)
  {
    hide WordIs, WordsAre;
    WordsFrom48();
    EachWord(48, WORDS_48);
    NextWord(64, 0x6380_aea2, 0x651d_16a0, 0x6263_83a1, 0xda94_15ed, 0x7cd4_5c9d);
    NextWord(65, 0x0ae5_5269, 0x6265_8ca1, 0x4ebf_54de, 0x2638_0a16, 0x000f_0000);
    NextWord(66, 0x627b_49a1, 0x4585_44d6, 0x3835_b44b, 0x6263_83a1, 0xfb50_753a);
    NextWord(67, 0x7cd4_5c9d, 0x4458_4cb7, 0x0000_f600, 0x4ebf_54de, 0xec67_65e8);
    NextWord(68, 0x000f_0000, 0x7ba0_6619, 0x1e84_c7a3, 0x3835_b44b, 0xba3c_2be2);
    NextWord(69, 0xfb50_753a, 0x6380_aea2, 0x98e0_4d98, 0x0000_f600, 0x0060_c000);
    NextWord(70, 0xec67_65e8, 0x0ae5_5269, 0x651d_16a0, 0x1e84_c7a3, 0x3a37_cd05);
    NextWord(71, 0xba3c_2be2, 0x627b_49a1, 0x6265_8ca1, 0x98e0_4d98, 0x4585_46f4);
    NextWord(72, 0x0060_c000, 0x7cd4_5c9d, 0x4585_44d6, 0x651d_16a0, 0xb859_9dd6);
    NextWord(73, 0x3a37_cd05, 0x000f_0000, 0x4458_4cb7, 0x6265_8ca1, 0x380a_1a26);
    NextWord(74, 0x4585_46f4, 0xfb50_753a, 0x7ba0_6619, 0x4585_44d6, 0x01e0_2203);
    NextWord(75, 0xb859_9dd6, 0xec67_65e8, 0x6380_aea2, 0x4458_4cb7, 0xe7cc_3456);
    NextWord(76, 0x380a_1a26, 0xba3c_2be2, 0x0ae5_5269, 0x7ba0_6619, 0xe6e6_0b69);
    NextWord(77, 0x01e0_2203, 0x0060_c000, 0x627b_49a1, 0x6380_aea2, 0x00f6_0a00);
    NextWord(78, 0xe7cc_3456, 0x3a37_cd05, 0x7cd4_5c9d, 0x0ae5_5269, 0x5795_ef4f);
    NextWord(79, 0xe6e6_0b69, 0x4585_46f4, 0x000f_0000, 0x627b_49a1, 0x822e_0879);
    AllWords(64, WORDS_64);
  }

  // ---------------------------------------------------------------------------------------
  // The rounds
  // ---------------------------------------------------------------------------------------

  /** The registers after `t` rounds. */
  ghost predicate RegistersAre(t: nat, r: Registers) {
    Rounds(Initial(), AbcBlock(), t) == r
  }

  lemma NextRound(t: nat, r: Registers, w: Word, a: Word) returns (s: Registers)
    requires RegistersAre(t, r) && WordIs(t, w) && Temp(Rotl(r.a, 5), Mix(t, r.b, r.c, r.d), r.e, Constant(t), w) == a
    ensures s == Registers(a, r.a, Rotl(r.b, 30), r.c, r.d) && RegistersAre(t + 1, s)
  {
    hide Mix, Constant, Schedule, AbcBlock, Initial, Rotl, Temp;
    s := Registers(a, r.a, Rotl(r.b, 30), r.c, r.d);
  }

  lemma RoundsTo10()
    ensures RegistersAre(10, Registers(0x8351_f929, 0x4b6a_e328, 0x27a3_01f5, 0x664f_8c30, 0x0ff1_f290))
  {
    hide RegistersAre, WordIs, WordsAre;
    NoRounds();
    FirstSixteen();
    EachWord(0, WORDS_0);
    var r := Registers(0x6745_2301, 0xefcd_ab89, 0x98ba_dcfe, 0x1032_5476, 0xc3d2_e1f0);
    r := NextRound(0, r, 0x6162_6380, 0x0116_fc33);
    r := NextRound(1, r, 0x0000_0000, 0x8990_536d);
    r := NextRound(2, r, 0x0000_0000, 0xa139_0f08);
    r := NextRound(3, r, 0x0000_0000, 0xcdd8_e11b);
    r := NextRound(4, r, 0x0000_0000, 0xcfd4_99de);
    r := NextRound(5, r, 0x0000_0000, 0x3fc7_ca40);
    r := NextRound(6, r, 0x0000_0000, 0x993e_30c1);
    r := NextRound(7, r, 0x0000_0000, 0x9e8c_07d4);
    r := NextRound(8, r, 0x0000_0000, 0x4b6a_e328);
    r := NextRound(9, r, 0x0000_0000, 0x8351_f929);
  }

  lemma RoundsTo20()
    ensures RegistersAre(20, Registers(0xfd9e_1d7d, 0xdc64_901d, 0x20aa_99ca, 0xd3a4_9608, 0xc82f_758b))
  {
    hide RegistersAre, WordIs, WordsAre;
    RoundsTo10();
    FirstSixteen();
    EachWord(0, WORDS_0);
    WordsFrom16();
    EachWord(16, WORDS_16);
    var r := Registers(0x8351_f929, 0x4b6a_e328, 0x27a3_01f5, 0x664f_8c30, 0x0ff1_f290);
    r := NextRound(10, r, 0x0000_0000, 0xfbda_9e89);
    r := NextRound(11, r, 0x0000_0000, 0x6318_8fe4);
    r := NextRound(12, r, 0x0000_0000, 0x4607_b664);
    r := NextRound(13, r, 0x0000_0000, 0x9128_f695);
    r := NextRound(14, r, 0x0000_0000, 0x196b_ee77);
    r := NextRound(15, r, 0x0000_0018, 0x20bd_d62f);
    r := NextRound(16, r, 0xc2c4_c700, 0x4e92_5823);
    r := NextRound(17, r, 0x0000_0000, 0x82aa_6728);
    r := NextRound(18, r, 0x0000_0030, 0xdc64_901d);
    r := NextRound(19, r, 0x8589_8e01, 0xfd9e_1d7d);
  }

  lemma RoundsTo30()
    ensures RegistersAre(30, Registers(0xc5fb_af5d, 0x8370_b52e, 0xd2aa_1365, 0x6f8d_7ef5, 0x1210_4ee9))
  {
    hide RegistersAre, WordIs, WordsAre;
    RoundsTo20();
    WordsFrom16();
    EachWord(16, WORDS_16);
    var r := Registers(0xfd9e_1d7d, 0xdc64_901d, 0x20aa_99ca, 0xd3a4_9608, 0xc82f_758b);
    r := NextRound(20, r, 0x0000_0000, 0x1a37_b0ca);
    r := NextRound(21, r, 0x0000_0060, 0x33a2_3bfc);
    r := NextRound(22, r, 0x0b13_1c03, 0x2128_3486);
    r := NextRound(23, r, 0x0000_0030, 0xd541_f12d);
    r := NextRound(24, r, 0x8589_8ec1, 0xc756_7dc6);
    r := NextRound(25, r, 0x1626_3806, 0x4841_3ba4);
    r := NextRound(26, r, 0x0000_0000, 0xbe35_fbd5);
    r := NextRound(27, r, 0x0000_0180, 0x4aa8_4d97);
    r := NextRound(28, r, 0x2c4c_700c, 0x8370_b52e);
    r := NextRound(29, r, 0x0000_00f0, 0xc5fb_af5d);
  }

  lemma RoundsTo40()
    ensures RegistersAre(40, Registers(0x32de_1cba, 0x4c98_6405, 0xf718_e5cf, 0x03d4_47f6, 0xf72e_ec32))
  {
    hide RegistersAre, WordIs, WordsAre;
    RoundsTo30();
    WordsFrom16();
    EachWord(16, WORDS_16);
    WordsFrom32();
    EachWord(32, WORDS_32);
    var r := Registers(0xc5fb_af5d, 0x8370_b52e, 0xd2aa_1365, 0x6f8d_7ef5, 0x1210_4ee9);
    r := NextRound(30, r, 0x93af_b507, 0x1267_b407);
    r := NextRound(31, r, 0x5898_e048, 0x3b84_5d33);
    r := NextRound(32, r, 0x8e9a_9202, 0x046f_aa0a);
    r := NextRound(33, r, 0x0000_0600, 0x2c0e_bc11);
    r := NextRound(34, r, 0xb131_c0f0, 0x2179_6ad4);
    r := NextRound(35, r, 0x1626_3bc6, 0xdcbb_b0cb);
    r := NextRound(36, r, 0x4ebe_d41e, 0x0f51_1fd8);
    r := NextRound(37, r, 0x6263_80a1, 0xdc63_973f);
    r := NextRound(38, r, 0x1626_3806, 0x4c98_6405);
    r := NextRound(39, r, 0x0000_18c0, 0x32de_1cba);
  }

  lemma RoundsTo50()
    ensures RegistersAre(50, Registers(0x1207_31c5, 0xbaf3_9337, 0xafab_40b2, 0x2806_e11b, 0x8714_787c))
  {
    hide RegistersAre, WordIs, WordsAre;
    RoundsTo40();
    WordsFrom32();
    EachWord(32, WORDS_32);
    WordsFrom48();
    EachWord(48, WORDS_48);
    var r := Registers(0x32de_1cba, 0x4c98_6405, 0xf718_e5cf, 0x03d4_47f6, 0xf72e_ec32);
    r := NextRound(40, r, 0xd2e1_38c4, 0xfc87_dedf);
    r := NextRound(41, r, 0x0000_0f00, 0x970a_0d5c);
    r := NextRound(42, r, 0x3afb_5079, 0x7f19_3dc5);
    r := NextRound(43, r, 0x898e_04e5, 0xee1b_1aaf);
    r := NextRound(44, r, 0xe2ba_3c2b, 0x40f2_8e09);
    r := NextRound(45, r, 0x0000_60c0, 0x1c51_e1f2);
    r := NextRound(46, r, 0x053a_37cd, 0xa01b_846c);
    r := NextRound(47, r, 0x7445_8547, 0xbead_02ca);
    r := NextRound(48, r, 0xda94_15ed, 0xbaf3_9337);
    r := NextRound(49, r, 0x2638_0a16, 0x1207_31c5);
  }

  lemma RoundsTo60()
    ensures RegistersAre(60, Registers(0x3f52_de5a, 0x09d7_85fd, 0x3498_bfd4, 0xf211_824f, 0xd799_15ab))
  {
    hide RegistersAre, WordIs, WordsAre;
    RoundsTo50();
    WordsFrom48();
    EachWord(48, WORDS_48);
    var r := Registers(0x1207_31c5, 0xbaf3_9337, 0xafab_40b2, 0x2806_e11b, 0x8714_787c);
    r := NextRound(50, r, 0x6263_83a1, 0x641d_b2ce);
    r := NextRound(51, r, 0x4ebf_54de, 0x3847_ad66);
    r := NextRound(52, r, 0x3835_b44b, 0xe490_436d);
    r := NextRound(53, r, 0x0000_f600, 0x27e9_f1d8);
    r := NextRound(54, r, 0x1e84_c7a3, 0x7b71_f76d);
    r := NextRound(55, r, 0x98e0_4d98, 0x5e64_56af);
    r := NextRound(56, r, 0x651d_16a0, 0xc846_093f);
    r := NextRound(57, r, 0x6265_8ca1, 0xd262_ff50);
    r := NextRound(58, r, 0x4585_44d6, 0x09d7_85fd);
    r := NextRound(59, r, 0x4458_4cb7, 0x3f52_de5a);
  }

  lemma RoundsTo70()
    ensures RegistersAre(70, Registers(0x3f25_88c2, 0x4970_93c0, 0xde37_534a, 0x030f_7cad, 0x4405_957e))
  {
    hide RegistersAre, WordIs, WordsAre;
    RoundsTo60();
    WordsFrom48();
    EachWord(48, WORDS_48);
    WordsFrom64();
    EachWord(64, WORDS_64);
    var r := Registers(0x3f52_de5a, 0x09d7_85fd, 0x3498_bfd4, 0xf211_824f, 0xd799_15ab);
    r := NextRound(60, r, 0x7ba0_6619, 0xd756_c147);
    r := NextRound(61, r, 0x6380_aea2, 0x548c_9cb2);
    r := NextRound(62, r, 0x0ae5_5269, 0xb66c_020b);
    r := NextRound(63, r, 0x627b_49a1, 0x6b61_c9e1);
    r := NextRound(64, r, 0x7cd4_5c9d, 0x19df_a7ac);
    r := NextRound(65, r, 0x000f_0000, 0x1016_55f9);
    r := NextRound(66, r, 0xfb50_753a, 0x0c3d_f2b4);
    r := NextRound(67, r, 0xec67_65e8, 0x78dd_4d2b);
    r := NextRound(68, r, 0xba3c_2be2, 0x4970_93c0);
    r := NextRound(69, r, 0x0060_c000, 0x3f25_88c2);
  }

  lemma RoundsTo80()
    ensures RegistersAre(80, Registers(0x4254_1b35, 0x5738_d5e1, 0x2183_4873, 0x681e_6df6, 0xd8fd_f6ad))
  {
    hide RegistersAre, WordIs, WordsAre;
    RoundsTo70();
    WordsFrom64();
    EachWord(64, WORDS_64);
    var r := Registers(0x3f25_88c2, 0x4970_93c0, 0xde37_534a, 0x030f_7cad, 0x4405_957e);
    r := NextRound(70, r, 0x3a37_cd05, 0xc199_f8c7);
    r := NextRound(71, r, 0x4585_46f4, 0x3985_9de7);
    r := NextRound(72, r, 0xb859_9dd6, 0xedb4_2de4);
    r := NextRound(73, r, 0x380a_1a26, 0x1179_3f6f);
    r := NextRound(74, r, 0x01e0_2203, 0x5ee7_6897);
    r := NextRound(75, r, 0xe7cc_3456, 0x63f7_dab7);
    r := NextRound(76, r, 0xe6e6_0b69, 0xa079_b7d9);
    r := NextRound(77, r, 0x00f6_0a00, 0x860d_21cc);
    r := NextRound(78, r, 0x5795_ef4f, 0x5738_d5e1);
    r := NextRound(79, r, 0x822e_0879, 0x4254_1b35);
  }

  lemma NoRounds()
    ensures RegistersAre(0, Registers(0x6745_2301, 0xefcd_ab89, 0x98ba_dcfe, 0x1032_5476, 0xc3d2_e1f0))
  {
  }

  lemma AbcCompressed()
    ensures Compress(Initial(), AbcBlock()) == Registers(0xa999_3e36, 0x4706_816a, 0xba3e_2571, 0x7850_c26c, 0x9cd0_d89d)
  {
    hide Rounds, AbcBlock;
    RoundsTo80();
  }

  /** The bytes of the final hash value, most significant first. */
  lemma AbcBytes()
    ensures DigestBytes(Registers(0xa999_3e36, 0x4706_816a, 0xba3e_2571, 0x7850_c26c, 0x9cd0_d89d))
         == [0xa9, 0x99, 0x3e, 0x36, 0x47, 0x06, 0x81, 0x6a, 0xba, 0x3e,
             0x25, 0x71, 0x78, 0x50, 0xc2, 0x6c, 0x9c, 0xd0, 0xd8, 0x9d]
  {
  }

  /** SHA-1("abc") is a9993e36 4706816a ba3e2571 7850c26c 9cd0d89d. */
  lemma Sha1OfAbc()
    ensures Short(3)
    ensures Sha1([0x61, 0x62, 0x63]) == [0xa9, 0x99, 0x3e, 0x36, 0x47, 0x06, 0x81, 0x6a, 0xba, 0x3e,
                                           0x25, 0x71, 0x78, 0x50, 0xc2, 0x6c, 0x9c, 0xd0, 0xd8, 0x9d]
  {
    hide Compress, AbcBlock, DigestBytes, Pad, Initial;
    PaddedAbc();
    HashOneBlock(Initial(), Pad(ABC));
    AbcCompressed();
    AbcBytes();
  }
}
