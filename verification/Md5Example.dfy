/**
 MD5 of "abc", operation by operation: one of the results that appendix A.5 of RFC 1321 lists
 (src/tbx/hash/md5.cpp).
 */
module Md5Example {
  import opened Bytes
  import opened Md5Standard

  const ABC: seq<byte> := [0x61, 0x62, 0x63]

  /** "abc", padded to one block. */
  function AbcBlock(): Block {
    [0x8063_6261, 0x0000_0000, 0x0000_0000, 0x0000_0000, 0x0000_0000, 0x0000_0000, 0x0000_0000, 0x0000_0000,
     0x0000_0000, 0x0000_0000, 0x0000_0000, 0x0000_0000, 0x0000_0000, 0x0000_0000, 0x0000_0018, 0x0000_0000]
  }

  function AbcWord(k: nat): Word {
    if k == 0 then 0x8063_6261 else if k == 14 then 24 else 0
  }

  lemma BlockWord(k: nat)
    requires k < 16
    ensures AbcBlock()[k] == AbcWord(k)
  {
  }

  lemma PaddedAbc()
    ensures |Pad(ABC)| == 64 && WordsOf(Pad(ABC)) == AbcBlock()
  {
    hide LengthBytes, WordsOf;
    LengthOfThree();
    WordsOfAbc(Pad(ABC));
  }

  lemma WordsOfAbc(p: seq<byte>)
    requires p == ABC + [0x80] + seq(52, _ => 0) + [24, 0, 0, 0, 0, 0, 0, 0]
    ensures |p| == 64 && WordsOf(p) == AbcBlock()
  {
    hide LittleEndianWord;
    FirstWord();
    assert p[0] == 0x61 && p[1] == 0x62 && p[2] == 0x63 && p[3] == 0x80;
    assert forall i :: 4 <= i < 56 ==> p[i] == 0;
    assert p[56..] == [24, 0, 0, 0, 0, 0, 0, 0];
    assert p[56] == 24 && p[57] == 0 && p[58] == 0 && p[59] == 0 && p[60] == 0 && p[61] == 0 && p[62] == 0 && p[63] == 0;
    forall i | 0 <= i < 16
      ensures WordsOf(p)[i] == AbcBlock()[i]
    {
      if 0 < i < 15 && i != 14 {
        assert p[4 * i] == 0 && p[4 * i + 1] == 0 && p[4 * i + 2] == 0 && p[4 * i + 3] == 0;
      }
    }
  }

  lemma LengthOfThree()
    ensures LengthBytes(3) == [24, 0, 0, 0, 0, 0, 0, 0]
  {
    hide LittleEndian, Digit;
    OneDigit(24, 7);
    DigitValue(24, 24);
    assert Value(24) == 24;
  }

  lemma OneDigit(n: nat, w: nat)
    requires n < 256
    ensures LittleEndian(n, w + 1) == [Digit(n)] + seq(w, _ => 0)
  {
    hide Digit;
    ZeroDigits(w);
  }

  lemma {:induction false} ZeroDigits(w: nat)
    ensures LittleEndian(0, w) == seq(w, _ => 0)
    decreases w
  {
    hide Digit;
    if w > 0 {
      ZeroDigits(w - 1);
      DigitValue(0, 0);
    }
  }

  lemma FirstWord()
    ensures LittleEndianWord(0x61, 0x62, 0x63, 0x80) == 0x8063_6261 && LittleEndianWord(0, 0, 0, 0) == 0 && LittleEndianWord(24, 0, 0, 0) == 24
  {
  }

  /** The registers after `t` operations. */
  ghost predicate RegistersAre(t: nat, r: Registers) {
    Rounds(Initial(), AbcBlock(), t) == r
  }

  lemma NextOperation(t: nat, r: Registers, b: Word) returns (s: Registers)
    requires RegistersAre(t, r) && Operation(r.a, r.b, Mix(t, r.b, r.c, r.d), AbcWord(WordIndex(t)), Amount(t), Sine(t)) == b
    ensures s == Registers(r.d, b, r.b, r.c) && RegistersAre(t + 1, s)
  {
    hide Mix, Sine, Amount, AbcBlock, AbcWord, WordIndex, Initial, Operation;
    BlockWord(WordIndex(t));
    s := Registers(r.d, b, r.b, r.c);
  }

  lemma NoOperations()
    ensures RegistersAre(0, Registers(0x6745_2301, 0xefcd_ab89, 0x98ba_dcfe, 0x1032_5476))
  {
  }

  lemma OperationsTo8()
    ensures RegistersAre(8, Registers(0xc737_41ef, 0x928d_99f6, 0x207d_c67b, 0x8bac_3051))
  {
    hide RegistersAre;
    NoOperations();
    var r := Registers(0x6745_2301, 0xefcd_ab89, 0x98ba_dcfe, 0x1032_5476);
    r := NextOperation(0, r, 0xd6d1_17b4);
    r := NextOperation(1, r, 0x344a_8432);
    r := NextOperation(2, r, 0x2f6f_bd72);
    r := NextOperation(3, r, 0x7ad9_56f2);
    r := NextOperation(4, r, 0xc737_41ef);
    r := NextOperation(5, r, 0x8bac_3051);
    r := NextOperation(6, r, 0x207d_c67b);
    r := NextOperation(7, r, 0x928d_99f6);
  }

  lemma OperationsTo16()
    ensures RegistersAre(16, Registers(0xdda9_b9a6, 0x72af_f2e0, 0xe396_856b, 0xa105_1895))
  {
    hide RegistersAre;
    OperationsTo8();
    var r := Registers(0xc737_41ef, 0x928d_99f6, 0x207d_c67b, 0x8bac_3051);
    r := NextOperation(8, r, 0x854b_3712);
    r := NextOperation(9, r, 0x74e2_f284);
    r := NextOperation(10, r, 0x3020_401c);
    r := NextOperation(11, r, 0x5ed4_9596);
    r := NextOperation(12, r, 0xdda9_b9a6);
    r := NextOperation(13, r, 0xa105_1895);
    r := NextOperation(14, r, 0xe396_856b);
    r := NextOperation(15, r, 0x72af_f2e0);
  }

  lemma OperationsTo24()
    ensures RegistersAre(24, Registers(0x59a8_ffda, 0x4709_2c07, 0xabfc_7920, 0x6d00_2f1e))
  {
    hide RegistersAre;
    OperationsTo16();
    var r := Registers(0xdda9_b9a6, 0x72af_f2e0, 0xe396_856b, 0xa105_1895);
    r := NextOperation(16, r, 0x3e9e_9126);
    r := NextOperation(17, r, 0x4a1d_804e);
    r := NextOperation(18, r, 0xe25e_1652);
    r := NextOperation(19, r, 0xb5b2_04e4);
    r := NextOperation(20, r, 0x59a8_ffda);
    r := NextOperation(21, r, 0x6d00_2f1e);
    r := NextOperation(22, r, 0xabfc_7920);
    r := NextOperation(23, r, 0x4709_2c07);
  }

  lemma OperationsTo32()
    ensures RegistersAre(32, Registers(0x790a_77fb, 0x7263_42d3, 0xa628_84aa, 0x9f47_e4f8))
  {
    hide RegistersAre;
    OperationsTo24();
    var r := Registers(0x59a8_ffda, 0x4709_2c07, 0xabfc_7920, 0x6d00_2f1e);
    r := NextOperation(24, r, 0xb7f2_68cf);
    r := NextOperation(25, r, 0x0938_8eff);
    r := NextOperation(26, r, 0xfe16_23b1);
    r := NextOperation(27, r, 0x786a_cb8f);
    r := NextOperation(28, r, 0x790a_77fb);
    r := NextOperation(29, r, 0x9f47_e4f8);
    r := NextOperation(30, r, 0xa628_84aa);
    r := NextOperation(31, r, 0x7263_42d3);
  }

  lemma OperationsTo40()
    ensures RegistersAre(40, Registers(0x21b1_17b9, 0x5a2f_5ea5, 0x3575_227e, 0x6e74_29d5))
  {
    hide RegistersAre;
    OperationsTo32();
    var r := Registers(0x790a_77fb, 0x7263_42d3, 0xa628_84aa, 0x9f47_e4f8);
    r := NextOperation(32, r, 0xb370_7ebf);
    r := NextOperation(33, r, 0x6012_7b2e);
    r := NextOperation(34, r, 0x8d21_2ff5);
    r := NextOperation(35, r, 0x3b08_75c7);
    r := NextOperation(36, r, 0x21b1_17b9);
    r := NextOperation(37, r, 0x6e74_29d5);
    r := NextOperation(38, r, 0x3575_227e);
    r := NextOperation(39, r, 0x5a2f_5ea5);
  }

  lemma OperationsTo48()
    ensures RegistersAre(48, Registers(0x7f2e_507b, 0x7beb_9700, 0x8fae_6399, 0x99d9_679d))
  {
    hide RegistersAre;
    OperationsTo40();
    var r := Registers(0x21b1_17b9, 0x5a2f_5ea5, 0x3575_227e, 0x6e74_29d5);
    r := NextOperation(40, r, 0x11de_1779);
    r := NextOperation(41, r, 0xfadc_aa38);
    r := NextOperation(42, r, 0x31c4_65ca);
    r := NextOperation(43, r, 0x4c61_24f4);
    r := NextOperation(44, r, 0x7f2e_507b);
    r := NextOperation(45, r, 0x99d9_679d);
    r := NextOperation(46, r, 0x8fae_6399);
    r := NextOperation(47, r, 0x7beb_9700);
  }

  lemma OperationsTo56()
    ensures RegistersAre(56, Registers(0x06cc_5e8a, 0x3bfa_2c27, 0x7d63_2dd0, 0x5b0d_97aa))
  {
    hide RegistersAre;
    OperationsTo48();
    var r := Registers(0x7f2e_507b, 0x7beb_9700, 0x8fae_6399, 0x99d9_679d);
    r := NextOperation(48, r, 0x7b20_1df8);
    r := NextOperation(49, r, 0xf4e8_e96e);
    r := NextOperation(50, r, 0xb298_cefd);
    r := NextOperation(51, r, 0x8bf0_25c4);
    r := NextOperation(52, r, 0x06cc_5e8a);
    r := NextOperation(53, r, 0x5b0d_97aa);
    r := NextOperation(54, r, 0x7d63_2dd0);
    r := NextOperation(55, r, 0x3bfa_2c27);
  }

  lemma OperationsTo64()
    ensures RegistersAre(64, Registers(0x310a_de8f, 0xc082_26b3, 0xe484_b9d8, 0x624d_8cb2))
  {
    hide RegistersAre;
    OperationsTo56();
    var r := Registers(0x06cc_5e8a, 0x3bfa_2c27, 0x7d63_2dd0, 0x5b0d_97aa);
    r := NextOperation(56, r, 0x7f81_cc35);
    r := NextOperation(57, r, 0x0944_54ab);
    r := NextOperation(58, r, 0x4f9d_be3f);
    r := NextOperation(59, r, 0x7327_d604);
    r := NextOperation(60, r, 0x310a_de8f);
    r := NextOperation(61, r, 0x624d_8cb2);
    r := NextOperation(62, r, 0xe484_b9d8);
    r := NextOperation(63, r, 0xc082_26b3);
  }

  lemma AbcCompressed()
    ensures Compress(Initial(), AbcBlock()) == Registers(0x9850_0190, 0xb04f_d23c, 0x7d3f_96d6, 0x727f_e128)
  {
    hide Rounds, AbcBlock;
    OperationsTo64();
  }

  /** The bytes of the final registers, least significant first. */
  lemma AbcBytes()
    ensures DigestBytes(Registers(0x9850_0190, 0xb04f_d23c, 0x7d3f_96d6, 0x727f_e128))
         == [0x90, 0x01, 0x50, 0x98, 0x3c, 0xd2, 0x4f, 0xb0, 0xd6, 0x96, 0x3f, 0x7d, 0x28, 0xe1, 0x7f, 0x72]
  {
  }

  /** MD5("abc") is 900150983cd24fb0d6963f7d28e17f72. */
  lemma Md5OfAbc()
    ensures Md5([0x61, 0x62, 0x63])
         == [0x90, 0x01, 0x50, 0x98, 0x3c, 0xd2, 0x4f, 0xb0, 0xd6, 0x96, 0x3f, 0x7d, 0x28, 0xe1, 0x7f, 0x72]
  {
    hide Compress, AbcBlock, DigestBytes, Pad, Initial;
    PaddedAbc();
    HashOneBlock(Initial(), Pad(ABC));
    AbcCompressed();
    AbcBytes();
  }
}
