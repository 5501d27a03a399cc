/**
 Arithmetic of AES (src/crypto/crypto.h, src/crypto/aes.cpp): the two substitution tables,
 multiplication in GF(2^8), and the algebra that makes the inverse steps inverses.
 */
module AesField {

  import opened Bytes

  // ---------------------------------------------------------------------------------------
  // Substitution tables
  // ---------------------------------------------------------------------------------------

  /** Byte `x % 16` of a table row, the row being written as one 128-bit number. */
  function Entry(row: bv128, x: byte): byte {
    var eight: bv64 := if x & 8 == 0 then (row >> 64) as bv64 else (row & 0xffff_ffff_ffff_ffff) as bv64;
    var four: bv32 := if x & 4 == 0 then (eight >> 32) as bv32 else (eight & 0xffff_ffff) as bv32;
    var two: bv16 := if x & 2 == 0 then (four >> 16) as bv16 else (four & 0xffff) as bv16;
    if x & 1 == 0 then (two >> 8) as byte else (two & 0xff) as byte
  }

  function SboxRow(x: byte): bv128 {
    if x & 0xf0 == 0x00 then 0x637c777b_f26b6fc5_3001672b_fed7ab76
    else if x & 0xf0 == 0x10 then 0xca82c97d_fa5947f0_add4a2af_9ca472c0
    else if x & 0xf0 == 0x20 then 0xb7fd9326_363ff7cc_34a5e5f1_71d83115
    else if x & 0xf0 == 0x30 then 0x04c723c3_1896059a_071280e2_eb27b275
    else if x & 0xf0 == 0x40 then 0x09832c1a_1b6e5aa0_523bd6b3_29e32f84
    else if x & 0xf0 == 0x50 then 0x53d100ed_20fcb15b_6acbbe39_4a4c58cf
    else if x & 0xf0 == 0x60 then 0xd0efaafb_434d3385_45f9027f_503c9fa8
    else if x & 0xf0 == 0x70 then 0x51a3408f_929d38f5_bcb6da21_10fff3d2
    else if x & 0xf0 == 0x80 then 0xcd0c13ec_5f974417_c4a77e3d_645d1973
    else if x & 0xf0 == 0x90 then 0x60814fdc_222a9088_46eeb814_de5e0bdb
    else if x & 0xf0 == 0xa0 then 0xe0323a0a_4906245c_c2d3ac62_9195e479
    else if x & 0xf0 == 0xb0 then 0xe7c8376d_8dd54ea9_6c56f4ea_657aae08
    else if x & 0xf0 == 0xc0 then 0xba78252e_1ca6b4c6_e8dd741f_4bbd8b8a
    else if x & 0xf0 == 0xd0 then 0x703eb566_4803f60e_613557b9_86c11d9e
    else if x & 0xf0 == 0xe0 then 0xe1f89811_69d98e94_9b1e87e9_ce5528df
    else 0x8ca1890d_bfe64268_41992d0f_b054bb16
  }

  function InvSboxRow(x: byte): bv128 {
    if x & 0xf0 == 0x00 then 0x52096ad5_3036a538_bf40a39e_81f3d7fb
    else if x & 0xf0 == 0x10 then 0x7ce33982_9b2fff87_348e4344_c4dee9cb
    else if x & 0xf0 == 0x20 then 0x547b9432_a6c2233d_ee4c950b_42fac34e
    else if x & 0xf0 == 0x30 then 0x082ea166_28d924b2_765ba249_6d8bd125
    else if x & 0xf0 == 0x40 then 0x72f8f664_86689816_d4a45ccc_5d65b692
    else if x & 0xf0 == 0x50 then 0x6c704850_fdedb9da_5e154657_a78d9d84
    else if x & 0xf0 == 0x60 then 0x90d8ab00_8cbcd30a_f7e45805_b8b34506
    else if x & 0xf0 == 0x70 then 0xd02c1e8f_ca3f0f02_c1afbd03_01138a6b
    else if x & 0xf0 == 0x80 then 0x3a911141_4f67dcea_97f2cfce_f0b4e673
    else if x & 0xf0 == 0x90 then 0x96ac7422_e7ad3585_e2f937e8_1c75df6e
    else if x & 0xf0 == 0xa0 then 0x47f11a71_1d29c589_6fb7620e_aa18be1b
    else if x & 0xf0 == 0xb0 then 0xfc563e4b_c6d27920_9adbc0fe_78cd5af4
    else if x & 0xf0 == 0xc0 then 0x1fdda833_8807c731_b1121059_2780ec5f
    else if x & 0xf0 == 0xd0 then 0x60517fa9_19b54a0d_2de57a9f_93c99cef
    else if x & 0xf0 == 0xe0 then 0xa0e03b4d_ae2af5b0_c8ebbb3c_83539961
    else 0x172b047e_ba77d626_e1691463_55210c7d
  }

  function Sbox(x: byte): byte {
    Entry(SboxRow(x), x)
  }

  function InvSbox(x: byte): byte {
    Entry(InvSboxRow(x), x)
  }

  lemma SboxInverseLow(x: byte)
    requires x < 0x80
    ensures InvSbox(Sbox(x)) == x
  {
  }

  lemma SboxInverseMiddle(x: byte)
    requires 0x80 <= x < 0xc0
    ensures InvSbox(Sbox(x)) == x
  {
  }

  lemma SboxInverseHigh(x: byte)
    requires 0xc0 <= x
    ensures InvSbox(Sbox(x)) == x
  {
  }

  lemma SboxInverse(x: byte)
    ensures InvSbox(Sbox(x)) == x
  {
    hide Sbox, InvSbox;
    if x < 0x80 { SboxInverseLow(x); } else if x < 0xc0 { SboxInverseMiddle(x); } else { SboxInverseHigh(x); }
  }

  lemma InvSboxInverseLow(x: byte)
    requires x < 0x80
    ensures Sbox(InvSbox(x)) == x
  {
  }

  lemma InvSboxInverseMiddle(x: byte)
    requires 0x80 <= x < 0xc0
    ensures Sbox(InvSbox(x)) == x
  {
  }

  lemma InvSboxInverseHigh(x: byte)
    requires 0xc0 <= x
    ensures Sbox(InvSbox(x)) == x
  {
  }

  lemma InvSboxInverse(x: byte)
    ensures Sbox(InvSbox(x)) == x
  {
    hide Sbox, InvSbox;
    if x < 0x80 { InvSboxInverseLow(x); } else if x < 0xc0 { InvSboxInverseMiddle(x); } else { InvSboxInverseHigh(x); }
  }

  // ---------------------------------------------------------------------------------------
  // GF(2^8)
  // ---------------------------------------------------------------------------------------

  /** Multiplication by {02} (section 4.2.1 of FIPS 197), as the source shifts and masks. */
  function XTime(x: byte): byte {
    (x << 1) ^ (((x >> 7) & 1) * 0x1b)
  }

  /** Addition in GF(2^8). */
  function Add(x: byte, y: byte): byte { x ^ y }

  function Half(y: byte): (h: byte)
    ensures y != 0 ==> (h as int) < y as int
  {
    assert y != 0 ==> y >> 1 < y;
    y >> 1
  }

  function Term(x: byte, y: byte): byte {
    if y & 1 == 1 then x else 0
  }

  /** The product in GF(2^8): add a doubled multiple of `x` for every set bit of `y`. */
  function GfMul(x: byte, y: byte): byte
    decreases y as int
  {
    if y == 0 then 0 else Add(Term(x, y), GfMul(XTime(x), Half(y)))
  }

  /** A multiple of `x` kept or dropped by multiplying with the low bit of `y`. */
  function Masked(x: byte, y: byte): byte { (y & 1) * x }

  /** The source's product, which looks at the five low bits of `y` only. */
  function Multiply(x: byte, y: byte): byte {
    Add(Add(Add(Add(
      Masked(x, y),
      Masked(XTime(x), y >> 1)),
      Masked(XTime(XTime(x)), y >> 2)),
      Masked(XTime(XTime(XTime(x))), y >> 3)),
      Masked(XTime(XTime(XTime(XTime(x)))), y >> 4))
  }

  lemma GfMulUnfold(x: byte, y: byte)
    ensures GfMul(x, y) == Add(Term(x, y), GfMul(XTime(x), Half(y)))
  {
    hide XTime;
    if y == 0 { assert y >> 1 == 0; }
  }

  lemma GfMulFive(x: byte, y: byte)
    requires y < 32
    ensures var x1 := XTime(x); var x2 := XTime(x1); var x3 := XTime(x2); var x4 := XTime(x3);
            var y1 := Half(y); var y2 := Half(y1); var y3 := Half(y2); var y4 := Half(y3);
            GfMul(x, y) == Add(Term(x, y), Add(Term(x1, y1), Add(Term(x2, y2), Add(Term(x3, y3), Term(x4, y4)))))
  {
    var y4 := Half(Half(Half(Half(y))));
    assert Half(y4) == 0;
    hide XTime, Add, Term, Half;
    var x4 := XTime(XTime(XTime(XTime(x))));
    GfMulUnfold(x, y);
    GfMulUnfold(XTime(x), Half(y));
    GfMulUnfold(XTime(XTime(x)), Half(Half(y)));
    GfMulUnfold(XTime(XTime(XTime(x))), Half(Half(Half(y))));
    GfMulUnfold(x4, y4);
    AddZero(Term(x4, y4));
  }

  lemma AddZero(x: byte)
    ensures Add(x, 0) == x
  {
  }

  lemma MaskedIsTerm(x: byte, y: byte)
    ensures Masked(x, y) == Term(x, y)
  {
  }

  lemma AddFive(a: byte, b: byte, c: byte, d: byte, e: byte)
    ensures Add(Add(Add(Add(a, b), c), d), e) == Add(a, Add(b, Add(c, Add(d, e))))
  {
    hide Add;
    AddAssociative(a, b, c);
    AddAssociative(a, Add(b, c), d);
    AddAssociative(b, c, d);
    AddAssociative(a, Add(b, Add(c, d)), e);
    AddAssociative(b, Add(c, d), e);
    AddAssociative(c, d, e);
  }

  lemma HalvesAreShifts(y: byte)
    ensures Half(y) == y >> 1 && Half(Half(y)) == y >> 2
    ensures Half(Half(Half(y))) == y >> 3 && Half(Half(Half(Half(y)))) == y >> 4
  {
  }

  /** The source's product is the product of the field wherever it is used. */
  lemma MultiplyIsProduct(x: byte, y: byte)
    requires y < 32
    ensures Multiply(x, y) == GfMul(x, y)
  {
    hide XTime, GfMul, Term, Half, Masked, Add;
    GfMulFive(x, y);
    HalvesAreShifts(y);
    var x1 := XTime(x);
    var x2 := XTime(x1);
    var x3 := XTime(x2);
    var x4 := XTime(x3);
    MaskedIsTerm(x, y);
    MaskedIsTerm(x1, y >> 1);
    MaskedIsTerm(x2, y >> 2);
    MaskedIsTerm(x3, y >> 3);
    MaskedIsTerm(x4, y >> 4);
    AddFive(Term(x, y), Term(x1, y >> 1), Term(x2, y >> 2), Term(x3, y >> 3), Term(x4, y >> 4));
  }

  // ---------------------------------------------------------------------------------------
  // Mixing a column
  // ---------------------------------------------------------------------------------------

  /** The sum of four elements of the field. */
  function Sum(a: byte, b: byte, c: byte, d: byte): byte { Add(Add(a, b), Add(c, d)) }

  /** One row of MixColumns (section 5.1.3 of FIPS 197), `a` being the byte of that row. */
  function MixByte(a: byte, b: byte, c: byte, d: byte): byte {
    Sum(GfMul(a, 2), GfMul(b, 3), c, d)
  }

  /** One row of InvMixColumns (section 5.3.3 of FIPS 197). */
  function InvMixByte(a: byte, b: byte, c: byte, d: byte): byte {
    Sum(GfMul(a, 0x0e), GfMul(b, 0x0b), GfMul(c, 0x0d), GfMul(d, 0x09))
  }

  lemma MultiplyTwoThree(x: byte)
    ensures Multiply(x, 2) == XTime(x)
    ensures Multiply(x, 3) == XTime(x) ^ x
  {
    hide XTime;
  }

  lemma MultiplyNine(x: byte)
    ensures Multiply(x, 9) == XTime(XTime(XTime(x))) ^ x
  {
    hide XTime;
  }

  lemma MultiplyEleven(x: byte)
    ensures Multiply(x, 11) == XTime(XTime(XTime(x))) ^ XTime(x) ^ x
  {
    hide XTime;
  }

  lemma MultiplyThirteen(x: byte)
    ensures Multiply(x, 13) == XTime(XTime(XTime(x))) ^ XTime(XTime(x)) ^ x
  {
    hide XTime;
  }

  lemma MultiplyFourteen(x: byte)
    ensures Multiply(x, 14) == XTime(XTime(XTime(x))) ^ XTime(XTime(x)) ^ XTime(x)
  {
    hide XTime;
  }

  lemma XTimeAdditive(x: byte, y: byte)
    ensures XTime(x ^ y) == XTime(x) ^ XTime(y)
  {
    assert (((x ^ y) >> 7) & 1) * 0x1b == (((x >> 7) & 1) * 0x1b) ^ (((y >> 7) & 1) * 0x1b);
  }

  lemma AddAssociative(a: byte, b: byte, c: byte)
    ensures Add(Add(a, b), c) == Add(a, Add(b, c))
  {
  }

  lemma AddCommutes(a: byte, b: byte)
    ensures Add(a, b) == Add(b, a)
  {
  }

  lemma AddShuffle(a: byte, b: byte, c: byte, d: byte)
    ensures Add(Add(a, b), Add(c, d)) == Add(Add(a, c), Add(b, d))
  {
    hide Add;
    AddAssociative(a, b, Add(c, d));
    AddAssociative(b, c, d);
    AddCommutes(b, c);
    AddAssociative(c, b, d);
    AddAssociative(a, c, Add(b, d));
  }

  lemma TermAdditive(x: byte, y: byte, k: byte)
    ensures Term(Add(x, y), k) == Add(Term(x, k), Term(y, k))
  {
  }

  lemma {:induction false} GfMulAdditive(x: byte, y: byte, k: byte)
    ensures GfMul(Add(x, y), k) == Add(GfMul(x, k), GfMul(y, k))
    decreases k as int
  {
    if k != 0 {
      assert XTime(Add(x, y)) == Add(XTime(x), XTime(y)) by {
        hide XTime;
        XTimeAdditive(x, y);
      }
      hide GfMul, XTime, Add, Term, Half;
      GfMulAdditive(XTime(x), XTime(y), Half(k));
      TermAdditive(x, y, k);
      AddShuffle(Term(x, k), Term(y, k), GfMul(XTime(x), Half(k)), GfMul(XTime(y), Half(k)));
      GfMulUnfold(x, k);
      GfMulUnfold(y, k);
      GfMulUnfold(Add(x, y), k);
    } else {
      assert Add(0, 0) == 0;
    }
  }

  /** Multiplication by the constants of the two matrices, in doublings. */
  function Times(x: byte, k: byte): byte {
    var x2 := XTime(x);
    var x4 := XTime(x2);
    var x8 := XTime(x4);
    if k == 2 then x2
    else if k == 3 then x2 ^ x
    else if k == 9 then x8 ^ x
    else if k == 11 then x8 ^ x2 ^ x
    else if k == 13 then x8 ^ x4 ^ x
    else x8 ^ x4 ^ x2
  }

  lemma TimesIsProduct(x: byte, k: byte)
    requires k in {2, 3, 9, 11, 13, 14}
    ensures GfMul(x, k) == Times(x, k)
  {
    hide GfMul, XTime, Multiply;
    MultiplyIsProduct(x, k);
    MultiplyTwoThree(x);
    MultiplyNine(x);
    MultiplyEleven(x);
    MultiplyThirteen(x);
    MultiplyFourteen(x);
  }

  // What one byte of a column contributes after mixing and unmixing, in either order: its own
  // place gets it back, the other three sums vanish.

  lemma UnmixedOwnTimes(a: byte)
    ensures Sum(Times(Times(a, 2), 14), Times(a, 11), Times(a, 13), Times(Times(a, 3), 9)) == a
  {
  }

  lemma UnmixedOwn(a: byte)
    ensures Sum(GfMul(GfMul(a, 2), 14), GfMul(a, 11), GfMul(a, 13), GfMul(GfMul(a, 3), 9)) == a
  {
    hide GfMul, Times, Sum;
    TimesIsProduct(a, 2);
    TimesIsProduct(Times(a, 2), 14);
    TimesIsProduct(a, 11);
    TimesIsProduct(a, 13);
    TimesIsProduct(a, 3);
    TimesIsProduct(Times(a, 3), 9);
    UnmixedOwnTimes(a);
  }

  lemma UnmixedSecondTimes(b: byte)
    ensures Sum(Times(Times(b, 3), 14), Times(Times(b, 2), 11), Times(b, 13), Times(b, 9)) ^ b == b
  {
  }

  lemma UnmixedSecond(b: byte)
    ensures Sum(GfMul(GfMul(b, 3), 14), GfMul(GfMul(b, 2), 11), GfMul(b, 13), GfMul(b, 9)) == 0
  {
    hide GfMul, Times, Sum;
    TimesIsProduct(b, 3);
    TimesIsProduct(Times(b, 3), 14);
    TimesIsProduct(b, 2);
    TimesIsProduct(Times(b, 2), 11);
    TimesIsProduct(b, 13);
    TimesIsProduct(b, 9);
    UnmixedSecondTimes(b);
    Vanishes(Sum(Times(Times(b, 3), 14), Times(Times(b, 2), 11), Times(b, 13), Times(b, 9)), b);
  }

  lemma UnmixedThirdTimes(c: byte)
    ensures Sum(Times(c, 14), Times(Times(c, 3), 11), Times(Times(c, 2), 13), Times(c, 9)) ^ c == c
  {
  }

  lemma UnmixedThird(c: byte)
    ensures Sum(GfMul(c, 14), GfMul(GfMul(c, 3), 11), GfMul(GfMul(c, 2), 13), GfMul(c, 9)) == 0
  {
    hide GfMul, Times, Sum;
    TimesIsProduct(c, 14);
    TimesIsProduct(c, 3);
    TimesIsProduct(Times(c, 3), 11);
    TimesIsProduct(c, 2);
    TimesIsProduct(Times(c, 2), 13);
    TimesIsProduct(c, 9);
    UnmixedThirdTimes(c);
    Vanishes(Sum(Times(c, 14), Times(Times(c, 3), 11), Times(Times(c, 2), 13), Times(c, 9)), c);
  }

  lemma UnmixedFourthTimes(d: byte)
    ensures Sum(Times(d, 14), Times(d, 11), Times(Times(d, 3), 13), Times(Times(d, 2), 9)) ^ d == d
  {
  }

  lemma UnmixedFourth(d: byte)
    ensures Sum(GfMul(d, 14), GfMul(d, 11), GfMul(GfMul(d, 3), 13), GfMul(GfMul(d, 2), 9)) == 0
  {
    hide GfMul, Times, Sum;
    TimesIsProduct(d, 14);
    TimesIsProduct(d, 11);
    TimesIsProduct(d, 3);
    TimesIsProduct(Times(d, 3), 13);
    TimesIsProduct(d, 2);
    TimesIsProduct(Times(d, 2), 9);
    UnmixedFourthTimes(d);
    Vanishes(Sum(Times(d, 14), Times(d, 11), Times(Times(d, 3), 13), Times(Times(d, 2), 9)), d);
  }

  lemma MixedOwnTimes(a: byte)
    ensures Sum(Times(Times(a, 14), 2), Times(Times(a, 9), 3), Times(a, 13), Times(a, 11)) == a
  {
  }

  lemma MixedOwn(a: byte)
    ensures Sum(GfMul(GfMul(a, 14), 2), GfMul(GfMul(a, 9), 3), GfMul(a, 13), GfMul(a, 11)) == a
  {
    hide GfMul, Times, Sum;
    TimesIsProduct(a, 14);
    TimesIsProduct(Times(a, 14), 2);
    TimesIsProduct(a, 9);
    TimesIsProduct(Times(a, 9), 3);
    TimesIsProduct(a, 13);
    TimesIsProduct(a, 11);
    MixedOwnTimes(a);
  }

  lemma MixedSecondTimes(b: byte)
    ensures Sum(Times(Times(b, 11), 2), Times(Times(b, 14), 3), Times(b, 9), Times(b, 13)) ^ b == b
  {
  }

  lemma MixedSecond(b: byte)
    ensures Sum(GfMul(GfMul(b, 11), 2), GfMul(GfMul(b, 14), 3), GfMul(b, 9), GfMul(b, 13)) == 0
  {
    hide GfMul, Times, Sum;
    TimesIsProduct(b, 11);
    TimesIsProduct(Times(b, 11), 2);
    TimesIsProduct(b, 14);
    TimesIsProduct(Times(b, 14), 3);
    TimesIsProduct(b, 9);
    TimesIsProduct(b, 13);
    MixedSecondTimes(b);
    Vanishes(Sum(Times(Times(b, 11), 2), Times(Times(b, 14), 3), Times(b, 9), Times(b, 13)), b);
  }

  lemma MixedThirdTimes(c: byte)
    ensures Sum(Times(Times(c, 13), 2), Times(Times(c, 11), 3), Times(c, 14), Times(c, 9)) ^ c == c
  {
  }

  lemma MixedThird(c: byte)
    ensures Sum(GfMul(GfMul(c, 13), 2), GfMul(GfMul(c, 11), 3), GfMul(c, 14), GfMul(c, 9)) == 0
  {
    hide GfMul, Times, Sum;
    TimesIsProduct(c, 13);
    TimesIsProduct(Times(c, 13), 2);
    TimesIsProduct(c, 11);
    TimesIsProduct(Times(c, 11), 3);
    TimesIsProduct(c, 14);
    TimesIsProduct(c, 9);
    MixedThirdTimes(c);
    Vanishes(Sum(Times(Times(c, 13), 2), Times(Times(c, 11), 3), Times(c, 14), Times(c, 9)), c);
  }

  lemma MixedFourthTimes(d: byte)
    ensures Sum(Times(Times(d, 9), 2), Times(Times(d, 13), 3), Times(d, 11), Times(d, 14)) ^ d == d
  {
  }

  lemma MixedFourth(d: byte)
    ensures Sum(GfMul(GfMul(d, 9), 2), GfMul(GfMul(d, 13), 3), GfMul(d, 11), GfMul(d, 14)) == 0
  {
    hide GfMul, Times, Sum;
    TimesIsProduct(d, 9);
    TimesIsProduct(Times(d, 9), 2);
    TimesIsProduct(d, 13);
    TimesIsProduct(Times(d, 13), 3);
    TimesIsProduct(d, 11);
    TimesIsProduct(d, 14);
    MixedFourthTimes(d);
    Vanishes(Sum(Times(Times(d, 9), 2), Times(Times(d, 13), 3), Times(d, 11), Times(d, 14)), d);
  }

  lemma Vanishes(z: byte, b: byte)
    requires z ^ b == b
    ensures z == 0
  {
    assert z ^ b ^ b == z;
  }

  lemma SumRotates(a: byte, b: byte, c: byte, d: byte)
    ensures Sum(b, c, d, a) == Sum(a, b, c, d)
  {
    hide Add;
    AddCommutes(d, a);
    AddShuffle(b, c, a, d);
    AddCommutes(b, a);
    AddCommutes(Add(a, b), Add(c, d));
  }

  lemma AddSums(a: byte, b: byte, c: byte, d: byte, e: byte, f: byte, g: byte, h: byte)
    ensures Add(Sum(a, b, c, d), Sum(e, f, g, h)) == Sum(Add(a, e), Add(b, f), Add(c, g), Add(d, h))
  {
    hide Add;
    AddShuffle(Add(a, b), Add(c, d), Add(e, f), Add(g, h));
    AddShuffle(a, b, e, f);
    AddShuffle(c, d, g, h);
  }

  /** Adding up a table by columns, each row rotated to start at its own place, or by rows. */
  lemma SumSixteen(a0: byte, a1: byte, a2: byte, a3: byte, b0: byte, b1: byte, b2: byte, b3: byte,
                   c0: byte, c1: byte, c2: byte, c3: byte, d0: byte, d1: byte, d2: byte, d3: byte)
    ensures Sum(Sum(a0, b0, c0, d0), Sum(b1, c1, d1, a1), Sum(c2, d2, a2, b2), Sum(d3, a3, b3, c3))
         == Sum(Sum(a0, a1, a2, a3), Sum(b0, b1, b2, b3), Sum(c0, c1, c2, c3), Sum(d0, d1, d2, d3))
  {
    hide Add;
    SumRotates(a1, b1, c1, d1);
    SumRotates(b2, c2, d2, a2);
    SumRotates(a2, b2, c2, d2);
    SumRotates(d3, a3, b3, c3);
    SumRotates(c3, d3, a3, b3);
    SumRotates(b3, c3, d3, a3);
    AddSums(a0, b0, c0, d0, a1, b1, c1, d1);
    AddSums(a2, b2, c2, d2, a3, b3, c3, d3);
    AddSums(Add(a0, a1), Add(b0, b1), Add(c0, c1), Add(d0, d1), Add(a2, a3), Add(b2, b3), Add(c2, c3), Add(d2, d3));
  }

  lemma SumZeros(a: byte)
    ensures Sum(a, 0, 0, 0) == a
  {
  }

  lemma ProductOfSum(a: byte, b: byte, c: byte, d: byte, k: byte)
    ensures GfMul(Sum(a, b, c, d), k) == Sum(GfMul(a, k), GfMul(b, k), GfMul(c, k), GfMul(d, k))
  {
    hide GfMul, Add;
    GfMulAdditive(a, b, k);
    GfMulAdditive(c, d, k);
    GfMulAdditive(Add(a, b), Add(c, d), k);
  }

  /** Unmixing a mixed column gives back each of its bytes (rows are cyclic, so one suffices). */
  lemma UnmixMix(a: byte, b: byte, c: byte, d: byte)
    ensures InvMixByte(MixByte(a, b, c, d), MixByte(b, c, d, a), MixByte(c, d, a, b), MixByte(d, a, b, c)) == a
  {
    hide GfMul, Sum;
    ProductOfSum(GfMul(a, 2), GfMul(b, 3), c, d, 14);
    ProductOfSum(GfMul(b, 2), GfMul(c, 3), d, a, 11);
    ProductOfSum(GfMul(c, 2), GfMul(d, 3), a, b, 13);
    ProductOfSum(GfMul(d, 2), GfMul(a, 3), b, c, 9);
    SumSixteen(GfMul(GfMul(a, 2), 14), GfMul(a, 11), GfMul(a, 13), GfMul(GfMul(a, 3), 9),
               GfMul(GfMul(b, 3), 14), GfMul(GfMul(b, 2), 11), GfMul(b, 13), GfMul(b, 9),
               GfMul(c, 14), GfMul(GfMul(c, 3), 11), GfMul(GfMul(c, 2), 13), GfMul(c, 9),
               GfMul(d, 14), GfMul(d, 11), GfMul(GfMul(d, 3), 13), GfMul(GfMul(d, 2), 9));
    UnmixedOwn(a);
    UnmixedSecond(b);
    UnmixedThird(c);
    UnmixedFourth(d);
    SumZeros(a);
  }

  /** Mixing an unmixed column gives back each of its bytes. */
  lemma MixUnmix(a: byte, b: byte, c: byte, d: byte)
    ensures MixByte(InvMixByte(a, b, c, d), InvMixByte(b, c, d, a), InvMixByte(c, d, a, b), InvMixByte(d, a, b, c)) == a
  {
    hide GfMul, Sum;
    ProductOfSum(GfMul(a, 14), GfMul(b, 11), GfMul(c, 13), GfMul(d, 9), 2);
    ProductOfSum(GfMul(b, 14), GfMul(c, 11), GfMul(d, 13), GfMul(a, 9), 3);
    SumSixteen(GfMul(GfMul(a, 14), 2), GfMul(GfMul(a, 9), 3), GfMul(a, 13), GfMul(a, 11),
               GfMul(GfMul(b, 11), 2), GfMul(GfMul(b, 14), 3), GfMul(b, 9), GfMul(b, 13),
               GfMul(GfMul(c, 13), 2), GfMul(GfMul(c, 11), 3), GfMul(c, 14), GfMul(c, 9),
               GfMul(GfMul(d, 9), 2), GfMul(GfMul(d, 13), 3), GfMul(d, 11), GfMul(d, 14));
    MixedOwn(a);
    MixedSecond(b);
    MixedThird(c);
    MixedFourth(d);
    SumZeros(a);
  }

  /** The four bytes of a column added up in turn. */
  function ColumnSum(a: byte, b: byte, c: byte, d: byte): byte {
    Add(Add(Add(a, b), c), d)
  }

  lemma ColumnSumRotates(a: byte, b: byte, c: byte, d: byte)
    ensures ColumnSum(a, b, c, d) == ColumnSum(b, c, d, a)
  {
    hide Add;
    AddAssociative(a, b, c);
    AddAssociative(a, Add(b, c), d);
    AddCommutes(a, Add(Add(b, c), d));
  }

  lemma AddCancels(a: byte, b: byte)
    ensures Add(a, Add(a, b)) == b
  {
  }

  /** The source's way of mixing a row, with one doubling, gives FIPS 197's. */
  lemma OneDoublingSuffices(a: byte, b: byte, c: byte, d: byte)
    ensures Add(a, Add(XTime(Add(a, b)), ColumnSum(a, b, c, d))) == MixByte(a, b, c, d)
  {
    hide Add, XTime, GfMul, Times;
    var xa, xb := XTime(a), XTime(b);
    var rest := Add(b, Add(c, d));
    assert XTime(Add(a, b)) == Add(xa, xb) by { XTimeOfSum(a, b); }
    // the column sum is a + rest, and the two a's cancel
    AddAssociative(a, b, c);
    AddAssociative(a, Add(b, c), d);
    AddAssociative(b, c, d);
    AddAssociative(Add(xa, xb), a, rest);
    AddCommutes(Add(xa, xb), a);
    AddAssociative(a, Add(xa, xb), rest);
    AddCancels(a, Add(Add(xa, xb), rest));
    // regroup as 2a + 3b + c + d
    AddAssociative(Add(xa, xb), b, Add(c, d));
    AddAssociative(xa, xb, b);
    TwoAndThree(a, b);
  }

  lemma XTimeOfSum(a: byte, b: byte)
    ensures XTime(Add(a, b)) == Add(XTime(a), XTime(b))
  {
    hide XTime;
    XTimeAdditive(a, b);
  }

  lemma TwoAndThree(a: byte, b: byte)
    ensures GfMul(a, 2) == XTime(a) && GfMul(b, 3) == Add(XTime(b), b)
  {
    hide XTime, GfMul;
    TimesIsProduct(a, 2);
    TimesIsProduct(b, 3);
  }

  /** The source's products unmix a row as FIPS 197's do. */
  lemma SourceUnmixes(a: byte, b: byte, c: byte, d: byte)
    ensures Sum(Multiply(a, 0x0e), Multiply(b, 0x0b), Multiply(c, 0x0d), Multiply(d, 0x09)) == InvMixByte(a, b, c, d)
  {
    hide Sum, Multiply, GfMul;
    MultiplyIsProduct(a, 0x0e);
    MultiplyIsProduct(b, 0x0b);
    MultiplyIsProduct(c, 0x0d);
    MultiplyIsProduct(d, 0x09);
  }
}
