/**
 The substitution table of AES (src/crypto/aes.cpp) against its definition in section 5.1.1 of
 FIPS 197: the multiplicative inverse in GF(2^8), and then an affine transformation of the bits.
 */
module AesSbox {
  import opened Bytes
  import opened AesField

  /** The bits of `x` turned left by `n` places. */
  function TurnedLeft(x: byte, n: bv4): byte
    requires n <= 8
  {
    (x << n) | (x >> (8 - n))
  }

  /** The affine transformation: bit i is the sum of bits i, i+4, i+5, i+6 and i+7, and of bit i of 0x63. */
  function Affine(x: byte): byte {
    x ^ TurnedLeft(x, 1) ^ TurnedLeft(x, 2) ^ TurnedLeft(x, 3) ^ TurnedLeft(x, 4) ^ 0x63
  }

  /** Its inverse (section 5.3.2 of FIPS 197). */
  function Unaffine(s: byte): byte {
    TurnedLeft(s, 1) ^ TurnedLeft(s, 3) ^ TurnedLeft(s, 6) ^ 0x05
  }

  /** The product with all eight bits of `y` written out. */
  function EightTerms(x: byte, y: byte): byte {
    var x1 := XTime(x);
    var x2 := XTime(x1);
    var x3 := XTime(x2);
    var x4 := XTime(x3);
    var x5 := XTime(x4);
    var x6 := XTime(x5);
    var x7 := XTime(x6);
    var y1 := Half(y);
    var y2 := Half(y1);
    var y3 := Half(y2);
    var y4 := Half(y3);
    var y5 := Half(y4);
    var y6 := Half(y5);
    var y7 := Half(y6);
    Add(Term(x, y), Add(Term(x1, y1), Add(Term(x2, y2), Add(Term(x3, y3),
    Add(Term(x4, y4), Add(Term(x5, y5), Add(Term(x6, y6), Term(x7, y7))))))))
  }

  lemma EightHalves(y: byte)
    ensures Half(Half(Half(Half(Half(Half(Half(Half(y)))))))) == 0
  {
  }

  lemma ProductIsEightTerms(x: byte, y: byte)
    ensures GfMul(x, y) == EightTerms(x, y)
  {
    hide XTime, Add, Term, Half;
    EightHalves(y);
    var x1 := XTime(x);
    var x2 := XTime(x1);
    var x3 := XTime(x2);
    var x4 := XTime(x3);
    var x5 := XTime(x4);
    var x6 := XTime(x5);
    var x7 := XTime(x6);
    var y1 := Half(y);
    var y2 := Half(y1);
    var y3 := Half(y2);
    var y4 := Half(y3);
    var y5 := Half(y4);
    var y6 := Half(y5);
    var y7 := Half(y6);
    GfMulUnfold(x, y);
    GfMulUnfold(x1, y1);
    GfMulUnfold(x2, y2);
    GfMulUnfold(x3, y3);
    GfMulUnfold(x4, y4);
    GfMulUnfold(x5, y5);
    GfMulUnfold(x6, y6);
    GfMulUnfold(x7, y7);
    AddZero(Term(x7, y7));
  }

  lemma AffineUnaffine(s: byte)
    ensures Affine(Unaffine(s)) == s
  {
  }

  /** The byte of the table before the affine transformation. */
  function Inverted(x: byte): byte { Unaffine(Sbox(x)) }

  lemma AffineInverted(x: byte)
    ensures Affine(Inverted(x)) == Sbox(x)
  {
    hide Affine, Unaffine, Sbox;
    AffineUnaffine(Sbox(x));
  }

  lemma InvertedZero()
    ensures Inverted(0) == 0
  {
  }
  lemma InverseFrom00(x: byte)
    requires x != 0 && 0x00 <= x < 0x20
    ensures EightTerms(x, Inverted(x)) == 1
  {
    assert x == 0x00 | (x & 0x1f);
  }

  lemma InverseFrom20(x: byte)
    requires 0x20 <= x < 0x40
    ensures EightTerms(x, Inverted(x)) == 1
  {
    assert x == 0x20 | (x & 0x1f);
  }

  lemma InverseFrom40(x: byte)
    requires 0x40 <= x < 0x60
    ensures EightTerms(x, Inverted(x)) == 1
  {
    assert x == 0x40 | (x & 0x1f);
  }

  lemma InverseFrom60(x: byte)
    requires 0x60 <= x < 0x80
    ensures EightTerms(x, Inverted(x)) == 1
  {
    assert x == 0x60 | (x & 0x1f);
  }

  lemma InverseFrom80(x: byte)
    requires 0x80 <= x < 0xa0
    ensures EightTerms(x, Inverted(x)) == 1
  {
    assert x == 0x80 | (x & 0x1f);
  }

  lemma InverseFromA0(x: byte)
    requires 0xa0 <= x < 0xc0
    ensures EightTerms(x, Inverted(x)) == 1
  {
    assert x == 0xa0 | (x & 0x1f);
  }

  lemma InverseFromC0(x: byte)
    requires 0xc0 <= x < 0xe0
    ensures EightTerms(x, Inverted(x)) == 1
  {
    assert x == 0xc0 | (x & 0x1f);
  }

  lemma InverseFromE0(x: byte)
    requires 0xe0 <= x
    ensures EightTerms(x, Inverted(x)) == 1
  {
    assert x == 0xe0 | (x & 0x1f);
  }

  /**
   The table is the one the standard defines: each entry is the affine transformation of the
   inverse of its index, 0 standing for the inverse that 0 has not.
   */
  lemma SboxIsAffineInverse(x: byte)
    ensures Sbox(x) == Affine(Inverted(x))
    ensures if x == 0 then Inverted(x) == 0 else GfMul(x, Inverted(x)) == 1
  {
    hide Sbox, Affine, Inverted, GfMul, EightTerms;
    AffineInverted(x);
    ProductIsEightTerms(x, Inverted(x));
    InvertedZero();
    if x == 0 {
    } else if x < 0x20 {
      InverseFrom00(x);
    } else if x < 0x40 {
      InverseFrom20(x);
    } else if x < 0x60 {
      InverseFrom40(x);
    } else if x < 0x80 {
      InverseFrom60(x);
    } else if x < 0xa0 {
      InverseFrom80(x);
    } else if x < 0xc0 {
      InverseFromA0(x);
    } else if x < 0xe0 {
      InverseFromC0(x);
    } else {
      InverseFromE0(x);
    }
  }
}
