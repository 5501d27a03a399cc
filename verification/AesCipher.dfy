/**
 The AES object (src/crypto/aes.cpp): every round step overwrites the state in place inside the
 output buffer, and every method is proved against the specification of module AesStandard.
 */
module AesCipher {
  import opened Bytes
  import opened AesField
  import opened AesStandard

  // ---------------------------------------------------------------------------------------
  // Key schedule (section 5.2 of FIPS 197)
  // ---------------------------------------------------------------------------------------

  datatype Word = Word(b0: byte, b1: byte, b2: byte, b3: byte) {
    function Bytes(): (s: seq<byte>)
      ensures |s| == 4
    {
      [b0, b1, b2, b3]
    }
  }

  function AddWords(v: Word, w: Word): Word {
    Word(Add(v.b0, w.b0), Add(v.b1, w.b1), Add(v.b2, w.b2), Add(v.b3, w.b3))
  }

  function SubWord(w: Word): Word {
    Word(Sbox(w.b0), Sbox(w.b1), Sbox(w.b2), Sbox(w.b3))
  }

  function RotWord(w: Word): Word {
    Word(w.b1, w.b2, w.b3, w.b0)
  }

  /** The power {02}^(j - 1) of the field. */
  function RoundConstant(j: nat): byte {
    if j <= 1 then 1 else XTime(RoundConstant(j - 1))
  }

  /** Key lengths in words: 4, 6 or 8. */
  predicate KeyWords(nk: nat) {
    nk == 4 || nk == 6 || nk == 8
  }

  function WordAt(s: seq<byte>, i: nat): Word
    requires 4 * i + 4 <= |s|
  {
    Word(s[4 * i], s[4 * i + 1], s[4 * i + 2], s[4 * i + 3])
  }

  /** What is added to word `i - nk` to give word `i`, from word `i - 1`. */
  function Turned(temp: Word, nk: nat, i: nat): Word
    requires KeyWords(nk)
  {
    if i % nk == 0 then AddWords(SubWord(RotWord(temp)), Word(RoundConstant(i / nk), 0, 0, 0))
    else if nk > 6 && i % nk == 4 then SubWord(temp)
    else temp
  }

  /** Word `i` of the expanded key. */
  function ExpandedWord(key: seq<byte>, nk: nat, i: nat): Word
    requires KeyWords(nk) && |key| == 4 * nk
    decreases i
  {
    if i < nk then WordAt(key, i)
    else AddWords(ExpandedWord(key, nk, i - nk), Turned(ExpandedWord(key, nk, i - 1), nk, i))
  }

  /** Byte `k` of the expanded key. */
  function KeyByte(key: seq<byte>, nk: nat, k: nat): byte
    requires KeyWords(nk) && |key| == 4 * nk
  {
    var w := ExpandedWord(key, nk, k / 4);
    match k % 4
    case 0 => w.b0
    case 1 => w.b1
    case 2 => w.b2
    case _ => w.b3
  }

  lemma KeyBytesOfWord(key: seq<byte>, nk: nat, i: nat)
    requires KeyWords(nk) && |key| == 4 * nk
    ensures var w := ExpandedWord(key, nk, i);
            KeyByte(key, nk, 4 * i) == w.b0 && KeyByte(key, nk, 4 * i + 1) == w.b1
            && KeyByte(key, nk, 4 * i + 2) == w.b2 && KeyByte(key, nk, 4 * i + 3) == w.b3
  {
    hide ExpandedWord;
    assert (4 * i) / 4 == i && (4 * i + 1) / 4 == i && (4 * i + 2) / 4 == i && (4 * i + 3) / 4 == i;
    assert (4 * i) % 4 == 0 && (4 * i + 1) % 4 == 1 && (4 * i + 2) % 4 == 2 && (4 * i + 3) % 4 == 3;
  }

  function RoundKeyOf(key: seq<byte>, nk: nat, r: nat): Block
    requires KeyWords(nk) && |key| == 4 * nk
  {
    seq(16, k requires 0 <= k < 16 => KeyByte(key, nk, 16 * r + k))
  }

  /** The key schedule: Nr + 1 round keys, where Nr is Nk + 6. */
  function KeySchedule(key: seq<byte>, nk: nat): (keys: seq<Block>)
    requires KeyWords(nk) && |key| == 4 * nk
    ensures |keys| == nk + 7
  {
    seq(nk + 7, r requires 0 <= r < nk + 7 => RoundKeyOf(key, nk, r))
  }

  /** The bytes of a round key array, sixteen at a time. */
  function KeysIn(s: seq<byte>, n: nat): (keys: seq<Block>)
    requires |s| == 16 * n
    ensures |keys| == n
  {
    seq(n, r requires 0 <= r < n => s[16 * r..16 * r + 16])
  }

  /** The source's table of round constants; its entry 0 is never used. */
  const RCON: seq<byte> := [0x8d, 0x01, 0x02, 0x04, 0x08, 0x10, 0x20, 0x40, 0x80, 0x1b, 0x36]

  lemma RconIsPower(j: nat)
    requires 1 <= j <= 10
    ensures RCON[j] == RoundConstant(j)
  {
    assert RoundConstant(1) == 0x01;
    assert RoundConstant(2) == 0x02;
    assert RoundConstant(3) == 0x04;
    assert RoundConstant(4) == 0x08;
    assert RoundConstant(5) == 0x10;
    assert RoundConstant(6) == 0x20;
    assert RoundConstant(7) == 0x40;
    assert RoundConstant(8) == 0x80;
    assert RoundConstant(9) == 0x1b;
    assert RoundConstant(10) == 0x36;
  }

  class Aes {
    /** Key length in words; the number of rounds is nk + 6. */
    const nk: nat
    const roundKey: array<byte>
    /** The buffer and the place in it where the block being worked on starts. */
    var state: array<byte>
    var base: nat
    var iv: seq<byte>

    ghost predicate Valid()
      reads this
    {
      KeyWords(nk) && roundKey.Length == 16 * (nk + 7) && state != roundKey && base + 16 <= state.Length
    }

    ghost function Current(): Block
      requires Valid()
      reads this, state
    {
      state[base..base + 16]
    }

    ghost function Keys(): (keys: seq<Block>)
      requires Valid()
      reads this, roundKey
      ensures |keys| == nk + 7
    {
      KeysIn(roundKey[..], nk + 7)
    }

    /** The branches of the loop that expands the key, on the four bytes of `tempa`. */
    method Turn(temp: Word, i: nat) returns (turned: Word)
      requires Valid() && nk <= i < 4 * (nk + 7)
      ensures turned == Turned(temp, nk, i)
    {
      hide Sbox, XTime, Add;
      var t0, t1, t2, t3 := temp.b0, temp.b1, temp.b2, temp.b3;
      if i % nk == 0 {
        t0, t1, t2, t3 := t1, t2, t3, t0;
        t0, t1, t2, t3 := Sbox(t0), Sbox(t1), Sbox(t2), Sbox(t3);
        QuotientInTable(i);
        RconIsPower(i / nk);
        AddZero(t1);
        AddZero(t2);
        AddZero(t3);
        t0 := Add(t0, RCON[i / nk]);
      }
      if nk == 8 && i % nk == 4 {
        t0, t1, t2, t3 := Sbox(t0), Sbox(t1), Sbox(t2), Sbox(t3);
      }
      turned := Word(t0, t1, t2, t3);
    }

    lemma QuotientInTable(i: nat)
      requires Valid() && nk <= i < 4 * (nk + 7)
      ensures 1 <= i / nk <= 10
    {
      if nk == 4 { } else if nk == 6 { } else { assert nk == 8; }
    }

    method WriteWord(i: nat, w: Word)
      requires Valid() && i < 4 * (nk + 7)
      modifies roundKey
      ensures roundKey[4 * i] == w.b0 && roundKey[4 * i + 1] == w.b1
           && roundKey[4 * i + 2] == w.b2 && roundKey[4 * i + 3] == w.b3
      ensures forall k :: 0 <= k < roundKey.Length && !(4 * i <= k < 4 * i + 4) ==> roundKey[k] == old(roundKey[k])
    {
      roundKey[4 * i] := w.b0;
      roundKey[4 * i + 1] := w.b1;
      roundKey[4 * i + 2] := w.b2;
      roundKey[4 * i + 3] := w.b3;
    }

    /** The expanded key is complete up to word `i`. */
    ghost predicate ExpandedTo(key: seq<byte>, i: nat)
      requires Valid() && |key| == 4 * nk && i <= 4 * (nk + 7)
      reads this, roundKey
    {
      forall k :: 0 <= k < 4 * i ==> roundKey[k] == KeyByte(key, nk, k)
    }

    method NextWord(key: seq<byte>, i: nat)
      requires Valid() && |key| == 4 * nk && nk <= i < 4 * (nk + 7) && ExpandedTo(key, i)
      modifies roundKey
      ensures ExpandedTo(key, i + 1)
    {
      hide Turned, AddWords, KeyByte;
      KeyBytesOfWord(key, nk, i);
      KeyBytesOfWord(key, nk, i - 1);
      KeyBytesOfWord(key, nk, i - nk);
      var j := 4 * (i - 1);
      var temp := Word(roundKey[j], roundKey[j + 1], roundKey[j + 2], roundKey[j + 3]);
      var turned := Turn(temp, i);
      j := 4 * (i - nk);
      var back := Word(roundKey[j], roundKey[j + 1], roundKey[j + 2], roundKey[j + 3]);
      WriteWord(i, AddWords(back, turned));
    }

    method KeyExpansion(key: seq<byte>)
      requires Valid() && |key| == 4 * nk
      modifies roundKey
      ensures Valid() && Keys() == KeySchedule(key, nk)
    {
      hide ExpandedWord, KeyByte;
      var i := 0;
      while i < nk
        invariant i <= nk && ExpandedTo(key, i)
      {
        FirstWord(key, i);
        WriteWord(i, WordAt(key, i));
        i := i + 1;
      }
      while i < 4 * (nk + 7)
        invariant nk <= i <= 4 * (nk + 7) && ExpandedTo(key, i)
      {
        NextWord(key, i);
        i := i + 1;
      }
      AllExpanded(key);
    }

    lemma AllExpanded(key: seq<byte>)
      requires Valid() && |key| == 4 * nk && ExpandedTo(key, 4 * (nk + 7))
      ensures Keys() == KeySchedule(key, nk)
    {
      hide ExpandedWord, KeyByte;
      forall r | 0 <= r < nk + 7
        ensures Keys()[r] == RoundKeyOf(key, nk, r)
      {
      }
    }

    lemma FirstWord(key: seq<byte>, i: nat)
      requires Valid() && |key| == 4 * nk && i < nk
      ensures var w := WordAt(key, i);
              KeyByte(key, nk, 4 * i) == w.b0 && KeyByte(key, nk, 4 * i + 1) == w.b1
              && KeyByte(key, nk, 4 * i + 2) == w.b2 && KeyByte(key, nk, 4 * i + 3) == w.b3
    {
      KeyBytesOfWord(key, nk, i);
    }

    // -------------------------------------------------------------------------------------
    // Round steps, in place
    // -------------------------------------------------------------------------------------

    method AddRoundKey(round: nat)
      requires Valid() && round < nk + 7
      modifies state
      ensures Valid() && Current() == AddBlocks(old(Current()), Keys()[round])
      ensures forall k :: 0 <= k < state.Length && !(base <= k < base + 16) ==> state[k] == old(state[k])
    {
      hide Add;
      for i := 0 to 4
        invariant forall k :: 0 <= k < state.Length ==>
          state[k] == if base <= k < base + 4 * i then Add(old(state[k]), roundKey[16 * round + (k - base)]) else old(state[k])
      {
        for j := 0 to 4
          invariant forall k :: 0 <= k < state.Length ==>
            state[k] == if base <= k < base + 4 * i + j then Add(old(state[k]), roundKey[16 * round + (k - base)]) else old(state[k])
        {
          state[base + 4 * i + j] := Add(state[base + 4 * i + j], roundKey[16 * round + 4 * i + j]);
        }
      }
    }

    method SubstituteBytes()
      requires Valid()
      modifies state
      ensures Valid() && Current() == SubBytes(old(Current()))
      ensures forall k :: 0 <= k < state.Length && !(base <= k < base + 16) ==> state[k] == old(state[k])
    {
      hide Sbox;
      for i := 0 to 4
        invariant forall k :: 0 <= k < state.Length ==>
          state[k] == if base <= k < base + 16 && (k - base) % 4 < i then Sbox(old(state[k])) else old(state[k])
      {
        for j := 0 to 4
          invariant forall k :: 0 <= k < state.Length ==>
            state[k] == if base <= k < base + 16 && ((k - base) % 4 < i || ((k - base) % 4 == i && k - base < 4 * j))
                        then Sbox(old(state[k])) else old(state[k])
        {
          assert (4 * j + i) % 4 == i;
          state[base + 4 * j + i] := Sbox(state[base + 4 * j + i]);
        }
      }
    }

    method RotateRow1Left()
      requires Valid()
      modifies state
      ensures Valid() && Current() == Row1Left(old(Current()))
      ensures forall k :: 0 <= k < state.Length && !(base <= k < base + 16) ==> state[k] == old(state[k])
    {
      var temp := state[base + 1];
      state[base + 1] := state[base + 5];
      state[base + 5] := state[base + 9];
      state[base + 9] := state[base + 13];
      state[base + 13] := temp;
    }

    method SwapRow2()
      requires Valid()
      modifies state
      ensures Valid() && Current() == Row2Swapped(old(Current()))
      ensures forall k :: 0 <= k < state.Length && !(base <= k < base + 16) ==> state[k] == old(state[k])
    {
      var temp := state[base + 2];
      state[base + 2] := state[base + 10];
      state[base + 10] := temp;
      temp := state[base + 6];
      state[base + 6] := state[base + 14];
      state[base + 14] := temp;
    }

    method RotateRow3Left()
      requires Valid()
      modifies state
      ensures Valid() && Current() == Row3Left(old(Current()))
      ensures forall k :: 0 <= k < state.Length && !(base <= k < base + 16) ==> state[k] == old(state[k])
    {
      var temp := state[base + 3];
      state[base + 3] := state[base + 15];
      state[base + 15] := state[base + 11];
      state[base + 11] := state[base + 7];
      state[base + 7] := temp;
    }

    method ShiftTheRows()
      requires Valid()
      modifies state
      ensures Valid() && Current() == ShiftRows(old(Current()))
      ensures forall k :: 0 <= k < state.Length && !(base <= k < base + 16) ==> state[k] == old(state[k])
    {
      ghost var was := Current();
      RotateRow1Left();
      SwapRow2();
      RotateRow3Left();
      RowsTurnedLeft(was);
    }

    method RotateRow1Right()
      requires Valid()
      modifies state
      ensures Valid() && Current() == Row1Right(old(Current()))
      ensures forall k :: 0 <= k < state.Length && !(base <= k < base + 16) ==> state[k] == old(state[k])
    {
      var temp := state[base + 13];
      state[base + 13] := state[base + 9];
      state[base + 9] := state[base + 5];
      state[base + 5] := state[base + 1];
      state[base + 1] := temp;
    }

    method RotateRow3Right()
      requires Valid()
      modifies state
      ensures Valid() && Current() == Row3Right(old(Current()))
      ensures forall k :: 0 <= k < state.Length && !(base <= k < base + 16) ==> state[k] == old(state[k])
    {
      var temp := state[base + 3];
      state[base + 3] := state[base + 7];
      state[base + 7] := state[base + 11];
      state[base + 11] := state[base + 15];
      state[base + 15] := temp;
    }

    method UnshiftTheRows()
      requires Valid()
      modifies state
      ensures Valid() && Current() == InvShiftRows(old(Current()))
      ensures forall k :: 0 <= k < state.Length && !(base <= k < base + 16) ==> state[k] == old(state[k])
    {
      ghost var was := Current();
      RotateRow1Right();
      SwapRow2();
      RotateRow3Right();
      RowsTurnedRight(was);
    }

    method MixTheColumns()
      requires Valid()
      modifies state
      ensures Valid() && Current() == MixColumns(old(Current()))
      ensures forall k :: 0 <= k < state.Length && !(base <= k < base + 16) ==> state[k] == old(state[k])
    {
      hide MixAt;
      ghost var was := Current();
      for i := 0 to 4
        invariant forall k :: 0 <= k < 4 * i ==> state[base + k] == MixAt(was, k)
        invariant forall k :: 4 * i <= k < 16 ==> state[base + k] == was[k]
        invariant forall k :: 0 <= k < state.Length && !(base <= k < base + 16) ==> state[k] == old(state[k])
      {
        MixColumnOf(i, was);
      }
    }

    method MixColumnOf(i: nat, ghost was: Block)
      requires Valid() && i < 4
      requires forall k :: 4 * i <= k < 4 * i + 4 ==> state[base + k] == was[k]
      modifies state
      ensures forall k :: 4 * i <= k < 4 * i + 4 ==> state[base + k] == MixAt(was, k)
      ensures forall k :: 0 <= k < state.Length && !(base + 4 * i <= k < base + 4 * i + 4) ==> state[k] == old(state[k])
    {
      hide MixAt, MixByte;
      ColumnBytes(was, 4 * i);
      MixColumn(base + 4 * i);
    }

    /** The body of the loop over columns. */
    method MixColumn(at: nat)
      requires Valid() && at + 4 <= state.Length
      modifies state
      ensures var a, b, c, d := old(state[at]), old(state[at + 1]), old(state[at + 2]), old(state[at + 3]);
              state[at] == MixByte(a, b, c, d) && state[at + 1] == MixByte(b, c, d, a)
              && state[at + 2] == MixByte(c, d, a, b) && state[at + 3] == MixByte(d, a, b, c)
      ensures forall k :: 0 <= k < state.Length && !(at <= k < at + 4) ==> state[k] == old(state[k])
    {
      hide XTime, MixByte, Add, ColumnSum;
      ghost var a, b, c, d := state[at], state[at + 1], state[at + 2], state[at + 3];
      OneDoublingSuffices(a, b, c, d);
      OneDoublingSuffices(b, c, d, a);
      OneDoublingSuffices(c, d, a, b);
      OneDoublingSuffices(d, a, b, c);
      ColumnSumRotates(a, b, c, d);
      ColumnSumRotates(b, c, d, a);
      ColumnSumRotates(c, d, a, b);
      var t := state[at];
      var Tmp := ColumnSum(state[at], state[at + 1], state[at + 2], state[at + 3]);
      var Tm := XTime(Add(state[at], state[at + 1]));
      state[at] := Add(state[at], Add(Tm, Tmp));
      Tm := XTime(Add(state[at + 1], state[at + 2]));
      state[at + 1] := Add(state[at + 1], Add(Tm, Tmp));
      Tm := XTime(Add(state[at + 2], state[at + 3]));
      state[at + 2] := Add(state[at + 2], Add(Tm, Tmp));
      Tm := XTime(Add(state[at + 3], t));
      state[at + 3] := Add(state[at + 3], Add(Tm, Tmp));
    }

    method UnmixTheColumns()
      requires Valid()
      modifies state
      ensures Valid() && Current() == InvMixColumns(old(Current()))
      ensures forall k :: 0 <= k < state.Length && !(base <= k < base + 16) ==> state[k] == old(state[k])
    {
      hide InvMixAt;
      ghost var was := Current();
      for i := 0 to 4
        invariant forall k :: 0 <= k < 4 * i ==> state[base + k] == InvMixAt(was, k)
        invariant forall k :: 4 * i <= k < 16 ==> state[base + k] == was[k]
        invariant forall k :: 0 <= k < state.Length && !(base <= k < base + 16) ==> state[k] == old(state[k])
      {
        UnmixColumnOf(i, was);
      }
    }

    method UnmixColumnOf(i: nat, ghost was: Block)
      requires Valid() && i < 4
      requires forall k :: 4 * i <= k < 4 * i + 4 ==> state[base + k] == was[k]
      modifies state
      ensures forall k :: 4 * i <= k < 4 * i + 4 ==> state[base + k] == InvMixAt(was, k)
      ensures forall k :: 0 <= k < state.Length && !(base + 4 * i <= k < base + 4 * i + 4) ==> state[k] == old(state[k])
    {
      hide InvMixAt, InvMixByte;
      InvColumnBytes(was, 4 * i);
      UnmixColumn(base + 4 * i);
    }

    /** The body of the inverse loop over columns, sixteen products of the source's `Multiply`. */
    method UnmixColumn(at: nat)
      requires Valid() && at + 4 <= state.Length
      modifies state
      ensures var a, b, c, d := old(state[at]), old(state[at + 1]), old(state[at + 2]), old(state[at + 3]);
              state[at] == InvMixByte(a, b, c, d) && state[at + 1] == InvMixByte(b, c, d, a)
              && state[at + 2] == InvMixByte(c, d, a, b) && state[at + 3] == InvMixByte(d, a, b, c)
      ensures forall k :: 0 <= k < state.Length && !(at <= k < at + 4) ==> state[k] == old(state[k])
    {
      hide Sum, Multiply, InvMixByte;
      var a := state[at];
      var b := state[at + 1];
      var c := state[at + 2];
      var d := state[at + 3];
      state[at] := Sum(Multiply(a, 0x0e), Multiply(b, 0x0b), Multiply(c, 0x0d), Multiply(d, 0x09));
      SourceUnmixes(a, b, c, d);
      state[at + 1] := Sum(Multiply(a, 0x09), Multiply(b, 0x0e), Multiply(c, 0x0b), Multiply(d, 0x0d));
      SourceUnmixes(b, c, d, a);
      SumRotates(Multiply(a, 0x09), Multiply(b, 0x0e), Multiply(c, 0x0b), Multiply(d, 0x0d));
      state[at + 2] := Sum(Multiply(a, 0x0d), Multiply(b, 0x09), Multiply(c, 0x0e), Multiply(d, 0x0b));
      SourceUnmixes(c, d, a, b);
      SumRotates(Multiply(a, 0x0d), Multiply(b, 0x09), Multiply(c, 0x0e), Multiply(d, 0x0b));
      SumRotates(Multiply(b, 0x09), Multiply(c, 0x0e), Multiply(d, 0x0b), Multiply(a, 0x0d));
      state[at + 3] := Sum(Multiply(a, 0x0b), Multiply(b, 0x0d), Multiply(c, 0x09), Multiply(d, 0x0e));
      SourceUnmixes(d, a, b, c);
      SumRotates(Multiply(d, 0x0e), Multiply(a, 0x0b), Multiply(b, 0x0d), Multiply(c, 0x09));
    }

    method UnsubstituteBytes()
      requires Valid()
      modifies state
      ensures Valid() && Current() == InvSubBytes(old(Current()))
      ensures forall k :: 0 <= k < state.Length && !(base <= k < base + 16) ==> state[k] == old(state[k])
    {
      hide InvSbox;
      for i := 0 to 4
        invariant forall k :: 0 <= k < state.Length ==>
          state[k] == if base <= k < base + 16 && (k - base) % 4 < i then InvSbox(old(state[k])) else old(state[k])
      {
        for j := 0 to 4
          invariant forall k :: 0 <= k < state.Length ==>
            state[k] == if base <= k < base + 16 && ((k - base) % 4 < i || ((k - base) % 4 == i && k - base < 4 * j))
                        then InvSbox(old(state[k])) else old(state[k])
        {
          assert (4 * j + i) % 4 == i;
          state[base + 4 * j + i] := InvSbox(state[base + 4 * j + i]);
        }
      }
    }

    // -------------------------------------------------------------------------------------
    // Whole blocks
    // -------------------------------------------------------------------------------------

    method Encipher()
      requires Valid()
      modifies state
      ensures Valid() && Current() == Cipher(Keys(), old(Current()))
      ensures forall k :: 0 <= k < state.Length && !(base <= k < base + 16) ==> state[k] == old(state[k])
    {
      hide AddBlocks, SubBytes, ShiftRows, MixColumns, KeysIn;
      ghost var block := Current();
      AddRoundKey(0);
      var round := 1;
      while round < nk + 6
        invariant 1 <= round <= nk + 6
        invariant Valid() && Current() == Rounds(Keys(), block, round - 1)
        invariant forall k :: 0 <= k < state.Length && !(base <= k < base + 16) ==> state[k] == old(state[k])
      {
        SubstituteBytes();
        ShiftTheRows();
        MixTheColumns();
        AddRoundKey(round);
        round := round + 1;
      }
      SubstituteBytes();
      ShiftTheRows();
      AddRoundKey(nk + 6);
    }

    method Decipher()
      requires Valid()
      modifies state
      ensures Valid() && Current() == InvCipher(Keys(), old(Current()))
      ensures forall k :: 0 <= k < state.Length && !(base <= k < base + 16) ==> state[k] == old(state[k])
    {
      hide AddBlocks, InvSubBytes, InvShiftRows, InvMixColumns, KeysIn;
      ghost var block := Current();
      AddRoundKey(nk + 6);
      var round := nk + 5;
      while round > 0
        invariant 0 <= round <= nk + 5
        invariant Valid() && Current() == InvRounds(Keys(), block, round + 1)
        invariant forall k :: 0 <= k < state.Length && !(base <= k < base + 16) ==> state[k] == old(state[k])
      {
        UnshiftTheRows();
        UnsubstituteBytes();
        AddRoundKey(round);
        UnmixTheColumns();
        round := round - 1;
      }
      UnshiftTheRows();
      UnsubstituteBytes();
      AddRoundKey(0);
    }

    /** One block (the source's `crypt`): copy the input, expand the key, encipher in place. */
    method Crypt(input: seq<byte>, output: array<byte>, key: seq<byte>)
      requires Valid() && |key| == 4 * nk && output != roundKey && 16 <= |input| <= output.Length
      modifies this`state, this`base, roundKey, output
      ensures Valid()
      ensures output[..|input|] == Cipher(KeySchedule(key, nk), input[..16]) + input[16..]
    {
      hide Cipher, InvCipher, KeySchedule, KeysIn;
      Prepare(input, output, key);
      assert Current() == output[..|input|][..16];
      ghost var rest := output[16..|input|];
      assert rest == output[..|input|][16..];
      Encipher();
      assert output[16..|input|] == rest;
      assert output[..|input|] == Current() + output[16..|input|];
    }

    method Decrypt(input: seq<byte>, output: array<byte>, key: seq<byte>)
      requires Valid() && |key| == 4 * nk && output != roundKey && 16 <= |input| <= output.Length
      modifies this`state, this`base, roundKey, output
      ensures Valid()
      ensures output[..|input|] == InvCipher(KeySchedule(key, nk), input[..16]) + input[16..]
    {
      hide Cipher, InvCipher, KeySchedule, KeysIn;
      Prepare(input, output, key);
      assert Current() == output[..|input|][..16];
      ghost var rest := output[16..|input|];
      assert rest == output[..|input|][16..];
      Decipher();
      assert output[16..|input|] == rest;
      assert output[..|input|] == Current() + output[16..|input|];
    }

    method Prepare(input: seq<byte>, output: array<byte>, key: seq<byte>)
      requires Valid() && |key| == 4 * nk && output != roundKey && 16 <= |input| <= output.Length
      modifies this`state, this`base, roundKey, output
      ensures Valid() && state == output && base == 0 && Keys() == KeySchedule(key, nk)
      ensures output[..|input|] == input
    {
      hide KeySchedule;
      for i := 0 to |input|
        invariant output[..i] == input[..i]
      {
        output[i] := input[i];
      }
      state, base := output, 0;
      KeyExpansion(key);
    }

    /** One block of the chained mode: the body of the source's loop. */
    method ChainBlock(encrypt: bool, block: Block, output: array<byte>, at: nat, initial: Block)
      requires Valid() && output != roundKey && at + 16 <= output.Length
      modifies this`state, this`base, output
      ensures Valid()
      ensures Keys() == old(Keys()) && output[at..at + 16] == OneChained(encrypt, Keys(), initial, block)
      ensures forall k :: 0 <= k < output.Length && !(at <= k < at + 16) ==> output[k] == old(output[k])
    {
      hide AddBlocks, Cipher, InvCipher, KeysIn;
      if encrypt {
        CombineInto(output, at, block, initial);
        state, base := output, at;
        Encipher();
      } else {
        CopyInto(output, at, block);
        state, base := output, at;
        Decipher();
        CombineInto(output, at, output[at..at + 16], initial);
      }
    }

    static ghost function OneChained(encrypt: bool, keys: seq<Block>, initial: Block, block: Block): Block
      requires |keys| >= 2
    {
      if encrypt then Cipher(keys, AddBlocks(block, initial)) else AddBlocks(InvCipher(keys, block), initial)
    }

    static ghost function Chained(encrypt: bool, keys: seq<Block>, initial: Block, input: seq<byte>): seq<byte>
      requires |keys| >= 2 && |input| % 16 == 0
    {
      if encrypt then EncryptBlocks(keys, initial, input) else DecryptBlocks(keys, initial, input)
    }

    /**
     The chained mode. Every block is combined with the parameter `iv`; the field of that name, set
     after each block, is never read again. The loop takes whole blocks, also of a length that ends
     inside of one; then as many bytes as the length is over are taken once more from behind that
     block, and ciphered there together with what the output holds, not combined with anything.
     */
    method Chain(encrypt: bool, input: seq<byte>, length: nat, output: array<byte>, key: seq<byte>, initial: Block)
      requires Valid() && |key| == 4 * nk && output != roundKey
      requires InputNeeded(length) <= |input| && OutputNeeded(length) <= output.Length
      modifies this`state, this`base, this`iv, roundKey, output
      ensures Valid()
      ensures output[..WholeBlocks(length)] == Chained(encrypt, KeySchedule(key, nk), initial, input[..WholeBlocks(length)])
      ensures LeftoverDone(encrypt, KeySchedule(key, nk), input, length, old(output[..]), output[..])
      ensures output[OutputNeeded(length)..] == old(output[OutputNeeded(length)..])
    {
      hide KeySchedule, Chained, Ciphered, KeysIn, WholeBlocks;
      KeyExpansion(key);
      iv := initial;
      BlocksOf(length);
      ghost var before := output[..];
      ChainWhole(encrypt, input, length, output, initial);
      var at := WholeBlocks(length);
      assert output[at..] == before[at..];
      if length % 16 > 0 {
        ghost var m := length % 16;
        assert output[at + m..at + 16] == before[at..][m..16] == before[at + m..at + 16];
        assert output[at + 16..] == before[at..][16..] == before[at + 16..];
        Leftover(encrypt, input[at..at + length % 16], output, at);
      }
    }

    /** What stands behind the whole blocks, once the bytes that the length is over are ciphered there. */
    ghost predicate LeftoverDone(encrypt: bool, keys: seq<Block>, input: seq<byte>, length: nat, before: seq<byte>, after: seq<byte>)
      requires |keys| >= 2 && InputNeeded(length) <= |input| && OutputNeeded(length) <= |before| == |after|
    {
      var at, m := WholeBlocks(length), length % 16;
      m > 0 ==> after[at..at + 16] == Ciphered(encrypt, keys, input[at..at + m] + before[at + m..at + 16])
    }

    /** The source's loop. */
    method ChainWhole(encrypt: bool, input: seq<byte>, length: nat, output: array<byte>, initial: Block)
      requires Valid() && output != roundKey && WholeBlocks(length) <= |input| && WholeBlocks(length) <= output.Length
      modifies this`state, this`base, this`iv, output
      ensures Valid() && WholeBlocks(length) % 16 == 0
      ensures output[..WholeBlocks(length)] == Chained(encrypt, Keys(), initial, input[..WholeBlocks(length)])
      ensures output[WholeBlocks(length)..] == old(output[WholeBlocks(length)..])
    {
      hide KeysIn, OneChained, Chained, WholeBlocks;
      ghost var keys := Keys();
      BlocksOf(length);
      ghost var whole := input[..WholeBlocks(length)];
      var i := 0;
      while i < length
        invariant i <= WholeBlocks(length) && i % 16 == 0 && (i >= length ==> i == WholeBlocks(length))
        invariant Valid() && Keys() == keys
        invariant Chained(encrypt, keys, initial, whole) == output[..i] + Chained(encrypt, keys, initial, whole[i..])
        invariant forall k :: WholeBlocks(length) <= k < output.Length ==> output[k] == old(output[k])
      {
        NextBlock(length, i);
        ghost var done := output[..i];
        assert input[i..i + 16] == whole[i..i + 16];
        ChainBlock(encrypt, input[i..i + 16], output, i, initial);
        ChainUnfolds(encrypt, keys, initial, whole, i);
        assert output[..i + 16] == done + output[i..i + 16];
        iv := output[i..i + 16];
        i := i + 16;
      }
      assert whole[i..] == [];
      ChainEnds(encrypt, keys, initial);
    }

    /** The bytes that the length is over: into the block at `at`, which is ciphered as it is then. */
    method Leftover(encrypt: bool, bytes: seq<byte>, output: array<byte>, at: nat)
      requires Valid() && output != roundKey && 0 < |bytes| < 16 && at + 16 <= output.Length
      modifies this`state, this`base, output
      ensures Valid()
      ensures output[at..at + 16] == Ciphered(encrypt, Keys(), bytes + old(output[at + |bytes|..at + 16]))
      ensures output[..at] == old(output[..at]) && output[at + 16..] == old(output[at + 16..])
    {
      hide Cipher, InvCipher, KeysIn;
      CopyPart(output, at, bytes);
      state, base := output, at;
      assert Current() == bytes + old(output[at + |bytes|..at + 16]);
      ghost var before, after := output[..at], output[at + 16..];
      assert before == old(output[..at]) && after == old(output[at + 16..]);
      if encrypt {
        Encipher();
      } else {
        Decipher();
      }
      assert output[..at] == before;
      assert output[at + 16..] == after;
    }

    static method CopyPart(output: array<byte>, at: nat, bytes: seq<byte>)
      requires at + |bytes| <= output.Length
      modifies output
      ensures output[at..at + |bytes|] == bytes
      ensures forall m :: 0 <= m < output.Length && !(at <= m < at + |bytes|) ==> output[m] == old(output[m])
    {
      for k := 0 to |bytes|
        invariant output[at..at + k] == bytes[..k]
        invariant forall m :: 0 <= m < output.Length && !(at <= m < at + k) ==> output[m] == old(output[m])
      {
        output[at + k] := bytes[k];
      }
    }

    ghost function Ciphered(encrypt: bool, keys: seq<Block>, block: seq<byte>): seq<byte>
      requires |keys| >= 2 && |block| == 16
    {
      if encrypt then Cipher(keys, block) else InvCipher(keys, block)
    }

    /** The length, up to whole blocks. */
    static function WholeBlocks(length: nat): nat {
      (length + 15) / 16 * 16
    }

    static function InputNeeded(length: nat): nat {
      WholeBlocks(length) + length % 16
    }

    static function OutputNeeded(length: nat): nat {
      WholeBlocks(length) + if length % 16 > 0 then 16 else 0
    }

    static lemma BlocksOf(length: nat)
      ensures WholeBlocks(length) % 16 == 0 && length <= WholeBlocks(length) < length + 16
    {
    }

    static lemma NextBlock(length: nat, i: nat)
      requires i % 16 == 0 && i < length
      ensures i + 16 <= WholeBlocks(length) && (i + 16 >= length ==> i + 16 == WholeBlocks(length))
    {
    }

    lemma ChainEnds(encrypt: bool, keys: seq<Block>, initial: Block)
      requires |keys| >= 2
      ensures Chained(encrypt, keys, initial, []) == []
    {
    }

    lemma ChainUnfolds(encrypt: bool, keys: seq<Block>, initial: Block, input: seq<byte>, i: nat)
      requires |keys| >= 2 && |input| % 16 == 0 && i % 16 == 0 && i < |input|
      ensures i + 16 <= |input|
      ensures Chained(encrypt, keys, initial, input[i..])
           == OneChained(encrypt, keys, initial, input[i..i + 16])
              + Chained(encrypt, keys, initial, input[i + 16..])
    {
      hide AddBlocks, Cipher, InvCipher;
      assert input[i..][..16] == input[i..i + 16] && input[i..][16..] == input[i + 16..];
    }

    static method CombineInto(output: array<byte>, at: nat, s: Block, t: Block)
      requires at + 16 <= output.Length
      modifies output
      ensures output[at..at + 16] == AddBlocks(s, t)
      ensures forall k :: 0 <= k < output.Length && !(at <= k < at + 16) ==> output[k] == old(output[k])
    {
      hide Add;
      for k := 0 to 16
        invariant forall m :: 0 <= m < k ==> output[at + m] == Add(s[m], t[m])
        invariant forall m :: 0 <= m < output.Length && !(at <= m < at + 16) ==> output[m] == old(output[m])
      {
        output[at + k] := Add(s[k], t[k]);
      }
    }

    static method CopyInto(output: array<byte>, at: nat, s: Block)
      requires at + 16 <= output.Length
      modifies output
      ensures output[at..at + 16] == s
      ensures forall k :: 0 <= k < output.Length && !(at <= k < at + 16) ==> output[k] == old(output[k])
    {
      for k := 0 to 16
        invariant forall m :: 0 <= m < k ==> output[at + m] == s[m]
        invariant forall m :: 0 <= m < output.Length && !(at <= m < at + 16) ==> output[m] == old(output[m])
      {
        output[at + k] := s[k];
      }
    }
  }
}
