/**
 AES (src/crypto/aes.cpp, src/crypto/crypto.h): the cipher and its inverse as FIPS 197 states
 them, the theorem that each undoes the other, and the key schedule.
 */
module AesStandard {
  import opened Bytes
  import opened AesField

  // ---------------------------------------------------------------------------------------
  // Blocks: byte 4 * column + row of the state (section 3.4 of FIPS 197)
  // ---------------------------------------------------------------------------------------

  type Block = s: seq<byte> | |s| == 16 witness seq(16, _ => 0)

  function SubBytes(s: Block): Block {
    seq(16, k requires 0 <= k < 16 => Sbox(s[k]))
  }

  function InvSubBytes(s: Block): Block {
    seq(16, k requires 0 <= k < 16 => InvSbox(s[k]))
  }

  /** Row r is rotated left by r columns (section 5.1.2). */
  function ShiftRows(s: Block): Block {
    seq(16, k requires 0 <= k < 16 => s[Right(k, k % 4)])
  }

  /** Row r is rotated right by r columns (section 5.3.1). */
  function InvShiftRows(s: Block): Block {
    seq(16, k requires 0 <= k < 16 => s[Right(k, 4 - k % 4)])
  }

  /** The place `r` rows below place `k` in its column, cyclically. */
  function Down(k: nat, r: nat): (j: nat)
    requires k < 16 && r < 4
    ensures j < 16
  {
    if k % 4 + r < 4 then k + r else k + r - 4
  }

  /** The place `c` columns to the right of place `k` in its row, cyclically. */
  function Right(k: nat, c: nat): (j: nat)
    requires k < 16 && c <= 4
    ensures j < 16
  {
    if k + 4 * c < 16 then k + 4 * c else k + 4 * c - 16
  }

  function Below(s: Block, k: nat, r: nat): byte
    requires k < 16 && r < 4
  {
    s[Down(k, r)]
  }

  function MixAt(s: Block, k: nat): byte
    requires k < 16
  {
    MixByte(s[k], Below(s, k, 1), Below(s, k, 2), Below(s, k, 3))
  }

  function InvMixAt(s: Block, k: nat): byte
    requires k < 16
  {
    InvMixByte(s[k], Below(s, k, 1), Below(s, k, 2), Below(s, k, 3))
  }

  function MixColumns(s: Block): Block {
    seq(16, k requires 0 <= k < 16 => MixAt(s, k))
  }

  function InvMixColumns(s: Block): Block {
    seq(16, k requires 0 <= k < 16 => InvMixAt(s, k))
  }

  function AddBlocks(s: Block, t: Block): Block {
    seq(16, k requires 0 <= k < 16 => Add(s[k], t[k]))
  }

  // ---------------------------------------------------------------------------------------
  // The cipher and its inverse (sections 5.1 and 5.3), for any list of round keys
  // ---------------------------------------------------------------------------------------

  /** The state after round `r`, the initial key addition being round 0. */
  function Rounds(keys: seq<Block>, block: Block, r: nat): Block
    requires r < |keys|
  {
    if r == 0 then AddBlocks(block, keys[0])
    else AddBlocks(MixColumns(ShiftRows(SubBytes(Rounds(keys, block, r - 1)))), keys[r])
  }

  function Cipher(keys: seq<Block>, block: Block): Block
    requires |keys| >= 2
  {
    AddBlocks(ShiftRows(SubBytes(Rounds(keys, block, |keys| - 2))), keys[|keys| - 1])
  }

  /** The state when `r` rounds of the inverse cipher remain, entering the loop body or its end. */
  function InvRounds(keys: seq<Block>, block: Block, r: nat): Block
    requires r < |keys|
    decreases |keys| - r
  {
    if r == |keys| - 1 then AddBlocks(block, keys[r])
    else InvMixColumns(AddBlocks(InvSubBytes(InvShiftRows(InvRounds(keys, block, r + 1))), keys[r]))
  }

  function InvCipher(keys: seq<Block>, block: Block): Block
    requires |keys| >= 2
  {
    AddBlocks(InvSubBytes(InvShiftRows(InvRounds(keys, block, 1))), keys[0])
  }

  // ---------------------------------------------------------------------------------------
  // Each step has an inverse
  // ---------------------------------------------------------------------------------------

  lemma SubInverse(s: Block)
    ensures InvSubBytes(SubBytes(s)) == s && SubBytes(InvSubBytes(s)) == s
  {
    hide Sbox, InvSbox;
    forall k | 0 <= k < 16
      ensures InvSubBytes(SubBytes(s))[k] == s[k] && SubBytes(InvSubBytes(s))[k] == s[k]
    {
      SboxInverse(s[k]);
      InvSboxInverse(s[k]);
    }
  }

  lemma RightTwice(k: nat)
    requires k < 16
    ensures Right(Right(k, k % 4), 4 - k % 4) == k && Right(k, k % 4) % 4 == k % 4
    ensures Right(Right(k, 4 - k % 4), k % 4) == k && Right(k, 4 - k % 4) % 4 == k % 4
  {
  }

  lemma ShiftInverse(s: Block)
    ensures InvShiftRows(ShiftRows(s)) == s && ShiftRows(InvShiftRows(s)) == s
  {
    hide Right;
    forall k | 0 <= k < 16
      ensures InvShiftRows(ShiftRows(s))[k] == s[k] && ShiftRows(InvShiftRows(s))[k] == s[k]
    {
      RightTwice(k);
    }
  }

  lemma DownTwice(k: nat, r: nat, q: nat)
    requires k < 16 && r < 4 && q < 4
    ensures Down(Down(k, r), q) == Down(k, if r + q < 4 then r + q else r + q - 4) && Down(k, 0) == k
  {
    var c, x := k / 4, k % 4;
    var y := if x + r < 4 then x + r else x + r - 4;
    assert Down(k, r) == 4 * c + y;
    assert (4 * c + y) % 4 == y;
  }

  /** Seen from another row of the same column, the column is rotated. */
  lemma ColumnRotates(s: Block, k: nat)
    requires k < 16
    ensures var j := Down(k, 1);
            s[j] == Below(s, k, 1) && Below(s, j, 1) == Below(s, k, 2) && Below(s, j, 2) == Below(s, k, 3) && Below(s, j, 3) == s[k]
    ensures var j := Down(k, 2);
            s[j] == Below(s, k, 2) && Below(s, j, 1) == Below(s, k, 3) && Below(s, j, 2) == s[k] && Below(s, j, 3) == Below(s, k, 1)
    ensures var j := Down(k, 3);
            s[j] == Below(s, k, 3) && Below(s, j, 1) == s[k] && Below(s, j, 2) == Below(s, k, 1) && Below(s, j, 3) == Below(s, k, 2)
  {
    hide Down;
    DownTwice(k, 1, 1);
    DownTwice(k, 1, 2);
    DownTwice(k, 1, 3);
    DownTwice(k, 2, 1);
    DownTwice(k, 2, 2);
    DownTwice(k, 2, 3);
    DownTwice(k, 3, 1);
    DownTwice(k, 3, 2);
    DownTwice(k, 3, 3);
  }

  lemma MixInverseAt(s: Block, k: nat)
    requires k < 16
    ensures InvMixAt(MixColumns(s), k) == s[k]
  {
    hide MixByte, InvMixByte, Down;
    ColumnRotates(s, k);
    UnmixMix(s[k], Below(s, k, 1), Below(s, k, 2), Below(s, k, 3));
  }

  lemma InvMixInverseAt(s: Block, k: nat)
    requires k < 16
    ensures MixAt(InvMixColumns(s), k) == s[k]
  {
    hide MixByte, InvMixByte, Down;
    ColumnRotates(s, k);
    MixUnmix(s[k], Below(s, k, 1), Below(s, k, 2), Below(s, k, 3));
  }

  lemma MixInverse(s: Block)
    ensures InvMixColumns(MixColumns(s)) == s && MixColumns(InvMixColumns(s)) == s
  {
    hide MixAt, InvMixAt;
    forall k | 0 <= k < 16
      ensures InvMixAt(MixColumns(s), k) == s[k] && MixAt(InvMixColumns(s), k) == s[k]
    {
      MixInverseAt(s, k);
      InvMixInverseAt(s, k);
    }
    assert forall k | 0 <= k < 16 :: InvMixColumns(MixColumns(s))[k] == s[k];
    assert forall k | 0 <= k < 16 :: MixColumns(InvMixColumns(s))[k] == s[k];
  }

  lemma AddTwice(x: byte, y: byte)
    ensures Add(Add(x, y), y) == x
  {
  }

  lemma AddInverse(s: Block, t: Block)
    ensures AddBlocks(AddBlocks(s, t), t) == s
  {
    hide Add;
    forall k | 0 <= k < 16
      ensures AddBlocks(AddBlocks(s, t), t)[k] == s[k]
    {
      AddTwice(s[k], t[k]);
    }
  }

  /** Going backwards through a ciphertext, the states of the cipher reappear. */
  lemma {:induction false} RoundsReappear(keys: seq<Block>, block: Block, r: nat)
    requires 1 <= r < |keys|
    ensures InvRounds(keys, Cipher(keys, block), r) == ShiftRows(SubBytes(Rounds(keys, block, r - 1)))
    decreases |keys| - r
  {
    hide SubBytes, InvSubBytes, ShiftRows, InvShiftRows, MixColumns, InvMixColumns, AddBlocks;
    var before := ShiftRows(SubBytes(Rounds(keys, block, r - 1)));
    if r == |keys| - 1 {
      AddInverse(before, keys[r]);
    } else {
      RoundsReappear(keys, block, r + 1);
      var state := Rounds(keys, block, r);
      ShiftInverse(SubBytes(state));
      SubInverse(state);
      AddInverse(MixColumns(before), keys[r]);
      MixInverse(before);
    }
  }

  /** Deciphering undoes enciphering, whatever the round keys. */
  lemma InvCipherCipher(keys: seq<Block>, block: Block)
    requires |keys| >= 2
    ensures InvCipher(keys, Cipher(keys, block)) == block
  {
    hide SubBytes, InvSubBytes, ShiftRows, InvShiftRows, MixColumns, InvMixColumns, AddBlocks, InvRounds, Cipher;
    RoundsReappear(keys, block, 1);
    var state := AddBlocks(block, keys[0]);
    ShiftInverse(SubBytes(state));
    SubInverse(state);
    AddInverse(block, keys[0]);
  }

  /** Going forwards from a deciphered block, the states of the inverse cipher reappear. */
  lemma {:induction false} InvRoundsReappear(keys: seq<Block>, block: Block, r: nat)
    requires r < |keys| - 1
    ensures ShiftRows(SubBytes(Rounds(keys, InvCipher(keys, block), r))) == InvRounds(keys, block, r + 1)
    decreases r
  {
    hide SubBytes, InvSubBytes, ShiftRows, InvShiftRows, MixColumns, InvMixColumns, AddBlocks;
    var after := InvRounds(keys, block, r + 1);
    var state := InvSubBytes(InvShiftRows(after));
    SubInverse(InvShiftRows(after));
    ShiftInverse(after);
    AddInverse(state, keys[r]);
    if r > 0 {
      InvRoundsReappear(keys, block, r - 1);
      MixInverse(AddBlocks(state, keys[r]));
    }
  }

  /** Enciphering undoes deciphering, whatever the round keys. */
  lemma CipherInvCipher(keys: seq<Block>, block: Block)
    requires |keys| >= 2
    ensures Cipher(keys, InvCipher(keys, block)) == block
  {
    hide SubBytes, InvSubBytes, ShiftRows, InvShiftRows, MixColumns, InvMixColumns, AddBlocks, InvRounds, InvCipher;
    InvRoundsReappear(keys, block, |keys| - 2);
    assert InvRounds(keys, block, |keys| - 1) == AddBlocks(block, keys[|keys| - 1]) by {
      LastInvRound(keys, block);
    }
    AddInverse(block, keys[|keys| - 1]);
  }

  lemma LastInvRound(keys: seq<Block>, block: Block)
    requires |keys| >= 2
    ensures InvRounds(keys, block, |keys| - 1) == AddBlocks(block, keys[|keys| - 1])
  {
  }

  /** The four bytes of the column starting at place `k`, mixed. */
  lemma ColumnBytes(s: Block, k: nat)
    requires k < 16 && k % 4 == 0
    ensures MixAt(s, k) == MixByte(s[k], s[k + 1], s[k + 2], s[k + 3])
    ensures MixAt(s, k + 1) == MixByte(s[k + 1], s[k + 2], s[k + 3], s[k])
    ensures MixAt(s, k + 2) == MixByte(s[k + 2], s[k + 3], s[k], s[k + 1])
    ensures MixAt(s, k + 3) == MixByte(s[k + 3], s[k], s[k + 1], s[k + 2])
  {
    hide MixByte;
  }

  lemma InvColumnBytes(s: Block, k: nat)
    requires k < 16 && k % 4 == 0
    ensures InvMixAt(s, k) == InvMixByte(s[k], s[k + 1], s[k + 2], s[k + 3])
    ensures InvMixAt(s, k + 1) == InvMixByte(s[k + 1], s[k + 2], s[k + 3], s[k])
    ensures InvMixAt(s, k + 2) == InvMixByte(s[k + 2], s[k + 3], s[k], s[k + 1])
    ensures InvMixAt(s, k + 3) == InvMixByte(s[k + 3], s[k], s[k + 1], s[k + 2])
  {
    hide InvMixByte;
  }

  lemma ShiftRowsPlaces(s: Block)
    ensures ShiftRows(s) == [s[0], s[5], s[10], s[15], s[4], s[9], s[14], s[3], s[8], s[13], s[2], s[7], s[12], s[1], s[6], s[11]]
  {
  }

  lemma InvShiftRowsPlaces(s: Block)
    ensures InvShiftRows(s) == [s[0], s[13], s[10], s[7], s[4], s[1], s[14], s[11], s[8], s[5], s[2], s[15], s[12], s[9], s[6], s[3]]
  {
  }

  function Row1Left(s: Block): Block {
    s[1 := s[5]][5 := s[9]][9 := s[13]][13 := s[1]]
  }

  function Row2Swapped(s: Block): Block {
    s[2 := s[10]][6 := s[14]][10 := s[2]][14 := s[6]]
  }

  function Row3Left(s: Block): Block {
    s[3 := s[15]][7 := s[3]][11 := s[7]][15 := s[11]]
  }

  function Row1Right(s: Block): Block {
    s[1 := s[13]][5 := s[1]][9 := s[5]][13 := s[9]]
  }

  function Row3Right(s: Block): Block {
    s[3 := s[7]][7 := s[11]][11 := s[15]][15 := s[3]]
  }

  lemma RowsTurnedLeft(s: Block)
    ensures Row3Left(Row2Swapped(Row1Left(s))) == ShiftRows(s)
  {
    ShiftRowsPlaces(s);
  }

  lemma RowsTurnedRight(s: Block)
    ensures Row3Right(Row2Swapped(Row1Right(s))) == InvShiftRows(s)
  {
    InvShiftRowsPlaces(s);
  }

  // ---------------------------------------------------------------------------------------
  // Chaining
  // ---------------------------------------------------------------------------------------

  /** What the source's chained mode computes: `iv` is added to every block. */
  function EncryptBlocks(keys: seq<Block>, iv: Block, input: seq<byte>): (output: seq<byte>)
    requires |keys| >= 2 && |input| % 16 == 0
    ensures |output| == |input|
    decreases |input|
  {
    if input == [] then [] else Cipher(keys, AddBlocks(input[..16], iv)) + EncryptBlocks(keys, iv, input[16..])
  }

  function DecryptBlocks(keys: seq<Block>, iv: Block, input: seq<byte>): (output: seq<byte>)
    requires |keys| >= 2 && |input| % 16 == 0
    ensures |output| == |input|
    decreases |input|
  {
    if input == [] then [] else AddBlocks(InvCipher(keys, input[..16]), iv) + DecryptBlocks(keys, iv, input[16..])
  }

  /** Cipher block chaining as section 6.2 of NIST SP 800-38A defines it. */
  function CipherBlockChaining(keys: seq<Block>, iv: Block, input: seq<byte>): (output: seq<byte>)
    requires |keys| >= 2 && |input| % 16 == 0
    ensures |output| == |input|
    decreases |input|
  {
    if input == [] then []
    else
      var c: Block := Cipher(keys, AddBlocks(input[..16], iv));
      c + CipherBlockChaining(keys, c, input[16..])
  }

  /** Decrypting a buffer undoes encrypting it, for any number of whole blocks. */
  lemma {:induction false} DecryptEncrypt(keys: seq<Block>, iv: Block, input: seq<byte>)
    requires |keys| >= 2 && |input| % 16 == 0
    ensures DecryptBlocks(keys, iv, EncryptBlocks(keys, iv, input)) == input
    decreases |input|
  {
    hide Cipher, InvCipher, AddBlocks;
    if input != [] {
      var c: Block := Cipher(keys, AddBlocks(input[..16], iv));
      var rest := EncryptBlocks(keys, iv, input[16..]);
      assert (c + rest)[..16] == c && (c + rest)[16..] == rest;
      InvCipherCipher(keys, AddBlocks(input[..16], iv));
      AddInverse(input[..16], iv);
      DecryptEncrypt(keys, iv, input[16..]);
    }
  }

  /** The one plaintext block that enciphers to `iv` itself. */
  function FixedBlock(keys: seq<Block>, iv: Block): Block
    requires |keys| >= 2
  {
    AddBlocks(InvCipher(keys, iv), iv)
  }

  lemma OnlyFixedBlock(keys: seq<Block>, iv: Block, block: Block)
    requires |keys| >= 2
    ensures Cipher(keys, AddBlocks(block, iv)) == iv <==> block == FixedBlock(keys, iv)
  {
    hide Cipher, InvCipher, AddBlocks;
    InvCipherCipher(keys, AddBlocks(block, iv));
    CipherInvCipher(keys, iv);
    AddInverse(block, iv);
    AddInverse(InvCipher(keys, iv), iv);
  }

  lemma DifferentChains(keys: seq<Block>, block: Block, iv: Block, c: Block)
    requires |keys| >= 2 && iv != c
    ensures Cipher(keys, AddBlocks(block, iv)) != Cipher(keys, AddBlocks(block, c))
  {
    hide Cipher, InvCipher, AddBlocks;
    InvCipherCipher(keys, AddBlocks(block, iv));
    InvCipherCipher(keys, AddBlocks(block, c));
    AddCommutesBlocks(block, iv);
    AddCommutesBlocks(block, c);
    AddInverse(iv, block);
    AddInverse(c, block);
  }

  lemma AddCommutesBlocks(s: Block, t: Block)
    ensures AddBlocks(s, t) == AddBlocks(t, s)
  {
    hide Add;
    forall k | 0 <= k < 16
      ensures AddBlocks(s, t)[k] == AddBlocks(t, s)[k]
    {
      AddCommutes(s[k], t[k]);
    }
  }

  /** Every block but the last is the fixed block. */
  predicate AllButLastFixed(keys: seq<Block>, iv: Block, input: seq<byte>)
    requires |keys| >= 2 && |input| % 16 == 0
    decreases |input|
  {
    |input| > 16 ==> input[..16] == FixedBlock(keys, iv) && AllButLastFixed(keys, iv, input[16..])
  }

  /**
   The source's mode is cipher block chaining exactly when no block feeds a changed value into
   the next one: for one block always, for more only if every block but the last is the fixed block.
   */
  lemma {:induction false} ChainingAgreesExactly(keys: seq<Block>, iv: Block, input: seq<byte>)
    requires |keys| >= 2 && |input| % 16 == 0
    ensures EncryptBlocks(keys, iv, input) == CipherBlockChaining(keys, iv, input) <==> AllButLastFixed(keys, iv, input)
    decreases |input|
  {
    hide Cipher, AddBlocks, FixedBlock;
    if |input| > 16 {
      var c: Block := Cipher(keys, AddBlocks(input[..16], iv));
      var rest := input[16..];
      OnlyFixedBlock(keys, iv, input[..16]);
      var ours, theirs := EncryptBlocks(keys, iv, rest), CipherBlockChaining(keys, c, rest);
      assert (c + ours)[16..] == ours && (c + theirs)[16..] == theirs;
      if c == iv {
        ChainingAgreesExactly(keys, iv, rest);
      } else {
        DifferentChains(keys, rest[..16], iv, c);
        assert ours[..16] == Cipher(keys, AddBlocks(rest[..16], iv));
        assert theirs[..16] == Cipher(keys, AddBlocks(rest[..16], c));
      }
    } else if input != [] {
      assert input[16..] == [];
    }
  }

  /** A two-block message on which the source's mode is not cipher block chaining, for any key. */
  lemma ChainingDiffers(keys: seq<Block>, iv: Block)
    requires |keys| >= 2
    ensures var fixed: Block := FixedBlock(keys, iv);
            var message := fixed[0 := !fixed[0]] + fixed;
            |message| == 32 && EncryptBlocks(keys, iv, message) != CipherBlockChaining(keys, iv, message)
  {
    hide FixedBlock;
    var fixed: Block := FixedBlock(keys, iv);
    var message := fixed[0 := !fixed[0]] + fixed;
    assert message[..16][0] == !fixed[0];
    assert !fixed[0] != fixed[0];
    ChainingAgreesExactly(keys, iv, message);
  }
}
