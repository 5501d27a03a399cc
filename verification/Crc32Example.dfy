/**
 CRC-32 of "123456789", the check value by which the polynomial and the order of the bits are known
 (src/tbx/hash/crc32.cpp).
 */
module Crc32Example {
  import opened Bytes
  import opened Crc32

  /** The register after the bytes, from all ones on. */
  ghost predicate RegisterIs(data: seq<byte>, register: bv32) {
    Divide(0xffff_ffff, MessageBits(data)) == register
  }

  lemma NextByte(data: seq<byte>, register: bv32, b: byte, next: bv32) returns (more: seq<byte>)
    requires RegisterIs(data, register) && Shift(Xor(register, b as bv32), 8) == next
    ensures more == data + [b] && RegisterIs(more, next)
  {
    hide Divide, Shift, Xor;
    more := data + [b];
    MessageBitsConcat(data, [b]);
    DivideConcat(0xffff_ffff, MessageBits(data), MessageBits([b]));
    OneByte(b);
    ByteFits(b);
    AbsorbWord(register, b as bv32, 8);
  }

  lemma OneByte(b: byte)
    ensures MessageBits([b]) == ByteBits(b)
  {
    hide ByteBits;
    var one := [b];
    assert one[1..] == [] && ByteBits(b) + MessageBits([]) == ByteBits(b);
  }

  lemma Shifted1()
    ensures Shift(Xor(0xffff_ffff, 0x31), 8) == 0x7c23_1048
  {}

  lemma Shifted2()
    ensures Shift(Xor(0x7c23_1048, 0x32), 8) == 0xb0ac_bb32
  {}

  lemma Shifted3()
    ensures Shift(Xor(0xb0ac_bb32, 0x33), 8) == 0x77b7_9c2d
  {}

  lemma Shifted4()
    ensures Shift(Xor(0x77b7_9c2d, 0x34), 8) == 0x641c_1f5c
  {}

  lemma Shifted5()
    ensures Shift(Xor(0x641c_1f5c, 0x35), 8) == 0x340a_c5e3
  {}

  lemma Shifted6()
    ensures Shift(Xor(0x340a_c5e3, 0x36), 8) == 0xf68d_2c9e
  {}

  lemma Shifted7()
    ensures Shift(Xor(0xf68d_2c9e, 0x37), 8) == 0xaffc_9660
  {}

  lemma Shifted8()
    ensures Shift(Xor(0xaffc_9660, 0x38), 8) == 0x651f_2550
  {}

  lemma Shifted9()
    ensures Shift(Xor(0x651f_2550, 0x39), 8) == 0x340b_c6d9
  {}

  /** The CRC-32 of the digits 1 to 9 is cbf43926. */
  lemma CheckValue()
    ensures Checksum(0, [0x31, 0x32, 0x33, 0x34, 0x35, 0x36, 0x37, 0x38, 0x39]) == 0xcbf4_3926
  {
    hide RegisterIs, Shift, Xor;
    var data: seq<byte> := [];
    NoBytes();
    Shifted1();
    data := NextByte(data, 0xffff_ffff, 0x31, 0x7c23_1048);
    Shifted2();
    data := NextByte(data, 0x7c23_1048, 0x32, 0xb0ac_bb32);
    Shifted3();
    data := NextByte(data, 0xb0ac_bb32, 0x33, 0x77b7_9c2d);
    Shifted4();
    data := NextByte(data, 0x77b7_9c2d, 0x34, 0x641c_1f5c);
    Shifted5();
    data := NextByte(data, 0x641c_1f5c, 0x35, 0x340a_c5e3);
    Shifted6();
    data := NextByte(data, 0x340a_c5e3, 0x36, 0xf68d_2c9e);
    Shifted7();
    data := NextByte(data, 0xf68d_2c9e, 0x37, 0xaffc_9660);
    Shifted8();
    data := NextByte(data, 0xaffc_9660, 0x38, 0x651f_2550);
    Shifted9();
    data := NextByte(data, 0x651f_2550, 0x39, 0x340b_c6d9);
    assert data == [0x31, 0x32, 0x33, 0x34, 0x35, 0x36, 0x37, 0x38, 0x39];
    Complemented(data, 0x340b_c6d9);
  }

  lemma NoBytes()
    ensures RegisterIs([], 0xffff_ffff)
  {
  }

  lemma Complemented(data: seq<byte>, register: bv32)
    requires RegisterIs(data, register)
    ensures Checksum(0, data) == Not(register)
  {
    hide Divide, MessageBits;
    assert Not(0) == 0xffff_ffff;
  }
}
