/** Values that fix the checksum itself, complements included: its residue and its check value. */
module CrcValues {
  import opened Words
  import opened Crc
  import opened Layout

  // ----- a checksum as bytes ------------------------------------------------------------------

  /** The four bytes of a register, low byte first. */
  function Quads(c: bv32): (bs: seq<Byte>)
    ensures |bs| == 4
  {
    [LowByte(c), LowByte(Rest(c)), LowByte(Rest(Rest(c))), LowByte(Rest(Rest(Rest(c))))]
  }

  lemma FourBytes(c: bv32, x: bv8, y: bv8, z: bv8, w: bv8)
    requires x == (c & 0xFF) as bv8 && y == ((c >> 8) & 0xFF) as bv8
    requires z == (((c >> 8) >> 8) & 0xFF) as bv8 && w == ((((c >> 8) >> 8) >> 8) & 0xFF) as bv8
    ensures c == (x as bv32) ^ ((y as bv32) << 8) ^ ((z as bv32) << 16) ^ ((w as bv32) << 24)
  {
  }

  lemma FourDigits(c: bv32, x: bv8, y: bv8, z: bv8, w: bv8)
    requires c == (x as bv32) ^ ((y as bv32) << 8) ^ ((z as bv32) << 16) ^ ((w as bv32) << 24)
    ensures c as int == x as int + 256 * (y as int) + 65536 * (z as int) + 16777216 * (w as int)
  {
  }

  lemma QuadsNumber(c: bv32)
    ensures Number(Quads(c), 256) == c as int
  {
    var x, y := (c & 0xFF) as bv8, ((c >> 8) & 0xFF) as bv8;
    var z, w := (((c >> 8) >> 8) & 0xFF) as bv8, ((((c >> 8) >> 8) >> 8) & 0xFF) as bv8;
    FourBytes(c, x, y, z, w);
    FourDigits(c, x, y, z, w);
    FourTerms(x as int, y as int, z as int, w as int);
  }

  lemma FourTerms(x: int, y: int, z: int, w: int)
    ensures Number([x, y, z, w], 256) == x + 256 * y + 65536 * z + 16777216 * w
  {
    assert [x, y, z, w][1..] == [y, z, w] && [y, z, w][1..] == [z, w] && [z, w][1..] == [w] && [w][1..] == [];
    assert Number([w], 256) == w;
    assert Number([z, w], 256) == z + 256 * w;
    assert Number([y, z, w], 256) == y + 256 * z + 65536 * w;
  }

  lemma FieldOfDigits(n: int, ds: seq<Byte>)
    requires |ds| == 4 && Number(ds, 256) == n
    ensures PutField(U32, n) == ds
  {
    hide Number, Digits, Power;
    NumberBound(ds, 256);
    DigitsOfNumber(ds, 256);
    DivModUnique(n, Range(U32), 0, n);
  }

  /** Written as a little-endian field, a checksum is its register's bytes. */
  lemma QuadsAreField(c: bv32)
    ensures PutField(U32, c as int) == Quads(c)
  {
    hide LowByte, Rest, Number, PutField;
    QuadsNumber(c);
    FieldOfDigits(c as int, Quads(c));
  }

  lemma RestsRunOut(c: bv32)
    ensures Rest(Rest(Rest(Rest(c)))) == 0
  {
  }

  lemma WordOfQuads(c: bv32)
    ensures Word(Quads(c)) == c
  {
    hide LowByte, Rest, Bits, Xor, Up8;
    var r1, r2, r3 := Rest(c), Rest(Rest(c)), Rest(Rest(Rest(c)));
    BytesOfRegister(c);
    BytesOfRegister(r1);
    BytesOfRegister(r2);
    BytesOfRegister(r3);
    RestsRunOut(c);
    WordStep(LowByte(r3), []);
    WordStep(LowByte(r2), [LowByte(r3)]);
    WordStep(LowByte(r1), [LowByte(r2), LowByte(r3)]);
    WordStep(LowByte(c), [LowByte(r1), LowByte(r2), LowByte(r3)]);
    assert [LowByte(r3)] + [] == [LowByte(r3)];
    assert [LowByte(r2)] + [LowByte(r3)] == [LowByte(r2), LowByte(r3)];
    assert [LowByte(r1)] + [LowByte(r2), LowByte(r3)] == [LowByte(r1), LowByte(r2), LowByte(r3)];
    assert [LowByte(c)] + [LowByte(r1), LowByte(r2), LowByte(r3)] == Quads(c);
  }

  lemma WordStep(b: Byte, bs: seq<Byte>)
    ensures Word([b] + bs) == Xor(Bits(b), Up8(Word(bs)))
    ensures Word([]) == 0
  {
    assert ([b] + bs)[1..] == bs;
  }

  // ----- the residue --------------------------------------------------------------------------

  lemma Eight(c0: bv32, c1: bv32, c2: bv32, c3: bv32, c4: bv32, c5: bv32, c6: bv32, c7: bv32, c8: bv32)
    requires Shift1(c0) == c1 && Shift1(c1) == c2 && Shift1(c2) == c3 && Shift1(c3) == c4
    requires Shift1(c4) == c5 && Shift1(c5) == c6 && Shift1(c6) == c7 && Shift1(c7) == c8
    ensures ShiftBy(c0, 8) == c8
  {
    hide Shift1;
    assert ShiftBy(c0, 8) == ShiftBy(c1, 7) == ShiftBy(c2, 6) == ShiftBy(c3, 5);
    assert ShiftBy(c3, 5) == ShiftBy(c4, 4) == ShiftBy(c5, 3) == ShiftBy(c6, 2);
    assert ShiftBy(c6, 2) == ShiftBy(c7, 1) == ShiftBy(c8, 0);
  }

  lemma OnesShifted()
    ensures ShiftBy(0xFFFF_FFFF, 32) == 0xDEBB_20E3
  {
    hide ShiftBy;
    Eight(0xFFFF_FFFF, 0x9247_7CDF, 0xA49B_3D4F, 0xBFF5_1D87, 0xB242_0DE3, 0xB499_85D1, 0xB7F4_41C8, 0x5BFA_20E4, 0x2DFD_1072);
    Eight(0x2DFD_1072, 0x16FE_8839, 0xE6C7_C73C, 0x7363_E39E, 0x39B1_F1CF, 0xF160_7BC7, 0x9508_BEC3, 0xA73C_DC41, 0xBE26_ED00);
    Eight(0xBE26_ED00, 0x5F13_7680, 0x2F89_BB40, 0x17C4_DDA0, 0x0BE2_6ED0, 0x05F1_3768, 0x02F8_9BB4, 0x017C_4DDA, 0x00BE_26ED);
    Eight(0x00BE_26ED, 0xEDE7_9056, 0x76F3_C82B, 0xD6C1_6735, 0x86D8_30BA, 0x436C_185D, 0xCC0E_8F0E, 0x6607_4787, 0xDEBB_20E3);
    ShiftByAdd(0xFFFF_FFFF, 8, 24);
    ShiftByAdd(0x2DFD_1072, 8, 16);
    ShiftByAdd(0xBE26_ED00, 8, 8);
  }

  lemma Complements(r: bv32)
    ensures Xor(0, 0xFFFF_FFFF) == 0xFFFF_FFFF && Xor(r, Xor(r, 0xFFFF_FFFF)) == 0xFFFF_FFFF
    ensures Xor(0xDEBB_20E3, 0xFFFF_FFFF) == 0x2144_DF1C
  {
  }

  /** A buffer followed by its own checksum always has the same checksum, whatever the buffer: the constant
      to which the standard's complements before and after the division lead. */
  lemma Residue(bs: seq<Byte>)
    ensures Checksum(bs + PutField(U32, Checksum(bs, 0) as int), 0) == 0x2144_DF1C
  {
    hide Xor, ShiftBy, Bits, Word, Quads;
    var r, c := Remainder(0xFFFF_FFFF, bs), Checksum(bs, 0);
    QuadsAreField(c);
    Complements(r);
    RemainderConcat(0xFFFF_FFFF, bs, Quads(c));
    RemainderOfWord(r, Quads(c));
    WordOfQuads(c);
    OnesShifted();
  }

  // ----- the check value ----------------------------------------------------------------------

  lemma OneMore(c: bv32, b: Byte, c0: bv32, c1: bv32, c2: bv32, c3: bv32, c4: bv32, c5: bv32, c6: bv32, c7: bv32, c8: bv32, rest: seq<Byte>)
    requires Xor(c, Bits(b)) == c0
    requires Shift1(c0) == c1 && Shift1(c1) == c2 && Shift1(c2) == c3 && Shift1(c3) == c4
    requires Shift1(c4) == c5 && Shift1(c5) == c6 && Shift1(c6) == c7 && Shift1(c7) == c8
    ensures Remainder(c, [b] + rest) == Remainder(c8, rest)
  {
    hide Shift1, Xor, Bits;
    Eight(c0, c1, c2, c3, c4, c5, c6, c7, c8);
    assert ([b] + rest)[1..] == rest;
  }

  lemma DigitsOneToThree(rest: seq<Byte>)
    ensures Remainder(0xFFFF_FFFF, [49] + ([50] + ([51] + rest))) == Remainder(0x77B7_9C2D, rest)
  {
    hide Remainder;
    OneMore(0xFFFF_FFFF, 49, 0xFFFF_FFCE, 0x7FFF_FFE7, 0xD247_7CD3, 0x849B_3D49, 0xAFF5_1D84,
            0x57FA_8EC2, 0x2BFD_4761, 0xF846_2090, 0x7C23_1048, [50] + ([51] + rest));
    OneMore(0x7C23_1048, 50, 0x7C23_107A, 0x3E11_883D, 0xF2B0_473E, 0x7958_239F, 0xD114_92EF,
            0x8532_CA57, 0xAF21_E60B, 0xBA28_7025, 0xB0AC_BB32, [51] + rest);
    OneMore(0xB0AC_BB32, 51, 0xB0AC_BB01, 0xB5EE_DEA0, 0x5AF7_6F50, 0x2D7B_B7A8, 0x16BD_DBD4,
            0x0B5E_EDEA, 0x05AF_76F5, 0xEF6F_385A, 0x77B7_9C2D, rest);
  }

  lemma DigitsFourToSix(rest: seq<Byte>)
    ensures Remainder(0x77B7_9C2D, [52] + ([53] + ([54] + rest))) == Remainder(0xF68D_2C9E, rest)
  {
    hide Remainder;
    OneMore(0x77B7_9C2D, 52, 0x77B7_9C19, 0xD663_4D2C, 0x6B31_A696, 0x3598_D34B, 0xF774_EA85,
            0x9602_F662, 0x4B01_7B31, 0xC838_3EB8, 0x641C_1F5C, [53] + ([54] + rest));
    OneMore(0x641C_1F5C, 53, 0x641C_1F69, 0xDFB6_8C94, 0x6FDB_464A, 0x37ED_A325, 0xF64E_52B2,
            0x7B27_2959, 0xD02B_178C, 0x6815_8BC6, 0x340A_C5E3, [54] + rest);
    OneMore(0x340A_C5E3, 54, 0x340A_C5D5, 0xF7BD_E1CA, 0x7BDE_F0E5, 0xD057_FB52, 0x682B_FDA9,
            0xD9AD_7DF4, 0x6CD6_BEFA, 0x366B_5F7D, 0xF68D_2C9E, rest);
  }

  lemma DigitsSevenToNine(rest: seq<Byte>)
    ensures Remainder(0xF68D_2C9E, [55] + ([56] + ([57] + rest))) == Remainder(0x340B_C6D9, rest)
  {
    hide Remainder;
    OneMore(0xF68D_2C9E, 55, 0xF68D_2CA9, 0x96FE_1574, 0x4B7F_0ABA, 0x25BF_855D, 0xFF67_418E,
            0x7FB3_A0C7, 0xD261_5343, 0x8488_2A81, 0xAFFC_9660, [56] + ([57] + rest));
    OneMore(0xAFFC_9660, 56, 0xAFFC_9658, 0x57FE_4B2C, 0x2BFF_2596, 0x15FF_92CB, 0xE747_4A45,
            0x9E1B_2602, 0x4F0D_9301, 0xCA3E_4AA0, 0x651F_2550, [57] + rest);
    OneMore(0x651F_2550, 57, 0x651F_2569, 0xDF37_1194, 0x6F9B_88CA, 0x37CD_C465, 0xF65E_6112,
            0x7B2F_3089, 0xD02F_1B64, 0x6817_8DB2, 0x340B_C6D9, rest);
  }

  lemma Nested(a: seq<Byte>, rest: seq<Byte>)
    requires |a| == 3
    ensures [a[0]] + ([a[1]] + ([a[2]] + rest)) == a + rest
  {
  }

  /** The check value of the standard's nine digits "123456789". */
  lemma CheckValue()
    ensures Checksum([49, 50, 51, 52, 53, 54, 55, 56, 57], 0) == 0xCBF4_3926
  {
    hide Remainder, Xor;
    var a: seq<Byte>, b: seq<Byte>, c: seq<Byte> := [49, 50, 51], [52, 53, 54], [55, 56, 57];
    DigitsOneToThree(b + c);
    DigitsFourToSix(c);
    DigitsSevenToNine([]);
    Nested(a, b + c);
    Nested(b, c);
    Nested(c, []);
    assert c + [] == c && a + (b + c) == [49, 50, 51, 52, 53, 54, 55, 56, 57];
    NothingLeft(0x340B_C6D9);
    Ends();
  }

  lemma Ends()
    ensures Xor(0, 0xFFFF_FFFF) == 0xFFFF_FFFF && Xor(0x340B_C6D9, 0xFFFF_FFFF) == 0xCBF4_3926
  {
  }

  lemma NothingLeft(c: bv32)
    ensures Remainder(c, []) == c
  {
  }
}
