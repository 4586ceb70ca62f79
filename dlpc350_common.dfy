/*
 * A model of the helper tables and functions of the DLPC350 support code
 * (LightCrafter/dlpc350_common.cpp): the bit-reversal table, the two hex
 * tables, the hex-string parser Hex2BinArray, the bounds-checked pixel read
 * GetImagePixel, the power-of-two round-up Next2Power and TrimString.
 *
 * C's uint8 and uint32 are the bit-vector types bv8 and bv32, so their
 * wrap-around is Dafny's. A C character buffer is a sequence of bytes: the
 * byte is used as an unsigned index into the 256-entry hex table.
 */
module Dlpc350Common {

  type uint8 = bv8
  type uint32 = bv32

  /** Bit j (0 = least significant) of b. */
  predicate Bit(b: uint8, j: uint8)
    requires j < 8
  {
    (b >> j) & 1 == 1
  }

  /** Entry c of a table row, indexed by a byte as the C code does. */
  function Entry(row: seq<uint8>, c: uint8): uint8
    requires c as int < |row|
  {
    row[c as int]
  }

  /** The 8-bit reversal of b: bit j of the result is bit 7 - j of b. */
  function BitReverse(b: uint8): (r: uint8)
    ensures forall j: uint8 | j < 8 :: Bit(r, j) == Bit(b, 7 - j)
  {
    ((b & 0x01) << 7) | ((b & 0x02) << 5) | ((b & 0x04) << 3) | ((b & 0x08) << 1) |
    ((b & 0x10) >> 1) | ((b & 0x20) >> 3) | ((b & 0x40) >> 5) | ((b & 0x80) >> 7)
  }

  // ---------------------------------------------------------------------------
  // CMN_BitRevLUT. The initialiser of the C array, one constant per source
  // line: entry i is in row i >> 4, column i & 0xF.

  const BitRevRow0: seq<uint8> := [0x00, 0x80, 0x40, 0xC0, 0x20, 0xA0, 0x60, 0xE0, 0x10, 0x90, 0x50, 0xD0, 0x30, 0xB0, 0x70, 0xF0]
  const BitRevRow1: seq<uint8> := [0x08, 0x88, 0x48, 0xC8, 0x28, 0xA8, 0x68, 0xE8, 0x18, 0x98, 0x58, 0xD8, 0x38, 0xB8, 0x78, 0xF8]
  const BitRevRow2: seq<uint8> := [0x04, 0x84, 0x44, 0xC4, 0x24, 0xA4, 0x64, 0xE4, 0x14, 0x94, 0x54, 0xD4, 0x34, 0xB4, 0x74, 0xF4]
  const BitRevRow3: seq<uint8> := [0x0C, 0x8C, 0x4C, 0xCC, 0x2C, 0xAC, 0x6C, 0xEC, 0x1C, 0x9C, 0x5C, 0xDC, 0x3C, 0xBC, 0x7C, 0xFC]
  const BitRevRow4: seq<uint8> := [0x02, 0x82, 0x42, 0xC2, 0x22, 0xA2, 0x62, 0xE2, 0x12, 0x92, 0x52, 0xD2, 0x32, 0xB2, 0x72, 0xF2]
  const BitRevRow5: seq<uint8> := [0x0A, 0x8A, 0x4A, 0xCA, 0x2A, 0xAA, 0x6A, 0xEA, 0x1A, 0x9A, 0x5A, 0xDA, 0x3A, 0xBA, 0x7A, 0xFA]
  const BitRevRow6: seq<uint8> := [0x06, 0x86, 0x46, 0xC6, 0x26, 0xA6, 0x66, 0xE6, 0x16, 0x96, 0x56, 0xD6, 0x36, 0xB6, 0x76, 0xF6]
  const BitRevRow7: seq<uint8> := [0x0E, 0x8E, 0x4E, 0xCE, 0x2E, 0xAE, 0x6E, 0xEE, 0x1E, 0x9E, 0x5E, 0xDE, 0x3E, 0xBE, 0x7E, 0xFE]
  const BitRevRow8: seq<uint8> := [0x01, 0x81, 0x41, 0xC1, 0x21, 0xA1, 0x61, 0xE1, 0x11, 0x91, 0x51, 0xD1, 0x31, 0xB1, 0x71, 0xF1]
  const BitRevRow9: seq<uint8> := [0x09, 0x89, 0x49, 0xC9, 0x29, 0xA9, 0x69, 0xE9, 0x19, 0x99, 0x59, 0xD9, 0x39, 0xB9, 0x79, 0xF9]
  const BitRevRow10: seq<uint8> := [0x05, 0x85, 0x45, 0xC5, 0x25, 0xA5, 0x65, 0xE5, 0x15, 0x95, 0x55, 0xD5, 0x35, 0xB5, 0x75, 0xF5]
  const BitRevRow11: seq<uint8> := [0x0D, 0x8D, 0x4D, 0xCD, 0x2D, 0xAD, 0x6D, 0xED, 0x1D, 0x9D, 0x5D, 0xDD, 0x3D, 0xBD, 0x7D, 0xFD]
  const BitRevRow12: seq<uint8> := [0x03, 0x83, 0x43, 0xC3, 0x23, 0xA3, 0x63, 0xE3, 0x13, 0x93, 0x53, 0xD3, 0x33, 0xB3, 0x73, 0xF3]
  const BitRevRow13: seq<uint8> := [0x0B, 0x8B, 0x4B, 0xCB, 0x2B, 0xAB, 0x6B, 0xEB, 0x1B, 0x9B, 0x5B, 0xDB, 0x3B, 0xBB, 0x7B, 0xFB]
  const BitRevRow14: seq<uint8> := [0x07, 0x87, 0x47, 0xC7, 0x27, 0xA7, 0x67, 0xE7, 0x17, 0x97, 0x57, 0xD7, 0x37, 0xB7, 0x77, 0xF7]
  const BitRevRow15: seq<uint8> := [0x0F, 0x8F, 0x4F, 0xCF, 0x2F, 0xAF, 0x6F, 0xEF, 0x1F, 0x9F, 0x5F, 0xDF, 0x3F, 0xBF, 0x7F, 0xFF]

  const BitRevRows: seq<seq<uint8>> := [BitRevRow0, BitRevRow1, BitRevRow2, BitRevRow3, BitRevRow4, BitRevRow5, BitRevRow6, BitRevRow7, BitRevRow8, BitRevRow9, BitRevRow10, BitRevRow11, BitRevRow12, BitRevRow13, BitRevRow14, BitRevRow15]

  /** Row r of the table holds the reversals of (r << 4) | 0 .. (r << 4) | 15. */
  ghost predicate ReversesRow(row: seq<uint8>, r: uint8)
    requires r < 16
  {
    |row| == 16 && forall c: uint8 | c < 16 :: Entry(row, c) == BitReverse(r * 16 + c)
  }

  lemma BitRevRowsShape()
    ensures |BitRevRows| == 16 && forall k | 0 <= k < 16 :: |BitRevRows[k]| == 16
  {
  }

  // One lemma per row: all sixteen in one lemma are beyond the solver's budget.

  lemma BitRevRow0Reverses()
    ensures ReversesRow(BitRevRow0, 0)
  {
  }

  lemma BitRevRow1Reverses()
    ensures ReversesRow(BitRevRow1, 1)
  {
  }

  lemma BitRevRow2Reverses()
    ensures ReversesRow(BitRevRow2, 2)
  {
  }

  lemma BitRevRow3Reverses()
    ensures ReversesRow(BitRevRow3, 3)
  {
  }

  lemma BitRevRow4Reverses()
    ensures ReversesRow(BitRevRow4, 4)
  {
  }

  lemma BitRevRow5Reverses()
    ensures ReversesRow(BitRevRow5, 5)
  {
  }

  lemma BitRevRow6Reverses()
    ensures ReversesRow(BitRevRow6, 6)
  {
  }

  lemma BitRevRow7Reverses()
    ensures ReversesRow(BitRevRow7, 7)
  {
  }

  lemma BitRevRow8Reverses()
    ensures ReversesRow(BitRevRow8, 8)
  {
  }

  lemma BitRevRow9Reverses()
    ensures ReversesRow(BitRevRow9, 9)
  {
  }

  lemma BitRevRow10Reverses()
    ensures ReversesRow(BitRevRow10, 10)
  {
  }

  lemma BitRevRow11Reverses()
    ensures ReversesRow(BitRevRow11, 11)
  {
  }

  lemma BitRevRow12Reverses()
    ensures ReversesRow(BitRevRow12, 12)
  {
  }

  lemma BitRevRow13Reverses()
    ensures ReversesRow(BitRevRow13, 13)
  {
  }

  lemma BitRevRow14Reverses()
    ensures ReversesRow(BitRevRow14, 14)
  {
  }

  lemma BitRevRow15Reverses()
    ensures ReversesRow(BitRevRow15, 15)
  {
  }

  /** The row an index selects holds the reversals of that row's indices. */
  lemma BitRevRowOf(i: uint8)
    ensures |BitRevRows| == 16 && ReversesRow(BitRevRows[(i >> 4) as int], i >> 4)
  {
    match i >> 4
    case 0 => BitRevRow0Reverses(); assert BitRevRows[0] == BitRevRow0;
    case 1 => BitRevRow1Reverses(); assert BitRevRows[1] == BitRevRow1;
    case 2 => BitRevRow2Reverses(); assert BitRevRows[2] == BitRevRow2;
    case 3 => BitRevRow3Reverses(); assert BitRevRows[3] == BitRevRow3;
    case 4 => BitRevRow4Reverses(); assert BitRevRows[4] == BitRevRow4;
    case 5 => BitRevRow5Reverses(); assert BitRevRows[5] == BitRevRow5;
    case 6 => BitRevRow6Reverses(); assert BitRevRows[6] == BitRevRow6;
    case 7 => BitRevRow7Reverses(); assert BitRevRows[7] == BitRevRow7;
    case 8 => BitRevRow8Reverses(); assert BitRevRows[8] == BitRevRow8;
    case 9 => BitRevRow9Reverses(); assert BitRevRows[9] == BitRevRow9;
    case 10 => BitRevRow10Reverses(); assert BitRevRows[10] == BitRevRow10;
    case 11 => BitRevRow11Reverses(); assert BitRevRows[11] == BitRevRow11;
    case 12 => BitRevRow12Reverses(); assert BitRevRows[12] == BitRevRow12;
    case 13 => BitRevRow13Reverses(); assert BitRevRows[13] == BitRevRow13;
    case 14 => BitRevRow14Reverses(); assert BitRevRows[14] == BitRevRow14;
    case 15 => BitRevRow15Reverses(); assert BitRevRows[15] == BitRevRow15;
  }

  /** CMN_BitRevLUT[i]: every one of the 256 entries is the 8-bit reversal of its index. */
  function CMN_BitRevLUT(i: uint8): (r: uint8)
    ensures r == BitReverse(i)
  {
    BitRevRowsShape();
    BitRevRowOf(i);
    assert (i >> 4) * 16 + (i & 0x0F) == i;
    BitRevRows[(i >> 4) as int][(i & 0x0F) as int]
  }

  /** Looking a byte up twice gives it back: the table is an involution. */
  lemma BitRevLUTInvolution(i: uint8)
    ensures CMN_BitRevLUT(CMN_BitRevLUT(i)) == i
  {
  }

  // ---------------------------------------------------------------------------
  // CMN_Hex2Bin and CMN_Bin2Hex.

  const Hex2BinRow0: seq<uint8> := [0xFF, 0xFF, 0xFF, 0xFF, 0xFF, 0xFF, 0xFF, 0xFF, 0xFF, 0xFF, 0xFF, 0xFF, 0xFF, 0xFF, 0xFF, 0xFF]
  const Hex2BinRow1: seq<uint8> := [0xFF, 0xFF, 0xFF, 0xFF, 0xFF, 0xFF, 0xFF, 0xFF, 0xFF, 0xFF, 0xFF, 0xFF, 0xFF, 0xFF, 0xFF, 0xFF]
  const Hex2BinRow2: seq<uint8> := [0xFF, 0xFF, 0xFF, 0xFF, 0xFF, 0xFF, 0xFF, 0xFF, 0xFF, 0xFF, 0xFF, 0xFF, 0xFF, 0xFF, 0xFF, 0xFF]
  const Hex2BinRow3: seq<uint8> := [0x00, 0x01, 0x02, 0x03, 0x04, 0x05, 0x06, 0x07, 0x08, 0x09, 0xFF, 0xFF, 0xFF, 0xFF, 0xFF, 0xFF]
  const Hex2BinRow4: seq<uint8> := [0xFF, 0x0A, 0x0B, 0x0C, 0x0D, 0x0E, 0x0F, 0xFF, 0xFF, 0xFF, 0xFF, 0xFF, 0xFF, 0xFF, 0xFF, 0xFF]
  const Hex2BinRow5: seq<uint8> := [0xFF, 0xFF, 0xFF, 0xFF, 0xFF, 0xFF, 0xFF, 0xFF, 0xFF, 0xFF, 0xFF, 0xFF, 0xFF, 0xFF, 0xFF, 0xFF]
  const Hex2BinRow6: seq<uint8> := [0xFF, 0x0A, 0x0B, 0x0C, 0x0D, 0x0E, 0x0F, 0xFF, 0xFF, 0xFF, 0xFF, 0xFF, 0xFF, 0xFF, 0xFF, 0xFF]
  const Hex2BinRow7: seq<uint8> := [0xFF, 0xFF, 0xFF, 0xFF, 0xFF, 0xFF, 0xFF, 0xFF, 0xFF, 0xFF, 0xFF, 0xFF, 0xFF, 0xFF, 0xFF, 0xFF]
  const Hex2BinRow8: seq<uint8> := [0xFF, 0xFF, 0xFF, 0xFF, 0xFF, 0xFF, 0xFF, 0xFF, 0xFF, 0xFF, 0xFF, 0xFF, 0xFF, 0xFF, 0xFF, 0xFF]
  const Hex2BinRow9: seq<uint8> := [0xFF, 0xFF, 0xFF, 0xFF, 0xFF, 0xFF, 0xFF, 0xFF, 0xFF, 0xFF, 0xFF, 0xFF, 0xFF, 0xFF, 0xFF, 0xFF]
  const Hex2BinRow10: seq<uint8> := [0xFF, 0xFF, 0xFF, 0xFF, 0xFF, 0xFF, 0xFF, 0xFF, 0xFF, 0xFF, 0xFF, 0xFF, 0xFF, 0xFF, 0xFF, 0xFF]
  const Hex2BinRow11: seq<uint8> := [0xFF, 0xFF, 0xFF, 0xFF, 0xFF, 0xFF, 0xFF, 0xFF, 0xFF, 0xFF, 0xFF, 0xFF, 0xFF, 0xFF, 0xFF, 0xFF]
  const Hex2BinRow12: seq<uint8> := [0xFF, 0xFF, 0xFF, 0xFF, 0xFF, 0xFF, 0xFF, 0xFF, 0xFF, 0xFF, 0xFF, 0xFF, 0xFF, 0xFF, 0xFF, 0xFF]
  const Hex2BinRow13: seq<uint8> := [0xFF, 0xFF, 0xFF, 0xFF, 0xFF, 0xFF, 0xFF, 0xFF, 0xFF, 0xFF, 0xFF, 0xFF, 0xFF, 0xFF, 0xFF, 0xFF]
  const Hex2BinRow14: seq<uint8> := [0xFF, 0xFF, 0xFF, 0xFF, 0xFF, 0xFF, 0xFF, 0xFF, 0xFF, 0xFF, 0xFF, 0xFF, 0xFF, 0xFF, 0xFF, 0xFF]
  const Hex2BinRow15: seq<uint8> := [0xFF, 0xFF, 0xFF, 0xFF, 0xFF, 0xFF, 0xFF, 0xFF, 0xFF, 0xFF, 0xFF, 0xFF, 0xFF, 0xFF, 0xFF, 0xFF]

  const Hex2BinRows: seq<seq<uint8>> := [Hex2BinRow0, Hex2BinRow1, Hex2BinRow2, Hex2BinRow3, Hex2BinRow4, Hex2BinRow5, Hex2BinRow6, Hex2BinRow7, Hex2BinRow8, Hex2BinRow9, Hex2BinRow10, Hex2BinRow11, Hex2BinRow12, Hex2BinRow13, Hex2BinRow14, Hex2BinRow15]

  /** The ASCII codes of '0'..'9', 'A'..'F' and 'a'..'f'. */
  predicate IsHexDigit(b: uint8)
  {
    0x30 <= b <= 0x39 || 0x41 <= b <= 0x46 || 0x61 <= b <= 0x66
  }

  ghost predicate NoHexDigit(row: seq<uint8>)
  {
    |row| == 16 && forall c: uint8 | c < 16 :: Entry(row, c) == 0xFF
  }

  lemma Hex2BinRowsShape()
    ensures |Hex2BinRows| == 16 && forall k | 0 <= k < 16 :: |Hex2BinRows[k]| == 16
  {
  }

  lemma Hex2BinRowsDecode()
    ensures NoHexDigit(Hex2BinRow0)
    ensures NoHexDigit(Hex2BinRow1)
    ensures NoHexDigit(Hex2BinRow2)
    ensures NoHexDigit(Hex2BinRow5)
    ensures NoHexDigit(Hex2BinRow7)
    ensures NoHexDigit(Hex2BinRow8)
    ensures NoHexDigit(Hex2BinRow9)
    ensures NoHexDigit(Hex2BinRow10)
    ensures NoHexDigit(Hex2BinRow11)
    ensures NoHexDigit(Hex2BinRow12)
    ensures NoHexDigit(Hex2BinRow13)
    ensures NoHexDigit(Hex2BinRow14)
    ensures NoHexDigit(Hex2BinRow15)
    ensures forall c: uint8 | c < 16 :: Entry(Hex2BinRow3, c) == if c < 10 then c else 0xFF
    ensures forall c: uint8 | c < 16 :: Entry(Hex2BinRow4, c) == if 1 <= c <= 6 then c + 9 else 0xFF
    ensures forall c: uint8 | c < 16 :: Entry(Hex2BinRow6, c) == if 1 <= c <= 6 then c + 9 else 0xFF
  {
  }

  /**
   * The value of a hex digit, upper or lower case, and 0xFF for every other
   * byte: what CMN_Hex2Bin tabulates.
   */
  function HexValue(b: uint8): (r: uint8)
    ensures IsHexDigit(b) <==> r < 16
    ensures !IsHexDigit(b) <==> r == 0xFF
  {
    if 0x30 <= b <= 0x39 then b - 0x30
    else if 0x41 <= b <= 0x46 then b - 0x41 + 10
    else if 0x61 <= b <= 0x66 then b - 0x61 + 10
    else 0xFF
  }

  /** CMN_Hex2Bin[b]: every one of the 256 entries is the value HexValue gives its index. */
  function CMN_Hex2Bin(b: uint8): (r: uint8)
    ensures r == HexValue(b)
  {
    Hex2BinRowsShape();
    Hex2BinRowsDecode();
    Hex2BinRows[(b >> 4) as int][(b & 0x0F) as int]
  }

  /** CMN_Bin2Hex as written: the bytes of "0123456789ABCEDF" (D and E swapped). */
  const CMN_Bin2Hex: seq<uint8> := [0x30, 0x31, 0x32, 0x33, 0x34, 0x35, 0x36, 0x37, 0x38, 0x39, 0x41, 0x42, 0x43, 0x45, 0x44, 0x46]

  /** The digit table the name promises: the bytes of "0123456789ABCDEF". */
  const Bin2HexIntended: seq<uint8> := [0x30, 0x31, 0x32, 0x33, 0x34, 0x35, 0x36, 0x37, 0x38, 0x39, 0x41, 0x42, 0x43, 0x44, 0x45, 0x46]

  /**
   * Decoding the digit CMN_Bin2Hex gives for v yields v for 0..12 and 15,
   * but 14 for 13 and 13 for 14: the two tables are not inverses.
   */
  lemma Bin2HexSwapsDAndE()
    ensures |CMN_Bin2Hex| == 16
    ensures forall v: uint8 | v < 16 ::
      CMN_Hex2Bin(Entry(CMN_Bin2Hex, v)) == if v == 13 then 14 else if v == 14 then 13 else v
    ensures CMN_Hex2Bin(CMN_Bin2Hex[13]) != 13
  {
  }

  /** With the intended table, decoding undoes encoding for every nibble. */
  lemma Bin2HexIntendedInverts()
    ensures InvertsHex2Bin(Bin2HexIntended)
  {
  }

  // ---------------------------------------------------------------------------
  // Hex2BinArray.

  /** The values of the hex digits of s, in order; every other byte is skipped. */
  function HexDigits(s: seq<uint8>): (d: seq<uint8>)
    ensures |d| <= |s|
    ensures forall k | 0 <= k < |d| :: d[k] < 16
  {
    if s == [] then []
    else if IsHexDigit(s[|s| - 1]) then HexDigits(s[..|s| - 1]) + [HexValue(s[|s| - 1])]
    else HexDigits(s[..|s| - 1])
  }

  /** The bytes made of consecutive nibble pairs, high nibble first; an odd last nibble is dropped. */
  function Pack(d: seq<uint8>): (r: seq<uint8>)
    ensures |r| == |d| / 2
  {
    if |d| < 2 then []
    else if |d| % 2 == 1 then Pack(d[..|d| - 1])
    else Pack(d[..|d| - 2]) + [Byte(d[|d| - 2], d[|d| - 1])]
  }

  /** Byte k of Pack(d) is made of digits 2k and 2k + 1. */
  lemma {:induction false} PackIndex(d: seq<uint8>, k: nat)
    requires k < |d| / 2
    ensures Pack(d)[k] == Byte(d[2 * k], d[2 * k + 1])
    decreases |d|
  {
    if |d| % 2 == 1 {
      PackIndex(d[..|d| - 1], k);
    } else if k < |d| / 2 - 1 {
      PackIndex(d[..|d| - 2], k);
    }
  }

  /** The byte with high nibble hi and low nibble lo, as Nibble1 << 4 | Nibble computes it. */
  function Byte(hi: uint8, lo: uint8): uint8
  {
    (hi << 4) | lo
  }

  lemma {:induction false} HexDigitsAppend(a: seq<uint8>, b: seq<uint8>)
    ensures HexDigits(a + b) == HexDigits(a) + HexDigits(b)
    decreases |b|
  {
    if b != [] {
      var b' := b[..|b| - 1];
      assert (a + b)[..|a + b| - 1] == a + b';
      HexDigitsAppend(a, b');
    } else {
      assert a + b == a;
    }
  }

  /** A byte that is not a hex digit may be inserted anywhere without changing the digits. */
  lemma HexDigitsSkipsOtherBytes(a: seq<uint8>, c: uint8, b: seq<uint8>)
    requires !IsHexDigit(c)
    ensures HexDigits(a + [c] + b) == HexDigits(a + b)
  {
    HexDigitsAppend(a + [c], b);
    HexDigitsAppend(a, b);
    assert (a + [c])[..|a|] == a;
  }

  /** One more input byte adds its digit value, if it is a hex digit. */
  lemma HexDigitsStep(s: seq<uint8>, i: nat)
    requires i < |s|
    ensures HexDigits(s[..i + 1]) ==
      if IsHexDigit(s[i]) then HexDigits(s[..i]) + [HexValue(s[i])] else HexDigits(s[..i])
  {
    assert s[..i + 1][..i] == s[..i];
  }

  /** One more digit completes a byte exactly when it is the second of a pair. */
  lemma PackStep(d: seq<uint8>, x: uint8)
    ensures |d| % 2 == 0 ==> Pack(d + [x]) == Pack(d)
    ensures |d| % 2 == 1 ==> Pack(d + [x]) == Pack(d) + [Byte(d[|d| - 1], x)]
  {
    if |d| % 2 == 0 {
      assert (d + [x])[..|d|] == d;
    } else {
      assert (d + [x])[..|d| - 1] == d[..|d| - 1];
    }
  }

  lemma HexDigitsOfPrefix(s: seq<uint8>, i: nat)
    requires i <= |s|
    ensures |HexDigits(s[..i])| <= |HexDigits(s)|
  {
    HexDigitsAppend(s[..i], s[i..]);
    assert s[..i] + s[i..] == s;
  }

  /**
   * Hex2BinArray(HexStr, Size, BinArray): decodes the hex digits among the
   * first Size bytes pairwise into BinArray and returns how many bytes it
   * wrote. Bytes that are not hex digits are skipped; an odd last digit is
   * dropped; BinArray beyond the returned count is left alone.
   */
  method Hex2BinArray(HexStr: seq<uint8>, Size: nat, BinArray: array<uint8>) returns (count: nat)
    requires Size <= |HexStr|
    requires |HexDigits(HexStr[..Size])| / 2 <= BinArray.Length
    modifies BinArray
    ensures count == |HexDigits(HexStr[..Size])| / 2
    ensures BinArray[..count] == Pack(HexDigits(HexStr[..Size]))
    ensures BinArray[count..] == old(BinArray[count..])
  {
    ghost var orig := BinArray[..];
    var i := 0;
    var index := 0;
    var nibble1: uint8 := 0;
    ghost var digits: seq<uint8> := [];
    ghost var packed: seq<uint8> := [];
    while i < Size
      invariant i <= Size && Scanned(HexStr, i, digits, packed, index, nibble1)
      invariant index <= |HexDigits(HexStr[..Size])|
      invariant BinArray[..] == packed + orig[|packed|..]
    {
      ScanStep(HexStr, Size, i, digits, packed, index, nibble1);
      var nibble := CMN_Hex2Bin(HexStr[i]);
      if nibble != 0xFF {
        if index % 2 == 0 {
          ScanFirstOfPair(HexStr, i, digits, packed, index, nibble1);
          nibble1 := nibble;
        } else {
          ScanSecondOfPair(HexStr, i, digits, packed, index, nibble1);
          WriteAfter(packed, orig, Byte(nibble1, nibble));
          BinArray[index / 2] := Byte(nibble1, nibble);
          packed := packed + [Byte(nibble1, nibble)];
        }
        digits := digits + [nibble];
        index := index + 1;
      }
      i := i + 1;
    }
    assert HexStr[..i] == HexStr[..Size];
    count := index / 2;
    WrittenPrefix(packed, orig);
  }

  /**
   * What Hex2BinArray's variables hold after reading HexStr[..i]: the hex
   * digits read so far, the bytes they pack to, Index counting the digits
   * and Nibble1 holding the unpaired last one.
   */
  ghost predicate Scanned(HexStr: seq<uint8>, i: nat, digits: seq<uint8>, packed: seq<uint8>, index: int, nibble1: uint8)
  {
    i <= |HexStr| && digits == HexDigits(HexStr[..i]) && packed == Pack(digits) &&
    index == |digits| && |packed| == index / 2 &&
    (index % 2 == 1 ==> nibble1 == digits[index - 1])
  }

  /** One turn of Hex2BinArray's loop on a byte that is not a hex digit keeps Scanned. */
  lemma ScanStep(HexStr: seq<uint8>, Size: nat, i: nat, digits: seq<uint8>, packed: seq<uint8>, index: int, nibble1: uint8)
    requires i < Size <= |HexStr| && Scanned(HexStr, i, digits, packed, index, nibble1)
    ensures HexValue(HexStr[i]) == 0xFF ==> Scanned(HexStr, i + 1, digits, packed, index, nibble1)
    ensures |HexDigits(HexStr[..i + 1])| <= |HexDigits(HexStr[..Size])|
  {
    HexDigitsNext(HexStr, Size, i);
  }

  /** A hex digit read when Index is even is kept in Nibble1. */
  lemma ScanFirstOfPair(HexStr: seq<uint8>, i: nat, digits: seq<uint8>, packed: seq<uint8>, index: int, nibble1: uint8)
    requires i < |HexStr| && Scanned(HexStr, i, digits, packed, index, nibble1)
    requires HexValue(HexStr[i]) != 0xFF && index % 2 == 0
    ensures Scanned(HexStr, i + 1, digits + [HexValue(HexStr[i])], packed, index + 1, HexValue(HexStr[i]))
  {
    HexDigitsStep(HexStr, i);
    PackStep(digits, HexValue(HexStr[i]));
  }

  /** A hex digit read when Index is odd completes the byte Nibble1 started. */
  lemma ScanSecondOfPair(HexStr: seq<uint8>, i: nat, digits: seq<uint8>, packed: seq<uint8>, index: int, nibble1: uint8)
    requires i < |HexStr| && Scanned(HexStr, i, digits, packed, index, nibble1)
    requires HexValue(HexStr[i]) != 0xFF && index % 2 == 1
    ensures Scanned(HexStr, i + 1, digits + [HexValue(HexStr[i])], packed + [Byte(nibble1, HexValue(HexStr[i]))], index + 1, nibble1)
  {
    HexDigitsStep(HexStr, i);
    PackStep(digits, HexValue(HexStr[i]));
  }

  /** Writing the element after a written prefix extends the prefix by it. */
  lemma WriteAfter(p: seq<uint8>, orig: seq<uint8>, b: uint8)
    requires |p| < |orig|
    ensures (p + orig[|p|..])[|p| := b] == p + [b] + orig[|p| + 1..]
  {
  }

  lemma WrittenPrefix(p: seq<uint8>, orig: seq<uint8>)
    requires |p| <= |orig|
    ensures (p + orig[|p|..])[..|p|] == p && (p + orig[|p|..])[|p|..] == orig[|p|..]
  {
  }

  /** The loop's step on the digits read so far, and the bound they stay under. */
  lemma HexDigitsNext(s: seq<uint8>, size: nat, i: nat)
    requires i < size <= |s|
    ensures HexDigits(s[..i + 1]) ==
      if IsHexDigit(s[i]) then HexDigits(s[..i]) + [HexValue(s[i])] else HexDigits(s[..i])
    ensures |HexDigits(s[..i + 1])| <= |HexDigits(s[..size])|
  {
    HexDigitsStep(s, i);
    HexDigitsOfPrefix(s[..size], i + 1);
    assert s[..size][..i + 1] == s[..i + 1];
  }

  /** Two digits per byte, high nibble first, spelled with the 16-entry digit table. */
  function EncodeHex(table: seq<uint8>, bytes: seq<uint8>): (s: seq<uint8>)
    requires |table| == 16
    ensures |s| == 2 * |bytes|
  {
    if bytes == [] then []
    else
      var b := bytes[|bytes| - 1];
      EncodeHex(table, bytes[..|bytes| - 1]) + [Entry(table, b >> 4), Entry(table, b & 0x0F)]
  }

  /** The two nibbles of every byte, high nibble first. */
  function Nibbles(bytes: seq<uint8>): (d: seq<uint8>)
    ensures |d| == 2 * |bytes|
  {
    if bytes == [] then []
    else
      var b := bytes[|bytes| - 1];
      Nibbles(bytes[..|bytes| - 1]) + [b >> 4, b & 0x0F]
  }

  /** A digit table whose every entry is a hex digit that decodes back to its index. */
  ghost predicate InvertsHex2Bin(table: seq<uint8>)
  {
    |table| == 16 && forall v: uint8 | v < 16 :: IsHexDigit(Entry(table, v)) && HexValue(Entry(table, v)) == v
  }

  lemma HexDigitsOfPair(hi: uint8, lo: uint8)
    requires IsHexDigit(hi) && IsHexDigit(lo)
    ensures HexDigits([hi, lo]) == [HexValue(hi), HexValue(lo)]
  {
    assert [hi, lo][..1] == [hi];
    assert [hi][..0] == [];
  }

  lemma EncodeHexStep(table: seq<uint8>, bytes: seq<uint8>)
    requires |table| == 16 && bytes != []
    ensures EncodeHex(table, bytes) == EncodeHex(table, bytes[..|bytes| - 1]) + [Entry(table, bytes[|bytes| - 1] >> 4), Entry(table, bytes[|bytes| - 1] & 0x0F)]
  {}

  /** With a table that HexValue inverts, the digits of an encoding are the nibbles of the bytes. */
  lemma {:induction false} DecodeEncoding(table: seq<uint8>, bytes: seq<uint8>)
    requires InvertsHex2Bin(table)
    ensures HexDigits(EncodeHex(table, bytes)) == Nibbles(bytes)
    decreases |bytes|
  {
    if bytes != [] {
      var b := bytes[|bytes| - 1];
      var prefix := bytes[..|bytes| - 1];
      EncodeHexStep(table, bytes);
      DecodeEncoding(table, prefix);
      DecodePair(table, b);
      HexDigitsAppend(EncodeHex(table, prefix), [Entry(table, b >> 4), Entry(table, b & 0x0F)]);
    }
  }

  /** The two digits a table that HexValue inverts writes for one byte decode to its nibbles. */
  lemma DecodePair(table: seq<uint8>, b: uint8)
    requires InvertsHex2Bin(table)
    ensures HexDigits([Entry(table, b >> 4), Entry(table, b & 0x0F)]) == [b >> 4, b & 0x0F]
  {
    NibbleBounds(b);
    HexDigitsOfPair(Entry(table, b >> 4), Entry(table, b & 0x0F));
  }

  lemma NibbleBounds(b: uint8)
    ensures b >> 4 < 16 && b & 0x0F < 16
  {
  }

  lemma {:induction false} PackNibbles(bytes: seq<uint8>)
    ensures Pack(Nibbles(bytes)) == bytes
    decreases |bytes|
  {
    if bytes != [] {
      var prefix, last := bytes[..|bytes| - 1], bytes[|bytes| - 1];
      assert bytes == prefix + [last];
      PackNibbles(prefix);
      PackNibblesSnoc(prefix, last);
    }
  }

  lemma PackNibblesSnoc(prefix: seq<uint8>, b: uint8)
    ensures Pack(Nibbles(prefix + [b])) == Pack(Nibbles(prefix)) + [b]
  {
    var d := Nibbles(prefix);
    assert (prefix + [b])[..|prefix|] == prefix;
    assert Nibbles(prefix + [b]) == d + [b >> 4] + [b & 0x0F];
    PackPair(d, b >> 4, b & 0x0F);
    NibblesRejoin(b);
  }

  /** Two more digits after an even number of them add one byte. */
  lemma PackPair(d: seq<uint8>, hi: uint8, lo: uint8)
    requires |d| % 2 == 0
    ensures Pack(d + [hi] + [lo]) == Pack(d) + [Byte(hi, lo)]
  {
    PackStep(d, hi);
    PackStep(d + [hi], lo);
    assert (d + [hi])[|d|] == hi;
  }

  lemma NibblesRejoin(b: uint8)
    ensures Byte(b >> 4, b & 0x0F) == b
  {
  }

  /** Hex2BinArray undoes hex encoding with the intended digit table, for every byte string. */
  lemma Hex2BinArrayInvertsIntendedEncoding(bytes: seq<uint8>)
    ensures Pack(HexDigits(EncodeHex(Bin2HexIntended, bytes))) == bytes
  {
    Bin2HexIntendedInverts();
    DecodeEncoding(Bin2HexIntended, bytes);
    PackNibbles(bytes);
  }

  /** With CMN_Bin2Hex as written, the byte 0xDE encodes to "ED" and decodes to 0xED. */
  lemma Hex2BinArrayMisreadsAsWrittenEncoding()
    ensures EncodeHex(CMN_Bin2Hex, [0xDE]) == [0x45, 0x44]
    ensures Pack(HexDigits(EncodeHex(CMN_Bin2Hex, [0xDE]))) == [0xED]
  {
    var e := EncodeHex(CMN_Bin2Hex, [0xDE]);
    assert e == [0x45, 0x44];
    assert e[..1] == [0x45];
    assert HexDigits(e) == [0x0E, 0x0D];
  }

  // ---------------------------------------------------------------------------
  // GetImagePixel.

  /** C's unsigned int. */
  type unsigned = n: nat | n < 0x1_0000_0000

  /** The fields of Image_t that GetImagePixel reads; Buffer holds bytes. */
  datatype Image = Image(width: unsigned, height: unsigned, lineWidth: unsigned, buffer: seq<uint8>)

  /** y * LineWidth + x * 2, evaluated in unsigned int arithmetic. */
  function PixelOffset(image: Image, x: unsigned, y: unsigned): unsigned
  {
    (y * image.lineWidth + x * 2) % 0x1_0000_0000
  }

  /** Pixel (x, y), or 0 outside the image. The pixel read must lie in the buffer. */
  function GetImagePixel(image: Image, x: unsigned, y: unsigned): (r: uint32)
    requires x < image.width && y < image.height ==> PixelOffset(image, x, y) < |image.buffer|
    ensures x >= image.width || y >= image.height ==> r == 0
    ensures r < 0x100
  {
    if x >= image.width || y >= image.height then 0
    else image.buffer[PixelOffset(image, x, y)] as uint32
  }

  /** The rows of an image laid end to end. */
  function Concat(rows: seq<seq<uint8>>): seq<uint8>
  {
    if rows == [] then [] else rows[0] + Concat(rows[1..])
  }

  lemma {:induction false} ConcatIndex(rows: seq<seq<uint8>>, lineWidth: nat, y: nat, j: nat)
    requires forall k | 0 <= k < |rows| :: |rows[k]| == lineWidth
    requires y < |rows| && j < lineWidth
    ensures y * lineWidth + j < |Concat(rows)| && Concat(rows)[y * lineWidth + j] == rows[y][j]
    decreases |rows|
  {
    var rest := rows[1..];
    assert Concat(rows) == rows[0] + Concat(rest);
    if y == 0 {
      assert y * lineWidth + j == j;
    } else {
      ConcatIndex(rest, lineWidth, y - 1, j);
      assert rest[y - 1] == rows[y];
      assert y * lineWidth == (y - 1) * lineWidth + lineWidth;
    }
  }

  /**
   * For a buffer of Height rows of LineWidth bytes, each at least two bytes
   * per pixel wide and small enough that the offset does not wrap,
   * GetImagePixel reads the first byte of pixel x in row y.
   */
  lemma GetImagePixelReadsRowMajor(rows: seq<seq<uint8>>, image: Image, x: unsigned, y: unsigned)
    requires |rows| == image.height
    requires forall k | 0 <= k < |rows| :: |rows[k]| == image.lineWidth
    requires 2 * image.width <= image.lineWidth
    requires image.height * image.lineWidth <= 0x1_0000_0000
    requires image.buffer == Concat(rows)
    ensures x < image.width && y < image.height ==>
      PixelOffset(image, x, y) < |image.buffer| && GetImagePixel(image, x, y) == rows[y][2 * x] as uint32
  {
    if x < image.width && y < image.height {
      ConcatIndex(rows, image.lineWidth, y, 2 * x);
      OffsetInRange(x, y, image.height, image.lineWidth);
      assert PixelOffset(image, x, y) == y * image.lineWidth + 2 * x;
    }
  }

  /** A byte of row y < height lies before height * lineWidth. */
  lemma OffsetInRange(x: nat, y: nat, height: nat, lineWidth: nat)
    requires 2 * x < lineWidth && y < height
    ensures y * lineWidth + 2 * x < height * lineWidth
  {
    assert (y + 1) * lineWidth <= height * lineWidth;
  }

  // ---------------------------------------------------------------------------
  // Next2Power.

  /** p has exactly one bit set. */
  predicate IsPowerOfTwo(p: uint32)
  {
    p != 0 && p & (p - 1) == 0
  }

  /**
   * Next2Power(v): the smallest power of two that is at least v, for
   * 1 <= v <= 2^31; 0 (by uint32 wrap-around) for v == 0 and for v > 2^31.
   */
  function Next2Power(value: uint32): (r: uint32)
    ensures 1 <= value <= 0x8000_0000 ==> IsPowerOfTwo(r) && value <= r && r >> 1 < value
    ensures value == 0 || value > 0x8000_0000 ==> r == 0
  {
    var v0 := value - 1;
    var v1 := v0 | (v0 >> 1);
    var v2 := v1 | (v1 >> 2);
    var v3 := v2 | (v2 >> 4);
    var v4 := v3 | (v3 >> 8);
    var v5 := v4 | (v4 >> 16);
    v5 + 1
  }

  /** No power of two at least v lies below Next2Power(v). */
  lemma Next2PowerIsLeast(value: uint32, p: uint32)
    requires 1 <= value <= p && IsPowerOfTwo(p)
    ensures Next2Power(value) <= p
  {
  }

  /** Powers of two, 1 << k for k < 32, are left unchanged. */
  lemma Next2PowerFixesPowersOfTwo(k: uint32)
    requires k < 32
    ensures IsPowerOfTwo(1 << k)
    ensures Next2Power(1 << k) == 1 << k
  {
  }

  // ---------------------------------------------------------------------------
  // TrimString.

  /** isspace in the C locale: space, \t, \n, \v, \f and \r. */
  predicate IsSpace(c: uint8)
  {
    c == 0x20 || 0x09 <= c <= 0x0D
  }

  /** strlen: the position of the first NUL. */
  function StrLen(s: seq<uint8>): (n: nat)
    requires 0 in s
    ensures n < |s| && s[n] == 0
    ensures forall k | 0 <= k < n :: s[k] != 0
  {
    if s[0] == 0 then 0 else 1 + StrLen(s[1..])
  }

  /** The characters of a NUL-terminated buffer before its terminator. */
  function CString(s: seq<uint8>): seq<uint8>
    requires 0 in s
  {
    s[..StrLen(s)]
  }

  function TrimLeft(s: seq<uint8>): seq<uint8>
  {
    if s != [] && IsSpace(s[0]) then TrimLeft(s[1..]) else s
  }

  function TrimRight(s: seq<uint8>): seq<uint8>
  {
    if s != [] && IsSpace(s[|s| - 1]) then TrimRight(s[..|s| - 1]) else s
  }

  /** s without its leading and trailing whitespace. */
  function Trimmed(s: seq<uint8>): seq<uint8>
  {
    TrimRight(TrimLeft(s))
  }

  /**
   * TrimString(Input, Output): copies the string Input without leading and
   * trailing whitespace into Output, NUL-terminates it there and returns its
   * length. Output must have room for the trimmed string and its terminator.
   */
  method TrimString(Input: seq<uint8>, Output: array<uint8>) returns (length: int)
    requires 0 in Input
    requires |Trimmed(CString(Input))| < Output.Length
    modifies Output
    ensures length == |Trimmed(CString(Input))|
    ensures Output[..length] == Trimmed(CString(Input))
    ensures Output[length] == 0
    ensures Output[length + 1..] == old(Output[length + 1..])
  {
    length := StrLen(Input);
    var start := SkipLeadingSpace(Input, length);
    length := SkipTrailingSpace(Input, start, length);
    CopyTerminated(Input[start..length], Output);
    length := length - start;
  }

  /** The first loop of TrimString: Start moves past the leading whitespace of Input[..Length]. */
  method SkipLeadingSpace(Input: seq<uint8>, Length: nat) returns (Start: nat)
    requires Length <= |Input|
    ensures Start <= Length && TrimLeft(Input[..Length]) == Input[Start..Length]
  {
    Start := 0;
    while Start < Length
      invariant Start <= Length
      invariant TrimLeft(Input[..Length]) == TrimLeft(Input[Start..Length])
    {
      if !IsSpace(Input[Start]) {
        break;
      }
      TrimLeftStep(Input[..Length], Start);
      Start := Start + 1;
    }
    TrimLeftStop(Input[..Length], Start);
  }

  /** The second loop of TrimString: Length moves back over the trailing whitespace of Input[Start..Length]. */
  method SkipTrailingSpace(Input: seq<uint8>, Start: nat, Length: nat) returns (End: nat)
    requires Start <= Length <= |Input|
    ensures Start <= End <= Length && TrimRight(Input[Start..Length]) == Input[Start..End]
  {
    End := Length;
    while End > Start
      invariant Start <= End <= Length
      invariant TrimRight(Input[Start..Length]) == TrimRight(Input[Start..End])
    {
      if !IsSpace(Input[End - 1]) {
        break;
      }
      TrimRightStep(Input, Start, End);
      End := End - 1;
    }
  }

  /** memcpy(Output, src, |src|) followed by Output[|src|] = 0. */
  method CopyTerminated(src: seq<uint8>, Output: array<uint8>)
    requires |src| < Output.Length
    modifies Output
    ensures Output[..|src|] == src && Output[|src|] == 0
    ensures Output[|src| + 1..] == old(Output[|src| + 1..])
  {
    forall k | 0 <= k < |src| {
      Output[k] := src[k];
    }
    Output[|src|] := 0;
  }

  lemma TrimLeftStep(s: seq<uint8>, i: nat)
    requires i < |s| && IsSpace(s[i])
    ensures TrimLeft(s[i..]) == TrimLeft(s[i + 1..])
  {
    assert s[i..][1..] == s[i + 1..];
  }

  lemma TrimLeftStop(s: seq<uint8>, i: nat)
    requires i <= |s| && (i < |s| ==> !IsSpace(s[i]))
    ensures TrimLeft(s[i..]) == s[i..]
  {
  }

  lemma TrimRightStep(s: seq<uint8>, i: nat, j: nat)
    requires i < j <= |s| && IsSpace(s[j - 1])
    ensures TrimRight(s[i..j]) == TrimRight(s[i..j - 1])
  {
    assert s[i..j][..j - 1 - i] == s[i..j - 1];
  }

  /** The trimmed string neither starts nor ends with whitespace. */
  lemma {:induction false} TrimmedHasNoOuterSpace(s: seq<uint8>)
    ensures Trimmed(s) != [] ==> !IsSpace(Trimmed(s)[0]) && !IsSpace(Trimmed(s)[|Trimmed(s)| - 1])
  {
    var i := TrimLeftDrops(s);
    TrimRightKeepsFirst(TrimLeft(s));
  }

  /** TrimLeft(s) is s after some leading whitespace, and starts with a non-space. */
  lemma {:induction false} TrimLeftDrops(s: seq<uint8>) returns (i: nat)
    ensures i <= |s| && TrimLeft(s) == s[i..]
    ensures forall k | 0 <= k < i :: IsSpace(s[k])
    ensures i < |s| ==> !IsSpace(s[i])
    decreases |s|
  {
    if s != [] && IsSpace(s[0]) {
      var i' := TrimLeftDrops(s[1..]);
      i := i' + 1;
      assert s[1..][i'..] == s[i..];
    } else {
      i := 0;
    }
  }

  /** TrimRight(s) is s before some trailing whitespace, and ends with a non-space. */
  lemma {:induction false} TrimRightDrops(s: seq<uint8>) returns (j: nat)
    ensures j <= |s| && TrimRight(s) == s[..j]
    ensures forall k | j <= k < |s| :: IsSpace(s[k])
    ensures 0 < j ==> !IsSpace(s[j - 1])
    decreases |s|
  {
    if s != [] && IsSpace(s[|s| - 1]) {
      j := TrimRightDrops(s[..|s| - 1]);
      assert s[..|s| - 1][..j] == s[..j];
    } else {
      j := |s|;
    }
  }

  /** Dropping trailing whitespace keeps the first character unless nothing is left. */
  lemma TrimRightKeepsFirst(t: seq<uint8>)
    ensures TrimRight(t) != [] ==> TrimRight(t)[0] == t[0]
    ensures TrimRight(t) != [] ==> !IsSpace(TrimRight(t)[|TrimRight(t)| - 1])
  {
    var j := TrimRightDrops(t);
  }

  /** Trimming yields the empty string exactly when the input is all whitespace. */
  lemma TrimmedEmptyIffAllSpace(s: seq<uint8>)
    ensures Trimmed(s) == [] <==> forall k | 0 <= k < |s| :: IsSpace(s[k])
  {
    var i := TrimLeftDrops(s);
    var j := TrimRightDrops(s[i..]);
    if Trimmed(s) == [] {
      assert j == 0;
      assert i == |s|;
    }
  }

  /** The trimmed string is a slice of the input with only whitespace around it. */
  lemma TrimmedIsSlice(s: seq<uint8>) returns (i: nat, j: nat)
    ensures i <= j <= |s| && Trimmed(s) == s[i..j]
    ensures forall k | 0 <= k < i :: IsSpace(s[k])
    ensures forall k | j <= k < |s| :: IsSpace(s[k])
  {
    i := TrimLeftDrops(s);
    var j' := TrimRightDrops(s[i..]);
    j := i + j';
    assert s[i..][..j'] == s[i..j];
    forall k | j <= k < |s|
      ensures IsSpace(s[k])
    {
      assert s[i..][k - i] == s[k];
    }
  }

  /** Trimming twice is trimming once. */
  lemma TrimmedIsIdempotent(s: seq<uint8>)
    ensures Trimmed(Trimmed(s)) == Trimmed(s)
  {
    var t := Trimmed(s);
    TrimmedHasNoOuterSpace(s);
    if t != [] {
      assert TrimLeft(t) == t;
      assert TrimRight(t) == t;
    }
  }
}
