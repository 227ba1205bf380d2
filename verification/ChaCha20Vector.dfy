/** The quarter round meets the test vector of section 2.1.1 of RFC 8439. */
module ChaCha20Vector {
  import opened Bytes
  import opened ChaCha20

  lemma XorHalf(a: nat, b: nat)
    ensures BitXor(a, b) == (if a % 2 != b % 2 then 1 else 0) + 2 * BitXor(a / 2, b / 2)
  {
  }

  /** The low k bits and the bits above them do not mix. */
  lemma {:induction false} XorParts(a: nat, x: nat, b: nat, y: nat, k: nat)
    requires x < Pow2(k) && y < Pow2(k)
    ensures BitXor(Shl(a, k) + x, Shl(b, k) + y) == Shl(BitXor(a, b), k) + BitXor(x, y)
  {
    if k > 0 {
      var s, t := Shl(a, k) + x, Shl(b, k) + y;
      ShlHalves(a, k);
      ShlHalves(b, k);
      ShlHalves(BitXor(a, b), k);
      assert s / 2 == Shl(a, k - 1) + x / 2 && t / 2 == Shl(b, k - 1) + y / 2;
      XorParts(a, x / 2, b, y / 2, k - 1);
      XorHalf(s, t);
      XorHalf(x, y);
    }
  }

  /** The exclusive or of two hexadecimal digits, bit by bit. */
  function DigitXor(x: nat, y: nat): nat {
    (if x % 2 != y % 2 then 1 else 0) + 2 * (if x / 2 % 2 != y / 2 % 2 then 1 else 0)
    + 4 * (if x / 4 % 2 != y / 4 % 2 then 1 else 0) + 8 * (if x / 8 % 2 != y / 8 % 2 then 1 else 0)
  }

  lemma DigitXorIs(x: nat, y: nat)
    requires x < 16 && y < 16
    ensures BitXor(x, y) == DigitXor(x, y)
  {
    hide BitXor;
    XorHalf(x, y);
    XorHalf(x / 2, y / 2);
    XorHalf(x / 2 / 2, y / 2 / 2);
    XorHalf(x / 2 / 2 / 2, y / 2 / 2 / 2);
    assert x / 2 / 2 == x / 4 && x / 2 / 2 / 2 == x / 8 && x / 2 / 2 / 2 / 2 == 0;
    assert y / 2 / 2 == y / 4 && y / 2 / 2 / 2 == y / 8 && y / 2 / 2 / 2 / 2 == 0;
    XorZero(0, 0);
  }

  lemma NextDigit(a: nat, b: nat, c: nat, x: nat, y: nat)
    requires BitXor(a, b) == c && x < 16 && y < 16
    ensures BitXor(16 * a + x, 16 * b + y) == 16 * c + DigitXor(x, y)
  {
    assert Pow2(4) == 16;
    XorParts(a, x, b, y, 4);
    DigitXorIs(x, y);
  }

  /** A word by its eight hexadecimal digits. */
  datatype Digits = Digits(d0: nat, d1: nat, d2: nat, d3: nat, d4: nat, d5: nat, d6: nat, d7: nat)
  {
    predicate Valid() {
      d0 < 16 && d1 < 16 && d2 < 16 && d3 < 16 && d4 < 16 && d5 < 16 && d6 < 16 && d7 < 16
    }

    function Hex(): word
      requires Valid()
    {
      0x10000000 * d0 + 0x1000000 * d1 + 0x100000 * d2 + 0x10000 * d3 + 0x1000 * d4 + 0x100 * d5 + 0x10 * d6 + d7
    }
  }

  lemma XorHex(a: Digits, b: Digits, c: Digits)
    requires a.Valid() && b.Valid() && c.Valid()
    requires DigitXor(a.d0, b.d0) == c.d0 && DigitXor(a.d1, b.d1) == c.d1 && DigitXor(a.d2, b.d2) == c.d2
    requires DigitXor(a.d3, b.d3) == c.d3 && DigitXor(a.d4, b.d4) == c.d4 && DigitXor(a.d5, b.d5) == c.d5
    requires DigitXor(a.d6, b.d6) == c.d6 && DigitXor(a.d7, b.d7) == c.d7
    ensures Xor32(a.Hex(), b.Hex()) == c.Hex()
  {
    hide BitXor, DigitXor;
    DigitXorIs(a.d0, b.d0);
    NextDigit(a.d0, b.d0, c.d0, a.d1, b.d1);
    var a2, b2, c2 := 16 * a.d0 + a.d1, 16 * b.d0 + b.d1, 16 * c.d0 + c.d1;
    NextDigit(a2, b2, c2, a.d2, b.d2);
    var a3, b3, c3 := 16 * a2 + a.d2, 16 * b2 + b.d2, 16 * c2 + c.d2;
    NextDigit(a3, b3, c3, a.d3, b.d3);
    var a4, b4, c4 := 16 * a3 + a.d3, 16 * b3 + b.d3, 16 * c3 + c.d3;
    NextDigit(a4, b4, c4, a.d4, b.d4);
    var a5, b5, c5 := 16 * a4 + a.d4, 16 * b4 + b.d4, 16 * c4 + c.d4;
    NextDigit(a5, b5, c5, a.d5, b.d5);
    var a6, b6, c6 := 16 * a5 + a.d5, 16 * b5 + b.d5, 16 * c5 + c.d5;
    NextDigit(a6, b6, c6, a.d6, b.d6);
    var a7, b7, c7 := 16 * a6 + a.d6, 16 * b6 + b.d6, 16 * c6 + c.d6;
    NextDigit(a7, b7, c7, a.d7, b.d7);
  }

  lemma Powers()
    ensures Pow2(7) == 0x80 && Pow2(8) == 0x100 && Pow2(12) == 0x1000 && Pow2(16) == 0x1_0000
    ensures Pow2(20) == 0x10_0000 && Pow2(24) == 0x100_0000 && Pow2(25) == 0x200_0000
  {
    assert Pow2(4) == 16;
    Pow2Adds(4, 3);
    Pow2Adds(4, 4);
    Pow2Adds(8, 4);
    Pow2Adds(8, 8);
    Pow2Adds(16, 4);
    Pow2Adds(16, 8);
    Pow2Adds(24, 1);
  }

  lemma Rotated(n: word, r: nat, h: nat, l: nat, p: nat, q: nat)
    requires 0 < r < 32 && Pow2(r) == p && Pow2(32 - r) == q && l < q && n == h * q + l
    ensures Rotl32(n, r) == l * p + h
  {
    RotlOf(n, r, h, l);
  }

  // ---------------------------------------------------------------------------
  // The vector
  // ---------------------------------------------------------------------------

  lemma FirstHalf()
    ensures Half(Quad(0x11111111, 0x01020304, 0x9b8d6f43, 0x01234567), 16, 12) == Quad(0x12131415, 0xd8177edf, 0xecff8273, 0x51721330)
  {
    hide BitXor, Rotl32, DigitXor, Xor32;
    Powers();
    XorFirst();
    assert 0x11111111 + 0x01020304 == 0x12131415;
    Rotated(0x13305172, 16, 0x1330, 0x5172, 0x1_0000, 0x1_0000);
    assert (0x9b8d6f43 + 0x51721330) == 0xecff8273;
    Rotated(0xedfd8177, 12, 0xedf, 0xd8177, 0x1000, 0x10_0000);
  }

  lemma XorFirst()
    ensures Xor32(0x01234567, 0x12131415) == 0x13305172 && Xor32(0x01020304, 0xecff8273) == 0xedfd8177
  {
    hide BitXor, Xor32;
    XorHex(Digits(0, 1, 2, 3, 4, 5, 6, 7), Digits(1, 2, 1, 3, 1, 4, 1, 5), Digits(1, 3, 3, 0, 5, 1, 7, 2));
    XorHex(Digits(0, 1, 0, 2, 0, 3, 0, 4), Digits(14, 12, 15, 15, 8, 2, 7, 3), Digits(14, 13, 15, 13, 8, 1, 7, 7));
  }

  lemma XorSecond()
    ensures Xor32(0x51721330, 0xea2a92f4) == 0xbb5881c4 && Xor32(0xd8177edf, 0x4581472e) == 0x9d9639f1
  {
    hide BitXor, Xor32;
    XorHex(Digits(5, 1, 7, 2, 1, 3, 3, 0), Digits(14, 10, 2, 10, 9, 2, 15, 4), Digits(11, 11, 5, 8, 8, 1, 12, 4));
    XorHex(Digits(13, 8, 1, 7, 7, 14, 13, 15), Digits(4, 5, 8, 1, 4, 7, 2, 14), Digits(9, 13, 9, 6, 3, 9, 15, 1));
  }

  lemma SecondHalf()
    ensures Half(Quad(0x12131415, 0xd8177edf, 0xecff8273, 0x51721330), 8, 7) == Quad(0xea2a92f4, 0xcb1cf8ce, 0x4581472e, 0x5881c4bb)
  {
    hide BitXor, Rotl32, DigitXor, Xor32;
    Powers();
    XorSecond();
    assert 0x12131415 + 0xd8177edf == 0xea2a92f4;
    Rotated(0xbb5881c4, 8, 0xbb, 0x5881c4, 0x100, 0x100_0000);
    assert (0xecff8273 + 0x5881c4bb) % 0x1_0000_0000 == 0x4581472e;
    Rotated(0x9d9639f1, 7, 0x4e, 0x19639f1, 0x80, 0x200_0000);
  }

  /** The input and output words of the vector. */
  lemma QuarterVector()
    ensures Quarter(Quad(0x11111111, 0x01020304, 0x9b8d6f43, 0x01234567)) == Quad(0xea2a92f4, 0xcb1cf8ce, 0x4581472e, 0x5881c4bb)
  {
    hide Half;
    FirstHalf();
    SecondHalf();
  }
}
