/** Bytes, little-endian numbers, and the bitwise operators of unbounded integers. */
module Bytes {
  type byte = b: int | 0 <= b < 256

  function Pow2(k: nat): (p: nat)
    ensures p > 0
  {
    if k == 0 then 1 else 2 * Pow2(k - 1)
  }

  lemma {:induction false} Pow2Adds(j: nat, k: nat)
    ensures Pow2(j + k) == Pow2(j) * Pow2(k)
  {
    if j > 0 {
      Pow2Adds(j - 1, k);
      assert Pow2(j + k) == 2 * Pow2(j - 1 + k);
      assert Pow2(j) * Pow2(k) == 2 * (Pow2(j - 1) * Pow2(k));
    }
  }

  lemma Pow2Doubles(k: nat, p: nat)
    requires Pow2(k) == p
    ensures Pow2(2 * k) == p * p
  {
    Pow2Adds(k, k);
    assert k + k == 2 * k;
  }

  lemma Pow2At128(k: nat)
    requires k == 8
    ensures Pow2(16 * k) == 0x1_00000000_00000000_00000000_00000000
    ensures Pow2(8 * k) == 0x1_0000_0000_0000_0000
  {
    assert Pow2(k) == 256;
    Pow2Doubles(k, 256);
    Pow2Doubles(2 * k, 0x1_0000);
    Pow2Doubles(4 * k, 0x1_0000_0000);
    Pow2Doubles(8 * k, 0x1_0000_0000_0000_0000);
  }

  lemma Pow2Byte(i: nat)
    ensures Pow2(8 * (i + 1)) == 256 * Pow2(8 * i)
  {
    Pow2Adds(8, 8 * i);
  }

  // ---------------------------------------------------------------------------
  // Bitwise operators
  // ---------------------------------------------------------------------------

  function BitOr(a: nat, b: nat): nat {
    if a == 0 then b else if b == 0 then a
    else (if a % 2 == 1 || b % 2 == 1 then 1 else 0) + 2 * BitOr(a / 2, b / 2)
  }

  function BitAnd(a: nat, b: nat): nat {
    if a == 0 || b == 0 then 0
    else (if a % 2 == 1 && b % 2 == 1 then 1 else 0) + 2 * BitAnd(a / 2, b / 2)
  }

  function BitXor(a: nat, b: nat): nat {
    if a == 0 then b else if b == 0 then a
    else (if a % 2 != b % 2 then 1 else 0) + 2 * BitXor(a / 2, b / 2)
  }

  function Shl(a: nat, k: nat): nat {
    a * Pow2(k)
  }

  function Shr(a: nat, k: nat): nat {
    if k == 0 then a else Shr(a / 2, k - 1)
  }

  /** A shift to the right is the quotient: what it cuts off is less than 2^k. */
  lemma {:induction false} Cut(n: nat, k: nat) returns (low: nat)
    ensures n == Shl(Shr(n, k), k) + low && low < Pow2(k)
  {
    if k == 0 {
      low := 0;
    } else {
      low := Cut(n / 2, k - 1);
      ShlHalves(Shr(n / 2, k - 1), k);
      low := 2 * low + n % 2;
    }
  }

  lemma {:induction false} ShrOf(h: nat, low: nat, k: nat)
    requires low < Pow2(k)
    ensures Shr(Shl(h, k) + low, k) == h
  {
    if k > 0 {
      ShlHalves(h, k);
      assert (Shl(h, k) + low) / 2 == Shl(h, k - 1) + low / 2;
      ShrOf(h, low / 2, k - 1);
    }
  }

  /** Or-ing in a number shifted past the other's bits is adding it. */
  lemma {:induction false} OrIsPlus(a: nat, b: nat, k: nat)
    requires a < Pow2(k)
    ensures BitOr(a, Shl(b, k)) == a + Shl(b, k)
  {
    if a != 0 && b != 0 {
      assert Shl(b, k) == 2 * Shl(b, k - 1) by {
        assert b * (2 * Pow2(k - 1)) == 2 * (b * Pow2(k - 1));
      }
      OrIsPlus(a / 2, b, k - 1);
    }
  }

  lemma {:induction false} OrCommutes(a: nat, b: nat)
    ensures BitOr(a, b) == BitOr(b, a)
  {
    if a != 0 && b != 0 {
      OrCommutes(a / 2, b / 2);
    }
  }

  /** And-ing with 2^k - 1 keeps the low k bits. */
  lemma AndMask(a: nat, k: nat)
    ensures BitAnd(a, Pow2(k) - 1) == a % Pow2(k)
  {
    var q := AndMaskSplit(a, k);
    ModIs(a, q, Pow2(k), BitAnd(a, Pow2(k) - 1));
  }

  lemma {:induction false} AndMaskSplit(a: nat, k: nat) returns (q: nat)
    ensures BitAnd(a, Pow2(k) - 1) < Pow2(k)
    ensures a == q * Pow2(k) + BitAnd(a, Pow2(k) - 1)
  {
    if k == 0 {
      q := a;
    } else {
      var p := Pow2(k - 1);
      q := AndMaskSplit(a / 2, k - 1);
      AndUnfold(a, 2 * p - 1);
      assert q * (2 * p) == 2 * (q * p);
    }
  }

  lemma LowByte(a: nat)
    ensures BitAnd(a, 0xff) == a % 256
  {
    var k: nat := 8;
    assert Pow2(k) == 256;
    AndMask(a, k);
  }

  lemma MulAtLeast(x: int, m: int)
    requires x >= 1 && m >= 0
    ensures x * m >= m
  {
  }

  lemma Distributes(a: int, b: int, m: int)
    ensures (a - b) * m == a * m - b * m
  {
  }

  lemma ModIs(a: int, q: int, m: nat, r: nat)
    requires m > 0 && r < m && a == q * m + r
    ensures a % m == r
  {
    var q', r' := a / m, a % m;
    Distributes(q', q, m);
    Distributes(q, q', m);
    if q < q' {
      MulAtLeast(q' - q, m);
    } else if q' < q {
      MulAtLeast(q - q', m);
    }
  }

  lemma {:induction false} XorTwice(a: nat, b: nat)
    ensures BitXor(BitXor(a, b), b) == a
  {
    if a != 0 && b != 0 {
      XorTwice(a / 2, b / 2);
      var x := BitXor(a, b);
      assert x / 2 == BitXor(a / 2, b / 2);
    } else if a == 0 {
      XorSelf(b);
    }
  }

  lemma {:induction false} XorSelf(b: nat)
    ensures BitXor(b, b) == 0
  {
    if b != 0 {
      XorSelf(b / 2);
    }
  }

  lemma {:induction false} XorZero(a: nat, b: nat)
    ensures BitXor(a, b) == 0 <==> a == b
  {
    if a != 0 && b != 0 {
      XorZero(a / 2, b / 2);
    }
  }

  lemma {:induction false} OrZero(a: nat, b: nat)
    ensures BitOr(a, b) == 0 <==> a == 0 && b == 0
  {
    if a != 0 && b != 0 {
      OrZero(a / 2, b / 2);
    }
  }

  lemma {:induction false} XorBound(a: nat, b: nat, k: nat)
    requires a < Pow2(k) && b < Pow2(k)
    ensures BitXor(a, b) < Pow2(k)
  {
    if a != 0 && b != 0 {
      XorBound(a / 2, b / 2, k - 1);
    }
  }

  function XorByte(a: byte, b: byte): byte {
    assert Pow2(8) == 256;
    XorBound(a, b, 8);
    BitXor(a, b)
  }

  /** And works digit by digit in base 256. */
  lemma AndBytes(x: byte, a: nat, y: byte, b: nat)
    ensures BitAnd(x + 256 * a, y + 256 * b) == BitAnd(x, y) + 256 * BitAnd(a, b)
  {
    AndDigits(x, a, y, b, 8);
    assert Pow2(8) == 256;
  }

  lemma {:induction false} AndDigits(x: nat, a: nat, y: nat, b: nat, k: nat)
    requires x < Pow2(k) && y < Pow2(k)
    ensures BitAnd(x + Shl(a, k), y + Shl(b, k)) == BitAnd(x, y) + Shl(BitAnd(a, b), k)
  {
    if k > 0 {
      var m, n, c := Shl(a, k - 1), Shl(b, k - 1), Shl(BitAnd(a, b), k - 1);
      ShlHalves(a, k);
      ShlHalves(b, k);
      ShlHalves(BitAnd(a, b), k);
      AndDigits(x / 2, a, y / 2, b, k - 1);
      AndUnfold(x, y);
      AndUnfold(x + 2 * m, y + 2 * n);
      assert (x + 2 * m) / 2 == x / 2 + m && (y + 2 * n) / 2 == y / 2 + n;
    }
  }

  lemma ShlHalves(a: nat, k: nat)
    requires k > 0
    ensures Shl(a, k) == 2 * Shl(a, k - 1)
  {
    assert a * (2 * Pow2(k - 1)) == 2 * (a * Pow2(k - 1));
  }

  lemma AndUnfold(a: nat, b: nat)
    ensures BitAnd(a, b) == (if a % 2 == 1 && b % 2 == 1 then 1 else 0) + 2 * BitAnd(a / 2, b / 2)
  {
  }

  // ---------------------------------------------------------------------------
  // Little-endian numbers
  // ---------------------------------------------------------------------------

  function LE(bytes: seq<byte>): nat {
    if bytes == [] then 0 else bytes[0] + 256 * LE(bytes[1..])
  }

  function ToLE(n: nat, len: nat): (bytes: seq<byte>)
    ensures |bytes| == len
  {
    if len == 0 then [] else [n % 256] + ToLE(n / 256, len - 1)
  }

  lemma {:induction false} LEBound(bytes: seq<byte>)
    ensures LE(bytes) < Pow2(8 * |bytes|)
  {
    if bytes != [] {
      LEBound(bytes[1..]);
      Pow2Byte(|bytes| - 1);
    }
  }

  lemma {:induction false} LESnoc(bytes: seq<byte>, b: byte)
    ensures LE(bytes + [b]) == LE(bytes) + Shl(b, 8 * |bytes|)
  {
    if bytes == [] {
      assert LE([b]) == b + 256 * LE([b][1..]);
    } else {
      LESnoc(bytes[1..], b);
      assert (bytes + [b])[1..] == bytes[1..] + [b];
      Pow2Byte(|bytes| - 1);
      assert b * (256 * Pow2(8 * (|bytes| - 1))) == 256 * (b * Pow2(8 * (|bytes| - 1)));
    }
  }

  lemma {:induction false} LERoundTrip(n: nat, len: nat)
    requires n < Pow2(8 * len)
    ensures LE(ToLE(n, len)) == n
  {
    if len > 0 {
      Pow2Byte(len - 1);
      LERoundTrip(n / 256, len - 1);
      assert ToLE(n, len)[1..] == ToLE(n / 256, len - 1);
    }
  }

  /** Shift-and-OR decoding is the little-endian value. */
  method DecodeLE(bytes: seq<byte>) returns (n: nat)
    ensures n == LE(bytes)
  {
    n := 0;
    for i := 0 to |bytes|
      invariant n == LE(bytes[..i])
    {
      assert bytes[..i + 1] == bytes[..i] + [bytes[i]];
      LESnoc(bytes[..i], bytes[i]);
      LEBound(bytes[..i]);
      OrIsPlus(n, bytes[i], 8 * i);
      n := BitOr(n, Shl(bytes[i], i * 8));
    }
    assert bytes[..|bytes|] == bytes;
  }
}
