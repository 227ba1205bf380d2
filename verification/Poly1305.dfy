/** The Poly1305 one-time authenticator (section 2.5 of RFC 8439). */
module Poly1305 {
  import opened Bytes

  /** 2^130 - 5 */
  const P: nat := 0x3_ffffffff_ffffffff_ffffffff_fffffffb

  /** 2^128 */
  const WORD: nat := 0x1_00000000_00000000_00000000_00000000

  lemma Constants()
    ensures P == Pow2(130) - 5 && WORD == Pow2(128)
  {
    Pow2At128(8);
    Pow2Adds(2, 128);
  }

  function Pow(b: nat, e: nat): nat {
    if e == 0 then 1 else b * Pow(b, e - 1)
  }

  // ---------------------------------------------------------------------------
  // The polynomial the standard defines
  // ---------------------------------------------------------------------------

  /** The message in 16-byte chunks, the last one possibly shorter. */
  function Chunks(msg: seq<byte>): (chunks: seq<seq<byte>>)
    decreases |msg|
  {
    if msg == [] then []
    else if |msg| <= 16 then [msg]
    else [msg[..16]] + Chunks(msg[16..])
  }

  /** A chunk's number: its little-endian value with a one bit beyond its last byte. */
  function Coefficient(chunk: seq<byte>): nat {
    LE(chunk) + Pow2(8 * |chunk|)
  }

  function Coefficients(chunks: seq<seq<byte>>): (cs: seq<nat>)
    ensures |cs| == |chunks|
  {
    if chunks == [] then [] else [Coefficient(chunks[0])] + Coefficients(chunks[1..])
  }

  /** c1*r^q + c2*r^(q-1) + ... + cq*r */
  function PolySum(cs: seq<nat>, r: nat): nat {
    if cs == [] then 0 else cs[0] * Pow(r, |cs|) + PolySum(cs[1..], r)
  }

  /** The clamp of section 2.5.1: bytes 3, 7, 11, 15 lose their top four bits, 4, 8, 12 their bottom two. */
  function ClampMask(i: nat): byte {
    if i % 4 == 3 then 0x0f else if i % 4 == 0 && i > 0 then 0xfc else 0xff
  }

  function AndByte(b: byte, mask: byte): (r: byte) {
    AndBound(b, mask);
    BitAnd(b, mask)
  }

  lemma {:induction false} AndBound(a: nat, b: nat)
    ensures BitAnd(a, b) <= a
  {
    if a != 0 && b != 0 {
      AndBound(a / 2, b / 2);
    }
  }

  function Clamp(bytes: seq<byte>): (r: seq<byte>)
    ensures |r| == |bytes|
  {
    seq(|bytes|, i requires 0 <= i < |bytes| => AndByte(bytes[i], ClampMask(i)))
  }

  function R(key: seq<byte>): nat
    requires |key| == 32
  {
    LE(Clamp(key[..16]))
  }

  function S(key: seq<byte>): nat
    requires |key| == 32
  {
    LE(key[16..])
  }

  function Tag(key: seq<byte>, msg: seq<byte>): (tag: seq<byte>)
    requires |key| == 32
    ensures |tag| == 16
  {
    ToLE((PolySum(Coefficients(Chunks(msg)), R(key)) % P + S(key)) % WORD, 16)
  }

  // ---------------------------------------------------------------------------
  // The clamp is the mask of the standard
  // ---------------------------------------------------------------------------

  const R_MASK: nat := 0x0ffffffc_0ffffffc_0ffffffc_0fffffff

  function MaskBytes(n: nat): (m: seq<byte>)
    ensures |m| == n && forall i :: 0 <= i < n ==> m[i] == ClampMask(i)
  {
    seq(n, (i: nat) => ClampMask(i))
  }

  lemma {:induction false} AndIsBytewise(a: seq<byte>, m: seq<byte>, r: seq<byte>)
    requires |a| == |m| == |r| && forall i :: 0 <= i < |a| ==> r[i] == AndByte(a[i], m[i])
    ensures BitAnd(LE(a), LE(m)) == LE(r)
  {
    if a != [] {
      AndIsBytewise(a[1..], m[1..], r[1..]);
      AndBytes(a[0], LE(a[1..]), m[0], LE(m[1..]));
    }
  }

  lemma LE4(bytes: seq<byte>)
    requires |bytes| >= 4
    ensures LE(bytes) == bytes[0] + 0x100 * bytes[1] + 0x10000 * bytes[2] + 0x1000000 * bytes[3] + 0x100000000 * LE(bytes[4..])
  {
    var t := bytes[1..];
    var u := t[1..];
    var v := u[1..];
    assert LE(bytes) == bytes[0] + 256 * LE(t);
    assert LE(t) == bytes[1] + 256 * LE(u);
    assert LE(u) == bytes[2] + 256 * LE(v);
    assert LE(v) == bytes[3] + 256 * LE(v[1..]);
    assert v[1..] == bytes[4..];
  }

  lemma MaskValue()
    ensures LE(MaskBytes(16)) == R_MASK
  {
    var m := MaskBytes(16);
    LE4(m);
    LE4(m[4..]);
    LE4(m[8..]);
    LE4(m[12..]);
    assert m[4..][4..] == m[8..] && m[8..][4..] == m[12..] && m[12..][4..] == [];
  }

  /** Clamping the bytes is and-ing the number with the mask of section 2.5. */
  lemma ClampIsMask(key: seq<byte>)
    requires |key| == 32
    ensures R(key) == BitAnd(LE(key[..16]), R_MASK)
  {
    MaskValue();
    AndIsBytewise(key[..16], MaskBytes(16), Clamp(key[..16]));
  }

  // ---------------------------------------------------------------------------
  // Horner's rule modulo P
  // ---------------------------------------------------------------------------

  lemma {:induction false} PolySnoc(cs: seq<nat>, c: nat, r: nat)
    ensures PolySum(cs + [c], r) == (PolySum(cs, r) + c) * r
  {
    if cs == [] {
      assert cs + [c] == [c];
      assert Pow(r, 1) == r * Pow(r, 0) == r;
      assert [c][1..] == [];
    } else {
      PolySnoc(cs[1..], c, r);
      assert (cs + [c])[1..] == cs[1..] + [c];
      var e := |cs|;
      PowShift(cs[0], r, e);
      Distribute(cs[0] * Pow(r, e), PolySum(cs[1..], r) + c, r);
    }
  }

  lemma PowShift(c: nat, r: nat, e: nat)
    ensures c * Pow(r, e + 1) == c * Pow(r, e) * r
  {
    assert Pow(r, e + 1) == Pow(r, e) * r;
  }

  lemma Distribute(a: int, b: int, r: int)
    ensures (a + b) * r == a * r + b * r
  {
  }

  lemma ModStep(x: nat, c: nat, r: nat)
    ensures ((x % P + c) * r) % P == ((x + c) * r) % P
  {
    var q := x / P;
    var y := (x % P + c) * r;
    assert x == q * P + x % P;
    Distribute(q * P, x % P + c, r);
    assert q * P * r == (q * r) * P;
    var q' := y / P;
    ModIs((x + c) * r, q * r + q', P, y % P);
  }

  lemma {:induction false} ChunkAt(msg: seq<byte>, i: nat)
    requires 16 * i < |msg|
    ensures i < |Chunks(msg)|
    ensures Chunks(msg)[i] == msg[16 * i..if 16 * i + 16 <= |msg| then 16 * i + 16 else |msg|]
    decreases i
  {
    if i == 0 {
      if |msg| <= 16 {
        assert msg[..|msg|] == msg;
      }
    } else {
      var rest := msg[16..];
      ChunkAt(rest, i - 1);
      var j := 16 * (i - 1);
      var end := if j + 16 <= |rest| then j + 16 else |rest|;
      assert Chunks(msg)[i] == Chunks(rest)[i - 1];
      assert rest[j..end] == msg[j + 16..end + 16];
    }
  }

  lemma {:induction false} ChunkCount(msg: seq<byte>)
    ensures |Chunks(msg)| == (|msg| + 15) / 16
    decreases |msg|
  {
    if |msg| > 16 {
      ChunkCount(msg[16..]);
    }
  }

  lemma {:induction false} CoefficientsSnoc(chunks: seq<seq<byte>>, chunk: seq<byte>)
    ensures Coefficients(chunks + [chunk]) == Coefficients(chunks) + [Coefficient(chunk)]
  {
    if chunks == [] {
      assert chunks + [chunk] == [chunk];
      assert [chunk][1..] == [];
    } else {
      CoefficientsSnoc(chunks[1..], chunk);
      assert (chunks + [chunk])[1..] == chunks[1..] + [chunk];
    }
  }

  // ---------------------------------------------------------------------------
  // The implementation
  // ---------------------------------------------------------------------------

  lemma AndFull(b: byte, mask: byte, k: nat)
    requires mask == Pow2(k) - 1 && b < Pow2(k)
    ensures AndByte(b, mask) == b
  {
    AndMask(b, k);
    ModIs(b, 0, Pow2(k), b);
  }

  lemma ClampBytes(key: seq<byte>, bytes: seq<byte>)
    requires |key| == |bytes| == 16
    requires forall i :: 0 <= i < 16 && ClampMask(i) == 0xff ==> bytes[i] == key[i]
    requires forall i :: 0 <= i < 16 && ClampMask(i) != 0xff ==> bytes[i] == AndByte(key[i], ClampMask(i))
    ensures bytes == Clamp(key)
  {
    forall i | 0 <= i < 16 ensures bytes[i] == AndByte(key[i], ClampMask(i)) {
      if ClampMask(i) == 0xff {
        assert Pow2(8) == 256;
        AndFull(key[i], ClampMask(i), 8);
      }
    }
  }

  method MaskAt(bytes: array<byte>, i: nat, mask: byte)
    requires i < bytes.Length
    modifies bytes
    ensures bytes[..] == old(bytes[..])[i := AndByte(old(bytes[i]), mask)]
  {
    bytes[i] := AndByte(bytes[i], mask);
  }

  method ClampedR(key: seq<byte>) returns (r: nat)
    requires |key| == 32
    ensures r == R(key)
  {
    var half := key[..16];
    var rBytes := new byte[16](i requires 0 <= i < 16 => half[i]);
    MaskAt(rBytes, 3, 0x0f);
    MaskAt(rBytes, 7, 0x0f);
    MaskAt(rBytes, 11, 0x0f);
    MaskAt(rBytes, 15, 0x0f);
    MaskAt(rBytes, 4, 0xfc);
    MaskAt(rBytes, 8, 0xfc);
    MaskAt(rBytes, 12, 0xfc);
    ClampBytes(half, rBytes[..]);
    r := DecodeLE(rBytes[..]);
  }

  /** The accumulation loop: after each chunk the accumulator is the polynomial so far, reduced. */
  method Accumulate(r: nat, msg: seq<byte>) returns (a: nat)
    ensures a == PolySum(Coefficients(Chunks(msg)), r) % P
    ensures a < P
  {
    a := 0;
    var i := 0;
    ghost var k := 0;
    while i < |msg|
      invariant i == 16 * k && k <= |Chunks(msg)|
      invariant i < |msg| + 16
      invariant a == PolySum(Coefficients(Chunks(msg)[..k]), r) % P
      decreases |msg| + 16 - i
    {
      var end := if i + 16 <= |msg| then i + 16 else |msg|;
      var chunk := msg[i..end];
      var n := DecodeLE(chunk);
      LEBound(chunk);
      OrIsPlus(n, 1, 8 * |chunk|);
      n := BitOr(n, Shl(1, |chunk| * 8));
      ChunkAt(msg, k);
      ghost var before := Chunks(msg)[..k];
      assert Chunks(msg)[..k + 1] == before + [chunk];
      CoefficientsSnoc(before, chunk);
      PolySnoc(Coefficients(before), n, r);
      ModStep(PolySum(Coefficients(before), r), n, r);
      a := ((a + n) * r) % P;
      i := i + 16;
      k := k + 1;
    }
    ChunkCount(msg);
    assert Chunks(msg)[..k] == Chunks(msg);
  }

  method Authenticate(key: seq<byte>, msg: seq<byte>) returns (tag: array<byte>)
    requires |key| == 32
    ensures fresh(tag) && tag[..] == Tag(key, msg)
  {
    var r := ClampedR(key);
    var s := DecodeLE(key[16..]);
    var a := Accumulate(r, msg);
    Constants();
    MaskLow128(a + s);
    a := BitAnd(a + s, 0xFFFFFFFFFFFFFFFFFFFFFFFFFFFFFFFF);
    tag := Serialize(a);
  }

  lemma MaskLow128(n: nat)
    ensures BitAnd(n, 0xFFFFFFFFFFFFFFFFFFFFFFFFFFFFFFFF) == n % WORD
  {
    Constants();
    var k: nat := 128;
    AndMask(n, k);
  }

  method Serialize(n: nat) returns (tag: array<byte>)
    ensures fresh(tag) && tag[..] == ToLE(n, 16)
  {
    var a := n;
    tag := new byte[16](_ => 0);
    var i: nat := 0;
    while i < 16
      invariant i <= 16
      invariant ToLE(n, 16) == tag[..i] + ToLE(a, 16 - i)
    {
      LowByte(a);
      tag[i] := BitAnd(a, 0xff);
      a := a / 256;
      assert tag[..i + 1] == tag[..i] + [tag[i]];
      i := i + 1;
    }
    assert tag[..16] == tag[..];
  }

  /** The tag decodes to the standard's sum: no bit of it is lost or moved by the encoding. */
  lemma TagValue(key: seq<byte>, msg: seq<byte>)
    requires |key| == 32
    ensures LE(Tag(key, msg)) == (PolySum(Coefficients(Chunks(msg)), BitAnd(LE(key[..16]), R_MASK)) % P + LE(key[16..])) % Pow2(128)
  {
    Constants();
    ClampIsMask(key);
    LERoundTrip((PolySum(Coefficients(Chunks(msg)), R(key)) % P + S(key)) % WORD, 16);
  }
}
