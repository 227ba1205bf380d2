/** ChaCha20-Poly1305 authenticated encryption (section 2.8 of RFC 8439). */
module Aead {
  import opened Bytes
  import opened ChaCha20
  import opened Options
  import opened Poly1305

  // ---------------------------------------------------------------------------
  // The authenticated message
  // ---------------------------------------------------------------------------

  function Pad16(len: nat): nat {
    (16 - len % 16) % 16
  }

  function Zeros(n: nat): (zeros: seq<byte>)
    ensures |zeros| == n
  {
    seq(n, _ => 0)
  }

  function Padded(data: seq<byte>): (padded: seq<byte>)
    ensures |padded| == |data| + Pad16(|data|) && |padded| % 16 == 0
  {
    data + Zeros(Pad16(|data|))
  }

  function Lengths(aad: seq<byte>, ciphertext: seq<byte>): (lens: seq<byte>)
    ensures |lens| == 16
  {
    ToLE(|aad|, 8) + ToLE(|ciphertext|, 8)
  }

  /** Both inputs padded to 16 bytes, then both lengths as 64-bit little-endian numbers. */
  function MacInput(aad: seq<byte>, ciphertext: seq<byte>): seq<byte> {
    Padded(aad) + Padded(ciphertext) + Lengths(aad, ciphertext)
  }

  lemma WholeBlocks(aad: seq<byte>, ciphertext: seq<byte>)
    ensures |MacInput(aad, ciphertext)| % 16 == 0
  {
    SumOfMultiples(|Padded(aad)|, |Padded(ciphertext)|);
  }

  lemma SumOfMultiples(m: nat, n: nat)
    requires m % 16 == 0 && n % 16 == 0
    ensures (m + n + 16) % 16 == 0
  {
  }

  /** `Uint8Array.set`. */
  method CopyInto(out: array<byte>, data: seq<byte>, offset: nat)
    requires offset + |data| <= out.Length
    modifies out
    ensures out[..] == old(out[..offset]) + data + old(out[offset + |data|..])
  {
    forall i | 0 <= i < |data| {
      out[offset + i] := data[i];
    }
  }

  method BuildMacInput(aad: seq<byte>, ciphertext: seq<byte>) returns (out: array<byte>)
    ensures fresh(out) && out[..] == MacInput(aad, ciphertext)
  {
    var aadPad, ctPad := Pad16(|aad|), Pad16(|ciphertext|);
    var lens := ToLE(|aad|, 8) + ToLE(|ciphertext|, 8);
    var total := |aad| + aadPad + |ciphertext| + ctPad + 16;
    out := new byte[total](_ => 0);
    assert out[..] == Zeros(total);
    var off := 0;
    CopyInto(out, aad, off);
    off := off + |aad|;
    off := off + aadPad;
    assert out[..] == Padded(aad) + Zeros(|ciphertext| + ctPad + 16);
    CopyInto(out, ciphertext, off);
    off := off + |ciphertext|;
    off := off + ctPad;
    assert out[..] == Padded(aad) + Padded(ciphertext) + Zeros(16);
    CopyInto(out, lens, off);
  }

  lemma ToLEInjective(m: nat, n: nat, len: nat)
    requires m < Pow2(8 * len) && n < Pow2(8 * len) && ToLE(m, len) == ToLE(n, len)
    ensures m == n
  {
    LERoundTrip(m, len);
    LERoundTrip(n, len);
  }

  lemma Parts(aad: seq<byte>, ct: seq<byte>)
    ensures var m := MacInput(aad, ct); var a := |Padded(aad)|; var n := |m|;
            && a + |Padded(ct)| + 16 == n
            && m[n - 16..n - 8] == ToLE(|aad|, 8) && m[n - 8..] == ToLE(|ct|, 8)
            && m[..|aad|] == aad && m[a..a + |ct|] == ct
  {
  }

  /** No two pairs of inputs are authenticated by the same message. */
  lemma MacInputInjective(aad: seq<byte>, ct: seq<byte>, aad': seq<byte>, ct': seq<byte>)
    requires |aad| < Pow2(64) && |ct| < Pow2(64) && |aad'| < Pow2(64) && |ct'| < Pow2(64)
    requires MacInput(aad, ct) == MacInput(aad', ct')
    ensures aad == aad' && ct == ct'
  {
    Parts(aad, ct);
    Parts(aad', ct');
    ToLEInjective(|aad|, |aad'|, 8);
    ToLEInjective(|ct|, |ct'|, 8);
  }

  /** Every chunk the authenticator reads is a full block. */
  lemma FullChunks(aad: seq<byte>, ciphertext: seq<byte>)
    ensures forall chunk :: chunk in Chunks(MacInput(aad, ciphertext)) ==> |chunk| == 16
  {
    var msg := MacInput(aad, ciphertext);
    WholeBlocks(aad, ciphertext);
    ChunkCount(msg);
    forall i | 0 <= i < |Chunks(msg)| ensures |Chunks(msg)[i]| == 16 {
      ChunkAt(msg, i);
    }
  }

  lemma {:induction false} LEInjective(x: seq<byte>, y: seq<byte>)
    requires |x| == |y| && LE(x) == LE(y)
    ensures x == y
  {
    if x != [] {
      LEInjective(x[1..], y[1..]);
      assert x == [x[0]] + x[1..] && y == [y[0]] + y[1..];
    }
  }

  lemma {:induction false} CoefficientsInjective(x: seq<byte>, y: seq<byte>)
    requires |x| % 16 == 0 && |y| % 16 == 0 && Coefficients(Chunks(x)) == Coefficients(Chunks(y))
    ensures x == y
    decreases |x|
  {
    ChunkCount(x);
    ChunkCount(y);
    assert |Chunks(x)| == |Chunks(y)|;
    if x != [] {
      FirstChunk(x);
      FirstChunk(y);
      assert Coefficients(Chunks(x))[0] == Coefficients(Chunks(y))[0];
      LEInjective(x[..16], y[..16]);
      assert Coefficients(Chunks(x))[1..] == Coefficients(Chunks(y))[1..];
      CoefficientsInjective(x[16..], y[16..]);
      assert x == x[..16] + x[16..] && y == y[..16] + y[16..];
    }
  }

  lemma FirstChunk(x: seq<byte>)
    requires |x| % 16 == 0 && x != []
    ensures Coefficients(Chunks(x)) == [Coefficient(x[..16])] + Coefficients(Chunks(x[16..]))
  {
    if |x| == 16 {
      assert x[..16] == x && Chunks(x[16..]) == [];
    }
    assert Chunks(x) == [x[..16]] + Chunks(x[16..]);
    assert Chunks(x)[1..] == Chunks(x[16..]);
  }

  /** Different inputs are authenticated by different polynomials. */
  lemma DifferentPolynomials(aad: seq<byte>, ct: seq<byte>, aad': seq<byte>, ct': seq<byte>)
    requires |aad| < Pow2(64) && |ct| < Pow2(64) && |aad'| < Pow2(64) && |ct'| < Pow2(64)
    requires aad != aad' || ct != ct'
    ensures Coefficients(Chunks(MacInput(aad, ct))) != Coefficients(Chunks(MacInput(aad', ct')))
  {
    if Coefficients(Chunks(MacInput(aad, ct))) == Coefficients(Chunks(MacInput(aad', ct'))) {
      WholeBlocks(aad, ct);
      WholeBlocks(aad', ct');
      CoefficientsInjective(MacInput(aad, ct), MacInput(aad', ct'));
      MacInputInjective(aad, ct, aad', ct');
    }
  }

  // ---------------------------------------------------------------------------
  // Sealing and opening
  // ---------------------------------------------------------------------------

  /** The loop looks at every byte whatever it finds. */
  method TimingSafeEqual(a: seq<byte>, b: seq<byte>) returns (same: bool)
    ensures same <==> a == b
  {
    if |a| != |b| {
      return false;
    }
    var diff: nat := 0;
    for i := 0 to |a|
      invariant diff == 0 <==> a[..i] == b[..i]
    {
      XorZero(a[i], b[i]);
      OrZero(diff, BitXor(a[i], b[i]));
      assert a[..i + 1] == a[..i] + [a[i]] && b[..i + 1] == b[..i] + [b[i]];
      diff := BitOr(diff, BitXor(a[i], b[i]));
    }
    assert a[..|a|] == a && b[..|b|] == b;
    same := diff == 0;
  }

  function OneTimeKey(key: seq<byte>, nonce: seq<byte>): (otk: seq<byte>)
    requires KeyAndNonce(key, nonce)
    ensures |otk| == 32
  {
    Block(key, 0, nonce)[..32]
  }

  /** The payload cipher: the keystream from block 1 on. */
  function Cipher(key: seq<byte>, nonce: seq<byte>, data: seq<byte>): (out: seq<byte>)
    requires KeyAndNonce(key, nonce)
    ensures |out| == |data|
  {
    StreamXor(Blocks(key, nonce), 1, data)
  }

  function Authenticator(key: seq<byte>, nonce: seq<byte>, aad: seq<byte>, ciphertext: seq<byte>): (tag: seq<byte>)
    requires KeyAndNonce(key, nonce)
    ensures |tag| == 16
  {
    Tag(OneTimeKey(key, nonce), MacInput(aad, ciphertext))
  }

  datatype Sealed = Sealed(ciphertext: seq<byte>, tag: seq<byte>)

  function Seal(key: seq<byte>, nonce: seq<byte>, plaintext: seq<byte>, aad: seq<byte>): Sealed
    requires KeyAndNonce(key, nonce)
  {
    var ciphertext := Cipher(key, nonce, plaintext);
    Sealed(ciphertext, Authenticator(key, nonce, aad, ciphertext))
  }

  /** None is the thrown authentication failure. */
  function Open(key: seq<byte>, nonce: seq<byte>, ciphertext: seq<byte>, tag: seq<byte>, aad: seq<byte>): Option<seq<byte>>
    requires KeyAndNonce(key, nonce)
  {
    if tag == Authenticator(key, nonce, aad, ciphertext) then Some(Cipher(key, nonce, ciphertext)) else None
  }

  method ComputeTag(key: seq<byte>, nonce: seq<byte>, aad: seq<byte>, ciphertext: seq<byte>) returns (tag: seq<byte>)
    requires KeyAndNonce(key, nonce)
    ensures tag == Authenticator(key, nonce, aad, ciphertext)
  {
    var otk := FirstBlock(key, nonce);
    var macInput := BuildMacInput(aad, ciphertext);
    var computed := Authenticate(otk, macInput[..]);
    tag := computed[..];
  }

  method FirstBlock(key: seq<byte>, nonce: seq<byte>) returns (otk: seq<byte>)
    requires KeyAndNonce(key, nonce)
    ensures otk == OneTimeKey(key, nonce)
  {
    var block := ComputeBlock(key, 0, nonce, Blocks(key, nonce));
    otk := block[..32];
    assert otk == block[..][..32];
  }

  method EncryptAndSeal(key: seq<byte>, nonce: seq<byte>, plaintext: seq<byte>, aad: seq<byte>) returns (sealed: Sealed)
    requires KeyAndNonce(key, nonce)
    ensures sealed == Seal(key, nonce, plaintext, aad)
  {
    var ciphertext := Encrypt(key, nonce, 1, plaintext);
    var tag := ComputeTag(key, nonce, aad, ciphertext[..]);
    sealed := Sealed(ciphertext[..], tag);
  }

  /** The tag is checked before anything is decrypted. */
  method VerifyAndDecrypt(key: seq<byte>, nonce: seq<byte>, ciphertext: seq<byte>, tag: seq<byte>, aad: seq<byte>)
    returns (plaintext: Option<seq<byte>>)
    requires KeyAndNonce(key, nonce)
    ensures plaintext == Open(key, nonce, ciphertext, tag, aad)
  {
    var expectedTag := ComputeTag(key, nonce, aad, ciphertext);
    var same := TimingSafeEqual(tag, expectedTag);
    if !same {
      return None;
    }
    var data := Encrypt(key, nonce, 1, ciphertext);
    plaintext := Some(data[..]);
  }

  // ---------------------------------------------------------------------------
  // What the construction promises
  // ---------------------------------------------------------------------------

  lemma CipherUndoes(key: seq<byte>, nonce: seq<byte>, data: seq<byte>)
    requires KeyAndNonce(key, nonce)
    ensures Cipher(key, nonce, Cipher(key, nonce, data)) == data
  {
    StreamUndoes(Blocks(key, nonce), 1, data);
  }

  /** Opening what was sealed gives the plaintext back. */
  lemma RoundTrip(key: seq<byte>, nonce: seq<byte>, plaintext: seq<byte>, aad: seq<byte>)
    requires KeyAndNonce(key, nonce)
    ensures var sealed := Seal(key, nonce, plaintext, aad);
            Open(key, nonce, sealed.ciphertext, sealed.tag, aad) == Some(plaintext)
  {
    CipherUndoes(key, nonce, plaintext);
  }

  /** What opens was sealed: a message is accepted exactly when sealing its plaintext would produce it. */
  lemma OpensIffSealed(key: seq<byte>, nonce: seq<byte>, ciphertext: seq<byte>, tag: seq<byte>, aad: seq<byte>, plaintext: seq<byte>)
    requires KeyAndNonce(key, nonce)
    ensures Open(key, nonce, ciphertext, tag, aad) == Some(plaintext) <==>
            Seal(key, nonce, plaintext, aad) == Sealed(ciphertext, tag)
  {
    CipherUndoes(key, nonce, plaintext);
    CipherUndoes(key, nonce, ciphertext);
  }
}
