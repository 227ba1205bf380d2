/** How the bytes of a key, a nonce and a message are laid out, and that no two uses of a key share a block. */
module CipherLayout {
  import opened Aead
  import opened Bytes
  import opened ChaCha20
  import opened Poly1305

  // ---------------------------------------------------------------------------
  // The initial state (section 2.3 of RFC 8439)
  // ---------------------------------------------------------------------------

  /** "expand 32-byte k" */
  const EXPAND: seq<byte> := [101, 120, 112, 97, 110, 100, 32, 51, 50, 45, 98, 121, 116, 101, 32, 107]

  lemma {:induction false} WordsConcat(a: seq<word>, b: seq<word>)
    ensures WordsToBytes(a + b) == WordsToBytes(a) + WordsToBytes(b)
  {
    if b == [] {
      assert a + b == a;
    } else {
      var n := |b| - 1;
      assert (a + b)[..|a + b| - 1] == a + b[..n];
      WordsConcat(a, b[..n]);
    }
  }

  lemma FourConcat(a: seq<word>, b: seq<word>, c: seq<word>, d: seq<word>)
    ensures WordsToBytes(a + b + c + d) == WordsToBytes(a) + WordsToBytes(b) + WordsToBytes(c) + WordsToBytes(d)
  {
    WordsConcat(a, b);
    WordsConcat(a + b, c);
    WordsConcat(a + b + c, d);
  }

  lemma LowAndHigh(b: byte, r: nat)
    ensures (b + 256 * r) % 256 == b && (b + 256 * r) / 256 == r
  {
  }

  lemma {:induction false} FromLE(bytes: seq<byte>)
    ensures ToLE(LE(bytes), |bytes|) == bytes
  {
    if bytes != [] {
      FromLE(bytes[1..]);
      LowAndHigh(bytes[0], LE(bytes[1..]));
      assert ToLE(LE(bytes), |bytes|) == [bytes[0]] + ToLE(LE(bytes[1..]), |bytes| - 1);
    }
  }

  function WordsOf(bytes: seq<byte>, n: nat): (ws: seq<word>)
    requires 4 * n <= |bytes|
    ensures |ws| == n
  {
    seq(n, i requires 0 <= i < n => WordAt(bytes, 4 * i))
  }

  lemma {:induction false} WordsOfBack(bytes: seq<byte>, n: nat)
    requires 4 * n <= |bytes|
    ensures WordsToBytes(WordsOf(bytes, n)) == bytes[..4 * n]
  {
    if n > 0 {
      var ws := WordsOf(bytes, n);
      assert ws[..n - 1] == WordsOf(bytes, n - 1);
      WordsOfBack(bytes, n - 1);
      FromLE(bytes[4 * n - 4..4 * n]);
      assert bytes[..4 * n] == bytes[..4 * n - 4] + bytes[4 * n - 4..4 * n];
    }
  }

  lemma ExpandIs()
    ensures WordsOf(EXPAND, 4) == [0x61707865, 0x3320646e, 0x79622d32, 0x6b206574]
  {
    LE4(EXPAND[0..4]);
    LE4(EXPAND[4..8]);
    LE4(EXPAND[8..12]);
    LE4(EXPAND[12..16]);
  }

  lemma StateParts(key: seq<byte>, counter: nat, nonce: seq<byte>)
    requires KeyAndNonce(key, nonce)
    ensures InitialState(key, counter, nonce) == WordsOf(EXPAND, 4) + WordsOf(key, 8) + [CounterWord(counter)] + WordsOf(nonce, 3)
  {
    ExpandIs();
  }

  /** The block starts from the constant text, the key, the 32-bit counter and the nonce, in that order. */
  lemma InitialBytes(key: seq<byte>, counter: nat, nonce: seq<byte>)
    requires KeyAndNonce(key, nonce)
    ensures WordsToBytes(InitialState(key, counter, nonce)) == EXPAND + key + ToLE(counter % 0x1_0000_0000, 4) + nonce
  {
    hide InitialState, WordsToBytes, ToLE;
    var a, b, c, d := WordsOf(EXPAND, 4), WordsOf(key, 8), [CounterWord(counter)], WordsOf(nonce, 3);
    StateParts(key, counter, nonce);
    FourConcat(a, b, c, d);
    WordsOfBack(EXPAND, 4);
    WordsOfBack(key, 8);
    WordsOfBack(nonce, 3);
    OneWord(counter % 0x1_0000_0000);
    assert EXPAND[..16] == EXPAND && key[..32] == key && nonce[..12] == nonce;
  }

  lemma OneWord(w: word)
    ensures WordsToBytes([w]) == ToLE(w, 4)
  {
    assert [w][..0] == [];
  }

  /** Different keys, nonces or 32-bit counters start different blocks. */
  lemma InitialStateInjective(key: seq<byte>, counter: nat, nonce: seq<byte>, key': seq<byte>, counter': nat, nonce': seq<byte>)
    requires KeyAndNonce(key, nonce) && KeyAndNonce(key', nonce')
    requires InitialState(key, counter, nonce) == InitialState(key', counter', nonce')
    ensures key == key' && nonce == nonce' && counter % 0x1_0000_0000 == counter' % 0x1_0000_0000
  {
    var s, t := InitialState(key, counter, nonce), InitialState(key', counter', nonce');
    assert s[12] == t[12];
    InitialBytes(key, counter, nonce);
    InitialBytes(key', counter', nonce');
    Parts4(EXPAND, key, ToLE(counter % 0x1_0000_0000, 4), nonce);
    Parts4(EXPAND, key', ToLE(counter' % 0x1_0000_0000, 4), nonce');
  }

  lemma Parts4(a: seq<byte>, b: seq<byte>, c: seq<byte>, d: seq<byte>)
    ensures var all := a + b + c + d;
            && all[|a|..|a| + |b|] == b && all[|a| + |b| + |c|..] == d
  {
  }

  // ---------------------------------------------------------------------------
  // The rounds (section 2.3 of RFC 8439)
  // ---------------------------------------------------------------------------

  /** The 4 by 4 matrix with row i rotated left by i places: its columns are the diagonals. */
  function Skewed(s: State): State {
    [s[0], s[1], s[2], s[3], s[5], s[6], s[7], s[4], s[10], s[11], s[8], s[9], s[15], s[12], s[13], s[14]]
  }

  function Unskewed(s: State): State {
    [s[0], s[1], s[2], s[3], s[7], s[4], s[5], s[6], s[10], s[11], s[8], s[9], s[13], s[14], s[15], s[12]]
  }

  /** The column round works on the four columns, each on its own. */
  lemma ColumnsApart(s: State, i: nat)
    requires i < 4
    ensures Column(ColumnRound(s), i) == Quarter(Column(s, i))
  {
  }

  lemma DiagonalsApart(s: State, i: nat)
    requires i < 4
    ensures Diagonal(DiagonalRound(s), i) == Quarter(Diagonal(s, i))
  {
  }

  /** The diagonal round is the column round of the skewed matrix. */
  lemma DiagonalsAreColumns(s: State)
    ensures DiagonalRound(s) == Unskewed(ColumnRound(Skewed(s)))
  {
    DiagonalColumn(s, 0);
    DiagonalColumn(s, 1);
    DiagonalColumn(s, 2);
    DiagonalColumn(s, 3);
    AllSixteen(DiagonalRound(s), Unskewed(ColumnRound(Skewed(s))));
  }

  predicate SameDiagonal(t: State, u: State, i: nat)
    requires i < 4
  {
    Diagonal(t, i) == Diagonal(u, i)
  }

  lemma DiagonalColumn(s: State, i: nat)
    requires i < 4
    ensures SameDiagonal(DiagonalRound(s), Unskewed(ColumnRound(Skewed(s))), i)
  {
    DiagonalsApart(s, i);
    ColumnsApart(Skewed(s), i);
    SkewedAt(s, i);
    UnskewedAt(ColumnRound(Skewed(s)), i);
  }

  function Column(s: State, i: nat): Quad
    requires i < 4
  {
    Quad(s[i], s[i + 4], s[i + 8], s[i + 12])
  }

  function Diagonal(s: State, i: nat): Quad
    requires i < 4
  {
    Quad(s[i], s[4 + (i + 1) % 4], s[8 + (i + 2) % 4], s[12 + (i + 3) % 4])
  }

  lemma SkewedAt(s: State, i: nat)
    requires i < 4
    ensures Column(Skewed(s), i) == Diagonal(s, i)
  {
  }

  lemma UnskewedAt(s: State, i: nat)
    requires i < 4
    ensures Diagonal(Unskewed(s), i) == Column(s, i)
  {
  }

  lemma AllSixteen(t: State, u: State)
    requires SameDiagonal(t, u, 0) && SameDiagonal(t, u, 1) && SameDiagonal(t, u, 2) && SameDiagonal(t, u, 3)
    ensures t == u
  {
  }

  /** n rounds, column and diagonal in turn; `column` says which comes last. */
  function Rounds(s: State, n: nat, column: bool): State {
    if n == 0 then s
    else if column then ColumnRound(Rounds(s, n - 1, false))
    else DiagonalRound(Rounds(s, n - 1, true))
  }

  lemma {:induction false} DoubleIsTwo(s: State, n: nat)
    ensures DoubleRounds(s, n) == Rounds(s, n + n, false)
  {
    hide ColumnRound, DiagonalRound;
    if n > 0 {
      DoubleIsTwo(s, n - 1);
      assert Rounds(s, n + n - 1, true) == ColumnRound(Rounds(s, n + n - 2, false));
    }
  }

  lemma {:induction false} WordBack(ws: seq<word>, i: nat)
    requires i < |ws|
    ensures WordAt(WordsToBytes(ws), 4 * i) == ws[i]
  {
    var n := |ws| - 1;
    var init := WordsToBytes(ws[..n]);
    if i < n {
      WordBack(ws[..n], i);
      assert WordsToBytes(ws)[4 * i..4 * i + 4] == init[4 * i..4 * i + 4];
    } else {
      Pow2At32(8);
      LERoundTrip(ws[n], 4);
      assert WordsToBytes(ws)[4 * n..4 * n + 4] == ToLE(ws[n], 4);
    }
  }

  /** Each word of a block is that of the state after twenty rounds, a diagonal one last, plus that of the initial state. */
  lemma BlockIsTwentyRounds(key: seq<byte>, counter: nat, nonce: seq<byte>, rounds: nat, i: nat)
    requires KeyAndNonce(key, nonce) && i < 16 && rounds == 20
    ensures var init := InitialState(key, counter, nonce);
            WordAt(Block(key, counter, nonce), 4 * i) == (Rounds(init, rounds, false)[i] as int + init[i] as int) % 0x1_0000_0000
  {
    hide DoubleRounds, Rounds, InitialState;
    var init := InitialState(key, counter, nonce);
    DoubleIsTwo(init, 10);
    WordBack(AddStates(DoubleRounds(init, 10), init), i);
  }

  // ---------------------------------------------------------------------------
  // The authenticator's key and the keystream (sections 2.6 and 2.8 of RFC 8439)
  // ---------------------------------------------------------------------------

  /** Byte i is encrypted with the block of counter 1 + i / 64. */
  lemma CipherAt(key: seq<byte>, nonce: seq<byte>, data: seq<byte>, i: nat)
    requires KeyAndNonce(key, nonce) && i < |data|
    ensures Cipher(key, nonce, data)[i] == XorByte(data[i], Block(key, 1 + i / 64, nonce)[i % 64])
  {
  }

  lemma BlockOf(key: seq<byte>, nonce: seq<byte>, data: seq<byte>, i: nat) returns (c: nat)
    requires KeyAndNonce(key, nonce) && i < |data| <= 64 * 0xffff_ffff
    ensures c == 1 + i / 64 && 0 < c < 0x1_0000_0000
    ensures Cipher(key, nonce, data)[i] == XorByte(data[i], Block(key, c, nonce)[i % 64])
  {
    c := 1 + i / 64;
    CipherAt(key, nonce, data, i);
  }

  lemma StartsDiffer(key: seq<byte>, nonce: seq<byte>, c: nat, d: nat)
    requires KeyAndNonce(key, nonce) && c < 0x1_0000_0000 && d < 0x1_0000_0000 && c != d
    ensures InitialState(key, c, nonce) != InitialState(key, d, nonce)
  {
    assert InitialState(key, c, nonce)[12] == c && InitialState(key, d, nonce)[12] == d;
  }

  /**
   * The one-time key is half of a block that encrypts nothing: every byte of a message of fewer than 2^32 blocks is
   * encrypted with a block that starts from another state.
   */
  lemma OneTimeKeyBlockIsUnused(key: seq<byte>, nonce: seq<byte>, data: seq<byte>, i: nat) returns (k: nat, c: nat)
    requires KeyAndNonce(key, nonce) && i < |data| <= 64 * 0xffff_ffff
    ensures OneTimeKey(key, nonce) == Block(key, k, nonce)[..32]
    ensures Cipher(key, nonce, data)[i] == XorByte(data[i], Block(key, c, nonce)[i % 64])
    ensures InitialState(key, c, nonce) != InitialState(key, k, nonce)
  {
    k := 0;
    c := BlockOf(key, nonce, data, i);
    StartsDiffer(key, nonce, c, k);
  }

  /** No two blocks of such a message start from the same state either. */
  lemma BlocksDiffer(key: seq<byte>, nonce: seq<byte>, data: seq<byte>, i: nat, j: nat) returns (c: nat, d: nat)
    requires KeyAndNonce(key, nonce) && i < |data| && j < |data| && i / 64 != j / 64 && |data| <= 64 * 0xffff_ffff
    ensures Cipher(key, nonce, data)[i] == XorByte(data[i], Block(key, c, nonce)[i % 64])
    ensures Cipher(key, nonce, data)[j] == XorByte(data[j], Block(key, d, nonce)[j % 64])
    ensures InitialState(key, c, nonce) != InitialState(key, d, nonce)
  {
    c := BlockOf(key, nonce, data, i);
    d := BlockOf(key, nonce, data, j);
    StartsDiffer(key, nonce, c, d);
  }

  // ---------------------------------------------------------------------------
  // The authenticated message
  // ---------------------------------------------------------------------------

  /** Each input is followed by fewer than 16 zero bytes, up to the next multiple of 16. */
  lemma PaddingIsShortAndZero(data: seq<byte>)
    ensures var padded := Padded(data);
            && |padded| % 16 == 0 && |data| <= |padded| < |data| + 16
            && padded[..|data|] == data && forall i :: |data| <= i < |padded| ==> padded[i] == 0
  {
  }

  /** Where everything is. */
  lemma MacInputLayout(aad: seq<byte>, ct: seq<byte>)
    ensures var m, a, c := MacInput(aad, ct), |Padded(aad)|, |Padded(ct)|;
            && |m| == a + c + 16
            && m[..a] == Padded(aad) && m[a..a + c] == Padded(ct)
            && m[a + c..a + c + 8] == ToLE(|aad|, 8) && m[a + c + 8..] == ToLE(|ct|, 8)
  {
    var m, a, c := MacInput(aad, ct), Padded(aad), Padded(ct);
    assert m == a + (c + Lengths(aad, ct)) && m == (a + c) + Lengths(aad, ct);
  }

  /** A chunk's number is its bytes and a final one byte, read as one little-endian number (section 2.5.1). */
  lemma CoefficientIs(chunk: seq<byte>)
    requires |chunk| <= 16
    ensures Coefficient(chunk) == LE(chunk + [1])
    ensures 0 < Coefficient(chunk) < P
  {
    LESnoc(chunk, 1);
    LEBound(chunk + [1]);
    LEBound(chunk);
    Constants();
    Pow2Grows(8 * |chunk| + 1, 129);
    assert Pow2(8 * |chunk| + 1) == 2 * Pow2(8 * |chunk|);
    assert Pow2(130) == 2 * Pow2(129);
    Pow2Grows(3, 129);
    assert Pow2(3) == 8;
  }

  lemma {:induction false} Pow2Grows(m: nat, n: nat)
    requires m <= n
    ensures Pow2(m) <= Pow2(n)
  {
    if m < n {
      Pow2Grows(m, n - 1);
    }
  }

  /** The tag's number for a message of one chunk, and for one chunk more. */
  lemma SumByChunks(cs: seq<nat>, c: nat, r: nat)
    ensures PolySum([c], r) == c * r && PolySum(cs + [c], r) == (PolySum(cs, r) + c) * r
  {
    PolySnoc([], c, r);
    assert [] + [c] == [c];
    PolySnoc(cs, c, r);
  }
}
