/** The ChaCha20 block function and stream cipher (sections 2.1 to 2.4 of RFC 8439). */
module ChaCha20 {
  import opened Bytes

  /** An unsigned 32-bit word. */
  type word = w: int | 0 <= w < 0x1_0000_0000

  // ---------------------------------------------------------------------------
  // Word operations
  // ---------------------------------------------------------------------------

  lemma Pow2At32(k: nat)
    requires k == 8
    ensures Pow2(4 * k) == 0x1_0000_0000
  {
    assert Pow2(k) == 256;
    Pow2Doubles(k, 256);
    Pow2Doubles(2 * k, 0x1_0000);
  }

  function Add32(x: word, y: word): word {
    (x + y) % 0x1_0000_0000
  }

  function Sub32(x: word, y: word): word {
    (x - y) % 0x1_0000_0000
  }

  function Xor32(x: word, y: word): word {
    Pow2At32(8);
    XorBound(x, y, 32);
    BitXor(x, y)
  }

  /** `((n << r) | (n >>> (32 - r))) >>> 0`: both shifts keep 32 bits. */
  function Rotl32(n: word, r: nat): word
    requires 0 < r < 32
  {
    RotlBound(n, r);
    BitOr(Shl(n, r) % 0x1_0000_0000, Shr(n, 32 - r))
  }

  /** A rotation swaps the high r bits of the word with its low 32 - r bits. */
  lemma RotlOf(n: word, r: nat, h: nat, l: nat)
    requires 0 < r < 32 && l < Pow2(32 - r) && n == Shl(h, 32 - r) + l
    ensures h < Pow2(r)
    ensures BitOr(Shl(n, r) % 0x1_0000_0000, Shr(n, 32 - r)) == Shl(l, r) + h < 0x1_0000_0000
  {
    var p, q := Pow2(r), Pow2(32 - r);
    PowersOfHalves(r);
    HighPart(h, l, p, q);
    ShiftOut(h, l, p, q);
    ModIs(n * p, h, 0x1_0000_0000, l * p);
    ShrOf(h, l, 32 - r);
    OrCommutes(l * p, h);
    OrIsPlus(h, l, r);
  }

  lemma RotlBound(n: word, r: nat)
    requires 0 < r < 32
    ensures 0 <= BitOr(Shl(n, r) % 0x1_0000_0000, Shr(n, 32 - r)) < 0x1_0000_0000
  {
    var l := Cut(n, 32 - r);
    RotlOf(n, r, Shr(n, 32 - r), l);
  }

  lemma PowersOfHalves(r: nat)
    requires r <= 32
    ensures Pow2(r) * Pow2(32 - r) == 0x1_0000_0000
  {
    Pow2At32(8);
    Pow2Adds(r, 32 - r);
  }

  lemma HighPart(h: nat, l: nat, p: nat, q: nat)
    requires q > 0 && h * q + l < p * q
    ensures h < p
  {
    if h >= p {
      MulMonotone(p, h, q);
    }
  }

  lemma ShiftOut(h: nat, l: nat, p: nat, q: nat)
    requires h < p && l < q
    ensures (h * q + l) * p == h * (p * q) + l * p
    ensures l * p + h < p * q && l * p < p * q
  {
    assert (h * q + l) * p == h * q * p + l * p;
    assert h * q * p == h * (p * q);
    MulMonotone(l, q - 1, p);
    assert (q - 1) * p == p * q - p;
  }

  lemma MulMonotone(x: nat, y: int, m: nat)
    requires x <= y
    ensures x * m <= y * m
  {
  }

  /** Rotating the rest of the way round gives the word back. */
  lemma RotateBack(n: word, r: nat)
    requires 0 < r < 32
    ensures Rotl32(Rotl32(n, r), 32 - r) == n
  {
    var h := Shr(n, 32 - r);
    var l := Cut(n, 32 - r);
    RotlOf(n, r, h, l);
    RotlOf(Rotl32(n, r), 32 - r, l, h);
  }

  // ---------------------------------------------------------------------------
  // The quarter round
  // ---------------------------------------------------------------------------

  datatype Quad = Quad(a: word, b: word, c: word, d: word)

  /** Half a quarter round, with rotations by r and t. */
  function Half(q: Quad, r: nat, t: nat): Quad
    requires 0 < r < 32 && 0 < t < 32
  {
    var a := Add32(q.a, q.b);
    var d := Rotl32(Xor32(q.d, a), r);
    var c := Add32(q.c, d);
    Quad(a, Rotl32(Xor32(q.b, c), t), c, d)
  }

  function Quarter(q: Quad): Quad {
    Half(Half(q, 16, 12), 8, 7)
  }

  function Unhalf(q: Quad, r: nat, t: nat): Quad
    requires 0 < r < 32 && 0 < t < 32
  {
    var b := Xor32(Rotl32(q.b, 32 - t), q.c);
    Quad(Sub32(q.a, b), b, Sub32(q.c, q.d), Xor32(Rotl32(q.d, 32 - r), q.a))
  }

  lemma HalfInverts(q: Quad, r: nat, t: nat)
    requires 0 < r < 32 && 0 < t < 32
    ensures Unhalf(Half(q, r, t), r, t) == q
  {
    var h := Half(q, r, t);
    StepUndone(q.b, h.c, t);
    StepUndone(q.d, h.a, r);
    SubCancels(q.c, h.d);
    SubCancels(q.a, q.b);
  }

  /** The quarter round can be undone, so no two states collide. */
  lemma QuarterInverts(q: Quad)
    ensures Unhalf(Unhalf(Quarter(q), 8, 7), 16, 12) == q
  {
    HalfInverts(Half(q, 16, 12), 8, 7);
    HalfInverts(q, 16, 12);
  }

  lemma StepUndone(x: word, y: word, r: nat)
    requires 0 < r < 32
    ensures Xor32(Rotl32(Rotl32(Xor32(x, y), r), 32 - r), y) == x
  {
    RotateBack(Xor32(x, y), r);
    XorTwice(x, y);
  }

  lemma SubCancels(x: word, y: word)
    ensures Sub32(Add32(x, y), y) == x
  {
  }

  type State = s: seq<word> | |s| == 16 witness seq(16, _ => 0)

  predicate Indices(a: nat, b: nat, c: nat, d: nat) {
    a < 16 && b < 16 && c < 16 && d < 16 && a != b && a != c && a != d && b != c && b != d && c != d
  }

  function QuarterAt(s: State, a: nat, b: nat, c: nat, d: nat): State
    requires Indices(a, b, c, d)
  {
    var q := Quarter(Quad(s[a], s[b], s[c], s[d]));
    s[a := q.a][b := q.b][c := q.c][d := q.d]
  }

  method QuarterRound(s: array<word>, a: nat, b: nat, c: nat, d: nat)
    requires s.Length == 16 && Indices(a, b, c, d)
    modifies s
    ensures s[..] == QuarterAt(old(s[..]), a, b, c, d)
  {
    ghost var q := Quad(s[a], s[b], s[c], s[d]);
    s[a] := Add32(s[a], s[b]);
    s[d] := Rotl32(Xor32(s[d], s[a]), 16);
    s[c] := Add32(s[c], s[d]);
    s[b] := Rotl32(Xor32(s[b], s[c]), 12);
    s[a] := Add32(s[a], s[b]);
    s[d] := Rotl32(Xor32(s[d], s[a]), 8);
    s[c] := Add32(s[c], s[d]);
    s[b] := Rotl32(Xor32(s[b], s[c]), 7);
    assert Quad(s[a], s[b], s[c], s[d]) == Quarter(q);
    FourUpdates(old(s[..]), s[..], a, b, c, d);
  }

  lemma FourUpdates<T>(s: seq<T>, t: seq<T>, a: nat, b: nat, c: nat, d: nat)
    requires |s| == |t| == 16 && Indices(a, b, c, d)
    requires forall i :: 0 <= i < 16 && i != a && i != b && i != c && i != d ==> t[i] == s[i]
    ensures t == s[a := t[a]][b := t[b]][c := t[c]][d := t[d]]
  {
  }

  // ---------------------------------------------------------------------------
  // The block function
  // ---------------------------------------------------------------------------

  function ColumnRound(s: State): State {
    QuarterAt(QuarterAt(QuarterAt(QuarterAt(s, 0, 4, 8, 12), 1, 5, 9, 13), 2, 6, 10, 14), 3, 7, 11, 15)
  }

  function DiagonalRound(s: State): State {
    QuarterAt(QuarterAt(QuarterAt(QuarterAt(s, 0, 5, 10, 15), 1, 6, 11, 12), 2, 7, 8, 13), 3, 4, 9, 14)
  }

  function DoubleRounds(s: State, n: nat): State {
    if n == 0 then s else DiagonalRound(ColumnRound(DoubleRounds(s, n - 1)))
  }

  function WordAt(bytes: seq<byte>, offset: nat): word
    requires offset + 4 <= |bytes|
  {
    LEBound(bytes[offset..offset + 4]);
    Pow2At32(8);
    LE(bytes[offset..offset + 4])
  }

  /** The counter word: the source's `counter >>> 0`. */
  function CounterWord(counter: nat): word {
    counter % 0x1_0000_0000
  }

  predicate KeyAndNonce(key: seq<byte>, nonce: seq<byte>) {
    |key| == 32 && |nonce| == 12
  }

  function InitialState(key: seq<byte>, counter: nat, nonce: seq<byte>): State
    requires KeyAndNonce(key, nonce)
  {
    [0x61707865, 0x3320646e, 0x79622d32, 0x6b206574,
     WordAt(key, 0), WordAt(key, 4), WordAt(key, 8), WordAt(key, 12),
     WordAt(key, 16), WordAt(key, 20), WordAt(key, 24), WordAt(key, 28),
     CounterWord(counter), WordAt(nonce, 0), WordAt(nonce, 4), WordAt(nonce, 8)]
  }

  /** The first n words, each as four little-endian bytes. */
  function WordsToBytes(ws: seq<word>): (bytes: seq<byte>)
    ensures |bytes| == 4 * |ws|
  {
    if ws == [] then [] else WordsToBytes(ws[..|ws| - 1]) + ToLE(ws[|ws| - 1], 4)
  }

  function AddStates(s: seq<word>, t: seq<word>): (u: seq<word>)
    requires |s| == |t|
    ensures |u| == |s|
  {
    seq(|s|, i requires 0 <= i < |s| => Add32(s[i], t[i]))
  }

  function Block(key: seq<byte>, counter: nat, nonce: seq<byte>): (block: seq<byte>)
    requires KeyAndNonce(key, nonce)
    ensures |block| == 64
  {
    var init := InitialState(key, counter, nonce);
    WordsToBytes(AddStates(DoubleRounds(init, 10), init))
  }

  type Chunk = s: seq<byte> | |s| == 64 witness seq(64, _ => 0)

  /** The keystream of a key and nonce, block by block. */
  function Blocks(key: seq<byte>, nonce: seq<byte>): nat -> Chunk
    requires KeyAndNonce(key, nonce)
  {
    (counter: nat) => Block(key, counter, nonce)
  }

  method TenDoubleRounds(s: array<word>)
    requires s.Length == 16
    modifies s
    ensures s[..] == DoubleRounds(old(s[..]), 10)
  {
    for i := 0 to 10
      invariant s[..] == DoubleRounds(old(s[..]), i)
    {
      QuarterRound(s, 0, 4, 8, 12);
      QuarterRound(s, 1, 5, 9, 13);
      QuarterRound(s, 2, 6, 10, 14);
      QuarterRound(s, 3, 7, 11, 15);
      QuarterRound(s, 0, 5, 10, 15);
      QuarterRound(s, 1, 6, 11, 12);
      QuarterRound(s, 2, 7, 8, 13);
      QuarterRound(s, 3, 4, 9, 14);
    }
  }

  /** Little-endian store of one word. */
  method SetWord(out: array<byte>, offset: nat, w: word)
    requires offset + 4 <= out.Length
    modifies out
    ensures out[..offset + 4] == old(out[..offset]) + ToLE(w, 4)
  {
    var bytes := ToLE(w, 4);
    forall i | 0 <= i < 4 {
      out[offset + i] := bytes[i];
    }
    assert out[..offset] == old(out[..offset]);
    assert out[offset..offset + 4] == bytes;
  }

  /** Adds the initial state word by word and stores each sum. */
  method StoreSums(s: array<word>, init: State) returns (out: array<byte>)
    requires s.Length == 16
    ensures fresh(out) && out[..] == WordsToBytes(AddStates(s[..], init))
  {
    ghost var sum := AddStates(s[..], init);
    out := new byte[64](_ => 0);
    for i := 0 to 16
      invariant s[..] == old(s[..])
      invariant out[..4 * i] == WordsToBytes(sum[..i])
    {
      SetWord(out, i * 4, Add32(s[i], init[i]));
      assert sum[..i + 1][..i] == sum[..i];
    }
    assert out[..64] == out[..] && sum[..16] == sum;
  }

  method ComputeBlock(key: seq<byte>, counter: nat, nonce: seq<byte>, ghost blocks: nat -> Chunk)
    returns (out: array<byte>)
    requires KeyAndNonce(key, nonce) && blocks == Blocks(key, nonce)
    ensures fresh(out) && out[..] == blocks(counter)
  {
    var init: State := InitialState(key, counter, nonce);
    var s := CopyOf(init);
    TenDoubleRounds(s);
    out := StoreSums(s, init);
  }

  method CopyOf(init: State) returns (s: array<word>)
    ensures fresh(s) && s.Length == 16 && s[..] == init
  {
    s := new word[16](i requires 0 <= i < 16 => init[i]);
  }

  // ---------------------------------------------------------------------------
  // The stream cipher
  // ---------------------------------------------------------------------------

  /** Data against a stream of blocks, of which `first` is the first one used. */
  function StreamXor(blocks: nat -> Chunk, first: nat, data: seq<byte>): (out: seq<byte>)
    ensures |out| == |data|
  {
    seq(|data|, i requires 0 <= i < |data| => XorByte(data[i], blocks(first + i / 64)[i % 64]))
  }

  lemma StreamAt(blocks: nat -> Chunk, first: nat, data: seq<byte>, k: nat, b: nat, r: nat)
    requires k < |data| && k == 64 * b + r && r < 64
    ensures StreamXor(blocks, first, data)[k] == XorByte(data[k], blocks(first + b)[r])
  {
    assert k / 64 == b && k % 64 == r;
  }

  /** The same call decrypts. */
  lemma StreamUndoes(blocks: nat -> Chunk, first: nat, data: seq<byte>)
    ensures StreamXor(blocks, first, StreamXor(blocks, first, data)) == data
  {
    var once := StreamXor(blocks, first, data);
    var twice := StreamXor(blocks, first, once);
    forall i | 0 <= i < |data| ensures twice[i] == data[i] {
      XorTwice(data[i], blocks(first + i / 64)[i % 64]);
    }
  }

  /** Splitting the data at a block boundary is advancing the counter. */
  lemma StreamSplits(blocks: nat -> Chunk, first: nat, x: seq<byte>, y: seq<byte>, b: nat)
    requires |x| == 64 * b
    ensures StreamXor(blocks, first, x + y) == StreamXor(blocks, first, x) + StreamXor(blocks, first + b, y)
  {
    var whole := StreamXor(blocks, first, x + y);
    var left, right := StreamXor(blocks, first, x), StreamXor(blocks, first + b, y);
    forall i | 0 <= i < |x| ensures whole[i] == left[i] {
      StreamAt(blocks, first, x + y, i, i / 64, i % 64);
      StreamAt(blocks, first, x, i, i / 64, i % 64);
    }
    forall j | 0 <= j < |y| ensures whole[|x| + j] == right[j] {
      StreamAt(blocks, first, x + y, |x| + j, b + j / 64, j % 64);
      StreamAt(blocks, first + b, y, j, j / 64, j % 64);
      assert first + (b + j / 64) == first + b + j / 64;
    }
    assert whole == left + right;
  }

  /** Bytes `base` to `base + len` of `out` are the data against the block. */
  ghost predicate PieceDone(out: seq<byte>, data: seq<byte>, block: seq<byte>, base: nat, len: nat)
    requires |out| == |data| && base + len <= |data| && len <= |block|
  {
    forall i :: 0 <= i < len ==> out[base + i] == XorByte(data[base + i], block[i])
  }

  /** The first n bytes are the wanted ones. */
  ghost predicate Agree(out: seq<byte>, want: seq<byte>, n: nat)
    requires n <= |out| == |want|
  {
    forall k :: 0 <= k < n ==> out[k] == want[k]
  }

  /** The inner loop: the data's next block, or what is left of it. */
  method XorInto(out: array<byte>, data: seq<byte>, block: array<byte>, base: nat, len: nat, ghost want: seq<byte>)
    requires out.Length == |data| == |want| && base + len <= |data| && len <= block.Length && out != block
    requires PieceDone(want, data, block[..], base, len)
    requires Agree(out[..], want, base)
    modifies out
    ensures Agree(out[..], want, base + len)
  {
    ghost var bytes := block[..];
    for i := 0 to len
      invariant block[..] == bytes
      invariant Agree(out[..], want, base + i)
    {
      assert want[base + i] == XorByte(data[base + i], bytes[i]);
      out[base + i] := XorByte(data[base + i], block[i]);
    }
  }

  method BlockFor(key: seq<byte>, nonce: seq<byte>, counter: nat, blockIdx: nat,
                  ghost data: seq<byte>, ghost want: seq<byte>, ghost len: nat)
    returns (block: array<byte>)
    requires KeyAndNonce(key, nonce) && 64 * blockIdx + len <= |data| && len <= 64
    requires want == StreamXor(Blocks(key, nonce), counter, data)
    ensures fresh(block) && block.Length == 64
    ensures PieceDone(want, data, block[..], 64 * blockIdx, len)
  {
    ghost var blocks := Blocks(key, nonce);
    block := ComputeBlock(key, counter + blockIdx, nonce, blocks);
    WantedPiece(blocks, counter, data, blockIdx, block[..], len);
  }

  method Encrypt(key: seq<byte>, nonce: seq<byte>, counter: nat, data: seq<byte>) returns (out: array<byte>)
    requires KeyAndNonce(key, nonce)
    ensures fresh(out) && out[..] == StreamXor(Blocks(key, nonce), counter, data)
  {
    out := new byte[|data|](_ => 0);
    ghost var want := StreamXor(Blocks(key, nonce), counter, data);
    var blockIdx: nat := 0;
    ghost var done: nat := 0;
    while blockIdx * 64 < |data|
      invariant done == if 64 * blockIdx <= |data| then 64 * blockIdx else |data|
      invariant Agree(out[..], want, done)
      decreases |data| - blockIdx * 64
    {
      var base := blockIdx * 64;
      var len := if 64 <= |data| - base then 64 else |data| - base;
      var block := BlockFor(key, nonce, counter, blockIdx, data, want, len);
      XorInto(out, data, block, base, len, want);
      blockIdx := blockIdx + 1;
      done := base + len;
    }
    assert out[..] == want;
  }

  lemma WantedPiece(blocks: nat -> Chunk, first: nat, data: seq<byte>, b: nat, block: seq<byte>, len: nat)
    requires 64 * b + len <= |data| && len <= 64 && block == blocks(first + b)
    ensures PieceDone(StreamXor(blocks, first, data), data, block, 64 * b, len)
  {
    forall r | 0 <= r < len
      ensures StreamXor(blocks, first, data)[64 * b + r] == XorByte(data[64 * b + r], block[r])
    {
      StreamAt(blocks, first, data, 64 * b + r, b, r);
    }
  }

  /** The block counter is a 32-bit word: it wraps. */
  lemma CounterWraps(key: seq<byte>, nonce: seq<byte>, counter: nat)
    requires KeyAndNonce(key, nonce)
    ensures Block(key, counter + 0x1_0000_0000, nonce) == Block(key, counter, nonce)
  {
    assert CounterWord(counter + 0x1_0000_0000) == CounterWord(counter);
  }
}
