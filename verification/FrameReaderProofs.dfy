/** Chunk independence of the reader, and the one kind of line for which it fails. */
module FrameReaderProofs {
  import opened Bytes
  import opened Options
  import opened FrameReader

  // ---------------------------------------------------------------------------
  // Chunk independence
  // ---------------------------------------------------------------------------

  lemma CrlfIndexPrefix(b: seq<byte>, c: seq<byte>)
    requires CrlfIndex(b).Some?
    ensures CrlfIndex(b + c) == CrlfIndex(b)
  {
    var p := CrlfIndex(b).value;
    assert forall i :: 0 <= i <= p ==> (CrlfAt(b + c, i) <==> CrlfAt(b, i));
    CrlfIndexIs(b + c, p);
  }

  lemma LinePassSplit(host: Host, line: seq<byte>, rest: seq<byte>, c: seq<byte>, log: seq<Event>)
    ensures var p, q := LinePass(host, line, rest, log), LinePass(host, line, rest + c, log);
            match p
            case Next(buffer, log') => q == Next(buffer + c, log')
            case Stop(d) => d.closed.Some? ==> q == p
  {
    var h := ParseHeader(line);
    if h.Some? && |rest| >= h.value.byteCount + 2 {
      var n := h.value.byteCount;
      assert (rest + c)[n + 2..] == rest[n + 2..] + c && (rest + c)[..n] == rest[..n];
    }
  }

  lemma PassSplit(host: Host, b: seq<byte>, c: seq<byte>, log: seq<Event>)
    ensures var p, q := OnePass(host, b, log), OnePass(host, b + c, log);
            match p
            case Next(buffer, log') => q == Next(buffer + c, log')
            case Stop(d) => d.closed.Some? ==> q == p
  {
    if CrlfIndex(b).Some? {
      CrlfIndexPrefix(b, c);
      var p := CrlfIndex(b).value;
      assert (b + c)[..p] == b[..p] && (b + c)[p + 2..] == b[p + 2..] + c;
      LinePassSplit(host, b[..p], b[p + 2..], c, log);
    }
  }

  /** The loop itself never depends on where the bytes were cut. */
  lemma {:induction false} LoopSplit(host: Host, b: seq<byte>, c: seq<byte>, log: seq<Event>)
    ensures var d := Loop(host, b, log);
            Loop(host, b + c, log) == if d.closed.Some? then d else Loop(host, d.buffer + c, d.log)
    decreases |b|
  {
    PassSplit(host, b, c, log);
    var p := OnePass(host, b, log);
    if p.Next? {
      LoopSplit(host, p.buffer, c, p.log);
    }
  }

  /** The one cut that matters: between the CR and the LF of a line of exactly MAX_CONTROL_LINE bytes. */
  predicate CutsLimitLine(d: Dial, next: seq<byte>) {
    && d.closed.None?
    && CrlfIndex(d.buffer).None?
    && |d.buffer| == MAX_CONTROL_LINE + 1
    && d.buffer[MAX_CONTROL_LINE] == CR
    && next != [] && next[0] == LF
  }

  lemma LongTailStaysLong(host: Host, b: seq<byte>, c: seq<byte>, log: seq<Event>)
    requires CrlfIndex(b).None? && |b| > MAX_CONTROL_LINE
    requires !CutsLimitLine(Dial(b, log, None), c)
    ensures Drain(host, b + c, log) == Close(log, Reconnect)
  {
    var r := CrlfIndex(b + c);
    assert forall i :: 0 <= i && i + 1 < |b| ==> (CrlfAt(b + c, i) <==> CrlfAt(b, i));
    if r.Some? {
      assert r.value + 1 >= |b|;
    }
  }

  /** A cut makes the size check refuse a line the uncut bytes carry legally exactly in the limit case. */
  lemma RefusedThoughLegal(host: Host, b: seq<byte>, c: seq<byte>, log: seq<Event>)
    ensures var d := Loop(host, b, log);
            (d.closed.None? && Finish(d).closed.Some?
             && CrlfIndex(d.buffer + c).Some? && CrlfIndex(d.buffer + c).value <= MAX_CONTROL_LINE)
            <==> CutsLimitLine(d, c)
  {
    var d := Loop(host, b, log);
    var r := d.buffer;
    assert forall i :: 0 <= i && i + 1 < |r| ==> (CrlfAt(r + c, i) <==> CrlfAt(r, i));
    if CutsLimitLine(d, c) {
      CrlfIndexIs(r + c, MAX_CONTROL_LINE);
    }
  }

  lemma DrainSplit(host: Host, b: seq<byte>, c: seq<byte>, log: seq<Event>)
    requires !CutsLimitLine(Loop(host, b, log), c)
    ensures var d := Drain(host, b, log);
            Drain(host, b + c, log) == if d.closed.Some? then d else Drain(host, d.buffer + c, d.log)
  {
    LoopSplit(host, b, c, log);
    var d := Loop(host, b, log);
    if d.closed.None? && Finish(d).closed.Some? {
      LongTailStaysLong(host, d.buffer, c, d.log);
    }
  }

  predicate AllFit(host: Host, d: Dial, chunks: seq<seq<byte>>)
    decreases chunks
  {
    chunks == [] || ((d.closed.Some? || Fits(d, chunks[0])) && AllFit(host, Feed(host, d, chunks[0]), chunks[1..]))
  }

  /** No cut of the stream falls inside the line end of a limit-length line. */
  predicate NoLimitCut(host: Host, stream: seq<byte>, chunks: seq<seq<byte>>, log: seq<Event>)
    decreases chunks
  {
    chunks == [] || (!CutsLimitLine(Loop(host, stream + chunks[0], log), Concat(chunks[1..]))
                     && NoLimitCut(host, stream + chunks[0], chunks[1..], log))
  }

  lemma {:induction false} FeedAllClosed(host: Host, d: Dial, chunks: seq<seq<byte>>)
    requires d.closed.Some?
    ensures FeedAll(host, d, chunks) == d
    decreases chunks
  {
    if chunks != [] {
      FeedAllClosed(host, d, chunks[1..]);
    }
  }

  lemma {:induction false} FeedAllIsDrainFrom(host: Host, seen: seq<byte>, chunks: seq<seq<byte>>, log: seq<Event>)
    requires var d := Drain(host, seen, log); AllFit(host, d, chunks)
    requires NoLimitCut(host, seen, chunks, log)
    requires !CutsLimitLine(Loop(host, seen, log), Concat(chunks))
    ensures FeedAll(host, Drain(host, seen, log), chunks) == Drain(host, seen + Concat(chunks), log)
    decreases chunks
  {
    hide Loop, Drain, CutsLimitLine;
    var d := Drain(host, seen, log);
    var all := Concat(chunks);
    if d.closed.Some? {
      FeedAllClosed(host, d, chunks);
      DrainSplit(host, seen, all, log);
    } else if chunks == [] {
      assert seen + all == seen;
    } else {
      DrainSplitOpen(host, seen, chunks[0], log);
      assert seen + all == (seen + chunks[0]) + Concat(chunks[1..]);
      FeedAllIsDrainFrom(host, seen + chunks[0], chunks[1..], log);
    }
  }

  lemma DrainSplitOpen(host: Host, b: seq<byte>, c: seq<byte>, log: seq<Event>)
    requires Drain(host, b, log).closed.None?
    ensures var d := Drain(host, b, log); Drain(host, b + c, log) == Drain(host, d.buffer + c, d.log)
  {
    DrainSplit(host, b, c, log);
  }

  /**
   * Any cut of any byte stream into chunks that each fit ends in the state one
   * uncut drain of the stream reaches, if no cut splits the line end of a line of
   * exactly MAX_CONTROL_LINE bytes.
   */
  lemma ChunksDoNotMatter(host: Host, chunks: seq<seq<byte>>)
    requires AllFit(host, FRESH, chunks)
    requires NoLimitCut(host, [], chunks, [])
    ensures FeedAll(host, FRESH, chunks) == Drain(host, Concat(chunks), [])
  {
    assert Drain(host, [], []) == FRESH;
    assert [] + Concat(chunks) == Concat(chunks);
    FeedAllIsDrainFrom(host, [], chunks, []);
  }

  /** The exception is real: every limit-length line of an unknown verb is read whole and refused when cut. */
  lemma LimitCutMatters(host: Host, line: seq<byte>)
    requires |line| == MAX_CONTROL_LINE && line[0] == SP && CR !in line
    ensures Drain(host, line + CRLF, []) == FRESH
    ensures FeedAll(host, FRESH, [line + [CR], [LF]]) == Close([], Reconnect)
  {
    var whole := line + CRLF;
    CrlfIndexIs(whole, |line|);
    assert whole[..|line|] == line && whole[|line| + 2..] == [];
    assert line[0] != INFO_PREFIX[0] && line[0] != MSG_PREFIX[0] && line[0] != ERR_PREFIX[0];
    assert LinePass(host, line, [], []) == Next([], []);
    assert Loop(host, whole, []) == Loop(host, [], []);
    var cut := line + [CR];
    assert CrlfIndex(cut).None?;
    assert [] + cut == cut;
    assert Feed(host, FRESH, cut) == Close([], Reconnect);
    var chunks := [cut, [LF]];
    assert chunks[1..] == [[LF]];
    FeedAllClosed(host, Close([], Reconnect), chunks[1..]);
  }

  /** What a drain leaves always has room for more: the buffer limit never strands a legal frame. */
  lemma {:induction false} LeftoverHasRoom(host: Host, buffer: seq<byte>, log: seq<Event>)
    ensures |Drain(host, buffer, log).buffer| < MAX_BUFFERED_BYTES
    decreases |buffer|
  {
    var p := OnePass(host, buffer, log);
    if p.Next? {
      LeftoverHasRoom(host, p.buffer, p.log);
    }
  }
}
