/** What ends a dial: after the first such bytes nothing more is read, however the stream is cut. */
module FrameEndings {
  import opened Bytes
  import opened Options
  import opened FrameReader
  import opened FrameReaderProofs
  import opened FrameCodec

  /**
   * A terminal error line, a frame at whose delivery the embedder drops the dial, a MSG line that is no header, a
   * payload not followed by CR LF, and a line over the limit.
   */
  datatype Breach =
    | FatalError(text: seq<byte>)
    | Deserted(frame: Frame)
    | BadHeader(line: seq<byte>)
    | BadEnd(frame: Frame, x: byte, y: byte)
    | Overlong(line: seq<byte>)

  function Breaking(v: Breach): seq<byte> {
    match v
    case FatalError(text) => ERR_PREFIX + text + CRLF
    case Deserted(frame) => Encode(frame)
    case BadHeader(line) => line + CRLF
    case BadEnd(frame, x, y) =>
      Line(frame) + CRLF + ((if frame.MsgFrame? then frame.payload else []) + [x, y])
    case Overlong(line) => line + CRLF
  }

  /** A MSG line whose tokens are not four or five, or empty, or whose last one is no allowed size. */
  predicate NoHeader(line: seq<byte>) {
    var parts := Split(line);
    var size := parts[|parts| - 1];
    |parts| < 4 || |parts| > 5 || [] in parts || !IsNumber(size) || Decimal(size) > MAX_PAYLOAD
  }

  ghost predicate Breaks(host: Host, log: seq<Event>, v: Breach) {
    match v
    case FatalError(text) => OneLine(text) && |ERR_PREFIX + text| < MAX_CONTROL_LINE && Fatal(ERR_PREFIX + text)
    case Deserted(frame) =>
      WellFormed(host, frame) && (frame.PongFrame? || frame.MsgFrame?) && !host.current(log + EventOf(frame))
    case BadHeader(line) => OneLine(line) && |line| < MAX_CONTROL_LINE && MSG_PREFIX <= line && NoHeader(line)
    case BadEnd(frame, x, y) => WellFormed(host, frame) && frame.MsgFrame? && !(x == CR && y == LF)
    case Overlong(line) => OneLine(line) && |line| > MAX_CONTROL_LINE
  }

  /** What is still delivered, and how the dial ends. */
  function LastEvents(v: Breach): seq<Event> {
    match v
    case FatalError(text) => [ServerError(ERR_PREFIX + text)]
    case Deserted(frame) => EventOf(frame)
    case _ => []
  }

  function EndingOf(v: Breach): Ending {
    match v
    case FatalError(_) => Terminal
    case Deserted(_) => Replaced
    case _ => Reconnect
  }

  // ---------------------------------------------------------------------------
  // One breach
  // ---------------------------------------------------------------------------

  lemma FirstLineEnd(line: seq<byte>, after: seq<byte>)
    requires OneLine(line)
    ensures CrlfIndex(line + CRLF + after) == Some(|line|)
  {
    var b := line + CRLF + after;
    assert forall i :: 0 <= i && i + 1 < |line| ==> (CrlfAt(b, i) <==> CrlfAt(line, i));
    assert b[|line|] == CR;
    CrlfIndexIs(b, |line|);
  }

  lemma LineDrained(host: Host, line: seq<byte>, after: seq<byte>, log: seq<Event>)
    requires OneLine(line) && |line| <= MAX_CONTROL_LINE
    ensures OnePass(host, line + CRLF + after, log) == LinePass(host, line, after, log)
  {
    FirstLineEnd(line, after);
    var b := line + CRLF + after;
    assert b[..|line|] == line && b[|line| + 2..] == after;
  }

  lemma NoHeaderIsRefused(line: seq<byte>)
    requires NoHeader(line)
    ensures ParseHeader(line).None?
  {
  }

  lemma ErrorIsOneLine(text: seq<byte>)
    requires OneLine(text)
    ensures OneLine(ERR_PREFIX + text)
  {
    assert forall i :: CrlfAt(ERR_PREFIX + text, i) ==> CrlfAt(text, i - |ERR_PREFIX|);
  }

  lemma FatalEnds(host: Host, text: seq<byte>, rest: seq<byte>, log: seq<Event>)
    requires Breaks(host, log, FatalError(text))
    ensures Drain(host, Breaking(FatalError(text)) + rest, log) == Close(log + LastEvents(FatalError(text)), Terminal)
  {
    var line := ERR_PREFIX + text;
    ErrorIsOneLine(text);
    LineDrained(host, line, rest, log);
    assert INFO_PREFIX[0] != ERR_PREFIX[0] && MSG_PREFIX[0] != ERR_PREFIX[0];
  }

  lemma DesertedEnds(host: Host, f: Frame, rest: seq<byte>, log: seq<Event>)
    requires Breaks(host, log, Deserted(f))
    ensures Drain(host, Breaking(Deserted(f)) + rest, log) == Close(log + EventOf(f), Replaced)
  {
    LineIsOneLine(host, f);
    if f.PongFrame? {
      LineDrained(host, Line(f), rest, log);
      assert Breaking(Deserted(f)) + rest == Line(f) + CRLF + rest;
    } else {
      var after := f.payload + CRLF + rest;
      LineDrained(host, Line(f), after, log);
      assert Breaking(Deserted(f)) + rest == Line(f) + CRLF + after;
      HeaderOf(host, f);
      assert INFO_PREFIX[0] != MSG_PREFIX[0] && PONG_LINE[0] != MSG_PREFIX[0];
      assert after[..|f.payload|] == f.payload;
      assert after[|f.payload|] == CR && after[|f.payload| + 1] == LF;
    }
  }

  lemma BadHeaderEnds(host: Host, line: seq<byte>, rest: seq<byte>, log: seq<Event>)
    requires Breaks(host, log, BadHeader(line))
    ensures Drain(host, Breaking(BadHeader(line)) + rest, log) == Close(log, Reconnect)
  {
    LineDrained(host, line, rest, log);
    NoHeaderIsRefused(line);
    assert INFO_PREFIX[0] != MSG_PREFIX[0] && PONG_LINE[0] != MSG_PREFIX[0] && PING_LINE[0] != MSG_PREFIX[0];
  }

  lemma BadEndEnds(host: Host, f: Frame, x: byte, y: byte, rest: seq<byte>, log: seq<Event>)
    requires Breaks(host, log, BadEnd(f, x, y))
    ensures Drain(host, Breaking(BadEnd(f, x, y)) + rest, log) == Close(log, Reconnect)
  {
    var after := f.payload + [x, y] + rest;
    LineIsOneLine(host, f);
    LineDrained(host, Line(f), after, log);
    assert Breaking(BadEnd(f, x, y)) + rest == Line(f) + CRLF + after;
    HeaderOf(host, f);
    assert INFO_PREFIX[0] != MSG_PREFIX[0] && PONG_LINE[0] != MSG_PREFIX[0] && PING_LINE[0] != MSG_PREFIX[0];
    assert after[|f.payload|] == x && after[|f.payload| + 1] == y;
  }

  lemma BreachEnds(host: Host, v: Breach, rest: seq<byte>, log: seq<Event>)
    requires Breaks(host, log, v)
    ensures Drain(host, Breaking(v) + rest, log) == Close(log + LastEvents(v), EndingOf(v))
  {
    assert log + [] == log;
    match v
    case FatalError(text) => FatalEnds(host, text, rest, log);
    case Deserted(f) => DesertedEnds(host, f, rest, log);
    case BadHeader(line) => BadHeaderEnds(host, line, rest, log);
    case BadEnd(f, x, y) => BadEndEnds(host, f, x, y, rest, log);
    case Overlong(line) => FirstLineEnd(line, rest);
  }

  // ---------------------------------------------------------------------------
  // Part of a breach
  // ---------------------------------------------------------------------------

  lemma PartialLine(host: Host, line: seq<byte>, b: seq<byte>, log: seq<Event>)
    requires OneLine(line) && b <= line + CRLF && |b| < |line| + 2
    ensures Drain(host, b, log) == if |b| > MAX_CONTROL_LINE then Close(log, Reconnect) else Dial(b, log, None)
  {
    var all := line + CRLF;
    FirstLineEnd(line, []);
    assert all + [] == all;
    assert forall i :: CrlfAt(b, i) ==> CrlfAt(all, i);
    assert CrlfIndex(b).None?;
  }

  lemma PartialPayload(host: Host, f: Frame, got: seq<byte>, log: seq<Event>)
    requires WellFormed(host, f) && f.MsgFrame? && |got| < |f.payload| + 2
    ensures var b := Line(f) + CRLF + got; Drain(host, b, log) == Dial(b, log, None)
  {
    LineIsOneLine(host, f);
    LineDrained(host, Line(f), got, log);
    FirstLineEnd(Line(f), got);
    HeaderOf(host, f);
    assert INFO_PREFIX[0] != MSG_PREFIX[0] && PONG_LINE[0] != MSG_PREFIX[0] && PING_LINE[0] != MSG_PREFIX[0];
  }

  /** Cut short, a breach is kept for later, or the dial ends at once as it would have. */
  lemma PartialBreach(host: Host, v: Breach, b: seq<byte>, log: seq<Event>)
    requires Breaks(host, log, v) && b <= Breaking(v) && |b| < |Breaking(v)|
    ensures Drain(host, b, log) == Dial(b, log, None) || Drain(host, b, log) == Close(log + LastEvents(v), EndingOf(v))
  {
    assert log + [] == log;
    match v
    case FatalError(text) =>
      ErrorIsOneLine(text);
      PartialLine(host, ERR_PREFIX + text, b, log);
    case Deserted(f) => PartialFrame(host, f, b, Encode(f)[|b|..], [], log);
    case BadHeader(line) => PartialLine(host, line, b, log);
    case BadEnd(f, x, y) =>
      LineIsOneLine(host, f);
      var n := |Line(f)| + 2;
      if |b| < n {
        assert Breaking(v)[..n] == Line(f) + CRLF;
        PartialLine(host, Line(f), b, log);
      } else {
        PartialPayload(host, f, b[n..], log);
        assert b == Line(f) + CRLF + b[n..];
      }
    case Overlong(line) => PartialLine(host, line, b, log);
  }

  // ---------------------------------------------------------------------------
  // Frames, then a breach
  // ---------------------------------------------------------------------------

  lemma {:induction false} FramesDrained(host: Host, frames: seq<Frame>, tail: seq<byte>, log: seq<Event>)
    requires forall f :: f in frames ==> WellFormed(host, f)
    requires Stays(host, frames, log)
    ensures Drain(host, EncodeAll(frames) + tail, log) == Drain(host, tail, log + Events(frames))
    decreases frames
  {
    if frames == [] {
      assert [] + tail == tail && log + [] == log;
    } else {
      var f, more := frames[0], frames[1..];
      assert EncodeAll(frames) + tail == Encode(f) + (EncodeAll(more) + tail);
      FrameDrained(host, f, EncodeAll(more) + tail, log);
      FramesDrained(host, more, tail, log + EventOf(f));
      Associate(log, EventOf(f), Events(more));
    }
  }

  /** What is left of the stream: the rest of the frames, the breach, and whatever follows. */
  ghost predicate Ahead(host: Host, d: Dial, frames: seq<Frame>, v: Breach, rest: seq<byte>, left: seq<byte>) {
    && d.closed.None?
    && (forall f :: f in frames ==> WellFormed(host, f))
    && Stays(host, frames, d.log)
    && Breaks(host, d.log + Events(frames), v)
    && d.buffer + left == EncodeAll(frames) + (Breaking(v) + rest)
    && |d.buffer| < |if frames == [] then Breaking(v) else Encode(frames[0])|
  }

  lemma Leftover(b: seq<byte>, left: seq<byte>, e: seq<byte>, tail: seq<byte>)
    requires b + left == e + tail
    ensures |b| <= |e| ==> b + e[|b|..] == e && left == e[|b|..] + tail
    ensures |b| >= |e| ==> b == e + b[|e|..] && b[|e|..] + left == tail
  {
    var all := b + left;
    assert all[|b|..] == left && all[..|b|] == b;
    if |b| <= |e| {
      assert (e + tail)[..|b|] == e[..|b|];
      assert (e + tail)[|b|..] == e[|b|..] + tail;
    }
    if |b| >= |e| {
      assert all[..|e|] == e == b[..|e|];
      assert all[|e|..] == tail == b[|e|..] + left;
    }
  }

  /** The stream is never over before the breach. */
  lemma NotOver(host: Host, d: Dial, frames: seq<Frame>, v: Breach, rest: seq<byte>, left: seq<byte>)
    requires Ahead(host, d, frames, v, rest, left)
    ensures left != []
  {
    assert |d.buffer + left| == |EncodeAll(frames)| + |Breaking(v) + rest|;
    assert frames != [] ==> |EncodeAll(frames)| >= |Encode(frames[0])|;
  }

  lemma AheadOf(host: Host, t: Dial, frames: seq<Frame>, v: Breach, rest: seq<byte>, part: seq<byte>)
    requires Reading(host, t, frames, part) && part != []
    requires forall f :: f in frames ==> WellFormed(host, f)
    requires Breaks(host, t.log + Events(frames), v)
    ensures Ahead(host, t, frames, v, rest, part + (Breaking(v) + rest))
  {
    Associate(t.buffer, part, Breaking(v) + rest);
    Longer(t.buffer, part);
  }

  lemma Longer<T>(a: seq<T>, b: seq<T>)
    ensures b != [] ==> a + b != []
  {
  }

  /** A chunk that ends inside the frames. */
  lemma StillAhead(host: Host, d: Dial, frames: seq<Frame>, v: Breach, rest: seq<byte>, chunk: seq<byte>, left: seq<byte>)
    returns (k: nat)
    requires Ahead(host, d, frames, v, rest, chunk + left) && |d.buffer + chunk| < |EncodeAll(frames)|
    ensures k <= |frames|
    ensures var t := Drain(host, d.buffer + chunk, d.log);
            Ahead(host, t, frames[k..], v, rest, left) && t.log + Events(frames[k..]) == d.log + Events(frames)
  {
    var b, e := d.buffer + chunk, EncodeAll(frames);
    Cut(d.buffer, chunk, left, e, Breaking(v) + rest);
    var part := e[|b|..];
    k := DrainPrefix(host, frames, b, part, d.log);
    EventsSplit(frames, k, d.log);
    AheadOf(host, Drain(host, b, d.log), frames[k..], v, rest, part);
  }

  lemma Cut(buffer: seq<byte>, chunk: seq<byte>, left: seq<byte>, e: seq<byte>, tail: seq<byte>)
    requires buffer + (chunk + left) == e + tail
    ensures var b := buffer + chunk;
            if |b| < |e| then b + e[|b|..] == e && left == e[|b|..] + tail
            else b == e + b[|e|..] && b[|e|..] + left == tail
  {
    assert (buffer + chunk) + left == buffer + (chunk + left);
    Leftover(buffer + chunk, left, e, tail);
  }

  lemma {:induction false} FeedBreach(host: Host, d: Dial, frames: seq<Frame>, v: Breach, rest: seq<byte>, chunks: seq<seq<byte>>)
    requires Ahead(host, d, frames, v, rest, Concat(chunks)) && AllFit(host, d, chunks)
    ensures FeedAll(host, d, chunks) == Close(d.log + Events(frames) + LastEvents(v), EndingOf(v))
    decreases chunks
  {
    if chunks == [] {
      NotOver(host, d, frames, v, rest, Concat(chunks));
      assert false;
    } else {
      var chunk, more := chunks[0], chunks[1..];
      var left, t := Concat(more), Feed(host, d, chunk);
      if |d.buffer + chunk| < |EncodeAll(frames)| {
        var k := StillAhead(host, d, frames, v, rest, chunk, left);
        FeedBreach(host, t, frames[k..], v, rest, more);
      } else {
        FeedPast(host, d, frames, v, rest, chunk, left);
        if t.closed.Some? {
          FeedAllClosed(host, t, more);
        } else {
          assert t.log + Events([]) == t.log;
          FeedBreach(host, t, [], v, rest, more);
        }
      }
    }
  }

  /** A chunk that ends behind the frames. */
  lemma FeedPast(host: Host, d: Dial, frames: seq<Frame>, v: Breach, rest: seq<byte>, chunk: seq<byte>, left: seq<byte>)
    requires Ahead(host, d, frames, v, rest, chunk + left) && |d.buffer + chunk| >= |EncodeAll(frames)|
    ensures var t := Drain(host, d.buffer + chunk, d.log);
            || t == Close(d.log + Events(frames) + LastEvents(v), EndingOf(v))
            || (Ahead(host, t, [], v, rest, left) && t.log == d.log + Events(frames))
  {
    var b, e := d.buffer + chunk, EncodeAll(frames);
    Cut(d.buffer, chunk, left, e, Breaking(v) + rest);
    FramesDrained(host, frames, b[|e|..], d.log);
    PastFrames(host, v, b[|e|..], rest, left, d.log + Events(frames));
  }

  lemma PastFrames(host: Host, v: Breach, b: seq<byte>, rest: seq<byte>, left: seq<byte>, log: seq<Event>)
    requires Breaks(host, log, v) && b + left == Breaking(v) + rest
    ensures var t := Drain(host, b, log);
            t == Close(log + LastEvents(v), EndingOf(v)) || (Ahead(host, t, [], v, rest, left) && t.log == log)
  {
    Leftover(b, left, Breaking(v), rest);
    if |b| >= |Breaking(v)| {
      BreachEnds(host, v, b[|Breaking(v)|..], log);
    } else {
      assert b == Breaking(v)[..|b|];
      PartialBreach(host, v, b, log);
      assert log + Events([]) == log;
      assert [] + (Breaking(v) + rest) == Breaking(v) + rest;
    }
  }

  lemma EmptyFirst<T>(a: seq<T>)
    ensures [] + a == a
  {
  }

  lemma NotEmpty(frames: seq<Frame>, v: Breach)
    ensures |if frames == [] then Breaking(v) else Encode(frames[0])| > 0
  {
  }

  /**
   * Well-formed frames followed by a breach, cut anywhere: exactly those frames are delivered, and what the breach
   * itself delivers; then the dial is closed as the breach closes it, whatever follows.
   */
  lemma NothingAfterABreach(host: Host, frames: seq<Frame>, v: Breach, rest: seq<byte>, chunks: seq<seq<byte>>)
    requires forall f :: f in frames ==> WellFormed(host, f)
    requires Stays(host, frames, []) && Breaks(host, Events(frames), v)
    requires Concat(chunks) == EncodeAll(frames) + Breaking(v) + rest
    requires AllFit(host, FRESH, chunks)
    ensures FeedAll(host, FRESH, chunks) == Close(Events(frames) + LastEvents(v), EndingOf(v))
  {
    EmptyFirst(Events(frames));
    EmptyFirst(Concat(chunks));
    Associate(EncodeAll(frames), Breaking(v), rest);
    NotEmpty(frames, v);
    FeedBreach(host, FRESH, frames, v, rest, chunks);
  }

  /** The same letter, small or capital; every other byte is itself. */
  predicate SameLetter(b: byte, letter: byte) {
    b == letter || (97 <= letter <= 122 && b == letter - 32)
  }

  lemma LowerCaseIs(b: byte, letter: byte)
    requires !(65 <= letter <= 90)
    ensures LowerCase(b) == letter <==> SameLetter(b, letter)
  {
  }

  ghost predicate Says(line: seq<byte>, words: seq<byte>, i: nat) {
    i + |words| <= |line| && forall k :: 0 <= k < |words| ==> SameLetter(line[i + k], words[k])
  }

  lemma SaysIsMentions(line: seq<byte>, words: seq<byte>, i: nat)
    requires i + |words| <= |line| && forall k :: 0 <= k < |words| ==> !(65 <= words[k] <= 90)
    ensures MentionsAt(line, words, i) <==> Says(line, words, i)
  {
    forall k | 0 <= k < |words| ensures LowerCase(line[i + k]) == words[k] <==> SameLetter(line[i + k], words[k]) {
      LowerCaseIs(line[i + k], words[k]);
    }
  }

  /** An error is terminal exactly if the server's wording stands somewhere in its line, in any mix of letter case. */
  lemma RejectionIsFatal(line: seq<byte>)
    ensures Fatal(line) <==> exists i: nat :: Says(line, EXPIRED, i) || Says(line, VIOLATION, i)
  {
    if Fatal(line) {
      var words := if Mentions(line, EXPIRED) then EXPIRED else VIOLATION;
      var i :| 0 <= i <= |line| - |words| && MentionsAt(line, words, i);
      SaysIsMentions(line, words, i);
    }
    if i: nat :| Says(line, EXPIRED, i) || Says(line, VIOLATION, i) {
      var words := if Says(line, EXPIRED, i) then EXPIRED else VIOLATION;
      SaysIsMentions(line, words, i);
      assert MentionsAt(line, words, i);
    }
  }

  /** A chunk that would overfill the buffer, of 8 MiB and 64 KiB and 4 bytes, ends the dial unread. */
  lemma OverfullIsRefused(host: Host, d: Dial, chunk: seq<byte>)
    requires d.closed.None? && |d.buffer| + |chunk| > 8 * 1024 * 1024 + 64 * 1024 + 4
    ensures Feed(host, d, chunk) == Dial([], d.log, Some(Reconnect))
  {
  }
}
