/** Server frames as bytes, and the proof that the reader gives them back however they were cut. */
module FrameCodec {
  import opened Bytes
  import opened Options
  import opened FrameReader

  datatype Frame =
    | InfoFrame(text: seq<byte>)
    | PongFrame
    | PingFrame
    | ErrFrame(text: seq<byte>)
    | MsgFrame(subject: seq<byte>, sid: seq<byte>, replyTo: Option<seq<byte>>, payload: seq<byte>)
    | OtherFrame(line: seq<byte>)

  function Digits(n: nat): (d: seq<byte>)
    ensures IsNumber(d)
    ensures Decimal(d) == n
  {
    if n < 10 then [(48 + n) as byte]
    else
      var d := Digits(n / 10) + [(48 + n % 10) as byte];
      assert d[..|d| - 1] == Digits(n / 10);
      d
  }

  function Line(f: Frame): seq<byte> {
    match f
    case InfoFrame(text) => INFO_PREFIX + text
    case PongFrame => PONG_LINE
    case PingFrame => PING_LINE
    case ErrFrame(text) => ERR_PREFIX + text
    case MsgFrame(subject, sid, replyTo, payload) =>
      MSG_PREFIX + (subject + [SP] + (sid + [SP] + (if replyTo.Some? then replyTo.value + [SP] + Digits(|payload|) else Digits(|payload|))))
    case OtherFrame(line) => line
  }

  function Encode(f: Frame): seq<byte> {
    Line(f) + CRLF + if f.MsgFrame? then f.payload + CRLF else []
  }

  function EncodeAll(frames: seq<Frame>): seq<byte> {
    if frames == [] then [] else Encode(frames[0]) + EncodeAll(frames[1..])
  }

  function EventOf(f: Frame): seq<Event> {
    match f
    case InfoFrame(_) => [Info(Line(f))]
    case PongFrame => [Pong]
    case PingFrame => [Ping]
    case ErrFrame(_) => [ServerError(Line(f))]
    case MsgFrame(subject, _, _, payload) => [Msg(subject, payload)]
    case OtherFrame(_) => []
  }

  function Events(frames: seq<Frame>): seq<Event> {
    if frames == [] then [] else EventOf(frames[0]) + Events(frames[1..])
  }

  predicate Token(t: seq<byte>) {
    t != [] && SP !in t && CR !in t
  }

  ghost predicate OneLine(line: seq<byte>) {
    forall i :: !CrlfAt(line, i)
  }

  /** A frame a server may send: one short enough line, real tokens, no verb clash. */
  ghost predicate WellFormed(host: Host, f: Frame) {
    && |Line(f)| < MAX_CONTROL_LINE
    && match f
       case InfoFrame(text) => OneLine(text)
       case ErrFrame(text) => OneLine(text) && !Fatal(Line(f))
       case MsgFrame(subject, sid, replyTo, payload) =>
         Token(subject) && Token(sid) && (replyTo.Some? ==> Token(replyTo.value)) && |payload| <= MAX_PAYLOAD
       case OtherFrame(line) =>
         && OneLine(line) && line != PONG_LINE && line != PING_LINE
         && !(INFO_PREFIX <= line) && !(MSG_PREFIX <= line) && !(ERR_PREFIX <= line)
       case _ => true
  }

  /** The embedder keeps the dial through every delivery. */
  predicate Stays(host: Host, frames: seq<Frame>, log: seq<Event>)
    decreases frames
  {
    frames == [] || ((frames[0].PongFrame? || frames[0].MsgFrame? ==> host.current(log + EventOf(frames[0])))
                     && Stays(host, frames[1..], log + EventOf(frames[0])))
  }

  // ---------------------------------------------------------------------------
  // One frame
  // ---------------------------------------------------------------------------

  lemma {:induction false} SplitToken(t: seq<byte>, rest: seq<byte>)
    requires SP !in t
    ensures Split(t + [SP] + rest) == [t] + Split(rest)
  {
    var line := t + [SP] + rest;
    if t == [] {
      assert line[1..] == rest;
    } else {
      assert line[1..] == t[1..] + [SP] + rest;
      SplitToken(t[1..], rest);
      assert [t[0]] + t[1..] == t;
    }
  }

  lemma {:induction false} SplitLast(t: seq<byte>)
    requires SP !in t
    ensures Split(t) == [t]
  {
    if t != [] {
      SplitLast(t[1..]);
      assert [t[0]] + t[1..] == t;
    }
  }

  lemma DigitsHaveNoSpace(n: nat)
    ensures SP !in Digits(n) && CR !in Digits(n) && Digits(n) != []
  {
    var d := Digits(n);
    assert forall i :: 0 <= i < |d| ==> IsDigit(d[i]);
  }

  function HeaderTail(f: Frame): seq<seq<byte>>
    requires f.MsgFrame?
  {
    (if f.replyTo.Some? then [f.replyTo.value] else []) + [Digits(|f.payload|)]
  }

  lemma SplitHeader(host: Host, f: Frame)
    requires f.MsgFrame? && WellFormed(host, f)
    ensures Split(Line(f)) == [MSG_PREFIX[..3], f.subject, f.sid] + HeaderTail(f)
  {
    var digits := Digits(|f.payload|);
    DigitsHaveNoSpace(|f.payload|);
    SplitLast(digits);
    var tail := if f.replyTo.Some? then f.replyTo.value + [SP] + digits else digits;
    if f.replyTo.Some? {
      SplitToken(f.replyTo.value, digits);
    }
    assert Split(tail) == HeaderTail(f);
    SplitToken(f.sid, tail);
    SplitToken(f.subject, f.sid + [SP] + tail);
    var verb := MSG_PREFIX[..3];
    var rest := f.subject + [SP] + (f.sid + [SP] + tail);
    SplitToken(verb, rest);
    assert Line(f) == verb + [SP] + rest;
  }

  lemma HeaderOf(host: Host, f: Frame)
    requires f.MsgFrame? && WellFormed(host, f)
    ensures ParseHeader(Line(f)) == Some(Header(f.subject, |f.payload|))
  {
    SplitHeader(host, f);
    DigitsHaveNoSpace(|f.payload|);
    var parts := [MSG_PREFIX[..3], f.subject, f.sid] + HeaderTail(f);
    assert parts[|parts| - 1] == Digits(|f.payload|) && parts[1] == f.subject;
  }

  lemma LineIsOneLine(host: Host, f: Frame)
    requires WellFormed(host, f)
    ensures OneLine(Line(f))
  {
    match f {
      case InfoFrame(text) =>
        assert forall i :: CrlfAt(INFO_PREFIX + text, i) ==> CrlfAt(text, i - |INFO_PREFIX|);
      case ErrFrame(text) =>
        assert forall i :: CrlfAt(ERR_PREFIX + text, i) ==> CrlfAt(text, i - |ERR_PREFIX|);
      case MsgFrame(subject, sid, replyTo, payload) =>
        var digits := Digits(|payload|);
        assert forall i :: 0 <= i < |digits| ==> IsDigit(digits[i]);
        assert CR !in digits && CR !in MSG_PREFIX;
        assert CR !in Line(f);
      case _ =>
    }
  }

  lemma FirstCrlf(host: Host, f: Frame, after: seq<byte>)
    requires WellFormed(host, f)
    ensures CrlfIndex(Line(f) + CRLF + after) == Some(|Line(f)|)
  {
    LineIsOneLine(host, f);
    var b := Line(f) + CRLF + after;
    assert forall i :: 0 <= i && i + 1 < |Line(f)| ==> (CrlfAt(b, i) <==> CrlfAt(Line(f), i));
    assert b[|Line(f)|] == CR;
    CrlfIndexIs(b, |Line(f)|);
  }

  lemma FrameLinePass(host: Host, f: Frame, rest: seq<byte>, log: seq<Event>)
    requires WellFormed(host, f)
    requires f.PongFrame? || f.MsgFrame? ==> host.current(log + EventOf(f))
    ensures LinePass(host, Line(f), (if f.MsgFrame? then f.payload + CRLF else []) + rest, log) == Next(rest, log + EventOf(f))
  {
    match f {
      case MsgFrame(_, _, _, payload) =>
        HeaderOf(host, f);
        var after := payload + CRLF + rest;
        assert INFO_PREFIX[0] != MSG_PREFIX[0];
        assert after[..|payload|] == payload && after[|payload| + 2..] == rest;
        assert after[|payload|] == CR && after[|payload| + 1] == LF;
      case ErrFrame(_) =>
        assert INFO_PREFIX[0] != ERR_PREFIX[0] && MSG_PREFIX[0] != ERR_PREFIX[0];
        assert [] + rest == rest;
      case PongFrame =>
        assert [] + rest == rest;
      case PingFrame =>
        assert [] + rest == rest;
      case InfoFrame(_) =>
        assert [] + rest == rest;
      case OtherFrame(_) =>
        assert [] + rest == rest;
        assert log + [] == log;
    }
  }

  lemma FramePass(host: Host, f: Frame, rest: seq<byte>, log: seq<Event>)
    requires WellFormed(host, f)
    requires f.PongFrame? || f.MsgFrame? ==> host.current(log + EventOf(f))
    ensures OnePass(host, Encode(f) + rest, log) == Next(rest, log + EventOf(f))
  {
    var tail := (if f.MsgFrame? then f.payload + CRLF else []) + rest;
    var b := Encode(f) + rest;
    assert b == Line(f) + CRLF + tail;
    FirstCrlf(host, f, tail);
    assert b[..|Line(f)|] == Line(f) && b[|Line(f)| + 2..] == tail;
    FrameLinePass(host, f, rest, log);
  }

  /** A frame that has not fully arrived is kept as it is and is never over the limit. */
  lemma PartialFrame(host: Host, f: Frame, b: seq<byte>, c: seq<byte>, rest: seq<byte>, log: seq<Event>)
    requires WellFormed(host, f)
    requires b + c == Encode(f) + rest && |b| < |Encode(f)|
    ensures Drain(host, b, log) == Dial(b, log, None)
  {
    var line := Line(f);
    var all := Encode(f) + rest;
    var tail := (if f.MsgFrame? then f.payload + CRLF else []) + rest;
    assert all == line + CRLF + tail;
    FirstCrlf(host, f, tail);
    assert forall i :: 0 <= i < |b| ==> b[i] == all[i];
    if |b| < |line| + 2 {
      assert forall i :: CrlfAt(b, i) ==> CrlfAt(all, i);
      assert CrlfIndex(b).None?;
    } else {
      var n := |f.payload|;
      var got := b[|line| + 2..];
      assert b == line + CRLF + got by {
        assert b == all[..|b|];
      }
      FirstCrlf(host, f, got);
      assert b[..|line|] == line;
      HeaderOf(host, f);
      assert INFO_PREFIX[0] != MSG_PREFIX[0] && PONG_LINE[0] != MSG_PREFIX[0];
      assert LinePass(host, line, got, log) == Stop(Dial(b, log, None));
    }
  }

  // ---------------------------------------------------------------------------
  // Streams of frames
  // ---------------------------------------------------------------------------

  /** `d` has read into the stream of `frames`; `left` is what it has not yet been given. */
  ghost predicate Reading(host: Host, d: Dial, frames: seq<Frame>, left: seq<byte>) {
    && d.closed.None?
    && Stays(host, frames, d.log)
    && d.buffer + left == EncodeAll(frames)
    && (frames != [] ==> |d.buffer| < |Encode(frames[0])|)
  }

  lemma TakeFrame(f: Frame, rest: seq<byte>, b: seq<byte>, c: seq<byte>)
    requires b + c == Encode(f) + rest && |b| >= |Encode(f)|
    ensures var b' := b[|Encode(f)|..]; b == Encode(f) + b' && b' + c == rest
  {
    var n := |Encode(f)|;
    assert b[..n] == (b + c)[..n] == Encode(f);
    assert (b + c)[n..] == b[n..] + c;
    assert (Encode(f) + rest)[n..] == rest;
  }

  lemma FrameDrained(host: Host, f: Frame, rest: seq<byte>, log: seq<Event>)
    requires WellFormed(host, f)
    requires f.PongFrame? || f.MsgFrame? ==> host.current(log + EventOf(f))
    ensures Drain(host, Encode(f) + rest, log) == Drain(host, rest, log + EventOf(f))
  {
    FramePass(host, f, rest, log);
  }

  lemma EventsCons(frames: seq<Frame>, j: nat, log: seq<Event>)
    requires frames != [] && j < |frames|
    ensures frames[1..][j..] == frames[j + 1..]
    ensures (log + EventOf(frames[0])) + Events(frames[1..][..j]) == log + Events(frames[..j + 1])
  {
    assert frames[..j + 1][1..] == frames[1..][..j];
  }

  /** Draining a prefix of a frame stream delivers its complete frames and keeps the rest. */
  lemma {:induction false} DrainPrefix(host: Host, frames: seq<Frame>, b: seq<byte>, c: seq<byte>, log: seq<Event>)
    returns (k: nat)
    requires forall f :: f in frames ==> WellFormed(host, f)
    requires Stays(host, frames, log)
    requires b + c == EncodeAll(frames)
    ensures k <= |frames|
    ensures Drain(host, b, log).log == log + Events(frames[..k])
    ensures Reading(host, Drain(host, b, log), frames[k..], c)
    decreases frames
  {
    if frames == [] {
      k := 0;
    } else if |b| < |Encode(frames[0])| {
      PartialFrame(host, frames[0], b, c, EncodeAll(frames[1..]), log);
      k := 0;
      assert frames[0..] == frames;
    } else {
      var f, more := frames[0], frames[1..];
      TakeFrame(f, EncodeAll(more), b, c);
      var b' := b[|Encode(f)|..];
      FrameDrained(host, f, b', log);
      var j := DrainPrefix(host, more, b', c, log + EventOf(f));
      k := j + 1;
      EventsCons(frames, j, log);
    }
  }

  lemma {:induction false} EventsConcat(a: seq<Frame>, b: seq<Frame>)
    ensures Events(a + b) == Events(a) + Events(b)
  {
    if a == [] {
      assert a + b == b;
    } else {
      assert (a + b)[1..] == a[1..] + b;
      EventsConcat(a[1..], b);
    }
  }

  lemma EventsSplit(frames: seq<Frame>, k: nat, log: seq<Event>)
    requires k <= |frames|
    ensures (log + Events(frames[..k])) + Events(frames[k..]) == log + Events(frames)
  {
    var a, b := frames[..k], frames[k..];
    EventsConcat(a, b);
    assert frames == a + b;
    Associate(log, Events(a), Events(b));
  }

  lemma Associate<T>(a: seq<T>, b: seq<T>, c: seq<T>)
    ensures (a + b) + c == a + (b + c)
  {
  }

  /** The whole stream was given and nothing is left of it. */
  lemma StreamEnds(host: Host, d: Dial, frames: seq<Frame>)
    requires Reading(host, d, frames, [])
    ensures frames == [] && d == Dial([], d.log + Events(frames), None)
  {
    assert d.buffer + [] == d.buffer;
    assert d.log + [] == d.log;
  }

  predicate AllFitFrom(host: Host, d: Dial, chunks: seq<seq<byte>>)
    decreases chunks
  {
    chunks == [] || (Fits(d, chunks[0]) && AllFitFrom(host, Feed(host, d, chunks[0]), chunks[1..]))
  }

  lemma {:induction false} FeedFrames(host: Host, d: Dial, frames: seq<Frame>, chunks: seq<seq<byte>>)
    requires forall f :: f in frames ==> WellFormed(host, f)
    requires Reading(host, d, frames, Concat(chunks))
    requires AllFitFrom(host, d, chunks)
    ensures FeedAll(host, d, chunks) == Dial([], d.log + Events(frames), None)
    decreases chunks
  {
    if chunks == [] {
      StreamEnds(host, d, frames);
    } else {
      var left := Concat(chunks[1..]);
      assert (d.buffer + chunks[0]) + left == d.buffer + Concat(chunks);
      var k := DrainPrefix(host, frames, d.buffer + chunks[0], left, d.log);
      EventsSplit(frames, k, d.log);
      FeedFrames(host, Feed(host, d, chunks[0]), frames[k..], chunks[1..]);
    }
  }

  /**
   * Every sequence of well-formed frames, cut anywhere into chunks that each fit
   * the buffer, is delivered exactly and leaves an empty buffer. Payloads may
   * contain CR LF.
   */
  lemma FramesSurviveAnyCut(host: Host, frames: seq<Frame>, chunks: seq<seq<byte>>)
    requires forall f :: f in frames ==> WellFormed(host, f)
    requires Stays(host, frames, [])
    requires Concat(chunks) == EncodeAll(frames)
    requires AllFitFrom(host, FRESH, chunks)
    ensures FeedAll(host, FRESH, chunks) == Dial([], Events(frames), None)
  {
    assert [] + Concat(chunks) == Concat(chunks);
    assert [] + Events(frames) == Events(frames);
    FeedFrames(host, FRESH, frames, chunks);
  }
}
