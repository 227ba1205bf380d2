/**
 * The NATS byte-stream reader: control lines ended by CR LF, and MSG frames that
 * carry a length-prefixed payload. Everything is stated on bytes.
 */
module FrameReader {
  import opened Bytes
  import opened Options

  const CR: byte := 13
  const LF: byte := 10
  const SP: byte := 32
  const CRLF: seq<byte> := [CR, LF]

  const MAX_CONTROL_LINE: nat := 64 * 1024
  const MAX_PAYLOAD: nat := 8 * 1024 * 1024
  const MAX_BUFFERED_BYTES: nat := MAX_CONTROL_LINE + MAX_PAYLOAD + 4

  const INFO_PREFIX: seq<byte> := [73, 78, 70, 79, 32]
  const MSG_PREFIX: seq<byte> := [77, 83, 71, 32]
  const ERR_PREFIX: seq<byte> := [45, 69, 82, 82, 32]
  const PONG_LINE: seq<byte> := [80, 79, 78, 71]
  const PING_LINE: seq<byte> := [80, 73, 78, 71]

  /** What the reader reacts to, in wire order. Lines of any other verb are ignored. */
  datatype Event =
    | Info(line: seq<byte>)
    | Pong
    | Ping
    | Msg(subject: seq<byte>, payload: seq<byte>)
    | ServerError(line: seq<byte>)

  /** The embedder: whether the dial is still the current one once a log of events has been delivered. */
  datatype Host = Host(current: seq<Event> -> bool)

  datatype Ending = Reconnect | Terminal | Replaced

  /** One dial's receive side. A closed dial keeps no bytes and reads no more. */
  datatype Dial = Dial(buffer: seq<byte>, log: seq<Event>, closed: Option<Ending>)

  const FRESH: Dial := Dial([], [], None)

  function Close(log: seq<Event>, ending: Ending): Dial {
    Dial([], log, Some(ending))
  }

  // ---------------------------------------------------------------------------
  // Lines
  // ---------------------------------------------------------------------------

  predicate CrlfAt(b: seq<byte>, i: int) {
    0 <= i && i + 1 < |b| && b[i] == CR && b[i + 1] == LF
  }

  /** The first CR LF, as the linear scan finds it. */
  function CrlfIndex(b: seq<byte>): (r: Option<nat>)
    ensures r.Some? ==> CrlfAt(b, r.value) && forall i :: 0 <= i < r.value ==> !CrlfAt(b, i)
    ensures r.None? ==> forall i :: !CrlfAt(b, i)
  {
    CrlfFrom(b, 0)
  }

  function CrlfFrom(b: seq<byte>, from: nat): (r: Option<nat>)
    ensures r.Some? ==> from <= r.value && CrlfAt(b, r.value) && forall i :: from <= i < r.value ==> !CrlfAt(b, i)
    ensures r.None? ==> forall i :: from <= i ==> !CrlfAt(b, i)
    decreases |b| - from
  {
    if from + 1 >= |b| then None
    else if CrlfAt(b, from) then Some(from)
    else CrlfFrom(b, from + 1)
  }

  lemma CrlfIndexIs(b: seq<byte>, p: nat)
    requires CrlfAt(b, p) && forall i :: 0 <= i < p ==> !CrlfAt(b, i)
    ensures CrlfIndex(b) == Some(p)
  {
    var r := CrlfIndex(b);
    assert r.Some? && r.value >= p;
  }

  /** The tokens between single spaces, empty ones included. */
  function Split(line: seq<byte>): (parts: seq<seq<byte>>)
    ensures |parts| > 0
  {
    if line == [] then [[]]
    else
      var rest := Split(line[1..]);
      if line[0] == SP then [[]] + rest
      else [[line[0]] + rest[0]] + rest[1..]
  }

  predicate IsDigit(b: byte) {
    48 <= b <= 57
  }

  predicate IsNumber(token: seq<byte>) {
    |token| > 0 && forall i :: 0 <= i < |token| ==> IsDigit(token[i])
  }

  function Decimal(token: seq<byte>): nat
    requires forall i :: 0 <= i < |token| ==> IsDigit(token[i])
  {
    if token == [] then 0
    else
      assert IsDigit(token[|token| - 1]);
      10 * Decimal(token[..|token| - 1]) + (token[|token| - 1] as int - 48)
  }

  /** "authentication expired" and "authorization violation" */
  const EXPIRED: seq<byte> :=
    [97, 117, 116, 104, 101, 110, 116, 105, 99, 97, 116, 105, 111, 110, 32, 101, 120, 112, 105, 114, 101, 100]
  const VIOLATION: seq<byte> :=
    [97, 117, 116, 104, 111, 114, 105, 122, 97, 116, 105, 111, 110, 32, 118, 105, 111, 108, 97, 116, 105, 111, 110]

  function LowerCase(b: byte): byte {
    if 65 <= b <= 90 then b + 32 else b
  }

  /** The words occur in the line, in any case. */
  predicate Mentions(line: seq<byte>, words: seq<byte>) {
    exists i :: 0 <= i <= |line| - |words| && MentionsAt(line, words, i)
  }

  predicate MentionsAt(line: seq<byte>, words: seq<byte>, i: nat)
    requires i + |words| <= |line|
  {
    forall k :: 0 <= k < |words| ==> LowerCase(line[i + k]) == words[k]
  }

  /** An authentication rejection: reconnecting cannot help. */
  predicate Fatal(line: seq<byte>) {
    Mentions(line, EXPIRED) || Mentions(line, VIOLATION)
  }

  datatype Header = Header(subject: seq<byte>, byteCount: nat)

  /** The subject and payload size of a MSG line, or None for every line that forces a reconnect. */
  function ParseHeader(line: seq<byte>): (h: Option<Header>)
    ensures h.Some? ==> h.value.byteCount <= MAX_PAYLOAD
  {
    var parts := Split(line);
    if (|parts| != 4 && |parts| != 5) || [] in parts then None
    else
      var token := parts[|parts| - 1];
      if !IsNumber(token) || Decimal(token) > MAX_PAYLOAD then None
      else Some(Header(parts[1], Decimal(token)))
  }

  // ---------------------------------------------------------------------------
  // The drain loop and its final size check
  // ---------------------------------------------------------------------------

  /** One pass of the drain loop: go on with fewer bytes, or stop. */
  datatype Pass = Next(buffer: seq<byte>, log: seq<Event>) | Stop(dial: Dial)

  function NextIf(ok: bool, rest: seq<byte>, log: seq<Event>, ending: Ending): Pass {
    if ok then Next(rest, log) else Stop(Close(log, ending))
  }

  /** A MSG line: its payload, or the header put back in front of the bytes that have arrived. */
  function MsgPass(host: Host, line: seq<byte>, rest: seq<byte>, log: seq<Event>): (p: Pass)
    ensures p.Next? ==> |p.buffer| <= |rest|
    ensures p.Stop? ==> p.dial == Dial(line + CRLF + rest, log, None) || (p.dial.closed.Some? && p.dial.buffer == [])
  {
    var h := ParseHeader(line);
    if h.None? then Stop(Close(log, Reconnect))
    else
      var n := h.value.byteCount;
      if |rest| < n + 2 then Stop(Dial(line + CRLF + rest, log, None))
      else if rest[n] != CR || rest[n + 1] != LF then Stop(Close(log, Reconnect))
      else
        var log' := log + [Msg(h.value.subject, rest[..n])];
        NextIf(host.current(log'), rest[n + 2..], log', Replaced)
  }

  function LinePass(host: Host, line: seq<byte>, rest: seq<byte>, log: seq<Event>): (p: Pass)
    ensures p.Next? ==> |p.buffer| <= |rest|
    ensures p.Stop? ==> p.dial == Dial(line + CRLF + rest, log, None) || (p.dial.closed.Some? && p.dial.buffer == [])
  {
    if INFO_PREFIX <= line then Next(rest, log + [Info(line)])
    else if line == PONG_LINE then NextIf(host.current(log + [Pong]), rest, log + [Pong], Replaced)
    else if line == PING_LINE then Next(rest, log + [Ping])
    else if MSG_PREFIX <= line then MsgPass(host, line, rest, log)
    else if ERR_PREFIX <= line then NextIf(!Fatal(line), rest, log + [ServerError(line)], Terminal)
    else Next(rest, log)
  }

  function OnePass(host: Host, buffer: seq<byte>, log: seq<Event>): (p: Pass)
    ensures p.Next? ==> |p.buffer| < |buffer|
    ensures p.Stop? ==> p.dial == Dial(buffer, log, None) || (p.dial.closed.Some? && p.dial.buffer == [])
  {
    var crlf := CrlfIndex(buffer);
    if crlf.None? then Stop(Dial(buffer, log, None))
    else if crlf.value > MAX_CONTROL_LINE then Stop(Close(log, Reconnect))
    else
      var line, rest := buffer[..crlf.value], buffer[crlf.value + 2..];
      assert line + CRLF + rest == buffer;
      LinePass(host, line, rest, log)
  }

  /** The loop: passes until bytes run out or the dial ends. */
  function Loop(host: Host, buffer: seq<byte>, log: seq<Event>): (d: Dial)
    decreases |buffer|
  {
    match OnePass(host, buffer, log)
    case Stop(d) => d
    case Next(buffer', log') => Loop(host, buffer', log')
  }

  /** A buffer that cannot be the start of a short enough line ends the dial. */
  function Finish(d: Dial): Dial {
    if d.closed.None? && CrlfIndex(d.buffer).None? && |d.buffer| > MAX_CONTROL_LINE then Close(d.log, Reconnect) else d
  }

  function Drain(host: Host, buffer: seq<byte>, log: seq<Event>): Dial {
    Finish(Loop(host, buffer, log))
  }

  predicate Fits(d: Dial, chunk: seq<byte>) {
    |d.buffer| + |chunk| <= MAX_BUFFERED_BYTES
  }

  /** One socket message. */
  function Feed(host: Host, d: Dial, chunk: seq<byte>): Dial {
    if d.closed.Some? then d
    else if !Fits(d, chunk) then Close(d.log, Reconnect)
    else Drain(host, d.buffer + chunk, d.log)
  }

  function FeedAll(host: Host, d: Dial, chunks: seq<seq<byte>>): Dial
    decreases chunks
  {
    if chunks == [] then d else FeedAll(host, Feed(host, d, chunks[0]), chunks[1..])
  }

  function Concat(chunks: seq<seq<byte>>): seq<byte> {
    if chunks == [] then [] else chunks[0] + Concat(chunks[1..])
  }

  // ---------------------------------------------------------------------------
  // The mutable reader
  // ---------------------------------------------------------------------------

  class Reader {
    const host: Host
    var buffer: seq<byte>
    var log: seq<Event>
    var closed: Option<Ending>

    ghost function View(): Dial
      reads this
    {
      Dial(buffer, log, closed)
    }

    constructor (host: Host)
      ensures this.host == host && View() == FRESH
    {
      this.host := host;
      buffer, log, closed := [], [], None;
    }

    method OnMessage(chunk: seq<byte>)
      modifies this
      ensures View() == Feed(host, old(View()), chunk)
    {
      if closed.Some? {
        return;
      }
      if |buffer| + |chunk| > MAX_BUFFERED_BYTES {
        End(Reconnect);
        return;
      }
      buffer := buffer + chunk;
      DrainBuffer();
    }

    method End(ending: Ending)
      modifies `buffer, `closed
      ensures View() == Close(log, ending)
    {
      buffer, closed := [], Some(ending);
    }

    method FindCrlf() returns (crlfPos: int)
      ensures crlfPos == if CrlfIndex(buffer).Some? then CrlfIndex(buffer).value else -1
    {
      var i := 0;
      while i + 1 < |buffer|
        invariant 0 <= i
        invariant forall k :: 0 <= k < i ==> !CrlfAt(buffer, k)
      {
        if buffer[i] == CR && buffer[i + 1] == LF {
          CrlfIndexIs(buffer, i);
          return i;
        }
        i := i + 1;
      }
      return -1;
    }

    ghost predicate Performs(p: Pass, more: bool)
      reads this
    {
      match p
      case Next(buffer, log) => more && View() == Dial(buffer, log, None)
      case Stop(d) => !more && View() == d
    }

    method DrainBuffer()
      requires closed.None?
      modifies this
      ensures View() == Drain(host, old(buffer), old(log))
    {
      var crlfPos := FindCrlf();
      while crlfPos != -1
        invariant closed.None?
        invariant crlfPos == if CrlfIndex(buffer).Some? then CrlfIndex(buffer).value else -1
        invariant Loop(host, buffer, log) == Loop(host, old(buffer), old(log))
        decreases |buffer|
      {
        if crlfPos > MAX_CONTROL_LINE {
          End(Reconnect);
          return;
        }
        var line := buffer[..crlfPos];
        buffer := buffer[crlfPos + 2..];
        var more := HandleLine(line);
        if closed.Some? {
          return;
        }
        if !more {
          break;
        }
        crlfPos := FindCrlf();
      }
      crlfPos := FindCrlf();
      if crlfPos == -1 && |buffer| > MAX_CONTROL_LINE {
        End(Reconnect);
      }
    }

    /** The branches of the drain loop on one control line already cut off the buffer. */
    method HandleLine(line: seq<byte>) returns (more: bool)
      requires closed.None?
      modifies this
      ensures Performs(LinePass(host, line, old(buffer), old(log)), more)
    {
      more := true;
      if INFO_PREFIX <= line {
        log := log + [Info(line)];
      } else if line == PONG_LINE {
        log := log + [Pong];
        if !host.current(log) {
          End(Replaced);
          more := false;
        }
      } else if line == PING_LINE {
        log := log + [Ping];
      } else if MSG_PREFIX <= line {
        more := HandleMessage(line);
      } else if ERR_PREFIX <= line {
        log := log + [ServerError(line)];
        if Fatal(line) {
          End(Terminal);
          more := false;
        }
      }
    }

    /** Consumes one payload, or puts the header line back in front of an incomplete one. */
    method HandleMessage(line: seq<byte>) returns (complete: bool)
      requires closed.None?
      modifies this
      ensures Performs(MsgPass(host, line, old(buffer), old(log)), complete)
    {
      complete := false;
      var parts := Split(line);
      if (|parts| != 4 && |parts| != 5) || [] in parts {
        End(Reconnect);
        return;
      }
      var hasReplyTo := |parts| == 5;
      var subject := parts[1];
      var lengthToken := parts[if hasReplyTo then 4 else 3];
      if !IsNumber(lengthToken) {
        End(Reconnect);
        return;
      }
      var byteCount := Decimal(lengthToken);
      if byteCount > MAX_PAYLOAD {
        End(Reconnect);
        return;
      }
      if |buffer| < byteCount + 2 {
        buffer := line + CRLF + buffer;
        return;
      }
      if buffer[byteCount] != CR || buffer[byteCount + 1] != LF {
        End(Reconnect);
        return;
      }
      var payload := buffer[..byteCount];
      buffer := buffer[byteCount + 2..];
      log := log + [Msg(subject, payload)];
      complete := host.current(log);
      if !complete {
        End(Replaced);
      }
    }
  }
}
