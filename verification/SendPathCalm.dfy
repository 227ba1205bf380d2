/**
 * What each operation comes to when the environment makes no move: callouts do nothing, hooks answer `clock`,
 * and the transport takes every frame.
 */
module SendPathCalm {
  import opened Options
  import opened SendPath
  import opened SendPathInvariants
  import opened SendPathEffects

  // ---------------------------------------------------------------------------
  // The timer and the connection
  // ---------------------------------------------------------------------------

  function TimerCancelled(s: State): State {
    TimerMoved(s, CancelTimer)
  }

  function SessionReset(s: State): State {
    TimerCancelled(s).(key := None)
  }

  /** One recovery per interval: the allowance goes if published work waits and it has not gone yet. */
  function AllowanceSpent(s: State): State {
    if Live(s) && HasPublished(s.ledger) && !s.stallIssued then IntervalMoved(s, MarkRecovery) else s
  }

  function ConnectionLost(s: State): State {
    SessionReset(AllowanceSpent(s.(epoch := s.epoch + 1)))
  }

  function Recovered(s: State): State {
    if Live(s) then ConnectionLost(TimerCancelled(AllowanceSpent(s))) else s
  }

  predicate StallPending(s: State, timeout: nat) {
    timeout > 0 && s.stallSince.Some? && !s.stallIssued
  }

  /** There is something to wait for: a retry deadline, or an interval that may stall. */
  predicate WorthArming(s: State, timeout: nat) {
    && s.key.Some? && s.ledger != [] && Live(s)
    && (HasDeadline(s.ledger) || StallPending(s, timeout))
  }

  function TimerStarted(s: State): State {
    s.(generation := s.generation + 1, timer := Some(s.generation + 1))
  }

  function TimerStartedFor(s: State, timeout: nat): State {
    if WorthArming(s, timeout) then TimerStarted(s) else s
  }

  function TimerArmed(s: State, timeout: nat): State {
    TimerStartedFor(TimerCancelled(s), timeout)
  }

  // ---------------------------------------------------------------------------
  // Reports
  // ---------------------------------------------------------------------------

  function SenderTold(s: State, id: nat, to: SendState): State {
    s.(tracker := Advanced(s.tracker, id, to))
  }

  function SendersTold(s: State, ids: seq<nat>, to: SendState): State {
    s.(tracker := AllAdvanced(s.tracker, ids, to))
  }

  lemma ToldNext(s: State, ids: seq<nat>, i: nat, to: SendState)
    requires i < |ids|
    ensures SendersTold(s, ids[..i + 1], to) == SenderTold(SendersTold(s, ids[..i], to), ids[i], to)
  {
    assert ids[..i + 1][..i] == ids[..i];
  }

  // ---------------------------------------------------------------------------
  // Sealing and draining
  // ---------------------------------------------------------------------------

  function IntervalStarted(s: State, now: int): State {
    if s.stallSince.None? && !s.stallIssued then s.(mutation := s.mutation + 1, stallSince := Some(now)) else s
  }

  /** The first confirmed publish of an interval starts it. */
  function PublishConfirmed(s: State, now: int): (t: State)
    requires s.hand.Raw?
    ensures t.queue == s.queue && t.wire == s.wire && t.key == s.key
  {
    IntervalStarted(s.(ledger := Confirmed(s.ledger, s.hand.serial), hand := s.hand.(settled := true)), now)
  }

  function SentTold(s: State, id: nat, arm: bool, timeout: nat): State {
    var t := SenderTold(s, id, Sent);
    if arm then TimerArmed(t, timeout) else t
  }

  function PublishReported(s: State, timeout: nat, now: int): (t: State)
    requires s.hand.Raw?
    ensures t.queue == s.queue && t.wire == s.wire && t.key == s.key
  {
    SentTold(PublishConfirmed(s, now), s.hand.id, true, timeout).(hand := Idle)
  }

  function TakenSealed(s: State, at: int, timeout: nat, now: int): (t: State)
    requires s.hand.Sealing?
    ensures t.queue == s.queue && t.wire == s.wire + [User(s.hand.id, s.hand.text)] && t.key == s.key
  {
    PublishReported(PutOnWire(s, at), timeout, now)
  }

  /** The entry gets its retry deadline, and the message is on the wire. */
  function PutOnWire(s: State, at: int): State
    requires s.hand.Sealing?
  {
    s.(ledger := Scheduled(s.ledger, s.hand.serial, 0, at), wire := s.wire + [User(s.hand.id, s.hand.text)],
       hand := Raw(s.hand.id, s.hand.serial, s.hand.key, s.hand.epoch, false))
  }

  lemma ScheduleThenPublish(s: State, at: int)
    requires s.hand.Sealing?
    ensures ApplySeal(ApplySeal(s, Schedule(at)), Publish) == PutOnWire(s, at)
  {
    var t := SealMoved(s, Schedule(at));
    assert ApplySeal(s, Schedule(at)) == t && t.hand.Sealing?;
    assert ApplySeal(t, Publish) == SealMoved(t, Publish);
  }

  /** The head of the queue goes out, in the same session, and the entries it evicted are failed. */
  function HeadSealed(s: State, timeout: nat, now: int): (t: State)
    requires s.key.Some? && s.queue != []
    ensures t.queue == s.queue[1..] && t.wire == s.wire + [s.queue[0]] && t.key == s.key
  {
    if s.queue[0].User? then SendersTold(TakenSealed(Take(s), now + now, timeout, now), Evictions(s), Failed(Evicted))
    else ApplySeal(s, TakeOther(true))
  }

  function QueueDrained(s: State, timeout: nat, now: int): State
    decreases |s.queue|
  {
    if s.key.None? || s.queue == [] then s else QueueDrained(HeadSealed(s, timeout, now), timeout, now)
  }

  lemma HeadFirst<T>(wire: seq<T>, queue: seq<T>)
    requires queue != []
    ensures wire + [queue[0]] + queue[1..] == wire + queue
  {
  }

  /** With a session the whole queue goes out, in order. */
  lemma {:induction false} WholeQueueGoesOut(s: State, timeout: nat, now: int)
    requires s.key.Some?
    ensures var t := QueueDrained(s, timeout, now);
            t.queue == [] && t.wire == s.wire + s.queue && t.key == s.key
    decreases |s.queue|
  {
    if s.queue != [] {
      HeadFirst(s.wire, s.queue);
      WholeQueueGoesOut(HeadSealed(s, timeout, now), timeout, now);
    }
  }

  function Drained(s: State, timeout: nat, now: int): State {
    if s.draining then s else QueueDrained(s.(draining := true), timeout, now).(draining := false)
  }

  // ---------------------------------------------------------------------------
  // Public operations
  // ---------------------------------------------------------------------------

  function MessageSent(s: State, id: nat, text: string, timeout: nat, now: int): State {
    if Live(s) then Drained(ApplyCall(s, Issue(id, text)), timeout, now)
    else SenderTold(ApplyCall(s, Refuse(id)), id, Failed(if s.terminal then TerminalFailure else Closed))
  }

  function FrameQueued(s: State, kind: string, timeout: nat, now: int): State {
    Drained(ApplyCall(s, EnqueueOther(kind)), timeout, now)
  }

  /** Same session, same lifecycle. */
  predicate SameFlow(s: State, t: State) {
    t.key == s.key && t.epoch == s.epoch && t.disconnected == s.disconnected && t.terminal == s.terminal
  }

  predicate Restarts(s: State) {
    HasPublished(s.ledger) && Live(s) && s.key.Some?
  }

  /** The old timer goes; while published work remains the interval starts again now. */
  function IntervalRestarted(s: State, now: int): (t: State)
    ensures SameFlow(s, t)
  {
    var t := TimerCancelled(s);
    if Restarts(s) then t.(mutation := t.mutation + 1, stallSince := Some(now), stallIssued := false) else t
  }

  /** The frame's answer is known, and each sender it names is told. */
  function ResultTold(s: State, ids: seq<nat>, accepted: bool): (t: State)
    ensures SameFlow(s, t)
  {
    SendersTold(ApplyCall(s, Answer(ids, accepted)), ids, Outcome(accepted))
  }

  function ResultFannedOut(s: State, ids: seq<nat>, accepted: bool, timeout: nat, now: int): (t: State)
    ensures SameFlow(s, t)
  {
    var t := ResultTold(IntervalRestarted(s, now), ids, accepted);
    if Restarts(s) then TimerArmed(t, timeout) else t
  }

  /** Only a result that owned a ledger entry touches the interval and the timer. */
  function ResultDrained(s: State, ids: seq<nat>, accepted: bool, timeout: nat, now: int): (t: State)
    ensures SameFlow(s, t)
  {
    if OwnsAny(s.ledger, ids) then ResultFannedOut(AfterResult(s, Without(s.ledger, ids)), ids, accepted, timeout, now)
    else ResultTold(s, ids, accepted)
  }

  function ClosedDown(s: State): State {
    SendersTold(SessionReset(TimerCancelled(Closing(s))), Owned(s), Failed(Closed))
  }

  function DiedOff(s: State): State {
    SendersTold(TimerCancelled(Dying(s)), Owned(s), Failed(TerminalFailure))
  }

  /** A terminal client is never opened again. */
  function Opened(s: State): State {
    if s.terminal then s else s.(disconnected := false)
  }

  function FlowBegun(s: State): State {
    if s.terminal then s else SessionReset(s.(epoch := s.epoch + 1))
  }

  function PendingDrained(s: State, frames: seq<(seq<nat>, bool)>, timeout: nat, now: int): (t: State)
    ensures SameFlow(s, t)
  {
    if frames == [] || s.key.None? then s
    else
      var last := frames[|frames| - 1];
      ResultDrained(PendingDrained(s, frames[..|frames| - 1], timeout, now), last.0, last.1, timeout, now)
  }

  function LedgerReplayed(s: State, timeout: nat, now: int): State {
    Drained(ApplyOwn(s, Flush), timeout, now)
  }

  function SessionEstablished(s: State, frames: seq<(seq<nat>, bool)>, timeout: nat, now: int): State {
    LedgerReplayed(PendingDrained(ApplyEvent(s, InstallKey), frames, timeout, now), timeout, now)
  }

  /** A new session repeats every unacknowledged message in order, ahead of everything that waited in the queue. */
  lemma ReplayIsComplete(s: State, timeout: nat, now: int)
    requires !s.draining
    ensures var t := SessionEstablished(s, [], timeout, now);
            t.queue == [] && t.wire == s.wire + (Messages(s.ledger) + s.queue)
  {
    var installed := ApplyEvent(s, InstallKey);
    WholeQueueGoesOut(ApplyOwn(installed, Flush).(draining := true), timeout, now);
  }

  /** A send in a session at rest goes out at once, behind everything sent before. */
  lemma SendGoesOut(s: State, id: nat, text: string, timeout: nat, now: int)
    requires Live(s) && s.key.Some? && !s.draining && s.queue == []
    ensures var t := MessageSent(s, id, text, timeout, now);
            t.queue == [] && t.wire == s.wire + [User(id, text)]
  {
    WholeQueueGoesOut(ApplyCall(s, Issue(id, text)).(draining := true), timeout, now);
  }

  // ---------------------------------------------------------------------------
  // Live retries
  // ---------------------------------------------------------------------------

  predicate Due(e: Entry, now: int) {
    e.nextRetryAt.Some? && e.nextRetryAt.value <= now
  }

  /** The due entries recorded before `bound` go out again, in ledger order. */
  function DueMessages(ledger: seq<Entry>, bound: nat, now: int): seq<Message> {
    if ledger == [] then []
    else (if ledger[0].serial < bound && Due(ledger[0], now) then [ledger[0].ToMessage()] else []) + DueMessages(ledger[1..], bound, now)
  }

  /** They wait for their next turn, one attempt later; the others are as they were. */
  function DueRescheduled(ledger: seq<Entry>, bound: nat, now: int, at: int): (rescheduled: seq<Entry>)
    ensures |rescheduled| == |ledger|
  {
    seq(|ledger|, i requires 0 <= i < |ledger| =>
      if ledger[i].serial < bound && Due(ledger[i], now)
      then ledger[i].(retryCount := ledger[i].retryCount + 1, nextRetryAt := Some(at)) else ledger[i])
  }

  function RetriedBelow(s: State, bound: nat, now: int, at: int): State {
    s.(wire := s.wire + DueMessages(s.ledger, bound, now), ledger := DueRescheduled(s.ledger, bound, now, at))
  }

  /** One due entry goes out again with its own id. */
  function EntryRetried(s: State, e: Entry, at: int): State {
    s.(wire := s.wire + MessageOf(s.ledger, e.serial), ledger := Scheduled(s.ledger, e.serial, e.retryCount + 1, at))
  }

  /** The deadline is the clock's answer plus the random delay. */
  function DueRetried(s: State, timeout: nat, now: int): State {
    TimerArmed(RetriedFrom(s, 0, now, now + now), timeout)
  }

  /** The pass over the entries recorded at or after `from`. */
  function RetriedFrom(s: State, from: nat, now: int, at: int): State
    decreases if from <= s.nextSerial then s.nextSerial - from else 0
  {
    var next := NextDue(s.ledger, from, now);
    if next.None? || next.value.serial >= s.nextSerial then s
    else RetriedFrom(EntryRetried(s, next.value, at), next.value.serial + 1, now, at)
  }

  ghost predicate InOrder(ledger: seq<Entry>) {
    forall i, j :: 0 <= i < j < |ledger| ==> ledger[i].serial < ledger[j].serial
  }

  lemma {:induction false} NothingBelowZero(ledger: seq<Entry>, now: int, at: int)
    ensures DueMessages(ledger, 0, now) == [] && DueRescheduled(ledger, 0, now, at) == ledger
  {
    if ledger != [] {
      NothingBelowZero(ledger[1..], now, at);
    }
  }

  lemma {:induction false} NextDueIsFirst(ledger: seq<Entry>, from: nat, now: int)
    requires InOrder(ledger)
    ensures forall i :: 0 <= i < |ledger| && from <= ledger[i].serial
                     && (NextDue(ledger, from, now).Some? ==> ledger[i].serial < NextDue(ledger, from, now).value.serial)
              ==> !Due(ledger[i], now)
  {
    if ledger != [] {
      NextDueIsFirst(ledger[1..], from, now);
      forall i | 0 <= i < |ledger| && from <= ledger[i].serial
              && (NextDue(ledger, from, now).Some? ==> ledger[i].serial < NextDue(ledger, from, now).value.serial)
        ensures !Due(ledger[i], now)
      {
        assert i > 0 ==> ledger[i] == ledger[1..][i - 1];
      }
    }
  }

  lemma {:induction false} SkipsNotDue(ledger: seq<Entry>, from: nat, to: nat, now: int, at: int)
    requires from <= to
    requires forall i :: 0 <= i < |ledger| && from <= ledger[i].serial < to ==> !Due(ledger[i], now)
    ensures DueMessages(ledger, from, now) == DueMessages(ledger, to, now)
    ensures DueRescheduled(ledger, from, now, at) == DueRescheduled(ledger, to, now, at)
  {
    if ledger != [] {
      SkipsNotDue(ledger[1..], from, to, now, at);
    }
  }

  lemma {:induction false} NoneBelow(ledger: seq<Entry>, bound: nat, now: int)
    requires forall i :: 0 <= i < |ledger| ==> bound <= ledger[i].serial
    ensures DueMessages(ledger, bound, now) == []
  {
    if ledger != [] {
      NoneBelow(ledger[1..], bound, now);
    }
  }

  lemma {:induction false} OneMoreDue(ledger: seq<Entry>, k: nat, e: Entry, now: int)
    requires InOrder(ledger) && k < |ledger| && ledger[k] == e && Due(e, now)
    ensures DueMessages(ledger, e.serial + 1, now) == DueMessages(ledger, e.serial, now) + [e.ToMessage()]
  {
    var rest := ledger[1..];
    if k == 0 {
      NoneBelow(rest, e.serial, now);
      NoneBelow(rest, e.serial + 1, now);
    } else {
      OneMoreDue(rest, k - 1, e, now);
    }
  }

  lemma OneMoreRescheduled(ledger: seq<Entry>, k: nat, e: Entry, now: int, at: int)
    requires InOrder(ledger) && k < |ledger| && ledger[k] == e && Due(e, now)
    ensures DueRescheduled(ledger, e.serial + 1, now, at)
         == Scheduled(DueRescheduled(ledger, e.serial, now, at), e.serial, e.retryCount + 1, at)
  {
    assert forall i :: 0 <= i < |ledger| && i != k ==> ledger[i].serial != e.serial;
  }

  lemma {:induction false} NextDueUnmoved(ledger: seq<Entry>, from: nat, now: int, at: int)
    ensures NextDue(DueRescheduled(ledger, from, now, at), from, now) == NextDue(ledger, from, now)
  {
    if ledger != [] {
      assert DueRescheduled(ledger, from, now, at)[1..] == DueRescheduled(ledger[1..], from, now, at);
      NextDueUnmoved(ledger[1..], from, now, at);
    }
  }

  lemma {:induction false} OwnMessage(ledger: seq<Entry>, k: nat)
    requires InOrder(ledger) && k < |ledger|
    ensures MessageOf(ledger, ledger[k].serial) == [ledger[k].ToMessage()]
  {
    if k > 0 {
      OwnMessage(ledger[1..], k - 1);
    }
  }

  lemma Picked(ledger: seq<Entry>, from: nat, e: Entry, now: int, at: int) returns (k: nat)
    requires InOrder(ledger) && NextDue(DueRescheduled(ledger, from, now, at), from, now) == Some(e)
    ensures k < |ledger| && ledger[k] == e && Due(e, now)
    ensures DueMessages(ledger, from, now) == DueMessages(ledger, e.serial, now)
    ensures DueRescheduled(ledger, from, now, at) == DueRescheduled(ledger, e.serial, now, at)
  {
    NextDueUnmoved(ledger, from, now, at);
    NextDueIsFirst(ledger, from, now);
    SkipsNotDue(ledger, from, e.serial, now, at);
    k :| 0 <= k < |ledger| && ledger[k] == e;
  }

  lemma PickedMessage(ledger: seq<Entry>, k: nat, e: Entry, now: int, at: int)
    requires InOrder(ledger) && k < |ledger| && ledger[k] == e
    ensures MessageOf(DueRescheduled(ledger, e.serial, now, at), e.serial) == [e.ToMessage()]
  {
    OwnMessage(DueRescheduled(ledger, e.serial, now, at), k);
  }

  lemma LedgerPassed(ledger: seq<Entry>, from: nat, e: Entry, now: int, at: int)
    requires InOrder(ledger) && NextDue(DueRescheduled(ledger, from, now, at), from, now) == Some(e)
    ensures DueMessages(ledger, e.serial + 1, now)
         == DueMessages(ledger, from, now) + MessageOf(DueRescheduled(ledger, from, now, at), e.serial)
    ensures DueRescheduled(ledger, e.serial + 1, now, at)
         == Scheduled(DueRescheduled(ledger, from, now, at), e.serial, e.retryCount + 1, at)
  {
    var k := Picked(ledger, from, e, now, at);
    OneMoreDue(ledger, k, e, now);
    OneMoreRescheduled(ledger, k, e, now, at);
    PickedMessage(ledger, k, e, now, at);
  }

  lemma Appended<T>(a: seq<T>, b: seq<T>, c: seq<T>)
    ensures a + (b + c) == a + b + c
  {
  }

  lemma RetryAndReschedule(t: State, e: Entry, at: int)
    ensures ApplyOwn(ApplyOwn(t, Retry(e.serial)), Reschedule(e.serial, e.retryCount + 1, at)) == EntryRetried(t, e, at)
  {
  }

  lemma RetriedUpTo(s: State, t: State, from: nat, e: Entry, now: int, at: int)
    requires Holds(s, Serials) && t == RetriedBelow(s, from, now, at) && NextDue(t.ledger, from, now) == Some(e)
    ensures EntryRetried(t, e, at) == RetriedBelow(s, e.serial + 1, now, at) && e.serial < s.nextSerial
  {
    var k := Picked(s.ledger, from, e, now, at);
    LedgerPassed(s.ledger, from, e, now, at);
    Appended(s.wire, DueMessages(s.ledger, from, now), MessageOf(t.ledger, e.serial));
  }

  lemma RetryThrough(s: State, from: nat, now: int, at: int)
    requires Holds(s, Serials) && from <= s.nextSerial
    requires NextDue(DueRescheduled(s.ledger, from, now, at), from, now).None?
    ensures RetriedBelow(s, from, now, at) == RetriedBelow(s, s.nextSerial, now, at)
  {
    NextDueUnmoved(s.ledger, from, now, at);
    NextDueIsFirst(s.ledger, from, now);
    SkipsNotDue(s.ledger, from, s.nextSerial, now, at);
  }

  lemma RestUnfold(t: State, from: nat, e: Entry, now: int, at: int)
    requires NextDue(t.ledger, from, now) == Some(e) && e.serial < t.nextSerial
    ensures RetriedFrom(t, from, now, at) == RetriedFrom(EntryRetried(t, e, at), e.serial + 1, now, at)
  {
  }

  lemma {:induction false} RestIsRetried(s: State, t: State, from: nat, now: int, at: int)
    requires Holds(s, Serials) && from <= s.nextSerial && t == RetriedBelow(s, from, now, at)
    ensures RetriedFrom(t, from, now, at) == RetriedBelow(s, s.nextSerial, now, at)
    decreases s.nextSerial - from
  {
    var next := NextDue(t.ledger, from, now);
    if next.Some? {
      RetriedUpTo(s, t, from, next.value, now, at);
      RestUnfold(t, from, next.value, now, at);
      RestIsRetried(s, EntryRetried(t, next.value, at), next.value.serial + 1, now, at);
    } else {
      RetryThrough(s, from, now, at);
    }
  }

  /** One pass repeats every due message once, in ledger order, and moves nothing else on the wire. */
  lemma EveryDueOnce(s: State, now: int, at: int)
    requires Holds(s, Serials)
    ensures RetriedFrom(s, 0, now, at) == RetriedBelow(s, s.nextSerial, now, at)
  {
    NothingBelowZero(s.ledger, now, at);
    assert s.wire + [] == s.wire;
    RestIsRetried(s, s, 0, now, at);
  }

  predicate Stalled(s: State, timeout: nat, now: int) {
    StallPending(s, timeout) && s.ledger != [] && now - s.stallSince.value >= timeout
  }

  /** A stalled interval spends its one recovery; otherwise every due entry is repeated once. */
  function RetriesDone(s: State, timeout: nat, now: int): State {
    if s.key.None? || !Live(s) then s
    else if Stalled(s, timeout, now) then Recovered(IntervalMoved(s, StallFire(now, timeout)))
    else DueRetried(s, timeout, now)
  }

  function TimerRun(s: State, timeout: nat, now: int): State {
    RetriesDone(TimerMoved(s, TimerFires), timeout, now)
  }
}
