/** `WebChannelNatsClient`'s send path: its fields, and its methods as they change them. */
module SendPathClient {
  import opened Options
  import opened SendPath
  import opened SendPathInvariants
  import opened SendPathRuns
  import opened SendPathEffects
  import opened SendPathCalm
  import opened SendPathOutcomes

  /** What embedder code, or the transport, may do to the client from inside a callout. */
  datatype Action =
    | Mint(candidates: seq<nat>)
    | Send(text: string, wireId: nat)
    | Enqueue(kind: string)
    | Open
    | Close
    | Deliver(ids: seq<nat>, accepted: bool)
    | Drop
    | Die
    | Recover

  /** The environment's moves: an action inside the current callout, or the callout's return value. */
  datatype Move = Act(action: Action) | Back(value: int)

  const MINT_ATTEMPTS: nat := 8

  /** The first of the remaining attempts that was neither reserved nor used before. */
  function FirstMintable(reserved: set<nat>, tracker: map<nat, SendState>, candidates: seq<nat>, attempt: nat): Option<nat>
    decreases MINT_ATTEMPTS - attempt
  {
    if attempt >= MINT_ATTEMPTS || attempt >= |candidates| then None
    else if candidates[attempt] !in reserved && candidates[attempt] !in tracker then Some(candidates[attempt])
    else FirstMintable(reserved, tracker, candidates, attempt + 1)
  }

  function Performed(s: State, action: Action, timeout: nat, now: int): State {
    match action
    case Mint(candidates) =>
      var id := FirstMintable(s.reserved, s.tracker, candidates, 0);
      if id.Some? then ApplyCall(s, Reserve(id.value)) else s
    case Send(text, id) => if CanSend(s, id) then MessageSent(s, id, text, timeout, now) else s
    case Enqueue(kind) => FrameQueued(s, kind, timeout, now)
    case Open => Opened(s)
    case Close => ClosedDown(s)
    case Deliver(ids, accepted) => ResultDrained(s, ids, accepted, timeout, now)
    case Drop => ConnectionLost(s)
    case Die => DiedOff(s)
    case Recover => Recovered(s)
  }

  lemma TakeAll<T>(ts: seq<T>)
    ensures ts[..|ts|] == ts
  {
  }

  class Client {
    var outboundQueue: seq<Message>
    var unackedLedger: seq<Entry>
    var sendTracker: map<nat, SendState>
    var reservedWireIds: set<nat>
    var sessionKey: Option<nat>
    var connectionEpoch: nat
    var disconnected: bool
    var terminalReached: bool
    var drainingOutboundQueue: bool
    var ackStallSinceAt: Option<int>
    var ackStallRecoveryIssued: bool
    var ackStallMutationEpoch: nat
    var liveRetryTimer: Option<nat>
    var liveRetryTimerGeneration: nat
    const ackStallTimeoutMs: nat

    /** What a clock or random hook answers when the environment does not say. */
    const clock: int

    /** Identities of ledger entries and of session keys. */
    var nextSerial: nat
    var nextKey: nat

    /** What the transport accepted. */
    var wire: seq<Message>

    /** The environment. */
    var script: seq<Move>

    ghost var born: map<nat, nat>
    ghost var calls: nat
    ghost var hand: Hand
    ghost var flushed: bool
    ghost var resultEpoch: nat
    ghost var answers: set<(nat, bool)>
    ghost var trace: seq<Step>

    ghost function View(): State
      reads this
    {
      State(outboundQueue, unackedLedger, sendTracker, reservedWireIds, sessionKey, connectionEpoch, disconnected,
            terminalReached, drainingOutboundQueue, ackStallSinceAt, ackStallRecoveryIssued, ackStallMutationEpoch,
            liveRetryTimer, liveRetryTimerGeneration, nextSerial, nextKey, wire, born, calls, hand, flushed, resultEpoch,
            answers)
    }

    /** The client's state is where a legal run of steps led. */
    ghost predicate Valid()
      reads this
    {
      LegalRun(trace) && Run(trace) == View()
    }

    constructor (ackStallTimeoutMs: nat, clock: int, script: seq<Move>)
      ensures Valid() && View() == INITIAL && trace == [] && this.script == script
      ensures this.ackStallTimeoutMs == ackStallTimeoutMs && this.clock == clock
    {
      outboundQueue, unackedLedger, sendTracker, reservedWireIds := [], [], map[], {};
      sessionKey, connectionEpoch, disconnected, terminalReached := None, 0, false, false;
      drainingOutboundQueue := false;
      ackStallSinceAt, ackStallRecoveryIssued, ackStallMutationEpoch := None, false, 0;
      liveRetryTimer, liveRetryTimerGeneration := None, 0;
      this.ackStallTimeoutMs, this.clock := ackStallTimeoutMs, clock;
      nextSerial, nextKey, wire := 0, 0, [];
      this.script := script;
      born, calls, hand, flushed, resultEpoch, answers, trace := map[], 0, Idle, false, 0, {}, [];
    }

    ghost method Log(before: State, step: Step)
      requires LegalRun(trace) && Run(trace) == before && Legal(before, step) && View() == Apply(before, step)
      modifies `trace
      ensures Valid() && trace == old(trace) + [step] && View() == Apply(before, step)
    {
      Extend(trace, step);
      trace := trace + [step];
    }

    /** The method took exactly this step. */
    twostate predicate Did(step: Step)
      reads this
    {
      Valid() && (trace, View(), script) == (old(trace) + [step], Apply(old(View()), step), old(script))
    }

    /** The method took legal steps, lost no sender, and used up the environment's moves or changed nothing. */
    twostate predicate Ran()
      reads this
    {
      && Valid() && old(trace) <= trace && |script| <= |old(script)|
      && Kept(old(View()), View())
    }

    /** The first thing the method did. */
    twostate predicate Began(step: Step)
      reads this
    {
      |trace| > |old(trace)| && trace[|old(trace)|] == step
    }

    // -------------------------------------------------------------------------
    // Single steps
    // -------------------------------------------------------------------------

    method BumpConnectionEpoch()
      requires Valid()
      modifies this
      ensures Did(Session(BumpEpoch))
    {
      ghost var s := View();
      connectionEpoch := connectionEpoch + 1;
      Log(s, Session(BumpEpoch));
    }

    method SpendAllowance()
      requires Valid() && LegalEvent(View(), MarkRecovery)
      modifies this
      ensures Did(Session(MarkRecovery))
    {
      ghost var s := View();
      ackStallMutationEpoch := ackStallMutationEpoch + 1;
      ackStallRecoveryIssued := true;
      Log(s, Session(MarkRecovery));
    }

    method ForgetKey()
      requires Valid()
      modifies this
      ensures Did(Session(DropKey))
    {
      ghost var s := View();
      sessionKey := None;
      Log(s, Session(DropKey));
    }

    method RetireTimer()
      requires Valid()
      modifies this
      ensures Did(Session(CancelTimer))
    {
      ghost var s := View();
      liveRetryTimerGeneration := liveRetryTimerGeneration + 1;
      liveRetryTimer := None;
      Log(s, Session(CancelTimer));
    }

    method SetState(id: nat, to: SendState)
      requires Valid() && id in sendTracker
      requires LegalCall(View(), if to.Failed? then CallStep.Fail(id, to.reason) else CallStep.Advance(id, to))
      modifies this
      ensures Did(Call(if to.Failed? then CallStep.Fail(id, to.reason) else CallStep.Advance(id, to)))
    {
      ghost var s := View();
      sendTracker := sendTracker[id := to];
      Log(s, Call(if to.Failed? then CallStep.Fail(id, to.reason) else CallStep.Advance(id, to)));
    }

    // -------------------------------------------------------------------------
    // Callouts
    // -------------------------------------------------------------------------

    /** If the environment made no move, this is what came of the call. */
    twostate predicate Calmly(outcome: State)
      reads this
    {
      |script| < |old(script)| || View() == outcome
    }

    /** Embedder code runs: any actions, then a return value. */
    method Callout() returns (value: int)
      requires Valid()
      modifies this
      ensures Ran() && Calmly(old(View())) && (|script| < |old(script)| || value == clock)
      decreases |script|, 0
    {
      ghost var s0, t0 := View(), trace;
      KeptRefl(s0);
      value := clock;
      while script != [] && script[0].Act?
        invariant Valid() && t0 <= trace && |script| <= |old(script)|
        invariant Kept(s0, View())
        invariant |script| < |old(script)| || View() == s0
        decreases |script|
      {
        var action := script[0].action;
        script := script[1..];
        ghost var s1 := View();
        Perform(action);
        KeptTrans(s0, s1, View());
      }
      if script != [] {
        value := script[0].value;
        script := script[1..];
      }
    }

    /** Whether the transport takes the frame; a refusal is a negative answer. */
    method TransportAccepts() returns (ok: bool)
      requires Valid()
      modifies `script
      ensures Valid() && |script| <= |old(script)|
      ensures !ok ==> |script| < |old(script)|
    {
      ok := true;
      if script != [] && script[0].Back? {
        ok := script[0].value >= 0;
        script := script[1..];
      }
    }

    lemma Since(t0: seq<Step>, s0: State)
      requires Valid() && t0 <= trace && Run(t0) == s0
      ensures Inv(View()) && Evolves(s0, View())
    {
      assert t0 == trace[..|t0|];
      RunKeepsInv(trace);
      RunEvolves(trace, |t0|);
    }

    method CancelLiveRetryTimer() returns (token: nat)
      requires Valid()
      modifies this
      ensures Ran() && Calmly(TimerCancelled(old(View())))
      ensures token == old(liveRetryTimerGeneration) + 1
      decreases |script|, 1
    {
      ghost var s0 := View();
      token := liveRetryTimerGeneration + 1;
      var timer := liveRetryTimer;
      RetireTimer();
      EventKept(s0, SessionStep.CancelTimer);
      if timer.Some? {
        ghost var s1 := View();
        var _ := Callout();
        KeptTrans(s0, s1, View());
      }
    }

    method ResetSession()
      requires Valid()
      modifies this
      ensures Ran() && sessionKey.None? && Calmly(SessionReset(old(View())))
      decreases |script|, 2
    {
      ghost var s0 := View();
      var _ := CancelLiveRetryTimer();
      ghost var s1 := View();
      ForgetKey();
      EventKept(s1, DropKey);
      KeptTrans(s0, s1, View());
    }

    /** The raw transport reports that the connection is gone. */
    method LoseConnection()
      requires Valid()
      modifies this
      ensures Ran() && sessionKey.None? && Calmly(ConnectionLost(old(View())))
      decreases |script|, 3
    {
      ghost var s0 := View();
      BumpConnectionEpoch();
      ghost var s1 := View();
      KeptRefl(s1);
      if !disconnected && !terminalReached && HasPublished(unackedLedger) && !ackStallRecoveryIssued {
        SpendAllowance();
        EventKept(s1, MarkRecovery);
      }
      ghost var s2 := View();
      ResetSession();
      KeptTrans(s1, s2, View());
      LossKept(s0, s1, View());
    }

    // -------------------------------------------------------------------------
    // The tracker
    // -------------------------------------------------------------------------

    method TrackerAdvance(id: nat, to: SendState)
      requires Valid() && (to == Sent || to == Accepted)
      requires if to == Sent then hand.Raw? && hand.id == id else (id, true) in answers
      modifies this
      ensures Ran() && Calmly(SenderTold(old(View()), id, to))
      ensures id in old(sendTracker) ==> id in sendTracker && sendTracker[id].Rank() >= to.Rank()
      decreases |script|, 1
    {
      ghost var s0 := View();
      KeptRefl(s0);
      if id !in sendTracker || sendTracker[id].Failed? || sendTracker[id].Rank() >= to.Rank() {
        assert Advanced(sendTracker, id, to) == sendTracker;
        return;
      }
      SetState(id, to);
      assert sendTracker == Advanced(s0.tracker, id, to);
      ReportKept(s0, Advance(id, to));
      ghost var s1, t1 := View(), trace;
      var _ := Callout();
      Since(t1, s1);
      assert Later(s1, View(), id);
      KeptTrans(s0, s1, View());
    }

    method TrackerFail(id: nat, reason: Reason)
      requires Valid() && if reason == Overloaded then (id, false) in answers else id !in Pending(View())
      modifies this
      ensures Ran() && Calmly(SenderTold(old(View()), id, Failed(reason)))
      ensures id in old(sendTracker) ==> id in sendTracker && sendTracker[id].Failed?
      decreases |script|, 1
    {
      ghost var s0 := View();
      KeptRefl(s0);
      if id !in sendTracker || sendTracker[id].Failed? {
        return;
      }
      SetState(id, Failed(reason));
      ReportKept(s0, CallStep.Fail(id, reason));
      ghost var s1, t1 := View(), trace;
      var _ := Callout();
      Since(t1, s1);
      assert Later(s1, View(), id);
      KeptTrans(s0, s1, View());
    }

    /** Tell the senders of ids the client no longer owns. */
    method FailPendingIds(ids: seq<nat>, reason: Reason)
      requires Valid() && Detached(View(), ids) && reason != Overloaded
      modifies this
      ensures Ran() && Ended(View(), ids) && Calmly(SendersTold(old(View()), ids, Failed(reason)))
      decreases |script|, 3
    {
      ghost var s0, t0 := View(), trace;
      KeptRefl(s0);
      for i := 0 to |ids|
        invariant Valid() && t0 <= trace && |script| <= |old(script)|
        invariant Kept(s0, View()) && Calmly(SendersTold(s0, ids[..i], Failed(reason)))
        invariant Detached(View(), ids)
        invariant Ended(View(), ids[..i])
      {
        ghost var s1 := View();
        FailNext(ids, i, reason);
        KeptTrans(s0, s1, View());
        ToldNext(s0, ids, i, Failed(reason));
      }
      TakeAll(ids);
    }

    method FailNext(ids: seq<nat>, i: nat, reason: Reason)
      requires Valid() && Detached(View(), ids) && i < |ids| && Ended(View(), ids[..i]) && reason != Overloaded
      modifies this
      ensures Ran() && Detached(View(), ids) && Ended(View(), ids[..i + 1])
      ensures Calmly(SenderTold(old(View()), ids[i], Failed(reason)))
      decreases |script|, 2
    {
      ghost var s, t := View(), trace;
      KeptRefl(s);
      assert ids[i] in ids;
      TrackerFail(ids[i], reason);
      Since(t, s);
      EndedNext(s, s, View(), ids, i);
    }

    // -------------------------------------------------------------------------
    // The live retry timer
    // -------------------------------------------------------------------------

    method StartTimer()
      requires Valid() && LegalEvent(View(), NextGeneration)
      modifies this
      ensures Did(Session(NextGeneration))
    {
      ghost var s := View();
      liveRetryTimerGeneration := liveRetryTimerGeneration + 1;
      Log(s, Session(NextGeneration));
    }

    method KeepTimer()
      requires Valid() && LegalEvent(View(), SessionStep.InstallTimer)
      modifies this
      ensures Did(Session(SessionStep.InstallTimer))
    {
      ghost var s := View();
      liveRetryTimer := Some(liveRetryTimerGeneration);
      Log(s, Session(SessionStep.InstallTimer));
    }

    /** The guards of `armLiveRetryTimer` after each of its callouts. */
    predicate SameSchedule(epoch: nat, key: Option<nat>, mutation: nat, since: Option<int>, issued: bool,
                           generation: nat, entries: seq<Scheduling>)
      reads this
    {
      && liveRetryTimerGeneration == generation && liveRetryTimer.None?
      && connectionEpoch == epoch && sessionKey == key && ackStallMutationEpoch == mutation
      && ackStallSinceAt == since && ackStallRecoveryIssued == issued
      && !disconnected && !terminalReached
      && SchedulingMatches(unackedLedger, entries)
    }

    method ArmLiveRetryTimer()
      requires Valid()
      modifies this
      ensures Ran() && Calmly(TimerArmed(old(View()), ackStallTimeoutMs))
      decreases |script|, 4
    {
      ghost var s0 := View();
      var generation := CancelLiveRetryTimer();
      if liveRetryTimerGeneration == generation && liveRetryTimer.None? && sessionKey.Some? && unackedLedger != []
        && !disconnected && !terminalReached
      {
        ghost var s1 := View();
        ArmAgain(generation);
        KeptTrans(s0, s1, View());
      }
    }

    /** Nothing may have moved since the old timer was cancelled, across the clock and across the scheduler. */
    method ArmAgain(generation: nat)
      requires Valid() && liveRetryTimerGeneration == generation && liveRetryTimer.None?
      requires sessionKey.Some? && unackedLedger != [] && Live(View())
      modifies this
      ensures Ran()
      ensures Calmly(TimerStartedFor(old(View()), ackStallTimeoutMs))
      decreases |script|, 3
    {
      ghost var s0 := View();
      KeptRefl(s0);
      MatchesItself(unackedLedger);
      var epoch, key, mutation := connectionEpoch, sessionKey, ackStallMutationEpoch;
      var entries := CaptureScheduling(unackedLedger);
      var since, issued := ackStallSinceAt, ackStallRecoveryIssued;
      var stallCandidate := ackStallTimeoutMs > 0 && since.Some? && !issued;
      if HasDeadline(unackedLedger) || stallCandidate {
        var now := Callout();
        ghost var s1 := View();
        if SameSchedule(epoch, key, mutation, since, issued, generation, entries) {
          ScheduleTimer(epoch, key, mutation, since, issued, entries);
          KeptTrans(s0, s1, View());
        }
      }
    }

    /** The injected scheduler may itself replace the lifecycle: then the timer is not kept. */
    method ScheduleTimer(epoch: nat, key: Option<nat>, mutation: nat, since: Option<int>, issued: bool,
                         entries: seq<Scheduling>)
      requires Valid() && key.Some? && SameSchedule(epoch, key, mutation, since, issued, liveRetryTimerGeneration, entries)
      modifies this
      ensures Ran()
      ensures Calmly(TimerStarted(old(View())))
      decreases |script|, 2
    {
      ghost var s0 := View();
      StartTimer();
      EventKept(s0, NextGeneration);
      ghost var s1 := View();
      var _ := InstallTimer(epoch, key, mutation, since, issued, entries);
      KeptTrans(s0, s1, View());
    }

    /** The handle is kept only if nothing moved while the scheduler ran. */
    method InstallTimer(epoch: nat, key: Option<nat>, mutation: nat, since: Option<int>, issued: bool,
                        entries: seq<Scheduling>) returns (kept: bool)
      requires Valid() && key.Some? && SameSchedule(epoch, key, mutation, since, issued, liveRetryTimerGeneration, entries)
      modifies this
      ensures Ran() && Calmly(TimerMoved(old(View()), SessionStep.InstallTimer))
      ensures |script| < |old(script)| || kept
      ensures kept ==> liveRetryTimer == Some(old(liveRetryTimerGeneration)) && liveRetryTimerGeneration == liveRetryTimer.value
      ensures kept ==> connectionEpoch == epoch && sessionKey == key && ackStallMutationEpoch == mutation
      ensures kept ==> ackStallSinceAt == since && ackStallRecoveryIssued == issued && Live(View())
      ensures kept ==> SchedulingMatches(unackedLedger, entries)
      decreases |script|, 1
    {
      var generation := liveRetryTimerGeneration;
      ghost var s0 := View();
      var _ := Callout();
      ghost var s1 := View();
      kept := SameSchedule(epoch, key, mutation, since, issued, generation, entries);
      if kept {
        KeepTimer();
        EventKept(s1, SessionStep.InstallTimer);
      } else {
        var _ := Callout();
      }
      KeptTrans(s0, s1, View());
    }

    // -------------------------------------------------------------------------
    // Sealing
    // -------------------------------------------------------------------------

    /** Shift the head of the queue, record it in the ledger, and evict the oldest entries past the cap. */
    method TakeHead() returns (evicted: seq<nat>)
      requires Valid() && LegalSeal(View(), TakeUser)
      modifies this
      ensures Did(Seal(TakeUser)) && evicted == old(Evictions(View()))
    {
      ghost var s := View();
      evicted := TakeRecorded();
      Log(s, Seal(TakeUser));
    }

    method TakeRecorded() returns (evicted: seq<nat>)
      requires CanTake(View())
      modifies `outboundQueue, `unackedLedger, `nextSerial, `hand
      ensures View() == Take(old(View())) && evicted == old(Evictions(View()))
    {
      ghost var m := outboundQueue[0];
      evicted := ShiftAndRecord();
      Grip(Sealing(m.id, m.text, nextSerial - 1, sessionKey.value, connectionEpoch, ackStallMutationEpoch, None));
    }

    ghost method Grip(next: Hand)
      modifies `hand
      ensures hand == next
    {
      hand := next;
    }

    method ShiftAndRecord() returns (evicted: seq<nat>)
      requires CanTake(View())
      modifies `outboundQueue, `unackedLedger, `nextSerial
      ensures outboundQueue == old(outboundQueue)[1..] && nextSerial == old(nextSerial) + 1
      ensures var recorded := Recorded(old(unackedLedger), old(outboundQueue)[0], old(nextSerial));
              && unackedLedger == recorded[Overflow(recorded)..]
              && evicted == Ids(recorded[..Overflow(recorded)])
    {
      var message := outboundQueue[0];
      outboundQueue := outboundQueue[1..];
      evicted := RecordUnacked(message);
    }

    method RecordUnacked(message: Message) returns (evicted: seq<nat>)
      requires message.User?
      modifies `unackedLedger, `nextSerial
      ensures nextSerial == old(nextSerial) + 1
      ensures var recorded := Recorded(old(unackedLedger), message, old(nextSerial));
              && unackedLedger == recorded[Overflow(recorded)..]
              && evicted == Ids(recorded[..Overflow(recorded)])
    {
      evicted := [];
      unackedLedger := unackedLedger + [Entry(message.id, message.text, nextSerial, 0, None, false)];
      nextSerial := nextSerial + 1;
      ghost var recorded, n := unackedLedger, 0;
      assert recorded[0..] == recorded && recorded[..0] == [];
      while |unackedLedger| > MAX_UNACKED
        invariant n <= |recorded| && unackedLedger == recorded[n..] && evicted == Ids(recorded[..n])
        invariant n <= Overflow(recorded) && nextSerial == old(nextSerial) + 1
        decreases |unackedLedger|
      {
        var oldest := unackedLedger[0];
        IdsLast(recorded[..n + 1]);
        assert recorded[..n + 1][..n] == recorded[..n];
        unackedLedger := unackedLedger[1..];
        evicted := evicted + [oldest.id];
        n := n + 1;
      }
      assert n == Overflow(recorded);
    }

    method SendOther(ok: bool)
      requires Valid() && LegalSeal(View(), TakeOther(ok))
      modifies this
      ensures Did(Seal(TakeOther(ok)))
    {
      ghost var s := View();
      var message := outboundQueue[0];
      outboundQueue := outboundQueue[1..];
      if ok {
        wire := wire + [message];
      }
      Log(s, Seal(TakeOther(ok)));
    }

    method SetDeadline(serial: nat, at: int)
      requires Valid() && LegalSeal(View(), Schedule(at)) && hand.serial == serial
      modifies this
      ensures Did(Seal(Schedule(at)))
    {
      ghost var s := View();
      unackedLedger := Scheduled(unackedLedger, serial, 0, at);
      hand := hand.(at := Some(at));
      Log(s, Seal(Schedule(at)));
    }

    method HandOver(message: Message)
      requires Valid() && LegalSeal(View(), Publish) && message == User(hand.id, hand.text)
      modifies this
      ensures Did(Seal(Publish))
    {
      ghost var s := View();
      wire := wire + [message];
      hand := Raw(hand.id, hand.serial, hand.key, hand.epoch, false);
      Log(s, Seal(Publish));
    }

    method PutBack(message: Message, serial: nat)
      requires Valid() && LegalSeal(View(), Requeue) && message == User(hand.id, hand.text) && serial == hand.serial
      modifies this
      ensures Did(Seal(Requeue))
    {
      ghost var s := View();
      BackInFront(message, serial);
      Grip(Idle);
      Log(s, Seal(Requeue));
    }

    method BackInFront(message: Message, serial: nat)
      modifies `unackedLedger, `outboundQueue
      ensures unackedLedger == WithoutSerial(old(unackedLedger), serial) && outboundQueue == [message] + old(outboundQueue)
    {
      unackedLedger := WithoutSerial(unackedLedger, serial);
      outboundQueue := [message] + outboundQueue;
    }

    method ConfirmPublished(serial: nat)
      requires Valid() && LegalSeal(View(), Confirm) && serial == hand.serial
      modifies this
      ensures Did(Seal(Confirm))
    {
      ghost var s := View();
      unackedLedger := Confirmed(unackedLedger, serial);
      hand := hand.(settled := true);
      Log(s, Seal(Confirm));
    }

    method IntervalFrom(at: int)
      modifies `ackStallMutationEpoch, `ackStallSinceAt, `ackStallRecoveryIssued
      ensures ackStallMutationEpoch == old(ackStallMutationEpoch) + 1 && ackStallSinceAt == Some(at)
      ensures ackStallRecoveryIssued == false
    {
      ackStallMutationEpoch := ackStallMutationEpoch + 1;
      ackStallSinceAt := Some(at);
      ackStallRecoveryIssued := false;
    }

    method BeginInterval(at: int)
      requires Valid() && LegalEvent(View(), StartStall(at))
      modifies this
      ensures Did(Session(StartStall(at)))
    {
      ghost var s := View();
      IntervalFrom(at);
      Log(s, Session(StartStall(at)));
    }

    /** The seal lets go of the message without a state change of its own. */
    ghost method HandStep(step: SealStep)
      requires Valid() && LegalSeal(View(), step) && (step.Abandon? || step.Forgo? || step.Finish?)
      modifies this`hand, this`trace
      ensures Did(Seal(step)) && Carried(old(View()), View())
    {
      ghost var s := View();
      Since(trace, s);
      HandOnly(s, step);
      SealCarried(s, step);
      hand := ApplySeal(s, step).hand;
      Log(s, Seal(step));
    }

    /** The fence of `seal` before the raw publish, as the source tests it. */
    predicate StillSealing(serial: nat, key: Option<nat>, epoch: nat, mutation: nat)
      reads this
    {
      && InLedger(unackedLedger, serial) && sessionKey == key && connectionEpoch == epoch
      && ackStallMutationEpoch == mutation && !disconnected && !terminalReached
    }

    /** The fence after it. */
    predicate StillOwned(serial: nat, key: Option<nat>, epoch: nat)
      reads this
    {
      && InLedger(unackedLedger, serial) && sessionKey == key && connectionEpoch == epoch
      && !disconnected && !terminalReached
    }

    /** Nothing moved since the publish was confirmed. */
    predicate Current(serial: nat, key: Option<nat>, epoch: nat, mutation: Option<nat>, entries: seq<Scheduling>)
      reads this
    {
      mutation == Some(ackStallMutationEpoch) && StillOwned(serial, key, epoch) && SchedulingMatches(unackedLedger, entries)
    }

    /** Seals the head of the queue. The drain loop has checked that there is a session. */
    method SealHead()
      requires Valid() && drainingOutboundQueue && hand.Idle? && sessionKey.Some? && outboundQueue != []
      modifies this
      ensures Valid() && old(trace) <= trace && |script| <= |old(script)|
      ensures Carried(old(View()), View()) && hand.Idle?
      ensures Calmly(HeadSealed(old(View()), ackStallTimeoutMs, clock))
      decreases |script|, 13
    {
      if outboundQueue[0].User? {
        SealUser();
      } else {
        SealOther();
      }
    }

    method SealOther()
      requires Valid() && LegalSeal(View(), TakeOther(true))
      modifies this
      ensures Valid() && old(trace) <= trace && |script| <= |old(script)|
      ensures Carried(old(View()), View()) && hand.Idle?
      ensures Calmly(HeadSealed(old(View()), ackStallTimeoutMs, clock))
      decreases |script|, 5
    {
      ghost var s0, t0 := View(), trace;
      Since(t0, s0);
      var ok := TransportAccepts();
      SendOther(ok);
      SealCarried(s0, TakeOther(ok));
      ghost var s1 := View();
      AfterOther(ok);
      KeptIsCarried(s1, View());
      assert Preserves(s1, View(), OnHand);
    }

    /** A refused frame is only warned about; the refusal dropped the connection. */
    method AfterOther(ok: bool)
      requires Valid()
      modifies this
      ensures Ran() && (ok ==> Calmly(old(View())))
      decreases |script|, 4
    {
      ghost var s1 := View();
      KeptRefl(s1);
      if !ok {
        LoseConnection();
      }
      ghost var s2 := View();
      var _ := Callout();
      KeptTrans(s1, s2, View());
    }

    method SealUser()
      requires Valid() && LegalSeal(View(), TakeUser)
      modifies this
      ensures Valid() && old(trace) <= trace && |script| <= |old(script)|
      ensures Carried(old(View()), View()) && hand.Idle?
      ensures Calmly(HeadSealed(old(View()), ackStallTimeoutMs, clock))
      decreases |script|, 12
    {
      hide TakenSealed, Carried;
      ghost var s0, t0 := View(), trace;
      Since(t0, s0);
      var message := outboundQueue[0];
      var serial, key, epoch, mutation := nextSerial, sessionKey, connectionEpoch, ackStallMutationEpoch;
      var evicted := TakeHead();
      TakeDetaches(s0);
      TakeIsUnder(s0);
      ghost var s1, t1 := View(), trace;
      SealTaken(message, serial, key, epoch, mutation);
      ghost var s2, t2 := View(), trace;
      Since(t1, s1);
      StaysDetached(s1, s2, evicted);
      FailPendingIds(evicted, Evicted);
      KeptIsCarried(s2, View());
      assert Preserves(s2, View(), OnHand);
      CarriedTrans(s1, s2, View());
      SealSettles(s0, s1, View());
    }

    /** What a part of the seal does: legal steps that lose no sender, still under the same session or none. */
    twostate predicate Carries()
      reads this
    {
      && Valid() && old(trace) <= trace && |script| <= |old(script)|
      && Carried(old(View()), View())
    }

    /** From the record in the ledger to the end of the seal, but for the evicted senders. */
    method SealTaken(message: Message, serial: nat, key: Option<nat>, epoch: nat, mutation: nat)
      requires Valid() && Under(View()) && key.Some? && message.User? && Fence(View())
      requires hand == Sealing(message.id, message.text, serial, key.value, epoch, mutation, None)
      modifies this
      ensures Carries() && hand.Idle? && Calmly(TakenSealed(old(View()), clock + clock, ackStallTimeoutMs, clock))
      decreases |script|, 11
    {
      hide TakenSealed, Carried, Inv;
      ghost var s0 := View();
      var delay, fenced := RetryHook(message, serial, key, epoch, mutation);
      if fenced {
        ghost var s1 := View();
        SealTimed(message, serial, key, epoch, mutation, delay);
        CarriedTrans(s0, s1, View());
        if |script| == |old(script)| {
          assert s1 == s0 && View() == TakenSealed(s1, clock + delay, ackStallTimeoutMs, clock);
        }
      }
    }

    method SealTimed(message: Message, serial: nat, key: Option<nat>, epoch: nat, mutation: nat, delay: int)
      requires Valid() && Under(View()) && key.Some? && message.User? && Fence(View())
      requires hand == Sealing(message.id, message.text, serial, key.value, epoch, mutation, None)
      modifies this
      ensures Carries() && hand.Idle?
      ensures Calmly(TakenSealed(old(View()), clock + delay, ackStallTimeoutMs, clock))
      decreases |script|, 10
    {
      hide TakenSealed, Carried, Inv;
      ghost var s0 := View();
      var attemptAt, fenced := RetryHook(message, serial, key, epoch, mutation);
      if fenced {
        ghost var s1 := View();
        PublishTaken(message, serial, key, epoch, attemptAt + delay);
        CarriedTrans(s0, s1, View());
      }
    }

    /** An injected clock or random source: afterwards the fence is tested again. */
    method RetryHook(message: Message, serial: nat, key: Option<nat>, epoch: nat, mutation: nat)
      returns (value: int, fenced: bool)
      requires Valid() && Under(View()) && key.Some? && message.User? && Fence(View())
      requires hand == Sealing(message.id, message.text, serial, key.value, epoch, mutation, None)
      modifies this
      ensures Carries() && Calmly(old(View())) && (|script| < |old(script)| || value == clock)
      ensures !fenced ==> |script| < |old(script)|
      ensures fenced ==> hand == old(hand) && Under(View()) && Fence(View()) && Inv(View())
      ensures !fenced ==> hand.Idle?
      decreases |script|, 4
    {
      ghost var s0, t0 := View(), trace;
      value := Callout();
      Since(t0, s0);
      StaysUnder(s0, View());
      KeptIsCarried(s0, View());
      fenced := StillSealing(serial, key, epoch, mutation);
      if !fenced {
        ghost var s1 := View();
        FinishInvalidated(message, serial, key, epoch, mutation);
        CarriedTrans(s0, s1, View());
      }
    }

    /** Nothing but a result for another message got in between. */
    predicate OnlyResultBetween(serial: nat, key: Option<nat>, epoch: nat, mutation: nat)
      reads this
    {
      StillOwned(serial, key, epoch) && ackStallMutationEpoch != mutation
    }

    /** Back to the front of the queue when only another message's result got in between. */
    method FinishInvalidated(message: Message, serial: nat, key: Option<nat>, epoch: nat, mutation: nat)
      requires Valid() && Inv(View()) && Under(View()) && key.Some? && message.User?
      requires hand == Sealing(message.id, message.text, serial, key.value, epoch, mutation, None)
      requires !StillSealing(serial, key, epoch, mutation)
      modifies this
      ensures Valid() && old(trace) <= trace && script == old(script)
      ensures Carried(old(View()), View()) && hand.Idle?
      ensures View() == ApplySeal(old(View()), if old(OnlyResultBetween(serial, key, epoch, mutation)) then Requeue else Abandon)
    {
      ghost var s0 := View();
      if OnlyResultBetween(serial, key, epoch, mutation) {
        PutBack(message, serial);
        SealCarried(s0, Requeue);
      } else {
        if sessionKey.Some? && InLedger(unackedLedger, serial) {
          UnderOwned(s0);
        }
        HandStep(Abandon);
      }
    }

    method PublishTaken(message: Message, serial: nat, key: Option<nat>, epoch: nat, deadline: int)
      requires Valid() && Inv(View()) && Under(View()) && key.Some? && message.User? && Fence(View())
      requires hand == Sealing(message.id, message.text, serial, key.value, epoch, ackStallMutationEpoch, None)
      modifies this
      ensures Carries() && hand.Idle?
      ensures Calmly(TakenSealed(old(View()), deadline, ackStallTimeoutMs, clock))
      decreases |script|, 9
    {
      ghost var s0, t0 := View(), trace;
      SetDeadline(serial, deadline);
      SealCarried(s0, Schedule(deadline));
      ScheduleThenPublish(s0, deadline);
      StillInLedger(s0.ledger, serial, deadline);
      ghost var s1 := View();
      Since(t0, s0);
      PublishScheduled(message, serial, key, epoch);
      CarriedTrans(s0, s1, View());
    }

    method PublishScheduled(message: Message, serial: nat, key: Option<nat>, epoch: nat)
      requires Valid() && Inv(View()) && Under(View()) && key.Some? && message.User? && LegalSeal(View(), Publish)
      requires hand.id == message.id && hand.text == message.text && hand.serial == serial
      requires hand.key == key.value && hand.epoch == epoch
      modifies this
      ensures Carries() && hand.Idle?
      ensures Calmly(PublishReported(ApplySeal(old(View()), Publish), ackStallTimeoutMs, clock))
      decreases |script|, 8
    {
      var ok := TransportAccepts();
      if ok {
        ghost var s := View();
        HandOver(message);
        SealCarried(s, Publish);
        ghost var s1 := View();
        AfterPublish(message.id, serial, key, epoch);
        CarriedTrans(s, s1, View());
      } else {
        Refused();
      }
    }

    /** The transport refused the frame, and with it dropped the connection. The ledger keeps the message. */
    method Refused()
      requires Valid() && Inv(View()) && hand.Sealing?
      modifies this
      ensures Carries() && hand.Idle?
      decreases |script|, 4
    {
      ghost var s0, t0 := View(), trace;
      LoseConnection();
      ghost var s1 := View();
      var _ := Callout();
      KeptTrans(s0, s1, View());
      ghost var s2 := View();
      assert Preserves(s0, s2, OnHand) && Preserves(s1, s2, OnSession);
      KeptIsCarried(s0, s2);
      Since(t0, s0);
      HandStep(Abandon);
      CarriedTrans(s0, s2, View());
    }

    /** What the transport delivered from inside the publish comes first; then confirm, report, and re-arm the timer. */
    method AfterPublish(id: nat, serial: nat, key: Option<nat>, epoch: nat)
      requires Valid() && Under(View()) && key.Some? && hand == Raw(id, serial, key.value, epoch, false)
      requires StillOwned(serial, key, epoch)
      modifies this
      ensures Carries() && hand.Idle? && Calmly(PublishReported(old(View()), ackStallTimeoutMs, clock))
      decreases |script|, 7
    {
      ghost var s0, t0 := View(), trace;
      var _ := Callout();
      Since(t0, s0);
      StaysUnder(s0, View());
      KeptIsCarried(s0, View());
      ghost var s1 := View();
      var mutation, entries := ConfirmTaken(serial, key, epoch);
      CarriedTrans(s0, s1, View());
      ghost var s2 := View();
      ReportSent(id, serial, key, epoch, mutation, entries);
      CarriedTrans(s0, s2, View());
    }

    /** Only a successful raw publish confirms ownership; it may start a stall interval. */
    method ConfirmTaken(serial: nat, key: Option<nat>, epoch: nat)
      returns (mutation: Option<nat>, entries: seq<Scheduling>)
      requires Valid() && Inv(View()) && Under(View()) && key.Some?
      requires hand.Raw? && hand.serial == serial && key == Some(hand.key) && epoch == hand.epoch && !hand.settled
      modifies this
      ensures Carries() && Under(View()) && hand == old(hand).(settled := true)
      ensures old(StillOwned(serial, key, epoch)) ==> Began(Seal(Confirm)) && Calmly(PublishConfirmed(old(View()), clock))
      ensures !old(StillOwned(serial, key, epoch)) ==> View() == ApplySeal(old(View()), Forgo) && mutation.None?
      ensures |script| < |old(script)| || !old(StillOwned(serial, key, epoch)) || Current(serial, key, epoch, mutation, entries)
      decreases |script|, 3
    {
      ghost var s0, t0 := View(), trace;
      mutation, entries := None, [];
      if !StillOwned(serial, key, epoch) {
        if sessionKey.Some? && InLedger(unackedLedger, serial) {
          UnderOwned(s0);
        }
        HandStep(Forgo);
        return;
      }
      mutation, entries := ConfirmOwned(serial, key, epoch);
    }

    method ConfirmOwned(serial: nat, key: Option<nat>, epoch: nat)
      returns (mutation: Option<nat>, entries: seq<Scheduling>)
      requires Valid() && Inv(View()) && Under(View()) && key.Some? && StillOwned(serial, key, epoch)
      requires hand.Raw? && hand.serial == serial && key == Some(hand.key) && epoch == hand.epoch && !hand.settled
      modifies this
      ensures Carries() && Under(View()) && hand == old(hand).(settled := true)
      ensures Began(Seal(Confirm)) && Calmly(PublishConfirmed(old(View()), clock))
      ensures |script| < |old(script)| || Current(serial, key, epoch, mutation, entries)
      decreases |script|, 2
    {
      ghost var s0 := View();
      ConfirmPublished(serial);
      SealCarried(s0, Confirm);
      StillInConfirmed(s0.ledger, serial);
      ghost var s1 := View();
      mutation, entries := StartInterval(serial, key, epoch);
      StaysUnder(s1, View());
      KeptIsCarried(s1, View());
      CarriedTrans(s0, s1, View());
    }

    /** The first confirmed publish of an interval starts it, unless something moved while the clock was read. */
    method StartInterval(serial: nat, key: Option<nat>, epoch: nat)
      returns (mutation: Option<nat>, entries: seq<Scheduling>)
      requires Valid() && key.Some?
      requires hand.Raw? && hand.serial == serial && key == Some(hand.key) && epoch == hand.epoch && hand.settled
      requires StillOwned(serial, key, epoch)
      modifies this
      ensures Ran() && Calmly(IntervalStarted(old(View()), clock))
      ensures |script| < |old(script)| || Current(serial, key, epoch, mutation, entries)
      decreases |script|, 1
    {
      ghost var s0 := View();
      mutation, entries := None, [];
      var confirmed := ackStallMutationEpoch;
      var publishedAt := Callout();
      ghost var s1 := View();
      assert Preserves(s0, s1, OnHand);
      if StillOwned(serial, key, epoch) && ackStallMutationEpoch == confirmed {
        if ackStallSinceAt.None? && !ackStallRecoveryIssued {
          BeginInterval(publishedAt);
          EventKept(s1, StartStall(publishedAt));
          KeptTrans(s0, s1, View());
        }
        mutation, entries := Some(ackStallMutationEpoch), CaptureScheduling(unackedLedger);
        MatchesItself(unackedLedger);
      }
    }

    /** The sender is told whatever became of the ledger entry; the timer is re-armed only if nothing moved since. */
    method ReportSent(id: nat, serial: nat, key: Option<nat>, epoch: nat, mutation: Option<nat>, entries: seq<Scheduling>)
      requires Valid() && Under(View()) && hand.Raw? && hand.id == id && hand.settled
      modifies this
      ensures Carries() && hand.Idle?
      ensures Calmly(SentTold(old(View()), id, old(Current(serial, key, epoch, mutation, entries)), ackStallTimeoutMs).(hand := Idle))
      decreases |script|, 6
    {
      ghost var s0 := View();
      TellSent(id, serial, key, epoch, mutation, entries);
      StaysUnder(s0, View());
      KeptIsCarried(s0, View());
      ghost var s1 := View();
      HandStep(Finish);
      CarriedTrans(s0, s1, View());
    }

    method TellSent(id: nat, serial: nat, key: Option<nat>, epoch: nat, mutation: Option<nat>, entries: seq<Scheduling>)
      requires Valid() && Under(View()) && hand.Raw? && hand.id == id
      modifies this
      ensures Ran()
      ensures Calmly(SentTold(old(View()), id, old(Current(serial, key, epoch, mutation, entries)), ackStallTimeoutMs))
      ensures id in sendTracker && sendTracker[id] != Queued
      decreases |script|, 5
    {
      ghost var s0, t0 := View(), trace;
      Since(t0, s0);
      assert id in sendTracker by {
        assert Holds(s0, Holding) && Holds(s0, Numbers);
      }
      TrackerAdvance(id, Sent);
      ghost var s1, t1 := View(), trace;
      if Current(serial, key, epoch, mutation, entries) {
        ArmLiveRetryTimer();
        Since(t1, s1);
        assert Later(s1, View(), id);
        KeptTrans(s0, s1, View());
      }
    }

    // -------------------------------------------------------------------------
    // The drain loop
    // -------------------------------------------------------------------------

    method SetDraining(on: bool)
      requires Valid() && LegalSeal(View(), if on then StartDrain else EndDrain)
      modifies this
      ensures Did(Step.Seal(if on then StartDrain else EndDrain))
    {
      ghost var s := View();
      drainingOutboundQueue := on;
      Log(s, Step.Seal(if on then StartDrain else EndDrain));
    }

    /** Live: embedder code reached from a seal may append, lose the session, or retire the client. */
    method DrainOutboundQueue()
      requires Valid()
      modifies this
      ensures Ran()
      ensures !drainingOutboundQueue ==> sessionKey.None? || outboundQueue == []
      ensures Calmly(Drained(old(View()), ackStallTimeoutMs, clock))
      decreases |script|, 15
    {
      ghost var s0, t0 := View(), trace;
      KeptRefl(s0);
      if drainingOutboundQueue {
        return;
      }
      Since(t0, s0);
      assert Holds(s0, Holding);
      SetDraining(true);
      DrainLoop();
      ghost var s1 := View();
      SetDraining(false);
      DrainKept(s0, s1);
    }

    method DrainLoop()
      requires Valid() && drainingOutboundQueue && hand.Idle?
      modifies this
      ensures Valid() && old(trace) <= trace && |script| <= |old(script)|
      ensures Carried(old(View()), View()) && hand.Idle? && (sessionKey.None? || outboundQueue == [])
      ensures Calmly(QueueDrained(old(View()), ackStallTimeoutMs, clock))
      decreases |script|, 14
    {
      ghost var s0, t0 := View(), trace;
      while sessionKey.Some? && outboundQueue != []
        invariant Valid() && t0 <= trace && |script| <= |old(script)|
        invariant drainingOutboundQueue && hand.Idle?
        invariant Carried(s0, View())
        invariant |script| < |old(script)| ||
                  QueueDrained(View(), ackStallTimeoutMs, clock) == QueueDrained(s0, ackStallTimeoutMs, clock)
        decreases |script|, |outboundQueue|
      {
        ghost var s1 := View();
        SealHead();
        CarriedTrans(s0, s1, View());
      }
    }

    // -------------------------------------------------------------------------
    // Public operations
    // -------------------------------------------------------------------------

    /** Whether a candidate collides with nothing. */
    predicate Mintable(candidate: nat)
      reads this
    {
      && candidate !in reservedWireIds && candidate !in sendTracker
      && candidate !in Ids(unackedLedger) && candidate !in UserIds(outboundQueue)
    }

    /** The first of eight random candidates that collides with nothing; none is the thrown exhaustion. */
    method ReserveWireId(candidates: seq<nat>) returns (id: Option<nat>)
      requires Valid()
      modifies this
      ensures Ran() && script == old(script)
      ensures View() == if id.Some? then ApplyCall(old(View()), Reserve(id.value)) else old(View())
      ensures id.Some? ==> id.value !in old(reservedWireIds) && id.value !in old(sendTracker)
      ensures id == FirstMintable(old(reservedWireIds), old(sendTracker), candidates, 0)
    {
      ghost var s0 := View();
      KeptRefl(s0);
      Since(trace, s0);
      var attempt := 0;
      while attempt < MINT_ATTEMPTS && attempt < |candidates|
        invariant attempt <= MINT_ATTEMPTS && attempt <= |candidates|
        invariant Valid() && View() == s0 && script == old(script) && trace == old(trace)
        invariant FirstMintable(reservedWireIds, sendTracker, candidates, attempt)
               == FirstMintable(reservedWireIds, sendTracker, candidates, 0)
      {
        Untracked(s0, candidates[attempt]);
        if Mintable(candidates[attempt]) {
          AddReserved(candidates[attempt]);
          return Some(candidates[attempt]);
        }
        attempt := attempt + 1;
      }
      return None;
    }

    method AddReserved(id: nat)
      requires Valid() && LegalCall(View(), Reserve(id))
      modifies this
      ensures Did(Call(Reserve(id))) && Ran()
    {
      ghost var s := View();
      reservedWireIds := reservedWireIds + {id};
      Log(s, Call(Reserve(id)));
      ReportKept(s, Reserve(id));
    }

    method Own(id: nat, text: string)
      requires Valid() && LegalCall(View(), Issue(id, text))
      modifies this
      ensures Did(Call(Issue(id, text)))
    {
      ghost var s := View();
      AppendQueued(id, text);
      born := born[id := calls];
      calls := calls + 1;
      Log(s, Call(Issue(id, text)));
    }

    method AppendQueued(id: nat, text: string)
      modifies this
      ensures View() == old(View()).(
                reserved := old(reservedWireIds) - {id}, tracker := old(sendTracker)[id := Queued],
                queue := old(outboundQueue) + [User(id, text)])
      ensures trace == old(trace) && script == old(script)
    {
      reservedWireIds := reservedWireIds - {id};
      sendTracker := sendTracker[id := Queued];
      outboundQueue := outboundQueue + [User(id, text)];
    }

    method TrackRefused(id: nat)
      requires Valid() && LegalCall(View(), Refuse(id))
      modifies this
      ensures Did(Call(Refuse(id)))
    {
      ghost var s := View();
      reservedWireIds := reservedWireIds - {id};
      sendTracker := sendTracker[id := Queued];
      Log(s, Call(Refuse(id)));
    }

    /** A send to a retired client: tracked as queued, then failed, but never owned. */
    method RefuseSend(id: nat, reason: Reason)
      requires Valid() && LegalCall(View(), Refuse(id)) && id !in Pending(View()) && reason != Overloaded
      modifies this
      ensures Ran() && Began(Call(Refuse(id))) && id in sendTracker && sendTracker[id].Failed?
      ensures Calmly(SenderTold(ApplyCall(old(View()), Refuse(id)), id, Failed(reason)))
      decreases |script|, 5
    {
      ghost var s0 := View();
      TrackRefused(id);
      RefusedIsDetached(s0, id);
      FailRefused(id, reason);
      assert Ended(View(), [id]);
      RefuseKept(s0, id, View());
    }

    /** The queued report comes first. */
    method FailRefused(id: nat, reason: Reason)
      requires Valid() && Detached(View(), [id]) && reason != Overloaded
      modifies this
      ensures Ran() && id in sendTracker && sendTracker[id].Failed?
      ensures Calmly(SenderTold(old(View()), id, Failed(reason)))
      decreases |script|, 4
    {
      ghost var s1, t1 := View(), trace;
      var _ := Callout();
      ghost var s2 := View();
      Since(t1, s1);
      assert id in [id];
      StaysDetached(s1, s2, [id]);
      TrackerFail(id, reason);
      KeptTrans(s1, s2, View());
    }

    /** False is the thrown misuse of a wire id. */
    method SendUserMessage(text: string, id: nat) returns (ok: bool)
      requires Valid()
      modifies this
      ensures Ran()
      ensures ok <==> id in old(reservedWireIds) && id !in old(sendTracker)
      ensures !ok ==> View() == old(View())
      ensures ok ==> id in sendTracker && Began(Call(if old(Live(View())) then Issue(id, text) else Refuse(id)))
      ensures ok && !old(Live(View())) ==> sendTracker[id].Failed?
      ensures ok && old(Live(View())) && !old(drainingOutboundQueue) ==> sessionKey.None? || outboundQueue == []
      ensures ok ==> Calmly(MessageSent(old(View()), id, text, ackStallTimeoutMs, clock))
      decreases |script|, 17
    {
      ghost var s0 := View();
      Since(trace, s0);
      Untracked(s0, id);
      KeptRefl(s0);
      if id !in reservedWireIds || id in sendTracker || id in Ids(unackedLedger) || id in UserIds(outboundQueue) {
        return false;
      }
      ok := true;
      if terminalReached {
        RefuseSend(id, TerminalFailure);
      } else if disconnected {
        RefuseSend(id, Closed);
      } else {
        SendOwned(text, id);
      }
    }

    /** The queue owns the message before the sender hears of it, and before the drain starts. */
    method SendOwned(text: string, id: nat)
      requires Valid() && LegalCall(View(), Issue(id, text))
      modifies this
      ensures Ran() && Began(Call(Issue(id, text))) && id in sendTracker
      ensures !old(drainingOutboundQueue) ==> sessionKey.None? || outboundQueue == []
      ensures Calmly(Drained(ApplyCall(old(View()), Issue(id, text)), ackStallTimeoutMs, clock))
      decreases |script|, 16
    {
      hide Drained;
      ghost var s0 := View();
      Since(trace, s0);
      Own(id, text);
      ghost var s1, t1 := View(), trace;
      var _ := Callout();
      ghost var s2 := View();
      DrainOutboundQueue();
      KeptTrans(s1, s2, View());
      Since(t1, s1);
      assert Later(s1, View(), id);
      assert Preserves(s1, View(), OnHand);
      IssueKept(s0, id, text, View());
    }

    method EnqueueFrame(kind: string)
      requires Valid()
      modifies this
      ensures Ran() && Began(Call(EnqueueOther(kind)))
      ensures !old(drainingOutboundQueue) ==> sessionKey.None? || outboundQueue == []
      ensures Calmly(FrameQueued(old(View()), kind, ackStallTimeoutMs, clock))
      decreases |script|, 17
    {
      ghost var s0 := View();
      outboundQueue := outboundQueue + [Other(kind)];
      Log(s0, Call(EnqueueOther(kind)));
      ghost var s1 := View();
      DrainOutboundQueue();
      assert Preserves(s1, View(), OnHand);
      EnqueueKept(s0, kind, View());
    }

    // -------------------------------------------------------------------------
    // Results
    // -------------------------------------------------------------------------

    method DetachResult(ids: seq<nat>)
      requires Valid() && LegalOwn(View(), OwnedResult(ids))
      modifies `unackedLedger, `ackStallMutationEpoch, `resultEpoch, `ackStallSinceAt, `ackStallRecoveryIssued, `trace
      ensures Did(Step.Own(OwnedResult(ids))) && ackStallMutationEpoch == resultEpoch
    {
      ghost var s := View();
      RemoveFromLedger(Without(unackedLedger, ids));
      Log(s, Step.Own(OwnedResult(ids)));
    }

    /** With nothing published left the stall interval ends. */
    method RemoveFromLedger(kept: seq<Entry>)
      modifies `unackedLedger, `ackStallMutationEpoch, `resultEpoch, `ackStallSinceAt, `ackStallRecoveryIssued
      ensures View() == AfterResult(old(View()), kept)
    {
      KeepEntries(kept);
      if !HasPublished(kept) {
        EndInterval();
      }
    }

    method KeepEntries(kept: seq<Entry>)
      modifies `unackedLedger, `ackStallMutationEpoch, `resultEpoch
      ensures unackedLedger == kept && ackStallMutationEpoch == resultEpoch == old(ackStallMutationEpoch) + 1
    {
      unackedLedger := kept;
      ackStallMutationEpoch := ackStallMutationEpoch + 1;
      resultEpoch := ackStallMutationEpoch;
    }

    method EndInterval()
      modifies `ackStallSinceAt, `ackStallRecoveryIssued
      ensures ackStallSinceAt == None && ackStallRecoveryIssued == false
    {
      ackStallSinceAt, ackStallRecoveryIssued := None, false;
    }

    method CommitResult(at: int)
      requires Valid() && LegalEvent(View(), ResultCommit(at))
      modifies this
      ensures Did(Session(ResultCommit(at)))
    {
      ghost var s := View();
      IntervalFrom(at);
      Log(s, Session(ResultCommit(at)));
    }

    /** `accepted` tells an acknowledgement from an overload rejection. */
    method ApplyResult(ids: seq<nat>, accepted: bool)
      requires Valid()
      modifies this
      ensures Ran() && KnownEnded(old(View()), View(), ids)
      ensures Calmly(ResultTold(old(View()), ids, accepted))
      decreases |script|, 4
    {
      ghost var s := View();
      HearAnswer(ids, accepted);
      TellAll(ids, accepted);
      AnswerKept(s, ids, accepted, View());
    }

    /** The answer itself is only bookkeeping. */
    ghost method HearAnswer(ids: seq<nat>, accepted: bool)
      requires Valid()
      modifies `answers, `trace
      ensures Did(Call(Answer(ids, accepted)))
    {
      ghost var s := View();
      answers := answers + Named(ids, accepted);
      Log(s, Call(Answer(ids, accepted)));
    }

    method TellAll(ids: seq<nat>, accepted: bool)
      requires Valid() && Named(ids, accepted) <= answers
      modifies this
      ensures Ran() && KnownEnded(old(View()), View(), ids)
      ensures Calmly(SendersTold(old(View()), ids, Outcome(accepted)))
      decreases |script|, 3
    {
      ghost var s0, t0 := View(), trace;
      KeptRefl(s0);
      for i := 0 to |ids|
        invariant Valid() && t0 <= trace && |script| <= |old(script)|
        invariant Kept(s0, View()) && Named(ids, accepted) <= answers
        invariant forall id :: id in s0.tracker ==> id in sendTracker
        invariant KnownEnded(s0, View(), ids[..i])
        invariant Calmly(SendersTold(s0, ids[..i], Outcome(accepted)))
      {
        ghost var s1, t1 := View(), trace;
        assert (ids[i], accepted) in Named(ids, accepted);
        Tell(ids[i], accepted);
        Since(t1, s1);
        KnownEndedNext(s0, s1, View(), ids, i);
        KeptTrans(s0, s1, View());
        ToldNext(s0, ids, i, Outcome(accepted));
      }
      TakeAll(ids);
    }

    method Tell(id: nat, accepted: bool)
      requires Valid() && (id, accepted) in answers
      modifies this
      ensures Ran()
      ensures id in old(sendTracker) ==> id in sendTracker && sendTracker[id].Rank() >= 2
      ensures !accepted && id in old(sendTracker) ==> sendTracker[id].Failed?
      ensures Calmly(SenderTold(old(View()), id, Outcome(accepted)))
      decreases |script|, 2
    {
      if accepted {
        TrackerAdvance(id, Accepted);
      } else {
        TrackerFail(id, Overloaded);
      }
    }

    /** An authenticated result frame: only one that owned a ledger entry starts a fresh stall interval. */
    method DrainOwnedResult(ids: seq<nat>, accepted: bool)
      requires Valid()
      modifies this
      ensures Ran()
      ensures KnownEnded(old(View()), View(), ids)
      ensures old(OwnsAny(unackedLedger, ids)) ==> Began(Step.Own(OwnedResult(ids)))
      ensures Calmly(ResultDrained(old(View()), ids, accepted, ackStallTimeoutMs, clock))
      ensures |script| < |old(script)| || AnsweredAs(old(sendTracker), sendTracker, ids, accepted)
      decreases |script|, 17
    {
      ResultTells(View(), ids, accepted, ackStallTimeoutMs, clock);
      if OwnsAny(unackedLedger, ids) {
        DrainOwned(ids, accepted);
      } else {
        ApplyResult(ids, accepted);
      }
    }

    /** What it acknowledges leaves the ledger before anyone is told. */
    method DrainOwned(ids: seq<nat>, accepted: bool)
      requires Valid() && OwnsAny(unackedLedger, ids)
      modifies this
      ensures Ran() && KnownEnded(old(View()), View(), ids) && Began(Step.Own(OwnedResult(ids)))
      ensures Calmly(ResultFannedOut(ApplyOwn(old(View()), OwnedResult(ids)), ids, accepted, ackStallTimeoutMs, clock))
      decreases |script|, 8
    {
      hide ResultFannedOut, Kept, Inv, Without;
      ghost var s0, t0 := View(), trace;
      Since(t0, s0);
      var epoch, key, lifecycleLive := connectionEpoch, sessionKey, !disconnected && !terminalReached;
      DetachResult(ids);
      ghost var s1, t1 := View(), trace;
      assert s1.tracker == s0.tracker;
      FanOut(ids, accepted, epoch, key, lifecycleLive);
      ResultKept(s0, ids, View());
    }

    /** The rest of an owned result, after its ledger entries were detached. */
    method FanOut(ids: seq<nat>, accepted: bool, epoch: nat, key: Option<nat>, lifecycleLive: bool)
      requires Valid() && ackStallMutationEpoch == resultEpoch
      requires connectionEpoch == epoch && sessionKey == key && (lifecycleLive <==> Live(View()))
      modifies this
      ensures Ran() && KnownEnded(old(View()), View(), ids)
      ensures Calmly(ResultFannedOut(old(View()), ids, accepted, ackStallTimeoutMs, clock))
      decreases |script|, 7
    {
      ghost var s0, t0 := View(), trace;
      var mutation, at, generation, entries := RestartInterval(epoch, key, lifecycleLive);
      ghost var s1 := View();
      MatchesItself(unackedLedger);
      Since(t0, s0);
      TellAndRearm(ids, accepted, epoch, key, mutation, at, generation, entries);
      KeptTrans(s0, s1, View());
      assert forall id :: id in s0.tracker ==> Later(s0, s1, id);
    }

    method TellAndRearm(ids: seq<nat>, accepted: bool, epoch: nat, key: Option<nat>, mutation: Option<nat>, at: Option<int>,
                        generation: nat, entries: seq<Scheduling>)
      requires Valid()
      modifies this
      ensures Ran() && KnownEnded(old(View()), View(), ids)
      ensures var told := ResultTold(old(View()), ids, accepted);
              Calmly(if old(RearmFence(epoch, key, mutation, at, generation, entries)) then TimerArmed(told, ackStallTimeoutMs)
                     else told)
      decreases |script|, 6
    {
      ghost var s1 := View();
      ApplyResult(ids, accepted);
      ghost var s2, t2 := View(), trace;
      Rearm(epoch, key, mutation, at, generation, entries);
      Since(t2, s2);
      KeptTrans(s1, s2, View());
      KnownEndedLater(s1, s2, View(), ids);
    }

    /** Only if nothing moved while the result was fanned out. */
    predicate RearmFence(epoch: nat, key: Option<nat>, mutation: Option<nat>, at: Option<int>, generation: nat,
                         entries: seq<Scheduling>)
      reads this
    {
      && mutation == Some(ackStallMutationEpoch) && connectionEpoch == epoch && sessionKey == key
      && !disconnected && !terminalReached && ackStallSinceAt == at && !ackStallRecoveryIssued
      && liveRetryTimerGeneration == generation && SchedulingMatches(unackedLedger, entries)
    }

    method Rearm(epoch: nat, key: Option<nat>, mutation: Option<nat>, at: Option<int>, generation: nat,
                 entries: seq<Scheduling>)
      requires Valid()
      modifies this
      ensures Ran()
      ensures old(RearmFence(epoch, key, mutation, at, generation, entries)) ==> Calmly(TimerArmed(old(View()), ackStallTimeoutMs))
      ensures !old(RearmFence(epoch, key, mutation, at, generation, entries)) ==> View() == old(View()) && script == old(script)
      decreases |script|, 5
    {
      KeptRefl(View());
      if RearmFence(epoch, key, mutation, at, generation, entries) {
        ArmLiveRetryTimer();
      }
    }

    /** Cancel the old timer; if published work remains and nothing moved, the interval starts again now. */
    method RestartInterval(epoch: nat, key: Option<nat>, lifecycleLive: bool)
      returns (mutation: Option<nat>, at: Option<int>, generation: nat, entries: seq<Scheduling>)
      requires Valid() && ackStallMutationEpoch == resultEpoch
      requires connectionEpoch == epoch && sessionKey == key && (lifecycleLive <==> Live(View()))
      modifies this
      ensures Ran() && Calmly(IntervalRestarted(old(View()), clock))
      ensures |script| < |old(script)| || (mutation.Some? <==> old(Restarts(View())))
      ensures mutation.Some? ==> mutation == Some(ackStallMutationEpoch) && ackStallMutationEpoch == old(ackStallMutationEpoch) + 1
      ensures mutation.Some? ==> connectionEpoch == epoch && sessionKey == key && Live(View()) && HasPublished(unackedLedger)
      ensures mutation.Some? ==> at == ackStallSinceAt && at.Some? && !ackStallRecoveryIssued
      ensures mutation.Some? ==> generation == liveRetryTimerGeneration && entries == CaptureScheduling(unackedLedger)
      decreases |script|, 4
    {
      ghost var s0 := View();
      var owned, remains := ackStallMutationEpoch, HasPublished(unackedLedger);
      mutation, at, entries := None, None, [];
      var _ := CancelLiveRetryTimer();
      generation := liveRetryTimerGeneration;
      if remains && lifecycleLive && key.Some? && SameResultOwner(epoch, key, owned) {
        ghost var s1 := View();
        var sampled := Callout();
        KeptTrans(s0, s1, View());
        ghost var s2 := View();
        if SameResultOwner(epoch, key, owned) {
          SameResult(s0, s2);
          CommitResult(sampled);
          EventKept(s2, ResultCommit(sampled));
          KeptTrans(s0, s2, View());
          mutation, at := Some(ackStallMutationEpoch), Some(sampled);
          generation, entries := liveRetryTimerGeneration, CaptureScheduling(unackedLedger);
        }
      }
    }

    predicate SameResultOwner(epoch: nat, key: Option<nat>, mutation: nat)
      reads this
    {
      && connectionEpoch == epoch && sessionKey == key && !disconnected && !terminalReached
      && ackStallMutationEpoch == mutation && HasPublished(unackedLedger)
    }

    // -------------------------------------------------------------------------
    // Retirement and recovery
    // -------------------------------------------------------------------------

    /** Empty both collections and end the stall interval; the ids are the caller's to fail. */
    method TakePendingSendIds() returns (ids: seq<nat>)
      modifies `outboundQueue, `unackedLedger, `ackStallMutationEpoch, `ackStallSinceAt, `ackStallRecoveryIssued
      ensures View() == Swept(old(View()))
      ensures ids == old(UserIds(outboundQueue)) + old(Ids(unackedLedger))
    {
      ids := UserIds(outboundQueue) + Ids(unackedLedger);
      Empty();
      EndInterval();
    }

    method Empty()
      modifies `outboundQueue, `unackedLedger, `ackStallMutationEpoch
      ensures outboundQueue == [] && unackedLedger == [] && ackStallMutationEpoch == old(ackStallMutationEpoch) + 1
    {
      outboundQueue, unackedLedger := [], [];
      ackStallMutationEpoch := ackStallMutationEpoch + 1;
    }

    method RetireOpen() returns (ids: seq<nat>)
      requires Valid()
      modifies this
      ensures Did(Step.Own(OwnStep.Disconnect)) && ids == Owned(old(View()))
    {
      ghost var s := View();
      MarkClosed();
      ids := TakePendingSendIds();
      Log(s, Step.Own(OwnStep.Disconnect));
    }

    method MarkClosed()
      modifies `connectionEpoch, `disconnected
      ensures View() == old(View()).(epoch := old(connectionEpoch) + 1, disconnected := true)
    {
      connectionEpoch := connectionEpoch + 1;
      disconnected := true;
    }

    method RetireForGood() returns (ids: seq<nat>)
      requires Valid()
      modifies this
      ensures Did(Step.Own(Terminate)) && ids == Owned(old(View()))
    {
      ghost var s := View();
      MarkTerminal();
      ids := TakePendingSendIds();
      Log(s, Step.Own(Terminate));
    }

    method MarkTerminal()
      modifies `terminalReached
      ensures View() == old(View()).(terminal := true)
    {
      terminalReached := true;
    }

    /** `disconnect()`: detach, tear down, then tell the senders. */
    method Disconnect()
      requires Valid()
      modifies this
      ensures Ran() && sessionKey.None? && Began(Step.Own(OwnStep.Disconnect))
      ensures forall id :: id in old(sendTracker) && id !in old(Unsettled(View())) ==>
                id in sendTracker && sendTracker[id].Rank() >= 2
      ensures Calmly(ClosedDown(old(View())))
      decreases |script|, 17
    {
      ghost var s0, t0 := View(), trace;
      Since(t0, s0);
      var ids := RetireOpen();
      ghost var s1, t1 := View(), trace;
      SweepDetaches(s0, s1);
      TearDown();
      ghost var s4 := View();
      Since(t1, s1);
      StaysDetached(s1, s4, ids);
      FailPendingIds(ids, Closed);
      KeptTrans(s1, s4, View());
      assert Preserves(s4, View(), OnSession);
      SweepKept(s0, OwnStep.Disconnect, View());
      Since(t1, s1);
      EveryoneEnded(s0, s1, View());
    }

    /** The timer, the session, and then the raw transport, whose listeners run last. */
    method TearDown()
      requires Valid()
      modifies this
      ensures Ran() && sessionKey.None? && Calmly(SessionReset(TimerCancelled(old(View()))))
      decreases |script|, 3
    {
      ghost var s1 := View();
      var _ := CancelLiveRetryTimer();
      ghost var s2 := View();
      ResetSession();
      ghost var s3 := View();
      KeptTrans(s1, s2, s3);
      var _ := Callout();
      KeptTrans(s1, s3, View());
      assert Preserves(s3, View(), OnSession);
    }

    /** `handleTerminal`: mark, sweep, and only then let error listeners run. */
    method HandleTerminal()
      requires Valid()
      modifies this
      ensures Ran() && terminalReached && Began(Step.Own(Terminate))
      ensures forall id :: id in old(sendTracker) && id !in old(Unsettled(View())) ==>
                id in sendTracker && sendTracker[id].Rank() >= 2
      ensures Calmly(DiedOff(old(View())))
      decreases |script|, 17
    {
      ghost var s0, t0 := View(), trace;
      Since(t0, s0);
      var ids := RetireForGood();
      ghost var s1, t1 := View(), trace;
      SweepDetaches(s0, s1);
      var _ := CancelLiveRetryTimer();
      ghost var s2 := View();
      Since(t1, s1);
      StaysDetached(s1, s2, ids);
      FailPendingIds(ids, TerminalFailure);
      ghost var s3, t3 := View(), trace;
      KeptTrans(s1, s2, s3);
      SweepKept(s0, Terminate, s3);
      var _ := Callout();
      KeptTrans(s0, s3, View());
      Since(t1, s1);
      EveryoneEnded(s0, s1, View());
    }

    method Connect()
      requires Valid()
      modifies this
      ensures Ran() && Calmly(Opened(old(View())))
      ensures if old(terminalReached) then View() == old(View()) else Began(Session(SessionStep.Connect))
      decreases |script|, 17
    {
      ghost var s0 := View();
      KeptRefl(s0);
      if terminalReached {
        return;
      }
      disconnected := false;
      Log(s0, Session(SessionStep.Connect));
      EventKept(s0, SessionStep.Connect);
      ghost var s1 := View();
      var _ := Callout();
      KeptTrans(s0, s1, View());
    }

    /** The allowance is spent before the transport is asked to reconnect. */
    method RequestApplicationRecovery() returns (asked: bool)
      requires Valid()
      modifies this
      ensures Ran() && Calmly(Recovered(old(View())))
      ensures asked ==> sessionKey.None?
      ensures old(Live(View()) && HasPublished(unackedLedger) && !ackStallRecoveryIssued) ==> Began(Session(MarkRecovery))
      ensures !old(Live(View())) ==> !asked && View() == old(View())
      ensures |script| < |old(script)| || (asked <==> old(Live(View())))
      decreases |script|, 17
    {
      ghost var s0 := View();
      KeptRefl(s0);
      asked := false;
      if disconnected || terminalReached {
        return;
      }
      if HasPublished(unackedLedger) && !ackStallRecoveryIssued {
        SpendAllowance();
        EventKept(s0, MarkRecovery);
      }
      ghost var s1 := View();
      asked := Reconnect();
      KeptTrans(s0, s1, View());
    }

    /** The timer goes first; if that let the lifecycle move, there is nothing left to reconnect. */
    method Reconnect() returns (asked: bool)
      requires Valid() && Live(View())
      modifies this
      ensures Ran() && Calmly(ConnectionLost(TimerCancelled(old(View())))) && (|script| < |old(script)| || asked)
      ensures asked ==> sessionKey.None?
      decreases |script|, 5
    {
      ghost var s1 := View();
      var epoch := connectionEpoch;
      var _ := CancelLiveRetryTimer();
      ghost var s2 := View();
      asked := connectionEpoch == epoch && !disconnected && !terminalReached;
      if asked {
        LoseConnection();
        ghost var s3 := View();
        KeptTrans(s1, s2, s3);
        var _ := Callout();
        assert Preserves(s3, View(), OnSession);
        KeptTrans(s1, s3, View());
      }
    }

    /** What embedder code may do from a callout. */
    method Perform(action: Action)
      requires Valid()
      modifies this
      ensures Ran() && Calmly(Performed(old(View()), action, ackStallTimeoutMs, clock))
      ensures action.Close? || action.Die? ==>
                forall id :: id in old(sendTracker) && id !in old(Unsettled(View())) ==>
                  id in sendTracker && sendTracker[id].Rank() >= 2
      decreases |script|, 18
    {
      match action
      case Mint(candidates) => var _ := ReserveWireId(candidates);
      case Send(text, id) => var _ := SendUserMessage(text, id);
      case Enqueue(kind) => EnqueueFrame(kind);
      case Open => Connect();
      case Close => Disconnect();
      case Deliver(ids, accepted) => DrainOwnedResult(ids, accepted);
      case Drop => LoseConnection();
      case Die => HandleTerminal();
      case Recover => var _ := RequestApplicationRecovery();
    }

    // -------------------------------------------------------------------------
    // Turns of the event loop
    // -------------------------------------------------------------------------

    /**
     * Whatever embedder code does: no sender is left behind or counted twice, and a close or a terminal failure
     * ends every send made before it.
     */
    method Turn(action: Action)
      requires Valid() && Rest(View())
      modifies this
      ensures Ran() && Rest(View()) && Conserved(View())
      ensures action.Close? || action.Die? ==>
                forall id :: id in old(sendTracker) ==> id in sendTracker && sendTracker[id].Rank() >= 2
    {
      ghost var s0 := View();
      Perform(action);
      AtRest(s0);
    }

    lemma AtRest(s0: State)
      requires Valid() && Rest(s0) && Kept(s0, View())
      ensures Rest(View()) && Conserved(View())
    {
      KeptRest(s0, View());
      Since(trace, View());
      RestConserves(View());
    }

    /** The raw transport is connected: a new flow begins, which owns the returned epoch and has no session yet. */
    method OnConnected() returns (epoch: nat)
      requires Valid() && Rest(View())
      modifies this
      ensures Ran() && Rest(View()) && Conserved(View())
      ensures epoch == if old(terminalReached) then old(connectionEpoch) else old(connectionEpoch) + 1
      ensures FlowMatches(epoch) ==> sessionKey.None?
      ensures Calmly(FlowBegun(old(View())))
    {
      ghost var s0 := View();
      KeptRefl(s0);
      epoch := connectionEpoch;
      if terminalReached {
        var _ := Callout();
      } else {
        BumpConnectionEpoch();
        epoch := connectionEpoch;
        ghost var s1 := View();
        ResetSession();
        LossKept(s0, s1, View());
      }
      AtRest(s0);
    }

    predicate FlowMatches(epoch: nat)
      reads this
    {
      connectionEpoch == epoch && !disconnected && !terminalReached
    }

    method AdoptKey()
      requires Valid() && LegalEvent(View(), InstallKey)
      modifies this
      ensures Did(Session(InstallKey))
    {
      ghost var s := View();
      UseNextKey();
      Log(s, Session(InstallKey));
    }

    method UseNextKey()
      modifies `sessionKey, `nextKey, `flushed
      ensures sessionKey == Some(old(nextKey)) && nextKey == old(nextKey) + 1 && !flushed
    {
      sessionKey := Some(nextKey);
      nextKey := nextKey + 1;
      flushed := false;
    }

    /** The frames that came before the key, until a listener takes the session away. */
    method DrainPendingInbound(frames: seq<(seq<nat>, bool)>)
      requires Valid()
      modifies this
      ensures Ran() && Calmly(PendingDrained(old(View()), frames, ackStallTimeoutMs, clock))
    {
      ghost var s0, t0 := View(), trace;
      KeptRefl(s0);
      for i := 0 to |frames|
        invariant Valid() && t0 <= trace && |script| <= |old(script)|
        invariant Kept(s0, View())
        invariant Calmly(PendingDrained(s0, frames[..i], ackStallTimeoutMs, clock))
      {
        if sessionKey.None? {
          return;
        }
        assert frames[..i + 1][..i] == frames[..i];
        ghost var s1 := View();
        DeliverFrame(frames[i].0, frames[i].1);
        KeptTrans(s0, s1, View());
      }
      TakeAll(frames);
    }

    /** A decrypted frame settles its ids before any message listener sees it. */
    method DeliverFrame(ids: seq<nat>, accepted: bool)
      requires Valid()
      modifies this
      ensures Ran() && Calmly(ResultDrained(old(View()), ids, accepted, ackStallTimeoutMs, clock))
    {
      ghost var s0 := View();
      DrainOwnedResult(ids, accepted);
      ghost var s1 := View();
      var _ := Callout();
      KeptTrans(s0, s1, View());
    }

    /** Everything in the ledger goes back in front of the queue, once per session, and the queue is drained. */
    method FlushQueue()
      requires Valid() && LegalOwn(View(), Flush) && !drainingOutboundQueue && Unsettled(View()) == {}
      modifies this
      ensures Valid() && old(trace) <= trace && |script| <= |old(script)| && Rest(View())
      ensures Began(Step.Own(Flush)) && Calmly(LedgerReplayed(old(View()), ackStallTimeoutMs, clock))
    {
      FlushedUnsettled(View());
      ReplayLedger();
      ghost var s := View();
      DrainOutboundQueue();
      assert Preserves(s, View(), OnHand);
      DrainedRest(s, View());
    }

    method ReplayLedger()
      requires Valid() && LegalOwn(View(), Flush)
      modifies this
      ensures Did(Step.Own(Flush))
    {
      ghost var s := View();
      LedgerToFront();
      Log(s, Step.Own(Flush));
    }

    method LedgerToFront()
      modifies `outboundQueue, `unackedLedger, `flushed
      ensures outboundQueue == Messages(old(unackedLedger)) + old(outboundQueue) && unackedLedger == [] && flushed
    {
      if unackedLedger != [] {
        outboundQueue := Messages(unackedLedger) + outboundQueue;
        unackedLedger := [];
      }
      flushed := true;
    }

    /**
     * The flow that owns `epoch` has its conversation key; it installs it once. Key, buffered frames, replay,
     * session listeners: each only while the flow still is the current one.
     */
    method EstablishSession(epoch: nat, pendingInbound: seq<(seq<nat>, bool)>)
      requires Valid() && Rest(View())
      requires FlowMatches(epoch) ==> sessionKey.None?
      modifies this
      ensures Valid() && old(trace) <= trace && Rest(View()) && Conserved(View())
      ensures !old(FlowMatches(epoch)) ==> View() == old(View()) && script == old(script)
      ensures old(FlowMatches(epoch)) ==>
                && Began(Session(InstallKey))
                && Calmly(SessionEstablished(old(View()), pendingInbound, ackStallTimeoutMs, clock))
    {
      if FlowMatches(epoch) {
        RunFlow(epoch, pendingInbound);
      }
      Since(trace, View());
      RestConserves(View());
    }

    method RunFlow(epoch: nat, pendingInbound: seq<(seq<nat>, bool)>)
      requires Valid() && Rest(View()) && FlowMatches(epoch) && sessionKey.None?
      modifies this
      ensures Valid() && old(trace) <= trace && Rest(View())
      ensures Began(Session(InstallKey))
      ensures Calmly(SessionEstablished(old(View()), pendingInbound, ackStallTimeoutMs, clock))
    {
      InstalledUnsettled(View());
      AdoptKey();
      var key := sessionKey;
      ghost var s := View();
      DrainPendingInbound(pendingInbound);
      assert Preserves(s, View(), OnOwnership) && Preserves(s, View(), OnHand) && Preserves(s, View(), OnSession);
      if FlowMatches(epoch) && sessionKey == key {
        ReplayAndNotify(epoch, key);
      } else {
        ReplacedRest(s, View());
      }
    }

    /** Session listeners come after the replay, and only while the flow still is the current one. */
    method ReplayAndNotify(epoch: nat, key: Option<nat>)
      requires Valid() && LegalOwn(View(), Flush) && !drainingOutboundQueue && Unsettled(View()) == {}
      requires FlowMatches(epoch) && sessionKey == key
      modifies this
      ensures Valid() && old(trace) <= trace && |script| <= |old(script)| && Rest(View())
      ensures Calmly(LedgerReplayed(old(View()), ackStallTimeoutMs, clock))
    {
      FlushQueue();
      ghost var s := View();
      if FlowMatches(epoch) && sessionKey == key {
        var _ := Callout();
        KeptRest(s, View());
      }
    }

    // -------------------------------------------------------------------------
    // Retries
    // -------------------------------------------------------------------------

    /** A generation that is no longer current does nothing; a cleared handle does not fire. */
    method FireTimer(generation: nat)
      requires Valid() && Rest(View())
      modifies this
      ensures Ran() && Rest(View()) && Conserved(View())
      ensures generation != old(liveRetryTimerGeneration) || old(liveRetryTimer).None? ==>
                View() == old(View()) && script == old(script)
      ensures generation == old(liveRetryTimerGeneration) && old(liveRetryTimer).Some? ==>
                Began(Session(TimerFires)) && Calmly(TimerRun(old(View()), ackStallTimeoutMs, clock))
    {
      ghost var s0 := View();
      KeptRefl(s0);
      if generation == liveRetryTimerGeneration && liveRetryTimer.Some? {
        TakeTimer();
        EventKept(s0, TimerFires);
        ghost var s1 := View();
        KeptRest(s0, s1);
        RetryDueUnacked();
        KeptTrans(s0, s1, View());
      }
      AtRest(s0);
    }

    method TakeTimer()
      requires Valid() && LegalEvent(View(), TimerFires)
      modifies this
      ensures Did(Session(TimerFires))
    {
      ghost var s := View();
      liveRetryTimer := None;
      liveRetryTimerGeneration := liveRetryTimerGeneration + 1;
      Log(s, Session(TimerFires));
    }

    method RetryDueUnacked()
      requires Valid() && Rest(View())
      modifies this
      ensures Ran() && Calmly(RetriesDone(old(View()), ackStallTimeoutMs, clock))
    {
      ghost var s0 := View();
      KeptRefl(s0);
      if sessionKey.None? || disconnected || terminalReached {
        return;
      }
      var generation, epoch, key, mutation := liveRetryTimerGeneration, connectionEpoch, sessionKey, ackStallMutationEpoch;
      var entries := CaptureScheduling(unackedLedger);
      var since, issued := ackStallSinceAt, ackStallRecoveryIssued;
      MatchesItself(unackedLedger);
      var now := Callout();
      ghost var s1 := View();
      KeptRest(s0, s1);
      if liveRetryTimerGeneration == generation && connectionEpoch == epoch && sessionKey == key
        && ackStallMutationEpoch == mutation && ackStallSinceAt == since && ackStallRecoveryIssued == issued
        && !disconnected && !terminalReached && SchedulingMatches(unackedLedger, entries)
      {
        RecoverOrRetry(now);
        KeptTrans(s0, s1, View());
      }
    }

    /** Nothing moved while the clock was read: a stalled interval is recovered, once; else what is due is repeated. */
    method RecoverOrRetry(now: int)
      requires Valid() && Rest(View()) && Live(View()) && sessionKey.Some?
      modifies this
      ensures Ran()
      ensures old(Stalled(View(), ackStallTimeoutMs, now)) ==> Began(Session(StallFire(now, ackStallTimeoutMs)))
      ensures now == clock ==> Calmly(RetriesDone(old(View()), ackStallTimeoutMs, clock))
    {
      hide Recovered, TimerArmed, RetriedFrom;
      if ackStallTimeoutMs > 0 && ackStallSinceAt.Some? && !ackStallRecoveryIssued && unackedLedger != []
        && now - ackStallSinceAt.value >= ackStallTimeoutMs
      {
        ghost var s1 := View();
        FireStall(now);
        EventKept(s1, StallFire(now, ackStallTimeoutMs));
        ghost var s2 := View();
        var _ := RequestApplicationRecovery();
        KeptTrans(s1, s2, View());
      } else {
        RetryDue(now);
      }
    }

    method FireStall(now: int)
      requires Valid() && LegalEvent(View(), StallFire(now, ackStallTimeoutMs))
      modifies this
      ensures Did(Session(StallFire(now, ackStallTimeoutMs)))
    {
      ghost var s := View();
      ackStallMutationEpoch := ackStallMutationEpoch + 1;
      ackStallRecoveryIssued := true;
      Log(s, Session(StallFire(now, ackStallTimeoutMs)));
    }

    /** When the loop over the ledger ends by itself, the timer is armed for what waits now. */
    method RetryDue(now: int)
      requires Valid() && Rest(View()) && Live(View()) && sessionKey.Some?
      modifies this
      ensures Ran()
      ensures Calmly(TimerArmed(RetriedFrom(old(View()), 0, now, clock + clock), ackStallTimeoutMs))
    {
      ghost var s0 := View();
      var finished := RetryLoop(now);
      if finished {
        ghost var s1 := View();
        ArmLiveRetryTimer();
        KeptTrans(s0, s1, View());
      }
    }

    /** The loop over the live ledger: the next entry is the first one recorded after the last visited. */
    method RetryLoop(now: int) returns (finished: bool)
      requires Valid() && Rest(View()) && Live(View()) && sessionKey.Some?
      modifies this
      ensures Ran() && (|script| < |old(script)| || finished)
      ensures Calmly(RetriedFrom(old(View()), 0, now, clock + clock))
    {
      ghost var s0, t0 := View(), trace;
      KeptRefl(s0);
      var from: nat := 0;
      finished := true;
      while finished && NextDue(unackedLedger, from, now).Some?
        invariant Valid() && t0 <= trace && |script| <= |old(script)|
        invariant Kept(s0, View()) && from <= nextSerial
        invariant |script| < |old(script)| || finished
        invariant finished ==> sessionKey.Some? && Live(View())
        invariant |script| < |old(script)| || RetriedFrom(View(), from, now, clock + clock) == RetriedFrom(s0, 0, now, clock + clock)
        decreases |script|, nextSerial - from, finished
      {
        ghost var s1 := View();
        KeptRest(s0, s1);
        from, finished := RetryNext(from, now);
        KeptTrans(s0, s1, View());
      }
    }

    /** Repeats the next due entry; the loop goes on behind it. */
    method RetryNext(from: nat, now: int) returns (next: nat, again: bool)
      requires Valid() && Rest(View()) && Live(View()) && sessionKey.Some? && NextDue(unackedLedger, from, now).Some?
      modifies this
      ensures Ran() && from < next <= nextSerial
      ensures again ==> sessionKey.Some? && Live(View()) && (|script| < |old(script)| || nextSerial == old(nextSerial))
      ensures |script| < |old(script)| ||
                RetriedFrom(View(), next, now, clock + clock) == RetriedFrom(old(View()), from, now, clock + clock)
      ensures |script| < |old(script)| || again
    {
      var entry := NextDue(unackedLedger, from, now).value;
      SerialBelow(entry);
      again := RetryEntry(entry);
      next := entry.serial + 1;
    }

    /** The fences of a retry: nothing moved since the entry was picked. */
    predicate EntryFence(entry: Entry, key: Option<nat>, epoch: nat, mutation: nat, generation: nat)
      reads this
    {
      && InLedger(unackedLedger, entry.serial) && sessionKey == key && connectionEpoch == epoch
      && ackStallMutationEpoch == mutation && liveRetryTimerGeneration == generation
      && !disconnected && !terminalReached
    }

    lemma SerialBelow(entry: Entry)
      requires Valid() && entry in unackedLedger
      ensures entry.serial < nextSerial && InLedger(unackedLedger, entry.serial)
    {
      Since(trace, View());
      assert Holds(View(), Serials);
      var i :| 0 <= i < |unackedLedger| && unackedLedger[i] == entry;
      assert unackedLedger[i].serial == entry.serial;
    }

    method Repeat(serial: nat)
      requires Valid() && LegalOwn(View(), Retry(serial))
      modifies this
      ensures Did(Step.Own(Retry(serial))) && Kept(old(View()), View())
    {
      ghost var s := View();
      wire := wire + MessageOf(unackedLedger, serial);
      Log(s, Step.Own(Retry(serial)));
      RetryKept(s, Retry(serial));
    }

    method SetNextRetry(serial: nat, count: nat, at: int)
      requires Valid() && LegalOwn(View(), Reschedule(serial, count, at))
      modifies this
      ensures Did(Step.Own(Reschedule(serial, count, at))) && Kept(old(View()), View())
    {
      ghost var s := View();
      unackedLedger := Scheduled(unackedLedger, serial, count, at);
      Log(s, Step.Own(Reschedule(serial, count, at)));
      RetryKept(s, Reschedule(serial, count, at));
    }

    /** Repeats one due entry with its own id; anything that moved meanwhile ends the pass. */
    method RetryEntry(entry: Entry) returns (again: bool)
      requires Valid() && Rest(View()) && Live(View()) && sessionKey.Some? && entry in unackedLedger
      modifies this
      ensures Ran() && nextSerial >= old(nextSerial)
      ensures again ==> sessionKey.Some? && Live(View()) && (|script| < |old(script)| || nextSerial == old(nextSerial))
      ensures Calmly(EntryRetried(old(View()), entry, clock + clock)) && (|script| < |old(script)| || again)
    {
      ghost var s0 := View();
      SerialBelow(entry);
      var mutation, generation, key, epoch := ackStallMutationEpoch, liveRetryTimerGeneration, sessionKey, connectionEpoch;
      var delay := Callout();
      ghost var s1 := View();
      assert Preserves(s0, s1, OnHand) && Preserves(s0, s1, OnSession);
      again := EntryFence(entry, key, epoch, mutation, generation);
      if again {
        again := RetryTimed(entry, key, epoch, mutation, generation, delay);
        KeptTrans(s0, s1, View());
        assert Preserves(s0, View(), OnHand);
      }
    }

    method RetryTimed(entry: Entry, key: Option<nat>, epoch: nat, mutation: nat, generation: nat, delay: int)
      returns (again: bool)
      requires Valid() && LegalOwn(View(), Retry(entry.serial))
      requires key.Some? && EntryFence(entry, key, epoch, mutation, generation)
      modifies this
      ensures Ran()
      ensures Calmly(EntryRetried(old(View()), entry, clock + delay)) && (|script| < |old(script)| || again)
      ensures again ==> sessionKey.Some? && Live(View()) && (|script| < |old(script)| || nextSerial == old(nextSerial))
    {
      hide EntryRetried, Inv;
      ghost var s0 := View();
      var attemptAt := Callout();
      ghost var s1 := View();
      assert Preserves(s0, s1, OnHand) && Preserves(s0, s1, OnSession);
      again := EntryFence(entry, key, epoch, mutation, generation);
      if again {
        again := SendAgain(entry, key, epoch, mutation, generation, attemptAt + delay);
        KeptTrans(s0, s1, View());
        assert |script| < |old(script)| || s1 == s0;
      }
    }

    method SendAgain(entry: Entry, key: Option<nat>, epoch: nat, mutation: nat, generation: nat, at: int)
      returns (again: bool)
      requires Valid() && LegalOwn(View(), Retry(entry.serial))
      requires key.Some? && EntryFence(entry, key, epoch, mutation, generation)
      modifies this
      ensures Ran()
      ensures Calmly(EntryRetried(old(View()), entry, at)) && (|script| < |old(script)| || again)
      ensures again ==> sessionKey.Some? && Live(View()) && (|script| < |old(script)| || nextSerial == old(nextSerial))
    {
      var ok := TransportAccepts();
      if ok {
        again := RepeatEntry(entry, key, epoch, mutation, generation, at);
      } else {
        ghost var s0 := View();
        LoseConnection();
        ghost var s1 := View();
        var _ := Callout();
        KeptTrans(s0, s1, View());
        again := false;
      }
    }

    method RepeatEntry(entry: Entry, key: Option<nat>, epoch: nat, mutation: nat, generation: nat, at: int)
      returns (again: bool)
      requires Valid() && LegalOwn(View(), Retry(entry.serial))
      requires key.Some? && EntryFence(entry, key, epoch, mutation, generation)
      modifies this
      ensures Ran()
      ensures Calmly(EntryRetried(old(View()), entry, at)) && (|script| < |old(script)| || again)
      ensures again ==> sessionKey.Some? && Live(View()) && (|script| < |old(script)| || nextSerial == old(nextSerial))
    {
      ghost var s0 := View();
      Repeat(entry.serial);
      ghost var s1 := View();
      again := RescheduleEntry(entry, key, epoch, mutation, generation, at);
      RetryAndReschedule(s0, entry, at);
      KeptTrans(s0, s1, View());
    }

    /** What the transport delivered from inside the publish comes first. */
    method RescheduleEntry(entry: Entry, key: Option<nat>, epoch: nat, mutation: nat, generation: nat, at: int)
      returns (again: bool)
      requires Valid() && hand.Idle? && key.Some? && EntryFence(entry, key, epoch, mutation, generation)
      modifies this
      ensures Ran()
      ensures Calmly(ApplyOwn(old(View()), Reschedule(entry.serial, entry.retryCount + 1, at)))
      ensures |script| < |old(script)| || again
      ensures again ==> sessionKey.Some? && Live(View()) && (|script| < |old(script)| || nextSerial == old(nextSerial))
    {
      ghost var s0 := View();
      var _ := Callout();
      ghost var s1 := View();
      assert Preserves(s0, s1, OnHand);
      again := EntryFence(entry, key, epoch, mutation, generation);
      if again {
        SetNextRetry(entry.serial, entry.retryCount + 1, at);
        KeptTrans(s0, s1, View());
      }
    }
  }
}
