/** What senders end up being told, in every run and by each operation that nothing disturbs. */
module SendPathOutcomes {
  import opened Options
  import opened SendPath
  import opened SendPathInvariants
  import opened SendPathRuns
  import opened SendPathEffects
  import opened SendPathCalm

  // ---------------------------------------------------------------------------
  // Over runs: an outcome comes from a result frame that says so
  // ---------------------------------------------------------------------------

  /** The k-th step hears a result frame that names the id. */
  predicate Hears(steps: seq<Step>, k: nat, id: nat, accepted: bool)
    requires k < |steps|
  {
    steps[k].Call? && steps[k].call.Answer? && steps[k].call.accepted == accepted && id in steps[k].call.ids
  }

  lemma {:induction false} AnswerWasHeard(steps: seq<Step>, id: nat, accepted: bool) returns (k: nat)
    requires LegalRun(steps) && (id, accepted) in Run(steps).answers
    ensures k < |steps| && Hears(steps, k, id, accepted)
  {
    var init, step := steps[..|steps| - 1], steps[|steps| - 1];
    if (id, accepted) in Run(init).answers {
      k := AnswerWasHeard(init, id, accepted);
    } else {
      StepAnswers(Run(init), step);
      k := |init|;
    }
  }

  predicate Finished(s: State, id: nat, accepted: bool) {
    id in s.tracker && s.tracker[id] == if accepted then Accepted else Failed(Overloaded)
  }

  lemma CallFinishes(s: State, call: CallStep, id: nat, accepted: bool)
    requires LegalCall(s, call) && Finished(ApplyCall(s, call), id, accepted) && !Finished(s, id, accepted)
    ensures (id, accepted) in s.answers
  {
    match call
    case Advance(x, to) =>
    case Fail(x, reason) =>
    case _ =>
  }

  lemma StepFinishes(s: State, step: Step, id: nat, accepted: bool)
    requires Legal(s, step) && Finished(Apply(s, step), id, accepted) && !Finished(s, id, accepted)
    ensures (id, accepted) in s.answers
  {
    match step
    case Call(call) => CallFinishes(s, call, id, accepted);
    case Seal(seal) => SealFrame(s, seal);
    case Own(own) => OwnFrame(s, own);
    case Session(event) => EventFrame(s, event);
  }

  lemma {:induction false} FinishedIsAnswered(steps: seq<Step>, id: nat, accepted: bool)
    requires LegalRun(steps) && Finished(Run(steps), id, accepted)
    ensures (id, accepted) in Run(steps).answers
  {
    var init, step := steps[..|steps| - 1], steps[|steps| - 1];
    StepAnswers(Run(init), step);
    if Finished(Run(init), id, accepted) {
      FinishedIsAnswered(init, id, accepted);
    } else {
      StepFinishes(Run(init), step, id, accepted);
    }
  }

  /**
   * In every run a sender is told `accepted` only after an acknowledgement that names its id, and `overloaded` only
   * after a rejection that does: an acknowledgement never fails a send.
   */
  lemma OutcomeWasAnswered(steps: seq<Step>, id: nat) returns (k: nat)
    requires LegalRun(steps) && id in Run(steps).tracker
    requires Run(steps).tracker[id] == Accepted || Run(steps).tracker[id] == Failed(Overloaded)
    ensures k < |steps| && Hears(steps, k, id, Run(steps).tracker[id] == Accepted)
  {
    var accepted := Run(steps).tracker[id] == Accepted;
    FinishedIsAnswered(steps, id, accepted);
    k := AnswerWasHeard(steps, id, accepted);
  }

  // ---------------------------------------------------------------------------
  // Undisturbed: exactly who is told what
  // ---------------------------------------------------------------------------

  /** Told exactly if known, named and further on. */
  predicate ToldOnly(before: map<nat, SendState>, after: map<nat, SendState>, named: bool, to: SendState, id: nat) {
    && (id in after <==> id in before)
    && (id in before ==> after[id] == if named && before[id].Rank() < to.Rank() then to else before[id])
  }

  lemma OneMore(t: map<nat, SendState>, u: map<nat, SendState>, named: bool, to: SendState, x: nat, id: nat)
    requires ToldOnly(t, u, named, to, id)
    ensures ToldOnly(t, Advanced(u, x, to), named || x == id, to, id)
  {
  }

  lemma {:induction false} AllAdvancedIs(tracker: map<nat, SendState>, ids: seq<nat>, to: SendState, id: nat)
    ensures ToldOnly(tracker, AllAdvanced(tracker, ids, to), id in ids, to, id)
  {
    if ids != [] {
      var n := |ids| - 1;
      AllAdvancedIs(tracker, ids[..n], to, id);
      OneMore(tracker, AllAdvanced(tracker, ids[..n], to), id in ids[..n], to, ids[n], id);
      assert ids == ids[..n] + [ids[n]];
    }
  }

  /** A frame's outcome: each id it names that was known and had not failed, and no other. */
  predicate AnsweredAs(before: map<nat, SendState>, after: map<nat, SendState>, ids: seq<nat>, accepted: bool) {
    && before.Keys == after.Keys
    && forall id :: id in before ==>
         if id in ids && !before[id].Failed? then after[id] == (if accepted then Accepted else Failed(Overloaded))
         else after[id] == before[id]
  }

  lemma ToldIs(s: State, ids: seq<nat>, accepted: bool)
    ensures AnsweredAs(s.tracker, ResultTold(s, ids, accepted).tracker, ids, accepted)
  {
    forall id ensures var t := ResultTold(s, ids, accepted).tracker;
                      && (id in t <==> id in s.tracker)
                      && (id in s.tracker ==>
                            if id in ids && !s.tracker[id].Failed? then t[id] == (if accepted then Accepted else Failed(Overloaded))
                            else t[id] == s.tracker[id])
    {
      AllAdvancedIs(s.tracker, ids, Outcome(accepted), id);
    }
  }

  /** Undisturbed, an acknowledgement makes every id it names accepted, a rejection overloaded, and no other changes. */
  lemma ResultTells(s: State, ids: seq<nat>, accepted: bool, timeout: nat, now: int)
    ensures AnsweredAs(s.tracker, ResultDrained(s, ids, accepted, timeout, now).tracker, ids, accepted)
  {
    var t := AfterResult(s, Without(s.ledger, ids));
    var u := IntervalRestarted(t, now);
    ToldIs(s, ids, accepted);
    ToldIs(u, ids, accepted);
    TimersTellNobody(t, timeout, now);
    TimersTellNobody(ResultTold(u, ids, accepted), timeout, now);
  }

  lemma TimersTellNobody(s: State, timeout: nat, now: int)
    ensures TimerArmed(s, timeout).tracker == s.tracker && IntervalRestarted(s, now).tracker == s.tracker
  {
  }

  predicate SameMessages(s: State, t: State) {
    t.ledger == s.ledger && t.queue == s.queue && t.wire == s.wire && t.draining == s.draining
  }

  lemma TimersMoveNothing(s: State, timeout: nat, now: int)
    ensures SameMessages(s, TimerArmed(s, timeout)) && SameMessages(s, IntervalRestarted(s, now))
    ensures s.key.Some? && Live(s) && HasDeadline(s.ledger) ==> TimerArmed(s, timeout).timer.Some?
  {
  }

  /** A close fails what the client still owned as closed, a terminal failure as terminal, and nothing else. */
  lemma SweepTells(s: State, id: nat)
    requires id in s.tracker
    ensures var owned := id in UserIds(s.queue) || id in Ids(s.ledger);
            && id in ClosedDown(s).tracker && id in DiedOff(s).tracker
            && ClosedDown(s).tracker[id] == (if owned && !s.tracker[id].Failed? then Failed(Closed) else s.tracker[id])
            && DiedOff(s).tracker[id] == (if owned && !s.tracker[id].Failed? then Failed(TerminalFailure) else s.tracker[id])
  {
    AllAdvancedIs(s.tracker, Owned(s), Failed(Closed), id);
    AllAdvancedIs(s.tracker, Owned(s), Failed(TerminalFailure), id);
  }

  /** A send to a retired client fails at once, for the reason the client is retired. */
  lemma RefusalTells(s: State, id: nat, text: string, timeout: nat, now: int)
    requires !Live(s)
    ensures var t := MessageSent(s, id, text, timeout, now);
            && t.tracker == s.tracker[id := Failed(if s.terminal then TerminalFailure else Closed)]
            && t.queue == s.queue && t.ledger == s.ledger && t.wire == s.wire
  {
  }

  /** A seal reports its message as sent, and fails exactly the messages it pushed out of the ledger as evicted. */
  lemma SealTells(s: State, timeout: nat, now: int, id: nat)
    requires CanTake(s) && id in s.tracker
    ensures var t := HeadSealed(s, timeout, now);
            && id in t.tracker
            && t.tracker[id] == if id in Evictions(s) && !s.tracker[id].Failed? then Failed(Evicted)
                                else if id == s.queue[0].id && s.tracker[id] == Queued then Sent
                                else s.tracker[id]
  {
    TakenTells(s, timeout, now);
    AllAdvancedIs(Advanced(s.tracker, s.queue[0].id, Sent), Evictions(s), Failed(Evicted), id);
  }

  lemma TakenTells(s: State, timeout: nat, now: int)
    requires CanTake(s)
    ensures TakenSealed(Take(s), now + now, timeout, now).tracker == Advanced(s.tracker, s.queue[0].id, Sent)
  {
    var t := PublishConfirmed(PutOnWire(Take(s), now + now), now);
    TimersTellNobody(SenderTold(t, s.queue[0].id, Sent), timeout, now);
  }

  // ---------------------------------------------------------------------------
  // Undisturbed: the timer and the interval
  // ---------------------------------------------------------------------------

  /** A timer stands exactly if there is a session with unacknowledged work, and a deadline or an unspent interval. */
  lemma TimerStands(s: State, timeout: nat)
    ensures TimerArmed(s, timeout).timer.Some? <==>
              && s.key.Some? && !s.disconnected && !s.terminal && s.ledger != []
              && ((exists i :: 0 <= i < |s.ledger| && s.ledger[i].nextRetryAt.Some?)
                  || (timeout > 0 && s.stallSince.Some? && !s.stallIssued))
  {
  }

  /** The first confirmed publish starts the interval; an owned result restarts it while published work remains. */
  lemma IntervalBegins(s: State, now: int)
    ensures s.hand.Raw? && s.stallSince.None? && !s.stallIssued ==> PublishConfirmed(s, now).stallSince == Some(now)
    ensures s.hand.Raw? && s.stallSince.Some? ==> PublishConfirmed(s, now).stallSince == s.stallSince
    ensures Live(s) && s.key.Some? && (exists i :: 0 <= i < |s.ledger| && s.ledger[i].published) ==>
              IntervalRestarted(s, now).stallSince == Some(now) && !IntervalRestarted(s, now).stallIssued
  {
  }

  /** An interval that is over ends its session, once; one that is not keeps it. */
  lemma StallEndsSession(s: State, timeout: nat, now: int)
    requires s.key.Some? && Live(s) && s.ledger != [] && timeout > 0 && s.stallSince.Some? && !s.stallIssued
    ensures var t := RetriesDone(s, timeout, now);
            if now - s.stallSince.value >= timeout then t.key.None? && t.stallIssued && t.wire == s.wire && t.ledger == s.ledger
            else t == DueRetried(s, timeout, now)
  {
  }

  /** A lost connection spends the interval's one recovery exactly if published work is waiting. */
  lemma LossSpendsAllowance(s: State)
    ensures var t := ConnectionLost(s);
            && t.key.None? && t.timer.None? && t.epoch == s.epoch + 1 && t.ledger == s.ledger && t.queue == s.queue
            && t.stallIssued == (s.stallIssued || (Live(s) && exists i :: 0 <= i < |s.ledger| && s.ledger[i].published))
  {
  }

  /** A ledger within its cap lets go of its oldest entry exactly when it is full. */
  lemma EvictsTheOldest(steps: seq<Step>)
    requires LegalRun(steps) && CanTake(Run(steps)) && Run(steps).hand.Idle?
    ensures var s := Run(steps);
            Evictions(s) == if |s.ledger| == 100 then [s.ledger[0].id] else []
  {
    var s := Run(steps);
    LedgerIsBounded(steps);
    var recorded := Recorded(s.ledger, s.queue[0], s.nextSerial);
    if |s.ledger| == 100 {
      OneId(s.ledger[0]);
      assert recorded[..1] == [s.ledger[0]];
    }
  }

  // ---------------------------------------------------------------------------
  // Undisturbed: results, firings and new sessions
  // ---------------------------------------------------------------------------

  lemma {:induction false} WithoutIs(ledger: seq<Entry>, ids: seq<nat>)
    ensures forall e :: e in Without(ledger, ids) <==> e in ledger && e.id !in ids
    ensures !OwnsAny(ledger, ids) ==> Without(ledger, ids) == ledger
  {
    if ledger != [] {
      WithoutIs(ledger[1..], ids);
      assert ledger == [ledger[0]] + ledger[1..];
    }
  }

  /**
   * A result that owned an entry: exactly what it names leaves the ledger. If published work is left the interval
   * starts again and a timer stands; if none is left the interval and the spent recovery are forgotten.
   */
  lemma ResultRestarts(s: State, ids: seq<nat>, accepted: bool, timeout: nat, now: int)
    requires OwnsAny(s.ledger, ids) && Live(s) && s.key.Some?
    ensures var t, left := ResultDrained(s, ids, accepted, timeout, now), exists e :: e in s.ledger && e.id !in ids && e.published;
            && (forall e :: e in t.ledger <==> e in s.ledger && e.id !in ids)
            && t.wire == s.wire && t.queue == s.queue && !t.stallIssued
            && t.stallSince == (if left then Some(now) else None)
            && (left && timeout > 0 ==> t.timer.Some?)
  {
    hide ResultFannedOut;
    var kept := Without(s.ledger, ids);
    ResultLeaves(s, ids, accepted, timeout, now);
    PublishedLeft(s.ledger, ids);
    FanOutRestarts(AfterResult(s, kept), ids, accepted, timeout, now);
  }

  lemma PublishedLeft(ledger: seq<Entry>, ids: seq<nat>)
    ensures HasPublished(Without(ledger, ids)) <==> exists e :: e in ledger && e.id !in ids && e.published
    ensures forall e :: e in Without(ledger, ids) <==> e in ledger && e.id !in ids
  {
    var kept := Without(ledger, ids);
    WithoutIs(ledger, ids);
    if e :| e in ledger && e.id !in ids && e.published {
      assert e in kept;
    }
    assert forall i :: 0 <= i < |kept| ==> kept[i] in kept;
  }

  lemma FanOutRestarts(s: State, ids: seq<nat>, accepted: bool, timeout: nat, now: int)
    requires Live(s) && s.key.Some? && (HasPublished(s.ledger) || (s.stallSince.None? && !s.stallIssued))
    ensures var t := ResultFannedOut(s, ids, accepted, timeout, now);
            && !t.stallIssued && t.stallSince == (if HasPublished(s.ledger) then Some(now) else None)
            && (HasPublished(s.ledger) && timeout > 0 ==> t.timer.Some?)
  {
    hide AllAdvanced, TimerArmed;
    var told := ResultTold(IntervalRestarted(s, now), ids, accepted);
    ArmingKeepsInterval(told, timeout);
  }

  lemma ArmingKeepsInterval(s: State, timeout: nat)
    ensures var t := TimerArmed(s, timeout);
            && t.stallSince == s.stallSince && t.stallIssued == s.stallIssued
            && (s.key.Some? && Live(s) && s.ledger != [] && StallPending(s, timeout) ==> t.timer.Some?)
  {
  }

  /** A sealed message has a retry deadline, so a timer stands behind it. */
  lemma SealArms(s: State, timeout: nat, now: int)
    requires CanTake(s) && Live(s)
    ensures HeadSealed(s, timeout, now).timer.Some?
  {
    var t := PublishConfirmed(PutOnWire(Take(s), now + now), now);
    var last := |t.ledger| - 1;
    assert t.ledger[last].nextRetryAt.Some?;
    assert HasDeadline(t.ledger);
  }

  /** A firing repeats the due messages in ledger order, unless the interval stalled, and a timer stands again. */
  lemma FiringRepeats(s: State, timeout: nat, now: int)
    requires Holds(s, Serials) && s.key.Some? && Live(s) && !Stalled(s, timeout, now)
    ensures var t := TimerRun(s, timeout, now);
            && t.wire == s.wire + DueMessages(s.ledger, s.nextSerial, now)
            && t.ledger == DueRescheduled(s.ledger, s.nextSerial, now, now + now)
            && ((exists i :: 0 <= i < |s.ledger| && s.ledger[i].nextRetryAt.Some?) ==> t.timer.Some?)
  {
    hide TimerArmed, RetriedFrom, DueMessages, DueRescheduled;
    var fired := TimerMoved(s, TimerFires);
    assert Holds(fired, Serials);
    EveryDueOnce(fired, now, now + now);
    var t := RetriedBelow(fired, fired.nextSerial, now, now + now);
    TimersMoveNothing(t, timeout, now);
    DeadlinesStay(s.ledger, s.nextSerial, now, now + now);
  }

  lemma DeadlinesStay(ledger: seq<Entry>, bound: nat, now: int, at: int)
    ensures HasDeadline(ledger) ==> HasDeadline(DueRescheduled(ledger, bound, now, at))
  {
    if i :| 0 <= i < |ledger| && ledger[i].nextRetryAt.Some? {
      assert DueRescheduled(ledger, bound, now, at)[i].nextRetryAt.Some?;
    }
  }

  /** The ids that the frames name. */
  function AllNamed(frames: seq<(seq<nat>, bool)>): seq<nat> {
    if frames == [] then [] else AllNamed(frames[..|frames| - 1]) + frames[|frames| - 1].0
  }

  lemma {:induction false} WithoutBoth(ledger: seq<Entry>, a: seq<nat>, b: seq<nat>)
    ensures Without(Without(ledger, a), b) == Without(ledger, a + b)
  {
    if ledger != [] {
      WithoutBoth(ledger[1..], a, b);
      var rest := Without(ledger[1..], a);
      if ledger[0].id in a {
        assert Without(ledger, a) == rest;
      } else {
        assert Without(ledger, a) == [ledger[0]] + rest && ([ledger[0]] + rest)[1..] == rest;
      }
    }
  }

  lemma ResultLeaves(s: State, ids: seq<nat>, accepted: bool, timeout: nat, now: int)
    ensures var t := ResultDrained(s, ids, accepted, timeout, now);
            && t.ledger == Without(s.ledger, ids) && t.queue == s.queue && t.wire == s.wire && t.draining == s.draining
  {
    hide ResultFannedOut, ResultTold;
    WithoutIs(s.ledger, ids);
    FanOutMovesNothing(AfterResult(s, Without(s.ledger, ids)), ids, accepted, timeout, now);
    FanOutMovesNothing(s, ids, accepted, timeout, now);
  }

  lemma FanOutMovesNothing(s: State, ids: seq<nat>, accepted: bool, timeout: nat, now: int)
    ensures SameMessages(s, ResultTold(s, ids, accepted)) && SameMessages(s, ResultFannedOut(s, ids, accepted, timeout, now))
  {
    hide TimerArmed, IntervalRestarted, AllAdvanced;
    TimersMoveNothing(s, timeout, now);
    TimersMoveNothing(ResultTold(IntervalRestarted(s, now), ids, accepted), timeout, now);
  }

  /** Frames buffered before the key are all heard: their ids leave the ledger, and their senders know the outcome. */
  lemma {:induction false} BufferedAreHeard(s: State, frames: seq<(seq<nat>, bool)>, timeout: nat, now: int)
    requires s.key.Some?
    ensures var t := PendingDrained(s, frames, timeout, now);
            && t.ledger == Without(s.ledger, AllNamed(frames))
            && t.queue == s.queue && t.wire == s.wire && t.draining == s.draining && t.tracker.Keys == s.tracker.Keys
            && forall id :: id in s.tracker && id in AllNamed(frames) ==> t.tracker[id].Rank() >= 2
  {
    if frames == [] {
      WithoutIs(s.ledger, []);
    } else {
      hide ResultDrained, Without, AnsweredAs;
      var init, last := frames[..|frames| - 1], frames[|frames| - 1];
      var before := PendingDrained(s, init, timeout, now);
      BufferedAreHeard(s, init, timeout, now);
      ResultLeaves(before, last.0, last.1, timeout, now);
      ResultTells(before, last.0, last.1, timeout, now);
      WithoutBoth(s.ledger, AllNamed(init), last.0);
      AnsweredLater(s.tracker, before.tracker, PendingDrained(s, frames, timeout, now).tracker, AllNamed(init), last.0, last.1);
    }
  }

  lemma AnsweredLater(first: map<nat, SendState>, before: map<nat, SendState>, after: map<nat, SendState>,
                      heard: seq<nat>, ids: seq<nat>, accepted: bool)
    requires before.Keys == first.Keys && AnsweredAs(before, after, ids, accepted)
    requires forall id :: id in first && id in heard ==> before[id].Rank() >= 2
    ensures after.Keys == first.Keys && forall id :: id in first && id in heard + ids ==> after[id].Rank() >= 2
  {
  }

  /** A new session repeats, in order, exactly the messages no buffered frame named, ahead of what waited. */
  lemma SessionRepeatsTheRest(s: State, frames: seq<(seq<nat>, bool)>, timeout: nat, now: int)
    requires !s.draining
    ensures var t := SessionEstablished(s, frames, timeout, now);
            t.queue == [] && t.wire == s.wire + (Messages(Without(s.ledger, AllNamed(frames))) + s.queue)
  {
    var installed := ApplyEvent(s, InstallKey);
    BufferedAreHeard(installed, frames, timeout, now);
    var heard := PendingDrained(installed, frames, timeout, now);
    WholeQueueGoesOut(ApplyOwn(heard, Flush).(draining := true), timeout, now);
  }

  /** A closed client opens again; a terminal one never does. */
  lemma ReopensUnlessTerminal(s: State)
    ensures Live(Opened(ClosedDown(s))) <==> !s.terminal
  {
  }
}
