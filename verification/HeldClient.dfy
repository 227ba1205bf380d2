/** The wrapper's send, release, stop and teardown paths, as they change its hold. */
module HeldClient {
  import opened Options
  import opened HeldSends

  datatype Text = Ordinary | AbortWord | ExplicitStop

  /** What embedder code, or the transport, may do from inside a callout. */
  datatype Action =
    | Send(text: Text)
    | Withdraw(call: nat)
    | Frame(turnStates: seq<bool>)
    | DraftsExpire(stillInFlight: bool)
    | SessionUp
    | RawState(up: bool, stillWorking: bool)
    | Open
    | Close
    | Fail

  datatype Move = Act(action: Action) | Back

  /** A state and what is left of the script. */
  type Outcome = Option<(State, seq<Move>)>

  // ---------------------------------------------------------------------------
  // What scripted reactions come to
  // ---------------------------------------------------------------------------

  /** Where a callout leads if only the reactions below are scripted for it. */
  function Answered(s: State, reenters: bool, script: seq<Move>): (r: Outcome)
    ensures r.Some? ==> |r.value.1| <= |script|
    decreases |script|, 0
  {
    if script == [] then Some((s, []))
    else if script[0].Back? then Some((s, script[1..]))
    else
      var r := Reacted(s, reenters, script[0].action, script[1..]);
      if r.None? then None else Answered(r.value.0, reenters, r.value.1)
  }

  /** A send, a retraction, a raw edge and a new session that releases nothing. */
  function Reacted(s: State, reenters: bool, action: Action, script: seq<Move>): (r: Outcome)
    ensures r.Some? ==> |r.value.1| <= |script|
    decreases |script|, 1
  {
    match action
    case Send(Ordinary) => Answered(OrdinarySent(s), reenters, script)
    case Withdraw(call) =>
      if call !in s.held then Some((s, script))
      else
        var t := Apply(s, Retract(call));
        var r := if t.held == [] && reenters then Answered(t, reenters, script) else Some((t, script));
        if r.None? then None else Answered(r.value.0, reenters, r.value.1)
    case RawState(up, stillWorking) =>
      var r := Answered(Apply(s, RawEdge), reenters, script);
      if r.None? || r.value.0.terminal then r
      else Answered(EdgeFollowed(r.value.0, up, stillWorking), reenters, r.value.1)
    case SessionUp =>
      if s.terminal || s.closed then Some((s, script))
      else
        var r := Answered(Apply(s, SessionOpens), reenters, script);
        if r.Some? && CanRelease(r.value.0) then None else r
    case _ => None
  }

  /** The owner's timer is cleared. */
  function Reached(s: State, script: seq<Move>): Outcome {
    Answered(Apply(s, ReachLast), true, script)
  }

  predicate Breaks(s: State, script: seq<Move>) {
    |s.held| == 1 && Reached(s, script).Some? && !FenceHolds(Reached(s, script).value.0)
  }

  class Client {
    var held: seq<nat>
    var handed: seq<nat>
    var turnInFlight: bool
    var connected: bool
    var sessionEstablished: bool
    var terminal: bool
    var closed: bool
    var wrapperLifecycleGeneration: nat
    var stopCommitDepth: nat
    var heldReleaseCommitDepth: nat
    var calls: nat
    var script: seq<Move>

    /** Whether clearing a timer can run embedder code. */
    const clearHookReenters: bool

    ghost var fence: Option<Fence>
    ghost var strandings: nat
    ghost var trace: seq<Step>

    ghost function View(): State
      reads this
    {
      State(held, handed, calls, turnInFlight, connected, sessionEstablished, terminal, closed, wrapperLifecycleGeneration,
            stopCommitDepth, heldReleaseCommitDepth, fence, strandings)
    }

    /** The hold is where a legal run of steps led. */
    ghost predicate Valid()
      reads this
    {
      LegalRun(trace) && Run(trace) == View() && Inv(View())
    }

    constructor (script: seq<Move>, clearHookReenters: bool)
      ensures Valid() && View() == INITIAL && trace == []
      ensures this.script == script && this.clearHookReenters == clearHookReenters
    {
      held, handed, turnInFlight, connected, sessionEstablished := [], [], false, false, false;
      terminal, closed, wrapperLifecycleGeneration := false, false, 0;
      stopCommitDepth, heldReleaseCommitDepth, calls := 0, 0, 0;
      this.script := script;
      this.clearHookReenters := clearHookReenters;
      fence, strandings, trace := None, 0, [];
      new;
      assert View() == INITIAL;
      RunKeepsInv([]);
    }

    ghost method Log(before: State, step: Step)
      requires LegalRun(trace) && Run(trace) == before && Inv(before) && Legal(before, step) && View() == Apply(before, step)
      modifies `trace
      ensures Valid() && trace == old(trace) + [step] && View() == old(View())
      ensures forall n: nat :: Gone(before, n) ==> Gone(View(), n)
    {
      Extend(trace, step);
      StepKeepsInv(before, step);
      trace := trace + [step];
      forall n: nat | Gone(before, n) ensures Gone(View(), n) {
        GoneStays(before, step, n);
      }
    }

    twostate predicate Ran()
      reads this
    {
      Valid() && old(trace) <= trace && |script| <= |old(script)| && Kept(!clearHookReenters, old(View()), View())
    }

    /** As Ran, inside a release pass, whose fence may have moved. */
    twostate predicate Passed()
      reads this
    {
      && Valid() && old(trace) <= trace && |script| <= |old(script)|
      && Grew(!clearHookReenters, old(View()), View()) && SameDepths(old(View()), View())
    }

    twostate predicate FenceKept()
      reads this
    {
      heldReleaseCommitDepth > 0 ==> fence == old(fence)
    }

    /** The first thing the method did. */
    twostate predicate Began(step: Step)
      reads this
    {
      |trace| > |old(trace)| && trace[|old(trace)|] == step
    }

    /** If the environment made no move, this is what came of the call. */
    twostate predicate Calmly(outcome: State)
      reads this
    {
      |script| < |old(script)| || View() == outcome
    }

    /** If only the reactions above are scripted, this is what came of the call. */
    twostate predicate Scripted(outcome: Outcome)
      reads this
    {
      outcome.Some? ==> (View(), script) == outcome.value
    }

    // -------------------------------------------------------------------------
    // Callouts
    // -------------------------------------------------------------------------

    /** Embedder code runs. */
    method Callout()
      requires Valid()
      modifies this
      ensures Ran() && Calmly(old(View()))
      ensures Scripted(Answered(old(View()), clearHookReenters, old(script)))
      decreases |script|, 0
    {
      ghost var s0, t0, script0 := View(), trace, script;
      while script != [] && script[0].Act?
        invariant Valid() && t0 <= trace && Kept(!clearHookReenters, s0, View()) && |script| <= |script0|
        invariant |script| < |script0| || View() == s0
        invariant Answered(s0, clearHookReenters, script0).Some? ==>
                    Answered(View(), clearHookReenters, script) == Answered(s0, clearHookReenters, script0)
        decreases |script|
      {
        var action := script[0].action;
        script := script[1..];
        ghost var s1 := View();
        Perform(action);
        KeptTrans(!clearHookReenters, s0, s1, View());
      }
      if script != [] {
        script := script[1..];
      }
    }

    /** Retire the episode, then clear its timer. */
    method EndHeldStallEpisode()
      requires Valid()
      modifies this
      ensures Ran() && Calmly(old(View()))
      ensures !clearHookReenters ==> View() == old(View()) && script == old(script)
      ensures clearHookReenters ==> Scripted(Answered(old(View()), true, old(script)))
      decreases |script|, 1
    {
      if clearHookReenters {
        Callout();
      }
    }

    /** The episode of dropped sends is over, and their senders are told. */
    method TellDropped(any: bool)
      requires Valid()
      modifies this
      ensures Ran() && Calmly(old(View()))
      decreases |script|, 2
    {
      ghost var s0 := View();
      if any {
        EndHeldStallEpisode();
      }
      ghost var s1 := View();
      Callout();
      KeptTrans(!clearHookReenters, s0, s1, View());
    }

    // -------------------------------------------------------------------------
    // Sending and stopping
    // -------------------------------------------------------------------------

    predicate ShouldHoldNow()
      reads this
    {
      if terminal || closed then false
      else if stopCommitDepth > 0 || heldReleaseCommitDepth > 0 then true
      else turnInFlight || held != []
    }

    method SendText(text: Text)
      requires Valid()
      modifies this
      ensures Ran()
      ensures text == Ordinary ==> Began(if ShouldHold(old(View())) then Hold else HandNew) && Calmly(OrdinarySent(old(View())))
      ensures text == Ordinary && !old(terminal) && !old(closed) && (old(turnInFlight) || old(held) != []) ==> Began(Hold)
      ensures text == Ordinary && (old(terminal) || old(closed)) ==> Began(HandNew)
      ensures text == AbortWord ==> Calmly(old(View()))
      ensures text == ExplicitStop ==> (forall n :: n in old(held) ==> Gone(View(), n)) && Calmly(StoppedAll(old(View())))
      ensures Scripted(Reacted(old(View()), clearHookReenters, Send(text), old(script)))
      decreases |script|, 8
    {
      match text
      case ExplicitStop => Stop();
      case AbortWord => Callout();
      case Ordinary => SendOrdinary();
    }

    method SendOrdinary()
      requires Valid()
      modifies this
      ensures Ran()
      ensures Began(if ShouldHold(old(View())) then Hold else HandNew) && Calmly(OrdinarySent(old(View())))
      ensures if !old(terminal) && !old(closed) && (old(turnInFlight) || old(held) != []) then Began(Hold)
              else old(stopCommitDepth) + old(heldReleaseCommitDepth) == 0 ==> Began(HandNew)
      ensures Scripted(Reacted(old(View()), clearHookReenters, Send(Ordinary), old(script)))
      decreases |script|, 7
    {
      ghost var s0 := View();
      TakeCall();
      ghost var s1 := View();
      Callout();
      KeptTrans(!clearHookReenters, s0, s1, View());
    }

    /** Behind what is held, or straight to the low-level client. */
    method TakeCall()
      requires Valid()
      modifies this
      ensures Valid() && script == old(script) && View() == OrdinarySent(old(View()))
      ensures trace == old(trace) + [if ShouldHold(old(View())) then Hold else HandNew]
      ensures Kept(!clearHookReenters, old(View()), View())
    {
      ghost var s0 := View();
      if ShouldHoldNow() {
        held := held + [calls];
        calls := calls + 1;
        Log(s0, Hold);
      } else {
        handed := handed + [calls];
        calls := calls + 1;
        Log(s0, HandNew);
      }
    }

    /** Everything held is cancelled, the local turn state is finalized, and only then the stop itself goes out. */
    method Stop()
      requires Valid()
      modifies this
      ensures Ran()
      ensures TopLevel(old(View())) && strandings == old(strandings) ==> Settled(View())
      ensures forall n :: n in old(held) ==> Gone(View(), n)
      ensures Calmly(StoppedAll(old(View())))
      ensures |script| == |old(script)| ==> held == [] && !turnInFlight && handed == old(handed)
      decreases |script|, 7
    {
      ghost var s0 := View();
      CommitStop();
      ghost var s1 := View();
      if stopCommitDepth == 0 {
        MaybeRelease();
      }
      GrewTrans(!clearHookReenters, s0, s1, View());
    }

    /** The depth is up while the hold is dropped, the turn finalized and the stop queued. */
    method CommitStop()
      requires Valid()
      modifies this
      ensures Passed() && FenceKept()
      ensures forall n :: n in old(held) ==> Gone(View(), n)
      ensures Calmly(StoppedAll(old(View())))
      decreases |script|, 6
    {
      ghost var s0 := View();
      MoveStopDepth(1, EnterStop);
      ghost var s1 := View();
      StopInside();
      ghost var s2 := View();
      MoveStopDepth(-1, LeaveStop);
      GrewTrans(!clearHookReenters, s0, s1, s2);
      GrewTrans(!clearHookReenters, s0, s2, View());
    }

    method StopInside()
      requires Valid() && stopCommitDepth > 0
      modifies this
      ensures Passed() && FenceKept()
      ensures forall n :: n in old(held) ==> Gone(View(), n)
      ensures Calmly(StoppedAll(old(View())))
      decreases |script|, 5
    {
      ghost var s0 := View();
      MarkHeldRetracted();
      ghost var s1 := View();
      TurnTo(false);
      ghost var s2 := View();
      GrewTrans(!clearHookReenters, s0, s1, s2);
      Callout();
      GrewTrans(!clearHookReenters, s0, s2, View());
    }

    method MoveStopDepth(delta: int, ghost step: Step)
      requires Valid() && stopCommitDepth + delta >= 0
      requires if delta == 1 then step == EnterStop else delta == -1 && step == LeaveStop
      modifies this
      ensures Valid() && trace == old(trace) + [step] && script == old(script)
      ensures View() == old(View()).(stopDepth := old(stopCommitDepth) + delta)
      ensures Grew(!clearHookReenters, old(View()), View())
    {
      ghost var s := View();
      stopCommitDepth := stopCommitDepth + delta;
      Log(s, step);
    }

    method TurnTo(inFlight: bool)
      requires Valid()
      modifies this
      ensures Passed() && FenceKept() && Calmly(old(View()).(inFlight := inFlight))
      decreases |script|, 3
    {
      ghost var s0 := View();
      MoveTurn(inFlight);
      ghost var s1 := View();
      Callout();
      GrewTrans(!clearHookReenters, s0, s1, View());
    }

    method MoveTurn(inFlight: bool)
      requires Valid()
      modifies this
      ensures Valid() && trace == old(trace) + [TurnMoves(inFlight)] && script == old(script)
      ensures View() == old(View()).(inFlight := inFlight)
      ensures Grew(!clearHookReenters, old(View()), View())
    {
      ghost var s := View();
      turnInFlight := inFlight;
      Log(s, TurnMoves(inFlight));
    }

    method MarkHeldRetracted()
      requires Valid() && stopCommitDepth > 0
      modifies this
      ensures Ran() && Calmly(old(View()).(held := []))
      ensures forall n :: n in old(held) ==> Gone(View(), n)
      decreases |script|, 3
    {
      ghost var s0 := View();
      if held == [] {
        return;
      }
      held := [];
      Log(s0, StopHeld);
      AllDropped(s0, StopHeld);
      ghost var s1 := View();
      TellDropped(true);
      KeptTrans(!clearHookReenters, s0, s1, View());
    }

    method RetractCall(call: nat)
      requires Valid()
      modifies this
      ensures Ran()
      ensures call in old(held) ==> Began(Retract(call)) && Gone(View(), call)
      ensures call !in old(held) ==> View() == old(View()) && script == old(script)
      ensures Calmly(CallRetracted(old(View()), call))
      ensures Scripted(Reacted(old(View()), clearHookReenters, Withdraw(call), old(script)))
      decreases |script|, 4
    {
      if call !in held {
        return;
      }
      ghost var s0 := View();
      TakeOut(call);
      ghost var s1 := View();
      if held == [] {
        EndHeldStallEpisode();
      }
      ghost var s2 := View();
      Callout();
      KeptTrans(!clearHookReenters, s1, s2, View());
      KeptTrans(!clearHookReenters, s0, s1, View());
    }

    method TakeOut(call: nat)
      requires Valid() && call in held
      modifies this
      ensures Valid() && trace == old(trace) + [Retract(call)] && script == old(script)
      ensures View() == Apply(old(View()), Retract(call)) && Gone(View(), call)
      ensures Kept(!clearHookReenters, old(View()), View())
    {
      ghost var s := View();
      RemoveIs(held, call);
      DropIsGone(s, Retract(call), call);
      held := Remove(held, call);
      Log(s, Retract(call));
    }

    // -------------------------------------------------------------------------
    // Releasing
    // -------------------------------------------------------------------------

    /**
     * Live and FIFO: a send made by a listener appends behind what is still held. Nothing that could go out stays
     * behind unless the pass's fence broke.
     */
    method MaybeRelease()
      requires Valid()
      modifies this
      ensures Ran() && Calmly(Released(old(View())))
      ensures TopLevel(old(View())) && strandings == old(strandings) ==> Settled(View())
      ensures !CanRelease(old(View())) ==> View() == old(View()) && script == old(script)
      ensures CanRelease(old(View())) && clearHookReenters ==> CutAsScripted(old(View()), old(script))
      decreases |script|, 5
    {
      if stopCommitDepth > 0 || heldReleaseCommitDepth > 0 || held == [] || turnInFlight || !connected || !sessionEstablished {
        return;
      }
      ghost var s0 := View();
      EnterPass();
      ghost var s1 := View();
      ReleaseAll();
      ghost var s2 := View();
      LeavePass();
      GrewTrans(!clearHookReenters, s0, s1, s2);
      GrewTrans(!clearHookReenters, s0, s2, View());
    }

    /** If the script breaks the fence of a last owner, the pass ends as the script left it. */
    ghost predicate CutAsScripted(s: State, script: seq<Move>)
      reads this
    {
      var passing := Apply(s, EnterRelease);
      Breaks(passing, script) ==>
        var r := Reached(passing, script).value; (View(), this.script) == (PassLeft(r.0), r.1)
    }

    method EnterPass()
      requires Valid() && CanRelease(View())
      modifies this
      ensures Valid() && trace == old(trace) + [EnterRelease] && script == old(script)
      ensures View() == Apply(old(View()), EnterRelease) && fence.None? && Ready(View())
      ensures Grew(!clearHookReenters, old(View()), View())
    {
      ghost var s := View();
      heldReleaseCommitDepth := heldReleaseCommitDepth + 1;
      Log(s, EnterRelease);
    }

    method LeavePass()
      requires Valid() && Legal(View(), LeaveRelease) && (!clearHookReenters ==> held == [] || !Ready(View()))
      modifies this
      ensures Valid() && trace == old(trace) + [LeaveRelease] && script == old(script)
      ensures View() == PassLeft(old(View()))
      ensures Grew(!clearHookReenters, old(View()), View())
    {
      ghost var s := View();
      heldReleaseCommitDepth, fence := heldReleaseCommitDepth - 1, None;
      strandings := PassLeft(s).strandings;
      Log(s, LeaveRelease);
    }

    method ReleaseAll()
      requires Valid() && heldReleaseCommitDepth > 0 && fence.None? && Ready(View())
      modifies this
      ensures Passed() && Legal(View(), LeaveRelease)
      ensures !clearHookReenters ==> held == [] || !Ready(View())
      ensures Calmly(old(View()).(handed := old(handed) + old(held), held := []))
      ensures clearHookReenters && Breaks(old(View()), old(script)) ==>
                (View(), script) == Reached(old(View()), old(script)).value
      decreases |script|, 4
    {
      ghost var s0, t0, script0 := View(), trace, script;
      while held != []
        invariant Valid() && t0 <= trace && |script| <= |script0| && fence.None?
        invariant Grew(!clearHookReenters, s0, View()) && SameDepths(s0, View())
        invariant |script| < |script0| || (HandingOver(s0, View()) && Ready(View()))
        invariant (View(), script) == (s0, script0) || !clearHookReenters || !Breaks(s0, script0)
        decreases |script|, |held|
      {
        ghost var s1 := View();
        var cut := ReleaseHead();
        GrewTrans(!clearHookReenters, s0, s1, View());
        if cut {
          return;
        }
        HandedMore(s0, s1);
      }
    }

    /** The head goes out; before the last one does, the timer is cleared and the fence looked at. */
    method ReleaseHead() returns (cut: bool)
      requires Valid() && heldReleaseCommitDepth > 0 && held != [] && fence.None?
      modifies this
      ensures Passed()
      ensures if cut then Legal(View(), LeaveRelease) else fence.None?
      ensures cut && !clearHookReenters ==> !Ready(View())
      ensures !cut ==> |script| < |old(script)| || |held| < |old(held)|
      ensures |script| < |old(script)| || !Ready(old(View())) || (!cut && View() == Apply(old(View()), HandFirst))
      ensures clearHookReenters && Breaks(old(View()), old(script)) ==>
                cut && (View(), script) == Reached(old(View()), old(script)).value
      decreases |script|, 3
    {
      ghost var s0 := View();
      cut := false;
      if |held| == 1 {
        cut := ReachOwner();
      }
      if !cut {
        ghost var s1 := View();
        HandOver();
        GrewTrans(!clearHookReenters, s0, s1, View());
      }
    }

    method ReachOwner() returns (cut: bool)
      requires Valid() && heldReleaseCommitDepth > 0 && |held| == 1 && fence.None?
      modifies this
      ensures Passed() && fence == Some(Fence(old(held)[0], old(wrapperLifecycleGeneration)))
      ensures cut <==> !FenceHolds(View())
      ensures !clearHookReenters ==> View() == Apply(old(View()), ReachLast)
      ensures Calmly(Apply(old(View()), ReachLast))
      ensures clearHookReenters ==> Scripted(Reached(old(View()), old(script)))
      decreases |script|, 2
    {
      ghost var s0 := View();
      var heldEntry, lifecycle := held[0], wrapperLifecycleGeneration;
      fence := Some(Fence(heldEntry, lifecycle));
      Log(s0, ReachLast);
      ghost var s1 := View();
      EndHeldStallEpisode();
      cut := wrapperLifecycleGeneration != lifecycle || !sessionEstablished || !connected || closed || terminal
        || held == [] || held[0] != heldEntry;
      GrewTrans(!clearHookReenters, s0, s1, View());
    }

    method HandOver()
      requires Valid() && Legal(View(), HandFirst)
      modifies this
      ensures Passed() && fence.None?
      ensures |script| < |old(script)| || |held| < |old(held)|
      ensures Calmly(Apply(old(View()), HandFirst))
      decreases |script|, 1
    {
      ghost var s0 := View();
      handed, held, fence := handed + [held[0]], held[1..], None;
      Log(s0, HandFirst);
      ghost var s1 := View();
      Callout();
      GrewTrans(!clearHookReenters, s0, s1, View());
    }

    // -------------------------------------------------------------------------
    // What frames, timers and the transport bring
    // -------------------------------------------------------------------------

    /** A frame's reducer may move the turn state several times before the release gate is tried. */
    method HandleFrame(turnStates: seq<bool>)
      requires Valid()
      modifies this
      ensures Ran() && Calmly(FrameHandled(old(View()), turnStates))
      ensures TopLevel(old(View())) && strandings == old(strandings) ==> Settled(View())
      decreases |script|, 7
    {
      ghost var s0 := View();
      Callout();
      ghost var s1 := View();
      ReduceFrame(turnStates);
      ghost var s2 := View();
      GrewTrans(!clearHookReenters, s0, s1, s2);
      MaybeRelease();
      GrewTrans(!clearHookReenters, s0, s2, View());
    }

    method ReduceFrame(turnStates: seq<bool>)
      requires Valid()
      modifies this
      ensures Passed() && FenceKept() && Calmly(FrameReduced(old(View()), turnStates))
      decreases |script|, 6
    {
      ghost var s0, t0, script0 := View(), trace, script;
      for i := 0 to |turnStates|
        invariant Valid() && t0 <= trace && |script| <= |script0|
        invariant Grew(!clearHookReenters, s0, View()) && SameDepths(s0, View())
        invariant heldReleaseCommitDepth > 0 ==> fence == s0.fence
        invariant |script| < |script0| || View() == FrameReduced(s0, turnStates[..i])
      {
        ghost var s1 := View();
        TurnTo(turnStates[i]);
        GrewTrans(!clearHookReenters, s0, s1, View());
        FrameGoesOn(s0, turnStates, i);
      }
      assert turnStates[..|turnStates|] == turnStates;
    }

    /** The staleness valve. */
    method ExpireStaleDrafts(stillInFlight: bool)
      requires Valid()
      modifies this
      ensures Ran() && Calmly(DraftsExpired(old(View()), stillInFlight))
      ensures TopLevel(old(View())) && strandings == old(strandings) ==> Settled(View())
      decreases |script|, 7
    {
      ghost var s0 := View();
      TurnTo(turnInFlight && stillInFlight);
      ghost var s1 := View();
      MaybeRelease();
      GrewTrans(!clearHookReenters, s0, s1, View());
    }

    method OnSession()
      requires Valid()
      modifies this
      ensures Ran() && Calmly(SessionOpened(old(View())))
      ensures !old(terminal) && !old(closed) ==> Began(SessionOpens)
      ensures Scripted(Reacted(old(View()), clearHookReenters, SessionUp, old(script)))
      decreases |script|, 7
    {
      if terminal || closed {
        return;
      }
      ghost var s0 := View();
      var lifecycle := wrapperLifecycleGeneration;
      OpenSession();
      ghost var s1 := View();
      if wrapperLifecycleGeneration != lifecycle || !sessionEstablished || terminal || closed || !connected {
        return;
      }
      MaybeRelease();
      GrewTrans(!clearHookReenters, s0, s1, View());
    }

    /** The gate is open before the listeners learn of the session. */
    method OpenSession()
      requires Valid() && !terminal && !closed
      modifies this
      ensures Passed() && FenceKept() && Began(SessionOpens) && Calmly(Apply(old(View()), SessionOpens))
      ensures strandings == old(strandings) && TopLevel(old(View())) ==>
                wrapperLifecycleGeneration == old(wrapperLifecycleGeneration) || Settled(View())
      ensures Scripted(Answered(Apply(old(View()), SessionOpens), clearHookReenters, old(script)))
      decreases |script|, 6
    {
      ghost var s0 := View();
      OpenGate();
      ghost var s1 := View();
      Callout();
      GrewTrans(!clearHookReenters, s0, s1, View());
    }

    method OpenGate()
      requires Valid() && !terminal && !closed
      modifies this
      ensures Valid() && trace == old(trace) + [SessionOpens] && script == old(script)
      ensures View() == Apply(old(View()), SessionOpens) && Grew(!clearHookReenters, old(View()), View())
    {
      ghost var s := View();
      sessionEstablished := true;
      connected := true;
      Log(s, SessionOpens);
    }

    /** Either edge of the raw transport closes the release gate before any callout. */
    method OnState(up: bool, stillWorking: bool)
      requires Valid()
      modifies this
      ensures Ran() && Began(RawEdge) && Calmly(StateMoved(old(View()), up, stillWorking))
      ensures Scripted(Reacted(old(View()), clearHookReenters, RawState(up, stillWorking), old(script)))
      decreases |script|, 7
    {
      ghost var s0 := View();
      LoseSession();
      ghost var s1 := View();
      if terminal {
        return;
      }
      FollowEdge(up, stillWorking);
      KeptTrans(!clearHookReenters, s0, s1, View());
    }

    method LoseSession()
      requires Valid()
      modifies this
      ensures Ran() && Began(RawEdge) && Calmly(Apply(old(View()), RawEdge))
      ensures Scripted(Answered(Apply(old(View()), RawEdge), clearHookReenters, old(script)))
      decreases |script|, 6
    {
      ghost var s0 := View();
      CloseGate();
      ghost var s1 := View();
      Callout();
      KeptTrans(!clearHookReenters, s0, s1, View());
    }

    method FollowEdge(up: bool, stillWorking: bool)
      requires Valid()
      modifies this
      ensures Ran() && Calmly(EdgeFollowed(old(View()), up, stillWorking))
      ensures Scripted(Answered(EdgeFollowed(old(View()), up, stillWorking), clearHookReenters, old(script)))
      decreases |script|, 6
    {
      ghost var s0 := View();
      GoOffline(turnInFlight && (up || stillWorking));
      ghost var s1 := View();
      Callout();
      KeptTrans(!clearHookReenters, s0, s1, View());
    }

    method CloseGate()
      requires Valid()
      modifies this
      ensures Valid() && trace == old(trace) + [RawEdge] && script == old(script)
      ensures View() == Apply(old(View()), RawEdge) && Kept(!clearHookReenters, old(View()), View())
    {
      ghost var s := View();
      wrapperLifecycleGeneration := wrapperLifecycleGeneration + 1;
      sessionEstablished := false;
      Log(s, RawEdge);
    }

    method GoOffline(inFlight: bool)
      requires Valid()
      modifies this
      ensures Valid() && trace == old(trace) + [Disconnects(inFlight)] && script == old(script)
      ensures View() == Apply(old(View()), Disconnects(inFlight)) && Kept(!clearHookReenters, old(View()), View())
    {
      ghost var s := View();
      connected := false;
      turnInFlight := inFlight;
      Log(s, Disconnects(inFlight));
    }

    method Connect()
      requires Valid()
      modifies this
      ensures Ran() && Calmly(Reopened(old(View())))
      decreases |script|, 7
    {
      ghost var s0 := View();
      if !terminal {
        closed := false;
        Log(s0, Reopen);
      }
      ghost var s1 := View();
      Callout();
      KeptTrans(!clearHookReenters, s0, s1, View());
    }

    /** The hold is taken before any timer, the raw teardown or a sender's listener can run. */
    method CloseClient()
      requires Valid()
      modifies this
      ensures Ran() && Began(CloseDown) && Calmly(Apply(old(View()), CloseDown))
      ensures forall n :: n in old(held) ==> Gone(View(), n)
      decreases |script|, 7
    {
      ghost var s0 := View();
      var any := held != [];
      closed := true;
      wrapperLifecycleGeneration := wrapperLifecycleGeneration + 1;
      held := [];
      Log(s0, CloseDown);
      AllDropped(s0, CloseDown);
      ghost var s1 := View();
      TellDropped(any);
      KeptTrans(!clearHookReenters, s0, s1, View());
    }

    /** Terminal is set before the held sends fail, so that what their listeners send is not held. */
    method OnError()
      requires Valid()
      modifies this
      ensures Ran() && Began(Die) && Calmly(DiedOff(old(View())))
      ensures forall n :: n in old(held) ==> Gone(View(), n)
      ensures terminal
      decreases |script|, 7
    {
      ghost var s0 := View();
      FailHeld();
      ghost var s1 := View();
      FollowEdge(false, false);
      KeptTrans(!clearHookReenters, s0, s1, View());
    }

    method FailHeld()
      requires Valid()
      modifies this
      ensures Ran() && Began(Die) && Calmly(Apply(old(View()), Die))
      ensures forall n :: n in old(held) ==> Gone(View(), n)
      ensures terminal
      decreases |script|, 6
    {
      ghost var s0 := View();
      var any := held != [];
      terminal := true;
      wrapperLifecycleGeneration := wrapperLifecycleGeneration + 1;
      held := [];
      Log(s0, Die);
      AllDropped(s0, Die);
      ghost var s1 := View();
      TellDropped(any);
      KeptTrans(!clearHookReenters, s0, s1, View());
    }

    method Perform(action: Action)
      requires Valid()
      modifies this
      ensures Ran()
      ensures Scripted(Reacted(old(View()), clearHookReenters, action, old(script)))
      decreases |script|, 9
    {
      match action
      case Send(text) => SendText(text);
      case Withdraw(call) => RetractCall(call);
      case Frame(turnStates) => HandleFrame(turnStates);
      case DraftsExpire(stillInFlight) => ExpireStaleDrafts(stillInFlight);
      case SessionUp => OnSession();
      case RawState(up, stillWorking) => OnState(up, stillWorking);
      case Open => Connect();
      case Close => CloseClient();
      case Fail => OnError();
    }

    /**
     * One turn of the event loop, whatever embedder code does in it: no transaction stays open, and nothing that
     * could go out stays held unless a release pass of this turn had its fence broken.
     */
    method Turn(action: Action)
      requires Valid() && TopLevel(View())
      modifies this
      ensures Ran() && TopLevel(View())
      ensures Settled(old(View())) ==>
                Settled(View()) || (clearHookReenters && exists k: nat :: |old(trace)| <= k < |trace| && Strands(trace, k))
    {
      ghost var from := |trace|;
      ghost var before := trace;
      Perform(action);
      assert trace[..from] == before;
      if old(strandings) < strandings {
        ghost var k := WhereStranded(trace, from);
      }
    }
  }

  // ---------------------------------------------------------------------------
  // Timers that run embedder code
  // ---------------------------------------------------------------------------

  lemma Turns(s: State, reenters: bool, script: seq<Move>)
    ensures script != [] && script[0].Back? ==> Answered(s, reenters, script) == Some((s, script[1..]))
    ensures script != [] && script[0].Act? ==>
              var r := Reacted(s, reenters, script[0].action, script[1..]);
              Answered(s, reenters, script) == if r.None? then None else Answered(r.value.0, reenters, r.value.1)
  {
  }

  lemma ActsOn(s: State, action: Action, script: seq<Move>, t: State, rest: seq<Move>)
    requires Reacted(s, true, action, script) == Some((t, rest))
    ensures Answered(s, true, [Act(action)] + script) == Answered(t, true, rest)
  {
    Turns(s, true, [Act(action)] + script);
    assert ([Act(action)] + script)[1..] == script;
  }

  function Replacing(call: nat): seq<Move> {
    [Act(Withdraw(call)), Back, Back, Act(Send(Ordinary)), Back, Back]
  }

  lemma ReplacingIs(s: State, call: nat)
    requires s.held == [call]
    ensures Answered(s, true, Replacing(call)) == Some((OrdinarySent(s.(held := [])), []))
  {
    var t := s.(held := []);
    var rest := [Act(Send(Ordinary)), Back, Back];
    RemoveIs([call], call);
    assert Apply(s, Retract(call)) == t;
    Turns(s, true, Replacing(call));
    assert Replacing(call)[1..] == [Back] + ([Back] + rest);
    Turns(t, true, [Back] + ([Back] + rest));
    assert ([Back] + ([Back] + rest))[1..] == [Back] + rest;
    Turns(t, true, [Back] + rest);
    assert ([Back] + rest)[1..] == rest;
    Turns(t, true, rest);
    assert rest[1..] == [Back, Back];
    Turns(OrdinarySent(t), true, [Back, Back]);
    Turns(OrdinarySent(t), true, [Back]);
  }

  lemma ReplacementStrands(s: State)
    requires Inv(s) && CanRelease(s) && |s.held| == 1
    ensures var passing := Apply(s, EnterRelease);
            && Breaks(passing, Replacing(s.held[0]))
            && var t := PassLeft(Reached(passing, Replacing(s.held[0])).value.0);
               TopLevel(t) && !Settled(t) && t.held == [s.calls]
  {
    var owner := s.held[0];
    var reached := Apply(Apply(s, EnterRelease), ReachLast);
    assert (s.handed + s.held)[|s.handed|] == owner;
    assert s.held == [owner];
    ReplacingIs(reached, owner);
  }

  function Renewing(up: bool, stillWorking: bool): seq<Move> {
    [Act(RawState(up, stillWorking))] + ([Back] + ([Back] + [Act(SessionUp), Back, Back]))
  }

  lemma EdgeIs(s: State, up: bool, stillWorking: bool, rest: seq<Move>)
    requires !s.terminal
    ensures Reacted(s, true, RawState(up, stillWorking), [Back] + ([Back] + rest)) ==
              Some((EdgeFollowed(Apply(s, RawEdge), up, stillWorking), rest))
  {
    Turns(Apply(s, RawEdge), true, [Back] + ([Back] + rest));
    assert ([Back] + ([Back] + rest))[1..] == [Back] + rest;
    Turns(EdgeFollowed(Apply(s, RawEdge), up, stillWorking), true, [Back] + rest);
    assert ([Back] + rest)[1..] == rest;
  }

  lemma OpeningIs(s: State)
    requires !s.terminal && !s.closed && s.releaseDepth > 0
    ensures Answered(s, true, [Act(SessionUp), Back, Back]) == Some((Apply(s, SessionOpens), []))
  {
    var t := Apply(s, SessionOpens);
    Turns(t, true, [Back, Back]);
    ActsOn(s, SessionUp, [Back, Back], t, [Back]);
    assert [Act(SessionUp), Back, Back] == [Act(SessionUp)] + [Back, Back];
    Turns(t, true, [Back]);
  }

  lemma RenewingIs(s: State, up: bool, stillWorking: bool)
    requires !s.terminal && !s.closed && s.releaseDepth > 0
    ensures Answered(s, true, Renewing(up, stillWorking)) ==
              Some((Apply(EdgeFollowed(Apply(s, RawEdge), up, stillWorking), SessionOpens), []))
  {
    var rest := [Act(SessionUp), Back, Back];
    var t := EdgeFollowed(Apply(s, RawEdge), up, stillWorking);
    EdgeIs(s, up, stillWorking, rest);
    ActsOn(s, RawState(up, stillWorking), [Back] + ([Back] + rest), t, rest);
    OpeningIs(t);
  }

  lemma RenewalStrands(s: State, up: bool, stillWorking: bool)
    requires Inv(s) && CanRelease(s) && |s.held| == 1
    ensures var passing := Apply(s, EnterRelease);
            && Breaks(passing, Renewing(up, stillWorking))
            && var t := PassLeft(Reached(passing, Renewing(up, stillWorking)).value.0);
               TopLevel(t) && !Settled(t) && t.held == s.held
  {
    RenewingIs(Apply(Apply(s, EnterRelease), ReachLast), up, stillWorking);
  }

  /** The timer hook retracts the last owner and sends again: what it sent is stranded. */
  method StrandByReplacement(c: Client)
    requires c.Valid() && CanRelease(c.View()) && |c.held| == 1 && c.clearHookReenters
    requires c.script == Replacing(c.held[0])
    modifies c
    ensures c.Valid() && TopLevel(c.View()) && !Settled(c.View()) && c.held == [old(c.calls)]
  {
    ReplacementStrands(c.View());
    c.MaybeRelease();
  }

  /** The timer hook only replaces the session: the last owner itself is stranded. */
  method StrandByNewSession(c: Client, up: bool, stillWorking: bool)
    requires c.Valid() && CanRelease(c.View()) && |c.held| == 1 && c.clearHookReenters
    requires c.script == Renewing(up, stillWorking)
    modifies c
    ensures c.Valid() && TopLevel(c.View()) && !Settled(c.View()) && c.held == old(c.held)
  {
    RenewalStrands(c.View(), up, stillWorking);
    c.MaybeRelease();
  }
}
