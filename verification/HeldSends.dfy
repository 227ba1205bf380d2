/** The wrapper's hold: ordinary sends made while a turn runs wait, and are released in order. */
module HeldSends {
  import opened Options
  import opened Sequences

  /** The last owner of a release pass and the lifecycle it belongs to, kept across the clearing of its timer. */
  datatype Fence = Fence(owner: nat, generation: nat)

  /**
   * Sends are known by the number of their call. The last two fields are history: the fence of the running release
   * pass, and how many passes left a send held that nothing keeps waiting.
   */
  datatype State = State(
    held: seq<nat>,
    handed: seq<nat>,
    calls: nat,
    inFlight: bool,
    connected: bool,
    session: bool,
    terminal: bool,
    closed: bool,
    generation: nat,
    stopDepth: nat,
    releaseDepth: nat,
    fence: Option<Fence>,
    strandings: nat
  )

  const INITIAL := State([], [], 0, false, false, false, false, false, 0, 0, 0, None, 0)

  // ---------------------------------------------------------------------------
  // Gates
  // ---------------------------------------------------------------------------

  /** `shouldHold()`. */
  predicate ShouldHold(s: State) {
    if s.terminal || s.closed then false
    else if s.stopDepth > 0 || s.releaseDepth > 0 then true
    else s.inFlight || s.held != []
  }

  /** `heldSessionReady()`. */
  predicate Ready(s: State) {
    s.session && s.connected && !s.closed && !s.terminal
  }

  /** The guard of `maybeRelease()`. */
  predicate CanRelease(s: State) {
    s.stopDepth == 0 && s.releaseDepth == 0 && s.held != [] && !s.inFlight && s.connected && s.session
  }

  /** Nothing is stranded: what is held waits for a turn, a connection or a session. */
  predicate Settled(s: State) {
    s.held == [] || s.inFlight || !s.connected || !s.session
  }

  predicate TopLevel(s: State) {
    s.stopDepth == 0 && s.releaseDepth == 0
  }

  /** After the timer of its last owner was cleared, the pass goes on only with that owner, in the same lifecycle. */
  predicate FenceHolds(s: State) {
    && s.fence.Some? && s.generation == s.fence.value.generation && Ready(s)
    && s.held != [] && s.held[0] == s.fence.value.owner
  }

  // ---------------------------------------------------------------------------
  // Steps
  // ---------------------------------------------------------------------------

  datatype Step =
    | Hold
    | HandNew
    | HandFirst
    | Retract(call: nat)
    | StopHeld
    | CloseDown
    | Die
    | TurnMoves(inFlight: bool)
    | SessionOpens
    | RawEdge
    | Disconnects(inFlight: bool)
    | Reopen
    | EnterStop
    | LeaveStop
    | EnterRelease
    | ReachLast
    | LeaveRelease

  predicate Legal(s: State, step: Step) {
    match step
    case Hold => ShouldHold(s)
    case HandNew => !ShouldHold(s)
    case HandFirst => s.releaseDepth > 0 && s.held != [] && (s.fence.Some? || |s.held| == 1 ==> FenceHolds(s))
    case Retract(call) => call in s.held
    case StopHeld => s.stopDepth > 0
    case SessionOpens => !s.terminal && !s.closed
    case Reopen => !s.terminal
    case LeaveStop => s.stopDepth > 0
    case EnterRelease => CanRelease(s)
    case ReachLast => s.releaseDepth > 0 && |s.held| == 1 && s.fence.None?
    case LeaveRelease => s.releaseDepth > 0 && (s.held == [] || (s.fence.Some? && !FenceHolds(s)))
    case _ => true
  }

  function Apply(s: State, step: Step): State {
    match step
    case Hold => s.(held := s.held + [s.calls], calls := s.calls + 1)
    case HandNew => s.(handed := s.handed + [s.calls], calls := s.calls + 1)
    case HandFirst => if s.held == [] then s else s.(handed := s.handed + [s.held[0]], held := s.held[1..], fence := None)
    case Retract(call) => s.(held := Remove(s.held, call))
    case StopHeld => s.(held := [])
    case CloseDown => s.(held := [], closed := true, generation := s.generation + 1)
    case Die => s.(held := [], terminal := true, generation := s.generation + 1)
    case TurnMoves(inFlight) => s.(inFlight := inFlight)
    case SessionOpens => s.(session := true, connected := true)
    case RawEdge => s.(session := false, generation := s.generation + 1)
    case Disconnects(inFlight) => s.(connected := false, inFlight := inFlight)
    case Reopen => s.(closed := false)
    case EnterStop => s.(stopDepth := s.stopDepth + 1)
    case LeaveStop => s.(stopDepth := if s.stopDepth > 0 then s.stopDepth - 1 else 0)
    case EnterRelease => s.(releaseDepth := s.releaseDepth + 1)
    case ReachLast => if s.held == [] then s else s.(fence := Some(Fence(s.held[0], s.generation)))
    case LeaveRelease => PassLeft(s)
  }

  function PassLeft(s: State): State {
    var left := s.(releaseDepth := if s.releaseDepth > 0 then s.releaseDepth - 1 else 0, fence := None);
    if Settled(left) then left else left.(strandings := left.strandings + 1)
  }

  function Remove(ns: seq<nat>, n: nat): seq<nat> {
    if ns == [] then [] else (if ns[0] == n then [] else [ns[0]]) + Remove(ns[1..], n)
  }

  function Run(steps: seq<Step>): State {
    if steps == [] then INITIAL else Apply(Run(steps[..|steps| - 1]), steps[|steps| - 1])
  }

  predicate LegalRun(steps: seq<Step>) {
    steps == [] || (LegalRun(steps[..|steps| - 1]) && Legal(Run(steps[..|steps| - 1]), steps[|steps| - 1]))
  }

  lemma Extend(steps: seq<Step>, step: Step)
    requires LegalRun(steps) && Legal(Run(steps), step)
    ensures LegalRun(steps + [step]) && Run(steps + [step]) == Apply(Run(steps), step)
  {
    assert (steps + [step])[..|steps|] == steps;
  }

  // ---------------------------------------------------------------------------
  // The invariant
  // ---------------------------------------------------------------------------

  /** What was handed over and then what is held is in call order, of calls that were made. */
  ghost predicate InOrder(handed: seq<nat>, held: seq<nat>, calls: nat) {
    Ascending(handed + held) && forall i :: 0 <= i < |handed + held| ==> (handed + held)[i] < calls
  }

  ghost predicate Inv(s: State) {
    && InOrder(s.handed, s.held, s.calls)
    && (s.terminal || s.closed ==> s.held == [])
    && s.releaseDepth <= 1 && (s.fence.Some? ==> s.releaseDepth > 0)
  }

  lemma SnocInOrder(handed: seq<nat>, held: seq<nat>, calls: nat)
    requires InOrder(handed, held, calls)
    ensures InOrder(handed, held + [calls], calls + 1)
    ensures held == [] ==> InOrder(handed + [calls], held, calls + 1)
  {
    assert handed + (held + [calls]) == handed + held + [calls];
    if held == [] {
      assert handed + [calls] + held == handed + held + [calls];
    }
  }

  lemma ShiftInOrder(handed: seq<nat>, held: seq<nat>, calls: nat)
    requires InOrder(handed, held, calls) && held != []
    ensures InOrder(handed + [held[0]], held[1..], calls)
  {
    assert handed + [held[0]] + held[1..] == handed + held;
  }

  lemma EmptyInOrder(handed: seq<nat>, held: seq<nat>, calls: nat)
    requires InOrder(handed, held, calls)
    ensures InOrder(handed, [], calls)
  {
    assert handed + [] == handed;
    assert forall i :: 0 <= i < |handed| ==> handed[i] == (handed + held)[i];
  }

  lemma {:induction false} RemoveIs(ns: seq<nat>, n: nat)
    ensures forall m :: m in Remove(ns, n) <==> m in ns && m != n
    ensures |Remove(ns, n)| <= |ns|
  {
    if ns != [] {
      RemoveIs(ns[1..], n);
      assert ns == [ns[0]] + ns[1..];
    }
  }

  lemma {:induction false} RemoveInOrder(handed: seq<nat>, held: seq<nat>, calls: nat, n: nat)
    requires InOrder(handed, held, calls)
    ensures InOrder(handed, Remove(held, n), calls)
    decreases held
  {
    if held != [] {
      var longer, rest := handed + [held[0]], held[1..];
      ShiftInOrder(handed, held, calls);
      RemoveInOrder(longer, rest, calls, n);
      var r := Remove(rest, n);
      if held[0] == n {
        MiddleOut(handed, [held[0]], r, calls);
        assert [] + r == r;
      } else {
        assert handed + ([held[0]] + r) == longer + r;
      }
    }
  }

  lemma StepKeepsInv(s: State, step: Step)
    requires Inv(s) && Legal(s, step)
    ensures Inv(Apply(s, step))
  {
    match step
    case Hold => SnocInOrder(s.handed, s.held, s.calls);
    case HandNew => SnocInOrder(s.handed, s.held, s.calls);
    case HandFirst => ShiftInOrder(s.handed, s.held, s.calls);
    case Retract(call) =>
      RemoveInOrder(s.handed, s.held, s.calls, call);
      RemoveIs(s.held, call);
    case StopHeld => EmptyInOrder(s.handed, s.held, s.calls);
    case CloseDown => EmptyInOrder(s.handed, s.held, s.calls);
    case Die => EmptyInOrder(s.handed, s.held, s.calls);
    case _ =>
  }

  lemma {:induction false} RunKeepsInv(steps: seq<Step>)
    requires LegalRun(steps)
    ensures Inv(Run(steps))
  {
    if steps != [] {
      RunKeepsInv(steps[..|steps| - 1]);
      StepKeepsInv(Run(steps[..|steps| - 1]), steps[|steps| - 1]);
    }
  }

  // ---------------------------------------------------------------------------
  // What holds of every run
  // ---------------------------------------------------------------------------

  /** In every run the low-level client gets the sends in call order, each at most once. */
  lemma HandedInCallOrder(steps: seq<Step>)
    requires LegalRun(steps)
    ensures Ascending(Run(steps).handed)
    ensures forall n :: n in Run(steps).handed ==> n < Run(steps).calls && n !in Run(steps).held
  {
    RunKeepsInv(steps);
    var s := Run(steps);
    EmptyInOrder(s.handed, s.held, s.calls);
    assert s.handed + [] == s.handed;
    forall n | n in s.handed ensures n !in s.held {
      NotBoth(s, n);
    }
  }

  lemma NotBoth(s: State, n: nat)
    requires Inv(s) && n in s.handed
    ensures n !in s.held && n < s.calls
  {
    var all := s.handed + s.held;
    var i :| 0 <= i < |s.handed| && s.handed[i] == n;
    assert all[i] == n;
    forall j | 0 <= j < |s.held| ensures s.held[j] != n {
      assert all[|s.handed| + j] == s.held[j];
    }
  }

  lemma {:induction false} LegalAt(steps: seq<Step>, k: nat)
    requires LegalRun(steps) && k < |steps|
    ensures LegalRun(steps[..k]) && Legal(Run(steps[..k]), steps[k])
  {
    var init := steps[..|steps| - 1];
    if k < |init| {
      LegalAt(init, k);
      assert init[..k] == steps[..k];
    }
  }

  /** A send is made, held or handed over. */
  predicate IsCall(step: Step) {
    step.Hold? || step.HandNew?
  }

  /**
   * In every run a send waits exactly if the client is neither terminal nor closed and a turn is in flight, something is
   * held already, or a stop or a release is being committed; any other send is handed over at once.
   */
  lemma SentOrHeld(steps: seq<Step>, k: nat)
    requires LegalRun(steps) && k < |steps| && IsCall(steps[k])
    ensures var s, t := Run(steps[..k]), Run(steps[..k + 1]);
            var waits := !s.terminal && !s.closed && (s.inFlight || s.held != [] || s.stopDepth > 0 || s.releaseDepth > 0);
            && t.calls == s.calls + 1
            && (waits <==> t.held == s.held + [s.calls] && t.handed == s.handed)
            && (!waits <==> t.handed == s.handed + [s.calls] && t.held == s.held)
  {
    LegalAt(steps, k);
    assert steps[..k + 1][..k] == steps[..k];
    var s := Run(steps[..k]);
    assert |s.held + [s.calls]| != |s.held| && |s.handed + [s.calls]| != |s.handed|;
  }

  /** Held sends go out in passes only, and a pass begins only in a session that has no turn in flight. */
  lemma PassBeginsIdle(steps: seq<Step>, k: nat)
    requires LegalRun(steps) && k < |steps| && (steps[k].EnterRelease? || steps[k].HandFirst?)
    ensures var s := Run(steps[..k]);
            if steps[k].HandFirst? then s.releaseDepth > 0
            else !s.inFlight && s.connected && s.session && s.stopDepth == 0 && s.releaseDepth == 0
  {
    LegalAt(steps, k);
  }

  /** The last send of a pass goes out only in a session of the lifecycle in which its timer was cleared. */
  lemma LastGoesOutReady(steps: seq<Step>, k: nat)
    requires LegalRun(steps) && k < |steps| && steps[k].HandFirst? && |Run(steps[..k]).held| == 1
    ensures var s := Run(steps[..k]);
            && s.session && s.connected && !s.closed && !s.terminal && s.fence == Some(Fence(s.held[0], s.generation))
  {
    LegalAt(steps, k);
  }

  /** After either raw edge no pass begins until a new session opens. */
  lemma {:induction false} GateStaysClosed(steps: seq<Step>, k: nat, m: nat) returns (j: nat)
    requires LegalRun(steps) && k < m < |steps| && steps[k].RawEdge? && steps[m].EnterRelease?
    ensures k < j < m && steps[j].SessionOpens?
  {
    PassBeginsIdle(steps, m);
    j := WhoOpened(steps, k, m);
  }

  lemma OnlyOpens(s: State, step: Step)
    requires Apply(s, step).session && !step.SessionOpens?
    ensures s.session && !step.RawEdge?
  {
  }

  lemma {:induction false} WhoOpened(steps: seq<Step>, k: nat, m: nat) returns (j: nat)
    requires k < m <= |steps| && steps[k].RawEdge? && Run(steps[..m]).session
    ensures k < j < m && steps[j].SessionOpens?
    decreases m
  {
    assert steps[..m][..m - 1] == steps[..m - 1];
    if steps[m - 1].SessionOpens? {
      j := m - 1;
    } else {
      OnlyOpens(Run(steps[..m - 1]), steps[m - 1]);
      j := WhoOpened(steps, k, m - 1);
    }
  }

  /** The k-th step drops the held call n: it is retracted, or everything held is stopped, closed or failed. */
  predicate Drops(steps: seq<Step>, k: nat, n: nat)
    requires k < |steps|
  {
    && n in Run(steps[..k]).held
    && (steps[k] == Retract(n) || steps[k].StopHeld? || steps[k].CloseDown? || steps[k].Die?)
  }

  /** Neither handed over nor held: no step brings such a call back. */
  predicate Gone(s: State, n: nat) {
    n < s.calls && n !in s.held && n !in s.handed
  }

  lemma GoneStays(s: State, step: Step, n: nat)
    requires Gone(s, n)
    ensures Gone(Apply(s, step), n)
  {
    match step
    case Retract(call) => RemoveIs(s.held, call);
    case _ =>
  }

  lemma DropIsGone(s: State, step: Step, n: nat)
    requires Inv(s) && n in s.held && (step == Retract(n) || step.StopHeld? || step.CloseDown? || step.Die?)
    ensures Gone(Apply(s, step), n)
  {
    RemoveIs(s.held, n);
    if n in s.handed {
      NotBoth(s, n);
    }
    var j :| 0 <= j < |s.held| && s.held[j] == n;
    assert (s.handed + s.held)[|s.handed| + j] == n;
  }

  lemma AllDropped(s: State, step: Step)
    requires Inv(s) && (step.StopHeld? || step.CloseDown? || step.Die?)
    ensures forall n :: n in s.held ==> Gone(Apply(s, step), n)
  {
    forall n | n in s.held ensures Gone(Apply(s, step), n) {
      DropIsGone(s, step, n);
    }
  }

  lemma HeadMoves(held: seq<nat>, n: nat)
    ensures held != [] && n in held ==> n == held[0] || n in held[1..]
  {
  }

  /** The one step at which a call can stop being held or handed over. */
  lemma OnlyDropsLose(s: State, step: Step, n: nat)
    requires Inv(s) && Legal(s, step) && Gone(Apply(s, step), n) && !Gone(s, n)
    ensures n in s.held && (step == Retract(n) || step.StopHeld? || step.CloseDown? || step.Die?)
  {
    match step
    case HandFirst => HeadMoves(s.held, n);
    case Retract(call) => RemoveIs(s.held, call);
    case _ =>
  }

  lemma {:induction false} GoneWasDropped(steps: seq<Step>, n: nat) returns (k: nat)
    requires LegalRun(steps) && Gone(Run(steps), n)
    ensures k < |steps| && Drops(steps, k, n)
  {
    var init := steps[..|steps| - 1];
    RunKeepsInv(init);
    if Gone(Run(init), n) {
      k := GoneWasDropped(init, n);
      assert init[..k] == steps[..k];
    } else {
      OnlyDropsLose(Run(init), steps[|steps| - 1], n);
      k := |steps| - 1;
    }
  }

  lemma {:induction false} DroppedIsGone(steps: seq<Step>, k: nat, n: nat)
    requires LegalRun(steps) && k < |steps| && Drops(steps, k, n)
    ensures Gone(Run(steps), n)
  {
    var init, step := steps[..|steps| - 1], steps[|steps| - 1];
    if k < |init| {
      assert init[..k] == steps[..k];
      DroppedIsGone(init, k, n);
      GoneStays(Run(init), step, n);
    } else {
      RunKeepsInv(init);
      DropIsGone(Run(init), step, n);
    }
  }

  /**
   * In every run a call is skipped exactly if it is still held, or was held when it was retracted, or when
   * everything held was stopped, closed or failed.
   */
  lemma SkippedIsDroppedOrHeld(steps: seq<Step>, n: nat)
    requires LegalRun(steps) && n < Run(steps).calls
    ensures n !in Run(steps).handed <==> n in Run(steps).held || exists k: nat :: k < |steps| && Drops(steps, k, n)
  {
    RunKeepsInv(steps);
    if n in Run(steps).handed {
      NotBoth(Run(steps), n);
      if k: nat :| k < |steps| && Drops(steps, k, n) {
        DroppedIsGone(steps, k, n);
      }
    } else if n !in Run(steps).held {
      var k := GoneWasDropped(steps, n);
    }
  }

  // ---------------------------------------------------------------------------
  // Stranding
  // ---------------------------------------------------------------------------

  /** The k-th step ends a release pass although a send is held that nothing keeps waiting. */
  predicate Strands(steps: seq<Step>, k: nat)
    requires k < |steps|
  {
    steps[k] == LeaveRelease && !Settled(PassLeft(Run(steps[..k])))
  }

  /** While the timer of the pass's last owner was cleared, the owner or the lifecycle changed. */
  predicate FenceBroke(s: State) {
    s.held != [] && s.fence.Some? && (s.generation != s.fence.value.generation || s.held[0] != s.fence.value.owner)
  }

  lemma PassEnds(s: State)
    requires Inv(s) && Legal(s, LeaveRelease)
    ensures !Settled(PassLeft(s)) <==> FenceBroke(s) && !s.inFlight && s.connected && s.session
  {
  }

  /** A pass strands a send exactly if its fence broke and a send is held that could go out. */
  lemma PassStrands(steps: seq<Step>, k: nat)
    requires LegalRun(steps) && k < |steps| && steps[k] == LeaveRelease
    ensures Strands(steps, k) <==>
              var s := Run(steps[..k]); FenceBroke(s) && !s.inFlight && s.connected && s.session
  {
    LegalAt(steps, k);
    RunKeepsInv(steps[..k]);
    PassEnds(Run(steps[..k]));
  }

  /** Only the end of a pass that strands is counted. */
  lemma StrandingsGrow(s: State, step: Step)
    ensures Apply(s, step).strandings == s.strandings || (step == LeaveRelease && !Settled(PassLeft(s)))
  {
  }

  lemma {:induction false} WhereStranded(steps: seq<Step>, from: nat) returns (k: nat)
    requires from <= |steps| && Run(steps[..from]).strandings < Run(steps).strandings
    ensures from <= k < |steps| && Strands(steps, k)
  {
    assert steps[..|steps|] == steps;
    var init, step := steps[..|steps| - 1], steps[|steps| - 1];
    assert init[..from] == steps[..from];
    if Run(steps[..from]).strandings < Run(init).strandings {
      k := WhereStranded(init, from);
      assert init[..k] == steps[..k];
    } else {
      k := |init|;
      StrandingsGrow(Run(init), step);
    }
  }

  // ---------------------------------------------------------------------------
  // What a method keeps, whatever embedder code does at its callouts
  // ---------------------------------------------------------------------------

  /** Nothing handed over is taken back, nothing dropped returns, and quiet timers strand nothing. */
  ghost predicate Grew(quietTimers: bool, s: State, t: State) {
    && s.calls <= t.calls && s.handed <= t.handed
    && (s.terminal ==> t.terminal)
    && (forall n: nat :: Gone(s, n) ==> Gone(t, n))
    && s.strandings <= t.strandings && (quietTimers ==> s.strandings == t.strandings)
  }

  predicate SameDepths(s: State, t: State) {
    t.stopDepth == s.stopDepth && t.releaseDepth == s.releaseDepth
  }

  /** Outside any transaction, what is held keeps having something to wait for unless a pass strands it. */
  ghost predicate Kept(quietTimers: bool, s: State, t: State) {
    && Grew(quietTimers, s, t) && SameDepths(s, t) && (s.releaseDepth > 0 ==> t.fence == s.fence)
    && (TopLevel(s) && (Settled(s) || t.generation != s.generation) && t.strandings == s.strandings ==> Settled(t))
  }

  lemma GrewTrans(quietTimers: bool, s: State, t: State, u: State)
    requires Grew(quietTimers, s, t) && Grew(quietTimers, t, u)
    ensures Grew(quietTimers, s, u)
  {
  }

  lemma KeptTrans(quietTimers: bool, s: State, t: State, u: State)
    requires Kept(quietTimers, s, t) && Kept(quietTimers, t, u)
    ensures Kept(quietTimers, s, u)
  {
    GrewTrans(quietTimers, s, t, u);
  }

  // ---------------------------------------------------------------------------
  // Operations that nothing interrupts
  // ---------------------------------------------------------------------------

  /** A pass that may go hands over the whole hold, in order. */
  function Released(s: State): State {
    if CanRelease(s) then s.(handed := s.handed + s.held, held := []) else s
  }

  /** From s to t sends only went from the front of the hold to the low-level client. */
  predicate HandingOver(s: State, t: State) {
    t.handed + t.held == s.handed + s.held && t == s.(handed := t.handed, held := t.held)
  }

  lemma HandedMore(s: State, t: State)
    requires s.fence.None? && t.held != []
    ensures HandingOver(s, t) ==> HandingOver(s, Apply(t, HandFirst))
  {
    assert t.handed + [t.held[0]] + t.held[1..] == t.handed + t.held;
  }

  function OrdinarySent(s: State): State {
    Apply(s, if ShouldHold(s) then Hold else HandNew)
  }

  function CallRetracted(s: State, call: nat): State {
    if call in s.held then Apply(s, Retract(call)) else s
  }

  /** Whatever is held is dropped, and the turn is over for this client. */
  function StoppedAll(s: State): State {
    s.(held := [], inFlight := false)
  }

  function FrameReduced(s: State, turnStates: seq<bool>): State {
    if turnStates == [] then s else s.(inFlight := turnStates[|turnStates| - 1])
  }

  lemma FrameGoesOn(s: State, turnStates: seq<bool>, i: nat)
    requires i < |turnStates|
    ensures FrameReduced(s, turnStates[..i + 1]) == FrameReduced(s, turnStates[..i]).(inFlight := turnStates[i])
  {
  }

  function FrameHandled(s: State, turnStates: seq<bool>): State {
    Released(FrameReduced(s, turnStates))
  }

  function DraftsExpired(s: State, stillInFlight: bool): State {
    Released(Apply(s, TurnMoves(s.inFlight && stillInFlight)))
  }

  function SessionOpened(s: State): State {
    if s.terminal || s.closed then s else Released(Apply(s, SessionOpens))
  }

  function EdgeFollowed(s: State, up: bool, stillWorking: bool): State {
    Apply(s, Disconnects(s.inFlight && (up || stillWorking)))
  }

  /** A raw edge; a loss also ends what the turn was not still working on. */
  function StateMoved(s: State, up: bool, stillWorking: bool): State {
    if s.terminal then Apply(s, RawEdge) else EdgeFollowed(Apply(s, RawEdge), up, stillWorking)
  }

  function Reopened(s: State): State {
    if s.terminal then s else Apply(s, Reopen)
  }

  function DiedOff(s: State): State {
    Apply(Apply(s, Die), Disconnects(false))
  }

  /** Undisturbed, a raw edge takes client and session offline, and a loss ends the turn that nothing works on. */
  lemma EdgeGoesOffline(s: State, up: bool, stillWorking: bool)
    ensures var t := StateMoved(s, up, stillWorking);
            && !t.session && t.generation == s.generation + 1 && t.held == s.held && t.handed == s.handed
            && (!s.terminal ==> !t.connected && (!up && !stillWorking ==> !t.inFlight) && (up ==> t.inFlight == s.inFlight))
  {
  }

  /** Undisturbed, stop, close and terminal failure hand nothing over; a stop and a failure also end the turn. */
  lemma EndsHandNothingOver(s: State)
    ensures StoppedAll(s).held == [] && StoppedAll(s).handed == s.handed && !StoppedAll(s).inFlight
    ensures DiedOff(s).held == [] && DiedOff(s).handed == s.handed && !DiedOff(s).inFlight && DiedOff(s).terminal
    ensures var t := Apply(s, CloseDown); t.held == [] && t.handed == s.handed && t.closed && t.inFlight == s.inFlight
  {
  }

  /** Outside any stop and release, all of the hold went out in order. */
  predicate AllHanded(s: State, t: State) {
    t.held == [] && t.handed == s.handed + s.held
  }

  predicate NoneHanded(s: State, t: State) {
    t.held == s.held && t.handed == s.handed
  }

  /** Undisturbed, a new session of an open client hands over the whole hold, in order, exactly if no turn is in flight. */
  lemma NewSessionReleases(s: State)
    requires !s.terminal && !s.closed && TopLevel(s) && s.held != []
    ensures var t := SessionOpened(s);
            t.session && t.connected && if s.inFlight then NoneHanded(s, t) else AllHanded(s, t)
  {
  }

  /** In a session the frame that ends the turn hands over the whole hold, in order, and no other frame any of it. */
  lemma TurnEndReleases(s: State, turnStates: seq<bool>)
    requires TopLevel(s) && s.held != [] && turnStates != []
    ensures var t := FrameHandled(s, turnStates);
            if !turnStates[|turnStates| - 1] && s.session && s.connected then AllHanded(s, t) else NoneHanded(s, t)
  {
  }

  /** A closed client opens again, with nothing handed over; a terminal one does not. */
  lemma ReopenedIs(s: State)
    ensures var t := Reopened(s); NoneHanded(s, t) && (t.closed <==> s.terminal && s.closed) && t.session == s.session
  {
  }
}
