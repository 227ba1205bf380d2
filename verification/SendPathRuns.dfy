/** What holds of every run of the send path. */
module SendPathRuns {
  import opened Options
  import opened SendPath
  import opened SendPathInvariants

  // ---------------------------------------------------------------------------
  // A run only moves forward
  // ---------------------------------------------------------------------------

  /** Once tracked, an id is never forgotten or demoted, and once let go it is never owned again. */
  ghost predicate Later(s: State, t: State, id: nat) {
    id in s.tracker ==>
      && id in t.tracker
      && s.tracker[id].Rank() <= t.tracker[id].Rank()
      && (s.tracker[id].Failed? ==> t.tracker[id] == s.tracker[id])
      && (id !in Pending(s) ==> id !in Pending(t))
  }

  /** Call numbers are given once, upwards. */
  ghost predicate NumbersGrow(s: State, t: State) {
    && s.calls <= t.calls
    && (forall id :: id in s.born ==> id in t.born && t.born[id] == s.born[id])
    && (forall id :: id in t.born && id !in s.born ==> s.calls <= t.born[id])
  }

  ghost predicate Evolves(s: State, t: State) {
    && (forall id :: Later(s, t, id))
    && NumbersGrow(s, t)
    && s.wire <= t.wire
    && (s.terminal ==> t.terminal)
    && s.answers <= t.answers
  }

  lemma EvolvesTrans(s: State, t: State, u: State)
    requires Evolves(s, t) && Evolves(t, u)
    ensures Evolves(s, u)
  {
    forall id ensures Later(s, u, id) {
      assert Later(s, t, id) && Later(t, u, id);
    }
  }

  lemma {:induction false} WithoutIds(ledger: seq<Entry>, ids: seq<nat>, id: nat)
    requires id !in Ids(ledger)
    ensures id !in Ids(Without(ledger, ids))
  {
    if ledger != [] {
      var rest := Without(ledger[1..], ids);
      assert Ids(ledger) == [ledger[0].id] + Ids(ledger[1..]);
      WithoutIds(ledger[1..], ids, id);
      if ledger[0].id !in ids {
        assert Without(ledger, ids) == [ledger[0]] + rest;
        assert ([ledger[0]] + rest)[1..] == rest;
      } else {
        assert Without(ledger, ids) == rest;
      }
    }
  }

  predicate EndsInterval(step: Step) {
    step.Own? && (step.own.OwnedResult? || step.own.Disconnect? || step.own.Terminate?)
  }

  // Only a call makes the client own an id it did not own.

  lemma CallNothingReturns(s: State, step: CallStep, id: nat)
    requires LegalCall(s, step) && id in s.tracker && id !in Pending(s)
    ensures id !in Pending(ApplyCall(s, step))
  {
    match step
    case Issue(x, text) => IssuePending(s, x, text);
    case EnqueueOther(kind) =>
      UserIdsConcat(s.queue, [Other(kind)]);
      assert UserIds([Other(kind)]) == [] by { assert [Other(kind)][1..] == []; }
    case _ =>
  }

  lemma SealNothingReturns(s: State, step: SealStep, id: nat)
    requires Inv(s) && LegalSeal(s, step) && id in s.tracker && id !in Pending(s)
    ensures id !in Pending(ApplySeal(s, step))
  {
    match step
    case TakeUser => TakePending(s);
    case Schedule(at) => SameIds(s.ledger, ApplySeal(s, step).ledger);
    case Confirm => SameIds(s.ledger, ApplySeal(s, step).ledger);
    case Requeue =>
      RequeueShape(s);
      RequeuePending(s.ledger, s.queue, User(s.hand.id, s.hand.text));
    case _ =>
  }

  lemma OwnNothingReturns(s: State, step: OwnStep, id: nat)
    requires LegalOwn(s, step) && id in s.tracker && id !in Pending(s)
    ensures id !in Pending(ApplyOwn(s, step))
  {
    match step
    case OwnedResult(ids) => WithoutIds(s.ledger, ids, id);
    case Reschedule(_, _, _) => SameIds(s.ledger, ApplyOwn(s, step).ledger);
    case Flush => FlushPending(s);
    case _ =>
  }

  lemma StepIsLater(s: State, step: Step, id: nat)
    requires Inv(s) && Legal(s, step)
    ensures Later(s, Apply(s, step), id)
  {
    if id in s.tracker && id !in Pending(s) {
      match step
      case Call(call) => CallNothingReturns(s, call, id);
      case Seal(seal) => SealNothingReturns(s, seal, id);
      case Own(own) => OwnNothingReturns(s, own, id);
      case Session(event) => EventOnly(s, event);
    }
    if id in s.tracker {
      StepPromotes(s, step, id);
    }
  }

  /** What senders were told, and in which order they called. */
  function Told(s: State): (map<nat, SendState>, map<nat, nat>, nat) {
    (s.tracker, s.born, s.calls)
  }

  /** The stall interval: whether its recovery is spent, and since when. */
  function Interval(s: State): (bool, nat, nat) {
    (s.stallIssued, s.mutation, s.resultEpoch)
  }

  // What no step of a kind touches.

  lemma SealMovedOnly(s: State, step: SealStep)
    requires s.hand.Sealing?
    ensures var t := SealMoved(s, step);
            t == s.(ledger := t.ledger, queue := t.queue, wire := t.wire, hand := t.hand)
            && s.wire <= t.wire && (!step.Publish? ==> t.wire == s.wire)
  {
  }

  lemma RawMovedOnly(s: State, step: SealStep)
    requires s.hand.Raw?
    ensures var t := RawMoved(s, step); t == s.(ledger := t.ledger, hand := t.hand)
  {
  }

  /** Unless a drain starts or ends or a message is taken, a seal moves nothing else. */
  lemma SealOnly(s: State, step: SealStep)
    requires !step.StartDrain? && !step.EndDrain? && !step.TakeUser?
    ensures var t := ApplySeal(s, step);
            t == s.(ledger := t.ledger, queue := t.queue, wire := t.wire, hand := t.hand)
            && s.wire <= t.wire && (!step.Publish? && !step.TakeOther? ==> t.wire == s.wire)
  {
    if s.hand.Sealing? {
      SealMovedOnly(s, step);
    }
    if s.hand.Raw? {
      RawMovedOnly(s, step);
    }
  }

  lemma SealFrame(s: State, step: SealStep)
    ensures Told(ApplySeal(s, step)) == Told(s)
    ensures Interval(ApplySeal(s, step)) == Interval(s)
  {
    if !step.StartDrain? && !step.EndDrain? && !step.TakeUser? {
      SealOnly(s, step);
    }
  }

  lemma SealLogs(s: State, step: SealStep)
    ensures ApplySeal(s, step).terminal == s.terminal
    ensures s.wire <= ApplySeal(s, step).wire
  {
    if !step.StartDrain? && !step.EndDrain? && !step.TakeUser? {
      SealOnly(s, step);
    }
  }

  lemma SealIsSilent(s: State, step: SealStep)
    requires !step.Publish? && !step.TakeOther?
    ensures ApplySeal(s, step).wire == s.wire
  {
    if !step.StartDrain? && !step.EndDrain? && !step.TakeUser? {
      SealOnly(s, step);
    }
  }

  lemma OwnFrame(s: State, step: OwnStep)
    ensures Told(ApplyOwn(s, step)) == Told(s)
    ensures !EndsInterval(Own(step)) ==> Interval(ApplyOwn(s, step)) == Interval(s)
  {
  }

  lemma OwnLogs(s: State, step: OwnStep)
    ensures s.wire <= ApplyOwn(s, step).wire && (s.terminal ==> ApplyOwn(s, step).terminal)
  {
  }

  lemma CallFrame(s: State, step: CallStep)
    ensures Interval(ApplyCall(s, step)) == Interval(s)
    ensures ApplyCall(s, step).wire == s.wire && ApplyCall(s, step).terminal == s.terminal
  {
  }

  lemma EventFrame(s: State, event: SessionStep)
    ensures Told(ApplyEvent(s, event)) == Told(s)
    ensures ApplyEvent(s, event).wire == s.wire && ApplyEvent(s, event).terminal == s.terminal
  {
    EventOnly(s, event);
  }

  lemma CallPromotes(s: State, step: CallStep, id: nat)
    requires LegalCall(s, step) && id in s.tracker
    ensures var t := ApplyCall(s, step);
            && id in t.tracker && s.tracker[id].Rank() <= t.tracker[id].Rank()
            && (s.tracker[id].Failed? ==> t.tracker[id] == s.tracker[id])
  {
  }

  lemma StepPromotes(s: State, step: Step, id: nat)
    requires Legal(s, step) && id in s.tracker
    ensures var t := Apply(s, step);
            && id in t.tracker && s.tracker[id].Rank() <= t.tracker[id].Rank()
            && (s.tracker[id].Failed? ==> t.tracker[id] == s.tracker[id])
  {
    match step
    case Call(call) => CallPromotes(s, call, id);
    case Seal(seal) => SealFrame(s, seal);
    case Own(own) => OwnFrame(s, own);
    case Session(event) => EventFrame(s, event);
  }

  lemma CallNumbers(s: State, step: CallStep)
    requires Inv(s) && LegalCall(s, step)
    ensures NumbersGrow(s, ApplyCall(s, step))
  {
    assert Holds(s, Numbers);
  }

  lemma StepNumbers(s: State, step: Step)
    requires Inv(s) && Legal(s, step)
    ensures NumbersGrow(s, Apply(s, step))
  {
    match step
    case Call(call) => CallNumbers(s, call);
    case Seal(seal) => SealFrame(s, seal);
    case Own(own) => OwnFrame(s, own);
    case Session(event) => EventFrame(s, event);
  }

  lemma StepWire(s: State, step: Step)
    ensures s.wire <= Apply(s, step).wire && (s.terminal ==> Apply(s, step).terminal)
  {
    match step
    case Call(call) => CallFrame(s, call);
    case Seal(seal) => SealLogs(s, seal);
    case Own(own) => OwnLogs(s, own);
    case Session(event) => EventFrame(s, event);
  }

  lemma SealHearsNothing(s: State, step: SealStep)
    ensures ApplySeal(s, step).answers == s.answers
  {
    if !step.StartDrain? && !step.EndDrain? && !step.TakeUser? {
      SealOnly(s, step);
    }
  }

  lemma OwnHearsNothing(s: State, step: OwnStep)
    ensures ApplyOwn(s, step).answers == s.answers
  {
  }

  /** Only a result frame adds an answer. */
  lemma StepAnswers(s: State, step: Step)
    ensures if step.Call? && step.call.Answer? then Apply(s, step).answers == s.answers + Named(step.call.ids, step.call.accepted)
            else Apply(s, step).answers == s.answers
  {
    match step
    case Call(call) =>
    case Seal(seal) => SealHearsNothing(s, seal);
    case Own(own) => OwnHearsNothing(s, own);
    case Session(event) => EventOnly(s, event);
  }

  lemma StepEvolves(s: State, step: Step)
    requires Inv(s) && Legal(s, step)
    ensures Evolves(s, Apply(s, step))
  {
    StepNumbers(s, step);
    StepWire(s, step);
    StepAnswers(s, step);
    forall id ensures Later(s, Apply(s, step), id) {
      StepIsLater(s, step, id);
    }
  }

  lemma {:induction false} LegalPrefix(steps: seq<Step>, k: nat)
    requires LegalRun(steps) && k <= |steps|
    ensures LegalRun(steps[..k])
  {
    if k < |steps| {
      LegalPrefix(steps[..|steps| - 1], k);
      assert steps[..|steps| - 1][..k] == steps[..k];
    } else {
      assert steps[..k] == steps;
    }
  }

  lemma LegalAt(steps: seq<Step>, k: nat)
    requires LegalRun(steps) && k < |steps|
    ensures LegalRun(steps[..k]) && Inv(Run(steps[..k])) && Legal(Run(steps[..k]), steps[k])
    ensures Run(steps[..k + 1]) == Apply(Run(steps[..k]), steps[k])
  {
    LegalPrefix(steps, k);
    LegalPrefix(steps, k + 1);
    assert steps[..k + 1][..k] == steps[..k];
    RunKeepsInv(steps[..k]);
  }

  /** From any point of a run to any later one. */
  lemma {:induction false} RunEvolves(steps: seq<Step>, k: nat)
    requires LegalRun(steps) && k <= |steps|
    ensures Evolves(Run(steps[..k]), Run(steps))
    decreases |steps| - k
  {
    if k == |steps| {
      assert steps[..k] == steps;
    } else {
      LegalAt(steps, k);
      StepEvolves(Run(steps[..k]), steps[k]);
      RunEvolves(steps, k + 1);
      EvolvesTrans(Run(steps[..k]), Run(steps[..k + 1]), Run(steps));
    }
  }

  // ---------------------------------------------------------------------------
  // What the client owns
  // ---------------------------------------------------------------------------

  /** The ledger's ids, then the queue's, are in call order; so no id is owned twice. */
  lemma OwnedInCallOrder(steps: seq<Step>, i: nat, j: nat)
    requires LegalRun(steps) && i < j < |Pending(Run(steps))|
    ensures var s := Run(steps);
            && Pending(s)[i] in s.born && Pending(s)[j] in s.born
            && s.born[Pending(s)[i]] < s.born[Pending(s)[j]]
  {
    RunKeepsInv(steps);
    assert Holds(Run(steps), Order);
    AscendsOrder(Pending(Run(steps)), Run(steps).born, -1, i, j);
  }

  lemma LedgerIsBounded(steps: seq<Step>)
    requires LegalRun(steps)
    ensures |Run(steps).ledger| <= MAX_UNACKED
  {
    RunKeepsInv(steps);
    assert Holds(Run(steps), Serials);
  }

  /** Between two seals of a session that has replayed, every ledgered message is on the wire and reported. */
  lemma ReplayedMeansSent(steps: seq<Step>, i: nat)
    requires LegalRun(steps) && Replayed(Run(steps)) && Run(steps).hand.Idle? && i < |Run(steps).ledger|
    ensures var s := Run(steps);
            && s.ledger[i].ToMessage() in s.wire
            && s.ledger[i].id in s.tracker && s.tracker[s.ledger[i].id] != Queued
  {
    var s := Run(steps);
    RunKeepsInv(steps);
    assert Holds(s, Publication) && Holds(s, Reports);
    assert Reported(s.ledger[i], s.wire, s.tracker, s.hand);
  }

  /** A retired client owns nothing. */
  lemma RetiredOwnsNothing(steps: seq<Step>)
    requires LegalRun(steps) && !Live(Run(steps))
    ensures Pending(Run(steps)) == []
  {
    RunKeepsInv(steps);
    assert Holds(Run(steps), Retired);
  }

  // ---------------------------------------------------------------------------
  // One stall recovery per interval
  // ---------------------------------------------------------------------------

  predicate IsStallFire(step: Step) {
    step.Session? && step.event.StallFire?
  }

  lemma {:induction false} AllowanceSpent(steps: seq<Step>, i: nat, j: nat)
    requires LegalRun(steps) && i < j <= |steps| && IsStallFire(steps[i])
    requires forall k :: i < k < j ==> !EndsInterval(steps[k])
    ensures Run(steps[..j]).stallIssued && Run(steps[..j]).resultEpoch < Run(steps[..j]).mutation
    decreases j
  {
    LegalAt(steps, j - 1);
    if j == i + 1 {
      assert Holds(Run(steps[..i]), Clocks);
    } else {
      AllowanceSpent(steps, i, j - 1);
      StaysSpent(Run(steps[..j - 1]), steps[j - 1]);
    }
  }

  lemma EventStaysSpent(s: State, event: SessionStep)
    requires LegalEvent(s, event) && s.stallIssued && s.resultEpoch < s.mutation
    ensures ApplyEvent(s, event).stallIssued && ApplyEvent(s, event).resultEpoch < ApplyEvent(s, event).mutation
  {
  }

  lemma StaysSpent(s: State, step: Step)
    requires Legal(s, step) && !EndsInterval(step) && s.stallIssued && s.resultEpoch < s.mutation
    ensures Apply(s, step).stallIssued && Apply(s, step).resultEpoch < Apply(s, step).mutation
  {
    match step
    case Call(call) => CallFrame(s, call);
    case Seal(seal) => SealFrame(s, seal);
    case Own(own) => OwnFrame(s, own);
    case Session(event) => EventStaysSpent(s, event);
  }

  /** Between two recoveries by the stall timer the agent answered for an owned message, or the client was retired. */
  lemma OneRecoveryPerInterval(steps: seq<Step>, i: nat, j: nat)
    requires LegalRun(steps) && i < j < |steps| && IsStallFire(steps[i]) && IsStallFire(steps[j])
    ensures exists k :: i < k < j && EndsInterval(steps[k])
  {
    if forall k :: i < k < j ==> !EndsInterval(steps[k]) {
      AllowanceSpent(steps, i, j);
      LegalAt(steps, j);
    }
  }

  // ---------------------------------------------------------------------------
  // First publications
  // ---------------------------------------------------------------------------

  predicate IsPublish(step: Step) {
    step.Seal? && step.seal.Publish?
  }

  /** Position p of the wire is the first that carries its id. */
  predicate IsFirst(wire: seq<Message>, p: nat) {
    p < |wire| && wire[p].User? && forall q :: 0 <= q < p && wire[q].User? ==> wire[q].id != wire[p].id
  }

  predicate OnWire(wire: seq<Message>, id: nat) {
    exists q :: 0 <= q < |wire| && wire[q].User? && wire[q].id == id
  }

  /** First publication q overtook an earlier call's first publication p. */
  ghost predicate OutOfOrder(s: State, p: nat, q: nat) {
    && p < q && IsFirst(s.wire, p) && IsFirst(s.wire, q)
    && s.wire[p].id in s.born && s.wire[q].id in s.born
    && s.born[s.wire[q].id] < s.born[s.wire[p].id]
  }

  /**
   * Step k publishes for the first time while the ledger still holds message `id`, called earlier and never
   * published: the session key is installed but the ledger has not been replayed.
   */
  ghost predicate Overtakes(steps: seq<Step>, k: nat, id: nat) {
    && k < |steps| && IsPublish(steps[k])
    && var s := Run(steps[..k]);
       && s.hand.Sealing? && !s.flushed && !OnWire(s.wire, s.hand.id) && !OnWire(s.wire, id)
       && (exists i :: 0 <= i < |s.ledger| && s.ledger[i].id == id && !s.ledger[i].published)
       && id in s.born && s.hand.id in s.born && s.born[id] < s.born[s.hand.id]
  }

  /** A retry repeats what is on the wire already. */
  lemma RetryRepeats(s: State, serial: nat)
    requires Inv(s) && LegalOwn(s, Retry(serial))
    ensures forall m :: m in MessageOf(s.ledger, serial) ==> m in s.wire
  {
    assert Holds(s, Publication) && Holds(s, Reports);
    MessageOfEntry(s.ledger, serial);
    var j :| 0 <= j < |s.ledger| && s.ledger[j].serial == serial && MessageOf(s.ledger, serial) == [s.ledger[j].ToMessage()];
    assert Reported(s.ledger[j], s.wire, s.tracker, s.hand);
  }

  /** Only `Publish` puts a message on the wire that was not there. */
  lemma NewOnWire(s: State, step: Step, p: nat)
    requires Inv(s) && Legal(s, step) && |s.wire| <= p && IsFirst(Apply(s, step).wire, p)
    ensures IsPublish(step) && p == |s.wire|
  {
    match step
    case Call(call) => CallFrame(s, call);
    case Seal(seal) => SealAppends(s, seal, p);
    case Own(own) => RetryIsNotFirst(s, own, p);
    case Session(event) => EventFrame(s, event);
  }

  lemma SealAppends(s: State, step: SealStep, p: nat)
    requires LegalSeal(s, step) && |s.wire| <= p && IsFirst(ApplySeal(s, step).wire, p)
    ensures step.Publish? && p == |s.wire|
  {
    if !step.Publish? && !step.TakeOther? {
      SealIsSilent(s, step);
    }
  }

  lemma RetryIsNotFirst(s: State, step: OwnStep, p: nat)
    requires Inv(s) && LegalOwn(s, step) && |s.wire| <= p
    ensures !IsFirst(ApplyOwn(s, step).wire, p)
  {
    if step.Retry? {
      RetryRepeats(s, step.serial);
      MessageOfEntry(s.ledger, step.serial);
      var w := ApplyOwn(s, step).wire;
      if p < |w| {
        assert w[p] in s.wire;
        var q :| 0 <= q < |s.wire| && s.wire[q] == w[p];
        assert w[q] == w[p];
      }
    }
  }

  /** First publications are made by `Publish`. */
  lemma {:induction false} FirstIsPublished(steps: seq<Step>, p: nat)
    requires LegalRun(steps) && IsFirst(Run(steps).wire, p)
    ensures exists k :: 0 <= k < |steps| && PublishesAt(steps, k, p)
  {
    var n := |steps| - 1;
    LegalAt(steps, n);
    assert steps[..n + 1] == steps;
    var s := Run(steps[..n]);
    if p < |s.wire| {
      StepWire(s, steps[n]);
      FirstInPrefix(s.wire, Run(steps).wire, p);
      FirstIsPublished(steps[..n], p);
      var k :| 0 <= k < n && PublishesAt(steps[..n], k, p);
      assert steps[..n][..k] == steps[..k];
      assert PublishesAt(steps, k, p);
    } else {
      NewOnWire(s, steps[n], p);
      assert PublishesAt(steps, n, p);
    }
  }

  lemma FirstInPrefix(v: seq<Message>, w: seq<Message>, p: nat)
    requires v <= w && p < |v|
    ensures IsFirst(w, p) <==> IsFirst(v, p)
  {
    assert forall q :: 0 <= q < |v| ==> v[q] == w[q];
  }

  ghost predicate PublishesAt(steps: seq<Step>, k: nat, p: nat) {
    && k < |steps| && IsPublish(steps[k])
    && |Run(steps[..k]).wire| == p
  }

  lemma {:induction false} InIds(ids: seq<nat>, rest: seq<nat>, born: map<nat, nat>, x: nat, y: nat)
    requires Ascends(ids + rest, born, -1) && x in ids + rest && y in ids
    requires x in born && y in born && born[x] < born[y]
    ensures x in ids
  {
    var all := ids + rest;
    var i :| 0 <= i < |all| && all[i] == x;
    var j :| 0 <= j < |ids| && ids[j] == y;
    if i >= |ids| {
      AscendsOrder(all, born, -1, j, i);
    }
  }

  /** What the client still owns at the end of a run and had been asked for by then, it owned at every point. */
  lemma OwnedThroughout(s: State, t: State, x: nat)
    requires Inv(s) && Evolves(s, t) && x in Pending(t) && x in t.born && t.born[x] < s.calls
    ensures x in Pending(s) && x in s.born && s.born[x] == t.born[x]
  {
    assert Holds(s, Numbers);
    assert Later(s, t, x);
  }

  lemma HandOwned(s: State)
    requires Inv(s) && Fence(s)
    ensures s.hand.id in Ids(s.ledger) && s.hand.id in s.born && s.born[s.hand.id] < s.calls
  {
    assert Holds(s, Holding) && Holds(s, Numbers);
    var i :| 0 <= i < |s.ledger| && s.ledger[i].serial == s.hand.serial;
    assert Untouched(s.ledger[i], s.hand);
    IdsAt(s.ledger, i);
  }

  /** The state in which the overtaking publication was made. */
  lemma OvertakenInLedger(s: State, x: nat)
    requires Inv(s) && Fence(s) && x in Pending(s) && x in s.born && s.hand.id in s.born
    requires s.born[x] < s.born[s.hand.id] && !OnWire(s.wire, x)
    ensures !s.flushed && exists i :: 0 <= i < |s.ledger| && s.ledger[i].id == x && !s.ledger[i].published
  {
    HandOwned(s);
    assert Holds(s, Order) && Holds(s, Publication) && Holds(s, Reports) && Holds(s, Holding);
    InIds(Ids(s.ledger), UserIds(s.queue), s.born, x, s.hand.id);
    var i :| 0 <= i < |s.ledger| && Ids(s.ledger)[i] == x;
    IdsAt(s.ledger, i);
    assert Reported(s.ledger[i], s.wire, s.tracker, s.hand) ==> OnWire(s.wire, x);
    assert !InHand(s.hand, s.ledger[i].serial);
  }

  /**
   * The exact condition for call order on the wire: a first publication comes after a later call's exactly when
   * the later call's was made between the installation of the key and the replay, past the unpublished message.
   */
  lemma OutOfOrderIsOvertaking(steps: seq<Step>, p: nat, q: nat)
    requires LegalRun(steps) && OutOfOrder(Run(steps), p, q)
    ensures exists k :: PublishesAt(steps, k, p) && Overtakes(steps, k, Run(steps).wire[q].id)
  {
    FirstIsPublished(steps, p);
    FirstIsPublished(steps, q);
    var k :| 0 <= k < |steps| && PublishesAt(steps, k, p);
    var l :| 0 <= l < |steps| && PublishesAt(steps, l, q);
    WireGrows(steps, k, l);
    OvertakenAt(steps, k, l, p, q);
  }

  lemma OvertakenAt(steps: seq<Step>, k: nat, l: nat, p: nat, q: nat)
    requires LegalRun(steps) && OutOfOrder(Run(steps), p, q) && k < l
    requires PublishesAt(steps, k, p) && PublishesAt(steps, l, q)
    ensures Overtakes(steps, k, Run(steps).wire[q].id)
  {
    var s, t := Run(steps[..k]), Run(steps);
    StillOwned(steps, k, l, p, q);
    PublishedThen(steps, k, p);
    LegalAt(steps, k);
    HandOwned(s);
    NotYetOnWire(t.wire, s.wire, q);
    NotYetOnWire(t.wire, s.wire, p);
    OvertakenInLedger(s, t.wire[q].id);
  }

  /** When p was published, q's message was owned, with its call number. */
  lemma StillOwned(steps: seq<Step>, k: nat, l: nat, p: nat, q: nat)
    requires LegalRun(steps) && OutOfOrder(Run(steps), p, q) && k < l
    requires PublishesAt(steps, k, p) && PublishesAt(steps, l, q)
    ensures var s, x := Run(steps[..k]), Run(steps).wire[q].id;
            x in Pending(s) && x in s.born && s.hand.Sealing? && s.hand.id in s.born && s.born[x] < s.born[s.hand.id]
  {
    var x := Run(steps).wire[q].id;
    var s, u := Run(steps[..k]), Run(steps[..l]);
    PublishedThen(steps, k, p);
    PublishedThen(steps, l, q);
    LegalAt(steps, k);
    LegalAt(steps, l);
    HandOwned(s);
    HandOwned(u);
    BornAlike(steps, k);
    BornAlike(steps, l);
    assert steps[..l][..k] == steps[..k];
    RunEvolves(steps[..l], k);
    OwnedThroughout(s, u, x);
  }

  lemma PublishedThen(steps: seq<Step>, k: nat, p: nat)
    requires LegalRun(steps) && PublishesAt(steps, k, p)
    ensures var s := Run(steps[..k]);
            p < |Run(steps).wire| && s.hand.Sealing? && Run(steps).wire[p] == User(s.hand.id, s.hand.text)
    ensures Run(steps[..k]).wire <= Run(steps).wire
  {
    var s, t := Run(steps[..k]), Run(steps[..k + 1]);
    LegalAt(steps, k);
    PublishAppends(s);
    RunEvolves(steps, k + 1);
    assert t.wire[p] == User(s.hand.id, s.hand.text);
  }

  lemma PublishAppends(s: State)
    requires LegalSeal(s, Publish)
    ensures s.hand.Sealing? && ApplySeal(s, Publish).wire == s.wire + [User(s.hand.id, s.hand.text)]
  {
  }

  lemma WireGrows(steps: seq<Step>, k: nat, l: nat)
    requires LegalRun(steps) && k < |steps| && l < |steps| && |Run(steps[..k]).wire| < |Run(steps[..l]).wire|
    ensures k < l
  {
    if l <= k {
      LegalPrefix(steps, k);
      assert steps[..k][..l] == steps[..l];
      RunEvolves(steps[..k], l);
    }
  }

  lemma BornAlike(steps: seq<Step>, k: nat)
    requires LegalRun(steps) && k <= |steps|
    ensures NumbersGrow(Run(steps[..k]), Run(steps))
  {
    RunEvolves(steps, k);
  }

  lemma NotYetOnWire(w: seq<Message>, v: seq<Message>, p: nat)
    requires v <= w && |v| <= p && IsFirst(w, p)
    ensures !OnWire(v, w[p].id)
  {
    assert forall q :: 0 <= q < |v| ==> v[q] == w[q];
  }

  lemma SeenBefore(v: seq<Message>, w: seq<Message>, q: nat)
    requires v <= w && q < |w| && w[q].User?
    ensures q < |v| ==> OnWire(v, w[q].id)
  {
    assert q < |v| ==> v[q] == w[q];
  }

  /** The other direction: what was overtaken and is published later is published out of order. */
  lemma OvertakingIsOutOfOrder(steps: seq<Step>, k: nat, p: nat, q: nat)
    requires LegalRun(steps) && PublishesAt(steps, k, p) && IsFirst(Run(steps).wire, q)
    requires Overtakes(steps, k, Run(steps).wire[q].id)
    ensures OutOfOrder(Run(steps), p, q)
  {
    PublishedThen(steps, k, p);
    BornAlike(steps, k);
    var v, w := Run(steps[..k]).wire, Run(steps).wire;
    SeenBefore(v, w, q);
    FirstAfter(v, w, p);
    assert q != p;
  }

  lemma FirstAfter(v: seq<Message>, w: seq<Message>, p: nat)
    requires v <= w && |v| == p < |w| && w[p].User? && !OnWire(v, w[p].id)
    ensures IsFirst(w, p)
  {
    assert forall q :: 0 <= q < |v| ==> v[q] == w[q];
  }

  /** When no message is published before the session has replayed its ledger, first publications follow call order. */
  lemma FirstPublicationsInCallOrder(steps: seq<Step>, p: nat, q: nat)
    requires LegalRun(steps)
    requires forall k :: 0 <= k < |steps| && IsPublish(steps[k]) ==> Run(steps[..k]).flushed
    requires p < q && IsFirst(Run(steps).wire, p) && IsFirst(Run(steps).wire, q)
    ensures var s := Run(steps);
            && s.wire[p].id in s.born && s.wire[q].id in s.born
            && s.born[s.wire[p].id] < s.born[s.wire[q].id]
  {
    var s := Run(steps);
    RunKeepsInv(steps);
    assert Holds(s, Wire);
    if s.born[s.wire[q].id] < s.born[s.wire[p].id] {
      OutOfOrderIsOvertaking(steps, p, q);
    } else if s.born[s.wire[q].id] == s.born[s.wire[p].id] {
      DifferentNumbers(steps, s.wire[p].id, s.wire[q].id);
    }
  }

  lemma {:induction false} DifferentNumbers(steps: seq<Step>, x: nat, y: nat)
    requires LegalRun(steps) && x in Run(steps).born && y in Run(steps).born && x != y
    ensures Run(steps).born[x] != Run(steps).born[y]
  {
    var n := |steps| - 1;
    LegalAt(steps, n);
    assert steps[..n + 1] == steps;
    var s := Run(steps[..n]);
    assert Holds(s, Numbers);
    StepBorn(s, steps[n]);
    if x in s.born && y in s.born {
      DifferentNumbers(steps[..n], x, y);
    }
  }

  lemma StepBorn(s: State, step: Step)
    ensures Apply(s, step).born == s.born || (step.Call? && step.call.Issue? && Apply(s, step).born == s.born[step.call.id := s.calls])
  {
    match step
    case Call(call) => CallBorn(s, call);
    case Seal(seal) => SealFrame(s, seal);
    case Own(own) => OwnFrame(s, own);
    case Session(event) => EventFrame(s, event);
  }

  lemma CallBorn(s: State, call: CallStep)
    ensures ApplyCall(s, call).born == if call.Issue? then s.born[call.id := s.calls] else s.born
  {
  }

  // ---------------------------------------------------------------------------
  // The window between the key and the replay
  // ---------------------------------------------------------------------------

  lemma Next(steps: seq<Step>, step: Step) returns (more: seq<Step>)
    requires LegalRun(steps) && Legal(Run(steps), step)
    ensures LegalRun(more) && Run(more) == Apply(Run(steps), step)
  {
    Extend(steps, step);
    more := steps + [step];
  }

  /** Message 1 was recorded, then its session was lost before the transport took it. */
  function LostBeforePublishing(): State {
    INITIAL.(ledger := [Entry(1, "a", 0, 0, None, false)], tracker := map[1 := Queued],
             born := map[1 := 0], calls := 1, nextSerial := 1, nextKey := 1, flushed := true, epoch := 1)
  }

  lemma BeingSealed() returns (steps: seq<Step>)
    ensures LegalRun(steps)
    ensures Run(steps) == LostBeforePublishing().(key := Some(0), epoch := 0, draining := true,
                                                  hand := Sealing(1, "a", 0, 0, 0, 0, None))
  {
    steps := [];
    steps := Next(steps, Call(Reserve(1)));
    steps := Next(steps, Call(Issue(1, "a")));
    steps := Next(steps, Session(InstallKey));
    steps := Next(steps, Own(Flush));
    steps := Next(steps, Seal(StartDrain));
    steps := Next(steps, Seal(TakeUser));
  }

  lemma Lost() returns (steps: seq<Step>)
    ensures LegalRun(steps) && Run(steps) == LostBeforePublishing()
  {
    steps := BeingSealed();
    steps := Next(steps, Session(BumpEpoch));
    steps := Next(steps, Session(DropKey));
    steps := Next(steps, Seal(Abandon));
    steps := Next(steps, Seal(EndDrain));
  }

  /** The key is back. Before the replay, a listener sends message 2 and it is taken. */
  function TakenInTheWindow(): State {
    LostBeforePublishing().(
      ledger := [Entry(1, "a", 0, 0, None, false), Entry(2, "b", 1, 0, None, false)],
      tracker := map[1 := Queued, 2 := Queued], born := map[1 := 0, 2 := 1], calls := 2, nextSerial := 2,
      key := Some(1), nextKey := 2, flushed := false, draining := true, hand := Sealing(2, "b", 1, 1, 1, 0, None))
  }

  lemma Taken() returns (steps: seq<Step>)
    ensures LegalRun(steps) && Run(steps) == TakenInTheWindow()
  {
    steps := Lost();
    steps := Next(steps, Session(InstallKey));
    steps := Next(steps, Call(Reserve(2)));
    steps := Next(steps, Call(Issue(2, "b")));
    steps := Next(steps, Seal(StartDrain));
    steps := Next(steps, Seal(TakeUser));
  }

  function PublishedInTheWindow(): State {
    TakenInTheWindow().(
      ledger := [Entry(1, "a", 0, 0, None, false), Entry(2, "b", 1, 0, Some(0), true)],
      tracker := map[1 := Queued, 2 := Sent], wire := [User(2, "b")], draining := false, hand := Idle)
  }

  lemma Published() returns (steps: seq<Step>)
    ensures LegalRun(steps) && Run(steps) == PublishedInTheWindow()
  {
    steps := OnTheWire();
    assert Run(steps).ledger[1].serial == 1;
    steps := Next(steps, Seal(Confirm));
    assert Run(steps).ledger == PublishedInTheWindow().ledger;
    steps := Next(steps, Call(Advance(2, Sent)));
    steps := Next(steps, Seal(Finish));
    steps := Next(steps, Seal(EndDrain));
  }

  lemma OnTheWire() returns (steps: seq<Step>)
    ensures LegalRun(steps)
    ensures Run(steps) == TakenInTheWindow().(
              ledger := [Entry(1, "a", 0, 0, None, false), Entry(2, "b", 1, 0, Some(0), false)],
              wire := [User(2, "b")], hand := Raw(2, 1, 1, 1, false))
  {
    steps := Taken();
    assert Run(steps).ledger[1].serial == 1;
    steps := Next(steps, Seal(Schedule(0)));
    assert Run(steps).ledger[1].serial == 1;
    steps := Next(steps, Seal(Publish));
  }

  lemma Replaying() returns (steps: seq<Step>)
    ensures LegalRun(steps)
    ensures Run(steps) == PublishedInTheWindow().(
              ledger := [Entry(1, "a", 2, 0, None, false)], queue := [User(2, "b")], nextSerial := 3, flushed := true,
              draining := true, hand := Sealing(1, "a", 2, 1, 1, 0, None))
  {
    steps := Published();
    steps := Next(steps, Own(Flush));
    steps := Next(steps, Seal(StartDrain));
    steps := Next(steps, Seal(TakeUser));
  }

  lemma Reversed() returns (steps: seq<Step>)
    ensures LegalRun(steps) && Run(steps).wire == [User(2, "b"), User(1, "a")] && Run(steps).born == map[1 := 0, 2 := 1]
  {
    steps := Replaying();
    assert Run(steps).ledger[0].serial == 2;
    steps := Next(steps, Seal(Schedule(0)));
    assert Run(steps).ledger[0].serial == 2;
    steps := Next(steps, Seal(Publish));
  }

  /** The replay publishes message 1 for the first time, after message 2: call order is not kept in the window. */
  lemma WindowBreaksCallOrder() returns (steps: seq<Step>)
    ensures LegalRun(steps) && OutOfOrder(Run(steps), 0, 1)
  {
    steps := Reversed();
  }
}
