/** What a method of the client keeps, whatever embedder code does at its callouts. */
module SendPathEffects {
  import opened Options
  import opened SendPath
  import opened SendPathInvariants
  import opened SendPathRuns

  datatype Effect = OnSession | OnOwnership | OnClocks | OnHand | OnQueue

  ghost predicate Preserves(s: State, t: State, effect: Effect) {
    match effect
    // A session is kept or lost, never replaced.
    case OnSession =>
      && (t.key.None? || (t.key == s.key && t.epoch == s.epoch && (t.disconnected ==> s.disconnected)))
      && t.flushed == s.flushed
    // No sender is left behind.
    case OnOwnership => Unsettled(t) <= Unsettled(s)
    case OnClocks => s.mutation <= t.mutation && (t.mutation == s.mutation ==> t.resultEpoch == s.resultEpoch)
    // A message being sealed is left to the frame that seals it.
    case OnHand =>
      && t.draining == s.draining && t.hand == s.hand
      && s.nextSerial <= t.nextSerial && (s.draining ==> t.nextSerial == s.nextSerial)
    // Outside a drain nothing is left waiting in a session.
    case OnQueue => s.draining || t.key.None? || t.queue == [] || (t.queue == s.queue && t.terminal == s.terminal)
  }

  ghost predicate Kept(s: State, t: State) {
    (forall effect :: Preserves(s, t, effect)) && (s.terminal ==> t.terminal)
  }

  lemma KeptTrans(s: State, t: State, u: State)
    requires Kept(s, t) && Kept(t, u)
    ensures Kept(s, u)
  {
    forall effect ensures Preserves(s, u, effect) {
      assert Preserves(s, t, effect) && Preserves(t, u, effect) && Preserves(s, t, OnSession) && Preserves(t, u, OnSession);
      assert Preserves(s, t, OnHand);
    }
  }

  /** A client whose clocks alone moved, forward. */
  lemma ClocksKept(s: State, t: State)
    requires t == s.(mutation := t.mutation, stallSince := t.stallSince, stallIssued := t.stallIssued, timer := t.timer,
                     generation := t.generation)
    requires s.mutation <= t.mutation
    ensures Kept(s, t)
  {
    assert Pending(t) == Pending(s);
    assert Unsettled(t) == Unsettled(s);
    forall effect ensures Preserves(s, t, effect) {
    }
  }

  lemma LifecycleKept(s: State, event: SessionStep)
    requires LegalEvent(s, event) && (event.Connect? || event.DropKey?)
    ensures Kept(s, ApplyEvent(s, event))
  {
    var t := ApplyEvent(s, event);
    assert Pending(t) == Pending(s);
    assert Unsettled(t) == Unsettled(s);
    forall effect ensures Preserves(s, t, effect) {
    }
  }

  /** Steps that neither own nor release anything, and keep or drop the session. */
  lemma EventKept(s: State, event: SessionStep)
    requires LegalEvent(s, event) && !event.InstallKey? && !event.BumpEpoch?
    ensures Kept(s, ApplyEvent(s, event))
  {
    if event.Connect? || event.DropKey? {
      LifecycleKept(s, event);
    } else if MovesInterval(event) {
      IntervalMovedOnly(s, event);
      ClocksKept(s, IntervalMoved(s, event));
    } else {
      TimerMovedOnly(s, event);
      ClocksKept(s, TimerMoved(s, event));
    }
  }

  /** Losing the connection: the epoch moves, then the key goes. */
  lemma LossKept(s: State, t: State, u: State)
    requires t == ApplyEvent(s, BumpEpoch) && Kept(t, u) && u.key.None?
    ensures Kept(s, u)
  {
    assert Pending(t) == Pending(s);
    assert Unsettled(t) == Unsettled(s);
    forall effect ensures Preserves(s, u, effect) {
      assert Preserves(t, u, effect);
    }
  }

  /** Hearing a result frame's answer changes nothing that a method has to keep. */
  lemma AnswerKept(s: State, ids: seq<nat>, accepted: bool, u: State)
    requires Kept(ApplyCall(s, Answer(ids, accepted)), u)
    ensures Kept(s, u)
  {
    var t := ApplyCall(s, Answer(ids, accepted));
    forall effect ensures Preserves(s, u, effect) {
      assert Preserves(t, u, effect) && Pending(t) == Pending(s);
    }
  }

  lemma ReportKept(s: State, step: CallStep)
    requires LegalCall(s, step) && (step.Advance? || step.Fail? || step.Reserve?)
    ensures Kept(s, ApplyCall(s, step))
  {
    var t := ApplyCall(s, step);
    assert Pending(t) == Pending(s);
    forall effect ensures Preserves(s, t, effect) {
    }
  }

  lemma KeptRefl(s: State)
    ensures Kept(s, s)
  {
    forall effect ensures Preserves(s, s, effect) {
    }
  }

  /** What the frame that seals a message keeps: everything but the message it is sealing, and the queue. */
  ghost predicate Carried(s: State, t: State) {
    && s.nextSerial <= t.nextSerial
    && Preserves(s, t, OnSession) && Preserves(s, t, OnOwnership) && Preserves(s, t, OnClocks)
    && t.draining == s.draining && (s.terminal ==> t.terminal)
  }

  lemma KeptIsCarried(s: State, t: State)
    requires Kept(s, t)
    ensures Carried(s, t)
  {
    assert Preserves(s, t, OnSession) && Preserves(s, t, OnOwnership) && Preserves(s, t, OnClocks) && Preserves(s, t, OnHand);
  }

  lemma CarriedTrans(s: State, t: State, u: State)
    requires Carried(s, t) && Carried(t, u)
    ensures Carried(s, u)
  {
  }

  lemma SealCarried(s: State, step: SealStep)
    requires Inv(s) && LegalSeal(s, step) && !step.TakeUser? && !step.StartDrain? && !step.EndDrain?
    ensures Carried(s, ApplySeal(s, step))
    ensures Unsettled(ApplySeal(s, step)) == Unsettled(s)
  {
    var t := ApplySeal(s, step);
    SamePending(s, step);
    SealOnly(s, step);
  }

  lemma HandOnly(s: State, step: SealStep)
    requires step.Abandon? || step.Forgo? || step.Finish?
    ensures ApplySeal(s, step) == s.(hand := ApplySeal(s, step).hand)
  {
    match step
    case Abandon =>
    case Forgo =>
    case Finish =>
  }

  lemma SamePending(s: State, step: SealStep)
    requires Inv(s) && LegalSeal(s, step) && !step.TakeUser?
    ensures Pending(ApplySeal(s, step)) == Pending(s)
  {
    match step
    case Schedule(at) => SameIds(s.ledger, ApplySeal(s, step).ledger);
    case Confirm => SameIds(s.ledger, ApplySeal(s, step).ledger);
    case Requeue =>
      RequeueShape(s);
      RequeuePending(s.ledger, s.queue, User(s.hand.id, s.hand.text));
    case _ =>
  }

  // ---------------------------------------------------------------------------
  // Ids the client let go
  // ---------------------------------------------------------------------------

  ghost predicate Detached(s: State, ids: seq<nat>) {
    forall id :: id in ids ==> id in s.tracker && id !in Pending(s)
  }

  /** Their senders were told the end of it. */
  ghost predicate Ended(s: State, ids: seq<nat>) {
    forall id :: id in ids && id in s.tracker ==> s.tracker[id].Rank() >= 2
  }

  lemma StaysDetached(s: State, t: State, ids: seq<nat>)
    requires Detached(s, ids) && Evolves(s, t)
    ensures Detached(t, ids)
  {
    forall id | id in ids ensures id in t.tracker && id !in Pending(t) {
      assert Later(s, t, id);
    }
  }

  /** The senders of the ids known in s were told the end of it by u. */
  ghost predicate KnownEnded(s: State, u: State, ids: seq<nat>) {
    forall id :: id in ids && id in s.tracker ==> id in u.tracker && u.tracker[id].Rank() >= 2
  }

  lemma KnownEndedLater(s: State, t: State, u: State, ids: seq<nat>)
    requires KnownEnded(s, t, ids) && Evolves(t, u)
    ensures KnownEnded(s, u, ids)
  {
    forall x | x in ids && x in s.tracker ensures x in u.tracker && u.tracker[x].Rank() >= 2 {
      assert Later(t, u, x);
    }
  }

  /** One more detached sender was told the end of it. */
  lemma EndedNext(s: State, t: State, u: State, ids: seq<nat>, i: nat)
    requires i < |ids| && Kept(s, t) && Kept(t, u) && Evolves(t, u)
    requires Detached(t, ids) && Ended(t, ids[..i])
    requires ids[i] in u.tracker ==> u.tracker[ids[i]].Rank() >= 2
    ensures Kept(s, u) && Detached(u, ids) && Ended(u, ids[..i + 1])
  {
    KeptTrans(s, t, u);
    StaysDetached(t, u, ids);
    assert forall x :: x in ids[..i] ==> x in ids;
    StaysEnded(t, u, ids[..i], ids[i]);
    assert ids[..i + 1] == ids[..i] + [ids[i]];
  }

  lemma KnownEndedNext(s: State, t: State, u: State, ids: seq<nat>, i: nat)
    requires i < |ids| && KnownEnded(s, t, ids[..i]) && Evolves(t, u)
    requires forall id :: id in s.tracker ==> id in t.tracker
    requires ids[i] in t.tracker ==> ids[i] in u.tracker && u.tracker[ids[i]].Rank() >= 2
    ensures KnownEnded(s, u, ids[..i + 1])
    ensures forall id :: id in s.tracker ==> id in u.tracker
  {
    KnownEndedLater(s, t, u, ids[..i]);
    assert ids[..i + 1] == ids[..i] + [ids[i]];
    assert forall id :: id in t.tracker ==> Later(t, u, id);
  }

  lemma StaysEndedAll(s: State, t: State, ids: seq<nat>)
    requires Ended(s, ids) && Evolves(s, t) && forall x :: x in ids ==> x in s.tracker || x !in t.tracker
    ensures Ended(t, ids)
  {
    forall x | x in ids && x in t.tracker ensures t.tracker[x].Rank() >= 2 {
      assert Later(s, t, x);
    }
  }

  lemma StaysEnded(s: State, t: State, ids: seq<nat>, id: nat)
    requires Ended(s, ids) && Evolves(s, t)
    requires id in t.tracker ==> t.tracker[id].Rank() >= 2
    requires forall x :: x in ids ==> x in s.tracker || x !in t.tracker
    ensures Ended(t, ids + [id])
  {
    StaysEndedAll(s, t, ids);
  }

  // ---------------------------------------------------------------------------
  // Sealing
  // ---------------------------------------------------------------------------

  /** The ids evicted by recording the head of the queue. */
  function Evictions(s: State): seq<nat>
    requires CanTake(s)
  {
    var recorded := Recorded(s.ledger, s.queue[0], s.nextSerial);
    Ids(recorded[..Overflow(recorded)])
  }

  /** Taking the head lets go of the evicted ids, which are owned nowhere else. */
  lemma TakeDetaches(s: State)
    requires Inv(s) && CanTake(s)
    ensures Detached(Take(s), Evictions(s))
    ensures forall id :: id in Unsettled(Take(s)) ==> id in Unsettled(s) || id in Evictions(s)
  {
    TakePending(s);
    assert Holds(s, Order) && Holds(s, Numbers);
    var gone, kept := Evictions(s), Pending(Take(s));
    assert Pending(s) == gone + kept;
    forall id | id in gone ensures id in s.tracker && id !in kept {
      var i :| 0 <= i < |gone| && gone[i] == id;
      AscendsMember(Pending(s), s.born, -1, i);
      NotTwice(gone, kept, s.born, i);
    }
  }

  lemma NotTwice(a: seq<nat>, b: seq<nat>, born: map<nat, nat>, i: nat)
    requires Ascends(a + b, born, -1) && i < |a|
    ensures a[i] !in b
  {
    if a[i] in b {
      var j :| 0 <= j < |b| && b[j] == a[i];
      AscendsOrder(a + b, born, -1, i, |a| + j);
    }
  }

  /** A whole seal: taken, carried on, and the evicted senders told. */
  lemma SealSettles(s: State, t: State, u: State)
    requires Inv(s) && CanTake(s) && t == Take(s) && Carried(t, u) && Ended(u, Evictions(s))
    ensures Carried(s, u)
  {
    TakeDetaches(s);
    TakeCarries(s);
    forall id | id in Unsettled(u) ensures id in Unsettled(s) {
      assert id in Unsettled(t);
    }
  }

  lemma TakeCarries(s: State)
    requires CanTake(s)
    ensures var t := Take(s);
            t.key == s.key && t.epoch == s.epoch && t.flushed == s.flushed && t.mutation == s.mutation
            && t.resultEpoch == s.resultEpoch && t.draining == s.draining && t.terminal == s.terminal
            && t.disconnected == s.disconnected && s.nextSerial <= t.nextSerial
  {
  }

  /** A message is being sealed, and its session is still the session, or gone. */
  ghost predicate Under(s: State) {
    && s.draining && !s.hand.Idle?
    && (s.key.None? || (s.key == Some(s.hand.key) && s.epoch == s.hand.epoch))
  }

  lemma TakeIsUnder(s: State)
    requires Inv(s) && LegalSeal(s, TakeUser)
    ensures Under(Take(s)) && Fence(Take(s)) && Inv(Take(s))
  {
    var recorded := Recorded(s.ledger, s.queue[0], s.nextSerial);
    var t := Take(s);
    assert t.ledger[|t.ledger| - 1] == recorded[|recorded| - 1];
    SealKeeps(s, TakeUser);
    OwnerIsLive(t);
  }

  lemma StaysUnder(s: State, t: State)
    requires Under(s) && Kept(s, t)
    ensures Under(t) && t.hand == s.hand
  {
    assert Preserves(s, t, OnSession) && Preserves(s, t, OnHand);
  }

  /** If the message is still in the ledger and there still is a session, only the mutation epoch can have moved. */
  lemma UnderOwned(s: State)
    requires Inv(s) && Under(s) && s.key.Some? && InLedger(s.ledger, s.hand.serial)
    ensures s.key == Some(s.hand.key) && s.epoch == s.hand.epoch && Live(s)
  {
    OwnerIsLive(s);
  }

  lemma MatchesItself(ledger: seq<Entry>)
    ensures SchedulingMatches(ledger, CaptureScheduling(ledger))
  {
    var snapshot := CaptureScheduling(ledger);
    forall item | item in snapshot
      ensures exists e :: e in ledger && Scheduling(e.id, e.serial, e.nextRetryAt, e.published) == item
    {
      var i :| 0 <= i < |snapshot| && snapshot[i] == item;
      assert ledger[i] in ledger;
    }
  }

  lemma StillInLedger(ledger: seq<Entry>, serial: nat, at: int)
    requires InLedger(ledger, serial)
    ensures InLedger(Scheduled(ledger, serial, 0, at), serial)
  {
    var i :| 0 <= i < |ledger| && ledger[i].serial == serial;
    assert Scheduled(ledger, serial, 0, at)[i].serial == serial;
  }

  lemma StillInConfirmed(ledger: seq<Entry>, serial: nat)
    requires InLedger(ledger, serial)
    ensures InLedger(Confirmed(ledger, serial), serial)
  {
    var i :| 0 <= i < |ledger| && ledger[i].serial == serial;
    assert Confirmed(ledger, serial)[i].serial == serial;
  }

  // ---------------------------------------------------------------------------
  // Reports
  // ---------------------------------------------------------------------------

  /** The tracker's monotone guard: known, not failed, and strictly forward. */
  function Advanced(tracker: map<nat, SendState>, id: nat, to: SendState): map<nat, SendState> {
    if id in tracker && tracker[id].Rank() < to.Rank() then tracker[id := to] else tracker
  }

  function AllAdvanced(tracker: map<nat, SendState>, ids: seq<nat>, to: SendState): map<nat, SendState> {
    if ids == [] then tracker
    else Advanced(AllAdvanced(tracker, ids[..|ids| - 1], to), ids[|ids| - 1], to)
  }

  function Outcome(accepted: bool): SendState {
    if accepted then Accepted else Failed(Overloaded)
  }

  // ---------------------------------------------------------------------------
  // Public methods
  // ---------------------------------------------------------------------------

  lemma Untracked(s: State, id: nat)
    requires Inv(s)
    ensures id !in s.tracker ==> id !in Pending(s) && id !in Ids(s.ledger) && id !in UserIds(s.queue)
  {
    assert Holds(s, Order) && Holds(s, Numbers);
    if id in Pending(s) {
      var i :| 0 <= i < |Pending(s)| && Pending(s)[i] == id;
      AscendsMember(Pending(s), s.born, -1, i);
    }
  }

  lemma DrainKept(s: State, t: State)
    requires !s.draining && s.hand.Idle? && Carried(s.(draining := true), t) && t.hand.Idle?
    requires t.key.None? || t.queue == []
    ensures Kept(s, t.(draining := false))
  {
    var s1, u := s.(draining := true), t.(draining := false);
    assert Unsettled(s1) == Unsettled(s) && Unsettled(u) == Unsettled(t);
    forall effect ensures Preserves(s, u, effect) {
    }
  }

  lemma IssueKept(s: State, id: nat, text: string, u: State)
    requires Inv(s) && LegalCall(s, Issue(id, text)) && Kept(ApplyCall(s, Issue(id, text)), u)
    requires !s.draining ==> u.key.None? || u.queue == []
    ensures Kept(s, u)
  {
    var t := ApplyCall(s, Issue(id, text));
    IssuePending(s, id, text);
    assert forall x :: x in Pending(s) ==> x in Pending(t);
    assert id in Pending(t) by { assert Pending(t)[|Pending(s)|] == id; }
    forall effect ensures Preserves(s, u, effect) {
      assert Preserves(t, u, effect);
      if effect == OnOwnership {
        forall x | x in Unsettled(u) ensures x in Unsettled(s) {
          assert x in Unsettled(t);
        }
      }
    }
  }

  lemma RefusedIsDetached(s: State, id: nat)
    requires id !in Pending(s)
    ensures Detached(ApplyCall(s, Refuse(id)), [id])
  {
    assert Pending(ApplyCall(s, Refuse(id))) == Pending(s);
  }

  lemma RefuseKept(s: State, id: nat, u: State)
    requires LegalCall(s, Refuse(id)) && Kept(ApplyCall(s, Refuse(id)), u) && Ended(u, [id])
    ensures Kept(s, u)
  {
    var t := ApplyCall(s, Refuse(id));
    assert Pending(t) == Pending(s);
    forall effect ensures Preserves(s, u, effect) {
      assert Preserves(t, u, effect);
      if effect == OnOwnership {
        forall x | x in Unsettled(u) ensures x in Unsettled(s) {
          assert x in Unsettled(t) && id in [id];
        }
      }
    }
  }

  lemma EnqueueKept(s: State, kind: string, u: State)
    requires Kept(ApplyCall(s, EnqueueOther(kind)), u)
    requires !s.draining ==> u.key.None? || u.queue == []
    ensures Kept(s, u)
  {
    var t := ApplyCall(s, EnqueueOther(kind));
    assert Unsettled(t) == Unsettled(s) by {
      UserIdsConcat(s.queue, [Other(kind)]);
      assert UserIds([Other(kind)]) == [] by { assert [Other(kind)][1..] == []; }
      assert Pending(t) == Pending(s);
    }
    forall effect ensures Preserves(s, u, effect) {
      assert Preserves(t, u, effect);
    }
  }

  /** Everything the client owned, the queue's ids before the ledger's. */
  function Owned(s: State): seq<nat> {
    UserIds(s.queue) + Ids(s.ledger)
  }

  lemma SweepDetaches(s: State, t: State)
    requires Inv(s) && t.queue == [] && t.ledger == [] && t.tracker == s.tracker
    ensures Detached(t, Owned(s))
    ensures forall id :: id in Unsettled(t) ==> id in Unsettled(s) || id in Owned(s)
  {
    assert Holds(s, Order) && Holds(s, Numbers);
    assert Pending(t) == [];
    forall id | id in Owned(s) ensures id in s.tracker {
      assert id in Pending(s);
      var i :| 0 <= i < |Pending(s)| && Pending(s)[i] == id;
      AscendsMember(Pending(s), s.born, -1, i);
    }
  }

  lemma SweepKept(s: State, step: OwnStep, u: State)
    requires Inv(s) && (step.Disconnect? || step.Terminate?) && Kept(ApplyOwn(s, step), u) && Ended(u, Owned(s))
    requires step.Disconnect? ==> u.key.None?
    ensures Kept(s, u)
  {
    var t := ApplyOwn(s, step);
    SweepDetaches(s, t);
    forall effect ensures Preserves(s, u, effect) {
      assert Preserves(t, u, effect);
      if effect == OnOwnership {
        forall x | x in Unsettled(u) ensures x in Unsettled(s) {
          assert x in Unsettled(t);
        }
      }
    }
  }

  /** After a sweep that told everyone, every id issued before it is accepted or failed. */
  lemma AllEnded(s: State, t: State, u: State, id: nat)
    requires Inv(s) && t.tracker == s.tracker && Pending(t) == [] && Evolves(t, u) && Kept(s, u)
    requires id in s.tracker && id !in Unsettled(s)
    ensures id in u.tracker && u.tracker[id].Rank() >= 2
  {
    assert Later(t, u, id);
    assert Preserves(s, u, OnOwnership);
    assert id !in Unsettled(u);
  }

  lemma EveryoneEnded(s: State, t: State, u: State)
    requires Inv(s) && t.tracker == s.tracker && Pending(t) == [] && Evolves(t, u) && Kept(s, u)
    ensures forall id :: id in s.tracker && id !in Unsettled(s) ==> id in u.tracker && u.tracker[id].Rank() >= 2
  {
    forall id | id in s.tracker && id !in Unsettled(s) ensures id in u.tracker && u.tracker[id].Rank() >= 2 {
      AllEnded(s, t, u, id);
    }
  }

  // ---------------------------------------------------------------------------
  // Results
  // ---------------------------------------------------------------------------

  /** A result frame detaches what it names; when all its senders were told, nobody is left behind. */
  lemma ResultKept(s: State, ids: seq<nat>, u: State)
    requires Inv(s) && LegalOwn(s, OwnedResult(ids)) && Kept(ApplyOwn(s, OwnedResult(ids)), u)
    requires KnownEnded(s, u, ids)
    ensures Kept(s, u)
  {
    var t := ApplyOwn(s, OwnedResult(ids));
    forall effect ensures Preserves(s, u, effect) {
      assert Preserves(t, u, effect);
      if effect == OnOwnership {
        forall x | x in Unsettled(u) ensures x in Unsettled(s) {
          assert x in Unsettled(t);
          if x !in ids && x in Pending(s) {
            NotNamed(s.ledger, ids, x);
          }
        }
      }
    }
  }

  lemma {:induction false} NotNamed(ledger: seq<Entry>, ids: seq<nat>, x: nat)
    requires x !in ids
    ensures x in Ids(ledger) <==> x in Ids(Without(ledger, ids))
  {
    if ledger != [] {
      var rest := Without(ledger[1..], ids);
      NotNamed(ledger[1..], ids, x);
      assert Ids(ledger) == [ledger[0].id] + Ids(ledger[1..]);
      if ledger[0].id in ids {
        assert Without(ledger, ids) == rest;
      } else {
        assert Without(ledger, ids) == [ledger[0]] + rest;
        assert ([ledger[0]] + rest)[1..] == rest;
      }
    }
  }

  /** If the mutation epoch is still the result's own, it is the last result's. */
  lemma SameResult(s: State, t: State)
    requires Kept(s, t) && s.mutation == s.resultEpoch && t.mutation == s.mutation
    ensures t.mutation == t.resultEpoch
  {
    assert Preserves(s, t, OnClocks);
  }

  // ---------------------------------------------------------------------------
  // Between two turns of the event loop
  // ---------------------------------------------------------------------------

  /** Nothing is being sealed, no sender is left behind, and nothing waits while there is a session. */
  ghost predicate Rest(s: State) {
    && !s.draining && s.hand.Idle?
    && Unsettled(s) == {}
    && (s.key.Some? ==> s.queue == [] && (s.flushed || s.terminal))
  }

  lemma KeptRest(s: State, t: State)
    requires Rest(s) && Kept(s, t)
    ensures Rest(t)
  {
    assert Preserves(s, t, OnSession) && Preserves(s, t, OnOwnership) && Preserves(s, t, OnHand) && Preserves(s, t, OnQueue);
  }

  /** Every sender that was not told the end of it has its message in exactly one place, once. */
  ghost predicate Conserved(s: State) {
    forall id :: id in s.tracker && s.tracker[id].Rank() < 2 ==>
      multiset(Ids(s.ledger))[id] + multiset(UserIds(s.queue))[id] == 1
  }

  lemma OnlyOnce(ids: seq<nat>, born: map<nat, nat>, id: nat)
    requires Ascends(ids, born, -1) && id in ids
    ensures multiset(ids)[id] == 1
  {
    var i :| 0 <= i < |ids| && ids[i] == id;
    var before, after := ids[..i], ids[i + 1..];
    assert ids == before + [id] + after;
    if id in before {
      var j :| 0 <= j < |before| && before[j] == id;
      AscendsOrder(ids, born, -1, j, i);
    }
    if id in after {
      var j :| 0 <= j < |after| && after[j] == id;
      AscendsOrder(ids, born, -1, i, i + 1 + j);
    }
  }

  lemma RestConserves(s: State)
    requires Inv(s) && Rest(s)
    ensures Conserved(s)
  {
    assert Holds(s, Order);
    forall id | id in s.tracker && s.tracker[id].Rank() < 2
      ensures multiset(Ids(s.ledger))[id] + multiset(UserIds(s.queue))[id] == 1
    {
      assert id !in Unsettled(s);
      OnlyOnce(Pending(s), s.born, id);
      assert multiset(Pending(s)) == multiset(Ids(s.ledger)) + multiset(UserIds(s.queue));
    }
  }

  // ---------------------------------------------------------------------------
  // A new session
  // ---------------------------------------------------------------------------

  lemma InstalledUnsettled(s: State)
    ensures Unsettled(ApplyEvent(s, InstallKey)) == Unsettled(s)
  {
    assert Pending(ApplyEvent(s, InstallKey)) == Pending(s);
  }

  lemma FlushedUnsettled(s: State)
    ensures Unsettled(ApplyOwn(s, Flush)) == Unsettled(s)
  {
    FlushPending(s);
  }

  /** The flow was replaced before it flushed: the session is gone, or the client was retired for good. */
  lemma ReplacedRest(s: State, t: State)
    requires !s.draining && s.hand.Idle? && Unsettled(s) == {} && Live(s) && Kept(s, t)
    requires t.key != s.key || t.epoch != s.epoch || !Live(t)
    ensures Rest(t)
  {
    assert Preserves(s, t, OnSession) && Preserves(s, t, OnOwnership) && Preserves(s, t, OnHand) && Preserves(s, t, OnQueue);
  }

  lemma DrainedRest(s: State, t: State)
    requires !s.draining && s.hand.Idle? && Unsettled(s) == {} && s.flushed && Kept(s, t)
    requires t.key.None? || t.queue == []
    ensures Rest(t)
  {
    assert Preserves(s, t, OnSession) && Preserves(s, t, OnOwnership) && Preserves(s, t, OnHand);
  }

  lemma RetryKept(s: State, step: OwnStep)
    requires LegalOwn(s, step) && (step.Retry? || step.Reschedule?)
    ensures Kept(s, ApplyOwn(s, step))
  {
    var t := ApplyOwn(s, step);
    assert Pending(t) == Pending(s) by {
      if step.Reschedule? {
        SameIds(s.ledger, t.ledger);
      }
    }
    OwnFrame(s, step);
    forall effect ensures Preserves(s, t, effect) {
    }
  }
}
