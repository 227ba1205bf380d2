/** What every step of the send path keeps. */
module SendPathInvariants {
  import opened Options
  import opened SendPath

  // ---------------------------------------------------------------------------
  // The invariant
  // ---------------------------------------------------------------------------

  /** The ids were issued in this order, all after call number `floor`. */
  predicate Ascends(ids: seq<nat>, born: map<nat, nat>, floor: int) {
    ids == [] || (ids[0] in born && floor < born[ids[0]] && Ascends(ids[1..], born, born[ids[0]]))
  }

  ghost predicate Numbered(born: map<nat, nat>, calls: nat, tracker: map<nat, SendState>, reserved: set<nat>) {
    && (forall id :: id in born ==> id in tracker && born[id] < calls)
    && (forall id :: id in reserved ==> id !in tracker)
  }

  predicate SerialsAscend(ledger: seq<Entry>, bound: nat) {
    && (forall i :: 0 <= i < |ledger| ==> ledger[i].serial < bound)
    && (forall i, j :: 0 <= i < j < |ledger| ==> ledger[i].serial < ledger[j].serial)
  }

  /** The entry being sealed is still as it was recorded; the entry on the wire is still that message's. */
  predicate Untouched(e: Entry, hand: Hand) {
    match hand
    case Idle => true
    case Sealing(id, text, serial, _, _, _, at) => e == Entry(id, text, serial, 0, at, false)
    case Raw(id, _, _, _, _) => e.id == id
  }

  predicate InHand(hand: Hand, serial: nat) {
    match hand
    case Idle => false
    case Sealing(_, _, n, _, _, _, _) => n == serial
    case Raw(_, n, _, _, _) => n == serial
  }

  predicate HandFresh(hand: Hand, nextSerial: nat, nextKey: nat, born: map<nat, nat>) {
    match hand
    case Idle => true
    case Sealing(id, _, serial, key, _, _, _) => serial + 1 == nextSerial && id in born && key < nextKey
    case Raw(id, serial, key, _, _) => serial + 1 == nextSerial && id in born && key < nextKey
  }

  ghost predicate HandHolds(hand: Hand, ledger: seq<Entry>) {
    forall i :: 0 <= i < |ledger| && InHand(hand, ledger[i].serial) ==> Untouched(ledger[i], hand)
  }

  /** A session that has replayed the ledger has published everything in it. */
  ghost predicate AllPublished(ledger: seq<Entry>, hand: Hand) {
    forall i :: 0 <= i < |ledger| ==> ledger[i].published || InHand(hand, ledger[i].serial)
  }

  /** A confirmed entry really is on the wire, and its sender was told. */
  ghost predicate PublishedIsSent(ledger: seq<Entry>, wire: seq<Message>, tracker: map<nat, SendState>, hand: Hand) {
    forall i :: 0 <= i < |ledger| && ledger[i].published ==> Reported(ledger[i], wire, tracker, hand)
  }

  predicate Reported(e: Entry, wire: seq<Message>, tracker: map<nat, SendState>, hand: Hand) {
    && e.ToMessage() in wire
    && (InHand(hand, e.serial) || (e.id in tracker && tracker[e.id] != Queued))
  }

  /** What is on the wire was sent by a call. */
  ghost predicate WireIssued(wire: seq<Message>, born: map<nat, nat>) {
    forall i :: 0 <= i < |wire| && wire[i].User? ==> wire[i].id in born
  }

  /** What is in the hand and handed over is on the wire. */
  ghost predicate RawOnWire(hand: Hand, wire: seq<Message>, ledger: seq<Entry>) {
    hand.Raw? ==> forall i :: 0 <= i < |ledger| && ledger[i].serial == hand.serial ==> ledger[i].ToMessage() in wire
  }

  /** A settled hand has nothing left to confirm. */
  ghost predicate RawSettled(hand: Hand, key: Option<nat>, ledger: seq<Entry>) {
    hand.Raw? && hand.settled && key.Some? ==>
      forall i :: 0 <= i < |ledger| && ledger[i].serial == hand.serial ==> ledger[i].published
  }

  predicate Epochs(resultEpoch: nat, mutation: nat, key: Option<nat>, nextKey: nat, timer: Option<nat>, generation: nat) {
    && resultEpoch <= mutation
    && (key.Some? ==> key.value < nextKey)
    && (timer.Some? ==> timer.value == generation)
  }

  datatype Aspect = Order | Numbers | Serials | Retired | Holding | Publication | Reports | Wire | Clocks

  ghost predicate Holds(s: State, aspect: Aspect) {
    match aspect
    case Order => Ascends(Pending(s), s.born, -1)
    case Numbers => Numbered(s.born, s.calls, s.tracker, s.reserved)
    case Serials => SerialsAscend(s.ledger, s.nextSerial) && |s.ledger| <= MAX_UNACKED
    case Retired => !Live(s) ==> Pending(s) == []
    case Holding =>
      && (!s.draining ==> s.hand.Idle?)
      && HandFresh(s.hand, s.nextSerial, s.nextKey, s.born)
      && HandHolds(s.hand, s.ledger)
      && RawOnWire(s.hand, s.wire, s.ledger)
      && RawSettled(s.hand, s.key, s.ledger)
    case Publication => Replayed(s) ==> AllPublished(s.ledger, s.hand)
    case Reports => PublishedIsSent(s.ledger, s.wire, s.tracker, s.hand)
    case Wire => WireIssued(s.wire, s.born)
    case Clocks => Epochs(s.resultEpoch, s.mutation, s.key, s.nextKey, s.timer, s.generation)
  }

  ghost predicate Inv(s: State) {
    forall aspect :: Holds(s, aspect)
  }

  // ---------------------------------------------------------------------------
  // Sequences of ids
  // ---------------------------------------------------------------------------

  lemma {:induction false} UserIdsConcat(a: seq<Message>, b: seq<Message>)
    ensures UserIds(a + b) == UserIds(a) + UserIds(b)
  {
    if a == [] {
      assert a + b == b;
    } else {
      assert (a + b)[1..] == a[1..] + b;
      UserIdsConcat(a[1..], b);
    }
  }

  lemma {:induction false} IdsConcat(a: seq<Entry>, b: seq<Entry>)
    ensures Ids(a + b) == Ids(a) + Ids(b)
  {
    if a == [] {
      assert a + b == b;
    } else {
      assert (a + b)[1..] == a[1..] + b;
      IdsConcat(a[1..], b);
    }
  }

  lemma {:induction false} IdsAt(ledger: seq<Entry>, i: nat)
    requires i < |ledger|
    ensures Ids(ledger)[i] == ledger[i].id
  {
    if i > 0 {
      IdsAt(ledger[1..], i - 1);
    }
  }

  lemma {:induction false} ReplayIds(ledger: seq<Entry>)
    ensures UserIds(Messages(ledger)) == Ids(ledger)
  {
    if ledger != [] {
      ReplayIds(ledger[1..]);
      assert Messages(ledger)[1..] == Messages(ledger[1..]);
    }
  }

  lemma {:induction false} SameIds(a: seq<Entry>, b: seq<Entry>)
    requires |a| == |b| && forall i :: 0 <= i < |a| ==> a[i].id == b[i].id
    ensures Ids(a) == Ids(b)
  {
    if a != [] {
      SameIds(a[1..], b[1..]);
    }
  }

  lemma {:induction false} AscendsLower(ids: seq<nat>, born: map<nat, nat>, floor: int, lower: int)
    requires Ascends(ids, born, floor) && lower <= floor
    ensures Ascends(ids, born, lower)
  {
  }

  lemma {:induction false} AscendsSuffix(a: seq<nat>, b: seq<nat>, born: map<nat, nat>, floor: int)
    requires Ascends(a + b, born, floor)
    ensures Ascends(b, born, floor)
  {
    if a == [] {
      assert a + b == b;
    } else {
      assert (a + b)[1..] == a[1..] + b;
      AscendsSuffix(a[1..], b, born, born[a[0]]);
      AscendsLower(b, born, born[a[0]], floor);
    }
  }

  /** Ids all numbered above `floor` stay ascending when one with a higher number joins. */
  lemma {:induction false} AscendsSnoc(ids: seq<nat>, id: nat, born: map<nat, nat>, floor: int, n: nat)
    requires Ascends(ids, born, floor) && floor < n && id !in born
    requires forall x :: x in born ==> born[x] < n
    ensures Ascends(ids + [id], born[id := n], floor)
  {
    if ids == [] {
      assert ids + [id] == [id];
      assert [id][1..] == [];
    } else {
      assert (ids + [id])[1..] == ids[1..] + [id];
      AscendsSnoc(ids[1..], id, born, born[ids[0]], n);
    }
  }

  lemma {:induction false} AscendsWithout(ledger: seq<Entry>, ids: seq<nat>, rest: seq<nat>, born: map<nat, nat>, floor: int)
    requires Ascends(Ids(ledger) + rest, born, floor)
    ensures Ascends(Ids(Without(ledger, ids)) + rest, born, floor)
  {
    if ledger != [] {
      var id := ledger[0].id;
      var kept := Without(ledger[1..], ids);
      assert (Ids(ledger) + rest)[1..] == Ids(ledger[1..]) + rest;
      AscendsWithout(ledger[1..], ids, rest, born, born[id]);
      if id in ids {
        assert Without(ledger, ids) == kept;
        AscendsLower(Ids(kept) + rest, born, born[id], floor);
      } else {
        var w := Without(ledger, ids);
        assert w == [ledger[0]] + kept && w[1..] == kept;
        assert (Ids(w) + rest)[1..] == Ids(kept) + rest;
      }
    }
  }

  lemma {:induction false} AscendsMember(ids: seq<nat>, born: map<nat, nat>, floor: int, i: nat)
    requires Ascends(ids, born, floor) && i < |ids|
    ensures ids[i] in born && floor < born[ids[i]]
  {
    if i > 0 {
      AscendsMember(ids[1..], born, born[ids[0]], i - 1);
    }
  }

  /** Call order, and so no id twice. */
  lemma {:induction false} AscendsOrder(ids: seq<nat>, born: map<nat, nat>, floor: int, i: nat, j: nat)
    requires Ascends(ids, born, floor) && i < j < |ids|
    ensures ids[i] in born && ids[j] in born && born[ids[i]] < born[ids[j]]
  {
    if i == 0 {
      AscendsMember(ids[1..], born, born[ids[0]], j - 1);
    } else {
      AscendsOrder(ids[1..], born, born[ids[0]], i - 1, j - 1);
    }
  }

  // ---------------------------------------------------------------------------
  // Ledger operations
  // ---------------------------------------------------------------------------

  lemma {:induction false} WithoutMember(ledger: seq<Entry>, ids: seq<nat>, i: nat)
    requires i < |Without(ledger, ids)|
    ensures Without(ledger, ids)[i] in ledger && Without(ledger, ids)[i].id !in ids
  {
    var rest := Without(ledger[1..], ids);
    if ledger[0].id in ids {
      assert Without(ledger, ids) == rest;
      WithoutMember(ledger[1..], ids, i);
    } else {
      assert Without(ledger, ids) == [ledger[0]] + rest;
      if i > 0 {
        WithoutMember(ledger[1..], ids, i - 1);
      }
    }
  }

  lemma {:induction false} WithoutAll(ledger: seq<Entry>, ids: seq<nat>)
    ensures |Without(ledger, ids)| <= |ledger|
    ensures forall i :: 0 <= i < |Without(ledger, ids)| ==> Without(ledger, ids)[i] in ledger
  {
    forall i | 0 <= i < |Without(ledger, ids)| ensures Without(ledger, ids)[i] in ledger {
      WithoutMember(ledger, ids, i);
    }
    WithoutLength(ledger, ids);
  }

  lemma {:induction false} WithoutLength(ledger: seq<Entry>, ids: seq<nat>)
    ensures |Without(ledger, ids)| <= |ledger|
  {
    if ledger != [] {
      WithoutLength(ledger[1..], ids);
    }
  }

  lemma {:induction false} WithoutSerials(ledger: seq<Entry>, ids: seq<nat>, bound: nat)
    requires SerialsAscend(ledger, bound)
    ensures SerialsAscend(Without(ledger, ids), bound)
  {
    if ledger != [] {
      WithoutSerials(ledger[1..], ids, bound);
      WithoutAll(ledger[1..], ids);
    }
  }

  /** The entry with the last serial is the last one. */
  lemma {:induction false} DropLast(ledger: seq<Entry>, serial: nat)
    requires SerialsAscend(ledger, serial + 1) && InLedger(ledger, serial)
    ensures ledger != [] && ledger[|ledger| - 1].serial == serial
    ensures WithoutSerial(ledger, serial) == ledger[..|ledger| - 1]
  {
    var i :| 0 <= i < |ledger| && ledger[i].serial == serial;
    assert ledger[|ledger| - 1].serial <= serial;
    if |ledger| == 1 {
      assert WithoutSerial(ledger[1..], serial) == [];
    } else {
      assert ledger[1..][i - 1].serial == serial;
      DropLast(ledger[1..], serial);
      assert ledger[..|ledger| - 1] == [ledger[0]] + ledger[1..][..|ledger| - 2];
    }
  }

  // ---------------------------------------------------------------------------
  // Every step keeps the invariant
  // ---------------------------------------------------------------------------

  lemma TakePending(s: State)
    requires CanTake(s)
    ensures var recorded := Recorded(s.ledger, s.queue[0], s.nextSerial);
            Pending(s) == Ids(recorded[..Overflow(recorded)]) + Pending(Take(s))
  {
    var m := s.queue[0];
    var e := Entry(m.id, m.text, s.nextSerial, 0, None, false);
    var recorded := s.ledger + [e];
    var n := Overflow(recorded);
    IdsConcat(s.ledger, [e]);
    assert Ids([e]) == [m.id] by { assert [e][1..] == []; }
    assert recorded == recorded[..n] + recorded[n..];
    IdsConcat(recorded[..n], recorded[n..]);
    var rest := UserIds(s.queue[1..]);
    assert UserIds(s.queue) == [m.id] + rest;
    assert Ids(s.ledger) + ([m.id] + rest) == Ids(s.ledger) + [m.id] + rest;
    assert Ids(recorded[..n]) + Ids(recorded[n..]) + rest == Ids(recorded[..n]) + (Ids(recorded[n..]) + rest);
  }

  lemma OneId(e: Entry)
    ensures Ids([e]) == [e.id]
  {
    assert [e][1..] == [];
  }

  lemma IdsLast(ledger: seq<Entry>)
    requires ledger != []
    ensures Ids(ledger) == Ids(ledger[..|ledger| - 1]) + [ledger[|ledger| - 1].id]
  {
    var init, last := ledger[..|ledger| - 1], ledger[|ledger| - 1];
    IdsConcat(init, [last]);
    OneId(last);
    assert ledger == init + [last];
  }

  lemma UserIdsCons(m: Message, queue: seq<Message>)
    requires m.User?
    ensures UserIds([m] + queue) == [m.id] + UserIds(queue)
  {
    assert ([m] + queue)[1..] == queue;
  }

  lemma Moved(a: seq<nat>, x: nat, b: seq<nat>)
    ensures a + ([x] + b) == a + [x] + b
  {
  }

  lemma RequeuePending(ledger: seq<Entry>, queue: seq<Message>, m: Message)
    requires ledger != [] && m.User? && ledger[|ledger| - 1].id == m.id
    ensures Ids(ledger[..|ledger| - 1]) + UserIds([m] + queue) == Ids(ledger) + UserIds(queue)
  {
    IdsLast(ledger);
    UserIdsCons(m, queue);
    Moved(Ids(ledger[..|ledger| - 1]), m.id, UserIds(queue));
  }

  lemma FlushPending(s: State)
    ensures Pending(ApplyOwn(s, Flush)) == Pending(s)
  {
    UserIdsConcat(Messages(s.ledger), s.queue);
    ReplayIds(s.ledger);
  }

  lemma IssuePending(s: State, id: nat, text: string)
    ensures Pending(ApplyCall(s, Issue(id, text))) == Pending(s) + [id]
  {
    var m := User(id, text);
    UserIdsConcat(s.queue, [m]);
    assert UserIds([m]) == [id] by { assert [m][1..] == []; }
    assert Ids(s.ledger) + (UserIds(s.queue) + [id]) == Pending(s) + [id];
  }

  /** Steps after which the client still owns what it owned, in the same order. */
  ghost predicate SameOwnership(s: State, t: State) {
    && t.queue == s.queue && t.ledger == s.ledger && t.tracker == s.tracker && t.reserved == s.reserved
    && t.born == s.born && t.calls == s.calls && t.nextSerial == s.nextSerial && t.wire == s.wire
    && t.hand == s.hand && t.draining == s.draining
  }

  lemma OutsideOwnership(s: State, t: State)
    requires Inv(s) && SameOwnership(s, t) && t.nextKey >= s.nextKey
    requires Holds(t, Clocks)
    requires Replayed(t) ==> Replayed(s)
    requires Live(s) ==> Live(t)
    requires t.key.Some? && !s.hand.Idle? ==> s.key.Some?
    ensures Inv(t)
  {
    forall aspect ensures Holds(t, aspect) {
      assert Holds(s, aspect);
    }
  }

  lemma IntervalMovedOnly(s: State, event: SessionStep)
    ensures var t := IntervalMoved(s, event);
            t == s.(mutation := t.mutation, stallSince := t.stallSince, stallIssued := t.stallIssued)
  {
  }

  lemma TimerMovedOnly(s: State, event: SessionStep)
    ensures var t := TimerMoved(s, event); t == s.(timer := t.timer, generation := t.generation)
  {
  }

  lemma EventOnly(s: State, event: SessionStep)
    ensures var t := ApplyEvent(s, event);
            t == s.(key := t.key, nextKey := t.nextKey, epoch := t.epoch, disconnected := t.disconnected, flushed := t.flushed,
                    mutation := t.mutation, stallSince := t.stallSince, stallIssued := t.stallIssued, timer := t.timer,
                    generation := t.generation)
  {
    IntervalMovedOnly(s, event);
    TimerMovedOnly(s, event);
  }

  lemma SessionKeeps(s: State, event: SessionStep)
    requires Inv(s) && LegalEvent(s, event)
    ensures Inv(ApplyEvent(s, event))
  {
    match event
    case Connect => ConnectionKeeps(s, event);
    case BumpEpoch => ConnectionKeeps(s, event);
    case DropKey => ConnectionKeeps(s, event);
    case InstallKey => ConnectionKeeps(s, event);
    case _ => if MovesInterval(event) { IntervalKeeps(s, event); } else { TimerKeeps(s, event); }
  }

  lemma ConnectionKeeps(s: State, event: SessionStep)
    requires Inv(s) && LegalEvent(s, event)
    requires event.Connect? || event.BumpEpoch? || event.DropKey? || event.InstallKey?
    ensures Inv(ApplyEvent(s, event))
  {
    assert Holds(s, Clocks);
    OutsideOwnership(s, ApplyEvent(s, event));
  }

  lemma IntervalKeeps(s: State, event: SessionStep)
    requires Inv(s)
    ensures Inv(IntervalMoved(s, event))
  {
    assert Holds(s, Clocks);
    IntervalMovedOnly(s, event);
    OutsideOwnership(s, IntervalMoved(s, event));
  }

  lemma TimerKeeps(s: State, event: SessionStep)
    requires Inv(s) && LegalEvent(s, event)
    requires event.CancelTimer? || event.NextGeneration? || event.InstallTimer? || event.TimerFires?
    ensures Inv(TimerMoved(s, event))
  {
    assert Holds(s, Clocks);
    TimerMovedOnly(s, event);
    OutsideOwnership(s, TimerMoved(s, event));
  }

  lemma OwnedIsBorn(s: State, i: nat)
    requires Inv(s) && i < |s.ledger|
    ensures s.ledger[i].id in s.born && s.ledger[i].id in s.tracker
  {
    assert Holds(s, Order) && Holds(s, Numbers);
    IdsAt(s.ledger, i);
    assert Pending(s)[i] == s.ledger[i].id;
    AscendsMember(Pending(s), s.born, -1, i);
  }

  lemma TakenIsBorn(s: State)
    requires Inv(s) && CanTake(s)
    ensures s.queue[0].id in s.born
  {
    assert Holds(s, Order);
    assert Pending(s)[|s.ledger|] == s.queue[0].id;
    AscendsMember(Pending(s), s.born, -1, |s.ledger|);
  }

  /** Reports survive when the sender learns more, and when the log grows. */
  lemma StillReported(s: State, wire: seq<Message>, tracker: map<nat, SendState>)
    requires Holds(s, Reports) && s.wire <= wire
    requires forall id :: id in s.tracker && s.tracker[id] != Queued ==> id in tracker && tracker[id] != Queued
    ensures PublishedIsSent(s.ledger, wire, tracker, s.hand)
  {
    forall i | 0 <= i < |s.ledger| && s.ledger[i].published ensures Reported(s.ledger[i], wire, tracker, s.hand) {
      assert Reported(s.ledger[i], s.wire, s.tracker, s.hand);
    }
  }

  lemma IssueOrder(s: State, id: nat, text: string)
    requires Inv(s) && LegalCall(s, Issue(id, text))
    ensures Holds(ApplyCall(s, Issue(id, text)), Order)
  {
    assert Holds(s, Order) && Holds(s, Numbers);
    IssuePending(s, id, text);
    AscendsSnoc(Pending(s), id, s.born, -1, s.calls);
  }

  lemma IssueKeeps(s: State, id: nat, text: string)
    requires Inv(s) && LegalCall(s, Issue(id, text))
    ensures Inv(ApplyCall(s, Issue(id, text)))
  {
    var t := ApplyCall(s, Issue(id, text));
    IssueOrder(s, id, text);
    assert Holds(t, Reports) by {
      assert Holds(s, Reports);
      StillReported(s, t.wire, t.tracker);
    }
    forall aspect ensures Holds(t, aspect) {
      if aspect != Order && aspect != Reports {
        assert Holds(s, aspect);
      }
    }
  }

  /** Steps that only change what is reserved and what senders were told. */
  lemma TrackerKeeps(s: State, t: State)
    requires Inv(s) && t == s.(tracker := t.tracker, reserved := t.reserved, answers := t.answers)
    requires forall id :: id in s.tracker ==> id in t.tracker && (s.tracker[id] != Queued ==> t.tracker[id] != Queued)
    requires forall id :: id in t.reserved ==> id !in t.tracker
    ensures Inv(t)
  {
    assert Holds(s, Reports) && Holds(s, Numbers);
    StillReported(s, t.wire, t.tracker);
    forall aspect ensures Holds(t, aspect) {
      assert Holds(s, aspect);
    }
  }

  lemma EnqueueOtherKeeps(s: State, kind: string)
    requires Inv(s)
    ensures Inv(ApplyCall(s, EnqueueOther(kind)))
  {
    var t := ApplyCall(s, EnqueueOther(kind));
    UserIdsConcat(s.queue, [Other(kind)]);
    assert UserIds([Other(kind)]) == [] by { assert [Other(kind)][1..] == []; }
    assert Pending(t) == Pending(s);
    forall aspect ensures Holds(t, aspect) {
      assert Holds(s, aspect);
    }
  }

  lemma DrainKeeps(s: State, t: State)
    requires Inv(s) && t == s.(draining := t.draining) && (!t.draining ==> s.hand.Idle?)
    ensures Inv(t)
  {
    forall aspect ensures Holds(t, aspect) {
      assert Holds(s, aspect);
    }
  }

  lemma TakeKeepsOrder(s: State)
    requires Holds(s, Order) && CanTake(s)
    ensures Holds(Take(s), Order)
  {
    var recorded := Recorded(s.ledger, s.queue[0], s.nextSerial);
    TakePending(s);
    AscendsSuffix(Ids(recorded[..Overflow(recorded)]), Pending(Take(s)), s.born, -1);
  }

  lemma TakeUserKeeps(s: State)
    requires Inv(s) && LegalSeal(s, TakeUser)
    ensures Inv(ApplySeal(s, TakeUser))
  {
    var t := Take(s);
    assert Holds(s, Order) && Holds(s, Serials) && Holds(s, Reports) && Holds(s, Retired) && Holds(s, Clocks);
    TakeKeepsOrder(s);
    TakenIsBorn(s);
    TakeLedger(s.ledger, Entry(s.queue[0].id, s.queue[0].text, s.nextSerial, 0, None, false), s.hand, t.hand, s.wire, s.tracker);
    forall aspect ensures Holds(t, aspect) {
      assert Holds(s, aspect);
    }
  }

  lemma TakeLedger(ledger: seq<Entry>, e: Entry, hand: Hand, hand': Hand, wire: seq<Message>, tracker: map<nat, SendState>)
    requires SerialsAscend(ledger, e.serial) && hand.Idle? && hand'.Sealing? && hand'.serial == e.serial
    requires Untouched(e, hand') && |ledger| <= MAX_UNACKED
    requires PublishedIsSent(ledger, wire, tracker, hand)
    ensures var kept := (ledger + [e])[Overflow(ledger + [e])..];
            && SerialsAscend(kept, e.serial + 1) && |kept| <= MAX_UNACKED
            && HandHolds(hand', kept)
            && (AllPublished(ledger, hand) ==> AllPublished(kept, hand'))
            && PublishedIsSent(kept, wire, tracker, hand')
  {
    var recorded := ledger + [e];
    var n := Overflow(recorded);
    var kept := recorded[n..];
    forall i | 0 <= i < |kept| && kept[i].published ensures Reported(kept[i], wire, tracker, hand') {
      assert kept[i] == ledger[n + i];
      assert Reported(ledger[n + i], wire, tracker, hand);
    }
  }

  lemma TakeOtherKeeps(s: State, sent: bool)
    requires Inv(s) && LegalSeal(s, TakeOther(sent))
    ensures Inv(ApplySeal(s, TakeOther(sent)))
  {
    var t := ApplySeal(s, TakeOther(sent));
    assert Holds(s, Reports);
    StillReported(s, t.wire, t.tracker);
    assert UserIds(t.queue) == UserIds(s.queue);
    forall aspect ensures Holds(t, aspect) {
      assert Holds(s, aspect);
    }
  }

  lemma ScheduleKeeps(s: State, at: int)
    requires Inv(s) && LegalSeal(s, Schedule(at))
    ensures Inv(ApplySeal(s, Schedule(at)))
  {
    var t := ApplySeal(s, Schedule(at));
    SameIds(s.ledger, t.ledger);
    assert Holds(t, Reports) by {
      assert Holds(s, Reports);
      forall i | 0 <= i < |t.ledger| && t.ledger[i].published ensures Reported(t.ledger[i], t.wire, t.tracker, t.hand) {
        assert Reported(s.ledger[i], s.wire, s.tracker, s.hand);
      }
    }
    forall aspect ensures Holds(t, aspect) {
      if aspect != Reports {
        assert Holds(s, aspect);
      }
    }
  }

  lemma PublishKeeps(s: State)
    requires Inv(s) && LegalSeal(s, Publish)
    ensures Inv(ApplySeal(s, Publish))
  {
    var t := ApplySeal(s, Publish);
    assert Holds(t, Reports) by {
      assert Holds(s, Reports);
      forall i | 0 <= i < |t.ledger| && t.ledger[i].published ensures Reported(t.ledger[i], t.wire, t.tracker, t.hand) {
        assert Reported(s.ledger[i], s.wire, s.tracker, s.hand);
      }
    }
    assert Holds(t, Holding) by {
      assert Holds(s, Holding);
      assert t.wire[|s.wire|] == User(s.hand.id, s.hand.text);
    }
    forall aspect ensures Holds(t, aspect) {
      if aspect != Reports && aspect != Holding {
        assert Holds(s, aspect);
      }
    }
  }

  lemma ForgoKeeps(s: State)
    requires Inv(s) && LegalSeal(s, Forgo)
    ensures Inv(ApplySeal(s, Forgo))
  {
    var t := ApplySeal(s, Forgo);
    assert Holds(t, Reports) by {
      assert Holds(s, Reports);
      forall i | 0 <= i < |t.ledger| && t.ledger[i].published ensures Reported(t.ledger[i], t.wire, t.tracker, t.hand) {
        assert Reported(s.ledger[i], s.wire, s.tracker, s.hand);
      }
    }
    forall aspect ensures Holds(t, aspect) {
      if aspect != Reports {
        assert Holds(s, aspect);
      }
    }
  }

  lemma RequeueShape(s: State)
    requires Inv(s) && LegalSeal(s, Requeue)
    ensures s.ledger != [] && Untouched(s.ledger[|s.ledger| - 1], s.hand)
    ensures s.ledger[|s.ledger| - 1].serial == s.hand.serial
    ensures ApplySeal(s, Requeue) ==
      s.(ledger := s.ledger[..|s.ledger| - 1], queue := [User(s.hand.id, s.hand.text)] + s.queue, hand := Idle)
  {
    assert Holds(s, Serials) && Holds(s, Holding);
    DropLast(s.ledger, s.hand.serial);
  }

  lemma RequeueKeeps(s: State)
    requires Inv(s) && LegalSeal(s, Requeue)
    ensures Inv(ApplySeal(s, Requeue))
  {
    var t := ApplySeal(s, Requeue);
    RequeueShape(s);
    assert Pending(t) == Pending(s) by {
      RequeuePending(s.ledger, s.queue, User(s.hand.id, s.hand.text));
    }
    assert Holds(t, Serials) && Holds(t, Publication) && Holds(t, Reports) by {
      assert Holds(s, Serials) && Holds(s, Holding) && Holds(s, Publication) && Holds(s, Reports);
      DropHand(s.ledger, s.hand, s.wire, s.tracker);
    }
    forall aspect ensures Holds(t, aspect) {
      if aspect != Serials && aspect != Publication && aspect != Reports {
        assert Holds(s, aspect);
      }
    }
  }

  lemma DropHand(ledger: seq<Entry>, hand: Hand, wire: seq<Message>, tracker: map<nat, SendState>)
    requires hand.Sealing? && SerialsAscend(ledger, hand.serial + 1)
    requires ledger != [] && ledger[|ledger| - 1].serial == hand.serial
    requires PublishedIsSent(ledger, wire, tracker, hand)
    ensures SerialsAscend(ledger[..|ledger| - 1], hand.serial + 1)
    ensures AllPublished(ledger, hand) ==> AllPublished(ledger[..|ledger| - 1], Idle)
    ensures PublishedIsSent(ledger[..|ledger| - 1], wire, tracker, Idle)
  {
    var kept := ledger[..|ledger| - 1];
    forall i | 0 <= i < |kept| && kept[i].published ensures Reported(kept[i], wire, tracker, Idle) {
      assert Reported(ledger[i], wire, tracker, hand);
    }
  }

  lemma LetGo(s: State)
    requires Inv(s)
    requires Replayed(s) ==> AllPublished(s.ledger, Idle)
    requires forall i :: 0 <= i < |s.ledger| && s.ledger[i].published && InHand(s.hand, s.ledger[i].serial) ==>
      s.ledger[i].id in s.tracker && s.tracker[s.ledger[i].id] != Queued
    ensures Inv(s.(hand := Idle))
  {
    var t := s.(hand := Idle);
    assert Holds(s, Reports);
    forall i | 0 <= i < |t.ledger| && t.ledger[i].published ensures Reported(t.ledger[i], t.wire, t.tracker, Idle) {
      assert Reported(s.ledger[i], s.wire, s.tracker, s.hand);
    }
    forall aspect ensures Holds(t, aspect) {
      assert Holds(s, aspect);
    }
  }

  lemma AbandonKeeps(s: State)
    requires Inv(s) && LegalSeal(s, Abandon)
    ensures Inv(ApplySeal(s, Abandon))
  {
    assert Holds(s, Holding) && Holds(s, Publication);
    LetGo(s);
  }

  lemma FinishKeeps(s: State)
    requires Inv(s) && LegalSeal(s, Finish)
    ensures Inv(ApplySeal(s, Finish))
  {
    assert Holds(s, Holding) && Holds(s, Publication) && Holds(s, Numbers);
    LetGo(s);
  }

  lemma ConfirmKeeps(s: State)
    requires Inv(s) && LegalSeal(s, Confirm)
    ensures Inv(ApplySeal(s, Confirm))
  {
    var t := ApplySeal(s, Confirm);
    assert Holds(s, Holding) && Holds(s, Reports);
    SameIds(s.ledger, t.ledger);
    forall i | 0 <= i < |t.ledger| && t.ledger[i].published ensures Reported(t.ledger[i], t.wire, t.tracker, t.hand) {
      if s.ledger[i].published {
        assert Reported(s.ledger[i], s.wire, s.tracker, s.hand);
      }
    }
    forall aspect ensures Holds(t, aspect) {
      assert Holds(s, aspect);
    }
  }

  lemma RescheduleKeeps(s: State, serial: nat, count: nat, at: int)
    requires Inv(s) && LegalOwn(s, Reschedule(serial, count, at))
    ensures Inv(ApplyOwn(s, Reschedule(serial, count, at)))
  {
    var t := ApplyOwn(s, Reschedule(serial, count, at));
    assert Holds(s, Reports);
    SameIds(s.ledger, t.ledger);
    forall i | 0 <= i < |t.ledger| && t.ledger[i].published ensures Reported(t.ledger[i], t.wire, t.tracker, t.hand) {
      assert Reported(s.ledger[i], s.wire, s.tracker, s.hand);
    }
    forall aspect ensures Holds(t, aspect) {
      assert Holds(s, aspect);
    }
  }

  lemma OwnedResultKeeps(s: State, ids: seq<nat>)
    requires Inv(s) && LegalOwn(s, OwnedResult(ids))
    ensures Inv(ApplyOwn(s, OwnedResult(ids)))
  {
    OwnerIsLive(s);
    WithoutKeeps(s, ids);
    var u := s.(ledger := Without(s.ledger, ids));
    ResultClocks(u);
    assert AfterResult(u, u.ledger) == AfterResult(s, u.ledger);
  }

  lemma OwnerIsLive(s: State)
    requires Inv(s) && s.ledger != []
    ensures Live(s)
  {
    assert Holds(s, Retired);
    assert Pending(s) != [];
  }

  lemma IntervalEnds(s: State)
    requires Inv(s)
    ensures Inv(s.(stallSince := None, stallIssued := false))
  {
    forall aspect ensures Holds(s.(stallSince := None, stallIssued := false), aspect) {
      assert Holds(s, aspect);
    }
  }

  lemma ResultClocks(s: State)
    requires Inv(s)
    ensures Inv(AfterResult(s, s.ledger))
  {
    var t := s.(mutation := s.mutation + 1, resultEpoch := s.mutation + 1);
    forall aspect ensures Holds(t, aspect) {
      assert Holds(s, aspect);
    }
    if !HasPublished(s.ledger) {
      IntervalEnds(t);
    }
  }

  lemma WithoutKeeps(s: State, ids: seq<nat>)
    requires Inv(s) && Live(s)
    ensures Inv(s.(ledger := Without(s.ledger, ids)))
  {
    var t := s.(ledger := Without(s.ledger, ids));
    WithoutOrder(s, ids);
    WithoutHolding(s, ids);
    forall aspect ensures Holds(t, aspect) {
      if aspect == Numbers || aspect == Wire || aspect == Clocks {
        assert Holds(s, aspect);
      }
    }
  }

  lemma WithoutOrder(s: State, ids: seq<nat>)
    requires Inv(s)
    ensures Holds(s.(ledger := Without(s.ledger, ids)), Order)
    ensures Holds(s.(ledger := Without(s.ledger, ids)), Serials)
  {
    assert Holds(s, Order) && Holds(s, Serials);
    AscendsWithout(s.ledger, ids, UserIds(s.queue), s.born, -1);
    WithoutSerials(s.ledger, ids, s.nextSerial);
    WithoutAll(s.ledger, ids);
  }

  lemma WithoutHolding(s: State, ids: seq<nat>)
    requires Inv(s)
    ensures Holds(s.(ledger := Without(s.ledger, ids)), Holding)
    ensures Holds(s.(ledger := Without(s.ledger, ids)), Publication)
    ensures Holds(s.(ledger := Without(s.ledger, ids)), Reports)
  {
    assert Holds(s, Reports) && Holds(s, Holding) && Holds(s, Publication);
    WithoutAll(s.ledger, ids);
    Fewer(s.ledger, Without(s.ledger, ids), s.hand, s.wire, s.tracker);
  }

  lemma Fewer(ledger: seq<Entry>, kept: seq<Entry>, hand: Hand, wire: seq<Message>, tracker: map<nat, SendState>)
    requires forall i :: 0 <= i < |kept| ==> kept[i] in ledger
    requires HandHolds(hand, ledger) && PublishedIsSent(ledger, wire, tracker, hand) && RawOnWire(hand, wire, ledger)
    ensures forall key :: RawSettled(hand, key, ledger) ==> RawSettled(hand, key, kept)
    ensures HandHolds(hand, kept) && PublishedIsSent(kept, wire, tracker, hand) && RawOnWire(hand, wire, kept)
    ensures AllPublished(ledger, hand) ==> AllPublished(kept, hand)
  {
    forall i | 0 <= i < |kept|
      ensures kept[i].published ==> Reported(kept[i], wire, tracker, hand)
      ensures InHand(hand, kept[i].serial) ==> Untouched(kept[i], hand)
      ensures hand.Raw? && kept[i].serial == hand.serial ==> kept[i].ToMessage() in wire
      ensures AllPublished(ledger, hand) ==> kept[i].published || InHand(hand, kept[i].serial)
    {
      assert kept[i] in ledger;
      var j :| 0 <= j < |ledger| && ledger[j] == kept[i];
    }
  }

  lemma SweepKeeps(s: State, t: State)
    requires Inv(s) && SameOwnership(s.(queue := [], ledger := []), t)
    requires t.nextKey == s.nextKey && t.key == s.key && t.flushed == s.flushed
    requires Holds(t, Clocks)
    ensures Inv(t)
  {
    assert Pending(t) == [];
    forall aspect ensures Holds(t, aspect) {
      assert Holds(s, aspect);
    }
  }

  lemma DisconnectKeeps(s: State)
    requires Inv(s)
    ensures Inv(ApplyOwn(s, Disconnect)) && Inv(ApplyOwn(s, Terminate))
  {
    assert Holds(s, Clocks);
    SweepKeeps(s, ApplyOwn(s, Disconnect));
    SweepKeeps(s, ApplyOwn(s, Terminate));
  }

  lemma FlushKeeps(s: State)
    requires Inv(s) && LegalOwn(s, Flush)
    ensures Inv(ApplyOwn(s, Flush))
  {
    var t := ApplyOwn(s, Flush);
    FlushPending(s);
    forall aspect ensures Holds(t, aspect) {
      assert Holds(s, aspect);
    }
  }

  lemma RetryKeeps(s: State, serial: nat)
    requires Inv(s) && LegalOwn(s, Retry(serial))
    ensures Inv(ApplyOwn(s, Retry(serial)))
  {
    var t := ApplyOwn(s, Retry(serial));
    assert Holds(s, Reports) && Holds(s, Wire);
    StillReported(s, t.wire, t.tracker);
    MessageOfEntry(s.ledger, serial);
    var j :| 0 <= j < |s.ledger| && s.ledger[j].serial == serial && MessageOf(s.ledger, serial) == [s.ledger[j].ToMessage()];
    OwnedIsBorn(s, j);
    forall aspect ensures Holds(t, aspect) {
      assert Holds(s, aspect);
    }
  }

  lemma {:induction false} MessageOfEntry(ledger: seq<Entry>, serial: nat)
    requires InLedger(ledger, serial)
    ensures exists j :: 0 <= j < |ledger| && ledger[j].serial == serial && MessageOf(ledger, serial) == [ledger[j].ToMessage()]
  {
    if ledger[0].serial != serial {
      var i :| 0 <= i < |ledger| && ledger[i].serial == serial;
      assert ledger[1..][i - 1].serial == serial;
      MessageOfEntry(ledger[1..], serial);
      var j :| 0 <= j < |ledger[1..]| && ledger[1..][j].serial == serial
        && MessageOf(ledger[1..], serial) == [ledger[1..][j].ToMessage()];
      assert ledger[j + 1].serial == serial;
    }
  }

  lemma CallKeeps(s: State, step: CallStep)
    requires Inv(s) && LegalCall(s, step)
    ensures Inv(ApplyCall(s, step))
  {
    match step
    case Issue(id, text) => IssueKeeps(s, id, text);
    case EnqueueOther(kind) => EnqueueOtherKeeps(s, kind);
    case _ =>
      assert Holds(s, Numbers);
      TrackerKeeps(s, ApplyCall(s, step));
  }

  lemma SealKeeps(s: State, step: SealStep)
    requires Inv(s) && LegalSeal(s, step)
    ensures Inv(ApplySeal(s, step))
  {
    match step
    case StartDrain => DrainKeeps(s, ApplySeal(s, step));
    case EndDrain => DrainKeeps(s, ApplySeal(s, step));
    case TakeUser => TakeUserKeeps(s);
    case TakeOther(sent) => TakeOtherKeeps(s, sent);
    case Schedule(at) => ScheduleKeeps(s, at);
    case Publish => PublishKeeps(s);
    case Requeue => RequeueKeeps(s);
    case Abandon => AbandonKeeps(s);
    case Confirm => ConfirmKeeps(s);
    case Forgo => ForgoKeeps(s);
    case Finish => FinishKeeps(s);
  }

  lemma OwnKeeps(s: State, step: OwnStep)
    requires Inv(s) && LegalOwn(s, step)
    ensures Inv(ApplyOwn(s, step))
  {
    match step
    case OwnedResult(ids) => OwnedResultKeeps(s, ids);
    case Disconnect => DisconnectKeeps(s);
    case Terminate => DisconnectKeeps(s);
    case Flush => FlushKeeps(s);
    case Retry(serial) => RetryKeeps(s, serial);
    case Reschedule(serial, count, at) => RescheduleKeeps(s, serial, count, at);
  }

  lemma StepKeepsInv(s: State, step: Step)
    requires Inv(s) && Legal(s, step)
    ensures Inv(Apply(s, step))
  {
    match step
    case Call(call) => CallKeeps(s, call);
    case Seal(seal) => SealKeeps(s, seal);
    case Own(own) => OwnKeeps(s, own);
    case Session(event) => SessionKeeps(s, event);
  }

  /** After any run. */
  lemma {:induction false} RunKeepsInv(steps: seq<Step>)
    requires LegalRun(steps)
    ensures Inv(Run(steps))
  {
    if steps == [] {
      forall aspect ensures Holds(INITIAL, aspect) {
      }
    } else {
      RunKeepsInv(steps[..|steps| - 1]);
      StepKeepsInv(Run(steps[..|steps| - 1]), steps[|steps| - 1]);
    }
  }
}
