/** Which of the client's own turns are still open, and the flag that says whether any is. */
module TurnTracking {
  import opened Options

  datatype Outcome = Queued | Sent | Accepted | Completed | Failed(overloaded: bool)
  {
    /** `RECEIPT_RANK`. */
    function Rank(): nat {
      match this
      case Queued => 0
      case Sent => 1
      case Accepted => 2
      case Completed => 3
      case Failed(_) => 4
    }
  }

  /** `receiptAdvances`. */
  predicate Advances(from: Outcome, to: Outcome) {
    from != to && !from.Failed? && !from.Completed? && (to.Failed? || to.Rank() > from.Rank())
  }

  datatype Receipt = Receipt(wire: Option<nat>, eligible: bool, consumed: bool, state: Outcome)

  /** `aliases` is the wire-id map in insertion order; `openings` is their history. */
  datatype State = State(
    aliases: seq<(nat, nat)>,
    receipts: map<nat, Receipt>,
    openTurns: seq<nat>,
    turnActive: bool,
    raw: bool,
    terminal: bool,
    closed: bool,
    clearing: nat,
    openings: seq<nat>
  )

  const INITIAL := State([], map[], [], false, false, false, false, 0, [])

  // ---------------------------------------------------------------------------
  // The open turns
  // ---------------------------------------------------------------------------

  function Minus(ids: seq<nat>, gone: seq<nat>): seq<nat> {
    if ids == [] then [] else (if ids[0] in gone then [] else [ids[0]]) + Minus(ids[1..], gone)
  }

  /** The open turns up to and including `id`. */
  function Through(ids: seq<nat>, id: nat): (prefix: seq<nat>)
    ensures prefix <= ids
  {
    if ids == [] then [] else if ids[0] == id then [id] else [ids[0]] + Through(ids[1..], id)
  }

  /** The aliases up to and including wire id `id`. */
  function AliasesThrough(aliases: seq<(nat, nat)>, id: nat): (prefix: seq<(nat, nat)>)
    ensures prefix <= aliases
  {
    if aliases == [] then []
    else if aliases[0].0 == id then [aliases[0]]
    else [aliases[0]] + AliasesThrough(aliases[1..], id)
  }

  function OpenAmong(aliases: seq<(nat, nat)>, open: seq<nat>): seq<nat> {
    if aliases == [] then []
    else (if aliases[0].0 in open then [aliases[0].0] else []) + OpenAmong(aliases[1..], open)
  }

  function KeyOf(aliases: seq<(nat, nat)>, id: nat): Option<nat> {
    if aliases == [] then None else if aliases[0].0 == id then Some(aliases[0].1) else KeyOf(aliases[1..], id)
  }

  function Consume(r: Receipt): Receipt {
    if r.eligible then r.(consumed := true) else r
  }

  /** Every settlement-eligible receipt among the aliases has lost its one chance to open a turn. */
  function ConsumeAliases(receipts: map<nat, Receipt>, aliases: seq<(nat, nat)>): map<nat, Receipt> {
    map k | k in receipts :: if exists i :: 0 <= i < |aliases| && aliases[i].1 == k then Consume(receipts[k]) else receipts[k]
  }

  function ConsumeAll(receipts: map<nat, Receipt>): map<nat, Receipt> {
    map k | k in receipts :: Consume(receipts[k])
  }

  /** Receipts whose low-level outcome has advanced lose it when the connection is lost. */
  function ConsumeAdvanced(receipts: map<nat, Receipt>, advanced: set<nat>): map<nat, Receipt> {
    map k | k in receipts ::
      if receipts[k].wire.Some? && receipts[k].wire.value in advanced then Consume(receipts[k]) else receipts[k]
  }

  // ---------------------------------------------------------------------------
  // Settlement
  // ---------------------------------------------------------------------------

  /** The receipts after the settle's openings are consumed, and the open turns it will close. */
  datatype Placement = Placement(receipts: map<nat, Receipt>, prefix: Option<seq<nat>>)

  function Place(s: State, turnId: Option<nat>): Placement {
    if turnId.None? then Placement(s.receipts, None)
    else
      var id := turnId.value;
      var key := KeyOf(s.aliases, id);
      if key.None? || key.value !in s.receipts || !s.receipts[key.value].eligible then Placement(s.receipts, None)
      else if id in s.openTurns then Placement(s.receipts, Some(Through(s.openTurns, id)))
      else if s.receipts[key.value].consumed then Placement(s.receipts, None)
      else
        var passed := AliasesThrough(s.aliases, id);
        Placement(ConsumeAliases(s.receipts, passed), Some(OpenAmong(passed, s.openTurns)))
  }

  /** Closing turns folds the flag's flip into the same state change. */
  function CloseTurns(s: State, gone: seq<nat>): State {
    var left := Minus(s.openTurns, gone);
    s.(openTurns := left, turnActive := if left == [] then false else s.turnActive)
  }

  // ---------------------------------------------------------------------------
  // Receipts
  // ---------------------------------------------------------------------------

  predicate Opens(s: State, r: Receipt, to: Outcome) {
    && (to == Sent || to == Accepted) && !r.consumed && r.eligible && r.wire.Some?
    && s.raw && !s.terminal && !s.closed
  }

  /** One accepted transition: the receipt moves, and its turn opens or closes in the same state change. */
  function Transition(s: State, key: nat, to: Outcome): State {
    if key !in s.receipts || !Advances(s.receipts[key].state, to) then s
    else
      var r := s.receipts[key];
      var moved := r.(state := to, consumed := true);
      var t := s.(receipts := s.receipts[key := moved]);
      if Opens(s, r, to) then
        t.(openTurns := if r.wire.value in s.openTurns then s.openTurns else s.openTurns + [r.wire.value],
           turnActive := true, openings := s.openings + [r.wire.value])
      else if to == Failed(true) && r.wire.Some? && r.wire.value in s.openTurns then CloseTurns(t, [r.wire.value])
      else t
  }

  // ---------------------------------------------------------------------------
  // Steps
  // ---------------------------------------------------------------------------

  datatype Step =
    | Register(key: nat, wire: nat, eligible: bool)
    | RegisterHeld(key: nat)
    | Attach(key: nat, wire: nat)
    | Move(key: nat, to: Outcome)
    | SettleBegin(turnId: Option<nat>)
    | SettleEnd(prefix: seq<nat>)
    | StopAll
    | RawUp
    | RawDown(advanced: set<nat>)
    | ClearNow
    | Die
    | CloseBegin
    | CloseEnd
    | Reopen

  predicate FreshWire(s: State, wire: nat) {
    forall i :: 0 <= i < |s.aliases| ==> s.aliases[i].0 != wire
  }

  ghost predicate Legal(s: State, step: Step) {
    match step
    case Register(key, wire, _) => key !in s.receipts && FreshWire(s, wire)
    case RegisterHeld(key) => key !in s.receipts
    case Attach(key, wire) => key in s.receipts && s.receipts[key].wire.None? && FreshWire(s, wire)
    case CloseEnd => s.clearing > 0
    case _ => true
  }

  function Apply(s: State, step: Step): State {
    match step
    case Register(key, wire, eligible) =>
      s.(receipts := s.receipts[key := Receipt(Some(wire), eligible, false, Queued)], aliases := s.aliases + [(wire, key)])
    case RegisterHeld(key) => s.(receipts := s.receipts[key := Receipt(None, true, false, Queued)])
    case Attach(key, wire) =>
      if key !in s.receipts then s
      else s.(receipts := s.receipts[key := s.receipts[key].(wire := Some(wire))], aliases := s.aliases + [(wire, key)])
    case Move(key, to) => Transition(s, key, to)
    case SettleBegin(turnId) => s.(receipts := Place(s, turnId).receipts)
    case SettleEnd(prefix) => CloseTurns(s, prefix)
    case StopAll => s.(receipts := ConsumeAll(s.receipts))
    case RawUp => s.(raw := true)
    case RawDown(advanced) =>
      if s.terminal then s.(raw := false)
      else Cleared(s.(raw := false, receipts := ConsumeAdvanced(s.receipts, advanced)))
    case ClearNow => Cleared(s)
    case Die => Cleared(s.(terminal := true))
    case CloseBegin =>
      s.(closed := true, openTurns := [], clearing := if s.openTurns != [] && s.turnActive then s.clearing + 1 else s.clearing)
    case CloseEnd => s.(clearing := if s.clearing > 0 then s.clearing - 1 else 0, turnActive := if s.openTurns == [] then false else s.turnActive)
    case Reopen => if s.terminal then s else s.(closed := false)
  }

  /** `clearOpenTurns()` with its flip: nothing happens when no turn is open. */
  function Cleared(s: State): State {
    if s.openTurns == [] then s else s.(openTurns := [], turnActive := false)
  }

  function Run(steps: seq<Step>): State {
    if steps == [] then INITIAL else Apply(Run(steps[..|steps| - 1]), steps[|steps| - 1])
  }

  ghost predicate LegalRun(steps: seq<Step>) {
    steps == [] || (LegalRun(steps[..|steps| - 1]) && Legal(Run(steps[..|steps| - 1]), steps[|steps| - 1]))
  }

  // ---------------------------------------------------------------------------
  // The invariant
  // ---------------------------------------------------------------------------

  predicate Distinct(ids: seq<nat>) {
    forall i, j :: 0 <= i < j < |ids| ==> ids[i] != ids[j]
  }

  /** The alias map and the receipts name each other. */
  ghost predicate AliasesMatch(aliases: seq<(nat, nat)>, receipts: map<nat, Receipt>) {
    && (forall i, j :: 0 <= i < j < |aliases| ==> aliases[i].0 != aliases[j].0)
    && (forall i :: 0 <= i < |aliases| ==> aliases[i].1 in receipts && receipts[aliases[i].1].wire == Some(aliases[i].0))
  }

  ghost predicate ReceiptsNamed(aliases: seq<(nat, nat)>, receipts: map<nat, Receipt>) {
    forall k :: k in receipts && receipts[k].wire.Some? ==> (receipts[k].wire.value, k) in aliases
  }

  /** A turn that opened used up its receipt's chance. */
  ghost predicate OpeningsConsumed(openings: seq<nat>, receipts: map<nat, Receipt>) {
    forall k :: k in receipts && receipts[k].wire.Some? && receipts[k].wire.value in openings ==> receipts[k].consumed
  }

  ghost predicate OpenedOnce(openTurns: seq<nat>, openings: seq<nat>) {
    && Distinct(openings) && Distinct(openTurns)
    && (forall id :: id in openTurns ==> id in openings)
  }

  ghost predicate OpeningsAliased(openings: seq<nat>, aliases: seq<(nat, nat)>) {
    forall id :: id in openings ==> exists i :: 0 <= i < |aliases| && aliases[i].0 == id
  }

  /** Only a turn that a settle will name ever opened. */
  ghost predicate OpeningsEligible(openings: seq<nat>, receipts: map<nat, Receipt>) {
    forall id :: id in openings ==> exists k :: k in receipts && receipts[k].wire == Some(id) && receipts[k].eligible
  }

  datatype Aspect = Aliases | Names | Consumed | Once | Aliased | Rightful | Flag

  ghost predicate Holds(s: State, aspect: Aspect) {
    match aspect
    case Aliases => AliasesMatch(s.aliases, s.receipts)
    case Names => ReceiptsNamed(s.aliases, s.receipts)
    case Consumed => OpeningsConsumed(s.openings, s.receipts)
    case Once => OpenedOnce(s.openTurns, s.openings)
    case Aliased => OpeningsAliased(s.openings, s.aliases)
    case Rightful => OpeningsEligible(s.openings, s.receipts)
    case Flag => (s.openTurns != [] ==> s.turnActive) && (s.turnActive && s.openTurns == [] ==> s.clearing > 0)
  }

  ghost predicate Inv(s: State) {
    forall aspect :: Holds(s, aspect)
  }

  lemma {:induction false} MinusIs(ids: seq<nat>, gone: seq<nat>)
    ensures forall id :: id in Minus(ids, gone) <==> id in ids && id !in gone
    ensures Distinct(ids) ==> Distinct(Minus(ids, gone))
  {
    if ids != [] {
      MinusIs(ids[1..], gone);
      assert ids == [ids[0]] + ids[1..];
      var rest := Minus(ids[1..], gone);
      if Distinct(ids) {
        assert Distinct(ids[1..]);
        assert forall i :: 0 <= i < |rest| ==> rest[i] in ids[1..];
      }
    }
  }

  /** Changing receipts without unconsuming or renaming any. */
  ghost predicate OnlyConsumes(before: map<nat, Receipt>, after: map<nat, Receipt>) {
    && before.Keys == after.Keys
    && forall k :: k in before ==>
         && after[k].wire == before[k].wire && after[k].eligible == before[k].eligible
         && (before[k].consumed ==> after[k].consumed)
  }

  lemma ConsumingKeeps(s: State, receipts: map<nat, Receipt>)
    requires Inv(s) && OnlyConsumes(s.receipts, receipts)
    ensures Inv(s.(receipts := receipts))
  {
    assert OpeningsEligible(s.openings, receipts) by {
      assert Holds(s, Rightful);
      forall id | id in s.openings
        ensures exists k :: k in receipts && receipts[k].wire == Some(id) && receipts[k].eligible
      {
        var k :| k in s.receipts && s.receipts[k].wire == Some(id) && s.receipts[k].eligible;
        assert k in receipts;
      }
    }
    forall aspect ensures Holds(s.(receipts := receipts), aspect) {
      assert Holds(s, aspect);
    }
  }

  lemma PlaceConsumes(s: State, turnId: Option<nat>)
    ensures OnlyConsumes(s.receipts, Place(s, turnId).receipts)
  {
  }

  lemma CloseTurnsKeeps(s: State, gone: seq<nat>)
    requires Inv(s)
    ensures Inv(CloseTurns(s, gone))
  {
    var t := CloseTurns(s, gone);
    MinusIs(s.openTurns, gone);
    forall aspect ensures Holds(t, aspect) {
      assert Holds(s, aspect);
    }
  }

  lemma ClearedKeeps(s: State)
    requires Inv(s)
    ensures Inv(Cleared(s))
  {
    forall aspect ensures Holds(Cleared(s), aspect) {
      assert Holds(s, aspect);
    }
  }

  /** A wire id opens at most once: it has one receipt, and opening needs that receipt's unused chance. */
  lemma OpeningIsNew(s: State, key: nat, to: Outcome)
    requires Inv(s) && key in s.receipts && Opens(s, s.receipts[key], to)
    ensures s.receipts[key].wire.value !in s.openings && s.receipts[key].wire.value !in s.openTurns
  {
    assert Holds(s, Consumed) && Holds(s, Once);
  }

  lemma TransitionKeeps(s: State, key: nat, to: Outcome)
    requires Inv(s)
    ensures Inv(Transition(s, key, to))
  {
    if key in s.receipts && Advances(s.receipts[key].state, to) {
      var r := s.receipts[key];
      var moved := s.receipts[key := r.(state := to, consumed := true)];
      ConsumingKeeps(s, moved);
      var t := s.(receipts := moved);
      if Opens(s, r, to) {
        OpeningIsNew(s, key, to);
        OpeningKeeps(t, key);
      } else if to == Failed(true) && r.wire.Some? && r.wire.value in s.openTurns {
        CloseTurnsKeeps(t, [r.wire.value]);
      }
    }
  }

  lemma OpeningKeeps(t: State, key: nat)
    requires Inv(t) && key in t.receipts && t.receipts[key].wire.Some? && t.receipts[key].consumed && t.receipts[key].eligible
    requires t.receipts[key].wire.value !in t.openings && t.receipts[key].wire.value !in t.openTurns
    ensures var id := t.receipts[key].wire.value;
            Inv(t.(openTurns := t.openTurns + [id], turnActive := true, openings := t.openings + [id]))
  {
    var id := t.receipts[key].wire.value;
    var u := t.(openTurns := t.openTurns + [id], turnActive := true, openings := t.openings + [id]);
    assert Holds(t, Aliases) && Holds(t, Names) && Holds(t, Once);
    assert OpenedOnce(u.openTurns, u.openings);
    assert OpeningsConsumed(u.openings, u.receipts) by {
      assert Holds(t, Consumed);
      forall k | k in u.receipts && u.receipts[k].wire == Some(id) ensures u.receipts[k].consumed {
        SameReceipt(t, k, key);
      }
    }
    assert OpeningsAliased(u.openings, u.aliases) by {
      assert Holds(t, Aliased);
      var i :| 0 <= i < |t.aliases| && t.aliases[i] == (id, key);
      assert t.aliases[i].0 == id;
    }
    assert OpeningsEligible(u.openings, u.receipts) by {
      assert Holds(t, Rightful);
      assert u.receipts[key].wire == Some(id);
    }
    forall aspect ensures Holds(u, aspect) {
      if aspect == Aliases || aspect == Names {
        assert Holds(t, aspect);
      }
    }
  }

  lemma SameReceipt(s: State, k: nat, key: nat)
    requires Inv(s) && k in s.receipts && key in s.receipts && s.receipts[k].wire.Some?
    requires s.receipts[k].wire == s.receipts[key].wire
    ensures k == key
  {
    assert Holds(s, Aliases) && Holds(s, Names);
    var id := s.receipts[k].wire.value;
    var i :| 0 <= i < |s.aliases| && s.aliases[i] == (id, k);
    var j :| 0 <= j < |s.aliases| && s.aliases[j] == (id, key);
    assert i < j ==> s.aliases[i].0 != s.aliases[j].0;
    assert j < i ==> s.aliases[j].0 != s.aliases[i].0;
  }

  lemma OthersStayEligible(s: State, key: nat, receipt: Receipt)
    requires Holds(s, Rightful) && (key in s.receipts ==> s.receipts[key].wire.None?)
    ensures OpeningsEligible(s.openings, s.receipts[key := receipt])
  {
    var receipts := s.receipts[key := receipt];
    forall id | id in s.openings
      ensures exists k :: k in receipts && receipts[k].wire == Some(id) && receipts[k].eligible
    {
      var k :| k in s.receipts && s.receipts[k].wire == Some(id) && s.receipts[k].eligible;
      assert receipts[k] == s.receipts[k];
    }
  }

  lemma RegisterKeeps(s: State, key: nat, wire: nat, receipt: Receipt)
    requires Inv(s) && FreshWire(s, wire) && receipt.wire == Some(wire)
    requires key in s.receipts ==> s.receipts[key].wire.None?
    ensures Inv(s.(receipts := s.receipts[key := receipt], aliases := s.aliases + [(wire, key)]))
  {
    var t := s.(receipts := s.receipts[key := receipt], aliases := s.aliases + [(wire, key)]);
    assert Holds(s, Aliases) && Holds(s, Aliased);
    assert wire !in s.openings;
    assert OpeningsAliased(t.openings, t.aliases) by {
      forall id | id in t.openings ensures exists i :: 0 <= i < |t.aliases| && t.aliases[i].0 == id {
        var i :| 0 <= i < |s.aliases| && s.aliases[i].0 == id;
        assert t.aliases[i].0 == id;
      }
    }
    assert ReceiptsNamed(t.aliases, t.receipts) by {
      assert Holds(s, Names);
      assert t.aliases[|s.aliases|] == (wire, key);
      forall k | k in t.receipts && t.receipts[k].wire.Some? ensures (t.receipts[k].wire.value, k) in t.aliases {
        if k != key {
          assert (s.receipts[k].wire.value, k) in s.aliases;
        }
      }
    }
    assert AliasesMatch(t.aliases, t.receipts);
    OthersStayEligible(s, key, receipt);
    forall aspect ensures Holds(t, aspect) {
      assert Holds(s, aspect);
    }
  }

  lemma StepKeepsInv(s: State, step: Step)
    requires Inv(s) && Legal(s, step)
    ensures Inv(Apply(s, step))
  {
    match step
    case Register(key, wire, eligible) => RegisterKeeps(s, key, wire, Receipt(Some(wire), eligible, false, Queued));
    case RegisterHeld(key) => RegisterHeldKeeps(s, key);
    case Attach(key, wire) => RegisterKeeps(s, key, wire, s.receipts[key].(wire := Some(wire)));
    case Move(key, to) => TransitionKeeps(s, key, to);
    case SettleBegin(turnId) =>
      PlaceConsumes(s, turnId);
      ConsumingKeeps(s, Place(s, turnId).receipts);
    case SettleEnd(prefix) => CloseTurnsKeeps(s, prefix);
    case StopAll => ConsumingKeeps(s, ConsumeAll(s.receipts));
    case RawUp => FlagsKeep(s, Apply(s, step));
    case RawDown(advanced) =>
      ConsumingKeeps(s, ConsumeAdvanced(s.receipts, advanced));
      FlagsKeep(s, s.(raw := false));
      var t := s.(receipts := ConsumeAdvanced(s.receipts, advanced));
      FlagsKeep(t, t.(raw := false));
      ClearedKeeps(t.(raw := false));
    case ClearNow => ClearedKeeps(s);
    case Die =>
      FlagsKeep(s, s.(terminal := true));
      ClearedKeeps(s.(terminal := true));
    case CloseBegin => FlagsKeep(s, Apply(s, step));
    case CloseEnd => FlagsKeep(s, Apply(s, step));
    case Reopen => FlagsKeep(s, Apply(s, step));
  }

  /** Steps that touch neither receipts nor aliases nor the history, and at most empty the open turns. */
  lemma FlagsKeep(s: State, t: State)
    requires Inv(s)
    requires t.aliases == s.aliases && t.receipts == s.receipts && t.openings == s.openings
    requires t.openTurns == s.openTurns || t.openTurns == []
    requires Holds(s, Flag) ==> Holds(t, Flag)
    ensures Inv(t)
  {
    forall aspect ensures Holds(t, aspect) {
      assert Holds(s, aspect);
    }
  }

  lemma RegisterHeldKeeps(s: State, key: nat)
    requires Inv(s) && key !in s.receipts
    ensures Inv(Apply(s, RegisterHeld(key)))
  {
    var t := Apply(s, RegisterHeld(key));
    assert Holds(s, Rightful);
    OthersStayEligible(s, key, Receipt(None, true, false, Queued));
    forall aspect ensures Holds(t, aspect) {
      assert Holds(s, aspect);
    }
  }

  lemma {:induction false} RunKeepsInv(steps: seq<Step>)
    requires LegalRun(steps)
    ensures Inv(Run(steps))
  {
    if steps == [] {
      forall aspect ensures Holds(INITIAL, aspect) {
      }
    } else {
      RunKeepsInv(steps[..|steps| - 1]);
      StepKeepsInv(Run(steps[..|steps| - 1]), steps[|steps| - 1]);
    }
  }

  // ---------------------------------------------------------------------------
  // What holds of every run
  // ---------------------------------------------------------------------------

  /** The flag is up exactly while a turn is open. */
  predicate Exact(s: State) {
    s.turnActive <==> s.openTurns != []
  }

  /** Unless a `close()` still owes the flip, the flag is exact; a turn that is open always shows. */
  lemma FlagIsExact(steps: seq<Step>)
    requires LegalRun(steps)
    ensures Run(steps).openTurns != [] ==> Run(steps).turnActive
    ensures Run(steps).clearing == 0 ==> Exact(Run(steps))
  {
    RunKeepsInv(steps);
    assert Holds(Run(steps), Flag);
  }

  /** While no flip is owed, the one step that leaves the flag behind is a `close()` that finds turns open. */
  lemma OnlyCloseLags(steps: seq<Step>, step: Step)
    requires LegalRun(steps) && Legal(Run(steps), step) && Run(steps).clearing == 0
    ensures !Exact(Apply(Run(steps), step)) <==> step.CloseBegin? && Run(steps).openTurns != []
  {
    RunKeepsInv(steps);
    StepKeepsInv(Run(steps), step);
    assert Holds(Run(steps), Flag) && Holds(Apply(Run(steps), step), Flag);
  }

  lemma Next(steps: seq<Step>, step: Step) returns (more: seq<Step>)
    requires LegalRun(steps) && Legal(Run(steps), step)
    ensures LegalRun(more) && Run(more) == Apply(Run(steps), step)
  {
    more := steps + [step];
    assert more[..|steps|] == steps;
  }

  lemma OneTurnOpen() returns (steps: seq<Step>)
    ensures LegalRun(steps) && Run(steps).turnActive && Run(steps).openTurns == [0] && Run(steps).clearing == 0
  {
    steps := Next([], Register(0, 0, true));
    steps := Next(steps, RawUp);
    steps := Next(steps, Move(0, Sent));
  }

  /** A run that shows it: the flag is up and no turn is open, until the second half of the close. */
  lemma FlagLags() returns (steps: seq<Step>)
    ensures LegalRun(steps) && Run(steps).turnActive && Run(steps).openTurns == []
    ensures Exact(Apply(Run(steps), CloseEnd))
  {
    steps := OneTurnOpen();
    steps := Next(steps, CloseBegin);
  }

  /** Each wire id enters the open turns at most once in a whole run. */
  lemma OpensAtMostOnce(steps: seq<Step>)
    requires LegalRun(steps)
    ensures Distinct(Run(steps).openings)
    ensures forall id :: id in Run(steps).openTurns ==> id in Run(steps).openings
  {
    RunKeepsInv(steps);
    assert Holds(Run(steps), Once);
  }

  // ---------------------------------------------------------------------------
  // What a settle does
  // ---------------------------------------------------------------------------

  lemma {:induction false} ThroughIsPrefix(ids: seq<nat>, i: nat)
    requires i < |ids| && Distinct(ids)
    ensures Through(ids, ids[i]) == ids[..i + 1]
    decreases i
  {
    if i > 0 {
      assert ids[0] != ids[i];
      ThroughIsPrefix(ids[1..], i - 1);
      assert ids[..i + 1] == [ids[0]] + ids[1..][..i];
    }
  }

  lemma {:induction false} MinusPrefix(ids: seq<nat>, i: nat)
    requires i <= |ids| && Distinct(ids)
    ensures Minus(ids, ids[..i]) == ids[i..]
  {
    MinusKeepsTail(ids, ids[..i], i);
  }

  lemma {:induction false} MinusKeepsTail(ids: seq<nat>, gone: seq<nat>, i: nat)
    requires i <= |ids| && forall j :: 0 <= j < |ids| ==> (ids[j] in gone <==> j < i)
    ensures Minus(ids, gone) == ids[i..]
    decreases ids
  {
    if ids != [] {
      var rest := ids[1..];
      assert forall j :: 0 <= j < |rest| ==> rest[j] == ids[j + 1];
      if i > 0 {
        MinusKeepsTail(rest, gone, i - 1);
      } else {
        MinusKeepsTail(rest, gone, 0);
      }
    }
  }

  lemma {:induction false} KeyOfAlias(aliases: seq<(nat, nat)>, i: nat)
    requires i < |aliases| && forall j, k :: 0 <= j < k < |aliases| ==> aliases[j].0 != aliases[k].0
    ensures KeyOf(aliases, aliases[i].0) == Some(aliases[i].1)
  {
    if i > 0 {
      assert aliases[0].0 != aliases[i].0;
      KeyOfAlias(aliases[1..], i - 1);
    }
  }

  /** The alias map finds the one receipt that carries the wire id. */
  lemma KeyOfReceipt(s: State, key: nat)
    requires Inv(s) && key in s.receipts && s.receipts[key].wire.Some?
    ensures KeyOf(s.aliases, s.receipts[key].wire.value) == Some(key)
  {
    assert Holds(s, Aliases) && Holds(s, Names);
    var i :| 0 <= i < |s.aliases| && s.aliases[i] == (s.receipts[key].wire.value, key);
    KeyOfAlias(s.aliases, i);
  }

  /** Whoever once opened is known, eligible, and has used up the chance. */
  lemma OpenedIsKnown(s: State, id: nat) returns (key: nat)
    requires Inv(s) && id in s.openings
    ensures KeyOf(s.aliases, id) == Some(key) && key in s.receipts && s.receipts[key].eligible && s.receipts[key].consumed
  {
    assert Holds(s, Rightful) && Holds(s, Consumed);
    key :| key in s.receipts && s.receipts[key].wire == Some(id) && s.receipts[key].eligible;
    KeyOfReceipt(s, key);
  }

  /** A whole settle that nothing interrupts: the openings, then the frozen prefix. */
  function Settled(s: State, id: nat): State {
    var place := Place(s, Some(id));
    var t := s.(receipts := place.receipts);
    if place.prefix.Some? then CloseTurns(t, place.prefix.value) else t
  }

  /** In every run, a settle of an open turn closes it and the turns opened before it, and no other. */
  lemma SettleOpenTurn(steps: seq<Step>, i: nat)
    requires LegalRun(steps) && i < |Run(steps).openTurns|
    ensures var s := Run(steps);
            && Place(s, Some(s.openTurns[i])) == Placement(s.receipts, Some(s.openTurns[..i + 1]))
            && Settled(s, s.openTurns[i]).openTurns == s.openTurns[i + 1..]
            && (s.clearing == 0 ==> Exact(Settled(s, s.openTurns[i])))
  {
    var s := Run(steps);
    RunKeepsInv(steps);
    assert Holds(s, Once) && Holds(s, Flag);
    var key := OpenedIsKnown(s, s.openTurns[i]);
    ThroughIsPrefix(s.openTurns, i);
    MinusPrefix(s.openTurns, i + 1);
  }

  /** What callouts between the two halves do, the second half removes exactly the frozen prefix, and keeps the order. */
  lemma SettleEndsExactly(steps: seq<Step>, prefix: seq<nat>, id: nat)
    requires LegalRun(steps)
    ensures var t := Apply(Run(steps), SettleEnd(prefix));
            && (id in t.openTurns <==> id in Run(steps).openTurns && id !in prefix)
            && t.receipts == Run(steps).receipts
  {
    MinusIs(Run(steps).openTurns, prefix);
  }

  /** Nobody registered the wire id here. */
  ghost predicate Foreign(steps: seq<Step>, id: nat) {
    forall j :: 0 <= j < |steps| ==>
      (steps[j].Register? || steps[j].Attach?) ==> steps[j].wire != id
  }

  ghost predicate ControlLane(steps: seq<Step>, id: nat) {
    exists j :: 0 <= j < |steps| && steps[j].Register? && steps[j].wire == id && !steps[j].eligible
  }

  /** An earlier settle took effect for it, or it opened and was closed since. */
  ghost predicate Over(steps: seq<Step>, id: nat) {
    || id in Run(steps).openings
    || exists j :: 0 <= j < |steps| && steps[j] == SettleBegin(Some(id)) && Place(Run(steps[..j]), Some(id)).prefix.Some?
  }

  lemma AliasesGrow(s: State, step: Step)
    requires Legal(s, step)
    ensures Apply(s, step).aliases
         == if step.Register? || step.Attach? then s.aliases + [(step.wire, step.key)] else s.aliases
  {
  }

  lemma {:induction false} ForeignIsUnknown(steps: seq<Step>, id: nat)
    requires LegalRun(steps) && Foreign(steps, id)
    ensures KeyOf(Run(steps).aliases, id).None?
  {
    if steps != [] {
      var init, step := steps[..|steps| - 1], steps[|steps| - 1];
      ForeignIsUnknown(init, id);
      AliasesGrow(Run(init), step);
      if step.Register? || step.Attach? {
        KeyOfSnoc(Run(init).aliases, (step.wire, step.key), id);
      }
    }
  }

  lemma {:induction false} KeyOfSnoc(aliases: seq<(nat, nat)>, a: (nat, nat), id: nat)
    ensures KeyOf(aliases + [a], id)
         == if KeyOf(aliases, id).Some? then KeyOf(aliases, id) else if a.0 == id then Some(a.1) else None
  {
    if aliases == [] {
      assert [a][1..] == [];
    } else {
      assert (aliases + [a])[1..] == aliases[1..] + [a];
      KeyOfSnoc(aliases[1..], a, id);
    }
  }

  lemma {:induction false} ControlStaysControl(steps: seq<Step>, j: nat)
    requires LegalRun(steps) && j < |steps| && steps[j].Register? && !steps[j].eligible
    ensures var s := Run(steps);
            steps[j].key in s.receipts && s.receipts[steps[j].key].wire == Some(steps[j].wire) && !s.receipts[steps[j].key].eligible
  {
    var init := steps[..|steps| - 1];
    if j < |init| {
      ControlStaysControl(init, j);
      StaysNamed(Run(init), steps[|steps| - 1], steps[j].key);
    }
  }

  /** No step renames a receipt, changes its lane, or gives a chance back. */
  lemma StaysNamed(s: State, step: Step, key: nat)
    requires Legal(s, step) && key in s.receipts && s.receipts[key].wire.Some?
    ensures var t := Apply(s, step);
            && key in t.receipts && t.receipts[key].wire == s.receipts[key].wire
            && t.receipts[key].eligible == s.receipts[key].eligible && (s.receipts[key].consumed ==> t.receipts[key].consumed)
  {
    match step
    case Move(k, to) => TransitionConsumes(s, k, to);
    case SettleBegin(turnId) => PlaceConsumes(s, turnId);
    case _ =>
  }

  lemma TransitionConsumes(s: State, key: nat, to: Outcome)
    ensures OnlyConsumes(s.receipts, Transition(s, key, to).receipts)
  {
  }

  lemma {:induction false} SettledStaysConsumed(steps: seq<Step>, j: nat, id: nat) returns (key: nat)
    requires LegalRun(steps) && j < |steps|
    requires steps[j] == SettleBegin(Some(id)) && Place(Run(steps[..j]), Some(id)).prefix.Some?
    ensures var s := Run(steps);
            key in s.receipts && s.receipts[key].wire == Some(id) && s.receipts[key].consumed
  {
    var init, step := steps[..|steps| - 1], steps[|steps| - 1];
    RunKeepsInv(init);
    if j < |init| {
      assert init[..j] == steps[..j];
      key := SettledStaysConsumed(init, j, id);
      StaysNamed(Run(init), step, key);
    } else {
      key := KeyOf(Run(init).aliases, id).value;
      assert Holds(Run(init), Aliases);
      KeyIsAlias(Run(init).aliases, id);
      SettledCannotOpen(Run(init), id, key);
    }
  }

  /** In every run: a settle for a turn of another device, of the control lane, or already over, changes nothing at all. */
  lemma SettleElsewhere(steps: seq<Step>, id: nat)
    requires LegalRun(steps) && id !in Run(steps).openTurns
    requires Foreign(steps, id) || ControlLane(steps, id) || Over(steps, id)
    ensures Settled(Run(steps), id) == Run(steps)
  {
    var s := Run(steps);
    RunKeepsInv(steps);
    if Foreign(steps, id) {
      ForeignIsUnknown(steps, id);
    } else if ControlLane(steps, id) {
      var j :| 0 <= j < |steps| && steps[j].Register? && steps[j].wire == id && !steps[j].eligible;
      ControlStaysControl(steps, j);
      KeyOfReceipt(s, steps[j].key);
    } else if id in s.openings {
      var key := OpenedIsKnown(s, id);
    } else {
      var j :| 0 <= j < |steps| && steps[j] == SettleBegin(Some(id)) && Place(Run(steps[..j]), Some(id)).prefix.Some?;
      var key := SettledStaysConsumed(steps, j, id);
      KeyOfReceipt(s, key);
    }
  }

  /** After a settle that came before its turn's publish was reported, that report can no longer open it. */
  lemma SettledCannotOpen(s: State, id: nat, key: nat)
    requires Inv(s) && Place(s, Some(id)).prefix.Some? && KeyOf(s.aliases, id) == Some(key)
    ensures key in Place(s, Some(id)).receipts && Place(s, Some(id)).receipts[key].consumed
  {
    assert Holds(s, Aliases) && Holds(s, Consumed) && Holds(s, Once);
    KeyIsAlias(s.aliases, id);
    if id !in s.openTurns {
      var i := LastOfPrefix(s.aliases, id);
    }
  }

  lemma {:induction false} KeyIsAlias(aliases: seq<(nat, nat)>, id: nat)
    requires KeyOf(aliases, id).Some?
    ensures exists i :: 0 <= i < |aliases| && aliases[i].0 == id && aliases[i].1 == KeyOf(aliases, id).value
  {
    if aliases[0].0 == id {
      assert aliases[0].1 == KeyOf(aliases, id).value;
    } else {
      var rest := aliases[1..];
      KeyIsAlias(rest, id);
      var i :| 0 <= i < |rest| && rest[i].0 == id && rest[i].1 == KeyOf(rest, id).value;
      assert aliases[i + 1] == rest[i];
    }
  }

  lemma {:induction false} LastOfPrefix(aliases: seq<(nat, nat)>, id: nat) returns (i: nat)
    requires KeyOf(aliases, id).Some?
    ensures i < |AliasesThrough(aliases, id)| && AliasesThrough(aliases, id)[i].1 == KeyOf(aliases, id).value
  {
    i := 0;
    if aliases[0].0 != id {
      i := LastOfPrefix(aliases[1..], id);
      i := i + 1;
    }
  }

  /** A consumed receipt never opens, and never becomes unconsumed. */
  lemma ConsumedStays(s: State, step: Step, key: nat)
    requires Inv(s) && Legal(s, step) && key in s.receipts && s.receipts[key].consumed && s.receipts[key].wire.Some?
    ensures var t := Apply(s, step);
            && key in t.receipts && t.receipts[key].consumed && t.receipts[key].wire == s.receipts[key].wire
            && (s.receipts[key].wire.value !in s.openings ==> s.receipts[key].wire.value !in t.openings)
  {
    match step
    case Move(k, to) =>
      if k in s.receipts && Advances(s.receipts[k].state, to) && Opens(s, s.receipts[k], to)
        && s.receipts[k].wire == s.receipts[key].wire
      {
        SameReceipt(s, k, key);
      }
    case _ =>
  }

  // ---------------------------------------------------------------------------
  // What opens a turn, and what closes one without a settle
  // ---------------------------------------------------------------------------

  /** Between the j-th and the m-th step nothing used up the receipt's chance. */
  ghost predicate LeftAlone(steps: seq<Step>, j: nat, m: nat, key: nat) {
    forall i :: j < i < m && i < |steps| ==>
      !(steps[i].Move? && steps[i].key == key) && !steps[i].SettleBegin? && !steps[i].StopAll? && !steps[i].RawDown?
  }

  lemma StaysUnused(s: State, step: Step, key: nat)
    requires Legal(s, step) && key in s.receipts && s.receipts[key].wire.Some?
    requires !(step.Move? && step.key == key) && !step.SettleBegin? && !step.StopAll? && !step.RawDown?
    ensures key in Apply(s, step).receipts && Apply(s, step).receipts[key] == s.receipts[key]
  {
  }

  lemma {:induction false} StillUnused(steps: seq<Step>, j: nat)
    requires LegalRun(steps) && j < |steps| && steps[j].Register? && LeftAlone(steps, j, |steps|, steps[j].key)
    ensures var s := Run(steps);
            steps[j].key in s.receipts
            && s.receipts[steps[j].key] == Receipt(Some(steps[j].wire), steps[j].eligible, false, Queued)
  {
    var init := steps[..|steps| - 1];
    if j < |init| {
      assert forall i :: 0 <= i < |init| ==> init[i] == steps[i];
      StillUnused(init, j);
      StaysUnused(Run(init), steps[|steps| - 1], steps[j].key);
    }
  }

  /**
   * In every run the first report that a send was published opens its turn, behind the turns already open, exactly if
   * the send takes part in settlement, the transport is up, and the client is neither terminal nor closed.
   */
  lemma ReportOpens(steps: seq<Step>, key: nat, wire: nat, eligible: bool, to: Outcome)
    requires LegalRun(steps) && (to == Sent || to == Accepted)
    requires key in Run(steps).receipts && Run(steps).receipts[key] == Receipt(Some(wire), eligible, false, Queued)
    ensures var s, t := Run(steps), Apply(Run(steps), Move(key, to));
            if eligible && s.raw && !s.terminal && !s.closed then t.openTurns == s.openTurns + [wire] && t.turnActive
            else t.openTurns == s.openTurns && t.turnActive == s.turnActive
  {
    RunKeepsInv(steps);
    assert Holds(Run(steps), Consumed) && Holds(Run(steps), Once);
  }

  /** The same for a send that nothing has touched since it was registered. */
  lemma FirstReportOpens(steps: seq<Step>, j: nat, to: Outcome)
    requires LegalRun(steps) && j < |steps| && steps[j].Register? && LeftAlone(steps, j, |steps|, steps[j].key)
    requires to == Sent || to == Accepted
    ensures var s, t := Run(steps), Apply(Run(steps), Move(steps[j].key, to));
            if steps[j].eligible && s.raw && !s.terminal && !s.closed
            then t.openTurns == s.openTurns + [steps[j].wire] && t.turnActive
            else t.openTurns == s.openTurns && t.turnActive == s.turnActive
  {
    StillUnused(steps, j);
    ReportOpens(steps, steps[j].key, steps[j].wire, steps[j].eligible, to);
  }

  /** A report of failure closes an open turn exactly if it is an overload rejection, and no other turn with it. */
  lemma OverloadCloses(steps: seq<Step>, key: nat, overloaded: bool, id: nat)
    requires LegalRun(steps)
    requires var s := Run(steps);
             key in s.receipts && s.receipts[key].wire.Some? && !s.receipts[key].state.Failed? && !s.receipts[key].state.Completed?
    ensures var s, t := Run(steps), Apply(Run(steps), Move(key, Failed(overloaded)));
            id in t.openTurns <==> id in s.openTurns && !(overloaded && s.receipts[key].wire == Some(id))
  {
    hide Run, LegalRun;
    var s := Run(steps);
    MinusIs(s.openTurns, [s.receipts[key].wire.value]);
  }

  /** A loss of the transport, a terminal failure and a close leave no turn open. */
  lemma LossEndsTurns(s: State, step: Step)
    requires step.Die? || step.CloseBegin? || step.ClearNow? || (step.RawDown? && !s.terminal)
    ensures Apply(s, step).openTurns == []
  {
  }

  /** A closed client opens again; a terminal one does not. */
  lemma ReopensUnlessTerminal(s: State)
    ensures var t := Apply(Apply(s, CloseBegin), Reopen); t.closed <==> s.terminal
  {
  }

  /** An explicit stop, and the loss of the transport behind an outcome that has advanced. */
  predicate Forfeits(s: State, step: Step, wire: nat) {
    step.StopAll? || (step.RawDown? && !s.terminal && wire in step.advanced)
  }

  /** A send that exists at an explicit stop, or had advanced when the transport was lost, never opens its turn later. */
  lemma {:induction false} ForfeitNeverOpens(steps: seq<Step>, j: nat, key: nat)
    requires LegalRun(steps) && j < |steps|
    requires var s := Run(steps[..j]);
             key in s.receipts && s.receipts[key].eligible && s.receipts[key].wire.Some?
             && s.receipts[key].wire.value !in s.openings && Forfeits(s, steps[j], s.receipts[key].wire.value)
    ensures var s, t := Run(steps[..j]), Run(steps);
            key in t.receipts && t.receipts[key].wire == s.receipts[key].wire && t.receipts[key].consumed
            && s.receipts[key].wire.value !in t.openings
  {
    var init, step := steps[..|steps| - 1], steps[|steps| - 1];
    if j < |init| {
      assert init[..j] == steps[..j];
      ForfeitNeverOpens(init, j, key);
      RunKeepsInv(init);
      ConsumedStays(Run(init), step, key);
    } else {
      ForfeitConsumes(Run(init), step, key);
    }
  }

  lemma ForfeitConsumes(s: State, step: Step, key: nat)
    requires key in s.receipts && s.receipts[key].eligible && s.receipts[key].wire.Some?
    requires Forfeits(s, step, s.receipts[key].wire.value)
    ensures var t := Apply(s, step);
            key in t.receipts && t.receipts[key] == s.receipts[key].(consumed := true) && t.openings == s.openings
  {
  }

  /** Where a wire id stands in the publish order. */
  predicate AliasAt(s: State, i: nat, id: nat, key: nat) {
    i < |s.aliases| && s.aliases[i] == (id, key)
  }

  lemma {:induction false} PassedAliases(aliases: seq<(nat, nat)>, q: nat)
    requires q < |aliases| && forall i, j :: 0 <= i < j < |aliases| ==> aliases[i].0 != aliases[j].0
    ensures AliasesThrough(aliases, aliases[q].0) == aliases[..q + 1]
    decreases q
  {
    if q > 0 {
      var rest := aliases[1..];
      assert aliases[0].0 != aliases[q].0;
      PassedAliases(rest, q - 1);
      assert aliases[..q + 1] == [aliases[0]] + rest[..q];
    }
  }

  predicate HasId(aliases: seq<(nat, nat)>, id: nat) {
    exists i :: 0 <= i < |aliases| && aliases[i].0 == id
  }

  predicate HasKey(aliases: seq<(nat, nat)>, key: nat) {
    exists i :: 0 <= i < |aliases| && aliases[i].1 == key
  }

  lemma {:induction false} OpenAmongIs(aliases: seq<(nat, nat)>, open: seq<nat>, id: nat)
    ensures id in OpenAmong(aliases, open) <==> id in open && HasId(aliases, id)
  {
    if aliases != [] {
      var rest := aliases[1..];
      OpenAmongIs(rest, open, id);
      assert forall i :: 0 <= i < |rest| ==> rest[i] == aliases[i + 1];
      if i :| 0 <= i < |aliases| && aliases[i].0 == id && i > 0 {
        assert rest[i - 1].0 == id;
      }
    }
  }

  lemma RacedPlace(s: State, q: nat, id: nat, key: nat)
    requires Inv(s) && AliasAt(s, q, id, key) && key in s.receipts
    requires s.receipts[key].eligible && !s.receipts[key].consumed && id !in s.openTurns
    ensures Place(s, Some(id)) ==
              Placement(ConsumeAliases(s.receipts, s.aliases[..q + 1]), Some(OpenAmong(s.aliases[..q + 1], s.openTurns)))
  {
    assert Holds(s, Aliases);
    KeyOfAlias(s.aliases, q);
    PassedAliases(s.aliases, q);
  }

  lemma PassedIffBefore(aliases: seq<(nat, nat)>, q: nat, p: nat)
    requires q < |aliases| && p < |aliases| && forall i, j :: 0 <= i < j < |aliases| ==> aliases[i].0 != aliases[j].0
    ensures HasId(aliases[..q + 1], aliases[p].0) <==> p <= q
  {
    var passed := aliases[..q + 1];
    if p <= q {
      assert passed[p] == aliases[p];
    }
    assert forall i :: 0 <= i < |passed| ==> passed[i] == aliases[i];
  }

  /** A settle that raced its turn's first report closes, of the open turns, exactly those published before it. */
  lemma RacedSettleCloses(steps: seq<Step>, q: nat, id: nat, key: nat, p: nat, other: nat, otherKey: nat)
    requires LegalRun(steps) && AliasAt(Run(steps), q, id, key) && AliasAt(Run(steps), p, other, otherKey)
    requires var s := Run(steps);
             key in s.receipts && s.receipts[key].eligible && !s.receipts[key].consumed && id !in s.openTurns
    ensures other in Settled(Run(steps), id).openTurns <==> other in Run(steps).openTurns && p > q
  {
    var s := Run(steps);
    RunKeepsInv(steps);
    assert Holds(s, Aliases);
    RacedPlace(s, q, id, key);
    PassedIffBefore(s.aliases, q, p);
    var gone := OpenAmong(s.aliases[..q + 1], s.openTurns);
    OpenAmongIs(s.aliases[..q + 1], s.openTurns, other);
    MinusIs(s.openTurns, gone);
  }

  /** It uses up the chance of every eligible send published up to it, and of no later one. */
  lemma RacedSettleConsumes(steps: seq<Step>, q: nat, id: nat, key: nat, p: nat, other: nat, otherKey: nat)
    requires LegalRun(steps) && AliasAt(Run(steps), q, id, key) && AliasAt(Run(steps), p, other, otherKey)
    requires var s := Run(steps);
             key in s.receipts && s.receipts[key].eligible && !s.receipts[key].consumed && id !in s.openTurns
    ensures var s, t := Run(steps), Settled(Run(steps), id);
            && otherKey in s.receipts && otherKey in t.receipts
            && t.receipts[otherKey] == (if p <= q && s.receipts[otherKey].eligible
                                        then s.receipts[otherKey].(consumed := true) else s.receipts[otherKey])
  {
    var s := Run(steps);
    RunKeepsInv(steps);
    assert Holds(s, Aliases);
    RacedPlace(s, q, id, key);
    PassedKey(s.aliases, s.receipts, q, p);
  }

  lemma PassedKey(aliases: seq<(nat, nat)>, receipts: map<nat, Receipt>, q: nat, p: nat)
    requires q < |aliases| && p < |aliases| && AliasesMatch(aliases, receipts)
    ensures HasKey(aliases[..q + 1], aliases[p].1) <==> p <= q
  {
    var passed := aliases[..q + 1];
    if p <= q {
      assert passed[p] == aliases[p];
    }
    if i :| 0 <= i < |passed| && passed[i].1 == aliases[p].1 {
      assert passed[i] == aliases[i];
      assert aliases[i].0 == aliases[p].0;
    }
  }

  /** A receipt's outcome only moves forward, and completion and failure are final. */
  lemma OutcomesOnlyAdvance(s: State, step: Step, key: nat)
    requires Legal(s, step) && key in s.receipts
    ensures key in Apply(s, step).receipts
    ensures var before, now := s.receipts[key].state, Apply(s, step).receipts[key].state;
            now == before || (!before.Failed? && !before.Completed? && before.Rank() < now.Rank())
  {
    match step
    case SettleBegin(turnId) =>
    case _ =>
  }
}
