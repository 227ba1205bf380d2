/** The wrapper's open-turn helpers, as they change its set, receipts and flag. */
module TurnTracker {
  import opened Options
  import opened TurnTracking

  class Tracker {
    /** A `Set` in insertion order. */
    var openTurns: seq<nat>

    /** A `Map` in insertion order: wire id to receipt key. */
    var wireIdToReceiptKey: seq<(nat, nat)>
    var receipts: map<nat, Receipt>
    var turnActive: bool
    var rawTransportConnected: bool
    var terminal: bool
    var closed: bool

    ghost var clearing: nat
    ghost var openings: seq<nat>

    ghost function View(): State
      reads this
    {
      State(wireIdToReceiptKey, receipts, openTurns, turnActive, rawTransportConnected, terminal, closed, clearing, openings)
    }

    ghost predicate Valid()
      reads this
    {
      Inv(View())
    }

    constructor ()
      ensures Valid() && View() == INITIAL
    {
      openTurns, wireIdToReceiptKey, receipts := [], [], map[];
      turnActive, rawTransportConnected, terminal, closed := false, false, false, false;
      clearing, openings := 0, [];
      new;
      RunKeepsInv([]);
      assert View() == Run([]);
    }

    twostate predicate Did(step: Step)
      reads this
    {
      Valid() && View() == Apply(old(View()), step)
    }

    /** `publish()`: receipt and alias before the low level can report anything. */
    method Register(key: nat, wire: nat, eligible: bool)
      requires Valid() && Legal(View(), Step.Register(key, wire, eligible))
      modifies this
      ensures Did(Step.Register(key, wire, eligible))
    {
      StepKeepsInv(View(), Step.Register(key, wire, eligible));
      wireIdToReceiptKey := wireIdToReceiptKey + [(wire, key)];
      receipts := receipts[key := Receipt(Some(wire), eligible, false, Queued)];
    }

    method RegisterHeld(key: nat)
      requires Valid() && Legal(View(), Step.RegisterHeld(key))
      modifies this
      ensures Did(Step.RegisterHeld(key))
    {
      StepKeepsInv(View(), Step.RegisterHeld(key));
      receipts := receipts[key := Receipt(None, true, false, Queued)];
    }

    /** A released send gets its wire id. */
    method Attach(key: nat, wire: nat)
      requires Valid() && Legal(View(), Step.Attach(key, wire))
      modifies this
      ensures Did(Step.Attach(key, wire))
    {
      StepKeepsInv(View(), Step.Attach(key, wire));
      wireIdToReceiptKey := wireIdToReceiptKey + [(wire, key)];
      receipts := receipts[key := receipts[key].(wire := Some(wire))];
    }

    method ReceiptTransition(key: nat, to: Outcome)
      requires Valid()
      modifies this
      ensures Did(Move(key, to))
    {
      StepKeepsInv(View(), Move(key, to));
      if key !in receipts || !Advances(receipts[key].state, to) {
        return;
      }
      var turnOpened := RecordOutcome(key, to);
      var turnClosed := false;
      if to == Failed(true) {
        turnClosed := CloseTurn(receipts[key].wire);
      }
      if turnOpened {
        turnActive := true;
      } else if turnClosed {
        turnActive := false;
      }
    }

    /** The receipt's new state, and the opening it may make. */
    method RecordOutcome(key: nat, to: Outcome) returns (flip: bool)
      requires key in receipts && Advances(receipts[key].state, to)
      modifies `receipts, `openTurns, `openings
      ensures var r := old(receipts[key]);
              && receipts == old(receipts)[key := r.(state := to, consumed := true)]
              && flip == (old(Opens(View(), r, to)) && !turnActive)
              && openings == (if old(Opens(View(), r, to)) then old(openings) + [r.wire.value] else old(openings))
              && openTurns == (if old(Opens(View(), r, to)) && r.wire.value !in old(openTurns)
                               then old(openTurns) + [r.wire.value] else old(openTurns))
    {
      ghost var before := receipts;
      receipts := receipts[key := receipts[key].(state := to, consumed := receipts[key].consumed || to.Failed? || to.Completed?)];
      flip := OpenTurnFromReceipt(key, to);
      assert receipts == before[key := before[key].(state := to, consumed := true)];
    }

    /** Consumes the receipt's chance; says whether the flag must go up. */
    method OpenTurnFromReceipt(key: nat, to: Outcome) returns (flip: bool)
      requires key in receipts
      modifies `receipts, `openTurns, `openings
      ensures var r := old(receipts[key]);
              var reported := to == Sent || to == Accepted;
              && receipts == old(receipts)[key := r.(consumed := r.consumed || reported)]
              && flip == (old(Opens(View(), r, to)) && !turnActive)
              && openings == (if old(Opens(View(), r, to)) then old(openings) + [r.wire.value] else old(openings))
              && openTurns == (if old(Opens(View(), r, to)) && r.wire.value !in old(openTurns)
                               then old(openTurns) + [r.wire.value] else old(openTurns))
    {
      var receipt := receipts[key];
      if (to != Sent && to != Accepted) || receipt.consumed {
        assert receipts[key := receipt] == receipts;
        return false;
      }
      receipts := receipts[key := receipt.(consumed := true)];
      if !receipt.eligible || receipt.wire.None? || !rawTransportConnected || terminal || closed {
        return false;
      }
      if receipt.wire.value !in openTurns {
        openTurns := openTurns + [receipt.wire.value];
      }
      openings := openings + [receipt.wire.value];
      flip := !turnActive;
    }

    /** Closes exactly one turn; says whether the flag must go down. */
    method CloseTurn(turnId: Option<nat>) returns (flip: bool)
      modifies `openTurns
      ensures openTurns == if turnId.Some? && turnId.value in old(openTurns) then Minus(old(openTurns), [turnId.value])
                           else old(openTurns)
      ensures flip == (turnId.Some? && turnId.value in old(openTurns) && openTurns == [] && turnActive)
    {
      if turnId.None? {
        return false;
      }
      if turnId.value !in openTurns {
        return false;
      }
      openTurns := Minus(openTurns, [turnId.value]);
      flip := openTurns == [] && turnActive;
    }

    /** Freezes what the settle will close, before any of its callouts. */
    method ConsumeTurnOpeningsThrough(turnId: Option<nat>) returns (placement: Option<seq<nat>>)
      requires Valid()
      modifies this
      ensures Did(SettleBegin(turnId)) && placement == Place(old(View()), turnId).prefix
    {
      StepKeepsInv(View(), SettleBegin(turnId));
      if turnId.None? {
        return None;
      }
      var id := turnId.value;
      var targetKey := KeyOf(wireIdToReceiptKey, id);
      if targetKey.None? || targetKey.value !in receipts || !receipts[targetKey.value].eligible {
        return None;
      }
      if id in openTurns {
        var openPrefix := OpenPrefix(id);
        return Some(openPrefix);
      }
      if receipts[targetKey.value].consumed {
        return None;
      }
      var openPrefix := ConsumeThrough(id);
      placement := Some(openPrefix);
    }

    method OpenPrefix(id: nat) returns (openPrefix: seq<nat>)
      ensures openPrefix == Through(openTurns, id)
    {
      openPrefix := [];
      for i := 0 to |openTurns|
        invariant Through(openTurns, id) == openPrefix + Through(openTurns[i..], id)
      {
        openPrefix := openPrefix + [openTurns[i]];
        assert openTurns[i..][1..] == openTurns[i + 1..];
        if openTurns[i] == id {
          return;
        }
      }
    }

    /** The rare settle before its turn's publish was reported: publish-order placement from the alias map. */
    method ConsumeThrough(id: nat) returns (openPrefix: seq<nat>)
      modifies `receipts
      ensures receipts == ConsumeAliases(old(receipts), AliasesThrough(wireIdToReceiptKey, id))
      ensures openPrefix == OpenAmong(AliasesThrough(wireIdToReceiptKey, id), openTurns)
    {
      openPrefix := [];
      ghost var r0, done := receipts, [];
      var aliases := wireIdToReceiptKey;
      assert receipts == ConsumeAliases(r0, []);
      var i := 0;
      while i < |aliases|
        invariant 0 <= i <= |aliases|
        invariant receipts == ConsumeAliases(r0, done) && openPrefix == OpenAmong(done, openTurns)
        invariant AliasesThrough(aliases, id) == done + AliasesThrough(aliases[i..], id)
      {
        Visit(aliases[i], r0, done);
        if aliases[i].0 in openTurns {
          openPrefix := openPrefix + [aliases[i].0];
        }
        OpenAmongSnoc(done, aliases[i], openTurns);
        ThroughNext(aliases, i, id, done);
        done := done + [aliases[i]];
        if aliases[i].0 == id {
          assert done + [] == done;
          return;
        }
        i := i + 1;
      }
      assert aliases[i..] == [] && done + [] == done;
    }

    method Visit(a: (nat, nat), ghost r0: map<nat, Receipt>, ghost done: seq<(nat, nat)>)
      requires receipts == ConsumeAliases(r0, done)
      modifies `receipts
      ensures receipts == ConsumeAliases(r0, done + [a])
    {
      ConsumeNext(r0, done, a);
      if a.1 in receipts && receipts[a.1].eligible {
        receipts := receipts[a.1 := receipts[a.1].(consumed := true)];
      }
    }

    /** Ends a settle: the frozen prefix closes, whatever its callouts did meanwhile. */
    method CloseTurnsThrough(placement: Option<seq<nat>>)
      requires Valid()
      modifies this
      ensures placement.Some? ==> Did(SettleEnd(placement.value))
      ensures placement.None? ==> Valid() && View() == old(View())
    {
      if placement.None? {
        return;
      }
      StepKeepsInv(View(), SettleEnd(placement.value));
      DeleteAll(placement.value);
      if openTurns == [] && turnActive {
        turnActive := false;
      }
    }

    method DeleteAll(prefix: seq<nat>)
      modifies `openTurns
      ensures openTurns == Minus(old(openTurns), prefix)
    {
      ghost var open0 := openTurns;
      MinusEmpty(openTurns);
      for i := 0 to |prefix|
        invariant openTurns == Minus(open0, prefix[..i])
      {
        MinusNext(open0, prefix[..i], prefix[i]);
        assert prefix[..i + 1] == prefix[..i] + [prefix[i]];
        openTurns := Minus(openTurns, [prefix[i]]);
      }
      assert prefix[..|prefix|] == prefix;
    }

    /** `/stop`: every candidate there is loses its chance. */
    method ConsumeAllTurnOpenings()
      requires Valid()
      modifies this
      ensures Did(StopAll)
    {
      StepKeepsInv(View(), StopAll);
      receipts := ConsumeAll(receipts);
    }

    /** Says whether the flag must go down. */
    method ClearOpenTurns() returns (flip: bool)
      modifies `openTurns
      ensures openTurns == [] && flip == (old(openTurns) != [] && turnActive)
    {
      if openTurns == [] {
        return false;
      }
      openTurns := [];
      flip := turnActive;
    }

    method OnState(up: bool, advanced: set<nat>)
      requires Valid()
      modifies this
      ensures Did(if up then RawUp else RawDown(advanced))
    {
      StepKeepsInv(View(), if up then RawUp else RawDown(advanced));
      assert Holds(View(), Flag);
      rawTransportConnected := up;
      if terminal || up {
        return;
      }
      receipts := ConsumeAdvanced(receipts, advanced);
      var turnsCleared := ClearOpenTurns();
      if turnsCleared {
        turnActive := false;
      }
    }

    /** The staleness valve and the local finalization of a stop. */
    method SweepOpenTurns()
      requires Valid()
      modifies this
      ensures Did(ClearNow)
    {
      StepKeepsInv(View(), ClearNow);
      assert Holds(View(), Flag);
      var turnsCleared := ClearOpenTurns();
      if turnsCleared {
        turnActive := false;
      }
    }

    method OnError()
      requires Valid()
      modifies this
      ensures Did(Step.Die)
    {
      StepKeepsInv(View(), Step.Die);
      assert Holds(View(), Flag);
      terminal := true;
      var turnsCleared := ClearOpenTurns();
      if turnsCleared {
        turnActive := false;
      }
    }

    /** The first half of `close()`: turns end before the raw teardown's callouts. */
    method BeginClose() returns (turnsCleared: bool)
      requires Valid()
      modifies this
      ensures Did(CloseBegin)
      ensures turnsCleared <==> clearing == old(clearing) + 1
    {
      StepKeepsInv(View(), CloseBegin);
      closed := true;
      turnsCleared := ClearOpenTurns();
      if turnsCleared {
        clearing := clearing + 1;
      }
    }

    /** The second half: the flag goes down unless a replacement lifecycle has opened a turn. */
    method EndClose(turnsCleared: bool)
      requires Valid() && (turnsCleared ==> clearing > 0)
      modifies this
      ensures turnsCleared ==> Did(CloseEnd)
      ensures !turnsCleared ==> Valid() && View() == old(View())
    {
      if turnsCleared {
        StepKeepsInv(View(), CloseEnd);
        clearing := clearing - 1;
        if openTurns == [] {
          turnActive := false;
        }
      }
    }

    method Connect()
      requires Valid()
      modifies this
      ensures Did(Reopen)
    {
      StepKeepsInv(View(), Reopen);
      if !terminal {
        closed := false;
      }
    }
  }

  lemma {:induction false} MinusEmpty(ids: seq<nat>)
    ensures Minus(ids, []) == ids
  {
    if ids != [] {
      MinusEmpty(ids[1..]);
    }
  }

  /** Deleting one after another is deleting them all. */
  lemma {:induction false} MinusNext(ids: seq<nat>, gone: seq<nat>, id: nat)
    ensures Minus(Minus(ids, gone), [id]) == Minus(ids, gone + [id])
  {
    if ids != [] {
      MinusNext(ids[1..], gone, id);
      var rest := Minus(ids[1..], gone);
      assert ids[0] in gone + [id] <==> ids[0] in gone || ids[0] == id;
      if ids[0] in gone {
        assert Minus(ids, gone) == rest;
      } else {
        assert Minus(ids, gone) == [ids[0]] + rest;
        assert ([ids[0]] + rest)[1..] == rest;
      }
    }
  }

  lemma ThroughNext(aliases: seq<(nat, nat)>, i: nat, id: nat, done: seq<(nat, nat)>)
    requires i < |aliases|
    ensures done + AliasesThrough(aliases[i..], id) ==
            done + [aliases[i]] + (if aliases[i].0 == id then [] else AliasesThrough(aliases[i + 1..], id))
  {
    assert aliases[i..][1..] == aliases[i + 1..];
    var rest := AliasesThrough(aliases[i + 1..], id);
    assert done + ([aliases[i]] + rest) == done + [aliases[i]] + rest;
  }

  lemma ConsumeNext(receipts: map<nat, Receipt>, aliases: seq<(nat, nat)>, a: (nat, nat))
    ensures var before := ConsumeAliases(receipts, aliases);
            ConsumeAliases(receipts, aliases + [a]) ==
              if a.1 in before && before[a.1].eligible then before[a.1 := before[a.1].(consumed := true)] else before
  {
    var longer := aliases + [a];
    assert longer[|aliases|] == a;
    forall k | k in receipts
      ensures (exists i :: 0 <= i < |longer| && longer[i].1 == k) <==> (k == a.1 || exists i :: 0 <= i < |aliases| && aliases[i].1 == k)
    {
      if exists i :: 0 <= i < |aliases| && aliases[i].1 == k {
        var i :| 0 <= i < |aliases| && aliases[i].1 == k;
        assert longer[i].1 == k;
      }
    }
  }

  lemma {:induction false} OpenAmongSnoc(aliases: seq<(nat, nat)>, a: (nat, nat), open: seq<nat>)
    ensures OpenAmong(aliases + [a], open) == OpenAmong(aliases, open) + (if a.0 in open then [a.0] else [])
  {
    if aliases == [] {
      assert aliases + [a] == [a];
      assert [a][1..] == [];
    } else {
      assert (aliases + [a])[1..] == aliases[1..] + [a];
      OpenAmongSnoc(aliases[1..], a, open);
    }
  }
}
