/** What settlement does to each entry, and how long a cancellation keeps an entry's reservation. */
module DebounceCancellations {
  import opened Options
  import opened Sequences
  import opened Debounce
  import opened DebounceAccounts

  // ---------------------------------------------------------------------------
  // One pass of settlement, entry by entry
  // ---------------------------------------------------------------------------

  /** A flush lets go of what no cancellation claimed; what the dispatcher took over it does not ask back. */
  predicate FlushSettled(s: State, t: State, n: nat, named: bool, transferred: set<nat>) {
    && (n in t.inflight <==> n in s.inflight && !(named && n !in s.cancelPending))
    && (n in t.requested <==> n in s.requested || (named && n !in s.cancelPending && n !in transferred))
    && (n in t.cancelPending <==> n in s.cancelPending) && (n in t.cancelHold <==> n in s.cancelHold)
    && (n in t.retired <==> n in s.retired)
  }

  /** A cancellation or a retirement lets go of everything named, but a retirement not of a begun callback's hold. */
  predicate StopSettled(s: State, t: State, n: nat, named: bool, retire: bool) {
    && (n in t.inflight <==> n in s.inflight && !named) && (n in t.requested <==> n in s.requested || named)
    && (n in t.cancelPending <==> n in s.cancelPending && !named)
    && (n in t.retired <==> n in s.retired || (retire && named))
    && (n in t.cancelHold <==> n in s.cancelHold && !(named && (retire ==> n !in s.cancelRunning)))
  }

  predicate SettledAs(s: State, t: State, n: nat, named: bool, owner: Owner) {
    && t.cancelRunning == s.cancelRunning && t.cancellations == s.cancellations && t.cancelRequested == s.cancelRequested
    && t.running == s.running
    && if owner.ByFlush? then FlushSettled(s, t, n, named, owner.transferred) else StopSettled(s, t, n, named, owner.ByRetire?)
  }

  lemma OneSettledAs(s: State, m: nat, owner: Owner, n: nat)
    ensures SettledAs(s, SettleOne(s, m, owner), n, n == m, owner)
  {
  }

  lemma SettledTwice(s: State, t: State, u: State, n: nat, a: bool, b: bool, owner: Owner)
    requires SettledAs(s, t, n, a, owner) && SettledAs(t, u, n, b, owner)
    ensures SettledAs(s, u, n, a || b, owner)
  {
  }

  /** One settlement, by whichever owner, does exactly this to each entry. */
  lemma SettleIs(s: State, ns: seq<nat>, owner: Owner, n: nat)
    ensures SettledAs(s, Settle(s, ns, owner), n, n in ns, owner)
  {
    EachSettledAs(s, ns, owner, n);
  }

  lemma {:induction false} EachSettledAs(s: State, ns: seq<nat>, owner: Owner, n: nat)
    ensures SettledAs(s, SettleEach(s, ns, owner), n, n in ns, owner)
  {
    if ns != [] {
      var m := |ns| - 1;
      EachSettledAs(s, ns[..m], owner, n);
      OneSettledAs(SettleEach(s, ns[..m], owner), ns[m], owner, n);
      SettledTwice(s, SettleEach(s, ns[..m], owner), SettleEach(s, ns, owner), n, n in ns[..m], n == ns[m], owner);
      assert ns == ns[..m] + [ns[m]];
    }
  }

  // ---------------------------------------------------------------------------
  // What each step does to a cancelled entry
  // ---------------------------------------------------------------------------

  predicate InBatch(s: State, i: int, n: nat) {
    0 <= i < |s.cancellations| && n in s.cancellations[i]
  }

  /** Handed to a cancellation callback that is queued or running. */
  ghost predicate Claimed(s: State, n: nat) {
    n in s.cancelRunning || exists i :: InBatch(s, i, n)
  }

  /** No entry is handed to two callbacks. */
  ghost predicate Apart(s: State) {
    && (forall i, j, n :: InBatch(s, i, n) && InBatch(s, j, n) ==> i == j)
    && (forall i, n :: InBatch(s, i, n) ==> n !in s.cancelRunning)
  }

  /** A cancellation that says nothing of notification settles what is in flight, claimed or not. */
  predicate Frees(step: Step, n: nat) {
    step.Cancel? && step.notify == Unsaid && n in step.active
  }

  ghost predicate Moves(s: State, t: State, n: nat, frees: bool) {
    && (n in s.cancelRequested ==> n in t.cancelRequested) && (n in s.requested ==> n in t.requested)
    && (Claimed(t, n) && !Claimed(s, n) ==> n !in s.cancelRequested && n in t.cancelRequested && n in t.cancelHold)
    && (Claimed(t, n) && Claimed(s, n) ==> (n in t.cancelHold <==> n in s.cancelHold && !frees))
    && (frees ==> n in t.requested)
  }

  lemma ClaimedIsRequested(s: State, n: nat)
    requires Inv(s) && Claimed(s, n)
    ensures n in s.cancelRequested && n !in s.waiting
  {
    assert Holds(s, Requesting) && Holds(s, Fresh);
  }

  lemma SameClaims(s: State, t: State, n: nat)
    requires t.cancellations == s.cancellations && t.cancelRunning == s.cancelRunning
    ensures Claimed(t, n) <==> Claimed(s, n)
    ensures Apart(s) ==> Apart(t)
  {
    assert forall i, m :: InBatch(t, i, m) <==> InBatch(s, i, m);
  }

  lemma NoBatches(s: State, t: State, n: nat)
    requires t.cancellations == [] && t.cancelRunning == s.cancelRunning
    ensures Apart(t) && (Claimed(t, n) <==> n in s.cancelRunning)
  {
    assert forall i, m :: !InBatch(t, i, m);
  }

  lemma NotifyMoves(s: State, active: seq<nat>, n: nat)
    requires Inv(s) && Apart(s) && Lists(active, s.inflight)
    ensures var t := Cancelled(s, Yes, active); Apart(t) && Moves(s, t, n, false)
  {
    var newly, t := Newly(s, Yes, active), Cancelled(s, Yes, active);
    KeepIs(active + s.waiting, s.cancelRequested);
    assert Holds(s, Requesting);
    if newly == [] {
      SameClaims(s, t, n);
    } else {
      RequestedFrame(s.(bucket := None, waiting := [], generation := s.generation + 1, mark := s.pushed), newly);
      assert t.cancellations == s.cancellations + [newly] && t.cancelRunning == s.cancelRunning;
      assert forall i, m :: InBatch(t, i, m) <==> InBatch(s, i, m) || (i == |s.cancellations| && m in newly);
    }
  }

  lemma StopMoves(s: State, notify: Notify, active: seq<nat>, n: nat)
    requires Inv(s) && Apart(s) && Lists(active, s.inflight) && notify != Yes
    ensures var t := Cancelled(s, notify, active); Apart(t) && Moves(s, t, n, Frees(Cancel(notify, active), n))
  {
    var newly, t := active + s.waiting, Cancelled(s, notify, active);
    if newly == [] {
      SameClaims(s, t, n);
    } else {
      var u := s.(bucket := None, waiting := [], generation := s.generation + 1, mark := s.pushed);
      var owner := if notify == No then ByRetire else ByCancel;
      SettleIs(u, newly, owner, n);
      if notify == No {
        NoBatches(s, t, n);
      } else {
        SameClaims(s, t, n);
      }
      if Claimed(s, n) {
        ClaimedIsRequested(s, n);
      }
    }
  }

  lemma BeginMoves(s: State, i: nat, n: nat)
    requires Inv(s) && Apart(s) && i < |s.cancellations|
    ensures var t := CancelBegun(s, i); Apart(t) && Moves(s, t, n, false)
  {
    var t := CancelBegun(s, i);
    assert forall j, m :: InBatch(t, j, m) <==> InBatch(s, if j < i then j else j + 1, m);
    assert forall m :: m in t.cancelRunning <==> m in s.cancelRunning || InBatch(s, i, m);
    if exists j :: InBatch(s, j, n) {
      var j :| InBatch(s, j, n);
      if j != i {
        assert InBatch(t, if j < i then j else j - 1, n);
      }
    }
  }

  lemma CallbackSettlesMoves(s: State, entries: seq<nat>, n: nat)
    requires Inv(s) && Apart(s) && Legal(s, CancelSettles(entries))
    ensures var t := Apply(s, CancelSettles(entries)); Apart(t) && Moves(s, t, n, false)
  {
    var u := s.(cancelRunning := s.cancelRunning - SetOf(entries));
    var t := Settle(u, entries, ByCancel);
    SettleIs(u, entries, ByCancel, n);
    assert forall i, m :: InBatch(t, i, m) <==> InBatch(s, i, m);
  }

  lemma DisposeMoves(s: State, active: seq<nat>, n: nat)
    requires Inv(s) && Apart(s)
    ensures var t := Disposed(s, active); Apart(t) && Moves(s, t, n, false)
  {
    var t := Disposed(s, active);
    if s.disposed {
      SameClaims(s, t, n);
    } else {
      SettleIs(s.(disposed := true, generation := s.generation + 1), s.waiting, ByRetire, n);
      var u := WaitingRetired(s.(disposed := true));
      SettleIs(u.(bucket := None, waiting := [], mark := s.pushed), active, ByRetire, n);
      NoBatches(s, t, n);
    }
  }

  lemma FlushMoves(s: State, step: Step, n: nat)
    requires Inv(s) && Apart(s) && Legal(s, step) && (step.StartNext? || step.FlushDone?)
    ensures var t := Apply(s, step); Apart(t) && Moves(s, t, n, false)
  {
    if step.FlushDone? {
      SettleIs(s, s.running.value.entries, ByFlush(step.transferred), n);
    } else if s.queued != [] {
      SettleIs(s.(queued := s.queued[1..]), s.queued[0].entries, ByFlush({}), n);
    }
    SameClaims(s, Apply(s, step), n);
  }

  lemma StepMoves(s: State, step: Step, n: nat)
    requires Inv(s) && Apart(s) && Legal(s, step)
    ensures var t := Apply(s, step); Apart(t) && Moves(s, t, n, Frees(step, n))
  {
    match step
    case StartNext => FlushMoves(s, step, n);
    case FlushDone(_) => FlushMoves(s, step, n);
    case Cancel(notify, active) =>
      if notify == Yes {
        NotifyMoves(s, active, n);
      } else {
        StopMoves(s, notify, active, n);
      }
    case CancelStarts(i) => BeginMoves(s, i, n);
    case CancelSettles(entries) => CallbackSettlesMoves(s, entries, n);
    case Dispose(active) => DisposeMoves(s, active, n);
    case _ => SameClaims(s, Apply(s, step), n);
  }

  lemma {:induction false} RunApart(steps: seq<Step>)
    requires LegalRun(steps)
    ensures Apart(Run(steps))
  {
    if steps == [] {
      NoBatches(INITIAL, INITIAL, 0);
    } else {
      var init := steps[..|steps| - 1];
      RunApart(init);
      RunKeepsInv(init);
      StepMoves(Run(init), steps[|steps| - 1], 0);
    }
  }

  lemma {:induction false} RequestedGrows(steps: seq<Step>, k: nat, n: nat)
    requires LegalRun(steps) && k <= |steps|
    ensures n in Run(steps[..k]).cancelRequested ==> n in Run(steps).cancelRequested
  {
    if k == |steps| {
      assert steps[..k] == steps;
    } else {
      var init := steps[..|steps| - 1];
      assert init[..k] == steps[..k];
      RequestedGrows(init, k, n);
      RunApart(init);
      RunKeepsInv(init);
      StepMoves(Run(init), steps[|steps| - 1], n);
    }
  }

  // ---------------------------------------------------------------------------
  // Main results
  // ---------------------------------------------------------------------------

  /** The k-th step hands the entry to a new cancellation callback. */
  predicate NotifiedAt(steps: seq<Step>, k: nat, n: nat)
    requires k < |steps|
  {
    var s, t := Run(steps[..k]), Run(steps[..k + 1]);
    steps[k].Cancel? && |t.cancellations| > |s.cancellations| && n in t.cancellations[|s.cancellations|]
  }

  lemma BatchIsNew(s: State, notify: Notify, active: seq<nat>, n: nat)
    requires var t := Cancelled(s, notify, active);
             |t.cancellations| > |s.cancellations| && n in t.cancellations[|s.cancellations|]
    ensures n !in s.cancelRequested && n in Cancelled(s, notify, active).cancelRequested
  {
    KeepIs(active + s.waiting, s.cancelRequested);
    var t := s.(bucket := None, waiting := [], generation := s.generation + 1, mark := s.pushed);
    var newly := Newly(s, notify, active);
    if notify == Yes {
      RequestedFrame(t, newly);
    } else {
      SettleIs(t, newly, if notify == No then ByRetire else ByCancel, n);
    }
  }

  lemma RunStep(steps: seq<Step>, k: nat)
    requires k < |steps|
    ensures Run(steps[..k + 1]) == Apply(Run(steps[..k]), steps[k])
  {
    assert steps[..k + 1][..k] == steps[..k];
  }

  lemma NotifiedIsNew(steps: seq<Step>, k: nat, n: nat)
    requires k < |steps| && NotifiedAt(steps, k, n)
    ensures n !in Run(steps[..k]).cancelRequested && n in Run(steps[..k + 1]).cancelRequested
  {
    hide Run, Cancelled;
    RunStep(steps, k);
    BatchIsNew(Run(steps[..k]), steps[k].notify, steps[k].active, n);
  }

  lemma {:induction false} LegalPrefix(steps: seq<Step>, k: nat)
    requires LegalRun(steps) && k <= |steps|
    ensures LegalRun(steps[..k])
  {
    if k == |steps| {
      assert steps[..k] == steps;
    } else {
      assert steps[..|steps| - 1][..k] == steps[..k];
      LegalPrefix(steps[..|steps| - 1], k);
    }
  }

  /** In every run an entry is handed to at most one cancellation callback. */
  lemma NotifiedOnce(steps: seq<Step>, j: nat, k: nat, n: nat)
    requires LegalRun(steps) && j < k < |steps| && NotifiedAt(steps, j, n)
    ensures !NotifiedAt(steps, k, n)
  {
    NotifiedIsNew(steps, j, n);
    LegalPrefix(steps, k);
    assert steps[..k][..j + 1] == steps[..j + 1];
    RequestedGrows(steps[..k], j + 1, n);
    if NotifiedAt(steps, k, n) {
      NotifiedIsNew(steps, k, n);
    }
  }

  /** A cancellation without a word on notification settled the entry after it had been claimed. */
  ghost predicate Unpinned(steps: seq<Step>, n: nat) {
    exists k :: 0 <= k < |steps| && Frees(steps[k], n) && n in Run(steps[..k]).cancelRequested
  }

  lemma UnpinnedNext(steps: seq<Step>, n: nat)
    requires steps != []
    ensures var init, step := steps[..|steps| - 1], steps[|steps| - 1];
            Unpinned(steps, n) <==> Unpinned(init, n) || (Frees(step, n) && n in Run(init).cancelRequested)
  {
    var init, step := steps[..|steps| - 1], steps[|steps| - 1];
    assert forall k :: 0 <= k < |init| ==> init[k] == steps[k] && init[..k] == steps[..k];
    if Frees(step, n) && n in Run(init).cancelRequested {
      assert Frees(steps[|init|], n) && n in Run(steps[..|init|]).cancelRequested;
    }
  }

  lemma UnpinnedWasRequested(steps: seq<Step>, n: nat)
    requires LegalRun(steps) && Unpinned(steps, n)
    ensures n in Run(steps).cancelRequested
  {
    var k :| 0 <= k < |steps| && Frees(steps[k], n) && n in Run(steps[..k]).cancelRequested;
    RequestedGrows(steps, k, n);
  }

  lemma {:induction false} HeldWhileClaimed(steps: seq<Step>, n: nat)
    requires LegalRun(steps)
    ensures Claimed(Run(steps), n) ==> (n in Run(steps).cancelHold <==> !Unpinned(steps, n))
    ensures Unpinned(steps, n) ==> n in Run(steps).requested
  {
    if steps == [] {
      NoBatches(INITIAL, INITIAL, n);
    } else {
      var init, step := steps[..|steps| - 1], steps[|steps| - 1];
      var s := Run(init);
      HeldWhileClaimed(init, n);
      RunApart(init);
      RunKeepsInv(init);
      StepMoves(s, step, n);
      UnpinnedNext(steps, n);
      if Claimed(s, n) {
        ClaimedIsRequested(s, n);
      } else if Unpinned(init, n) {
        UnpinnedWasRequested(init, n);
      }
    }
  }

  /**
   * In every run the reservation of an entry whose cancellation callback runs is back in the budget exactly if a
   * cancellation without a word on notification settled the entry after it was claimed, and no running flush pins it.
   */
  lemma CallbackIsPinned(steps: seq<Step>, n: nat)
    requires LegalRun(steps) && n in Run(steps).cancelRunning
    ensures var s := Run(steps);
            Released(s, n) <==> Unpinned(steps, n) && !(s.running.Some? && n in s.running.value.pinned)
  {
    var s := Run(steps);
    HeldWhileClaimed(steps, n);
    RunKeepsInv(steps);
    assert Holds(s, Counted);
  }

  lemma Snoc(steps: seq<Step>, step: Step)
    requires LegalRun(steps) && Legal(Run(steps), step)
    ensures LegalRun(steps + [step]) && Run(steps + [step]) == Apply(Run(steps), step)
  {
    assert (steps + [step])[..|steps|] == steps;
  }

  lemma WaitingIsClaimed(s: State)
    requires s.waiting == [0] && s.inflight == {} && s.cancelRequested == {} && s.cancellations == [] && s.running.None?
    ensures var t := Cancelled(s, Yes, []);
            && Legal(s, Cancel(Yes, [])) && t.inflight == {0} && t.cancellations == [[0]] && 0 in t.cancelRequested && t.running.None?
  {
    assert [] + [0] == [0] && Keep([0], {}) == [0] && SetOf([0]) == {0};
    RequestedFrame(s.(bucket := None, waiting := [], generation := s.generation + 1, mark := s.pushed), [0]);
  }

  lemma BeganThenSettled(s: State)
    requires s.inflight == {0} && s.cancellations == [[0]] && s.running.None?
    ensures Legal(s, CancelStarts(0)) && Legal(CancelBegun(s, 0), Cancel(Unsaid, [0]))
    ensures var t := Cancelled(CancelBegun(s, 0), Unsaid, [0]); 0 in t.cancelRunning && t.running.None?
  {
    var u := CancelBegun(s, 0);
    SettleIs(u.(bucket := None, waiting := [], generation := u.generation + 1, mark := u.pushed), [0] + u.waiting, ByCancel, 0);
  }

  /** A pushed entry is cancelled with notification, its callback begins, and a second cancellation says nothing. */
  lemma {:induction false} SilentCancelUnpins()
    ensures var steps := [Push] + [Cancel(Yes, [])] + [CancelStarts(0)] + [Cancel(Unsaid, [0])];
            LegalRun(steps) && 0 in Run(steps).cancelRunning && Released(Run(steps), 0)
  {
    EmptyRun();
    hide Run, LegalRun, Cancelled, CancelBegun, Released;
    var first := [Push];
    Snoc([], Push);
    assert [] + [Push] == first;
    WaitingIsClaimed(Run(first));
    var second := first + [Cancel(Yes, [])];
    Snoc(first, Cancel(Yes, []));
    BeganThenSettled(Run(second));
    var third := second + [CancelStarts(0)];
    Snoc(second, CancelStarts(0));
    var steps := third + [Cancel(Unsaid, [0])];
    Snoc(third, Cancel(Unsaid, [0]));
    RequestedGrows(third, |second|, 0);
    assert third[..|second|] == second && steps[..|third|] == third;
    assert Frees(steps[|third|], 0);
    CallbackIsPinned(steps, 0);
  }

  lemma EmptyRun()
    ensures LegalRun([]) && Run([]) == INITIAL
  {
  }

  /** A flush that unwinds while a cancellation owns an entry leaves it in flight and its reservation held. */
  lemma ClaimedOutlivesFlush(steps: seq<Step>, transferred: set<nat>, n: nat)
    requires LegalRun(steps) && Legal(Run(steps), FlushDone(transferred)) && n in Run(steps).cancelPending
    ensures var s, t := Run(steps), Done(Run(steps), transferred);
            (n in t.inflight <==> n in s.inflight) && (n in t.requested <==> n in s.requested) && !Released(t, n)
  {
    var s, t := Run(steps), Done(Run(steps), transferred);
    RunKeepsInv(steps);
    PendingIsHeld(steps, n);
    SettleIs(s, s.running.value.entries, ByFlush(transferred), n);
    DoneKeeps(s, transferred);
    assert Holds(t, Counted);
  }

  lemma {:induction false} PendingIsHeld(steps: seq<Step>, n: nat)
    requires LegalRun(steps)
    ensures n in Run(steps).cancelPending ==> n in Run(steps).cancelHold
  {
    if steps != [] {
      PendingIsHeld(steps[..|steps| - 1], n);
      StepKeepsPending(Run(steps[..|steps| - 1]), steps[|steps| - 1], n);
    }
  }

  lemma StepKeepsPending(s: State, step: Step, n: nat)
    requires Legal(s, step) && (n in s.cancelPending ==> n in s.cancelHold)
    ensures var t := Apply(s, step); n in t.cancelPending ==> n in t.cancelHold
  {
    match step
    case StartNext =>
      if s.queued != [] {
        SettleIs(s.(queued := s.queued[1..]), s.queued[0].entries, ByFlush({}), n);
      }
    case FlushDone(transferred) => SettleIs(s, s.running.value.entries, ByFlush(transferred), n);
    case Cancel(notify, active) =>
      var t := s.(bucket := None, waiting := [], generation := s.generation + 1, mark := s.pushed);
      RequestedFrame(t, Newly(s, notify, active));
      SettleIs(t, Newly(s, notify, active), if notify == No then ByRetire else ByCancel, n);
    case CancelSettles(entries) => SettleIs(s.(cancelRunning := s.cancelRunning - SetOf(entries)), entries, ByCancel, n);
    case Dispose(active) =>
      SettleIs(s.(disposed := true, generation := s.generation + 1), s.waiting, ByRetire, n);
      SettleIs(WaitingRetired(s.(disposed := true)).(bucket := None, waiting := [], mark := s.pushed), active, ByRetire, n);
    case _ =>
  }

  /** A retirement leaves nothing captured: the callback's array, the queued batches and the queued cancellations. */
  lemma RetirementSevers(s: State, step: Step)
    requires match step
             case Dispose(_) => !s.disposed
             case Cancel(notify, active) => notify == No && active + s.waiting != []
             case _ => false
    ensures var t := Apply(s, step);
            t.queued == [] && t.cancellations == [] && (t.running.Some? ==> t.running.value.entries == [])
  {
  }

  // ---------------------------------------------------------------------------
  // An idle key leaves nothing behind
  // ---------------------------------------------------------------------------

  predicate Idle(s: State) {
    s.worker == Absent && s.bucket.None? && s.inflight == {}
  }

  lemma StepForgets(s: State, step: Step)
    requires Inv(s) && Legal(s, step) && (Idle(s) ==> s.generation == 0)
    ensures Idle(Apply(s, step)) ==> Apply(s, step).generation == 0
  {
    match step
    case StartNext =>
      if s.queued != [] {
        SettleFrame(s.(queued := s.queued[1..]), s.queued[0].entries, ByFlush({}));
      }
    case FlushDone(transferred) =>
      assert Holds(s, Workers);
      SettleFrame(s, s.running.value.entries, ByFlush(transferred));
    case _ =>
  }

  /** In every run a key with nothing waiting, in flight or under way has forgotten its generation. */
  lemma {:induction false} IdleKeyIsForgotten(steps: seq<Step>)
    requires LegalRun(steps) && Idle(Run(steps))
    ensures Run(steps).generation == 0
  {
    IdleForgets(steps);
  }

  lemma {:induction false} IdleForgets(steps: seq<Step>)
    requires LegalRun(steps)
    ensures Idle(Run(steps)) ==> Run(steps).generation == 0
  {
    if steps != [] {
      IdleForgets(steps[..|steps| - 1]);
      RunKeepsInv(steps[..|steps| - 1]);
      StepForgets(Run(steps[..|steps| - 1]), steps[|steps| - 1]);
    }
  }
}
