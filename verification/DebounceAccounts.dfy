/** Where every accepted entry of a key is, and who owes its reservation. */
module DebounceAccounts {
  import opened Options
  import opened Sequences
  import opened Debounce

  // ---------------------------------------------------------------------------
  // No entry is lost
  // ---------------------------------------------------------------------------

  /** Waiting, queued, or taken by a flush; else behind the line of a cancellation, or the debouncer is disposed. */
  predicate Tracked(s: State, n: nat) {
    n in s.waiting || n in Flat(s.queued) || n in s.flushed || n < s.mark || s.disposed
  }

  /** A batch that will not be flushed is behind the line. */
  ghost predicate StaleIsBehind(s: State) {
    forall i, n :: 0 <= i < |s.queued| && s.queued[i].generation != s.generation && n in s.queued[i].entries ==>
      n < s.mark || s.disposed
  }

  ghost predicate AllTracked(s: State) {
    StaleIsBehind(s) && forall n: nat :: n < s.pushed ==> Tracked(s, n)
  }

  lemma QueuedBelow(s: State)
    requires Inv(s)
    ensures forall i, n :: 0 <= i < |s.queued| && n in s.queued[i].entries ==> n < s.pushed
  {
    assert Holds(s, InOrder);
    var all := s.flushed + Flat(s.queued) + s.waiting;
    forall i, n | 0 <= i < |s.queued| && n in s.queued[i].entries ensures n < s.pushed {
      InFlat(s.queued, i, n);
      var k :| 0 <= k < |Flat(s.queued)| && Flat(s.queued)[k] == n;
      assert all[|s.flushed| + k] == n;
    }
  }

  lemma DetachTracks(s: State, bucket: nat)
    requires Inv(s) && AllTracked(s)
    ensures AllTracked(Detached(s, bucket))
  {
    if s.bucket == Some(bucket) {
      var batch, t := Batch(s.waiting, s.generation), Detached(s, bucket);
      assert t.queued == s.queued + [batch];
      FlatConcat(s.queued, [batch]);
      assert Flat([batch]) == s.waiting by { assert [batch][1..] == []; }
      forall n: nat | n < t.pushed ensures Tracked(t, n) {
        assert Tracked(s, n);
        assert n in Flat(t.queued) <==> n in Flat(s.queued) || n in s.waiting;
      }
      assert forall i :: 0 <= i < |s.queued| ==> t.queued[i] == s.queued[i];
    }
  }

  /** The head of the queue leaves it: flushed if it is current, else behind the line. */
  lemma StartTracks(s: State)
    requires Inv(s) && Legal(s, StartNext) && AllTracked(s)
    ensures AllTracked(Started(s))
  {
    if s.queued == [] {
      SameTrack(s, Started(s));
    } else {
      var head, t := s.queued[0], Started(s);
      assert s.queued == [head] + s.queued[1..];
      FlatConcat([head], s.queued[1..]);
      assert Flat([head]) == head.entries by { assert [head][1..] == []; }
      if s.disposed || s.generation != head.generation {
        SettleFrame(s.(queued := s.queued[1..]), head.entries, ByFlush({}));
        assert forall n :: n in head.entries ==> n < s.mark || s.disposed;
      }
      assert t.queued == s.queued[1..];
      assert forall i :: 0 <= i < |t.queued| ==> t.queued[i] == s.queued[i + 1];
      assert t.generation == s.generation && t.mark == s.mark && t.disposed == s.disposed && t.pushed == s.pushed;
      forall n: nat | n < t.pushed ensures Tracked(t, n) {
        assert Tracked(s, n);
        assert n in Flat(s.queued) <==> n in head.entries || n in Flat(t.queued);
      }
    }
  }

  /** After a cancellation everything pushed so far is behind its line. */
  lemma CancelTracks(s: State, notify: Notify, active: seq<nat>)
    requires Inv(s)
    ensures AllTracked(Cancelled(s, notify, active))
  {
    var t := Cancelled(s, notify, active);
    CancelLine(s, notify, active);
    QueuedBelow(s);
    CancelPushes(s, notify, active);
  }

  lemma CancelPushes(s: State, notify: Notify, active: seq<nat>)
    ensures var t := Cancelled(s, notify, active); t.pushed == s.pushed && (t.queued == s.queued || t.queued == [])
  {
    var newly := Newly(s, notify, active);
    if newly != [] {
      var t := s.(bucket := None, waiting := [], generation := s.generation + 1, mark := s.pushed);
      if notify == Yes {
        RequestedFrame(t, newly);
      } else {
        SettleFrame(t, newly, if notify == No then ByRetire else ByCancel);
      }
    }
  }

  lemma DoneTracks(s: State, transferred: set<nat>)
    requires Inv(s) && Legal(s, FlushDone(transferred)) && AllTracked(s)
    ensures AllTracked(Done(s, transferred))
  {
    SettleFrame(s, s.running.value.entries, ByFlush(transferred));
    assert Holds(s, Workers);
    SameTrack(s, Done(s, transferred));
  }

  /** Steps that move no entry and leave the generation of a key with queued batches alone. */
  lemma SameTrack(s: State, t: State)
    requires AllTracked(s)
    requires (t.waiting, t.queued, t.flushed, t.mark, t.pushed) == (s.waiting, s.queued, s.flushed, s.mark, s.pushed)
    requires (s.disposed ==> t.disposed) && (t.generation == s.generation || t.queued == [])
    ensures AllTracked(t)
  {
    forall n: nat | n < t.pushed ensures Tracked(t, n) {
      assert Tracked(s, n);
    }
  }

  lemma SettledTracks(s: State, entries: seq<nat>)
    requires Inv(s) && AllTracked(s)
    ensures AllTracked(Apply(s, CancelSettles(entries)))
  {
    SettleFrame(s.(cancelRunning := s.cancelRunning - SetOf(entries)), entries, ByCancel);
    assert Holds(s, Workers);
    SameTrack(s, Apply(s, CancelSettles(entries)));
  }

  lemma PushTracks(s: State)
    requires AllTracked(s)
    ensures AllTracked(Pushed(s))
  {
    var t := Pushed(s);
    forall n: nat | n < t.pushed ensures Tracked(t, n) {
      assert s.disposed || n == s.pushed || Tracked(s, n);
    }
  }

  lemma StepTracks(s: State, step: Step)
    requires Inv(s) && Legal(s, step) && AllTracked(s)
    ensures AllTracked(Apply(s, step))
  {
    assert Holds(s, Workers);
    match step
    case Push => PushTracks(s);
    case Detach(bucket) => DetachTracks(s, bucket);
    case StartNext => StartTracks(s);
    case FlushDone(transferred) => DoneTracks(s, transferred);
    case Cancel(notify, active) => CancelTracks(s, notify, active);
    case CancelSettles(entries) => SettledTracks(s, entries);
    case Dispose(active) => DisposeLine(s, active);
    case WorkerEnds => SameTrack(s, WorkerGone(s));
    case CancelStarts(i) => SameTrack(s, CancelBegun(s, i));
  }

  lemma {:induction false} RunTracks(steps: seq<Step>)
    requires LegalRun(steps)
    ensures AllTracked(Run(steps))
  {
    if steps != [] {
      var init := steps[..|steps| - 1];
      RunKeepsInv(init);
      RunTracks(init);
      StepTracks(Run(init), steps[|steps| - 1]);
    }
  }

  lemma LineMoves(s: State, step: Step)
    requires !Apply(s, step).disposed
    ensures Apply(s, step).mark == if step.Cancel? then s.pushed else s.mark
  {
    match step
    case StartNext =>
      if s.queued != [] {
        SettleFrame(s.(queued := s.queued[1..]), s.queued[0].entries, ByFlush({}));
      }
    case FlushDone(transferred) =>
      if s.running.Some? {
        SettleFrame(s, s.running.value.entries, ByFlush(transferred));
      }
    case Cancel(notify, active) => CancelLine(s, notify, active);
    case CancelSettles(entries) => SettleFrame(s.(cancelRunning := s.cancelRunning - SetOf(entries)), entries, ByCancel);
    case Dispose(active) => DisposeLine(s, active);
    case _ =>
  }

  lemma StaysDisposed(s: State, step: Step)
    requires s.disposed
    ensures Apply(s, step).disposed
  {
    match step
    case StartNext =>
      if s.queued != [] {
        SettleFrame(s.(queued := s.queued[1..]), s.queued[0].entries, ByFlush({}));
      }
    case FlushDone(transferred) =>
      if s.running.Some? {
        SettleFrame(s, s.running.value.entries, ByFlush(transferred));
      }
    case Cancel(notify, active) => CancelLine(s, notify, active);
    case CancelSettles(entries) => SettleFrame(s.(cancelRunning := s.cancelRunning - SetOf(entries)), entries, ByCancel);
    case Dispose(active) => DisposeLine(s, active);
    case _ =>
  }

  lemma {:induction false} WhoCancelled(steps: seq<Step>, n: nat) returns (k: nat)
    requires n < Run(steps).mark && !Run(steps).disposed
    ensures k < |steps| && steps[k].Cancel? && n < Run(steps[..k]).pushed
  {
    var init, step := steps[..|steps| - 1], steps[|steps| - 1];
    if Run(init).disposed {
      StaysDisposed(Run(init), step);
      assert false;
    }
    LineMoves(Run(init), step);
    if step.Cancel? && n < Run(init).pushed {
      k := |init|;
    } else {
      k := WhoCancelled(init, n);
      assert init[..k] == steps[..k];
    }
  }

  /**
   * In every run an accepted entry is waiting, in a queued batch, or taken by a flush, unless the key was cancelled
   * after it was pushed or the debouncer was disposed.
   */
  lemma NothingIsLost(steps: seq<Step>, n: nat)
    requires LegalRun(steps) && n < Run(steps).pushed
    ensures var s := Run(steps);
            || n in s.waiting || n in Flat(s.queued) || n in s.flushed || s.disposed
            || exists k :: 0 <= k < |steps| && steps[k].Cancel? && n < Run(steps[..k]).pushed
  {
    RunTracks(steps);
    var s := Run(steps);
    assert Tracked(s, n);
    if n < s.mark && !s.disposed {
      var k := WhoCancelled(steps, n);
    }
  }

  // ---------------------------------------------------------------------------
  // No reservation is lost
  // ---------------------------------------------------------------------------

  /** The entry still needs its reservation, or has asked for its release. */
  predicate Owed(s: State, n: nat) {
    n in s.waiting || n in s.inflight || n in s.requested
  }

  lemma SettleOneOwes(s: State, m: nat, owner: Owner, n: nat)
    requires Owed(s, n) && (owner.ByFlush? ==> n != m || n !in owner.transferred)
    ensures Owed(SettleOne(s, m, owner), n)
  {
  }

  lemma {:induction false} SettleOwes(s: State, ns: seq<nat>, owner: Owner, n: nat)
    requires Owed(s, n) && (owner.ByFlush? ==> n !in owner.transferred)
    ensures Owed(Settle(s, ns, owner), n)
  {
    if ns != [] {
      var m := |ns| - 1;
      SettleOwes(s, ns[..m], owner, n);
      SettleOneOwes(SettleEach(s, ns[..m], owner), ns[m], owner, n);
    }
  }

  /** A stopped entry asks for its release. */
  lemma {:induction false} StoppedAsks(s: State, ns: seq<nat>, owner: Owner, n: nat)
    requires n in ns && !owner.ByFlush?
    ensures n in Settle(s, ns, owner).requested
  {
    var m := |ns| - 1;
    assert ns == ns[..m] + [ns[m]];
    if ns[m] != n {
      StoppedAsks(s, ns[..m], owner, n);
    }
  }

  lemma CancelOwes(s: State, notify: Notify, active: seq<nat>, n: nat)
    requires Inv(s) && Lists(active, s.inflight) && Owed(s, n)
    ensures Owed(Cancelled(s, notify, active), n)
  {
    var newly := Newly(s, notify, active);
    if newly != [] {
      var t := s.(bucket := None, waiting := [], generation := s.generation + 1, mark := s.pushed);
      if notify == Yes {
        RequestedFrame(t, newly);
      } else {
        var owner := if notify == No then ByRetire else ByCancel;
        if n in s.waiting {
          assert n in active + s.waiting;
          StoppedAsks(t, newly, owner, n);
        } else {
          SettleOwes(t, newly, owner, n);
        }
      }
    }
  }

  lemma DisposeOwes(s: State, active: seq<nat>, n: nat)
    requires Inv(s) && Owed(s, n)
    ensures Owed(Disposed(s, active), n)
  {
    if !s.disposed {
      assert Holds(s, Fresh);
      var t := s.(disposed := true, generation := if s.bucket.Some? then s.generation + 1 else s.generation);
      var u := WaitingRetired(s.(disposed := true));
      if s.bucket.Some? {
        if n in s.waiting {
          StoppedAsks(t, s.waiting, ByRetire, n);
        } else {
          SettleOwes(t, s.waiting, ByRetire, n);
        }
      }
      SettleFrame(t, s.waiting, ByRetire);
      var v := u.(bucket := None, waiting := [], mark := s.pushed);
      assert Owed(v, n);
      SettleOwes(v, active, ByRetire, n);
    }
  }

  lemma StartOwes(s: State, n: nat)
    requires Owed(s, n)
    ensures Owed(Started(s), n)
  {
    if s.queued != [] && (s.disposed || s.generation != s.queued[0].generation) {
      SettleOwes(s.(queued := s.queued[1..]), s.queued[0].entries, ByFlush({}), n);
    }
  }

  lemma StepOwes(s: State, step: Step, n: nat)
    requires Inv(s) && Legal(s, step) && Owed(s, n) && (step.FlushDone? ==> n !in step.transferred)
    ensures Owed(Apply(s, step), n)
  {
    match step
    case StartNext => StartOwes(s, n);
    case FlushDone(transferred) => SettleOwes(s, s.running.value.entries, ByFlush(transferred), n);
    case Cancel(notify, active) => CancelOwes(s, notify, active, n);
    case CancelSettles(entries) => SettleOwes(s.(cancelRunning := s.cancelRunning - SetOf(entries)), entries, ByCancel, n);
    case Dispose(active) => DisposeOwes(s, active, n);
    case _ =>
  }

  /**
   * In every run an accepted entry is waiting, in flight, or has asked for the release of its reservation, unless the
   * dispatcher took the reservation over when a flush ended.
   */
  lemma {:induction false} NoReservationIsLost(steps: seq<Step>, n: nat)
    requires LegalRun(steps) && n < Run(steps).pushed
    ensures Owed(Run(steps), n) || exists k :: 0 <= k < |steps| && steps[k].FlushDone? && n in steps[k].transferred
  {
    var init, step := steps[..|steps| - 1], steps[|steps| - 1];
    var s := Run(init);
    RunKeepsInv(init);
    PushesOnly(s, step);
    if n < s.pushed {
      NoReservationIsLost(init, n);
      if Owed(s, n) {
        if step.FlushDone? && n in step.transferred {
          assert steps[|init|] == step;
        } else {
          StepOwes(s, step, n);
        }
      } else {
        var k :| 0 <= k < |init| && init[k].FlushDone? && n in init[k].transferred;
        assert steps[k] == init[k];
      }
    }
  }

  lemma PushesOnly(s: State, step: Step)
    ensures step.Push? && !s.disposed ==>
              Apply(s, step).pushed == s.pushed + 1 && s.pushed in Apply(s, step).waiting
    ensures !step.Push? || s.disposed ==> Apply(s, step).pushed == s.pushed
  {
    match step
    case Push => assert s.pushed == (s.waiting + [s.pushed])[|s.waiting|];
    case StartNext =>
      if s.queued != [] {
        SettleFrame(s.(queued := s.queued[1..]), s.queued[0].entries, ByFlush({}));
      }
    case FlushDone(transferred) =>
      if s.running.Some? {
        SettleFrame(s, s.running.value.entries, ByFlush(transferred));
      }
    case Cancel(notify, active) => CancelPushes(s, notify, active);
    case CancelSettles(entries) => SettleFrame(s.(cancelRunning := s.cancelRunning - SetOf(entries)), entries, ByCancel);
    case Dispose(active) => DisposePushes(s, active);
    case _ =>
  }

  lemma DisposePushes(s: State, active: seq<nat>)
    ensures Disposed(s, active).pushed == s.pushed
  {
    if !s.disposed {
      var t := s.(disposed := true, generation := if s.bucket.Some? then s.generation + 1 else s.generation);
      SettleFrame(t, s.waiting, ByRetire);
      var u := WaitingRetired(s.(disposed := true));
      SettleFrame(u.(bucket := None, waiting := [], mark := s.pushed), active, ByRetire);
    }
  }

  // ---------------------------------------------------------------------------
  // A flush ends
  // ---------------------------------------------------------------------------

  lemma {:induction false} FlushedAsks(s: State, ns: seq<nat>, transferred: set<nat>, n: nat)
    requires n !in s.cancelPending
    ensures var t := SettleEach(s, ns, ByFlush(transferred));
            && n !in t.cancelPending && t.cancelHold == s.cancelHold && t.holds == s.holds
            && (n in ns && n !in transferred ==> n in t.requested && n !in t.inflight)
            && (n in ns && n in transferred ==> (n in t.requested <==> n in s.requested) && n !in t.inflight)
            && (n !in ns ==> (n in t.requested <==> n in s.requested) && (n in t.inflight <==> n in s.inflight))
  {
    if ns != [] {
      var m := |ns| - 1;
      FlushedAsks(s, ns[..m], transferred, n);
      assert ns == ns[..m] + [ns[m]];
    }
  }

  /**
   * When a flush ends, each of its entries that no cancellation has claimed is out of flight; its reservation goes
   * back to the budget exactly if the dispatcher did not take it over, unless it had been asked back before.
   */
  lemma FlushGivesBack(steps: seq<Step>, transferred: set<nat>, n: nat)
    requires LegalRun(steps) && Legal(Run(steps), FlushDone(transferred)) && n in Run(steps).running.value.entries
    requires n !in Run(steps).cancelRequested && n !in Run(steps).cancelPending && n !in Run(steps).requested
    ensures var t := Done(Run(steps), transferred);
            n !in t.inflight && (Released(t, n) <==> n !in transferred)
  {
    var s := Run(steps);
    var r := s.running.value;
    RunKeepsInv(steps);
    assert Holds(s, Requesting) && Holds(s, Beginning) && Holds(s, Counted);
    FlushedAsks(s, r.entries, transferred, n);
    UnpinAllIs(s.holds, r.pinned);
  }

  // ---------------------------------------------------------------------------
  // A cancellation reaches everything
  // ---------------------------------------------------------------------------

  lemma {:induction false} StoppedIsOut(s: State, ns: seq<nat>, owner: Owner, n: nat)
    requires n in ns && !owner.ByFlush?
    ensures n !in Settle(s, ns, owner).inflight
  {
    var m := |ns| - 1;
    assert ns == ns[..m] + [ns[m]];
    if ns[m] != n {
      StoppedIsOut(s, ns[..m], owner, n);
    }
  }

  /** Marked and still in flight, and handed to one callback if not marked before. */
  predicate Notified(s: State, t: State, n: nat) {
    && n in t.cancelRequested && n in t.inflight
    && (n !in s.cancelRequested ==>
          && |t.cancellations| == |s.cancellations| + 1 && n in t.cancellations[|s.cancellations|]
          && forall i :: 0 <= i < |s.cancellations| ==> n !in t.cancellations[i])
  }

  lemma NotifiesAll(s: State, active: seq<nat>, n: nat)
    requires Inv(s) && Lists(active, s.inflight) && n in active + s.waiting
    ensures Notified(s, Cancelled(s, Yes, active), n)
  {
    assert Holds(s, Requesting) && Holds(s, Fresh);
    KeepIs(active + s.waiting, s.cancelRequested);
    var newly := Newly(s, Yes, active);
    if newly == [] {
      NoneWaiting(s, Yes, active);
    } else {
      RequestedFrame(s.(bucket := None, waiting := [], generation := s.generation + 1, mark := s.pushed), newly);
    }
  }

  lemma SettlesAll(s: State, notify: Notify, active: seq<nat>, n: nat)
    requires Lists(active, s.inflight) && n in active + s.waiting && notify != Yes
    ensures var t := Cancelled(s, notify, active); n !in t.inflight && n in t.requested && t.waiting == []
  {
    var newly := active + s.waiting;
    var t := s.(bucket := None, waiting := [], generation := s.generation + 1, mark := s.pushed);
    var owner := if notify == No then ByRetire else ByCancel;
    SettleFrame(t, newly, owner);
    StoppedIsOut(t, newly, owner, n);
    StoppedAsks(t, newly, owner, n);
  }

  /**
   * In every run a cancellation reaches every entry in flight or waiting: one that notifies marks them, keeps them in
   * flight, and hands those not marked before, and only those, to one callback; one that does not settles them at once.
   */
  lemma CancelReachesAll(steps: seq<Step>, notify: Notify, active: seq<nat>, n: nat)
    requires LegalRun(steps) && Legal(Run(steps), Cancel(notify, active))
    requires n in Run(steps).inflight || n in Run(steps).waiting
    ensures var s, t := Run(steps), Cancelled(Run(steps), notify, active);
            if notify == Yes then Notified(s, t, n) else n !in t.inflight && n in t.requested && t.waiting == []
  {
    RunKeepsInv(steps);
    if notify == Yes {
      NotifiesAll(Run(steps), active, n);
    } else {
      SettlesAll(Run(steps), notify, active, n);
    }
  }

  lemma NoneWaiting(s: State, notify: Notify, active: seq<nat>)
    requires Inv(s) && Lists(active, s.inflight) && Newly(s, notify, active) == []
    ensures s.waiting == []
  {
    assert Holds(s, Fresh);
    KeepIs(active + s.waiting, s.cancelRequested);
    assert forall n :: n in s.waiting ==> n in active + s.waiting;
    HasMember(s.waiting);
  }
}
