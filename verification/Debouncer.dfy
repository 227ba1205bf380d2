/** One key's share of the debouncer's closure state, and its operations as they change it. */
module Debouncer {
  import opened Options
  import opened Debounce

  class Key {
    var bucket: Option<nat>
    var nextBucket: nat
    var waiting: seq<nat>
    var worker: Worker
    var queued: seq<Batch>
    var running: Option<Running>

    /** The key's `inflightByKey` set, in insertion order. */
    var inflight: seq<nat>
    var generation: nat
    var disposed: bool

    /** Reservations and per-entry cancellation state. */
    var requested: set<nat>
    var holds: map<nat, nat>
    var cancelRequested: set<nat>
    var cancelPending: set<nat>
    var cancelRunning: set<nat>
    var cancelHold: set<nat>
    var retired: set<nat>
    var cancellations: seq<seq<nat>>
    var pushed: nat

    ghost var flushed: seq<nat>
    ghost var mark: nat

    ghost function View(): State
      reads this
    {
      State(bucket, nextBucket, waiting, worker, queued, running, SetOf(inflight), generation, disposed, requested, holds,
            cancelRequested, cancelPending, cancelRunning, cancelHold, retired, cancellations, pushed, flushed, mark)
    }

    ghost predicate Valid()
      reads this
    {
      Inv(View()) && Lists(inflight, SetOf(inflight))
    }

    constructor ()
      ensures Valid() && View() == INITIAL
    {
      bucket, nextBucket, waiting, worker, queued, running := None, 0, [], Absent, [], None;
      inflight, generation, disposed, requested, holds := [], 0, false, {}, map[];
      cancelRequested, cancelPending, cancelRunning, cancelHold, retired := {}, {}, {}, {}, {};
      cancellations, pushed, flushed, mark := [], 0, [], 0;
      new;
      assert SetOf(inflight) == {};
      assert View() == INITIAL;
      RunKeepsInv([]);
      assert Run([]) == INITIAL;
    }

    twostate predicate Did(step: Step)
      reads this
    {
      Valid() && View() == Apply(old(View()), step)
    }

    // -------------------------------------------------------------------------
    // Settlement
    // -------------------------------------------------------------------------

    /** One pass of the settlement loop. */
    method SettleEntry(n: nat, owner: Owner)
      requires Lists(inflight, SetOf(inflight))
      modifies `inflight, `requested, `cancelPending, `retired, `holds, `cancelHold
      ensures View() == SettleOne(old(View()), n, owner) && Lists(inflight, SetOf(inflight))
    {
      match owner
      case ByFlush(transferred) =>
        if n !in cancelPending {
          ReleaseEntry(n, n !in transferred);
        }
      case _ => SettleStopped(n, owner);
    }

    method SettleStopped(n: nat, owner: Owner)
      requires Lists(inflight, SetOf(inflight)) && !owner.ByFlush?
      modifies `inflight, `requested, `cancelPending, `retired, `holds, `cancelHold
      ensures View() == SettleOne(old(View()), n, owner) && Lists(inflight, SetOf(inflight))
    {
      StopEntry(n, owner);
      ReleaseCancellationHold(n, owner);
    }

    method StopEntry(n: nat, owner: Owner)
      requires Lists(inflight, SetOf(inflight))
      modifies `inflight, `requested, `cancelPending, `retired
      ensures View() == Stopped(old(View()), n, owner) && Lists(inflight, SetOf(inflight))
    {
      EndCancellation(n, owner.ByRetire?);
      ReleaseEntry(n, true);
    }

    method EndCancellation(n: nat, retire: bool)
      modifies `cancelPending, `retired
      ensures cancelPending == old(cancelPending) - {n}
      ensures retired == if retire then old(retired) + {n} else old(retired)
    {
      cancelPending := cancelPending - {n};
      if retire {
        retired := retired + {n};
      }
    }

    method ReleaseCancellationHold(n: nat, owner: Owner)
      modifies `holds, `cancelHold
      ensures View() == HoldFreed(old(View()), n, owner)
    {
      if n in cancelHold && (owner.ByCancel? || n !in cancelRunning) {
        holds := Unpin(holds, n);
        cancelHold := cancelHold - {n};
      }
    }

    method ReleaseEntry(n: nat, requestRelease: bool)
      requires Lists(inflight, SetOf(inflight))
      modifies `inflight, `requested
      ensures requested == (if requestRelease then old(requested) + {n} else old(requested))
      ensures SetOf(inflight) == old(SetOf(inflight)) - {n} && Lists(inflight, SetOf(inflight))
    {
      if requestRelease {
        requested := requested + {n};
      }
      DropIs(inflight, n);
      inflight := Drop(inflight, n);
    }

    method SettleEntries(ns: seq<nat>, owner: Owner)
      requires Lists(inflight, SetOf(inflight))
      modifies `inflight, `requested, `cancelPending, `retired, `holds, `cancelHold, `generation
      ensures View() == Settle(old(View()), ns, owner) && Lists(inflight, SetOf(inflight))
    {
      ghost var s0 := View();
      assert ns[..0] == [];
      for i := 0 to |ns|
        invariant View() == SettleEach(s0, ns[..i], owner) && Lists(inflight, SetOf(inflight))
      {
        assert ns[..i + 1][..i] == ns[..i];
        SettleEntry(ns[i], owner);
      }
      assert ns[..|ns|] == ns;
      ForgetGeneration();
    }

    method ForgetGeneration()
      modifies `generation
      ensures View() == Forget(old(View()))
    {
      EmptySet(inflight);
      if worker == Absent && bucket.None? && inflight == [] {
        generation := 0;
      }
    }

    // -------------------------------------------------------------------------
    // Pushing and flushing
    // -------------------------------------------------------------------------

    /** The accepting path: the reservation is made, the entry kept, and a first entry schedules the flush. */
    method Push() returns (timer: Option<nat>)
      requires Valid()
      modifies this
      ensures Did(Step.Push)
      ensures timer == if !old(disposed) && old(bucket).None? then Some(old(nextBucket)) else None
    {
      StepKeepsInv(View(), Step.Push);
      timer := None;
      if disposed {
        return;
      }
      waiting := waiting + [pushed];
      pushed := pushed + 1;
      if bucket.None? {
        bucket := Some(nextBucket);
        timer := bucket;
        nextBucket := nextBucket + 1;
      }
    }

    method DetachAndQueue(timer: nat)
      requires Valid()
      modifies this
      ensures Did(Detach(timer))
    {
      StepKeepsInv(View(), Detach(timer));
      if bucket == Some(timer) {
        QueueBucket();
      }
    }

    /** The bucket becomes a batch of the current generation, indexed as in flight, with a worker to come to it. */
    method QueueBucket()
      requires Lists(inflight, SetOf(inflight)) && bucket.Some?
      modifies this`bucket, this`waiting, this`inflight, this`queued, this`worker
      ensures View() == Detached(old(View()), old(bucket).value) && Lists(inflight, SetOf(inflight))
    {
      var entries := TakeBucket();
      TrackInflight(entries);
      Pump(entries);
    }

    method TakeBucket() returns (entries: seq<nat>)
      modifies `bucket, `waiting
      ensures entries == old(waiting) && bucket == None && waiting == []
    {
      entries := waiting;
      bucket, waiting := None, [];
    }

    method Pump(entries: seq<nat>)
      modifies `queued, `worker
      ensures queued == old(queued) + [Batch(entries, generation)]
      ensures worker == if old(worker) == Absent then Looping else old(worker)
    {
      queued := queued + [Batch(entries, generation)];
      if worker == Absent {
        worker := Looping;
      }
    }

    method TrackInflight(entries: seq<nat>)
      requires Lists(inflight, SetOf(inflight))
      modifies `inflight
      ensures SetOf(inflight) == old(SetOf(inflight)) + SetOf(entries) && Lists(inflight, SetOf(inflight))
    {
      ghost var before := SetOf(inflight);
      assert SetOf(entries[..0]) == {};
      for i := 0 to |entries|
        invariant SetOf(inflight) == before + SetOf(entries[..i]) && Lists(inflight, SetOf(inflight))
      {
        SetOfSnoc(entries[..i], entries[i]);
        assert entries[..i + 1] == entries[..i] + [entries[i]];
        if entries[i] !in inflight {
          SetOfSnoc(inflight, entries[i]);
          inflight := inflight + [entries[i]];
        }
      }
      assert entries[..|entries|] == entries;
    }

    /** The worker's loop, up to its next await: the flush callback starts only for the key's own generation. */
    method NextBatch() returns (started: bool)
      requires Valid() && worker == Looping && running.None?
      modifies this
      ensures Did(StartNext)
      ensures started <==> running.Some?
    {
      StepKeepsInv(View(), StartNext);
      started := false;
      if queued == [] {
        worker := Ending;
      } else {
        started := RunFlush();
      }
    }

    method RunFlush() returns (started: bool)
      requires Lists(inflight, SetOf(inflight)) && queued != [] && running.None?
      modifies this
      ensures View() == Started(old(View())) && Lists(inflight, SetOf(inflight))
      ensures started <==> running.Some?
    {
      var batch := ShiftBatch();
      started := !disposed && generation == batch.generation;
      if started {
        BeginCallback(batch.entries);
      } else {
        SettleEntries(batch.entries, ByFlush({}));
      }
    }

    method ShiftBatch() returns (batch: Batch)
      requires queued != []
      modifies `queued
      ensures batch == old(queued[0]) && View() == old(View()).(queued := old(queued[1..]))
    {
      batch := queued[0];
      queued := queued[1..];
    }

    /** Every reservation is pinned before the callback sees the entries. */
    method BeginCallback(entries: seq<nat>)
      modifies `holds, `running, `flushed
      ensures View() == old(View()).(running := Some(Running(entries, entries)), holds := PinAll(old(holds), entries),
                                     flushed := old(flushed) + entries)
    {
      PinEntries(entries);
      running := Some(Running(entries, entries));
      flushed := flushed + entries;
    }

    method PinEntries(entries: seq<nat>)
      modifies `holds
      ensures holds == PinAll(old(holds), entries)
    {
      ghost var h0 := holds;
      assert entries[..0] == [];
      for i := 0 to |entries|
        invariant holds == PinAll(h0, entries[..i])
      {
        assert entries[..i + 1][..i] == entries[..i];
        holds := Pin(holds, entries[i]);
      }
      assert entries[..|entries|] == entries;
    }

    method UnpinEntries(entries: seq<nat>)
      modifies `holds
      ensures holds == UnpinAll(old(holds), entries)
    {
      ghost var h0 := holds;
      assert entries[..0] == [];
      for i := 0 to |entries|
        invariant holds == UnpinAll(h0, entries[..i])
      {
        assert entries[..i + 1][..i] == entries[..i];
        holds := Unpin(holds, entries[i]);
      }
      assert entries[..|entries|] == entries;
    }

    /** The callback settled, either way: entries the dispatcher took over keep their reservation. */
    method FinishFlush(transferred: set<nat>)
      requires Valid() && running.Some?
      modifies this
      ensures Did(FlushDone(transferred))
    {
      StepKeepsInv(View(), FlushDone(transferred));
      var flush := running.value;
      SettleEntries(flush.entries, ByFlush(transferred));
      UnpinEntries(flush.pinned);
      running := None;
    }

    /** The worker's own continuation: a batch queued meanwhile gets a new worker, else the chain goes. */
    method EndWorker()
      requires Valid() && worker == Ending
      modifies this
      ensures Did(WorkerEnds)
    {
      StepKeepsInv(View(), WorkerEnds);
      EmptySet(inflight);
      if queued != [] {
        worker := Looping;
        return;
      }
      worker := Absent;
      if bucket.None? && inflight == [] {
        generation := 0;
      }
    }

    // -------------------------------------------------------------------------
    // Cancellation
    // -------------------------------------------------------------------------

    /** `Yes` asks for notification of a debouncer that has a cancellation callback. */
    method CancelKey(notify: Notify) returns (cancelled: bool)
      requires Valid()
      modifies this
      ensures Did(Cancel(notify, old(inflight)))
      ensures cancelled <==> Newly(old(View()), notify, old(inflight)) != []
    {
      ghost var s0 := View();
      StepKeepsInv(s0, Cancel(notify, inflight));
      var union := inflight + waiting;
      var newly := if notify == Yes then Keep(union, cancelRequested) else union;
      if newly == [] {
        mark := pushed;
        return false;
      }
      cancelled := true;
      CancelEntries(newly, notify);
    }

    method CancelEntries(newly: seq<nat>, notify: Notify)
      requires Lists(inflight, SetOf(inflight))
      requires newly == Newly(View(), notify, inflight) && newly != []
      modifies this
      ensures View() == Cancelled(old(View()), notify, old(inflight)) && Lists(inflight, SetOf(inflight))
    {
      var waitingEntries := waiting;
      Invalidate();
      if notify == Yes {
        NotifyLater(newly, waitingEntries);
      } else {
        SettleNow(newly, notify == No);
      }
    }

    /** No timer, no waiting entry, and no batch of the old generation survives. */
    method Invalidate()
      modifies `bucket, `waiting, `generation, `mark
      ensures View() == old(View()).(bucket := None, waiting := [], generation := old(generation) + 1, mark := pushed)
    {
      var dropped := TakeBucket();
      generation := generation + 1;
      mark := pushed;
    }

    method NotifyLater(newly: seq<nat>, waitingEntries: seq<nat>)
      requires Lists(inflight, SetOf(inflight))
      modifies `cancelRequested, `cancelPending, `holds, `cancelHold, `inflight, `cancellations, `generation
      ensures Lists(inflight, SetOf(inflight))
      ensures View() == Forget(Requested(old(View()), newly).(inflight := SetOf(old(inflight)) + SetOf(waitingEntries),
                                                               cancellations := old(cancellations) + [newly]))
    {
      RequestCancellation(newly);
      TrackInflight(waitingEntries);
      cancellations := cancellations + [newly];
      ForgetGeneration();
    }

    method SettleNow(newly: seq<nat>, retire: bool)
      requires Lists(inflight, SetOf(inflight))
      modifies `inflight, `requested, `cancelPending, `retired, `holds, `cancelHold, `generation, `running, `queued, `cancellations
      ensures Lists(inflight, SetOf(inflight))
      ensures var u := Settle(old(View()), newly, if retire then ByRetire else ByCancel);
              View() == Forget(if retire then Severed(u) else u)
    {
      SettleEntries(newly, if retire then ByRetire else ByCancel);
      if retire {
        ClearCaptured();
      }
      ForgetGeneration();
    }

    method RequestCancellation(newly: seq<nat>)
      modifies `cancelRequested, `cancelPending, `holds, `cancelHold
      ensures View() == Requested(old(View()), newly)
    {
      ghost var s0 := View();
      assert newly[..0] == [];
      for i := 0 to |newly|
        invariant View() == Requested(s0, newly[..i])
      {
        assert newly[..i + 1][..i] == newly[..i];
        RequestEntry(newly[i]);
      }
      assert newly[..|newly|] == newly;
    }

    /** Marks one entry and pins it unless it is pinned for a cancellation already. */
    method RequestEntry(n: nat)
      modifies `cancelRequested, `cancelPending, `holds, `cancelHold
      ensures View() == RequestOne(old(View()), n)
    {
      MarkRequested(n);
      HoldForCancellation(n);
    }

    method MarkRequested(n: nat)
      modifies `cancelRequested, `cancelPending
      ensures cancelRequested == old(cancelRequested) + {n} && cancelPending == old(cancelPending) + {n}
    {
      cancelRequested := cancelRequested + {n};
      cancelPending := cancelPending + {n};
    }

    method HoldForCancellation(n: nat)
      modifies `holds, `cancelHold
      ensures holds == (if n in old(cancelHold) then old(holds) else Pin(old(holds), n))
      ensures cancelHold == old(cancelHold) + {n}
    {
      if n !in cancelHold {
        holds := Pin(holds, n);
        cancelHold := cancelHold + {n};
      }
    }

    /** Captured batches and cancellations that did not start yet. */
    method ClearCaptured()
      modifies `running, `queued, `cancellations
      ensures View() == Severed(old(View()))
    {
      if running.Some? {
        running := Some(running.value.(entries := []));
      }
      queued := [];
      cancellations := [];
    }

    method StartCancellation(i: nat) returns (entries: seq<nat>)
      requires Valid() && i < |cancellations|
      modifies this
      ensures Did(CancelStarts(i)) && entries == old(cancellations[i])
    {
      StepKeepsInv(View(), CancelStarts(i));
      entries := cancellations[i];
      cancellations := cancellations[..i] + cancellations[i + 1..];
      cancelRunning := cancelRunning + SetOf(entries);
    }

    method FinishCancellation(entries: seq<nat>)
      requires Valid() && Legal(View(), CancelSettles(entries))
      modifies this
      ensures Did(CancelSettles(entries))
    {
      StepKeepsInv(View(), CancelSettles(entries));
      cancelRunning := cancelRunning - SetOf(entries);
      SettleEntries(entries, ByCancel);
    }

    method Dispose() returns (ghost active: seq<nat>)
      requires Valid()
      modifies this
      ensures Did(Step.Dispose(active)) && disposed
      ensures SetOf(active) <= old(SetOf(inflight))
    {
      ghost var s0 := View();
      active := [];
      if !disposed {
        active := DisposeLive();
      }
      assert forall n :: n in active ==> n in SetOf(active);
      StepKeepsInv(s0, Step.Dispose(active));
    }

    /** Waiting entries first, then whatever is left in flight. */
    method DisposeLive() returns (ghost active: seq<nat>)
      requires Lists(inflight, SetOf(inflight)) && !disposed
      modifies this
      ensures Lists(inflight, SetOf(inflight)) && disposed
      ensures View() == Disposed(old(View()), active)
      ensures SetOf(active) <= old(SetOf(inflight))
    {
      ghost var s0 := View();
      disposed := true;
      RetireWaiting();
      mark := pushed;
      active := inflight;
      assert View() == WaitingRetired(s0.(disposed := true)).(bucket := None, waiting := [], mark := s0.pushed);
      SettleEntries(inflight, ByRetire);
      ClearCaptured();
    }

    method RetireWaiting()
      requires Lists(inflight, SetOf(inflight))
      modifies `inflight, `requested, `cancelPending, `retired, `holds, `cancelHold, `generation, `bucket, `waiting
      ensures Lists(inflight, SetOf(inflight)) && SetOf(inflight) <= old(SetOf(inflight))
      ensures View() == WaitingRetired(old(View())).(bucket := None, waiting := [])
    {
      ghost var s0 := View();
      if bucket.Some? {
        generation := generation + 1;
        ghost var s1 := View();
        SettleEntries(waiting, ByRetire);
        SettleFrame(s1, waiting, ByRetire);
      }
      assert View() == WaitingRetired(s0);
      bucket, waiting := None, [];
    }
  }

  function Drop(ns: seq<nat>, n: nat): seq<nat> {
    if ns == [] then [] else if ns[0] == n then ns[1..] else [ns[0]] + Drop(ns[1..], n)
  }

  lemma {:induction false} DropIs(ns: seq<nat>, n: nat)
    requires Lists(ns, SetOf(ns))
    ensures SetOf(Drop(ns, n)) == SetOf(ns) - {n} && Lists(Drop(ns, n), SetOf(Drop(ns, n)))
  {
    if ns != [] {
      var rest := ns[1..];
      assert ns == [ns[0]] + rest;
      assert Lists(rest, SetOf(rest));
      assert ns[0] !in rest;
      DropIs(rest, n);
      var d := Drop(rest, n);
      assert forall m :: m in d <==> m in SetOf(d);
      assert ns[0] !in d;
    }
  }

  lemma EmptySet(ns: seq<nat>)
    ensures SetOf(ns) == {} <==> ns == []
  {
    assert ns != [] ==> ns[0] in SetOf(ns);
  }

  lemma SetOfSnoc(ns: seq<nat>, n: nat)
    ensures SetOf(ns + [n]) == SetOf(ns) + {n}
  {
  }
}
