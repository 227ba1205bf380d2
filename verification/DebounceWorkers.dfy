/**
 * The chain objects and pump continuations of one debouncer key. Chains are dropped from the table and made anew, and
 * a continuation outlives the chain it was made for, so that there is one worker at a time is something to prove.
 */
module DebounceWorkers {
  import opened Options
  import Debounce

  /** Where a pump's continuation stands; a stale batch goes through the loop without its callback. */
  datatype Phase = Looping | Flushing(callback: bool) | Resolved | Over

  datatype Pump = Pump(chain: nat, phase: Phase)

  datatype Chain = Chain(queued: nat, worker: Option<nat>)

  /** Every chain and pump the key ever had, and which chain its table entry is. */
  datatype Lanes = Lanes(chains: seq<Chain>, entry: Option<nat>, pumps: seq<Pump>)

  const INITIAL := Lanes([], None, [])

  datatype Step = Enqueue | Turn(p: nat, current: bool) | Return(p: nat) | Finish(p: nat) | Clear

  predicate Named(l: Lanes) {
    && (l.entry.Some? ==> l.entry.value < |l.chains|)
    && (forall p :: 0 <= p < |l.pumps| ==> l.pumps[p].chain < |l.chains|)
  }

  predicate Legal(l: Lanes, step: Step) {
    && Named(l)
    && match step
       case Turn(p, _) => p < |l.pumps| && l.pumps[p].phase == Looping
       case Return(p) => p < |l.pumps| && l.pumps[p].phase.Flushing?
       case Finish(p) => p < |l.pumps| && l.pumps[p].phase == Resolved
       case _ => true
  }

  // ---------------------------------------------------------------------------
  // Steps
  // ---------------------------------------------------------------------------

  function WithChain(l: Lanes, c: nat, chain: Chain): Lanes
    requires c < |l.chains|
  {
    l.(chains := l.chains[c := chain])
  }

  function WithPhase(l: Lanes, p: nat, phase: Phase): Lanes
    requires p < |l.pumps|
  {
    l.(pumps := l.pumps[p := l.pumps[p].(phase := phase)])
  }

  /** `pump()`: a chain that has a worker gets no second one. */
  function Pumped(l: Lanes, c: nat): Lanes
    requires c < |l.chains|
  {
    if l.chains[c].worker.Some? then l
    else WithChain(l, c, l.chains[c].(worker := Some(|l.pumps|))).(pumps := l.pumps + [Pump(c, Looping)])
  }

  function Enqueued(l: Lanes): Lanes
    requires Named(l)
  {
    if l.entry.Some? then
      var c := l.entry.value;
      Pumped(WithChain(l, c, l.chains[c].(queued := l.chains[c].queued + 1)), c)
    else Pumped(l.(chains := l.chains + [Chain(1, None)], entry := Some(|l.chains|)), |l.chains|)
  }

  function Turned(l: Lanes, p: nat, current: bool): Lanes
    requires Named(l) && p < |l.pumps|
  {
    var c := l.pumps[p].chain;
    if l.chains[c].queued == 0 then WithPhase(l, p, Resolved)
    else WithPhase(WithChain(l, c, l.chains[c].(queued := l.chains[c].queued - 1)), p, Flushing(current))
  }

  /** The worker's own continuation, which another worker of the chain would keep from acting. */
  function Finished(l: Lanes, p: nat): Lanes
    requires Named(l) && p < |l.pumps|
  {
    var c, over := l.pumps[p].chain, WithPhase(l, p, Over);
    if l.chains[c].worker != Some(p) then over
    else
      var idle := WithChain(over, c, l.chains[c].(worker := None));
      if l.chains[c].queued > 0 then Pumped(idle, c)
      else if l.entry == Some(c) then idle.(entry := None)
      else idle
  }

  function Cleared(l: Lanes): Lanes
    requires Named(l)
  {
    if l.entry.Some? then WithChain(l, l.entry.value, l.chains[l.entry.value].(queued := 0)) else l
  }

  function Apply(l: Lanes, step: Step): Lanes {
    if !Legal(l, step) then l
    else
      match step
      case Enqueue => Enqueued(l)
      case Turn(p, current) => Turned(l, p, current)
      case Return(p) => WithPhase(l, p, Looping)
      case Finish(p) => Finished(l, p)
      case Clear => Cleared(l)
  }

  function Run(steps: seq<Step>): Lanes {
    if steps == [] then INITIAL else Apply(Run(steps[..|steps| - 1]), steps[|steps| - 1])
  }

  // ---------------------------------------------------------------------------
  // One worker
  // ---------------------------------------------------------------------------

  predicate Live(l: Lanes, p: nat) {
    p < |l.pumps| && l.pumps[p].phase != Over
  }

  /** A live pump is the worker of the chain in the table; a chain not in the table has nothing queued and no worker. */
  ghost predicate Inv(l: Lanes) {
    && Named(l)
    && (forall p: nat :: Live(l, p) ==> l.entry == Some(l.pumps[p].chain) && l.chains[l.pumps[p].chain].worker == Some(p))
    && (forall c: nat :: c < |l.chains| && l.entry != Some(c) ==> l.chains[c] == Chain(0, None))
    && (l.entry.Some? ==> l.chains[l.entry.value].worker.Some? && Live(l, l.chains[l.entry.value].worker.value))
  }

  lemma EnqueueKeeps(l: Lanes)
    requires Inv(l)
    ensures Inv(Enqueued(l))
  {
    var t := Enqueued(l);
    forall p: nat | Live(t, p)
      ensures t.entry == Some(t.pumps[p].chain) && t.chains[t.pumps[p].chain].worker == Some(p)
    {
      assert Live(l, p) || p == |l.pumps|;
    }
  }

  lemma FinishKeeps(l: Lanes, p: nat)
    requires Inv(l) && Legal(l, Finish(p))
    ensures Inv(Finished(l, p))
  {
    assert Live(l, p);
    var t := Finished(l, p);
    forall q: nat | Live(t, q)
      ensures t.entry == Some(t.pumps[q].chain) && t.chains[t.pumps[q].chain].worker == Some(q)
    {
      assert q != p && (Live(l, q) || q == |l.pumps|);
    }
  }

  lemma PhaseKeeps(l: Lanes, p: nat, phase: Phase)
    requires Inv(l) && Live(l, p) && phase != Over
    ensures Inv(WithPhase(l, p, phase))
  {
    var t := WithPhase(l, p, phase);
    forall q: nat ensures Live(t, q) <==> Live(l, q) {
    }
  }

  lemma QueueKeeps(l: Lanes, queued: nat)
    requires Inv(l) && l.entry.Some?
    ensures Inv(WithChain(l, l.entry.value, l.chains[l.entry.value].(queued := queued)))
  {
    var t := WithChain(l, l.entry.value, l.chains[l.entry.value].(queued := queued));
    forall q: nat ensures Live(t, q) <==> Live(l, q) {
    }
  }

  lemma StepKeepsInv(l: Lanes, step: Step)
    requires Inv(l)
    ensures Inv(Apply(l, step))
  {
    if Legal(l, step) {
      match step
      case Enqueue => EnqueueKeeps(l);
      case Turn(p, current) =>
        assert Live(l, p);
        var c := l.pumps[p].chain;
        if l.chains[c].queued > 0 {
          QueueKeeps(l, l.chains[c].queued - 1);
          var t := WithChain(l, c, l.chains[c].(queued := l.chains[c].queued - 1));
          assert Live(t, p);
          PhaseKeeps(t, p, Flushing(current));
        } else {
          PhaseKeeps(l, p, Resolved);
        }
      case Return(p) => PhaseKeeps(l, p, Looping);
      case Finish(p) => FinishKeeps(l, p);
      case Clear =>
        if l.entry.Some? {
          QueueKeeps(l, 0);
        }
    }
  }

  lemma {:induction false} RunKeepsInv(steps: seq<Step>)
    ensures Inv(Run(steps))
  {
    if steps != [] {
      RunKeepsInv(steps[..|steps| - 1]);
      StepKeepsInv(Run(steps[..|steps| - 1]), steps[|steps| - 1]);
    }
  }

  /** However chains come and go, a key never has two workers under way, so never two flushes. */
  lemma OneWorker(steps: seq<Step>, p: nat, q: nat)
    requires Live(Run(steps), p) && Live(Run(steps), q)
    ensures p == q
  {
    RunKeepsInv(steps);
  }

  /** No batch is lost with a chain: one that has a batch queued is in the table, with a worker that will come to it. */
  lemma QueuedHasWorker(steps: seq<Step>, c: nat)
    requires c < |Run(steps).chains| && Run(steps).chains[c].queued > 0
    ensures var l := Run(steps); l.entry == Some(c) && l.chains[c].worker.Some? && Live(l, l.chains[c].worker.value)
  {
    RunKeepsInv(steps);
  }

  // ---------------------------------------------------------------------------
  // One record is enough
  // ---------------------------------------------------------------------------

  /** The key's record in Debounce knows the one worker's phase, the length of its queue, and whether a callback runs. */
  ghost predicate Matches(l: Lanes, s: Debounce.State) {
    if l.entry.None? then s.worker == Debounce.Absent && s.queued == [] && s.running.None?
    else
      var c := l.entry.value;
      && c < |l.chains| && l.chains[c].worker.Some? && l.chains[c].worker.value < |l.pumps|
      && var phase := l.pumps[l.chains[c].worker.value].phase;
         && |s.queued| == l.chains[c].queued
         && s.worker == (if phase == Resolved then Debounce.Ending else Debounce.Looping)
         && (s.running.Some? <==> phase == Flushing(true))
  }

  lemma DetachMatches(l: Lanes, s: Debounce.State, bucket: nat)
    requires Inv(l) && Matches(l, s) && s.bucket == Some(bucket)
    ensures Matches(Enqueued(l), Debounce.Detached(s, bucket))
  {
  }

  lemma TurnMatches(l: Lanes, s: Debounce.State, p: nat)
    requires Inv(l) && Legal(l, Turn(p, true)) && Matches(l, s)
    ensures Debounce.Legal(s, Debounce.StartNext)
    ensures var current := s.queued != [] && !s.disposed && s.generation == s.queued[0].generation;
            Matches(Turned(l, p, current), Debounce.Started(s))
  {
    if s.queued != [] {
      Debounce.SettleFrame(s.(queued := s.queued[1..]), s.queued[0].entries, Debounce.ByFlush({}));
    }
  }

  lemma ReturnMatches(l: Lanes, s: Debounce.State, p: nat, transferred: set<nat>)
    requires Inv(l) && Legal(l, Return(p)) && Matches(l, s)
    ensures l.pumps[p].phase.callback ==> Debounce.Legal(s, Debounce.FlushDone(transferred))
    ensures Matches(Apply(l, Return(p)), if l.pumps[p].phase.callback then Debounce.Done(s, transferred) else s)
  {
    if s.running.Some? {
      Debounce.SettleFrame(s, s.running.value.entries, Debounce.ByFlush(transferred));
    }
  }

  lemma FinishMatches(l: Lanes, s: Debounce.State, p: nat)
    requires Inv(l) && Legal(l, Finish(p)) && Matches(l, s)
    ensures Debounce.Legal(s, Debounce.WorkerEnds) && Matches(Finished(l, p), Debounce.WorkerGone(s))
  {
  }

  lemma ClearMatches(l: Lanes, s: Debounce.State)
    requires Inv(l) && Matches(l, s)
    ensures Matches(Cleared(l), Debounce.Severed(s))
  {
  }

  /** A cancellation clears the chain exactly when it retires and finds something; else it leaves the workers alone. */
  lemma CancelMatches(l: Lanes, s: Debounce.State, notify: Debounce.Notify, active: seq<nat>)
    requires Inv(l) && Matches(l, s)
    ensures var clears := notify == Debounce.No && Debounce.Newly(s, notify, active) != [];
            Matches(if clears then Cleared(l) else l, Debounce.Cancelled(s, notify, active))
  {
    var newly := Debounce.Newly(s, notify, active);
    if newly != [] {
      var t := s.(bucket := None, waiting := [], generation := s.generation + 1, mark := s.pushed);
      if notify == Debounce.Yes {
        Debounce.RequestedFrame(t, newly);
      } else {
        var owner := if notify == Debounce.No then Debounce.ByRetire else Debounce.ByCancel;
        Debounce.SettleFrame(t, newly, owner);
        ClearMatches(l, Debounce.Settle(t, newly, owner));
      }
    }
  }

  lemma DisposeMatches(l: Lanes, s: Debounce.State, active: seq<nat>)
    requires Inv(l) && Matches(l, s)
    ensures Matches(if s.disposed then l else Cleared(l), Debounce.Disposed(s, active))
  {
    if !s.disposed {
      var t := s.(disposed := true, generation := if s.bucket.Some? then s.generation + 1 else s.generation);
      Debounce.SettleFrame(t, s.waiting, Debounce.ByRetire);
      var u := Debounce.WaitingRetired(s.(disposed := true)).(bucket := None, waiting := [], mark := s.pushed);
      Debounce.SettleFrame(u, active, Debounce.ByRetire);
      ClearMatches(l, Debounce.Settle(u, active, Debounce.ByRetire));
    }
  }

  /** The other steps of the record move no worker. */
  lemma OthersMatch(l: Lanes, s: Debounce.State, step: Debounce.Step)
    requires Matches(l, s)
    requires step.Push? || step.CancelStarts? || step.CancelSettles? || (step.Detach? && s.bucket != Some(step.bucket))
    ensures Matches(l, Debounce.Apply(s, step))
  {
    if step.CancelSettles? {
      Debounce.SettleFrame(s.(cancelRunning := s.cancelRunning - Debounce.SetOf(step.entries)), step.entries, Debounce.ByCancel);
    }
  }
}
