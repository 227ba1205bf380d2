/**
 * The per-key flush scheduler of the bounded inbound debouncer: one key's share of its maps, and the steps its
 * operations, timers and continuations take. Entries are known by the number of their push.
 */
module Debounce {
  import opened Options
  import opened Sequences

  datatype Batch = Batch(entries: seq<nat>, generation: nat)

  /** A started flush: the array its callback was given, and the entries whose reservations it pinned. */
  datatype Running = Running(entries: seq<nat>, pinned: seq<nat>)

  datatype Worker = Absent | Looping | Ending

  datatype Owner = ByFlush(transferred: set<nat>) | ByCancel | ByRetire

  datatype State = State(
    bucket: Option<nat>,
    nextBucket: nat,
    waiting: seq<nat>,
    worker: Worker,
    queued: seq<Batch>,
    running: Option<Running>,
    inflight: set<nat>,
    generation: nat,
    disposed: bool,
    requested: set<nat>,
    holds: map<nat, nat>,
    cancelRequested: set<nat>,
    cancelPending: set<nat>,
    cancelRunning: set<nat>,
    cancelHold: set<nat>,
    retired: set<nat>,
    cancellations: seq<seq<nat>>,
    pushed: nat,
    flushed: seq<nat>,
    mark: nat
  )

  const INITIAL := State(None, 0, [], Absent, [], None, {}, 0, false, {}, map[], {}, {}, {}, {}, {}, [], 0, [], 0)

  // ---------------------------------------------------------------------------
  // Reservations
  // ---------------------------------------------------------------------------

  function HoldsOf(holds: map<nat, nat>, n: nat): nat {
    if n in holds then holds[n] else 0
  }

  function Pin(holds: map<nat, nat>, n: nat): map<nat, nat> {
    holds[n := HoldsOf(holds, n) + 1]
  }

  function Unpin(holds: map<nat, nat>, n: nat): map<nat, nat> {
    holds[n := if HoldsOf(holds, n) > 0 then HoldsOf(holds, n) - 1 else 0]
  }

  function PinAll(holds: map<nat, nat>, ns: seq<nat>): map<nat, nat> {
    if ns == [] then holds else Pin(PinAll(holds, ns[..|ns| - 1]), ns[|ns| - 1])
  }

  function UnpinAll(holds: map<nat, nat>, ns: seq<nat>): map<nat, nat> {
    if ns == [] then holds else Unpin(UnpinAll(holds, ns[..|ns| - 1]), ns[|ns| - 1])
  }

  /** A reservation goes back to the budget when its release was requested and nothing holds it. */
  predicate Released(s: State, n: nat) {
    n in s.requested && HoldsOf(s.holds, n) == 0
  }

  // ---------------------------------------------------------------------------
  // Settlement
  // ---------------------------------------------------------------------------

  /** A stopped entry is out of flight and gives its reservation back. */
  function Stopped(s: State, n: nat, owner: Owner): State {
    s.(cancelPending := s.cancelPending - {n},
       retired := if owner.ByRetire? then s.retired + {n} else s.retired,
       requested := s.requested + {n}, inflight := s.inflight - {n})
  }

  /** A cancellation callback that already began keeps its hold through a retirement. */
  function HoldFreed(s: State, n: nat, owner: Owner): State {
    if n in s.cancelHold && (owner.ByCancel? || n !in s.cancelRunning) then
      s.(holds := Unpin(s.holds, n), cancelHold := s.cancelHold - {n})
    else s
  }

  function SettleOne(s: State, n: nat, owner: Owner): State {
    if !owner.ByFlush? then HoldFreed(Stopped(s, n, owner), n, owner)
    else if n in s.cancelPending then s
    else s.(inflight := s.inflight - {n},
            requested := if n in owner.transferred then s.requested else s.requested + {n})
  }

  function SettleEach(s: State, ns: seq<nat>, owner: Owner): State {
    if ns == [] then s else SettleOne(SettleEach(s, ns[..|ns| - 1], owner), ns[|ns| - 1], owner)
  }

  /** The key's generation is forgotten once nothing of the key is left. */
  function Forget(s: State): State {
    if s.worker == Absent && s.bucket.None? && s.inflight == {} then s.(generation := 0) else s
  }

  function Settle(s: State, ns: seq<nat>, owner: Owner): State {
    Forget(SettleEach(s, ns, owner))
  }

  // ---------------------------------------------------------------------------
  // Steps
  // ---------------------------------------------------------------------------

  datatype Notify = Yes | No | Unsaid

  datatype Step =
    | Push
    | Detach(bucket: nat)
    | StartNext
    | FlushDone(transferred: set<nat>)
    | WorkerEnds
    | Cancel(notify: Notify, active: seq<nat>)
    | CancelStarts(i: nat)
    | CancelSettles(entries: seq<nat>)
    | Dispose(active: seq<nat>)

  ghost predicate Lists(active: seq<nat>, inflight: set<nat>) {
    && (forall n :: n in inflight <==> n in active)
    && (forall i, j :: 0 <= i < j < |active| ==> active[i] != active[j])
  }

  ghost predicate Legal(s: State, step: Step) {
    match step
    case StartNext => s.worker == Looping && s.running.None?
    case FlushDone(_) => s.running.Some?
    case WorkerEnds => s.worker == Ending
    case Cancel(_, active) => Lists(active, s.inflight)
    case CancelStarts(i) => i < |s.cancellations|
    case CancelSettles(entries) => forall n :: n in entries ==> n in s.cancelRunning
    case Dispose(active) => forall n :: n in active ==> n in s.inflight || n in s.waiting
    case _ => true
  }

  function Apply(s: State, step: Step): State {
    match step
    case Push => Pushed(s)
    case Detach(bucket) => Detached(s, bucket)
    case StartNext => Started(s)
    case FlushDone(transferred) => Done(s, transferred)
    case WorkerEnds => WorkerGone(s)
    case Cancel(notify, active) => Cancelled(s, notify, active)
    case CancelStarts(i) => CancelBegun(s, i)
    case CancelSettles(entries) => Settle(s.(cancelRunning := s.cancelRunning - SetOf(entries)), entries, ByCancel)
    case Dispose(active) => Disposed(s, active)
  }

  function SetOf(ns: seq<nat>): set<nat> {
    set n | n in ns
  }

  function Pushed(s: State): State {
    if s.disposed then s
    else
      var t := s.(waiting := s.waiting + [s.pushed], pushed := s.pushed + 1);
      if s.bucket.Some? then t else t.(bucket := Some(s.nextBucket), nextBucket := s.nextBucket + 1)
  }

  /** The bucket's timer: a stale timer does nothing. */
  function Detached(s: State, bucket: nat): State {
    if s.bucket != Some(bucket) then s
    else s.(bucket := None, waiting := [], inflight := s.inflight + SetOf(s.waiting),
            queued := s.queued + [Batch(s.waiting, s.generation)],
            worker := if s.worker == Absent then Looping else s.worker)
  }

  /** The worker's next batch: flushed if its generation is still the key's, else only settled. */
  function Started(s: State): State {
    if s.queued == [] then s.(worker := Ending)
    else
      var batch := s.queued[0];
      var t := s.(queued := s.queued[1..]);
      if !s.disposed && s.generation == batch.generation then
        t.(running := Some(Running(batch.entries, batch.entries)), holds := PinAll(s.holds, batch.entries),
           flushed := s.flushed + batch.entries)
      else Settle(t, batch.entries, ByFlush({}))
  }

  function Done(s: State, transferred: set<nat>): State {
    if s.running.None? then s
    else
      var t := Settle(s, s.running.value.entries, ByFlush(transferred));
      t.(holds := UnpinAll(t.holds, s.running.value.pinned), running := None)
  }

  function WorkerGone(s: State): State {
    if s.queued != [] then s.(worker := Looping)
    else
      var t := s.(worker := Absent);
      if s.bucket.None? && s.inflight == {} then t.(generation := 0) else t
  }

  /** Everything of the key, the entries in flight before the waiting ones, that this call cancels. */
  function Newly(s: State, notify: Notify, active: seq<nat>): seq<nat> {
    var union := active + s.waiting;
    if notify == Yes then Keep(union, s.cancelRequested) else union
  }

  function Keep(ns: seq<nat>, gone: set<nat>): seq<nat> {
    if ns == [] then [] else (if ns[0] in gone then [] else [ns[0]]) + Keep(ns[1..], gone)
  }

  function Cancelled(s: State, notify: Notify, active: seq<nat>): State {
    var newly := Newly(s, notify, active);
    if newly == [] then s.(mark := s.pushed)
    else
      var t := s.(bucket := None, waiting := [], generation := s.generation + 1, mark := s.pushed);
      if notify == Yes then
        Forget(Requested(t, newly).(inflight := s.inflight + SetOf(s.waiting), cancellations := s.cancellations + [newly]))
      else
        var u := Settle(t, newly, if notify == No then ByRetire else ByCancel);
        Forget(if notify == No then Severed(u) else u)
  }

  /** Pinned before the call returns, once per entry. */
  function RequestOne(s: State, n: nat): State {
    s.(cancelRequested := s.cancelRequested + {n}, cancelPending := s.cancelPending + {n},
       holds := if n in s.cancelHold then s.holds else Pin(s.holds, n), cancelHold := s.cancelHold + {n})
  }

  function Requested(s: State, ns: seq<nat>): State {
    if ns == [] then s else RequestOne(Requested(s, ns[..|ns| - 1]), ns[|ns| - 1])
  }

  /** Retirement empties what was captured: the running callback's array, queued batches, unstarted cancellations. */
  function Severed(s: State): State {
    s.(running := if s.running.Some? then Some(s.running.value.(entries := [])) else None, queued := [], cancellations := [])
  }

  function CancelBegun(s: State, i: nat): State {
    if i >= |s.cancellations| then s
    else s.(cancelRunning := s.cancelRunning + SetOf(s.cancellations[i]),
            cancellations := s.cancellations[..i] + s.cancellations[i + 1..])
  }

  function WaitingRetired(s: State): State {
    if s.bucket.Some? then Settle(s.(generation := s.generation + 1), s.waiting, ByRetire) else s
  }

  function Disposed(s: State, active: seq<nat>): State {
    if s.disposed then s
    else
      var u := WaitingRetired(s.(disposed := true));
      Severed(Settle(u.(bucket := None, waiting := [], mark := s.pushed), active, ByRetire))
  }

  function Run(steps: seq<Step>): State {
    if steps == [] then INITIAL else Apply(Run(steps[..|steps| - 1]), steps[|steps| - 1])
  }

  ghost predicate LegalRun(steps: seq<Step>) {
    steps == [] || (LegalRun(steps[..|steps| - 1]) && Legal(Run(steps[..|steps| - 1]), steps[|steps| - 1]))
  }

  // ---------------------------------------------------------------------------
  // The invariant
  // ---------------------------------------------------------------------------

  function Flat(queued: seq<Batch>): seq<nat> {
    if queued == [] then [] else queued[0].entries + Flat(queued[1..])
  }

  /** Started, detached and waiting entries, in that order, are in push order. */
  ghost predicate PushOrder(flushed: seq<nat>, queued: seq<Batch>, waiting: seq<nat>, pushed: nat) {
    var all := flushed + Flat(queued) + waiting;
    Ascending(all) && forall i :: 0 <= i < |all| ==> all[i] < pushed
  }

  /** A batch of the key's current generation is untouched by any cancellation, and newer than the last one. */
  ghost predicate Current(queued: seq<Batch>, generation: nat, inflight: set<nat>, cancelRequested: set<nat>, mark: nat) {
    forall i :: 0 <= i < |queued| ==>
      && queued[i].generation <= generation
      && (queued[i].generation == generation ==>
            forall n :: n in queued[i].entries ==> n in inflight && n !in cancelRequested && mark <= n)
  }

  ghost predicate WaitingFresh(bucket: Option<nat>, nextBucket: nat, waiting: seq<nat>, cancelRequested: set<nat>, mark: nat) {
    && (forall n :: n in waiting ==> n !in cancelRequested && mark <= n)
    && (bucket.Some? ==> bucket.value < nextBucket)
    && (bucket.None? ==> waiting == [])
  }

  ghost predicate Requests(cancelRequested: set<nat>, cancelHold: set<nat>, cancelRunning: set<nat>,
                           cancellations: seq<seq<nat>>, pushed: nat) {
    && cancelHold <= cancelRequested && cancelRunning <= cancelRequested
    && (forall n :: n in cancelRequested ==> n < pushed)
    && (forall i :: 0 <= i < |cancellations| ==> forall n :: n in cancellations[i] ==> n in cancelRequested)
  }

  /** A running flush's own pin, and one for a cancellation. */
  function PinsOn(running: Option<Running>, cancelHold: set<nat>, n: nat): nat {
    (if running.Some? && n in running.value.pinned then 1 else 0) + (if n in cancelHold then 1 else 0)
  }

  ghost predicate HoldsCounted(holds: map<nat, nat>, running: Option<Running>, cancelHold: set<nat>) {
    forall n :: HoldsOf(holds, n) == PinsOn(running, cancelHold, n)
  }

  ghost predicate RunningStarted(running: Option<Running>, flushed: seq<nat>) {
    running.Some? ==>
      && Ascending(running.value.pinned)
      && (forall n :: n in running.value.pinned ==> n in flushed)
      && (forall n :: n in running.value.entries ==> n in running.value.pinned)
  }

  predicate WorkerKnown(worker: Worker, queued: seq<Batch>, running: Option<Running>) {
    && (running.Some? ==> worker == Looping)
    && (queued != [] ==> worker != Absent)
  }

  datatype Aspect = InOrder | Generations | Fresh | Requesting | Counted | Beginning | Workers | Flying

  ghost predicate Holds(s: State, aspect: Aspect) {
    match aspect
    case InOrder => PushOrder(s.flushed, s.queued, s.waiting, s.pushed)
    case Generations => s.disposed || Current(s.queued, s.generation, s.inflight, s.cancelRequested, s.mark)
    case Fresh => s.mark <= s.pushed && WaitingFresh(s.bucket, s.nextBucket, s.waiting, s.cancelRequested, s.mark)
    case Requesting => Requests(s.cancelRequested, s.cancelHold, s.cancelRunning, s.cancellations, s.pushed)
    case Counted => HoldsCounted(s.holds, s.running, s.cancelHold)
    case Beginning => RunningStarted(s.running, s.flushed)
    case Workers => WorkerKnown(s.worker, s.queued, s.running)
    case Flying => forall n :: n in s.inflight ==> n < s.pushed
  }

  ghost predicate Inv(s: State) {
    forall aspect :: Holds(s, aspect)
  }

  // ---------------------------------------------------------------------------
  // Settling keeps it
  // ---------------------------------------------------------------------------

  lemma PinIs(holds: map<nat, nat>, n: nat)
    ensures forall m :: HoldsOf(Pin(holds, n), m) == HoldsOf(holds, m) + if m == n then 1 else 0
  {
  }

  lemma UnpinIs(holds: map<nat, nat>, n: nat)
    ensures forall m :: HoldsOf(Unpin(holds, n), m) ==
              if m == n && HoldsOf(holds, m) > 0 then HoldsOf(holds, m) - 1 else HoldsOf(holds, m)
  {
  }

  /** What settling leaves alone. */
  ghost predicate SettledFrom(s: State, t: State, gone: set<nat>) {
    && t == s.(inflight := t.inflight, cancelPending := t.cancelPending, retired := t.retired, requested := t.requested,
               holds := t.holds, cancelHold := t.cancelHold)
    && t.inflight <= s.inflight && s.inflight - gone <= t.inflight
    && t.cancelHold <= s.cancelHold
    && (HoldsCounted(s.holds, s.running, s.cancelHold) ==> HoldsCounted(t.holds, t.running, t.cancelHold))
  }

  lemma SettleOneFrame(s: State, n: nat, owner: Owner)
    ensures SettledFrom(s, SettleOne(s, n, owner), {n})
  {
    UnpinIs(s.holds, n);
  }

  lemma {:induction false} SettleFrame(s: State, ns: seq<nat>, owner: Owner)
    ensures SettledFrom(s, SettleEach(s, ns, owner), SetOf(ns))
  {
    if ns != [] {
      var m := |ns| - 1;
      SettleFrame(s, ns[..m], owner);
      SettleOneFrame(SettleEach(s, ns[..m], owner), ns[m], owner);
      assert SetOf(ns) == SetOf(ns[..m]) + {ns[m]} by {
        assert ns == ns[..m] + [ns[m]];
      }
    }
  }

  /** Settling keeps the invariant when it takes nothing of a current batch out of flight. */
  lemma SettleKeeps(s: State, ns: seq<nat>, owner: Owner)
    requires Inv(s)
    requires s.disposed || forall i, n :: 0 <= i < |s.queued| && s.queued[i].generation == s.generation && n in s.queued[i].entries ==> n !in ns
    ensures Inv(Settle(s, ns, owner))
  {
    var t := SettleEach(s, ns, owner);
    SettleFrame(s, ns, owner);
    forall aspect ensures Holds(t, aspect) {
      assert Holds(s, aspect);
    }
    ForgetKeeps(t);
  }

  lemma ForgetKeeps(s: State)
    requires Inv(s)
    ensures Inv(Forget(s))
  {
    assert Holds(s, Workers);
    forall aspect ensures Holds(Forget(s), aspect) {
      assert Holds(s, aspect);
    }
  }

  // ---------------------------------------------------------------------------
  // Every step keeps it
  // ---------------------------------------------------------------------------

  lemma {:induction false} FlatConcat(a: seq<Batch>, b: seq<Batch>)
    ensures Flat(a + b) == Flat(a) + Flat(b)
  {
    if a == [] {
      assert a + b == b;
    } else {
      assert (a + b)[1..] == a[1..] + b;
      FlatConcat(a[1..], b);
      assert a[0].entries + (Flat(a[1..]) + Flat(b)) == a[0].entries + Flat(a[1..]) + Flat(b);
    }
  }

  lemma {:induction false} InFlat(queued: seq<Batch>, i: nat, n: nat)
    requires i < |queued| && n in queued[i].entries
    ensures n in Flat(queued)
  {
    if i > 0 {
      assert queued[1..][i - 1] == queued[i];
      InFlat(queued[1..], i - 1, n);
    }
  }

  lemma PushKeeps(s: State)
    requires Inv(s)
    ensures Inv(Pushed(s))
  {
    var t := Pushed(s);
    if !s.disposed {
      assert PushOrder(t.flushed, t.queued, t.waiting, t.pushed) by {
        assert Holds(s, InOrder);
        var all := s.flushed + Flat(s.queued) + s.waiting;
        assert t.flushed + Flat(t.queued) + t.waiting == all + [s.pushed];
      }
      assert Holds(t, Fresh) by {
        assert Holds(s, Fresh) && Holds(s, Requesting);
      }
      forall aspect ensures Holds(t, aspect) {
        if aspect != InOrder && aspect != Fresh {
          assert Holds(s, aspect);
        }
      }
    }
  }

  lemma DetachKeeps(s: State, bucket: nat)
    requires Inv(s)
    ensures Inv(Detached(s, bucket))
  {
    var t := Detached(s, bucket);
    if s.bucket == Some(bucket) {
      var batch := Batch(s.waiting, s.generation);
      assert PushOrder(t.flushed, t.queued, t.waiting, t.pushed) by {
        assert Holds(s, InOrder);
        FlatConcat(s.queued, [batch]);
        assert Flat([batch]) == s.waiting by { assert [batch][1..] == []; assert s.waiting + [] == s.waiting; }
        assert t.flushed + Flat(t.queued) + t.waiting == s.flushed + Flat(s.queued) + s.waiting;
      }
      assert Holds(t, Generations) by {
        assert Holds(s, Generations) && Holds(s, Fresh);
      }
      assert Holds(t, Flying) by {
        assert Holds(s, Flying);
        WaitingBelow(s);
      }
      forall aspect ensures Holds(t, aspect) {
        if aspect != InOrder && aspect != Generations && aspect != Flying {
          assert Holds(s, aspect);
        }
      }
    }
  }

  lemma WaitingBelow(s: State)
    requires Inv(s)
    ensures forall n :: n in s.waiting ==> n < s.pushed
  {
    assert Holds(s, InOrder);
    var base := s.flushed + Flat(s.queued);
    var all := base + s.waiting;
    forall n | n in s.waiting ensures n < s.pushed {
      var i :| 0 <= i < |s.waiting| && s.waiting[i] == n;
      assert all[|base| + i] == n;
    }
  }

  lemma {:induction false} PinAllIs(holds: map<nat, nat>, ns: seq<nat>)
    requires Ascending(ns)
    ensures forall n :: HoldsOf(PinAll(holds, ns), n) == HoldsOf(holds, n) + if n in ns then 1 else 0
  {
    if ns != [] {
      var m := |ns| - 1;
      PinAllIs(holds, ns[..m]);
      assert ns == ns[..m] + [ns[m]];
      assert forall i :: 0 <= i < m ==> ns[i] < ns[m];
    }
  }

  lemma {:induction false} UnpinAllIs(holds: map<nat, nat>, ns: seq<nat>)
    requires Ascending(ns) && forall n :: n in ns ==> HoldsOf(holds, n) > 0
    ensures forall n :: HoldsOf(UnpinAll(holds, ns), n) == HoldsOf(holds, n) - if n in ns then 1 else 0
  {
    if ns != [] {
      var m := |ns| - 1;
      UnpinAllIs(holds, ns[..m]);
      UnpinIs(UnpinAll(holds, ns[..m]), ns[m]);
      assert ns == ns[..m] + [ns[m]];
      assert forall i :: 0 <= i < m ==> ns[i] < ns[m];
    }
  }

  /** The first queued batch, and the rest. */
  lemma HeadOrder(s: State)
    requires Inv(s) && s.queued != []
    ensures var e := s.queued[0].entries;
            && Ascending(e) && (forall n :: n in e ==> n !in s.flushed)
            && (forall i, n :: 1 <= i < |s.queued| && n in s.queued[i].entries ==> n !in e)
            && PushOrder(s.flushed + e, s.queued[1..], s.waiting, s.pushed)
            && PushOrder(s.flushed, s.queued[1..], s.waiting, s.pushed)
  {
    assert Holds(s, InOrder);
    var e, rest := s.queued[0].entries, Flat(s.queued[1..]);
    var all := s.flushed + Flat(s.queued) + s.waiting;
    assert all == s.flushed + e + rest + s.waiting;
    assert all == s.flushed + e + (rest + s.waiting);
    MiddleOut(s.flushed, e, rest + s.waiting, s.pushed);
    assert s.flushed + rest + s.waiting == s.flushed + (rest + s.waiting);
    Apart(s.flushed, e, rest + s.waiting);
    forall i, n | 1 <= i < |s.queued| && n in s.queued[i].entries ensures n !in e {
      assert s.queued[1..][i - 1] == s.queued[i];
      InFlat(s.queued[1..], i - 1, n);
      assert n in rest + s.waiting;
    }
  }

  lemma Apart(a: seq<nat>, b: seq<nat>, c: seq<nat>)
    requires Ascending(a + b + c)
    ensures Ascending(b) && (forall n :: n in b ==> n !in a) && (forall n :: n in c ==> n !in b)
  {
    var all := a + b + c;
    assert forall i :: 0 <= i < |b| ==> b[i] == all[|a| + i];
    assert forall i :: 0 <= i < |a| ==> a[i] == all[i];
    assert forall i :: 0 <= i < |c| ==> c[i] == all[|a| + |b| + i];
  }

  lemma StartFlushKeeps(s: State)
    requires Inv(s) && Legal(s, StartNext) && s.queued != [] && !s.disposed && s.generation == s.queued[0].generation
    ensures Inv(Started(s))
  {
    var t := Started(s);
    var e := s.queued[0].entries;
    HeadOrder(s);
    assert Holds(t, Counted) by {
      assert Holds(s, Counted) && Holds(s, Generations) && Holds(s, Requesting);
      PinAllIs(s.holds, e);
    }
    assert Holds(t, Generations) by {
      assert Holds(s, Generations);
      assert forall i :: 0 <= i < |t.queued| ==> t.queued[i] == s.queued[i + 1];
    }
    forall aspect ensures Holds(t, aspect) {
      if aspect != Counted && aspect != Generations && aspect != InOrder {
        assert Holds(s, aspect);
      }
    }
  }

  lemma StartKeeps(s: State)
    requires Inv(s) && Legal(s, StartNext)
    ensures Inv(Started(s))
  {
    if s.queued == [] {
      forall aspect ensures Holds(Started(s), aspect) {
        assert Holds(s, aspect);
      }
    } else if !s.disposed && s.generation == s.queued[0].generation {
      StartFlushKeeps(s);
    } else {
      HeadOrder(s);
      var t := s.(queued := s.queued[1..]);
      assert forall i :: 0 <= i < |t.queued| ==> t.queued[i] == s.queued[i + 1];
      forall aspect ensures Holds(t, aspect) {
        assert Holds(s, aspect);
      }
      SettleKeeps(t, s.queued[0].entries, ByFlush({}));
    }
  }

  lemma DoneKeeps(s: State, transferred: set<nat>)
    requires Inv(s) && Legal(s, FlushDone(transferred))
    ensures Inv(Done(s, transferred))
  {
    var r := s.running.value;
    RunningApart(s);
    SettleKeeps(s, r.entries, ByFlush(transferred));
    var t := Settle(s, r.entries, ByFlush(transferred));
    SettleFrame(s, r.entries, ByFlush(transferred));
    assert t.running == s.running;
    var u := Done(s, transferred);
    assert Holds(u, Counted) by {
      assert Holds(t, Counted) && Holds(t, Beginning);
      UnpinAllIs(t.holds, r.pinned);
    }
    forall aspect ensures Holds(u, aspect) {
      if aspect != Counted {
        assert Holds(t, aspect);
      }
    }
  }

  lemma RunningApart(s: State)
    requires Inv(s) && s.running.Some?
    ensures forall i, n :: 0 <= i < |s.queued| && n in s.queued[i].entries ==> n !in s.running.value.entries
  {
    assert Holds(s, Beginning) && Holds(s, InOrder);
    Apart(s.flushed, Flat(s.queued), s.waiting);
    forall i, n | 0 <= i < |s.queued| && n in s.queued[i].entries ensures n !in s.running.value.entries {
      InFlat(s.queued, i, n);
    }
  }

  lemma WorkerEndsKeeps(s: State)
    requires Inv(s) && Legal(s, WorkerEnds)
    ensures Inv(WorkerGone(s))
  {
    forall aspect ensures Holds(WorkerGone(s), aspect) {
      assert Holds(s, aspect);
      assert Holds(s, Workers);
    }
  }

  lemma {:induction false} KeepIs(ns: seq<nat>, gone: set<nat>)
    ensures forall n :: n in Keep(ns, gone) <==> n in ns && n !in gone
  {
    if ns != [] {
      KeepIs(ns[1..], gone);
      assert ns == [ns[0]] + ns[1..];
    }
  }

  lemma HasMember(ns: seq<nat>)
    ensures ns == [] || exists n :: n in ns
  {
    assert ns == [] || ns[0] in ns;
  }

  /** A cancellation that finds nothing new leaves no current batch and nothing waiting behind. */
  lemma NothingNewly(s: State, notify: Notify, active: seq<nat>)
    requires Inv(s) && Lists(active, s.inflight) && Newly(s, notify, active) == []
    ensures Inv(s.(mark := s.pushed))
  {
    var t := s.(mark := s.pushed);
    var union := active + s.waiting;
    KeepIs(union, s.cancelRequested);
    assert Holds(s, Fresh) && Holds(s, Generations);
    assert forall n :: n in union ==> notify == Yes && n in s.cancelRequested by {
      assert notify != Yes ==> union == [];
      assert forall n :: n in Newly(s, notify, active) ==> n in [];
    }
    assert s.waiting == [] by {
      assert forall n :: n in s.waiting ==> n in union;
      HasMember(s.waiting);
    }
    forall aspect ensures Holds(t, aspect) {
      assert Holds(s, aspect);
      if aspect == Generations && !s.disposed {
        forall i | 0 <= i < |s.queued| && s.queued[i].generation == s.generation ensures s.queued[i].entries == [] {
          HasMember(s.queued[i].entries);
        }
      }
    }
  }

  /** The common part of a cancellation: the bucket is gone and the generation moves. */
  lemma BumpKeeps(s: State)
    requires Inv(s)
    ensures Inv(s.(bucket := None, waiting := [], generation := s.generation + 1, mark := s.pushed))
  {
    var t := s.(bucket := None, waiting := [], generation := s.generation + 1, mark := s.pushed);
    assert PushOrder(t.flushed, t.queued, t.waiting, t.pushed) by {
      assert Holds(s, InOrder);
      var base := s.flushed + Flat(s.queued);
      assert base + s.waiting + [] == base + s.waiting;
      MiddleOut(base, s.waiting, [], s.pushed);
    }
    forall aspect ensures Holds(t, aspect) {
      if aspect != InOrder {
        assert Holds(s, aspect);
      }
    }
  }

  lemma {:induction false} RequestedFrame(s: State, ns: seq<nat>)
    ensures var t := Requested(s, ns);
            t == s.(cancelRequested := s.cancelRequested + SetOf(ns), cancelPending := s.cancelPending + SetOf(ns),
                    holds := t.holds, cancelHold := s.cancelHold + SetOf(ns))
  {
    if ns == [] {
      assert SetOf(ns) == {};
    } else {
      var m := |ns| - 1;
      RequestedFrame(s, ns[..m]);
      assert SetOf(ns) == SetOf(ns[..m]) + {ns[m]} by {
        assert ns == ns[..m] + [ns[m]];
      }
    }
  }

  lemma {:induction false} RequestedCounted(s: State, ns: seq<nat>)
    requires HoldsCounted(s.holds, s.running, s.cancelHold)
    ensures HoldsCounted(Requested(s, ns).holds, s.running, Requested(s, ns).cancelHold)
  {
    if ns != [] {
      var t, n := Requested(s, ns[..|ns| - 1]), ns[|ns| - 1];
      RequestedCounted(s, ns[..|ns| - 1]);
      PinIs(t.holds, n);
    }
  }

  lemma NotifyKeeps(s: State, t: State, newly: seq<nat>)
    requires Inv(s) && Inv(t) && t == s.(bucket := None, waiting := [], generation := s.generation + 1, mark := s.pushed)
    requires forall n :: n in newly ==> n < s.pushed
    ensures Inv(Requested(t, newly).(inflight := s.inflight + SetOf(s.waiting), cancellations := s.cancellations + [newly]))
  {
    var r := Requested(t, newly);
    var u := r.(inflight := s.inflight + SetOf(s.waiting), cancellations := s.cancellations + [newly]);
    RequestedFrame(t, newly);
    WaitingBelow(s);
    assert Holds(u, Counted) by {
      assert Holds(t, Counted);
      RequestedCounted(t, newly);
    }
    assert Holds(u, Generations) by {
      assert Holds(t, Generations) && Holds(s, Generations);
    }
    assert Holds(u, Requesting) by {
      assert Holds(t, Requesting);
    }
    forall aspect ensures Holds(u, aspect) {
      if aspect != Counted && aspect != Generations && aspect != Requesting {
        assert Holds(t, aspect);
      }
    }
  }

  lemma SeveredKeeps(s: State)
    requires Inv(s)
    ensures Inv(Severed(s))
  {
    var t := Severed(s);
    assert PushOrder(t.flushed, t.queued, t.waiting, t.pushed) by {
      assert Holds(s, InOrder);
      MiddleOut(s.flushed, Flat(s.queued), s.waiting, s.pushed);
      assert t.flushed + Flat(t.queued) + t.waiting == s.flushed + s.waiting;
    }
    forall aspect ensures Holds(t, aspect) {
      if aspect != InOrder {
        assert Holds(s, aspect);
      }
    }
  }

  lemma AllStale(s: State)
    requires Inv(s) && !s.disposed
    ensures forall i :: 0 <= i < |s.queued| ==> s.queued[i].generation != s.generation + 1
  {
    assert Holds(s, Generations);
  }

  lemma CancelKeeps(s: State, notify: Notify, active: seq<nat>)
    requires Inv(s) && Legal(s, Cancel(notify, active))
    ensures Inv(Cancelled(s, notify, active))
  {
    var newly := Newly(s, notify, active);
    if newly == [] {
      NothingNewly(s, notify, active);
    } else {
      BumpKeeps(s);
      var t := s.(bucket := None, waiting := [], generation := s.generation + 1, mark := s.pushed);
      if notify == Yes {
        NewlyBelow(s, notify, active);
        NotifyKeeps(s, t, newly);
        ForgetKeeps(Requested(t, newly).(inflight := s.inflight + SetOf(s.waiting), cancellations := s.cancellations + [newly]));
      } else {
        if !s.disposed {
          AllStale(s);
        }
        var owner := if notify == No then ByRetire else ByCancel;
        SettleKeeps(t, newly, owner);
        var u := Settle(t, newly, owner);
        if notify == No {
          SeveredKeeps(u);
          ForgetKeeps(Severed(u));
        } else {
          ForgetKeeps(u);
        }
      }
    }
  }

  lemma NewlyBelow(s: State, notify: Notify, active: seq<nat>)
    requires Inv(s) && Lists(active, s.inflight)
    ensures forall n :: n in Newly(s, notify, active) ==> n < s.pushed
  {
    WaitingBelow(s);
    assert Holds(s, Flying);
    KeepIs(active + s.waiting, s.cancelRequested);
  }

  lemma CancelStartsKeeps(s: State, i: nat)
    requires Inv(s) && Legal(s, CancelStarts(i))
    ensures Inv(CancelBegun(s, i))
  {
    var t := CancelBegun(s, i);
    assert Holds(t, Requesting) by {
      assert Holds(s, Requesting);
      forall j | 0 <= j < |t.cancellations| ensures forall n :: n in t.cancellations[j] ==> n in t.cancelRequested {
        assert t.cancellations[j] == s.cancellations[if j < i then j else j + 1];
      }
    }
    forall aspect ensures Holds(t, aspect) {
      if aspect != Requesting {
        assert Holds(s, aspect);
      }
    }
  }

  lemma CancelSettlesKeeps(s: State, entries: seq<nat>)
    requires Inv(s) && Legal(s, CancelSettles(entries))
    ensures Inv(Apply(s, CancelSettles(entries)))
  {
    var t := s.(cancelRunning := s.cancelRunning - SetOf(entries));
    forall aspect ensures Holds(t, aspect) {
      assert Holds(s, aspect);
    }
    assert Holds(s, Requesting) && Holds(s, Generations);
    SettleKeeps(t, entries, ByCancel);
  }

  lemma DisposeKeeps(s: State, active: seq<nat>)
    requires Inv(s)
    ensures Inv(Disposed(s, active))
  {
    if !s.disposed {
      var t := s.(disposed := true, generation := if s.bucket.Some? then s.generation + 1 else s.generation);
      forall aspect ensures Holds(t, aspect) {
        assert Holds(s, aspect);
      }
      SettleKeeps(t, s.waiting, ByRetire);
      var u := if s.bucket.Some? then Settle(t, s.waiting, ByRetire) else t;
      SettleFrame(t, s.waiting, ByRetire);
      var v := u.(bucket := None, waiting := [], mark := s.pushed);
      assert u.pushed == s.pushed;
      EmptyWaiting(u);
      SettleKeeps(v, active, ByRetire);
      SeveredKeeps(Settle(v, active, ByRetire));
    }
  }

  lemma EmptyWaiting(u: State)
    requires Inv(u) && u.disposed
    ensures Inv(u.(bucket := None, waiting := [], mark := u.pushed))
  {
    var v := u.(bucket := None, waiting := [], mark := u.pushed);
    assert PushOrder(v.flushed, v.queued, v.waiting, v.pushed) by {
      assert Holds(u, InOrder);
      var base := u.flushed + Flat(u.queued);
      assert base + u.waiting + [] == base + u.waiting;
      MiddleOut(base, u.waiting, [], u.pushed);
    }
    forall aspect ensures Holds(v, aspect) {
      if aspect != InOrder {
        assert Holds(u, aspect);
      }
    }
  }

  lemma StepKeepsInv(s: State, step: Step)
    requires Inv(s) && Legal(s, step)
    ensures Inv(Apply(s, step))
  {
    match step
    case Push => PushKeeps(s);
    case Detach(bucket) => DetachKeeps(s, bucket);
    case StartNext => StartKeeps(s);
    case FlushDone(transferred) => DoneKeeps(s, transferred);
    case WorkerEnds => WorkerEndsKeeps(s);
    case Cancel(notify, active) => CancelKeeps(s, notify, active);
    case CancelStarts(i) => CancelStartsKeeps(s, i);
    case CancelSettles(entries) => CancelSettlesKeeps(s, entries);
    case Dispose(active) => DisposeKeeps(s, active);
  }

  lemma {:induction false} RunKeepsInv(steps: seq<Step>)
    requires LegalRun(steps)
    ensures Inv(Run(steps))
  {
    if steps == [] {
      forall aspect ensures Holds(INITIAL, aspect) {
      }
    } else {
      RunKeepsInv(steps[..|steps| - 1]);
      StepKeepsInv(Run(steps[..|steps| - 1]), steps[|steps| - 1]);
    }
  }

  // ---------------------------------------------------------------------------
  // What holds of every run
  // ---------------------------------------------------------------------------

  /** Batches start in push order, and no entry reaches a flush twice. */
  lemma FlushedInPushOrder(steps: seq<Step>)
    requires LegalRun(steps)
    ensures Ascending(Run(steps).flushed)
    ensures forall n :: n in Run(steps).flushed ==> n < Run(steps).pushed
  {
    var s := Run(steps);
    RunKeepsInv(steps);
    assert Holds(s, InOrder);
    var rest := Flat(s.queued) + s.waiting;
    assert [] + s.flushed + rest == s.flushed + Flat(s.queued) + s.waiting;
    Apart([], s.flushed, rest);
    forall n | n in s.flushed ensures n < s.pushed {
      var i :| 0 <= i < |s.flushed| && s.flushed[i] == n;
      assert (s.flushed + Flat(s.queued) + s.waiting)[i] == n;
    }
  }

  /** A flush that starts takes only entries pushed since the last cancellation, and none after disposal. */
  lemma StartsAreFresh(s: State, n: nat)
    requires Inv(s) && n !in s.flushed && n in Started(s).flushed
    ensures s.mark <= n && n !in s.cancelRequested && !s.disposed
  {
    if s.queued != [] {
      if !s.disposed && s.generation == s.queued[0].generation {
        assert Holds(s, Generations);
      } else {
        SettleFrame(s.(queued := s.queued[1..]), s.queued[0].entries, ByFlush({}));
      }
    }
  }

  lemma CancelLine(s: State, notify: Notify, active: seq<nat>)
    ensures var t := Cancelled(s, notify, active); t.mark == s.pushed && t.flushed == s.flushed && t.disposed == s.disposed
  {
    var newly := Newly(s, notify, active);
    if newly != [] {
      var t := s.(bucket := None, waiting := [], generation := s.generation + 1, mark := s.pushed);
      if notify == Yes {
        RequestedFrame(t, newly);
      } else {
        SettleFrame(t, newly, if notify == No then ByRetire else ByCancel);
      }
    }
  }

  lemma DisposeLine(s: State, active: seq<nat>)
    ensures var t := Disposed(s, active); t.mark >= s.mark || t.mark == s.pushed
    ensures Disposed(s, active).flushed == s.flushed && Disposed(s, active).disposed
  {
    if !s.disposed {
      var t := s.(disposed := true, generation := if s.bucket.Some? then s.generation + 1 else s.generation);
      SettleFrame(t, s.waiting, ByRetire);
      var u := WaitingRetired(s.(disposed := true));
      SettleFrame(u.(bucket := None, waiting := [], mark := s.pushed), active, ByRetire);
    }
  }

  /** An entry behind the line of a cancellation, or of a disposal, that no flush has taken. */
  predicate Behind(s: State, n: nat) {
    n !in s.flushed && (n < s.mark || s.disposed)
  }

  lemma BehindStays(s: State, step: Step, n: nat)
    requires Inv(s) && Behind(s, n)
    ensures Behind(Apply(s, step), n)
  {
    assert Holds(s, Fresh);
    match step
    case StartNext =>
      if n in Started(s).flushed {
        StartsAreFresh(s, n);
      } else if s.queued != [] {
        SettleFrame(s.(queued := s.queued[1..]), s.queued[0].entries, ByFlush({}));
      }
    case FlushDone(transferred) =>
      if s.running.Some? {
        SettleFrame(s, s.running.value.entries, ByFlush(transferred));
      }
    case Cancel(notify, active) => CancelLine(s, notify, active);
    case CancelSettles(entries) => SettleFrame(s.(cancelRunning := s.cancelRunning - SetOf(entries)), entries, ByCancel);
    case Dispose(active) => DisposeLine(s, active);
    case _ =>
  }

  /**
   * In every run, once the key was cancelled or the debouncer disposed, no flush starts for an entry pushed before
   * that, whether or not the cancellation found anything to do.
   */
  lemma {:induction false} NothingCancelledStarts(steps: seq<Step>, k: nat, n: nat)
    requires LegalRun(steps) && k < |steps| && (steps[k].Cancel? || steps[k].Dispose?)
    requires n < Run(steps[..k]).pushed && n !in Run(steps[..k + 1]).flushed
    ensures n !in Run(steps).flushed
  {
    StaysBehind(steps, k, n);
  }

  lemma {:induction false} StaysBehind(steps: seq<Step>, k: nat, n: nat)
    requires LegalRun(steps) && k < |steps| && (steps[k].Cancel? || steps[k].Dispose?)
    requires n < Run(steps[..k]).pushed && n !in Run(steps[..k + 1]).flushed
    ensures Behind(Run(steps), n)
  {
    var init, step := steps[..|steps| - 1], steps[|steps| - 1];
    if k < |init| {
      assert init[..k] == steps[..k] && init[..k + 1] == steps[..k + 1];
      StaysBehind(init, k, n);
      RunKeepsInv(init);
      BehindStays(Run(init), step, n);
    } else {
      assert steps[..k + 1] == steps;
      match step
      case Cancel(notify, active) => CancelLine(Run(init), notify, active);
      case Dispose(active) => DisposeLine(Run(init), active);
    }
  }

  /** While a flush runs, no reservation it was given goes back to the budget. */
  lemma RunningIsPinned(steps: seq<Step>, n: nat)
    requires LegalRun(steps) && Run(steps).running.Some? && n in Run(steps).running.value.pinned
    ensures !Released(Run(steps), n)
  {
    RunKeepsInv(steps);
    assert Holds(Run(steps), Counted);
  }

  /** What the callback's array still lists is among what its flush pinned. */
  lemma ArrayIsPinned(steps: seq<Step>)
    requires LegalRun(steps) && Run(steps).running.Some?
    ensures forall n :: n in Run(steps).running.value.entries ==> n in Run(steps).running.value.pinned && n in Run(steps).flushed
  {
    RunKeepsInv(steps);
    assert Holds(Run(steps), Beginning);
  }

  /** Nothing detached is forgotten: as long as a batch is queued there is a worker that will come to it. */
  lemma QueuedHasWorker(steps: seq<Step>)
    requires LegalRun(steps) && Run(steps).queued != []
    ensures Run(steps).worker != Absent
  {
    RunKeepsInv(steps);
    assert Holds(Run(steps), Workers);
  }
}
