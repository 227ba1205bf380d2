/** When a resolve must name a peer: the converse of the safety theorems, over every run. */
module ApprovalOriginCompleteness {
  import opened Options
  import opened ApprovalOrigin
  import opened ApprovalOriginRuns
  import opened ApprovalOriginSafety

  // ---------------------------------------------------------------------------
  // A lease that was begun in time
  // ---------------------------------------------------------------------------

  /** The i-th call activates an origin lease of the exact account in its own epoch, at a reading that is no anomaly. */
  ghost predicate BegunAt(env: Setup, acts: seq<Action>, i: nat, l: Label, request: Request, peer: string, ms: real)
    requires i < |acts|
  {
    var s := Run(env, acts[..i]);
    && acts[i] == Begin(l, Finite(ms))
    && l in s.leases && Dormant(s.leases[l].handle, request, env, peer)
    && s.leases[l].handle.createdEpoch == s.registry.epoch
    && (s.registry.lastObserved.Some? ==> s.registry.lastObserved.value <= ms)
  }

  predicate Dormant(h: Handle, request: Request, env: Setup, peer: string) {
    && !h.activated && !h.released && h.evidence == Origin && h.account == request.account && h.peer == peer
    && h.key == ComposeKey(env.normalize, request.account, request.sessionKey)
  }

  ghost predicate Recorded(s: System, l: Label, request: Request, env: Setup, peer: string, ms: real) {
    && l in s.leases && s.leases[l].start == StartedAt(ms) && s.leases[l].handle.activated
    && s.leases[l].handle.account == request.account && s.leases[l].handle.peer == peer
    && s.leases[l].handle.key == ComposeKey(env.normalize, request.account, request.sessionKey)
  }

  lemma StaysRecorded(env: Setup, s: System, a: Action, l: Label, request: Request, peer: string, ms: real)
    requires Recorded(s, l, request, env, peer, ms)
    ensures Recorded(Step(env, s, a), l, request, env, peer, ms)
  {
    LeasesAfterStep(env, s, a);
  }

  lemma {:induction false} StartIsKept(env: Setup, acts: seq<Action>, i: nat, l: Label, request: Request, peer: string, ms: real)
    requires i < |acts| && BegunAt(env, acts, i, l, request, peer, ms)
    ensures Recorded(Run(env, acts), l, request, env, peer, ms)
  {
    var prefix, a := acts[..|acts| - 1], acts[|acts| - 1];
    if i < |prefix| {
      assert prefix[..i] == acts[..i];
      StartIsKept(env, prefix, i, l, request, peer, ms);
      StaysRecorded(env, Run(env, prefix), a, l, request, peer, ms);
    } else {
      LeasesAfterStep(env, Run(env, prefix), a);
    }
  }

  /**
   * In every run: the request is timely, no two origins coexisted on its key in the epoch, overlaps stayed within the
   * cap, and a lease that is still live was begun before the request. Then its peer is the answer.
   */
  lemma ProvedIsResolved(env: Setup, acts: seq<Action>, request: Request, reading: Reading,
                         i: nat, l: Label, peer: string, ms: real)
    requires i < |acts| && BegunAt(env, acts, i, l, request, peer, ms)
    requires request.createdAt.Finite? && ms < request.createdAt.ms
    requires l in Run(env, acts).leases ==> !Run(env, acts).leases[l].handle.released
    requires Timely(Run(env, acts).registry, request, reading)
    requires NeverOverlapped(env, acts, ComposeKey(env.normalize, request.account, request.sessionKey))
    requires |EverOverlapped(env, acts)| <= env.cap
    ensures AnswerAfter(env, acts, request, reading) == Resolved(peer)
  {
    var key := ComposeKey(env.normalize, request.account, request.sessionKey);
    var s := Run(env, acts);
    StartIsKept(env, acts, i, l, request, peer, ms);
    ResolveIsExact(env, acts, request, reading);
    EverOverlappedIsSinceEpochStart(env, acts, key);
    EligiblePeerIsUnique(env, acts, request, reading);
    assert EligibleLease(s.leases[l], key, request.account, request.createdAt.ms);
    assert peer in EligibleLeasePeers(s.leases, key, request.account, request.createdAt.ms);
  }

  // ---------------------------------------------------------------------------
  // A clock that behaves
  // ---------------------------------------------------------------------------

  predicate Reads(a: Action) {
    a.Begin? || a.Ask?
  }

  /** Since the n-th call every reading is finite, and none goes back behind the baseline or behind an earlier one. */
  predicate Steady(acts: seq<Action>, n: nat, base: real) {
    && (forall j :: n <= j < |acts| && Reads(acts[j]) ==> acts[j].reading.Finite? && base <= acts[j].reading.ms)
    && (forall j, k :: n <= j < k < |acts| && Reads(acts[j]) && Reads(acts[k]) ==> acts[j].reading.ms <= acts[k].reading.ms)
  }

  /** In the current epoch the clock is finite and never goes back, the barrier's reading included. */
  predicate SteadyClock(env: Setup, acts: seq<Action>) {
    BarrierReading(env, acts).Finite? && Steady(acts, EpochStart(acts), BarrierReading(env, acts).ms)
  }

  /** No reading of the epoch was later. */
  predicate Latest(env: Setup, acts: seq<Action>, ms: real) {
    && (BarrierReading(env, acts).Finite? ==> BarrierReading(env, acts).ms <= ms)
    && forall j :: EpochStart(acts) <= j < |acts| && Reads(acts[j]) && acts[j].reading.Finite? ==> acts[j].reading.ms <= ms
  }

  ghost predicate Trusting(env: Setup, acts: seq<Action>, r: Registry) {
    && r.trusted && r.lastObserved.Some? && Finite(r.barrier) == BarrierReading(env, acts)
    && (forall ms :: Latest(env, acts, ms) ==> r.lastObserved.value <= ms)
  }

  lemma {:induction false} SteadyPrefix(env: Setup, acts: seq<Action>, i: nat)
    requires EpochStart(acts) <= i <= |acts| && SteadyClock(env, acts)
    ensures EpochStart(acts[..i]) == EpochStart(acts) && SteadyClock(env, acts[..i])
    ensures BarrierReading(env, acts[..i]) == BarrierReading(env, acts)
    ensures i < |acts| && Reads(acts[i]) ==> acts[i].reading.Finite? && Latest(env, acts[..i], acts[i].reading.ms)
  {
    SameEpoch(acts, i);
    assert forall j :: 0 <= j < i ==> acts[..i][j] == acts[j];
  }

  lemma {:induction false} SameEpoch(acts: seq<Action>, i: nat)
    requires EpochStart(acts) <= i <= |acts|
    ensures EpochStart(acts[..i]) == EpochStart(acts)
  {
    if i == |acts| {
      assert acts[..i] == acts;
    } else {
      var prefix := acts[..|acts| - 1];
      SameEpoch(prefix, i);
      assert prefix[..i] == acts[..i];
    }
  }

  /** A clock that behaves is trusted. */
  lemma {:induction false} SteadyIsTrusted(env: Setup, acts: seq<Action>)
    requires SteadyClock(env, acts)
    ensures Trusting(env, acts, Run(env, acts).registry)
  {
    if acts != [] {
      var prefix, a := acts[..|acts| - 1], acts[|acts| - 1];
      var s := Run(env, prefix);
      if a.Rotate? {
        RotateClock(env, s, a);
      } else {
        SteadyPrefix(env, acts, |prefix|);
        SteadyIsTrusted(env, prefix);
        TrustStays(env, prefix, a, s);
        assert acts == prefix + [a];
      }
    }
  }

  lemma TrustStays(env: Setup, prefix: seq<Action>, a: Action, s: System)
    requires Trusting(env, prefix, s.registry) && !a.Rotate?
    requires Reads(a) ==> a.reading.Finite? && Latest(env, prefix, a.reading.ms)
    ensures Trusting(env, prefix + [a], Step(env, s, a).registry)
  {
    var acts := prefix + [a];
    assert acts[..|prefix|] == prefix;
    assert EpochStart(acts) == EpochStart(prefix);
    assert BarrierReading(env, acts) == BarrierReading(env, prefix);
    match a {
      case Begin(l, reading) => BeginClock(env, s, l, reading);
      case Ask(_, _) => AskClock(env, s, a);
      case _ => QuietStepClock(env, s, a);
    }
    forall ms | Latest(env, acts, ms) ensures Latest(env, prefix, ms) && (Reads(a) ==> a.reading.ms <= ms) {
      assert acts[|prefix|] == a;
      assert forall j :: 0 <= j < |prefix| ==> acts[j] == prefix[j];
    }
  }

  // ---------------------------------------------------------------------------
  // The calls alone
  // ---------------------------------------------------------------------------

  /** From its creation to the i-th call nothing else was done with the lease. */
  predicate OnlyCreated(acts: seq<Action>, c: nat, i: nat, l: Label)
    requires c < i <= |acts|
  {
    && (forall j :: 0 <= j < c ==> !(acts[j].Create? && acts[j].lease == l))
    && (forall j :: c < j < i ==> !((acts[j].Begin? || acts[j].Finish?) && acts[j].lease == l))
  }

  lemma {:induction false} NotYetCreated(env: Setup, acts: seq<Action>, l: Label)
    requires forall j :: 0 <= j < |acts| ==> !(acts[j].Create? && acts[j].lease == l)
    ensures l !in Run(env, acts).leases
  {
    if acts != [] {
      var prefix, a := acts[..|acts| - 1], acts[|acts| - 1];
      NotYetCreated(env, prefix, l);
      LeasesAfterStep(env, Run(env, prefix), a);
    }
  }

  lemma EpochMoves(env: Setup, s: System, a: Action)
    ensures Step(env, s, a).registry.epoch == s.registry.epoch + if a.Rotate? then 1 else 0
  {
    match a {
      case Begin(l, reading) => BeginClock(env, s, l, reading);
      case Ask(_, _) => AskClock(env, s, a);
      case Rotate(_) => RotateClock(env, s, a);
      case _ => QuietStepClock(env, s, a);
    }
  }

  lemma {:induction false} StillDormant(env: Setup, acts: seq<Action>, c: nat, request: Request, peer: string)
    requires c < |acts| && EpochStart(acts) <= c
    requires acts[c].Create? && OnlyCreated(acts, c, |acts|, acts[c].lease)
    requires acts[c] == Create(acts[c].lease, request.account, request.sessionKey, peer, Origin)
    ensures var s := Run(env, acts);
            && acts[c].lease in s.leases && Dormant(s.leases[acts[c].lease].handle, request, env, peer)
            && s.leases[acts[c].lease].handle.createdEpoch == s.registry.epoch
  {
    var prefix, a := acts[..|acts| - 1], acts[|acts| - 1];
    var s := Run(env, prefix);
    if c < |prefix| {
      assert forall j :: 0 <= j < |prefix| ==> prefix[j] == acts[j];
      SameEpoch(acts, |prefix|);
      StillDormant(env, prefix, c, request, peer);
    } else {
      NotYetCreated(env, prefix, a.lease);
    }
    LeasesAfterStep(env, s, a);
    EpochMoves(env, s, a);
  }

  lemma {:induction false} NotFinished(env: Setup, acts: seq<Action>, i: nat, l: Label)
    requires i <= |acts| && (l in Run(env, acts[..i]).leases ==> !Run(env, acts[..i]).leases[l].handle.released)
    requires l in Run(env, acts[..i]).leases
    requires forall j :: i <= j < |acts| ==> !(acts[j].Finish? && acts[j].lease == l)
    ensures l in Run(env, acts).leases && !Run(env, acts).leases[l].handle.released
  {
    if i == |acts| {
      assert acts[..i] == acts;
    } else {
      var prefix, a := acts[..|acts| - 1], acts[|acts| - 1];
      assert prefix[..i] == acts[..i];
      NotFinished(env, prefix, i, l);
      LeasesAfterStep(env, Run(env, prefix), a);
    }
  }

  lemma RunningIsBegun(env: Setup, acts: seq<Action>, request: Request, c: nat, i: nat, peer: string)
    requires EpochStart(acts) <= c < i < |acts| && acts[c].Create?
    requires acts[c] == Create(acts[c].lease, request.account, request.sessionKey, peer, Origin)
    requires OnlyCreated(acts, c, i, acts[c].lease) && acts[i].Begin? && acts[i].lease == acts[c].lease
    requires SteadyClock(env, acts)
    ensures acts[i].reading.Finite? && BegunAt(env, acts, i, acts[c].lease, request, peer, acts[i].reading.ms)
  {
    SteadyPrefix(env, acts, i);
    SteadyIsTrusted(env, acts[..i]);
    assert forall j :: 0 <= j < i ==> acts[..i][j] == acts[j];
    StillDormant(env, acts[..i], c, request, peer);
  }

  lemma RunningIsLive(env: Setup, acts: seq<Action>, request: Request, c: nat, i: nat, peer: string)
    requires c < i < |acts| && acts[c].Create? && acts[i].Begin? && acts[i].reading.Finite?
    requires BegunAt(env, acts, i, acts[c].lease, request, peer, acts[i].reading.ms)
    requires forall j :: i < j < |acts| ==> !(acts[j].Finish? && acts[j].lease == acts[c].lease)
    ensures var leases := Run(env, acts).leases; acts[c].lease in leases && !leases[acts[c].lease].handle.released
  {
    var prefix := acts[..i + 1];
    assert prefix[..i] == acts[..i] && prefix[|prefix| - 1] == acts[i];
    LeasesAfterStep(env, Run(env, acts[..i]), acts[i]);
    NotFinished(env, acts, i + 1, acts[c].lease);
  }

  /**
   * Read off the calls and the clock alone: in one epoch with a clock that behaves, an origin lease is created, begun,
   * and not finished; a request on its raw account and session is made later than that, and asked about later still.
   * If no two origins coexisted on the key, and overlaps stayed within the cap, its peer is the answer.
   */
  lemma RunningPeerIsResolved(env: Setup, acts: seq<Action>, request: Request, now: real, c: nat, i: nat, peer: string)
    requires EpochStart(acts) <= c < i < |acts| && acts[c].Create?
    requires acts[c] == Create(acts[c].lease, request.account, request.sessionKey, peer, Origin)
    requires OnlyCreated(acts, c, i, acts[c].lease) && acts[i].Begin? && acts[i].lease == acts[c].lease
    requires forall j :: i < j < |acts| ==> !(acts[j].Finish? && acts[j].lease == acts[c].lease)
    requires SteadyClock(env, acts) && Latest(env, acts, now)
    requires request.createdAt.Finite? && BarrierReading(env, acts).ms < request.createdAt.ms <= now
    requires acts[i].reading.Finite? && acts[i].reading.ms < request.createdAt.ms
    requires NeverOverlapped(env, acts, ComposeKey(env.normalize, request.account, request.sessionKey))
    requires |EverOverlapped(env, acts)| <= env.cap
    ensures AnswerAfter(env, acts, request, Finite(now)) == Resolved(peer)
  {
    RunningIsBegun(env, acts, request, c, i, peer);
    RunningIsLive(env, acts, request, c, i, peer);
    SteadyIsTrusted(env, acts);
    ProvedIsResolved(env, acts, request, Finite(now), i, acts[c].lease, peer, acts[i].reading.ms);
  }

  // ---------------------------------------------------------------------------
  // The clock
  // ---------------------------------------------------------------------------

  /** What the clock answered since the epoch began: the barrier, provable activations and requests. */
  ghost function Readings(env: Setup, acts: seq<Action>): (readings: seq<Reading>)
    ensures |readings| > 0
  {
    if acts == [] then [env.first]
    else
      var prefix, a := acts[..|acts| - 1], acts[|acts| - 1];
      match a
      case Rotate(reading) => [reading]
      case Ask(_, reading) => Readings(env, prefix) + [reading]
      case Begin(l, reading) => Readings(env, prefix) + if ReadsAt(Run(env, prefix), l) then [reading] else []
      case _ => Readings(env, prefix)
  }

  /** Beginning the lease consults the clock: it is a fresh origin lease of the current epoch. */
  predicate ReadsAt(s: System, l: Label) {
    && l in s.leases && !s.leases[l].handle.activated && !s.leases[l].handle.released
    && s.leases[l].handle.evidence == Origin && s.leases[l].handle.createdEpoch == s.registry.epoch
  }

  /** Every reading is finite and none is earlier than one before it. */
  ghost predicate NeverBack(readings: seq<Reading>) {
    && (forall i :: 0 <= i < |readings| ==> readings[i].Finite?)
    && (forall i, j :: 0 <= i < j < |readings| ==> readings[i].ms <= readings[j].ms)
  }

  ghost predicate ClockIs(r: Registry, readings: seq<Reading>) {
    && |readings| > 0 && (r.trusted <==> NeverBack(readings))
    && (r.trusted ==> readings[0] == Finite(r.barrier) && r.lastObserved.Some? && readings[|readings| - 1] == Finite(r.lastObserved.value))
  }

  lemma BarrierAlone(reading: Reading)
    ensures NeverBack([reading]) <==> reading.Finite?
  {
    assert [reading][0] == reading;
  }

  lemma ReadOnce(r: Registry, readings: seq<Reading>, reading: Reading)
    requires ClockIs(r, readings)
    ensures ClockIs(ReadClock(r, reading).0, readings + [reading])
    ensures !r.trusted ==> ClockIs(r, readings + [reading])
  {
    var more := readings + [reading];
    assert forall i :: 0 <= i < |readings| ==> more[i] == readings[i];
    assert more[|readings|] == reading;
    assert NeverBack(more) ==> NeverBack(readings);
    assert NeverBack(more) && r.trusted ==> more[|readings| - 1].ms <= more[|readings|].ms;
  }

  /** In every run the registry trusts its clock exactly while the epoch's readings were finite and never went back. */
  lemma {:induction false} TrustIsExact(env: Setup, acts: seq<Action>)
    ensures ClockIs(Run(env, acts).registry, Readings(env, acts))
  {
    if acts == [] {
      BarrierAlone(env.first);
    } else {
      var prefix, a := acts[..|acts| - 1], acts[|acts| - 1];
      TrustIsExact(env, prefix);
      var s, readings := Run(env, prefix), Readings(env, prefix);
      match a {
        case Begin(l, reading) =>
          BeginClock(env, s, l, reading);
          ReadOnce(s.registry, readings, reading);
          assert readings + [] == readings;
        case Ask(_, reading) =>
          AskClock(env, s, a);
          ReadOnce(s.registry, readings, reading);
        case Rotate(reading) =>
          RotateClock(env, s, a);
          BarrierAlone(reading);
        case _ => QuietStepClock(env, s, a);
      }
    }
  }

  /** Once a reading was not finite or went back, every request of the epoch is refused, whatever the clock says later. */
  lemma DistrustRefuses(env: Setup, acts: seq<Action>, request: Request, reading: Reading)
    requires !NeverBack(Readings(env, acts))
    ensures AnswerAfter(env, acts, request, reading) == InvalidRequestTime
  {
    TrustIsExact(env, acts);
  }

  // ---------------------------------------------------------------------------
  // Handles and the table
  // ---------------------------------------------------------------------------

  /** A call that begins a lease is its activation: a second one, or one after the release, changes nothing. */
  lemma BeginIsActivate(env: Setup, s: System, l: Label, reading: Reading)
    requires l in s.leases
    ensures var (r, h) := Activate(s.registry, s.leases[l].handle, reading, env.cap);
            && Step(env, s, Begin(l, reading)).registry == r && Step(env, s, Begin(l, reading)).leases[l].handle == h
            && (s.leases[l].handle.activated || s.leases[l].handle.released ==> Step(env, s, Begin(l, reading)) == s)
  {
  }

  ghost predicate NoEmptyKey(r: Registry) {
    forall key :: key in r.claims ==> r.claims[key] != []
  }

  lemma StepLeavesNoEmptyKey(env: Setup, s: System, a: Action)
    requires NoEmptyKey(s.registry)
    ensures NoEmptyKey(Step(env, s, a).registry)
  {
    match a {
      case Create(_, _, _, _, _) =>
      case Begin(l, reading) => BeginLeavesNoEmptyKey(env, s, l, reading);
      case Finish(l) =>
        if l in s.leases {
          var h := s.leases[l].handle;
          assert NoEmptyKey(DeleteClaim(s.registry, h.key, h.claimId));
        }
      case Ask(request, reading) =>
        assert Resolve(s.registry, env.normalize, request, reading).0.claims == s.registry.claims;
      case Rotate(reading) => assert RotateEpoch(s.registry, reading, env.cap).claims == s.registry.claims;
    }
  }

  lemma BeginLeavesNoEmptyKey(env: Setup, s: System, l: Label, reading: Reading)
    requires NoEmptyKey(s.registry)
    ensures NoEmptyKey(Step(env, s, Begin(l, reading)).registry)
  {
    if CanBegin(s, l) {
      var h := s.leases[l].handle;
      var c := ClaimFor(h, StartFor(s.registry, h, reading));
      assert Step(env, s, Begin(l, reading)).registry.claims == s.registry.claims[h.key := ClaimsOn(s.registry, h.key) + [c]];
    }
  }

  lemma {:induction false} NeverAnEmptyKey(env: Setup, acts: seq<Action>)
    ensures NoEmptyKey(Run(env, acts).registry)
  {
    if acts != [] {
      NeverAnEmptyKey(env, acts[..|acts| - 1]);
      StepLeavesNoEmptyKey(env, Run(env, acts[..|acts| - 1]), acts[|acts| - 1]);
    }
  }

  /** In every run the table has an entry for a key exactly while some lease is live on it. */
  lemma KeysAreLive(env: Setup, acts: seq<Action>, key: Key)
    ensures var s := Run(env, acts);
            key in s.registry.claims <==> exists l :: l in s.leases && LiveOn(s.leases[l], key)
  {
    var s := Run(env, acts);
    RunKeepsInv(env, acts);
    NeverAnEmptyKey(env, acts);
    assert ClaimSet(s.registry, key) == LiveClaims(s.leases, key);
    if key in s.registry.claims {
      assert s.registry.claims[key][0] in ClaimSet(s.registry, key);
    }
    if l :| l in s.leases && LiveOn(s.leases[l], key) {
      assert ClaimFor(s.leases[l].handle, s.leases[l].start) in LiveClaims(s.leases, key);
    }
  }
}
