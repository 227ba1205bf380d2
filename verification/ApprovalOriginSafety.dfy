/** What a resolve answers, over every run and every clock, and what a presence lease can change. */
module ApprovalOriginSafety {
  import opened Options
  import opened ApprovalOrigin
  import opened ApprovalOriginRuns

  // ---------------------------------------------------------------------------
  // The history the answers depend on
  // ---------------------------------------------------------------------------

  lemma OverlapIsNow(leases: map<Label, LeaseRecord>, key: Key)
    ensures key in OverlapNow(leases) <==> Overlap(leases, key)
  {
    if Overlap(leases, key) {
      var l, m :| l in leases && m in leases && LiveOn(leases[l], key) && LiveOn(leases[m], key)
               && !SameOrigin(leases[l].handle, leases[m].handle);
      assert leases[l].handle.key == key;
    }
  }

  /** EverOverlapped names exactly the keys that overlapped at some moment since the epoch began. */
  lemma {:induction false} EverOverlappedIsSinceEpochStart(env: Setup, acts: seq<Action>, key: Key)
    ensures key in EverOverlapped(env, acts)
       <==> exists m :: EpochStart(acts) <= m <= |acts| && Overlap(Run(env, acts[..m]).leases, key)
  {
    assert acts[..|acts|] == acts;
    if acts == [] {
      return;
    }
    var prefix := acts[..|acts| - 1];
    OverlapIsNow(Run(env, acts).leases, key);
    if acts[|acts| - 1].Rotate? {
      return;
    }
    EverOverlappedIsSinceEpochStart(env, prefix, key);
    assert forall m :: 0 <= m < |acts| ==> prefix[..m] == acts[..m];
    if key in EverOverlapped(env, acts) && !Overlap(Run(env, acts[..|acts|]).leases, key) {
      var m :| EpochStart(prefix) <= m <= |prefix| && Overlap(Run(env, prefix[..m]).leases, key);
      assert Overlap(Run(env, acts[..m]).leases, key);
    }
    if m :| EpochStart(acts) <= m <= |acts| && Overlap(Run(env, acts[..m]).leases, key) {
      assert m < |acts| ==> Overlap(Run(env, prefix[..m]).leases, key);
    }
  }

  predicate SameClock(r: Registry, q: Registry) {
    r.epoch == q.epoch && r.barrier == q.barrier && r.trusted == q.trusted && r.lastObserved == q.lastObserved
  }

  lemma BeginClock(env: Setup, s: System, l: Label, reading: Reading)
    ensures var s' := Step(env, s, Begin(l, reading));
            if CanBegin(s, l) && Provable(s.registry, s.leases[l].handle)
            then SameClock(s'.registry, ReadClock(s.registry, reading).0)
            else SameClock(s'.registry, s.registry)
  {
  }

  lemma QuietStepClock(env: Setup, s: System, a: Action)
    requires !a.Begin? && !a.Rotate? && !a.Ask?
    ensures SameClock(Step(env, s, a).registry, s.registry)
  {
  }

  lemma AskClock(env: Setup, s: System, a: Action)
    requires a.Ask?
    ensures var r' := Step(env, s, a).registry;
            SameClock(r', if s.registry.trusted then ReadClock(s.registry, a.reading).0 else s.registry)
  {
  }

  lemma RotateClock(env: Setup, s: System, a: Action)
    requires a.Rotate?
    ensures SameClock(Step(env, s, a).registry, EstablishBarrier(s.registry.(epoch := s.registry.epoch + 1), a.reading))
  {
  }

  ghost predicate BarrierKnown(env: Setup, acts: seq<Action>, r: Registry) {
    r.trusted ==>
      && BarrierReading(env, acts) == Finite(r.barrier)
      && r.lastObserved.Some? && r.barrier <= r.lastObserved.value
  }

  /** A trusted registry holds the barrier that the current epoch's first reading drew. */
  lemma {:induction false} TrustedBarrier(env: Setup, acts: seq<Action>)
    ensures BarrierKnown(env, acts, Run(env, acts).registry)
  {
    if acts == [] {
      return;
    }
    var prefix, a := acts[..|acts| - 1], acts[|acts| - 1];
    TrustedBarrier(env, prefix);
    var s := Run(env, prefix);
    match a {
      case Begin(l, reading) => BeginClock(env, s, l, reading);
      case Ask(_, _) => AskClock(env, s, a);
      case Rotate(_) => RotateClock(env, s, a);
      case _ => QuietStepClock(env, s, a);
    }
  }

  /** A recorded start time is the clock reading of that lease's own activation, in its creation epoch. */
  lemma {:induction false} StartWasRead(env: Setup, acts: seq<Action>, l: Label) returns (i: nat)
    requires var leases := Run(env, acts).leases;
             l in leases && leases[l].start.StartedAt?
    ensures i < |acts| && acts[i] == Begin(l, Finite(Run(env, acts).leases[l].start.ms))
    ensures var s := Run(env, acts[..i]);
            && CanBegin(s, l)
            && s.leases[l].handle.evidence == Origin
            && s.leases[l].handle.createdEpoch == s.registry.epoch
  {
    var prefix, a := acts[..|acts| - 1], acts[|acts| - 1];
    var s := Run(env, prefix);
    if l in s.leases && s.leases[l].start == Run(env, acts).leases[l].start {
      i := StartWasRead(env, prefix, l);
      assert prefix[..i] == acts[..i];
    } else {
      i := |acts| - 1;
    }
  }

  // ---------------------------------------------------------------------------
  // The exact answer
  // ---------------------------------------------------------------------------

  predicate Timely(r: Registry, request: Request, reading: Reading) {
    && r.trusted
    && !Anomalous(r, reading)
    && InWindow(r, request.createdAt, reading.ms)
  }

  ghost function AnswerAfter(env: Setup, acts: seq<Action>, request: Request, reading: Reading): Resolution {
    Resolve(Run(env, acts).registry, env.normalize, request, reading).1
  }

  /** The answer as a function of the leases' history alone. */
  ghost function ExpectedAnswer(env: Setup, acts: seq<Action>, request: Request, reading: Reading): Resolution {
    var s := Run(env, acts);
    var ever := EverOverlapped(env, acts);
    var key := ComposeKey(env.normalize, request.account, request.sessionKey);
    if !Timely(s.registry, request, reading) then InvalidRequestTime
    else if |ever| > env.cap then EpochPoisoned
    else if key in ever then Ambiguous
    else Answer(EligibleLeasePeers(s.leases, key, request.account, request.createdAt.ms))
  }

  lemma EligibleClaimsAreLeases(s: System, key: Key, account: string, ms: real)
    requires TableIsLiveLeases(s)
    ensures EligiblePeers(ClaimsOn(s.registry, key), account, ms) == EligibleLeasePeers(s.leases, key, account, ms)
  {
    var cs := ClaimsOn(s.registry, key);
    assert ClaimSet(s.registry, key) == LiveClaims(s.leases, key);
    forall p | p in EligiblePeers(cs, account, ms)
      ensures p in EligibleLeasePeers(s.leases, key, account, ms)
    {
      var c :| c in cs && c.account == account && StartedBefore(c.start, ms) && c.peer == p;
      assert c in ClaimSet(s.registry, key);
      var l :| l in s.leases && LiveOn(s.leases[l], key) && c == ClaimFor(s.leases[l].handle, s.leases[l].start);
      assert EligibleLease(s.leases[l], key, account, ms);
    }
    forall p | p in EligibleLeasePeers(s.leases, key, account, ms)
      ensures p in EligiblePeers(cs, account, ms)
    {
      var l :| l in s.leases && EligibleLease(s.leases[l], key, account, ms) && s.leases[l].handle.peer == p;
      var c := ClaimFor(s.leases[l].handle, s.leases[l].start);
      assert c in LiveClaims(s.leases, key);
      assert c in ClaimSet(s.registry, key);
    }
  }

  lemma ResolveIsExact(env: Setup, acts: seq<Action>, request: Request, reading: Reading)
    ensures AnswerAfter(env, acts, request, reading) == ExpectedAnswer(env, acts, request, reading)
  {
    RunKeepsInv(env, acts);
    var s := Run(env, acts);
    var key := ComposeKey(env.normalize, request.account, request.sessionKey);
    if Timely(s.registry, request, reading) {
      EligibleClaimsAreLeases(s, key, request.account, request.createdAt.ms);
    }
  }

  /** On a key that never overlapped, at most one peer is eligible: the defence branch is dead. */
  lemma EligiblePeerIsUnique(env: Setup, acts: seq<Action>, request: Request, reading: Reading)
    requires var key := ComposeKey(env.normalize, request.account, request.sessionKey);
             key !in EverOverlapped(env, acts)
    ensures AnswerAfter(env, acts, request, reading) != Ambiguous
  {
    ResolveIsExact(env, acts, request, reading);
    var s := Run(env, acts);
    var key := ComposeKey(env.normalize, request.account, request.sessionKey);
    if Timely(s.registry, request, reading) && |EverOverlapped(env, acts)| <= env.cap {
      var ms := request.createdAt.ms;
      var peers := EligibleLeasePeers(s.leases, key, request.account, ms);
      RunKeepsInv(env, acts);
      OverlapIsNow(s.leases, key);
      if peers != {} {
        var p :| p in peers;
        forall q | q in peers ensures q == p {
          var l :| l in s.leases && EligibleLease(s.leases[l], key, request.account, ms) && s.leases[l].handle.peer == p;
          var m :| m in s.leases && EligibleLease(s.leases[m], key, request.account, ms) && s.leases[m].handle.peer == q;
        }
        assert peers == {p};
      }
    }
  }

  /** No two distinct origins were live together on `key` at any moment of the current epoch. */
  ghost predicate NeverOverlapped(env: Setup, acts: seq<Action>, key: Key) {
    forall m :: EpochStart(acts) <= m <= |acts| ==> !Overlap(Run(env, acts[..m]).leases, key)
  }

  /** A named peer is proved: by a live exact lease, by the clock, and by the whole epoch's history. */
  lemma ResolvedIsProved(env: Setup, acts: seq<Action>, request: Request, reading: Reading, peer: string)
    returns (l: Label, i: nat)
    requires AnswerAfter(env, acts, request, reading) == Resolved(peer)
    ensures request.createdAt.Finite? && reading.Finite? && BarrierReading(env, acts).Finite?
    ensures BarrierReading(env, acts).ms < request.createdAt.ms <= reading.ms
    ensures var key := ComposeKey(env.normalize, request.account, request.sessionKey);
            var leases := Run(env, acts).leases;
            && l in leases && LiveOn(leases[l], key)
            && leases[l].handle.account == request.account && leases[l].handle.peer == peer
            && i < |acts| && acts[i].Begin? && acts[i].lease == l
            && acts[i].reading.Finite? && acts[i].reading.ms < request.createdAt.ms
            && NeverOverlapped(env, acts, key)
  {
    var key := ComposeKey(env.normalize, request.account, request.sessionKey);
    ResolveIsExact(env, acts, request, reading);
    TrustedBarrier(env, acts);
    EverOverlappedIsSinceEpochStart(env, acts, key);
    var leases := Run(env, acts).leases;
    var peers := EligibleLeasePeers(leases, key, request.account, request.createdAt.ms);
    assert peer in peers;
    l :| l in leases && EligibleLease(leases[l], key, request.account, request.createdAt.ms)
      && leases[l].handle.peer == peer;
    i := StartWasRead(env, acts, l);
  }

  /** Poison outlives releases: until a rotation, an overlapped key is never answered again. */
  lemma PoisonIsSticky(env: Setup, acts: seq<Action>, more: seq<Action>, request: Request, reading: Reading)
    requires forall a :: a in more ==> !a.Rotate?
    requires ComposeKey(env.normalize, request.account, request.sessionKey) in EverOverlapped(env, acts)
    ensures AnswerAfter(env, acts + more, request, reading) in {InvalidRequestTime, EpochPoisoned, Ambiguous}
  {
    EverOnlyGrows(env, acts, more);
    ResolveIsExact(env, acts + more, request, reading);
  }

  lemma {:induction false} EverOnlyGrows(env: Setup, acts: seq<Action>, more: seq<Action>)
    requires forall a :: a in more ==> !a.Rotate?
    ensures EverOverlapped(env, acts) <= EverOverlapped(env, acts + more)
  {
    if more == [] {
      assert acts + more == acts;
    } else {
      var all := acts + more;
      assert all[..|all| - 1] == acts + more[..|more| - 1];
      EverOnlyGrows(env, acts, more[..|more| - 1]);
    }
  }

  // ---------------------------------------------------------------------------
  // Two runs that differ by one presence lease
  // ---------------------------------------------------------------------------

  predicate Mentions(a: Action, x: Label) {
    (a.Create? || a.Begin? || a.Finish?) && a.lease == x
  }

  /** The run without the calls made on lease `x`. */
  function Without(acts: seq<Action>, x: Label): seq<Action> {
    if acts == [] then []
    else
      var rest := Without(acts[..|acts| - 1], x);
      if Mentions(acts[|acts| - 1], x) then rest else rest + [acts[|acts| - 1]]
  }

  predicate OnlyPresence(acts: seq<Action>, x: Label) {
    forall a :: a in acts && a.Create? && a.lease == x ==> a.evidence == Presence
  }

  predicate SameLease(a: LeaseRecord, b: LeaseRecord) {
    a == b.(handle := b.handle.(claimId := a.handle.claimId))
  }

  /** `t` is `s` with the presence lease `x` added; claim ids may be shifted. */
  ghost predicate Extends(s: System, t: System, x: Label) {
    && SameClock(s.registry, t.registry)
    && LeasesExtend(s.leases, t.leases, x)
  }

  ghost predicate LeasesExtend(a: map<Label, LeaseRecord>, b: map<Label, LeaseRecord>, x: Label) {
    && a.Keys == b.Keys - {x}
    && (forall l :: l in a ==> SameLease(a[l], b[l]))
    && (x in b ==> b[x].handle.evidence == Presence && b[x].start == Unprovable)
  }

  /** What one call does to the leases depends on the clock fields alone. */
  ghost function LeasesAfter(env: Setup, s: System, a: Action): map<Label, LeaseRecord> {
    match a
    case Create(l, account, sessionKey, peer, evidence) =>
      if l in s.leases then s.leases
      else s.leases[l := LeaseRecord(NewHandle(s.registry, env.normalize, account, sessionKey, peer, evidence), Unprovable)]
    case Begin(l, reading) =>
      if !CanBegin(s, l) then s.leases
      else
        var h := s.leases[l].handle;
        s.leases[l := LeaseRecord(h.(activated := true), StartFor(s.registry, h, reading))]
    case Finish(l) =>
      if l !in s.leases then s.leases
      else s.leases[l := s.leases[l].(handle := s.leases[l].handle.(released := true))]
    case _ => s.leases
  }

  lemma LeasesAfterStep(env: Setup, s: System, a: Action)
    ensures Step(env, s, a).leases == LeasesAfter(env, s, a)
  {
  }

  lemma LeasesStayExtended(env: Setup, s: System, t: System, a: Action, x: Label)
    requires Extends(s, t, x)
    requires a.Create? && a.lease == x ==> a.evidence == Presence
    ensures LeasesExtend(if Mentions(a, x) then s.leases else LeasesAfter(env, s, a), LeasesAfter(env, t, a), x)
  {
    if (a.Create? || a.Begin? || a.Finish?) && a.lease in s.leases {
      assert SameLease(s.leases[a.lease], t.leases[a.lease]);
    }
  }

  lemma ExtendsStep(env: Setup, s: System, t: System, a: Action, x: Label)
    requires Extends(s, t, x)
    requires a.Create? && a.lease == x ==> a.evidence == Presence
    ensures Extends(if Mentions(a, x) then s else Step(env, s, a), Step(env, t, a), x)
  {
    match a {
      case Begin(l, reading) =>
        BeginClock(env, s, l, reading);
        BeginClock(env, t, l, reading);
        assert l in s.leases ==> SameLease(s.leases[l], t.leases[l]);
      case Ask(_, _) =>
        AskClock(env, s, a);
        AskClock(env, t, a);
      case Rotate(_) =>
        RotateClock(env, s, a);
        RotateClock(env, t, a);
      case _ =>
        QuietStepClock(env, s, a);
        QuietStepClock(env, t, a);
    }
    LeasesAfterStep(env, s, a);
    LeasesAfterStep(env, t, a);
    LeasesStayExtended(env, s, t, a, x);
  }

  lemma ExtendsOverlaps(s: System, t: System, x: Label)
    requires Extends(s, t, x)
    ensures OverlapNow(s.leases) <= OverlapNow(t.leases)
  {
    forall l | l in s.leases && Overlap(s.leases, s.leases[l].handle.key)
      ensures Overlap(t.leases, t.leases[l].handle.key)
    {
      var key := s.leases[l].handle.key;
      var b, c :| b in s.leases && c in s.leases && LiveOn(s.leases[b], key) && LiveOn(s.leases[c], key)
               && !SameOrigin(s.leases[b].handle, s.leases[c].handle);
      assert SameLease(s.leases[b], t.leases[b]) && SameLease(s.leases[c], t.leases[c]);
    }
  }

  lemma {:induction false} PresenceExtendsRun(env: Setup, acts: seq<Action>, x: Label)
    requires OnlyPresence(acts, x)
    ensures Extends(Run(env, Without(acts, x)), Run(env, acts), x)
    ensures EverOverlapped(env, Without(acts, x)) <= EverOverlapped(env, acts)
  {
    if acts == [] {
      return;
    }
    var prefix, a := acts[..|acts| - 1], acts[|acts| - 1];
    PresenceExtendsRun(env, prefix, x);
    var short := Without(prefix, x);
    ExtendsStep(env, Run(env, short), Run(env, prefix), a, x);
    if !Mentions(a, x) {
      assert Without(acts, x) == short + [a] && (short + [a])[..|short|] == short;
    }
    ExtendsOverlaps(Run(env, Without(acts, x)), Run(env, acts), x);
  }

  lemma SubsetCard<T>(a: set<T>, b: set<T>)
    requires a <= b
    ensures |a| <= |b|
  {
    assert b == a + (b - a);
  }

  /** The same answer, or a refusal; never a new peer. */
  predicate NoLessSafe(without: Resolution, answer: Resolution) {
    || answer == without
    || (answer in {Ambiguous, EpochPoisoned} && without != InvalidRequestTime && without != EpochPoisoned)
  }

  /** Adding one presence lease to a run can only turn answers into refusals, however the run goes on. */
  lemma PresenceOnlyWeakens(env: Setup, acts: seq<Action>, x: Label, request: Request, reading: Reading)
    requires OnlyPresence(acts, x)
    ensures NoLessSafe(AnswerAfter(env, Without(acts, x), request, reading), AnswerAfter(env, acts, request, reading))
  {
    var short := Without(acts, x);
    PresenceExtendsRun(env, acts, x);
    ResolveIsExact(env, acts, request, reading);
    ResolveIsExact(env, short, request, reading);
    SubsetCard(EverOverlapped(env, short), EverOverlapped(env, acts));
    var s, t := Run(env, short), Run(env, acts);
    if Timely(s.registry, request, reading) {
      var key, ms := ComposeKey(env.normalize, request.account, request.sessionKey), request.createdAt.ms;
      forall p
        ensures p in EligibleLeasePeers(s.leases, key, request.account, ms)
           <==> p in EligibleLeasePeers(t.leases, key, request.account, ms)
      {
        EligibleExtends(s, t, x, key, request.account, ms, p);
      }
      assert EligibleLeasePeers(s.leases, key, request.account, ms)
          == EligibleLeasePeers(t.leases, key, request.account, ms);
    }
  }

  lemma EligibleExtends(s: System, t: System, x: Label, key: Key, account: string, ms: real, p: string)
    requires Extends(s, t, x)
    ensures p in EligibleLeasePeers(s.leases, key, account, ms) <==> p in EligibleLeasePeers(t.leases, key, account, ms)
  {
    if l :| l in s.leases && EligibleLease(s.leases[l], key, account, ms) && s.leases[l].handle.peer == p {
      assert SameLease(s.leases[l], t.leases[l]) && EligibleLease(t.leases[l], key, account, ms);
    }
    if l :| l in t.leases && EligibleLease(t.leases[l], key, account, ms) && t.leases[l].handle.peer == p {
      assert l in s.leases && SameLease(s.leases[l], t.leases[l]);
    }
  }
}
