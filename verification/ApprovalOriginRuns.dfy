/**
 * Whole runs of the registry and all its lease handles, and their invariant: the table holds the live leases, and
 * poison is the record of the overlaps since the epoch began.
 */
module ApprovalOriginRuns {
  import opened Options
  import opened ApprovalOrigin

  type Label = nat

  /** One call on the registry or on the handle a caller knows as `lease`. */
  datatype Action =
    | Create(lease: Label, account: string, sessionKey: string, peer: string, evidence: Evidence)
    | Begin(lease: Label, reading: Reading)
    | Finish(lease: Label)
    | Ask(request: Request, reading: Reading)
    | Rotate(reading: Reading)

  /** A handle together with the start time its activation recorded. */
  datatype LeaseRecord = LeaseRecord(handle: Handle, start: Start)

  datatype System = System(registry: Registry, leases: map<Label, LeaseRecord>)

  datatype Setup = Setup(normalize: string -> string, cap: nat, first: Reading)

  // ---------------------------------------------------------------------------
  // Runs
  // ---------------------------------------------------------------------------

  predicate CanBegin(s: System, l: Label) {
    l in s.leases && !s.leases[l].handle.activated && !s.leases[l].handle.released
  }

  ghost function Step(env: Setup, s: System, a: Action): System {
    match a
    case Create(l, account, sessionKey, peer, evidence) =>
      if l in s.leases then s
      else
        var h := NewHandle(s.registry, env.normalize, account, sessionKey, peer, evidence);
        System(s.registry.(nextClaimId := s.registry.nextClaimId + 1), s.leases[l := LeaseRecord(h, Unprovable)])
    case Begin(l, reading) =>
      if !CanBegin(s, l) then s
      else
        var h := s.leases[l].handle;
        var (r, h') := Activate(s.registry, h, reading, env.cap);
        System(r, s.leases[l := LeaseRecord(h', StartFor(s.registry, h, reading))])
    case Finish(l) =>
      if l !in s.leases then s
      else
        var (r, h') := Release(s.registry, s.leases[l].handle);
        System(r, s.leases[l := s.leases[l].(handle := h')])
    case Ask(request, reading) =>
      s.(registry := Resolve(s.registry, env.normalize, request, reading).0)
    case Rotate(reading) =>
      s.(registry := RotateEpoch(s.registry, reading, env.cap))
  }

  ghost function Run(env: Setup, acts: seq<Action>): System {
    if acts == [] then System(NewRegistry(env.first), map[])
    else Step(env, Run(env, acts[..|acts| - 1]), acts[|acts| - 1])
  }

  // ---------------------------------------------------------------------------
  // Reference notions, read off the lease handles alone
  // ---------------------------------------------------------------------------

  predicate Live(rec: LeaseRecord) {
    rec.handle.activated && !rec.handle.released
  }

  predicate LiveOn(rec: LeaseRecord, key: Key) {
    Live(rec) && rec.handle.key == key
  }

  predicate SameOrigin(a: Handle, b: Handle) {
    a.account == b.account && a.peer == b.peer
  }

  /** Two leases of distinct exact origins are live on `key`. */
  predicate Overlap(leases: map<Label, LeaseRecord>, key: Key) {
    exists l, m :: l in leases && m in leases && LiveOn(leases[l], key) && LiveOn(leases[m], key)
                && !SameOrigin(leases[l].handle, leases[m].handle)
  }

  function OverlapNow(leases: map<Label, LeaseRecord>): set<Key> {
    set l | l in leases && Overlap(leases, leases[l].handle.key) :: leases[l].handle.key
  }

  /** The keys that overlapped at some moment of the current epoch, the rotation itself included. */
  ghost function EverOverlapped(env: Setup, acts: seq<Action>): set<Key> {
    if acts == [] then {}
    else
      var now := OverlapNow(Run(env, acts).leases);
      if acts[|acts| - 1].Rotate? then now else EverOverlapped(env, acts[..|acts| - 1]) + now
  }

  /** The number of calls before the current epoch began. */
  function EpochStart(acts: seq<Action>): (n: nat)
    ensures n <= |acts|
    ensures n > 0 ==> acts[n - 1].Rotate?
    ensures forall i :: n <= i < |acts| ==> !acts[i].Rotate?
  {
    if acts == [] then 0
    else if acts[|acts| - 1].Rotate? then |acts|
    else EpochStart(acts[..|acts| - 1])
  }

  /** The reading that drew the current epoch's barrier. */
  function BarrierReading(env: Setup, acts: seq<Action>): Reading {
    var n := EpochStart(acts);
    if n == 0 then env.first else acts[n - 1].reading
  }

  predicate EligibleLease(rec: LeaseRecord, key: Key, account: string, ms: real) {
    LiveOn(rec, key) && rec.handle.account == account && StartedBefore(rec.start, ms)
  }

  ghost function EligibleLeasePeers(leases: map<Label, LeaseRecord>, key: Key, account: string, ms: real): set<string> {
    set l | l in leases && EligibleLease(leases[l], key, account, ms) :: leases[l].handle.peer
  }

  // ---------------------------------------------------------------------------
  // The invariant
  // ---------------------------------------------------------------------------

  function LiveClaims(leases: map<Label, LeaseRecord>, key: Key): set<Claim> {
    set l | l in leases && LiveOn(leases[l], key) :: ClaimFor(leases[l].handle, leases[l].start)
  }

  ghost predicate IdsDistinct(s: System) {
    && (forall l :: l in s.leases ==> s.leases[l].handle.claimId < s.registry.nextClaimId)
    && (forall l, m :: l in s.leases && m in s.leases && s.leases[l].handle.claimId == s.leases[m].handle.claimId ==> l == m)
  }

  function ClaimSet(r: Registry, key: Key): set<Claim> {
    set c | c in ClaimsOn(r, key)
  }

  /** The claims table holds exactly the live leases. */
  ghost predicate TableIsLiveLeases(s: System) {
    forall key :: ClaimSet(s.registry, key) == LiveClaims(s.leases, key)
  }

  ghost predicate Inv(s: System, ever: set<Key>, cap: nat) {
    && IdsDistinct(s)
    && TableIsLiveLeases(s)
    && OverlapNow(s.leases) <= ever
    && s.registry == PoisonAll(s.registry, ever, cap)
  }

  lemma OverlapIsConflict(s: System, key: Key)
    requires ClaimSet(s.registry, key) == LiveClaims(s.leases, key)
    ensures Conflicting(ClaimsOn(s.registry, key)) <==> Overlap(s.leases, key)
  {
    var cs := ClaimsOn(s.registry, key);
    assert forall c :: c in cs <==> c in ClaimSet(s.registry, key);
    if Overlap(s.leases, key) {
      var l, m :| l in s.leases && m in s.leases && LiveOn(s.leases[l], key) && LiveOn(s.leases[m], key)
               && !SameOrigin(s.leases[l].handle, s.leases[m].handle);
      var c, d := ClaimFor(s.leases[l].handle, s.leases[l].start), ClaimFor(s.leases[m].handle, s.leases[m].start);
      assert c in LiveClaims(s.leases, key) && d in LiveClaims(s.leases, key);
      assert OriginOf(c) != OriginOf(d);
    }
  }

  lemma BeginKeepsTable(r: Registry, leases: map<Label, LeaseRecord>, l: Label, start: Start, key: Key)
    requires l in leases && !leases[l].handle.activated && !leases[l].handle.released
    requires ClaimSet(r, key) == LiveClaims(leases, key)
    ensures var h := leases[l].handle;
            var inserted := r.(claims := r.claims[h.key := ClaimsOn(r, h.key) + [ClaimFor(h, start)]]);
            ClaimSet(inserted, key) == LiveClaims(Begun(leases, l, start), key)
  {
    BeginAddsClaim(leases, l, start, key);
    var h := leases[l].handle;
    var inserted := r.(claims := r.claims[h.key := ClaimsOn(r, h.key) + [ClaimFor(h, start)]]);
    if key == h.key {
      assert ClaimsOn(inserted, key) == ClaimsOn(r, key) + [ClaimFor(h, start)];
      assert ClaimSet(inserted, key) == ClaimSet(r, key) + {ClaimFor(h, start)};
    } else {
      assert ClaimsOn(inserted, key) == ClaimsOn(r, key);
    }
  }

  /** Poisoning the one key an insertion can make overlap keeps the poison exact. */
  lemma InsertKeepsPoison(r: Registry, ever: set<Key>, now: set<Key>, key: Key, cap: nat)
    requires r == PoisonAll(r, ever, cap)
    requires now <= ever + {key}
    requires key in now <==> Conflicting(ClaimsOn(r, key))
    ensures var r' := PoisonIfOverlapping(r, key, cap);
            r' == PoisonAll(r', ever + now, cap)
  {
    PoisonKeyExact(r, ever, key, cap);
    if key in now {
      assert ever + now == ever + {key};
    } else {
      assert ever + now == ever;
    }
  }

  lemma BeginKeepsClaims(env: Setup, s: System, l: Label, reading: Reading)
    requires IdsDistinct(s) && TableIsLiveLeases(s)
    ensures var s' := Step(env, s, Begin(l, reading));
            IdsDistinct(s') && TableIsLiveLeases(s')
  {
    var s' := Step(env, s, Begin(l, reading));
    if !CanBegin(s, l) {
      return;
    }
    var h := s.leases[l].handle;
    var start := StartFor(s.registry, h, reading);
    var clocked := if Provable(s.registry, h) then ReadClock(s.registry, reading).0 else s.registry;
    assert s'.leases == Begun(s.leases, l, start);
    forall key
      ensures ClaimSet(s'.registry, key) == LiveClaims(s'.leases, key)
    {
      assert ClaimSet(clocked, key) == ClaimSet(s.registry, key);
      BeginKeepsTable(clocked, s.leases, l, start, key);
    }
  }

  lemma BeginKeepsPoison(env: Setup, s: System, l: Label, reading: Reading, ever: set<Key>)
    requires Inv(s, ever, env.cap) && CanBegin(s, l)
    ensures var s' := Step(env, s, Begin(l, reading));
            s'.registry == PoisonAll(s'.registry, ever + OverlapNow(s'.leases), env.cap)
  {
    var s' := Step(env, s, Begin(l, reading));
    var h := s.leases[l].handle;
    var start := StartFor(s.registry, h, reading);
    var clocked := if Provable(s.registry, h) then ReadClock(s.registry, reading).0 else s.registry;
    var inserted := clocked.(claims := clocked.claims[h.key := ClaimsOn(clocked, h.key) + [ClaimFor(h, start)]]);
    assert Conflicting(ClaimsOn(inserted, h.key)) <==> Overlap(s'.leases, h.key) by {
      BeginKeepsClaims(env, s, l, reading);
      assert ClaimSet(s'.registry, h.key) == LiveClaims(s'.leases, h.key);
      OverlapIsConflict(s', h.key);
      assert ClaimsOn(inserted, h.key) == ClaimsOn(s'.registry, h.key);
    }
    BeginOverlaps(s.leases, l, start);
    InsertKeepsPoison(inserted, ever, OverlapNow(s'.leases), h.key, env.cap);
  }

  lemma BeginKeepsInv(env: Setup, s: System, l: Label, reading: Reading, ever: set<Key>)
    requires Inv(s, ever, env.cap)
    ensures var s' := Step(env, s, Begin(l, reading));
            Inv(s', ever + OverlapNow(s'.leases), env.cap)
  {
    if CanBegin(s, l) {
      BeginKeepsClaims(env, s, l, reading);
      BeginKeepsPoison(env, s, l, reading, ever);
    } else {
      assert ever + OverlapNow(s.leases) == ever;
    }
  }

  ghost function Begun(leases: map<Label, LeaseRecord>, l: Label, start: Start): map<Label, LeaseRecord>
    requires l in leases
  {
    leases[l := LeaseRecord(leases[l].handle.(activated := true), start)]
  }

  lemma BeginAddsClaim(leases: map<Label, LeaseRecord>, l: Label, start: Start, key: Key)
    requires l in leases && !leases[l].handle.activated && !leases[l].handle.released
    ensures LiveClaims(Begun(leases, l, start), key)
         == LiveClaims(leases, key) + if key == leases[l].handle.key then {ClaimFor(leases[l].handle, start)} else {}
  {
    var leases' := Begun(leases, l, start);
    var claim := ClaimFor(leases[l].handle, start);
    assert claim == ClaimFor(leases'[l].handle, leases'[l].start);
    forall c | c in LiveClaims(leases, key) ensures c in LiveClaims(leases', key) {
      var m :| m in leases && LiveOn(leases[m], key) && c == ClaimFor(leases[m].handle, leases[m].start);
      assert leases'[m] == leases[m];
    }
  }

  lemma BeginOverlaps(leases: map<Label, LeaseRecord>, l: Label, start: Start)
    requires l in leases && !leases[l].handle.activated && !leases[l].handle.released
    ensures var key := leases[l].handle.key;
            var now := OverlapNow(Begun(leases, l, start));
            && OverlapNow(leases) <= now <= OverlapNow(leases) + {key}
            && (key in now <==> Overlap(Begun(leases, l, start), key))
  {
    var leases' := Begun(leases, l, start);
    forall m | m in leases && Overlap(leases, leases[m].handle.key)
      ensures Overlap(leases', leases[m].handle.key) && leases'[m].handle.key == leases[m].handle.key
    {
      var a, b :| a in leases && b in leases && LiveOn(leases[a], leases[m].handle.key)
               && LiveOn(leases[b], leases[m].handle.key) && !SameOrigin(leases[a].handle, leases[b].handle);
      assert leases'[a] == leases[a] && leases'[b] == leases[b];
    }
    forall m | m in leases' && Overlap(leases', leases'[m].handle.key) && leases'[m].handle.key != leases[l].handle.key
      ensures Overlap(leases, leases[m].handle.key)
    {
      var a, b :| a in leases' && b in leases' && LiveOn(leases'[a], leases'[m].handle.key)
               && LiveOn(leases'[b], leases'[m].handle.key) && !SameOrigin(leases'[a].handle, leases'[b].handle);
      assert leases'[a] == leases[a] && leases'[b] == leases[b];
    }
    assert leases'[l].handle.key == leases[l].handle.key;
  }

  ghost function Finished(leases: map<Label, LeaseRecord>, l: Label): map<Label, LeaseRecord>
    requires l in leases
  {
    leases[l := leases[l].(handle := leases[l].handle.(released := true))]
  }

  lemma FinishKeepsTable(s: System, l: Label, key: Key)
    requires IdsDistinct(s) && l in s.leases && ClaimSet(s.registry, key) == LiveClaims(s.leases, key)
    ensures var h := s.leases[l].handle;
            ClaimSet(DeleteClaim(s.registry, h.key, h.claimId), key) == LiveClaims(Finished(s.leases, l), key)
  {
    var h := s.leases[l].handle;
    var leases' := Finished(s.leases, l);
    var was := LiveClaims(s.leases, key);
    forall c
      ensures c in LiveClaims(leases', key) <==> c in was && !(key == h.key && c.id == h.claimId)
    {
      if c in was {
        var m :| m in s.leases && LiveOn(s.leases[m], key) && c == ClaimFor(s.leases[m].handle, s.leases[m].start);
        assert m != l ==> leases'[m] == s.leases[m];
      }
    }
    var after := DeleteClaim(s.registry, h.key, h.claimId);
    assert forall c :: c in ClaimsOn(after, key) <==> c in ClaimsOn(s.registry, key) && !(key == h.key && c.id == h.claimId);
    assert forall c :: c in ClaimsOn(s.registry, key) <==> c in ClaimSet(s.registry, key);
  }

  lemma FinishOverlaps(leases: map<Label, LeaseRecord>, l: Label)
    requires l in leases
    ensures OverlapNow(Finished(leases, l)) <= OverlapNow(leases)
  {
    var leases' := Finished(leases, l);
    forall m | m in leases' && Overlap(leases', leases'[m].handle.key)
      ensures leases'[m].handle.key == leases[m].handle.key && Overlap(leases, leases[m].handle.key)
    {
      var key := leases[m].handle.key;
      var a, b :| a in leases' && b in leases' && LiveOn(leases'[a], key)
               && LiveOn(leases'[b], key) && !SameOrigin(leases'[a].handle, leases'[b].handle);
      assert leases'[a] == leases[a] && leases'[b] == leases[b];
    }
  }

  lemma FinishKeepsInv(env: Setup, s: System, l: Label, ever: set<Key>)
    requires Inv(s, ever, env.cap)
    ensures Inv(Step(env, s, Finish(l)), ever, env.cap)
  {
    var s' := Step(env, s, Finish(l));
    if l !in s.leases || s.leases[l].handle.released {
      assert s'.leases == s.leases;
      return;
    }
    forall key
      ensures ClaimSet(s'.registry, key) == LiveClaims(s'.leases, key)
    {
      FinishKeepsTable(s, l, key);
    }
    FinishOverlaps(s.leases, l);
  }

  /** A lease that is not live adds no claim and no overlap. */
  lemma IdleLeaseChangesNothing(leases: map<Label, LeaseRecord>, l: Label, rec: LeaseRecord)
    requires l !in leases && !Live(rec)
    ensures forall key :: LiveClaims(leases[l := rec], key) == LiveClaims(leases, key)
    ensures OverlapNow(leases[l := rec]) <= OverlapNow(leases)
  {
    var leases' := leases[l := rec];
    assert forall m :: m in leases ==> leases'[m] == leases[m];
    forall m | m in leases' && Overlap(leases', leases'[m].handle.key)
      ensures leases'[m].handle.key in OverlapNow(leases)
    {
      var key := leases'[m].handle.key;
      var b, c :| b in leases' && c in leases' && LiveOn(leases'[b], key) && LiveOn(leases'[c], key)
               && !SameOrigin(leases'[b].handle, leases'[c].handle);
      assert b != l && c != l;
      assert Overlap(leases, leases[b].handle.key);
    }
  }

  lemma CreateKeepsInv(env: Setup, s: System, a: Action, ever: set<Key>)
    requires a.Create? && Inv(s, ever, env.cap)
    ensures Inv(Step(env, s, a), ever, env.cap)
  {
    if a.lease !in s.leases {
      var h := NewHandle(s.registry, env.normalize, a.account, a.sessionKey, a.peer, a.evidence);
      IdleLeaseChangesNothing(s.leases, a.lease, LeaseRecord(h, Unprovable));
      assert forall key :: ClaimSet(Step(env, s, a).registry, key) == ClaimSet(s.registry, key);
    }
  }

  lemma RotateKeepsInv(env: Setup, s: System, reading: Reading, ever: set<Key>)
    requires Inv(s, ever, env.cap)
    ensures var s' := Step(env, s, Rotate(reading));
            Inv(s', OverlapNow(s'.leases), env.cap)
  {
    var s' := Step(env, s, Rotate(reading));
    assert forall key :: ClaimsOn(s'.registry, key) == ClaimsOn(s.registry, key);
    forall key
      ensures ClaimSet(s'.registry, key) == LiveClaims(s'.leases, key)
    {
      assert ClaimSet(s.registry, key) == LiveClaims(s.leases, key);
    }
    forall key
      ensures key in ConflictingKeys(s.registry) <==> key in OverlapNow(s.leases)
    {
      OverlapIsConflict(s, key);
      if Overlap(s.leases, key) {
        var l, m :| l in s.leases && m in s.leases && LiveOn(s.leases[l], key) && LiveOn(s.leases[m], key)
                 && !SameOrigin(s.leases[l].handle, s.leases[m].handle);
        assert s.leases[l].handle.key == key;
      }
    }
    assert ConflictingKeys(s.registry) == OverlapNow(s.leases);
  }

  lemma AskKeepsInv(env: Setup, s: System, request: Request, reading: Reading, ever: set<Key>)
    requires Inv(s, ever, env.cap)
    ensures Inv(Step(env, s, Ask(request, reading)), ever, env.cap)
  {
    var s' := Step(env, s, Ask(request, reading));
    forall key
      ensures ClaimSet(s'.registry, key) == LiveClaims(s'.leases, key)
    {
      assert ClaimSet(s.registry, key) == LiveClaims(s.leases, key);
    }
  }

  lemma {:induction false} RunKeepsInv(env: Setup, acts: seq<Action>)
    ensures Inv(Run(env, acts), EverOverlapped(env, acts), env.cap)
  {
    if acts == [] {
      return;
    }
    var prefix, a := acts[..|acts| - 1], acts[|acts| - 1];
    RunKeepsInv(env, prefix);
    var s, ever := Run(env, prefix), EverOverlapped(env, prefix);
    var now := OverlapNow(Step(env, s, a).leases);
    match a {
      case Create(_, _, _, _, _) => CreateKeepsInv(env, s, a, ever);
      case Begin(l, reading) => BeginKeepsInv(env, s, l, reading, ever);
      case Finish(l) => FinishKeepsInv(env, s, l, ever);
      case Ask(request, reading) => AskKeepsInv(env, s, request, reading, ever);
      case Rotate(reading) => RotateKeepsInv(env, s, reading, ever);
    }
    assert now <= ever ==> ever + now == ever;
  }
}
