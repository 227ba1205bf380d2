/**
 * The approval-origin lease registry: which peer provably had a run active when
 * an approval request was created.
 *
 * This file says what one call makes of the registry's value: keys, clock and barrier, claims, poison and the answer.
 */
module ApprovalOrigin {
  import opened Options

  /** What the injected clock returned: finite milliseconds, or NaN / an infinity. */
  datatype Reading = Finite(ms: real) | NotFinite

  /** When a claim started. Unprovable is the source's `+Infinity`: never before any request. */
  datatype Start = StartedAt(ms: real) | Unprovable

  datatype Evidence = Origin | Presence

  /** A collision-domain key, `canonicalAccount + " " + sessionKey`. */
  type Key = string

  datatype Claim = Claim(id: nat, account: string, key: Key, peer: string, start: Start)

  datatype Request = Request(account: string, sessionKey: string, createdAt: Reading)

  datatype Resolution =
    | Resolved(peer: string)
    | NoMatch
    | Ambiguous
    | EpochPoisoned
    | InvalidRequestTime

  /** The registry's fields. `lastObserved` is None while the source holds `-Infinity`. */
  datatype Registry = Registry(
    nextClaimId: nat,
    epoch: nat,
    barrier: real,
    trusted: bool,
    lastObserved: Option<real>,
    claims: map<Key, seq<Claim>>,
    poisoned: set<Key>,
    globallyPoisoned: bool)

  /** The captured fields and flags of one lease handle. */
  datatype Handle = Handle(
    claimId: nat,
    account: string,
    key: Key,
    peer: string,
    evidence: Evidence,
    createdEpoch: nat,
    activated: bool,
    released: bool)

  const DEFAULT_MAX_POISONED_KEYS: nat := 1024

  function PoisonCap(option: Option<int>): (cap: nat)
    ensures cap > 0
    ensures if option.Some? && option.value > 0 then cap == option.value else cap == 1024
  {
    if option.Some? && option.value > 0 then option.value else DEFAULT_MAX_POISONED_KEYS
  }

  function ComposeKey(normalize: string -> string, account: string, sessionKey: string): Key {
    normalize(account) + " " + sessionKey
  }

  /** The separator keeps the two fields apart because a canonical account has no space. */
  lemma ComposeKeyInjective(normalize: string -> string, a: string, s: string, b: string, t: string)
    requires forall x :: ' ' !in normalize(x)
    ensures ComposeKey(normalize, a, s) == ComposeKey(normalize, b, t)
       <==> normalize(a) == normalize(b) && s == t
  {
    var x, y := normalize(a), normalize(b);
    var j, k := ComposeKey(normalize, a, s), ComposeKey(normalize, b, t);
    if j == k {
      assert j[|x|] == ' ' && k[|y|] == ' ';
      assert forall i :: 0 <= i < |x| ==> j[i] == x[i];
      assert forall i :: 0 <= i < |y| ==> k[i] == y[i];
      assert |x| == |y|;
      assert j[..|x|] == x && k[..|y|] == y;
      assert j[|x| + 1..] == s && k[|y| + 1..] == t;
    }
  }

  // ---------------------------------------------------------------------------
  // Clock
  // ---------------------------------------------------------------------------

  function EstablishBarrier(r: Registry, reading: Reading): Registry {
    match reading
    case NotFinite => r.(trusted := false)
    case Finite(ms) => r.(barrier := ms, lastObserved := Some(ms), trusted := true)
  }

  predicate Anomalous(r: Registry, reading: Reading) {
    reading.NotFinite? || (r.lastObserved.Some? && reading.ms < r.lastObserved.value)
  }

  function ReadClock(r: Registry, reading: Reading): (Registry, Option<real>) {
    if Anomalous(r, reading) then (r.(trusted := false), None)
    else (r.(lastObserved := Some(reading.ms)), Some(reading.ms))
  }

  // ---------------------------------------------------------------------------
  // Claims and poison
  // ---------------------------------------------------------------------------

  function OriginOf(c: Claim): (string, string) {
    (c.account, c.peer)
  }

  function ClaimsOn(r: Registry, key: Key): seq<Claim> {
    if key in r.claims then r.claims[key] else []
  }

  /** Two claims of distinct exact origins. */
  ghost predicate Conflicting(cs: seq<Claim>) {
    exists c, d :: c in cs && d in cs && OriginOf(c) != OriginOf(d)
  }

  function PoisonKey(r: Registry, key: Key, cap: nat): Registry {
    if r.globallyPoisoned || key in r.poisoned then r
    else if |r.poisoned| + 1 > cap then r.(poisoned := {}, globallyPoisoned := true)
    else r.(poisoned := r.poisoned + {key})
  }

  ghost function PoisonIfOverlapping(r: Registry, key: Key, cap: nat): Registry {
    if Conflicting(ClaimsOn(r, key)) then PoisonKey(r, key, cap) else r
  }

  ghost function InsertClaim(r: Registry, c: Claim, cap: nat): Registry {
    PoisonIfOverlapping(r.(claims := r.claims[c.key := ClaimsOn(r, c.key) + [c]]), c.key, cap)
  }

  function WithoutClaim(cs: seq<Claim>, id: nat): (rest: seq<Claim>)
    ensures forall c :: c in rest <==> c in cs && c.id != id
  {
    if cs == [] then []
    else
      var rest := WithoutClaim(cs[1..], id);
      assert cs == [cs[0]] + cs[1..];
      if cs[0].id == id then rest else [cs[0]] + rest
  }

  function DeleteClaim(r: Registry, key: Key, id: nat): Registry {
    if key !in r.claims then r
    else
      var rest := WithoutClaim(r.claims[key], id);
      r.(claims := if rest == [] then r.claims - {key} else r.claims[key := rest])
  }

  /** The state after every key of `overlapped` was poisoned from a clear slate. */
  function PoisonAll(r: Registry, overlapped: set<Key>, cap: nat): Registry {
    if |overlapped| > cap then r.(poisoned := {}, globallyPoisoned := true)
    else r.(poisoned := overlapped, globallyPoisoned := false)
  }

  ghost function ConflictingKeys(r: Registry): set<Key> {
    set key | key in r.claims && Conflicting(r.claims[key])
  }

  lemma PoisonKeyExact(r: Registry, ever: set<Key>, key: Key, cap: nat)
    requires r == PoisonAll(r, ever, cap)
    ensures PoisonKey(r, key, cap) == PoisonAll(r, ever + {key}, cap)
  {
    if key in ever {
      assert ever + {key} == ever;
    } else {
      assert |ever + {key}| == |ever| + 1;
    }
  }

  lemma ConflictingAmong(r: Registry, done: set<Key>, key: Key)
    requires key in r.claims
    ensures ConflictingKeys(r) * (done + {key}) == ConflictingKeys(r) * done + if Conflicting(r.claims[key]) then {key} else {}
  {
  }

  /** Poisoning conflicting keys one at a time, in any order, ends where poisoning the whole set does. */
  lemma RescanStep(r: Registry, done: set<Key>, key: Key, cap: nat)
    requires key in r.claims
    ensures PoisonIfOverlapping(PoisonAll(r, ConflictingKeys(r) * done, cap), key, cap)
         == PoisonAll(r, ConflictingKeys(r) * (done + {key}), cap)
  {
    var before := ConflictingKeys(r) * done;
    ConflictingAmong(r, done, key);
    PoisonKeyExact(PoisonAll(r, before, cap), before, key, cap);
  }

  // ---------------------------------------------------------------------------
  // The four public operations
  // ---------------------------------------------------------------------------

  function NewHandle(r: Registry, normalize: string -> string, account: string, sessionKey: string,
                     peer: string, evidence: Evidence): Handle {
    Handle(r.nextClaimId, account, ComposeKey(normalize, account, sessionKey), peer, evidence, r.epoch, false, false)
  }

  predicate Provable(r: Registry, h: Handle) {
    h.evidence == Origin && h.createdEpoch == r.epoch
  }

  /** The start time an activation of `h` records. */
  function StartFor(r: Registry, h: Handle, reading: Reading): Start {
    if Provable(r, h) && !Anomalous(r, reading) then StartedAt(reading.ms) else Unprovable
  }

  function ClaimFor(h: Handle, start: Start): Claim {
    Claim(h.claimId, h.account, h.key, h.peer, start)
  }

  ghost function Activate(r: Registry, h: Handle, reading: Reading, cap: nat): (Registry, Handle) {
    if h.activated || h.released then (r, h)
    else
      var clocked := if Provable(r, h) then ReadClock(r, reading).0 else r;
      (InsertClaim(clocked, ClaimFor(h, StartFor(r, h, reading)), cap), h.(activated := true))
  }

  function Release(r: Registry, h: Handle): (Registry, Handle) {
    if h.released then (r, h) else (DeleteClaim(r, h.key, h.claimId), h.(released := true))
  }

  /** The request lies strictly after the barrier and not after the reading. */
  predicate InWindow(r: Registry, createdAt: Reading, nowMs: real) {
    createdAt.Finite? && r.barrier < createdAt.ms <= nowMs
  }

  predicate StartedBefore(start: Start, ms: real) {
    start.StartedAt? && start.ms < ms
  }

  /** Only a single peer is an answer. */
  ghost function Answer(peers: set<string>): Resolution {
    if peers == {} then NoMatch
    else
      var p :| p in peers;
      if peers == {p} then Resolved(p) else Ambiguous
  }

  ghost function EligiblePeers(cs: seq<Claim>, account: string, ms: real): set<string> {
    set c | c in cs && c.account == account && StartedBefore(c.start, ms) :: c.peer
  }

  ghost function Resolve(r: Registry, normalize: string -> string, request: Request, reading: Reading)
    : (Registry, Resolution)
  {
    if !r.trusted then (r, InvalidRequestTime)
    else
      var (r', nowMs) := ReadClock(r, reading);
      if nowMs.None? || !InWindow(r', request.createdAt, nowMs.value) then (r', InvalidRequestTime)
      else if r'.globallyPoisoned then (r', EpochPoisoned)
      else
        var key := ComposeKey(normalize, request.account, request.sessionKey);
        if key in r'.poisoned then (r', Ambiguous)
        else (r', Answer(EligiblePeers(ClaimsOn(r', key), request.account, request.createdAt.ms)))
  }

  ghost function RotateEpoch(r: Registry, reading: Reading, cap: nat): Registry {
    var r' := EstablishBarrier(r.(epoch := r.epoch + 1, poisoned := {}, globallyPoisoned := false), reading);
    PoisonAll(r', ConflictingKeys(r'), cap)
  }

  const EMPTY: Registry := Registry(1, 0, 0.0, false, None, map[], {}, false)

  function NewRegistry(reading: Reading): Registry {
    EstablishBarrier(EMPTY, reading)
  }
}
