/** The mutable registry and its lease handles, proved against ApprovalOrigin's functions. */
module ApprovalOriginRegistry {
  import opened Options
  import opened ApprovalOrigin

  lemma PairSize<T>(a: T, b: T)
    ensures |{a, b}| == if a == b then 1 else 2
  {
    if a == b {
      assert {a, b} == {a};
    } else {
      assert {a, b} == {a} + {b};
    }
  }

  /** Counts distinct origins and stops at the second one. */
  method ManyOrigins(claims: seq<Claim>) returns (many: bool)
    ensures many <==> Conflicting(claims)
  {
    if |claims| < 2 {
      return false;
    }
    var origins: set<(string, string)> := {};
    for i := 0 to |claims|
      invariant origins == if i == 0 then {} else {OriginOf(claims[0])}
      invariant forall j :: 0 <= j < i ==> OriginOf(claims[j]) == OriginOf(claims[0])
    {
      origins := origins + {OriginOf(claims[i])};
      assert origins == {OriginOf(claims[0]), OriginOf(claims[i])};
      PairSize(OriginOf(claims[0]), OriginOf(claims[i]));
      if |origins| >= 2 {
        assert claims[0] in claims && claims[i] in claims;
        return true;
      }
    }
    return false;
  }

  class LeaseRegistry {
    const normalize: string -> string
    const maxPoisonedKeys: nat
    var nextClaimId: nat
    var epoch: nat
    var barrierMs: real
    var clockTrusted: bool
    var lastObservedMs: Option<real>
    var claimsByKey: map<Key, seq<Claim>>
    var poisonedKeys: set<Key>
    var epochGloballyPoisoned: bool

    ghost function View(): Registry
      reads this
    {
      Registry(nextClaimId, epoch, barrierMs, clockTrusted, lastObservedMs, claimsByKey,
               poisonedKeys, epochGloballyPoisoned)
    }

    constructor (normalize: string -> string, cap: Option<int>, reading: Reading)
      ensures this.normalize == normalize && maxPoisonedKeys == PoisonCap(cap)
      ensures View() == NewRegistry(reading)
    {
      this.normalize := normalize;
      maxPoisonedKeys := PoisonCap(cap);
      nextClaimId, epoch, barrierMs, clockTrusted, lastObservedMs := 1, 0, 0.0, false, None;
      claimsByKey, poisonedKeys, epochGloballyPoisoned := map[], {}, false;
      new;
      DrawBarrier(reading);
    }

    method CreateLease(account: string, sessionKey: string, peer: string, evidence: Evidence)
      returns (lease: Lease)
      modifies `nextClaimId
      ensures fresh(lease) && lease.registry == this
      ensures lease.View() == NewHandle(old(View()), normalize, account, sessionKey, peer, evidence)
      ensures View() == old(View()).(nextClaimId := old(nextClaimId) + 1)
    {
      var claimId := nextClaimId;
      nextClaimId := nextClaimId + 1;
      lease := new Lease(this, claimId, account, ComposeKey(normalize, account, sessionKey), peer, evidence, epoch);
    }

    method ResolveRequest(request: Request, reading: Reading) returns (answer: Resolution)
      modifies `clockTrusted, `lastObservedMs
      ensures (View(), answer) == Resolve(old(View()), normalize, request, reading)
    {
      if !clockTrusted {
        return InvalidRequestTime;
      }
      var nowMs := Tick(reading);
      if nowMs == None || request.createdAt.NotFinite? {
        return InvalidRequestTime;
      }
      var ms := request.createdAt.ms;
      if ms <= barrierMs || ms > nowMs.value {
        return InvalidRequestTime;
      }
      var key := ComposeKey(normalize, request.account, request.sessionKey);
      if epochGloballyPoisoned {
        return EpochPoisoned;
      }
      if key in poisonedKeys {
        return Ambiguous;
      }
      var claims := if key in claimsByKey then claimsByKey[key] else [];
      var onlyPeer: Option<string> := None;
      for i := 0 to |claims|
        invariant EligiblePeers(claims[..i], request.account, ms)
               == if onlyPeer.None? then {} else {onlyPeer.value}
      {
        assert claims[..i + 1] == claims[..i] + [claims[i]];
        var c := claims[i];
        if c.account != request.account || !StartedBefore(c.start, ms) {
          continue;
        }
        if onlyPeer.None? {
          onlyPeer := Some(c.peer);
        } else if onlyPeer.value != c.peer {
          ghost var peers := EligiblePeers(claims, request.account, ms);
          assert c in claims && c.peer in peers;
          assert onlyPeer.value in EligiblePeers(claims[..i], request.account, ms);
          assert onlyPeer.value in peers;
          return Ambiguous;
        }
      }
      assert claims[..|claims|] == claims;
      if onlyPeer.None? {
        return NoMatch;
      }
      return Resolved(onlyPeer.value);
    }

    method StartEpoch(reading: Reading)
      modifies `epoch, `poisonedKeys, `epochGloballyPoisoned, `barrierMs, `lastObservedMs, `clockTrusted
      ensures View() == RotateEpoch(old(View()), reading, maxPoisonedKeys)
    {
      epoch := epoch + 1;
      poisonedKeys := {};
      epochGloballyPoisoned := false;
      DrawBarrier(reading);
      Rescan();
    }

    /** Re-poisons every retained key on which distinct origins still overlap. */
    method Rescan()
      requires poisonedKeys == {} && !epochGloballyPoisoned
      modifies `poisonedKeys, `epochGloballyPoisoned
      ensures View() == PoisonAll(old(View()), ConflictingKeys(old(View())), maxPoisonedKeys)
    {
      ghost var start := View();
      ghost var conflicting := ConflictingKeys(start);
      var todo := claimsByKey.Keys;
      ghost var done: set<Key> := {};
      while todo != {}
        invariant done + todo == start.claims.Keys
        invariant View() == PoisonAll(start, conflicting * done, maxPoisonedKeys)
        decreases todo
      {
        var key :| key in todo;
        RescanStep(start, done, key, maxPoisonedKeys);
        PoisonOverlap(key);
        todo := todo - {key};
        done := done + {key};
      }
      assert conflicting * done == conflicting;
    }

    method DrawBarrier(reading: Reading)
      modifies `barrierMs, `lastObservedMs, `clockTrusted
      ensures View() == EstablishBarrier(old(View()), reading)
    {
      match reading {
        case NotFinite =>
          clockTrusted := false;
        case Finite(ms) =>
          barrierMs, lastObservedMs, clockTrusted := ms, Some(ms), true;
      }
    }

    method Tick(reading: Reading) returns (nowMs: Option<real>)
      modifies `clockTrusted, `lastObservedMs
      ensures (View(), nowMs) == ReadClock(old(View()), reading)
    {
      if reading.NotFinite? || (lastObservedMs.Some? && reading.ms < lastObservedMs.value) {
        clockTrusted := false;
        return None;
      }
      lastObservedMs := Some(reading.ms);
      return Some(reading.ms);
    }

    method Insert(claim: Claim)
      modifies `claimsByKey, `poisonedKeys, `epochGloballyPoisoned
      ensures View() == InsertClaim(old(View()), claim, maxPoisonedKeys)
    {
      var claims := if claim.key in claimsByKey then claimsByKey[claim.key] else [];
      claimsByKey := claimsByKey[claim.key := claims + [claim]];
      PoisonOverlap(claim.key);
    }

    method Delete(key: Key, claimId: nat)
      modifies `claimsByKey
      ensures View() == DeleteClaim(old(View()), key, claimId)
    {
      if key !in claimsByKey {
        return;
      }
      var rest := WithoutClaim(claimsByKey[key], claimId);
      claimsByKey := claimsByKey[key := rest];
      if |rest| == 0 {
        claimsByKey := claimsByKey - {key};
      }
    }

    method PoisonOverlap(key: Key)
      modifies `poisonedKeys, `epochGloballyPoisoned
      ensures View() == PoisonIfOverlapping(old(View()), key, maxPoisonedKeys)
    {
      if key in claimsByKey {
        var clash := ManyOrigins(claimsByKey[key]);
        if clash {
          Poison(key);
        }
      }
    }

    method Poison(key: Key)
      modifies `poisonedKeys, `epochGloballyPoisoned
      ensures View() == PoisonKey(old(View()), key, maxPoisonedKeys)
    {
      if epochGloballyPoisoned || key in poisonedKeys {
        return;
      }
      if |poisonedKeys| + 1 > maxPoisonedKeys {
        poisonedKeys := {};
        epochGloballyPoisoned := true;
        return;
      }
      poisonedKeys := poisonedKeys + {key};
    }
  }

  /** The closure `createLease` returns: fixed claim fields and two one-way flags. */
  class Lease {
    const registry: LeaseRegistry
    const claimId: nat
    const account: string
    const key: Key
    const peer: string
    const evidence: Evidence
    const createdEpoch: nat
    var activated: bool
    var released: bool

    ghost function View(): Handle
      reads this
    {
      Handle(claimId, account, key, peer, evidence, createdEpoch, activated, released)
    }

    constructor (registry: LeaseRegistry, claimId: nat, account: string, key: Key, peer: string,
                 evidence: Evidence, createdEpoch: nat)
      ensures this.registry == registry
      ensures View() == Handle(claimId, account, key, peer, evidence, createdEpoch, false, false)
    {
      this.registry, this.claimId, this.account, this.key := registry, claimId, account, key;
      this.peer, this.evidence, this.createdEpoch := peer, evidence, createdEpoch;
      activated, released := false, false;
    }

    method Start(reading: Reading)
      modifies this, registry
      ensures (registry.View(), View()) == Activate(old(registry.View()), old(View()), reading, registry.maxPoisonedKeys)
    {
      if activated || released {
        return;
      }
      var readMs: Option<real> := None;
      if evidence == Origin && createdEpoch == registry.epoch {
        readMs := registry.Tick(reading);
      }
      activated := true;
      var start := if readMs.Some? then StartedAt(readMs.value) else Unprovable;
      registry.Insert(Claim(claimId, account, key, peer, start));
    }

    method End()
      modifies this, registry
      ensures (registry.View(), View()) == Release(old(registry.View()), old(View()))
    {
      if released {
        return;
      }
      released := true;
      registry.Delete(key, claimId);
    }
  }
}
