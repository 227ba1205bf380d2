/** The reducer itself: cached index maps, claim set and per-cursor groups, proved against MergeHistory. */
module HistoryReducer {
  import opened Options
  import opened HistoryMerge

  type TextKey = (Role, string)

  // ---------------------------------------------------------------------------
  // The tier-2 queues
  // ---------------------------------------------------------------------------

  predicate Increasing(queue: seq<nat>) {
    forall j, k :: 0 <= j < k < |queue| ==> queue[j] < queue[k]
  }

  /** The queue holds, in order, every unclaimed index that matches its key. */
  ghost predicate QueueFor(existing: seq<Message>, claimed: set<nat>, queue: seq<nat>, key: TextKey) {
    && Increasing(queue)
    && (forall i :: i in queue ==> i < |existing| && Matches(existing[i], key.0, key.1))
    && (forall i: nat :: i < |existing| && i !in claimed && Matches(existing[i], key.0, key.1) ==> i in queue)
  }

  function QueueOf(adoptable: map<TextKey, seq<nat>>, key: TextKey): seq<nat> {
    if key in adoptable then adoptable[key] else []
  }

  ghost predicate Queues(existing: seq<Message>, claimed: set<nat>, adoptable: map<TextKey, seq<nat>>) {
    forall key :: QueueFor(existing, claimed, QueueOf(adoptable, key), key)
  }

  lemma HeadIsFirstMatch(existing: seq<Message>, claimed: set<nat>, queue: seq<nat>, role: Role, text: string)
    requires QueueFor(existing, claimed, queue, (role, text))
    requires queue != [] ==> queue[0] !in claimed
    ensures FirstMatch(existing, claimed, role, text, 0) == if queue == [] then None else Some(queue[0])
  {
    var r := FirstMatch(existing, claimed, role, text, 0);
    if r.Some? {
      assert r.value in queue;
    }
    if queue != [] {
      assert queue[0] in queue;
    }
  }

  lemma QueueClaims(existing: seq<Message>, claimed: set<nat>, more: set<nat>, adoptable: map<TextKey, seq<nat>>)
    requires Queues(existing, claimed, adoptable) && claimed <= more
    ensures Queues(existing, more, adoptable)
  {
    forall key ensures QueueFor(existing, more, QueueOf(adoptable, key), key) {
      assert QueueFor(existing, claimed, QueueOf(adoptable, key), key);
    }
  }

  lemma QueueGrows(existing: seq<Message>, i: nat, queue: seq<nat>, key: TextKey)
    requires i < |existing| && QueueFor(existing[..i], {}, queue, key)
    ensures QueueFor(existing[..i + 1], {}, if Matches(existing[i], key.0, key.1) then queue + [i] else queue, key)
  {
    assert forall k :: k in queue ==> k < i && existing[..i][k] == existing[..i + 1][k];
    assert forall j :: 0 <= j < |queue| ==> queue[j] in queue;
    forall k: nat | k < i + 1 && Matches(existing[..i + 1][k], key.0, key.1)
      ensures k == i || k in queue
    {
      if k < i {
        assert existing[..i][k] == existing[..i + 1][k];
      }
    }
  }

  method IndexAdoptable(existing: seq<Message>) returns (adoptable: map<TextKey, seq<nat>>)
    ensures Queues(existing, {}, adoptable)
  {
    adoptable := map[];
    for i := 0 to |existing|
      invariant Queues(existing[..i], {}, adoptable)
    {
      var m := existing[i];
      ghost var was := adoptable;
      if Adoptable(m) {
        var key := (m.role, m.text);
        adoptable := adoptable[key := QueueOf(adoptable, key) + [i]];
      }
      forall key ensures QueueFor(existing[..i + 1], {}, QueueOf(adoptable, key), key) {
        assert QueueFor(existing[..i], {}, QueueOf(was, key), key);
        QueueGrows(existing, i, QueueOf(was, key), key);
      }
    }
    assert existing[..|existing|] == existing;
  }

  lemma QueueTail(existing: seq<Message>, claimed: set<nat>, queue: seq<nat>, key: TextKey)
    requires QueueFor(existing, claimed, queue, key) && queue != []
    ensures QueueFor(existing, claimed + {queue[0]}, queue[1..], key)
  {
    assert forall i :: i in queue <==> i == queue[0] || i in queue[1..];
  }

  /** Drops claimed heads; the head left is the tier-2 match and is taken. */
  method TakeExact(existing: seq<Message>, claimed: set<nat>, adoptable: map<TextKey, seq<nat>>, role: Role, text: string)
    returns (adoptable': map<TextKey, seq<nat>>, exact: Option<nat>)
    requires Queues(existing, claimed, adoptable)
    ensures exact == FirstMatch(existing, claimed, role, text, 0)
    ensures Queues(existing, if exact.Some? then claimed + {exact.value} else claimed, adoptable')
  {
    var key := (role, text);
    var queue := QueueOf(adoptable, key);
    while |queue| > 0 && queue[0] in claimed
      invariant QueueFor(existing, claimed, queue, key)
    {
      QueueTail(existing, claimed, queue, key);
      assert claimed + {queue[0]} == claimed;
      queue := queue[1..];
    }
    HeadIsFirstMatch(existing, claimed, queue, role, text);
    ghost var claimed' := claimed;
    exact := None;
    if |queue| > 0 {
      QueueTail(existing, claimed, queue, key);
      exact := Some(queue[0]);
      claimed' := claimed + {queue[0]};
      queue := queue[1..];
    }
    QueueClaims(existing, claimed, claimed', adoptable);
    adoptable' := adoptable[key := queue];
    forall k ensures QueueFor(existing, claimed', QueueOf(adoptable', k), k) {
      assert QueueFor(existing, claimed', QueueOf(adoptable, k), k);
    }
  }

  // ---------------------------------------------------------------------------
  // The deferred groups
  // ---------------------------------------------------------------------------

  function GroupOf(groups: map<nat, seq<Message>>, c: nat): seq<Message> {
    if c in groups then groups[c] else []
  }

  ghost predicate Grouped(inserts: seq<Insert>, groups: map<nat, seq<Message>>) {
    forall c: nat :: Group(inserts, c) == GroupOf(groups, c)
  }

  lemma GroupedGrows(inserts: seq<Insert>, groups: map<nat, seq<Message>>, c: nat, m: Message)
    requires Grouped(inserts, groups)
    ensures Grouped(inserts + [Insert(c, m)], groups[c := GroupOf(groups, c) + [m]])
  {
    var inserts' := inserts + [Insert(c, m)];
    var groups' := groups[c := GroupOf(groups, c) + [m]];
    forall d: nat ensures Group(inserts', d) == GroupOf(groups', d) {
      assert inserts'[..|inserts|] == inserts;
      assert Group(inserts, d) == GroupOf(groups, d);
      assert Group(inserts', d) == Group(inserts, d) + if c == d then [m] else [];
    }
  }

  method Rebuild(next: seq<Message>, groups: map<nat, seq<Message>>, ghost inserts: seq<Insert>)
    returns (merged: seq<Message>)
    requires Grouped(inserts, groups)
    ensures merged == Render(next, inserts)
  {
    merged := [];
    var i := 0;
    while i <= |next|
      invariant i <= |next| + 1
      invariant merged == if i <= |next| then Slots(next, inserts, i) else Render(next, inserts)
    {
      assert Group(inserts, i) == GroupOf(groups, i);
      if i in groups {
        merged := merged + groups[i];
      }
      if i < |next| {
        merged := merged + [next[i]];
      }
      i := i + 1;
    }
  }

  // ---------------------------------------------------------------------------
  // The reducer's variables
  // ---------------------------------------------------------------------------

  /** Claimed bubbles keep their chips; every other bubble is untouched. */
  ghost predicate SameElsewhere(existing: seq<Message>, next: seq<Message>, claimed: set<nat>) {
    && |next| == |existing|
    && (forall i :: 0 <= i < |next| ==> LocalOnly(next[i]) == LocalOnly(existing[i]))
    && (forall i :: 0 <= i < |next| && i !in claimed ==> next[i] == existing[i])
  }

  class Reducer {
    const existing: seq<Message>
    var next: seq<Message>
    var seen: set<string>
    var localIndexById: map<string, nat>
    var claimed: set<nat>
    var adoptable: map<TextKey, seq<nat>>
    var inserts: map<nat, seq<Message>>
    var adopted: bool
    var anchor: Option<nat>
    var cursor: nat

    /** The variables are at `m`, with the caches and groups in step. */
    ghost predicate At(m: Merge)
      reads this
    {
      && next == m.next && seen == m.seen && localIndexById == m.indexById
      && claimed == m.claimed && anchor == m.anchor && cursor == m.cursor
      && SameElsewhere(existing, next, claimed)
      && Queues(existing, claimed, adoptable)
      && Grouped(m.inserts, inserts)
      && (!adopted ==> next == existing)
      && (|inserts| == 0 ==> m.inserts == [])
    }

    constructor (existing: seq<Message>)
      ensures this.existing == existing && At(Start(existing))
    {
      this.existing := existing;
      next, claimed, adopted, inserts, anchor, cursor := existing, {}, false, map[], None, 0;
      seen := IdSet(existing);
      adoptable, localIndexById := map[], map[];
      new;
      adoptable := IndexAdoptable(existing);
      for i := 0 to |existing|
        invariant localIndexById == LastIndexById(existing[..i])
        invariant next == existing && claimed == {} && !adopted && inserts == map[] && anchor == None && cursor == 0
        invariant seen == IdSet(existing) && Queues(existing, {}, adoptable)
      {
        localIndexById := localIndexById[existing[i].id := i];
        assert existing[..i + 1][..i] == existing[..i];
      }
      assert existing[..|existing|] == existing;
    }

    method AdoptRow(i: nat, row: Row)
      requires Valid(row) && i < |next|
      modifies `next, `claimed, `localIndexById, `adopted, `anchor, `cursor
      ensures adopted && next == old(next)[i := Adopt(old(next[i]), row)] && claimed == old(claimed) + {i}
      ensures localIndexById == old(localIndexById)[row.id.value := i] && anchor == Some(i) && cursor == i + 1
    {
      var id := row.id.value;
      next := next[i := next[i].(id := id, text := row.text.value, ts := row.ts, ordinal := None)];
      claimed := claimed + {i};
      localIndexById := localIndexById[id := i];
      adopted := true;
      anchor := Some(i);
      cursor := i + 1;
    }

    /** Walks past held and retracted chips after the anchor. */
    method ProbeReply(role: Role) returns (reply: Option<nat>)
      requires SameElsewhere(existing, next, claimed)
      ensures reply == FollowingReply(existing, claimed, anchor, role)
    {
      if !role.Agent? || anchor.None? {
        return None;
      }
      var cand := anchor.value + 1;
      while cand < |next| && (next[cand].pending || next[cand].retracted)
        invariant SkipLocalOnly(existing, cand) == SkipLocalOnly(existing, anchor.value + 1)
      {
        cand := cand + 1;
      }
      if cand < |next| && cand !in claimed && next[cand].role.Agent? && IsLocalLive(next[cand]) {
        return Some(cand);
      }
      return None;
    }

    method FindTarget(row: Row) returns (target: Option<nat>)
      requires Valid(row) && Queues(existing, claimed, adoptable) && SameElsewhere(existing, next, claimed)
      modifies `adoptable
      ensures target == Target(existing, claimed, anchor, row)
      ensures Queues(existing, if target.Some? then claimed + {target.value} else claimed, adoptable)
    {
      adoptable, target := TakeExact(existing, claimed, adoptable, row.role, row.text.value);
      if target.None? {
        target := ProbeReply(row.role);
        QueueClaims(existing, claimed, if target.Some? then claimed + {target.value} else claimed, adoptable);
      }
    }

    method PlaceRow(row: Row, ghost m: Merge)
      requires At(m)
      modifies this
      ensures At(Step(existing, m, row))
    {
      if !Valid(row) {
        return;
      }
      var id := row.id.value;
      if id in seen {
        anchor := if id in localIndexById then Some(localIndexById[id]) else None;
        if anchor.Some? {
          cursor := anchor.value + 1;
        }
        return;
      }
      PlaceUnseen(row, m);
    }

    method PlaceUnseen(row: Row, ghost m: Merge)
      requires At(m) && Valid(row) && row.id.value !in seen
      modifies this
      ensures At(Step(existing, m, row))
    {
      seen := seen + {row.id.value};
      var target := FindTarget(row);
      if target.Some? {
        AdoptRow(target.value, row);
      } else {
        GroupedGrows(m.inserts, inserts, cursor, Fresh(row));
        inserts := inserts[cursor := GroupOf(inserts, cursor) + [Fresh(row)]];
        assert cursor in inserts.Keys;
        anchor := None;
      }
    }
  }

  method ApplyHistory(existing: seq<Message>, incoming: seq<Row>) returns (messages: seq<Message>)
    ensures messages == MergeHistory(existing, incoming)
  {
    var reducer := new Reducer(existing);
    for k := 0 to |incoming|
      invariant reducer.existing == existing && fresh(reducer)
      invariant reducer.At(Walk(existing, incoming[..k]))
    {
      assert incoming[..k + 1][..k] == incoming[..k];
      reducer.PlaceRow(incoming[k], Walk(existing, incoming[..k]));
    }
    assert incoming[..|incoming|] == incoming;
    ghost var m := Walk(existing, incoming);
    if |reducer.inserts| == 0 && !reducer.adopted {
      NothingInserted(existing, |existing|);
      return existing;
    }
    messages := Rebuild(reducer.next, reducer.inserts, m.inserts);
  }
}
