/**
 * Merging a history snapshot into the local transcript: three tiers of matching,
 * and fresh rows inserted at a moving cursor by one deferred rebuild.
 */
module HistoryMerge {
  import opened Options

  datatype Role = User | Agent | OtherRole(name: string)

  datatype Message = Message(
    id: string,
    role: Role,
    text: string,
    ts: Option<real>,
    working: bool,
    pending: bool,
    retracted: bool,
    ordinal: Option<nat>,
    wireId: Option<string>,
    turnId: Option<string>,
    receiptKey: Option<string>)

  /** A snapshot row as it came off the wire; missing or mistyped fields are None. */
  datatype Row = Row(id: Option<string>, role: Role, text: Option<string>, ts: Option<real>)

  predicate Valid(row: Row) {
    row.id.Some? && row.id.value != "" && (row.role.User? || row.role.Agent?) && row.text.Some?
  }

  predicate InLiveNamespace(id: string) {
    "u-" <= id || "a-" <= id || "webchannel-" <= id
  }

  predicate IsLocalLive(m: Message) {
    if m.role.User? then "u-" <= m.id && !m.pending && !m.retracted
    else !m.working && ("a-" <= m.id || "webchannel-" <= m.id)
  }

  /** A bubble a snapshot row may take over. */
  predicate Adoptable(m: Message) {
    (m.role.User? || m.role.Agent?) && IsLocalLive(m)
  }

  predicate LocalOnly(m: Message) {
    m.pending || m.retracted
  }

  function Adopt(m: Message, row: Row): Message
    requires Valid(row)
  {
    m.(id := row.id.value, text := row.text.value, ts := row.ts, ordinal := None)
  }

  function Fresh(row: Row): Message
    requires Valid(row)
  {
    Message(row.id.value, row.role, row.text.value, row.ts, false, false, false, None, None, None, None)
  }

  // ---------------------------------------------------------------------------
  // Where each row goes
  // ---------------------------------------------------------------------------

  datatype Place =
    | Skipped
    | Held(index: Option<nat>)
    | Adopted(at: nat)
    | Inserted(cursor: nat)

  datatype Insert = Insert(cursor: nat, message: Message)

  /** The reducer's variables after some rows; `places` records what each row did. */
  datatype Merge = Merge(
    next: seq<Message>,
    inserts: seq<Insert>,
    seen: set<string>,
    indexById: map<string, nat>,
    claimed: set<nat>,
    anchor: Option<nat>,
    cursor: nat,
    places: seq<Place>)

  function IdSet(ms: seq<Message>): set<string> {
    set i | 0 <= i < |ms| :: ms[i].id
  }

  function LastIndexById(ms: seq<Message>): (at: map<string, nat>)
    ensures forall id :: id in at ==> at[id] < |ms| && ms[at[id]].id == id
    ensures forall i :: 0 <= i < |ms| ==> ms[i].id in at
  {
    if ms == [] then map[] else LastIndexById(ms[..|ms| - 1])[ms[|ms| - 1].id := |ms| - 1]
  }

  function Start(existing: seq<Message>): Merge {
    Merge(existing, [], IdSet(existing), LastIndexById(existing), {}, None, 0, [])
  }

  predicate Matches(m: Message, role: Role, text: string) {
    Adoptable(m) && m.role == role && m.text == text
  }

  /** Tier 2: the first unclaimed adoptable bubble with the row's role and text. */
  function FirstMatch(existing: seq<Message>, claimed: set<nat>, role: Role, text: string, from: nat): (r: Option<nat>)
    requires from <= |existing|
    ensures r.Some? ==> from <= r.value < |existing|
    ensures r.Some? ==> r.value !in claimed && Matches(existing[r.value], role, text)
    ensures r.Some? ==> forall i :: from <= i < r.value && i !in claimed ==> !Matches(existing[i], role, text)
    ensures r.None? ==> forall i :: from <= i < |existing| && i !in claimed ==> !Matches(existing[i], role, text)
    decreases |existing| - from
  {
    if from == |existing| then None
    else if from !in claimed && Matches(existing[from], role, text) then Some(from)
    else FirstMatch(existing, claimed, role, text, from + 1)
  }

  /** The first index at or after `from` that is not a held or retracted chip. */
  function SkipLocalOnly(existing: seq<Message>, from: nat): (i: nat)
    ensures from <= i
    ensures i < |existing| ==> !LocalOnly(existing[i])
    ensures forall k :: from <= k < i && k < |existing| ==> LocalOnly(existing[k])
    decreases |existing| - from
  {
    if from < |existing| && LocalOnly(existing[from]) then SkipLocalOnly(existing, from + 1) else from
  }

  /** Tier 3: the live agent bubble that follows the previous row's match. */
  function FollowingReply(existing: seq<Message>, claimed: set<nat>, anchor: Option<nat>, role: Role): (r: Option<nat>)
    ensures r.Some? ==> anchor.Some? && anchor.value < r.value < |existing|
    ensures r.Some? ==> r.value !in claimed && Adoptable(existing[r.value]) && existing[r.value].role == role
    ensures r.Some? ==> !LocalOnly(existing[r.value])
  {
    if !role.Agent? || anchor.None? then None
    else
      var i := SkipLocalOnly(existing, anchor.value + 1);
      if i < |existing| && i !in claimed && existing[i].role.Agent? && IsLocalLive(existing[i]) then Some(i) else None
  }

  /** Tier 2, then tier 3. */
  function Target(existing: seq<Message>, claimed: set<nat>, anchor: Option<nat>, row: Row): (r: Option<nat>)
    requires Valid(row)
    ensures r.Some? ==> r.value < |existing| && r.value !in claimed
    ensures r.Some? ==> Adoptable(existing[r.value]) && existing[r.value].role == row.role
  {
    var exact := FirstMatch(existing, claimed, row.role, row.text.value, 0);
    if exact.Some? then exact else FollowingReply(existing, claimed, anchor, row.role)
  }

  function AdoptAt(m: Merge, i: nat, row: Row): Merge
    requires Valid(row) && i < |m.next|
  {
    var id := row.id.value;
    Merge(m.next[i := Adopt(m.next[i], row)], m.inserts, m.seen + {id}, m.indexById[id := i],
          m.claimed + {i}, Some(i), i + 1, m.places + [Adopted(i)])
  }

  function Step(existing: seq<Message>, m: Merge, row: Row): (m': Merge)
    requires |m.next| == |existing|
    ensures |m'.next| == |existing|
  {
    if !Valid(row) then m.(places := m.places + [Skipped])
    else
      var id := row.id.value;
      if id in m.seen then
        var at := if id in m.indexById then Some(m.indexById[id]) else None;
        m.(anchor := at, cursor := if at.Some? then at.value + 1 else m.cursor, places := m.places + [Held(at)])
      else
        var target := Target(existing, m.claimed, m.anchor, row);
        if target.Some? then AdoptAt(m, target.value, row)
        else
          m.(inserts := m.inserts + [Insert(m.cursor, Fresh(row))], seen := m.seen + {id}, anchor := None,
             places := m.places + [Inserted(m.cursor)])
  }

  function Walk(existing: seq<Message>, rows: seq<Row>): (m: Merge)
    ensures |m.next| == |existing| && |m.places| == |rows|
  {
    if rows == [] then Start(existing)
    else Step(existing, Walk(existing, rows[..|rows| - 1]), rows[|rows| - 1])
  }

  // ---------------------------------------------------------------------------
  // The rebuild
  // ---------------------------------------------------------------------------

  /** The messages inserted at cursor `c`, in snapshot order. */
  function Group(inserts: seq<Insert>, c: nat): seq<Message> {
    if inserts == [] then []
    else
      var last := inserts[|inserts| - 1];
      Group(inserts[..|inserts| - 1], c) + if last.cursor == c then [last.message] else []
  }

  /** Slots 0 to n - 1: each local message behind the group inserted at its index. */
  function Slots(next: seq<Message>, inserts: seq<Insert>, n: nat): seq<Message>
    requires n <= |next|
  {
    if n == 0 then [] else Slots(next, inserts, n - 1) + Group(inserts, n - 1) + [next[n - 1]]
  }

  function Render(next: seq<Message>, inserts: seq<Insert>): seq<Message> {
    Slots(next, inserts, |next|) + Group(inserts, |next|)
  }

  /** The transcript after the snapshot. */
  function MergeHistory(existing: seq<Message>, rows: seq<Row>): seq<Message> {
    var m := Walk(existing, rows);
    Render(m.next, m.inserts)
  }

  /** Nothing inserted shows the local list. */
  lemma {:induction false} NothingInserted(next: seq<Message>, n: nat)
    requires n <= |next|
    ensures Slots(next, [], n) == next[..n]
    ensures n == |next| ==> Render(next, []) == next
  {
    if n > 0 {
      NothingInserted(next, n - 1);
      assert next[..n] == next[..n - 1] + [next[n - 1]];
    }
  }
}
