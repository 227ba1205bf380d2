/** When a snapshot row must be adopted onto a bubble the client already shows. */
module HistoryAdoption {
  import opened Options
  import opened HistoryMerge
  import opened HistoryRender
  import opened HistoryTheorems

  // ---------------------------------------------------------------------------
  // What earlier rows left, read off their places
  // ---------------------------------------------------------------------------

  /** The bubble that the last valid row matched, if it matched one. */
  function LastMatch(places: seq<Place>): Option<nat> {
    if places == [] then None
    else
      var last := places[|places| - 1];
      if last.Skipped? then LastMatch(places[..|places| - 1]) else MatchedAt(last)
  }

  predicate Taken(places: seq<Place>, i: nat) {
    Adopted(i) in places
  }

  ghost predicate Remembers(existing: seq<Message>, rows: seq<Row>, m: Merge) {
    && m.anchor == LastMatch(m.places) && m.seen == IdSet(existing) + RowIds(rows)
    && (forall i: nat :: i in m.claimed <==> Taken(m.places, i))
  }

  lemma LastMatchSnoc(places: seq<Place>, p: Place)
    ensures LastMatch(places + [p]) == if p.Skipped? then LastMatch(places) else MatchedAt(p)
    ensures forall i :: Taken(places + [p], i) <==> Taken(places, i) || p == Adopted(i)
  {
    assert (places + [p])[..|places|] == places;
  }

  /** What a step adds to the places, the ids seen and the claims. */
  lemma StepRemembers(existing: seq<Message>, m: Merge, row: Row)
    requires |m.next| == |existing|
    ensures var m' := Step(existing, m, row);
            && |m'.places| == |m.places| + 1
            && var p := m'.places[|m.places|];
               && m'.places == m.places + [p]
               && m'.anchor == (if p.Skipped? then m.anchor else MatchedAt(p))
               && m'.seen == m.seen + (if Valid(row) then {row.id.value} else {})
               && m'.claimed == m.claimed + (if p.Adopted? then {p.at} else {})
  {
  }

  lemma {:induction false} WalkRemembers(existing: seq<Message>, rows: seq<Row>)
    ensures Remembers(existing, rows, Walk(existing, rows))
  {
    if rows != [] {
      var init, row := rows[..|rows| - 1], rows[|rows| - 1];
      var m, m' := Walk(existing, init), Walk(existing, rows);
      WalkRemembers(existing, init);
      StepRemembers(existing, m, row);
      RowIdsSnoc(init, row);
      LastMatchSnoc(m.places, m'.places[|init|]);
      RemembersNext(existing, rows, m, m', m'.places[|init|]);
    }
  }

  lemma RemembersNext(existing: seq<Message>, rows: seq<Row>, m: Merge, m': Merge, p: Place)
    requires rows != [] && Remembers(existing, rows[..|rows| - 1], m)
    requires m'.anchor == LastMatch(m'.places)
    requires var row := rows[|rows| - 1];
             m'.seen == m.seen + (if Valid(row) then {row.id.value} else {})
    requires m'.claimed == m.claimed + (if p.Adopted? then {p.at} else {})
    requires forall i :: Taken(m'.places, i) <==> Taken(m.places, i) || p == Adopted(i)
    ensures Remembers(existing, rows, m')
  {
    var init, row := rows[..|rows| - 1], rows[|rows| - 1];
    assert rows == init + [row];
    RowIdsSnoc(init, row);
  }

  lemma {:induction false} PlacesPrefix(existing: seq<Message>, rows: seq<Row>, j: nat)
    requires j <= |rows|
    ensures Walk(existing, rows[..j]).places == Walk(existing, rows).places[..j]
  {
    if j == |rows| {
      assert rows[..j] == rows;
    } else {
      var init := rows[..|rows| - 1];
      PlacesPrefix(existing, init, j);
      assert init[..j] == rows[..j];
    }
  }

  lemma PlaceOf(existing: seq<Message>, rows: seq<Row>, j: nat)
    requires j < |rows|
    ensures var m := Walk(existing, rows[..j]);
            Step(existing, m, rows[j]).places == m.places + [Walk(existing, rows).places[j]]
    ensures Walk(existing, rows[..j]).places == Walk(existing, rows).places[..j]
  {
    PlacesPrefix(existing, rows, j);
    PlacesPrefix(existing, rows, j + 1);
    assert rows[..j + 1][..j] == rows[..j];
  }

  // ---------------------------------------------------------------------------
  // The three tiers, row by row
  // ---------------------------------------------------------------------------

  /** A valid row whose id neither the client nor an earlier row has. */
  ghost predicate Unseen(existing: seq<Message>, rows: seq<Row>, j: nat)
    requires j < |rows|
  {
    Valid(rows[j]) && rows[j].id.value !in IdSet(existing) && rows[j].id.value !in RowIds(rows[..j])
  }

  /** A live bubble with the row's role and text that no earlier row took. */
  predicate Exact(existing: seq<Message>, places: seq<Place>, row: Row, i: nat)
    requires i < |existing| && Valid(row)
  {
    Adoptable(existing[i]) && existing[i].role == row.role && existing[i].text == row.text.value && !Taken(places, i)
  }

  /** The first bubble behind the last match that is neither held nor retracted: a live reply that no earlier row took. */
  predicate Reply(existing: seq<Message>, places: seq<Place>, i: nat)
    requires i < |existing|
  {
    && LastMatch(places).Some? && LastMatch(places).value < i
    && (forall k :: LastMatch(places).value < k < i ==> existing[k].pending || existing[k].retracted)
    && !existing[i].pending && !existing[i].retracted
    && existing[i].role.Agent? && Adoptable(existing[i]) && !Taken(places, i)
  }

  ghost predicate NoneExact(existing: seq<Message>, places: seq<Place>, row: Row, n: nat)
    requires n <= |existing| && Valid(row)
  {
    forall k :: 0 <= k < n ==> !Exact(existing, places, row, k)
  }

  lemma ExactTarget(existing: seq<Message>, rows: seq<Row>, m: Merge, row: Row, i: nat)
    requires Remembers(existing, rows, m) && Valid(row) && i < |existing|
    requires Exact(existing, m.places, row, i) && NoneExact(existing, m.places, row, i)
    ensures Target(existing, m.claimed, m.anchor, row) == Some(i)
  {
    assert Matches(existing[i], row.role, row.text.value) && i !in m.claimed;
    forall k | 0 <= k < i && k !in m.claimed ensures !Matches(existing[k], row.role, row.text.value) {
      assert !Exact(existing, m.places, row, k);
    }
  }

  lemma NoExactMatch(existing: seq<Message>, rows: seq<Row>, m: Merge, row: Row)
    requires Remembers(existing, rows, m) && Valid(row) && NoneExact(existing, m.places, row, |existing|)
    ensures Target(existing, m.claimed, m.anchor, row) == FollowingReply(existing, m.claimed, m.anchor, row.role)
  {
    forall k | 0 <= k < |existing| && k !in m.claimed ensures !Matches(existing[k], row.role, row.text.value) {
      assert !Exact(existing, m.places, row, k);
    }
  }

  lemma ReplyTarget(existing: seq<Message>, rows: seq<Row>, m: Merge, i: nat)
    requires Remembers(existing, rows, m) && i < |existing| && Reply(existing, m.places, i)
    ensures FollowingReply(existing, m.claimed, m.anchor, Agent) == Some(i)
  {
    var c := SkipLocalOnly(existing, m.anchor.value + 1);
    assert c <= i;
    assert !LocalOnly(existing[c]);
  }

  lemma ReplyIsReply(existing: seq<Message>, rows: seq<Row>, m: Merge, role: Role)
    requires Remembers(existing, rows, m) && |existing| == |m.next|
    ensures var r := FollowingReply(existing, m.claimed, m.anchor, role);
            r.Some? ==> role.Agent? && Reply(existing, m.places, r.value)
  {
  }

  lemma PlacedBy(existing: seq<Message>, rows: seq<Row>, j: nat)
    requires j < |rows| && Unseen(existing, rows, j)
    ensures var m := Walk(existing, rows[..j]);
            var target := Target(existing, m.claimed, m.anchor, rows[j]);
            && Remembers(existing, rows[..j], m) && m.places == Walk(existing, rows).places[..j]
            && Walk(existing, rows).places[j] == if target.Some? then Adopted(target.value) else Inserted(m.cursor)
  {
    PlaceOf(existing, rows, j);
    WalkRemembers(existing, rows[..j]);
    var m := Walk(existing, rows[..j]);
    LastIs(m.places, Walk(existing, rows).places[j]);
  }

  lemma LastIs<T>(a: seq<T>, x: T)
    ensures (a + [x])[|a|] == x
  {
  }

  /** A row is adopted onto the first live bubble with its role and text. */
  lemma ExactIsAdopted(existing: seq<Message>, rows: seq<Row>, j: nat, i: nat)
    requires j < |rows| && Unseen(existing, rows, j) && i < |existing|
    requires var places := Walk(existing, rows).places[..j];
             Exact(existing, places, rows[j], i) && NoneExact(existing, places, rows[j], i)
    ensures Walk(existing, rows).places[j] == Adopted(i)
  {
    PlacedBy(existing, rows, j);
    ExactTarget(existing, rows[..j], Walk(existing, rows[..j]), rows[j], i);
  }

  /** Failing that, an agent's row is adopted onto the live reply that follows the last match. */
  lemma ReplyIsAdopted(existing: seq<Message>, rows: seq<Row>, j: nat, i: nat)
    requires j < |rows| && Unseen(existing, rows, j) && rows[j].role.Agent? && i < |existing|
    requires var places := Walk(existing, rows).places[..j];
             Reply(existing, places, i) && NoneExact(existing, places, rows[j], |existing|)
    ensures Walk(existing, rows).places[j] == Adopted(i)
  {
    PlacedBy(existing, rows, j);
    var m := Walk(existing, rows[..j]);
    NoExactMatch(existing, rows[..j], m, rows[j]);
    ReplyTarget(existing, rows[..j], m, i);
  }

  /** Failing both, it is shown as a fresh row. */
  lemma OthersAreFresh(existing: seq<Message>, rows: seq<Row>, j: nat)
    requires j < |rows| && Unseen(existing, rows, j)
    requires var places := Walk(existing, rows).places[..j];
             && NoneExact(existing, places, rows[j], |existing|)
             && (rows[j].role.Agent? ==> forall i :: 0 <= i < |existing| ==> !Reply(existing, places, i))
    ensures Walk(existing, rows).places[j].Inserted?
  {
    PlacedBy(existing, rows, j);
    var m := Walk(existing, rows[..j]);
    NoExactMatch(existing, rows[..j], m, rows[j]);
    ReplyIsReply(existing, rows[..j], m, rows[j].role);
  }

  /** A fresh row is shown with its own id, role, text and time, and as nothing else. */
  lemma FreshRowIsShown(existing: seq<Message>, rows: seq<Row>, j: nat) returns (k: nat)
    requires j < |rows| && Walk(existing, rows).places[j].Inserted?
    ensures Valid(rows[j])
    ensures var merged := MergeHistory(existing, rows);
            k < |merged| && merged[k] == Message(rows[j].id.value, rows[j].role, rows[j].text.value, rows[j].ts,
                                                 false, false, false, None, None, None, None)
  {
    WalkExplained(existing, rows);
    var m := Walk(existing, rows);
    assert FreshOk(m, j, rows[j]);
    RenderAt(m.next, m.inserts);
    k := FreshPos(m.inserts, FreshCount(m.places[..j]));
  }

  /** A row is passed over exactly if it has no id, an empty one, no text, or a role that is neither user nor agent. */
  lemma SkippedIff(existing: seq<Message>, rows: seq<Row>, j: nat)
    requires j < |rows|
    ensures Walk(existing, rows).places[j].Skipped? <==>
              rows[j].id.None? || rows[j].id == Some("") || rows[j].text.None? || rows[j].role.OtherRole?
  {
    PlaceOf(existing, rows, j);
    var m := Walk(existing, rows[..j]);
    LastIs(m.places, Walk(existing, rows).places[j]);
    assert !Valid(rows[j]) <==> rows[j].id.None? || rows[j].id == Some("") || rows[j].text.None? || rows[j].role.OtherRole?;
  }

  /** Where the reducer will look for the id: nowhere, or at a bubble that has shown it since. */
  ghost predicate IndexedAs(m: Merge, id: string, at: Option<nat>) {
    id in m.seen && (if at.Some? then id in m.indexById && m.indexById[id] == at.value else id !in m.indexById)
  }

  lemma StaysIndexed(existing: seq<Message>, m: Merge, row: Row, id: string, at: Option<nat>)
    requires |m.next| == |existing| && IndexedAs(m, id, at)
    ensures IndexedAs(Step(existing, m, row), id, at)
  {
  }

  lemma {:induction false} IndexStays(existing: seq<Message>, rows: seq<Row>, j: nat, id: string, at: Option<nat>)
    requires j <= |rows| && IndexedAs(Walk(existing, rows[..j]), id, at)
    ensures IndexedAs(Walk(existing, rows), id, at)
  {
    if j == |rows| {
      assert rows[..j] == rows;
    } else {
      var init := rows[..|rows| - 1];
      assert init[..j] == rows[..j];
      IndexStays(existing, init, j, id, at);
      StaysIndexed(existing, Walk(existing, init), rows[|rows| - 1], id, at);
    }
  }

  ghost predicate OnlySeenIndexed(m: Merge) {
    forall id :: id in m.indexById ==> id in m.seen
  }

  lemma {:induction false} IndexedIsSeen(existing: seq<Message>, rows: seq<Row>)
    ensures OnlySeenIndexed(Walk(existing, rows))
  {
    if rows == [] {
      var at := LastIndexById(existing);
      assert forall id :: id in at ==> existing[at[id]].id in IdSet(existing);
    } else {
      IndexedIsSeen(existing, rows[..|rows| - 1]);
      StepIndexesSeen(existing, Walk(existing, rows[..|rows| - 1]), rows[|rows| - 1]);
    }
  }

  lemma StepIndexesSeen(existing: seq<Message>, m: Merge, row: Row)
    requires |m.next| == |existing| && OnlySeenIndexed(m)
    ensures OnlySeenIndexed(Step(existing, m, row))
  {
  }

  lemma StepIndexes(existing: seq<Message>, m: Merge, row: Row, p: Place)
    requires |m.next| == |existing| && OnlySeenIndexed(m) && Valid(row) && row.id.value !in m.seen
    requires Step(existing, m, row).places == m.places + [p]
    ensures IndexedAs(Step(existing, m, row), row.id.value, MatchedAt(p))
  {
    LastIs(m.places, p);
  }

  lemma RowIsIndexed(existing: seq<Message>, rows: seq<Row>, j: nat)
    requires j < |rows| && Unseen(existing, rows, j)
    ensures IndexedAs(Walk(existing, rows[..j + 1]), rows[j].id.value, MatchedAt(Walk(existing, rows).places[j]))
  {
    var m := Walk(existing, rows[..j]);
    IndexedIsSeen(existing, rows[..j]);
    WalkRemembers(existing, rows[..j]);
    PlaceOf(existing, rows, j);
    assert rows[..j + 1][..j] == rows[..j];
    hide Step;
    StepIndexes(existing, m, rows[j], Walk(existing, rows).places[j]);
  }

  /** A row whose id an earlier row brought adds nothing, and counts as a match of the bubble that row was adopted onto. */
  lemma RepeatedRowIsHeld(existing: seq<Message>, rows: seq<Row>, j: nat, k: nat)
    requires j < k < |rows| && Unseen(existing, rows, j) && Valid(rows[k]) && rows[k].id == rows[j].id
    ensures Walk(existing, rows).places[k] == Held(MatchedAt(Walk(existing, rows).places[j]))
  {
    RowIsIndexed(existing, rows, j);
    assert rows[..k][..j + 1] == rows[..j + 1];
    IndexStays(existing, rows[..k], j + 1, rows[j].id.value, MatchedAt(Walk(existing, rows).places[j]));
    PlaceOf(existing, rows, k);
    LastIs(Walk(existing, rows[..k]).places, Walk(existing, rows).places[k]);
  }

  /** A row whose id a shown bubble already has adds nothing, and counts as a match of the last such bubble. */
  lemma KnownRowIsHeld(existing: seq<Message>, rows: seq<Row>, k: nat, i: nat)
    requires k < |rows| && Valid(rows[k]) && i < |existing| && rows[k].id == Some(existing[i].id)
    requires forall l :: i < l < |existing| ==> existing[l].id != existing[i].id
    ensures Walk(existing, rows).places[k] == Held(Some(i))
  {
    LastIndexIs(existing, i);
    assert rows[..0] == [] && rows[..k][..0] == [];
    IndexStays(existing, rows[..k], 0, existing[i].id, Some(i));
    PlaceOf(existing, rows, k);
    LastIs(Walk(existing, rows[..k]).places, Walk(existing, rows).places[k]);
  }

  lemma {:induction false} LastIndexIs(ms: seq<Message>, i: nat)
    requires i < |ms| && forall l :: i < l < |ms| ==> ms[l].id != ms[i].id
    ensures ms[i].id in LastIndexById(ms) && LastIndexById(ms)[ms[i].id] == i
  {
    if i < |ms| - 1 {
      LastIndexIs(ms[..|ms| - 1], i);
    }
  }

  // ---------------------------------------------------------------------------
  // A snapshot of the conversation the client already shows
  // ---------------------------------------------------------------------------

  predicate Rising(at: seq<nat>) {
    forall j, k :: 0 <= j < k < |at| ==> at[j] < at[k]
  }

  /**
   * Row by row the snapshot is the client's own live bubbles, at the indices `at`, under ids it has not seen: users'
   * texts are equal, and a reply whose text is not follows its predecessor with at most held or retracted chips between.
   */
  ghost predicate SameConversation(existing: seq<Message>, rows: seq<Row>, at: seq<nat>) {
    && |at| == |rows| && Rising(at) && (forall j :: 0 <= j < |at| ==> at[j] < |existing|)
    && (forall i: nat :: i < |existing| && Adoptable(existing[i]) ==> i in at)
    && (forall j :: 0 <= j < |rows| ==> Unseen(existing, rows, j) && OwnBubble(existing, rows[j], at[j]))
    && (forall j :: 0 <= j < |rows| && rows[j].text != Some(existing[at[j]].text) ==> j > 0 && Adjoins(existing, at[j - 1], at[j]))
  }

  predicate OwnBubble(existing: seq<Message>, row: Row, i: nat)
    requires i < |existing| && Valid(row)
  {
    Adoptable(existing[i]) && existing[i].role == row.role && (row.role.User? ==> existing[i].text == row.text.value)
  }

  predicate Adjoins(existing: seq<Message>, a: nat, i: nat)
    requires i < |existing|
  {
    && (forall k :: a < k < i ==> existing[k].pending || existing[k].retracted)
    && !existing[i].pending && !existing[i].retracted
  }

  /** No row repeats the text of a later bubble while differing from its own. */
  predicate NoCrossedTexts(existing: seq<Message>, rows: seq<Row>, at: seq<nat>)
    requires |at| == |rows| && forall j :: 0 <= j < |at| ==> at[j] < |existing|
  {
    forall j, k :: 0 <= j < k < |rows| && rows[j].role == rows[k].role && rows[j].text == Some(existing[at[k]].text) ==>
      rows[j].text == Some(existing[at[j]].text)
  }

  ghost predicate InPlace(places: seq<Place>, at: seq<nat>) {
    |places| == |at| && forall j :: 0 <= j < |at| ==> places[j] == Adopted(at[j])
  }

  lemma TakenInPlace(existing: seq<Message>, rows: seq<Row>, at: seq<nat>, j: nat)
    requires SameConversation(existing, rows, at) && j < |rows| && InPlace(Walk(existing, rows).places[..j], at[..j])
    ensures var places := Walk(existing, rows).places[..j];
            && (forall k :: 0 <= k < |rows| ==> (Taken(places, at[k]) <==> k < j))
            && (j > 0 ==> LastMatch(places) == Some(at[j - 1]))
  {
    var places := Walk(existing, rows).places[..j];
    forall k | 0 <= k < |rows| ensures Taken(places, at[k]) <==> k < j {
      if k < j {
        assert places[k] == Adopted(at[k]);
      } else {
        forall p | 0 <= p < |places| ensures places[p] != Adopted(at[k]) {
          assert places[p] == Adopted(at[p]) && at[p] < at[k];
        }
      }
    }
  }

  /** The next row lands on its own bubble. */
  lemma NextInPlace(existing: seq<Message>, rows: seq<Row>, at: seq<nat>, j: nat)
    requires SameConversation(existing, rows, at) && NoCrossedTexts(existing, rows, at)
    requires j < |rows| && InPlace(Walk(existing, rows).places[..j], at[..j])
    ensures Walk(existing, rows).places[j] == Adopted(at[j])
  {
    var places := Walk(existing, rows).places[..j];
    TakenInPlace(existing, rows, at, j);
    forall i: nat | i < |existing| && Exact(existing, places, rows[j], i) ensures i == at[j] || (i > at[j] && Exact(existing, places, rows[j], at[j])) {
      var k :| 0 <= k < |at| && at[k] == i;
    }
    if Exact(existing, places, rows[j], at[j]) {
      ExactIsAdopted(existing, rows, j, at[j]);
    } else {
      ReplyIsAdopted(existing, rows, j, at[j]);
    }
  }

  lemma {:induction false} AllInPlace(existing: seq<Message>, rows: seq<Row>, at: seq<nat>, n: nat)
    requires SameConversation(existing, rows, at) && NoCrossedTexts(existing, rows, at) && n <= |rows|
    ensures InPlace(Walk(existing, rows).places[..n], at[..n])
  {
    if n > 0 {
      AllInPlace(existing, rows, at, n - 1);
      NextInPlace(existing, rows, at, n - 1);
      var places := Walk(existing, rows).places;
      assert forall j :: 0 <= j < n - 1 ==> places[..n][j] == places[..n - 1][j] && at[..n][j] == at[..n - 1][j];
    }
  }

  /** A row that repeats a later bubble's text, and not its own bubble's, lands elsewhere. */
  lemma CrossedLandsElsewhere(existing: seq<Message>, rows: seq<Row>, at: seq<nat>, j: nat, k: nat)
    requires SameConversation(existing, rows, at) && j < k < |rows| && rows[j].role == rows[k].role
    requires rows[j].text == Some(existing[at[k]].text) && rows[j].text != Some(existing[at[j]].text)
    ensures !InPlace(Walk(existing, rows).places, at)
  {
    var places := Walk(existing, rows).places;
    if InPlace(places, at) {
      InPlacePrefix(places, at, j);
      TakenInPlace(existing, rows, at, j);
      var i := FirstExact(existing, places[..j], rows[j], at[k]);
      ExactIsAdopted(existing, rows, j, i);
      assert false;
    }
  }

  lemma InPlacePrefix(places: seq<Place>, at: seq<nat>, j: nat)
    requires InPlace(places, at) && j <= |at|
    ensures InPlace(places[..j], at[..j])
  {
  }

  lemma {:induction false} FirstExact(existing: seq<Message>, places: seq<Place>, row: Row, n: nat) returns (i: nat)
    requires n < |existing| && Valid(row) && Exact(existing, places, row, n)
    ensures i <= n && Exact(existing, places, row, i) && NoneExact(existing, places, row, i)
  {
    i := 0;
    while !Exact(existing, places, row, i)
      invariant i <= n && NoneExact(existing, places, row, i)
      decreases n - i
    {
      i := i + 1;
    }
  }

  /**
   * A snapshot of the conversation the client shows lands bubble by bubble exactly if no row repeats the text of a
   * later bubble of its role while differing from its own.
   */
  lemma SnapshotLandsInPlace(existing: seq<Message>, rows: seq<Row>, at: seq<nat>)
    requires SameConversation(existing, rows, at)
    ensures InPlace(Walk(existing, rows).places, at) <==> NoCrossedTexts(existing, rows, at)
  {
    var places := Walk(existing, rows).places;
    if NoCrossedTexts(existing, rows, at) {
      AllInPlace(existing, rows, at, |rows|);
      assert places[..|rows|] == places && at[..|rows|] == at;
    } else {
      var j, k :| 0 <= j < k < |rows| && rows[j].role == rows[k].role && rows[j].text == Some(existing[at[k]].text)
               && rows[j].text != Some(existing[at[j]].text);
      CrossedLandsElsewhere(existing, rows, at, j, k);
    }
  }

  lemma {:induction false} NoInserts(places: seq<Place>)
    requires forall j :: 0 <= j < |places| ==> !places[j].Inserted?
    ensures FreshCount(places) == 0
  {
    if places != [] {
      NoInserts(places[..|places| - 1]);
    }
  }

  /** Then no bubble is added: each live bubble takes over its row, and every other bubble stays as it was. */
  lemma SameConversationAddsNothing(existing: seq<Message>, rows: seq<Row>, at: seq<nat>, i: nat)
    requires SameConversation(existing, rows, at) && NoCrossedTexts(existing, rows, at) && i < |existing|
    ensures var merged := MergeHistory(existing, rows);
            && |merged| == |existing|
            && (i !in at ==> merged[i] == existing[i])
            && (forall j :: 0 <= j < |rows| && at[j] == i ==>
                  merged[i] == existing[i].(id := rows[j].id.value, text := rows[j].text.value, ts := rows[j].ts, ordinal := None))
  {
    SnapshotLandsInPlace(existing, rows, at);
    WalkExplained(existing, rows);
    var m := Walk(existing, rows);
    NoInserts(m.places);
    NothingInserted(m.next, |existing|);
    forall j | 0 <= j < |rows| && at[j] == i ensures AdoptionOk(existing, m, i, rows[j]) {
      assert m.places[j] == Adopted(i);
    }
    if i in m.claimed {
      assert Adopted(i) in m.places;
    }
  }

  // ---------------------------------------------------------------------------
  // Reformatted and crossed replies
  // ---------------------------------------------------------------------------

  function Shown(role: Role, id: string, text: string): Message {
    Message(id, role, text, None, false, false, false, None, None, None, None)
  }

  function Stored(role: Role, id: string, text: string): Row {
    Row(Some(id), role, Some(text), None)
  }

  predicate Canonical(id: string) {
    id != "" && !InLiveNamespace(id)
  }

  lemma LiveIds(id: string, text: string)
    ensures "u-" <= id ==> Adoptable(Shown(User, id, text)) && !Canonical(id)
    ensures "a-" <= id || "webchannel-" <= id ==> Adoptable(Shown(Agent, id, text)) && !Canonical(id)
  {
  }

  lemma FreshIds(existing: seq<Message>, rows: seq<Row>)
    requires forall i :: 0 <= i < |existing| ==> !Canonical(existing[i].id)
    requires forall j :: 0 <= j < |rows| ==> Valid(rows[j]) && Canonical(rows[j].id.value)
    requires forall j, k :: 0 <= j < k < |rows| ==> rows[j].id != rows[k].id
    ensures forall j :: 0 <= j < |rows| ==> Unseen(existing, rows, j)
  {
  }

  /** A reply whose stored text differs from the one shown live is adopted, and not shown again. */
  lemma {:induction false} ReformattedReplyIsAdopted(u: string, a: string, said: string, live: string, stored: string, c: string, d: string)
    requires "u-" <= u && ("a-" <= a || "webchannel-" <= a) && Canonical(c) && Canonical(d) && c != d
    ensures MergeHistory([Shown(User, u, said), Shown(Agent, a, live)], [Stored(User, c, said), Stored(Agent, d, stored)])
         == [Shown(User, c, said), Shown(Agent, d, stored)]
  {
    var existing := [Shown(User, u, said), Shown(Agent, a, live)];
    var rows := [Stored(User, c, said), Stored(Agent, d, stored)];
    LiveIds(u, said);
    LiveIds(a, live);
    FreshIds(existing, rows);
    OneExchange(existing, rows);
    SameConversationAddsNothing(existing, rows, [0, 1], 0);
    SameConversationAddsNothing(existing, rows, [0, 1], 1);
  }

  lemma {:induction false} OneExchange(existing: seq<Message>, rows: seq<Row>)
    requires |existing| == 2 && |rows| == 2 && forall j :: 0 <= j < 2 ==> Unseen(existing, rows, j) && Adoptable(existing[j])
    requires existing[0].role == rows[0].role == User && existing[1].role == rows[1].role == Agent
    requires rows[0].text == Some(existing[0].text) && !existing[1].pending && !existing[1].retracted
    ensures SameConversation(existing, rows, [0, 1]) && NoCrossedTexts(existing, rows, [0, 1])
  {
    var at := [0, 1];
    assert at[0] in at && at[1] in at;
  }

  /** Crossed texts do add a bubble: the first reply takes the second one's bubble, and the second is shown again. */
  lemma {:induction false} CrossedReplyIsShownAgain(ids: seq<string>, texts: seq<string>, stored: seq<string>, other: string)
    requires |ids| == |texts| == |stored| == 4
    requires "u-" <= ids[0] && "a-" <= ids[1] && "u-" <= ids[2] && "a-" <= ids[3]
    requires forall j :: 0 <= j < 4 ==> Canonical(stored[j])
    requires forall j, k :: 0 <= j < k < 4 ==> stored[j] != stored[k]
    requires texts[0] != texts[2] && texts[1] != texts[3] && other != texts[1] && other != texts[3]
    ensures |MergeHistory([Shown(User, ids[0], texts[0]), Shown(Agent, ids[1], texts[1]),
                           Shown(User, ids[2], texts[2]), Shown(Agent, ids[3], texts[3])],
                          [Stored(User, stored[0], texts[0]), Stored(Agent, stored[1], texts[3]),
                           Stored(User, stored[2], texts[2]), Stored(Agent, stored[3], other)])| == 5
  {
    var existing := [Shown(User, ids[0], texts[0]), Shown(Agent, ids[1], texts[1]),
                     Shown(User, ids[2], texts[2]), Shown(Agent, ids[3], texts[3])];
    var rows := [Stored(User, stored[0], texts[0]), Stored(Agent, stored[1], texts[3]),
                 Stored(User, stored[2], texts[2]), Stored(Agent, stored[3], other)];
    LiveIds(ids[0], texts[0]);
    LiveIds(ids[1], texts[1]);
    LiveIds(ids[2], texts[2]);
    LiveIds(ids[3], texts[3]);
    FreshIds(existing, rows);
    CrossedPlaces(existing, rows);
    MergedLength(existing, rows);
    OneFresh(Walk(existing, rows).places);
  }

  lemma MergedLength(existing: seq<Message>, rows: seq<Row>)
    ensures |MergeHistory(existing, rows)| == |existing| + FreshCount(Walk(existing, rows).places)
  {
    LocalBubblesSurvive(existing, rows);
  }

  lemma OneFresh(places: seq<Place>)
    requires |places| == 4 && places[..3] == [Adopted(0), Adopted(3), Adopted(2)] && places[3].Inserted?
    ensures FreshCount(places) == 1
  {
    NoInserts(places[..3]);
  }

  lemma {:induction false} CrossedPlaces(existing: seq<Message>, rows: seq<Row>)
    requires |existing| == 4 && |rows| == 4 && forall j :: 0 <= j < 4 ==> Unseen(existing, rows, j) && Adoptable(existing[j])
    requires existing[0].role == existing[2].role == rows[0].role == rows[2].role == User
    requires existing[1].role == existing[3].role == rows[1].role == rows[3].role == Agent
    requires rows[0].text == Some(existing[0].text) && rows[1].text == Some(existing[3].text)
    requires rows[2].text == Some(existing[2].text) && existing[0].text != existing[2].text
    requires existing[1].text != existing[3].text
    requires rows[3].text != Some(existing[1].text) && rows[3].text != Some(existing[3].text)
    requires forall j :: 0 <= j < 4 ==> !existing[j].pending && !existing[j].retracted
    ensures var places := Walk(existing, rows).places;
            |places| == 4 && places[..3] == [Adopted(0), Adopted(3), Adopted(2)] && places[3].Inserted?
  {
    var places := Walk(existing, rows).places;
    ExactIsAdopted(existing, rows, 0, 0);
    assert places[..1] == [Adopted(0)];
    ExactIsAdopted(existing, rows, 1, 3);
    assert places[..2] == [Adopted(0), Adopted(3)];
    ExactIsAdopted(existing, rows, 2, 2);
    var seen := places[..3];
    assert seen == [Adopted(0), Adopted(3), Adopted(2)];
    assert LastMatch(seen) == Some(2) && Taken(seen, 3) by {
      assert seen[2] == Adopted(2) && seen[1] == Adopted(3);
    }
    OthersAreFresh(existing, rows, 3);
  }
}
