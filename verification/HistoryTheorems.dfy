/** What a snapshot merge keeps, for every transcript and every snapshot. */
module HistoryTheorems {
  import opened Options
  import opened HistoryMerge
  import opened HistoryRender

  // ---------------------------------------------------------------------------
  // Each row's place
  // ---------------------------------------------------------------------------

  /** How many of the places are fresh rows. */
  function FreshCount(places: seq<Place>): nat {
    if places == [] then 0
    else FreshCount(places[..|places| - 1]) + if places[|places| - 1].Inserted? then 1 else 0
  }

  ghost predicate AdoptionOk(existing: seq<Message>, m: Merge, i: nat, row: Row) {
    && i < |existing| && i in m.claimed && |m.next| == |existing|
    && Valid(row) && Adoptable(existing[i]) && existing[i].role == row.role
    && m.next[i] == Adopt(existing[i], row)
  }

  ghost predicate FreshOk(m: Merge, j: nat, row: Row)
    requires j < |m.places| && m.places[j].Inserted?
  {
    && Valid(row)
    && FreshCount(m.places[..j]) < |m.inserts|
    && m.inserts[FreshCount(m.places[..j])] == Insert(m.places[j].cursor, Fresh(row))
  }

  ghost predicate ClaimsPlaced(claimed: set<nat>, n: nat, places: seq<Place>) {
    forall i :: i in claimed ==> i < n && Adopted(i) in places
  }

  ghost predicate AdoptedOnce(places: seq<Place>) {
    forall j, k :: 0 <= j < k < |places| && places[j].Adopted? ==> places[j] != places[k]
  }

  ghost predicate AdoptionsOk(existing: seq<Message>, rows: seq<Row>, m: Merge)
    requires |m.places| == |rows|
  {
    forall j :: 0 <= j < |rows| && m.places[j].Adopted? ==> AdoptionOk(existing, m, m.places[j].at, rows[j])
  }

  ghost predicate InsertsOk(rows: seq<Row>, m: Merge)
    requires |m.places| == |rows|
  {
    forall j :: 0 <= j < |rows| && m.places[j].Inserted? ==> FreshOk(m, j, rows[j])
  }

  ghost predicate WithinLocal(existing: seq<Message>, m: Merge) {
    && m.cursor <= |existing|
    && (forall j :: 0 <= j < |m.inserts| ==> m.inserts[j].cursor <= |existing|)
    && (forall id :: id in m.indexById ==> m.indexById[id] < |existing|)
  }

  /** The recorded places explain the merged state. */
  ghost predicate Explained(existing: seq<Message>, rows: seq<Row>, m: Merge) {
    && |m.next| == |existing| && |m.places| == |rows|
    && |m.inserts| == FreshCount(m.places)
    && WithinLocal(existing, m)
    && (forall i: nat :: i < |existing| && i !in m.claimed ==> m.next[i] == existing[i])
    && ClaimsPlaced(m.claimed, |existing|, m.places)
    && AdoptionsOk(existing, rows, m)
    && AdoptedOnce(m.places)
    && InsertsOk(rows, m)
  }

  lemma PlacesGrow(claimed: set<nat>, n: nat, places: seq<Place>, p: Place)
    requires ClaimsPlaced(claimed, n, places) && AdoptedOnce(places)
    requires p.Adopted? ==> p.at < n && p !in places
    ensures ClaimsPlaced(if p.Adopted? then claimed + {p.at} else claimed, n, places + [p])
    ensures AdoptedOnce(places + [p])
    ensures FreshCount(places + [p]) == FreshCount(places) + if p.Inserted? then 1 else 0
  {
    assert (places + [p])[..|places|] == places;
    assert p in places + [p];
  }

  lemma UnclaimedIsUnplaced(existing: seq<Message>, rows: seq<Row>, m: Merge, i: nat)
    requires |m.places| == |rows| && AdoptionsOk(existing, rows, m) && i !in m.claimed
    ensures Adopted(i) !in m.places
  {
    assert forall j :: 0 <= j < |rows| && m.places[j].Adopted? ==> AdoptionOk(existing, m, m.places[j].at, rows[j]);
  }

  lemma AdoptionsGrow(existing: seq<Message>, rows: seq<Row>, m: Merge, row: Row, m': Merge, p: Place)
    requires |m.places| == |rows| && AdoptionsOk(existing, rows, m) && m'.places == m.places + [p]
    requires |m'.next| == |m.next| == |existing| && m.claimed <= m'.claimed
    requires forall i: nat :: i < |existing| && i in m.claimed ==> m'.next[i] == m.next[i]
    requires p.Adopted? ==> AdoptionOk(existing, m', p.at, row)
    ensures AdoptionsOk(existing, rows + [row], m')
  {
    forall j | 0 <= j < |rows + [row]| && m'.places[j].Adopted?
      ensures AdoptionOk(existing, m', m'.places[j].at, (rows + [row])[j])
    {
      if j < |rows| {
        assert AdoptionOk(existing, m, m.places[j].at, rows[j]);
      }
    }
  }

  lemma InsertsGrow(rows: seq<Row>, m: Merge, row: Row, m': Merge, p: Place)
    requires |m.places| == |rows| && InsertsOk(rows, m) && m'.places == m.places + [p]
    requires m.inserts <= m'.inserts
    requires p.Inserted? ==> FreshOk(m', |rows|, row)
    ensures InsertsOk(rows + [row], m')
  {
    forall j | 0 <= j < |rows + [row]| && m'.places[j].Inserted?
      ensures FreshOk(m', j, (rows + [row])[j])
    {
      if j < |rows| {
        assert FreshOk(m, j, rows[j]);
        assert m'.places[..j] == m.places[..j];
      }
    }
  }

  lemma AdoptKeepsExplained(existing: seq<Message>, rows: seq<Row>, m: Merge, i: nat, row: Row)
    requires Explained(existing, rows, m)
    requires Valid(row) && i < |existing| && i !in m.claimed && Adoptable(existing[i]) && existing[i].role == row.role
    ensures Explained(existing, rows + [row], AdoptAt(m, i, row))
  {
    var m' := AdoptAt(m, i, row);
    UnclaimedIsUnplaced(existing, rows, m, i);
    PlacesGrow(m.claimed, |existing|, m.places, Adopted(i));
    AdoptionsGrow(existing, rows, m, row, m', Adopted(i));
    InsertsGrow(rows, m, row, m', Adopted(i));
  }

  lemma InsertKeepsExplained(existing: seq<Message>, rows: seq<Row>, m: Merge, row: Row)
    requires Explained(existing, rows, m)
    requires Valid(row) && row.id.value !in m.seen && Target(existing, m.claimed, m.anchor, row).None?
    ensures Explained(existing, rows + [row], Step(existing, m, row))
  {
    var m', p := Step(existing, m, row), Inserted(m.cursor);
    PlacesGrow(m.claimed, |existing|, m.places, p);
    AdoptionsGrow(existing, rows, m, row, m', p);
    assert m'.places[..|rows|] == m.places;
    InsertsGrow(rows, m, row, m', p);
  }

  lemma OtherKeepsExplained(existing: seq<Message>, rows: seq<Row>, m: Merge, row: Row)
    requires Explained(existing, rows, m)
    requires !Valid(row) || row.id.value in m.seen
    ensures Explained(existing, rows + [row], Step(existing, m, row))
  {
    var m' := Step(existing, m, row);
    var p := m'.places[|rows|];
    PlacesGrow(m.claimed, |existing|, m.places, p);
    AdoptionsGrow(existing, rows, m, row, m', p);
    InsertsGrow(rows, m, row, m', p);
  }

  lemma StepKeepsExplained(existing: seq<Message>, rows: seq<Row>, m: Merge, row: Row)
    requires Explained(existing, rows, m)
    ensures Explained(existing, rows + [row], Step(existing, m, row))
  {
    if !Valid(row) || row.id.value in m.seen {
      OtherKeepsExplained(existing, rows, m, row);
    } else {
      var target := Target(existing, m.claimed, m.anchor, row);
      if target.Some? {
        AdoptKeepsExplained(existing, rows, m, target.value, row);
      } else {
        InsertKeepsExplained(existing, rows, m, row);
      }
    }
  }

  lemma {:induction false} WalkExplained(existing: seq<Message>, rows: seq<Row>)
    ensures Explained(existing, rows, Walk(existing, rows))
  {
    if rows != [] {
      var init, row := rows[..|rows| - 1], rows[|rows| - 1];
      WalkExplained(existing, init);
      var m := Walk(existing, init);
      assert rows == init + [row];
      StepKeepsExplained(existing, init, m, row);
    }
  }

  // ---------------------------------------------------------------------------
  // No local bubble is lost, reordered or taken twice
  // ---------------------------------------------------------------------------

  /** The merged list still shows every local bubble, in the local order, each taken over at most once. */
  lemma LocalBubblesSurvive(existing: seq<Message>, rows: seq<Row>)
    ensures var m := Walk(existing, rows);
            var merged := MergeHistory(existing, rows);
            && |merged| == |existing| + FreshCount(m.places)
            && multiset(merged) == multiset(m.next + Messages(m.inserts))
            && (forall i: nat :: i < |existing| ==> ShownAt(merged, SlotPos(m.inserts, i), m.next[i]))
            && (forall i: nat, k: nat :: i < k ==> SlotPos(m.inserts, i) < SlotPos(m.inserts, k))
            && (forall i: nat :: i < |existing| && Adopted(i) !in m.places
                  ==> m.next[i] == existing[i])
            && AdoptedOnce(m.places)
            && AdoptionsOk(existing, rows, m)
  {
    WalkExplained(existing, rows);
    var m := Walk(existing, rows);
    RenderAt(m.next, m.inserts);
    RenderConserves(m.next, m.inserts);
    forall i: nat, k: nat | i < k ensures SlotPos(m.inserts, i) < SlotPos(m.inserts, k) {
      SlotsKeepOrder(m.inserts, i, k);
    }
  }

  /** Held, retracted and working bubbles, and every bubble with a canonical id, come out as they were. */
  lemma ProtectedBubblesUnchanged(existing: seq<Message>, rows: seq<Row>, i: nat)
    requires i < |existing|
    requires || (existing[i].role.User? && (existing[i].pending || existing[i].retracted))
             || (existing[i].role.Agent? && existing[i].working)
             || !InLiveNamespace(existing[i].id)
    ensures var m := Walk(existing, rows);
            ShownAt(MergeHistory(existing, rows), SlotPos(m.inserts, i), existing[i])
  {
    LocalBubblesSurvive(existing, rows);
    var m := Walk(existing, rows);
    WalkExplained(existing, rows);
    assert !Adoptable(existing[i]);
    assert forall j :: 0 <= j < |rows| && m.places[j].Adopted? ==> AdoptionOk(existing, m, m.places[j].at, rows[j]);
    assert i !in m.claimed;
  }

  // ---------------------------------------------------------------------------
  // Ids
  // ---------------------------------------------------------------------------

  predicate UniqueIds(ms: seq<Message>) {
    forall i, j :: 0 <= i < j < |ms| ==> ms[i].id != ms[j].id
  }

  /** Everything the merge will show, before it is arranged. */
  function Pool(m: Merge): seq<Message> {
    m.next + Messages(m.inserts)
  }

  lemma RenamedStaysUnique(pool: seq<Message>, i: nat, x: Message, seen: set<string>)
    requires i < |pool| && UniqueIds(pool) && IdSet(pool) <= seen && x.id !in seen
    ensures UniqueIds(pool[i := x]) && IdSet(pool[i := x]) <= seen + {x.id}
  {
    assert forall k :: 0 <= k < |pool| ==> pool[k].id in IdSet(pool);
  }

  lemma GrownStaysUnique(pool: seq<Message>, x: Message, seen: set<string>)
    requires UniqueIds(pool) && IdSet(pool) <= seen && x.id !in seen
    ensures UniqueIds(pool + [x]) && IdSet(pool + [x]) <= seen + {x.id}
  {
    assert forall k :: 0 <= k < |pool| ==> pool[k].id in IdSet(pool);
  }

  /** A step renames one pooled message, adds one, or leaves the pool alone. */
  lemma StepPool(existing: seq<Message>, m: Merge, row: Row)
    requires |m.next| == |existing|
    ensures var m' := Step(existing, m, row);
            if !Valid(row) || row.id.value in m.seen then Pool(m') == Pool(m) && m'.seen == m.seen
            else
              && m'.seen == m.seen + {row.id.value}
              && var target := Target(existing, m.claimed, m.anchor, row);
                 Pool(m') == if target.Some? then Pool(m)[target.value := Adopt(m.next[target.value], row)] else Pool(m) + [Fresh(row)]
  {
    if Valid(row) && row.id.value !in m.seen {
      var target := Target(existing, m.claimed, m.anchor, row);
      if target.None? {
        MessagesSnoc(m.inserts, Insert(m.cursor, Fresh(row)));
      }
    }
  }

  lemma StepKeepsUnique(existing: seq<Message>, m: Merge, row: Row)
    requires |m.next| == |existing| && UniqueIds(Pool(m)) && IdSet(Pool(m)) <= m.seen
    ensures var m' := Step(existing, m, row);
            UniqueIds(Pool(m')) && IdSet(Pool(m')) <= m'.seen
  {
    StepPool(existing, m, row);
    if Valid(row) && row.id.value !in m.seen {
      var target := Target(existing, m.claimed, m.anchor, row);
      if target.Some? {
        RenamedStaysUnique(Pool(m), target.value, Adopt(m.next[target.value], row), m.seen);
      } else {
        GrownStaysUnique(Pool(m), Fresh(row), m.seen);
      }
    }
  }

  lemma {:induction false} WalkKeepsUnique(existing: seq<Message>, rows: seq<Row>)
    requires UniqueIds(existing)
    ensures var m := Walk(existing, rows);
            UniqueIds(Pool(m)) && IdSet(Pool(m)) <= m.seen
  {
    if rows == [] {
      assert Pool(Start(existing)) == existing;
    } else {
      WalkKeepsUnique(existing, rows[..|rows| - 1]);
      StepKeepsUnique(existing, Walk(existing, rows[..|rows| - 1]), rows[|rows| - 1]);
    }
  }

  lemma {:induction false} Twice<T>(s: seq<T>, x: T) returns (i: nat, j: nat)
    requires multiset(s)[x] >= 2
    ensures i < j < |s| && s[i] == x && s[j] == x
  {
    var init, last := s[..|s| - 1], s[|s| - 1];
    assert s == init + [last];
    if last == x {
      assert x in multiset(init);
      i :| 0 <= i < |init| && init[i] == x;
      j := |s| - 1;
    } else {
      i, j := Twice(init, x);
    }
  }

  lemma PermutationKeepsUnique(a: seq<Message>, b: seq<Message>)
    requires multiset(a) == multiset(b) && UniqueIds(a)
    ensures UniqueIds(b)
  {
    forall i, j | 0 <= i < j < |b| ensures b[i].id != b[j].id {
      if b[i] == b[j] {
        assert b == b[..j] + [b[j]] + b[j + 1..];
        assert b[i] in b[..j];
        assert multiset(b)[b[i]] >= 2;
        var p, q := Twice(a, b[i]);
        assert false;
      }
      assert b[i] in multiset(a) && b[j] in multiset(a);
      var p :| 0 <= p < |a| && a[p] == b[i];
      var q :| 0 <= q < |a| && a[q] == b[j];
    }
  }

  lemma UniqueIdsStayUnique(existing: seq<Message>, rows: seq<Row>)
    requires UniqueIds(existing)
    ensures UniqueIds(MergeHistory(existing, rows))
  {
    var m := Walk(existing, rows);
    WalkExplained(existing, rows);
    WalkKeepsUnique(existing, rows);
    RenderConserves(m.next, m.inserts);
    PermutationKeepsUnique(Pool(m), MergeHistory(existing, rows));
  }

  // ---------------------------------------------------------------------------
  // Snapshot order
  // ---------------------------------------------------------------------------

  function MatchedAt(p: Place): Option<nat> {
    match p
    case Held(at) => at
    case Adopted(i) => Some(i)
    case _ => None
  }

  /** The rows that match local bubbles match them in local order. */
  ghost predicate MatchesIncrease(places: seq<Place>) {
    forall j, k :: 0 <= j < k < |places| && MatchedAt(places[j]).Some? && MatchedAt(places[k]).Some?
      ==> MatchedAt(places[j]).value < MatchedAt(places[k]).value
  }

  ghost predicate DistinctRowIds(rows: seq<Row>) {
    forall j, k :: 0 <= j < k < |rows| && Valid(rows[j]) && Valid(rows[k]) ==> rows[j].id != rows[k].id
  }

  function CursorAfter(places: seq<Place>): nat {
    if places == [] then 0
    else
      var at := MatchedAt(places[|places| - 1]);
      if at.Some? then at.value + 1 else CursorAfter(places[..|places| - 1])
  }

  ghost predicate CursorTracks(m: Merge) {
    && m.cursor == CursorAfter(m.places)
    && (forall j :: 0 <= j < |m.places| && m.places[j].Inserted? ==> m.places[j].cursor == CursorAfter(m.places[..j]))
  }

  lemma CursorFollows(m: Merge, m': Merge, p: Place)
    requires CursorTracks(m) && m'.places == m.places + [p]
    requires p.Inserted? ==> p.cursor == m.cursor
    requires m'.cursor == if MatchedAt(p).Some? then MatchedAt(p).value + 1 else m.cursor
    ensures CursorTracks(m')
  {
    assert m'.places[..|m.places|] == m.places;
    forall j | 0 <= j < |m'.places| && m'.places[j].Inserted?
      ensures m'.places[j].cursor == CursorAfter(m'.places[..j])
    {
      assert j < |m.places| ==> m'.places[..j] == m.places[..j];
    }
  }

  lemma StepTracksCursor(existing: seq<Message>, m: Merge, row: Row)
    requires |m.next| == |existing| && CursorTracks(m)
    ensures CursorTracks(Step(existing, m, row))
  {
    var m' := Step(existing, m, row);
    CursorFollows(m, m', m'.places[|m.places|]);
  }

  lemma {:induction false} CursorIsAfterLastMatch(existing: seq<Message>, rows: seq<Row>)
    ensures CursorTracks(Walk(existing, rows))
  {
    if rows != [] {
      CursorIsAfterLastMatch(existing, rows[..|rows| - 1]);
      StepTracksCursor(existing, Walk(existing, rows[..|rows| - 1]), rows[|rows| - 1]);
    }
  }

  lemma {:induction false} CursorBetweenMatches(places: seq<Place>, n: nat, k: nat)
    requires MatchesIncrease(places) && n <= |places| && k < |places| && MatchedAt(places[k]).Some?
    ensures k < n ==> MatchedAt(places[k]).value < CursorAfter(places[..n])
    ensures n <= k ==> CursorAfter(places[..n]) <= MatchedAt(places[k]).value
  {
    if n > 0 {
      assert places[..n][..n - 1] == places[..n - 1];
      if MatchedAt(places[n - 1]).None? {
        CursorBetweenMatches(places, n - 1, k);
      }
    }
  }

  lemma {:induction false} CursorsGrow(places: seq<Place>, n: nat, n': nat)
    requires MatchesIncrease(places) && n <= n' <= |places|
    ensures CursorAfter(places[..n]) <= CursorAfter(places[..n'])
  {
    if n < n' {
      CursorsGrow(places, n, n' - 1);
      assert places[..n'][..n' - 1] == places[..n' - 1];
      if MatchedAt(places[n' - 1]).Some? {
        CursorBetweenMatches(places, n, n' - 1);
      }
    }
  }

  /** Where the `j`-th row of the snapshot is shown. */
  function RowPos(m: Merge, j: nat): nat
    requires j < |m.places| && (m.places[j].Inserted? ==> FreshCount(m.places[..j]) < |m.inserts|)
  {
    var at := MatchedAt(m.places[j]);
    if at.Some? then SlotPos(m.inserts, at.value)
    else if m.places[j].Inserted? then FreshPos(m.inserts, FreshCount(m.places[..j]))
    else 0
  }

  predicate Placed(p: Place) {
    p.Inserted? || MatchedAt(p).Some?
  }

  lemma {:induction false} FreshCountGrows(places: seq<Place>, j: nat, k: nat)
    requires j < k <= |places| && places[j].Inserted?
    ensures FreshCount(places[..j]) < FreshCount(places[..k])
  {
    assert places[..k][..k - 1] == places[..k - 1];
    if j < k - 1 {
      FreshCountGrows(places, j, k - 1);
    }
  }

  /** If the matches increase, placed rows are shown in snapshot order. */
  lemma SnapshotOrder(existing: seq<Message>, rows: seq<Row>, j: nat, k: nat)
    requires j < k < |rows|
    requires var m := Walk(existing, rows);
             MatchesIncrease(m.places) && Placed(m.places[j]) && Placed(m.places[k])
    ensures var m := Walk(existing, rows);
            && (m.places[j].Inserted? ==> FreshOk(m, j, rows[j]))
            && (m.places[k].Inserted? ==> FreshOk(m, k, rows[k]))
            && RowPos(m, j) < RowPos(m, k)
  {
    var m := Walk(existing, rows);
    WalkExplained(existing, rows);
    CursorIsAfterLastMatch(existing, rows);
    var a, b := MatchedAt(m.places[j]), MatchedAt(m.places[k]);
    if a.Some? && b.Some? {
      SlotsKeepOrder(m.inserts, a.value, b.value);
    } else if a.Some? {
      CursorBetweenMatches(m.places, k, j);
      FreshAgainstSlot(m.inserts, FreshCount(m.places[..k]), a.value);
    } else if b.Some? {
      CursorBetweenMatches(m.places, j, k);
      FreshAgainstSlot(m.inserts, FreshCount(m.places[..j]), b.value);
    } else {
      CursorsGrow(m.places, j, k);
      FreshCountGrows(m.places, j, k);
      FreshKeepOrder(m.inserts, FreshCount(m.places[..j]), FreshCount(m.places[..k]));
    }
  }

  function RowIds(rows: seq<Row>): set<string> {
    set j | 0 <= j < |rows| && Valid(rows[j]) :: rows[j].id.value
  }

  lemma RowIdsSnoc(rows: seq<Row>, row: Row)
    ensures RowIds(rows + [row]) == RowIds(rows) + if Valid(row) then {row.id.value} else {}
  {
    var all := rows + [row];
    forall id | id in RowIds(rows) ensures id in RowIds(all) {
      var j :| 0 <= j < |rows| && Valid(rows[j]) && rows[j].id.value == id;
      assert all[j] == rows[j];
    }
    if Valid(row) {
      assert all[|rows|] == row;
    }
  }

  ghost predicate HeldLocally(existing: seq<Message>, p: Place, row: Row) {
    Valid(row) && p.Held? && p.index.Some? && p.index.value < |existing| && existing[p.index.value].id == row.id.value
  }

  /** Ids seen so far are those shown locally and those of the rows; a held row is held by the transcript itself. */
  ghost predicate Located(existing: seq<Message>, rows: seq<Row>, m: Merge) {
    && |m.places| == |rows|
    && m.seen == IdSet(existing) + RowIds(rows)
    && (forall id :: id in IdSet(existing) && id !in RowIds(rows) ==>
          id in m.indexById && m.indexById[id] == LastIndexById(existing)[id])
    && (forall j :: 0 <= j < |rows| && Valid(rows[j]) ==> Placed(m.places[j]))
    && (forall j :: 0 <= j < |rows| && m.places[j].Held? ==> HeldLocally(existing, m.places[j], rows[j]))
  }

  lemma PlacementsGrow(existing: seq<Message>, rows: seq<Row>, m: Merge, row: Row, m': Merge, p: Place)
    requires Located(existing, rows, m) && m'.places == m.places + [p]
    requires Valid(row) ==> Placed(p)
    requires p.Held? ==> HeldLocally(existing, p, row)
    ensures forall j :: 0 <= j < |rows + [row]| && Valid((rows + [row])[j]) ==> Placed(m'.places[j])
    ensures forall j :: 0 <= j < |rows + [row]| && m'.places[j].Held? ==> HeldLocally(existing, m'.places[j], (rows + [row])[j])
  {
  }

  lemma StepLocated(existing: seq<Message>, rows: seq<Row>, m: Merge, row: Row)
    requires Located(existing, rows, m) && |m.next| == |existing|
    requires Valid(row) ==> row.id.value !in RowIds(rows)
    ensures Located(existing, rows + [row], Step(existing, m, row))
  {
    var m' := Step(existing, m, row);
    RowIdsSnoc(rows, row);
    PlacementsGrow(existing, rows, m, row, m', m'.places[|rows|]);
  }

  lemma {:induction false} HeldRowIsLocal(existing: seq<Message>, rows: seq<Row>)
    requires DistinctRowIds(rows)
    ensures Located(existing, rows, Walk(existing, rows))
  {
    if rows != [] {
      var init, row := rows[..|rows| - 1], rows[|rows| - 1];
      HeldRowIsLocal(existing, init);
      assert rows == init + [row];
      StepLocated(existing, init, Walk(existing, init), row);
    }
  }

  /** The `j`-th row is shown under its own id; an adopted or fresh row with its own text. */
  ghost predicate RowShown(m: Merge, merged: seq<Message>, j: nat, row: Row)
    requires j < |m.places| && Valid(row)
  {
    && Placed(m.places[j])
    && (m.places[j].Inserted? ==> FreshOk(m, j, row))
    && RowPos(m, j) < |merged| && merged[RowPos(m, j)].id == row.id.value
    && (!m.places[j].Held? ==> merged[RowPos(m, j)].text == row.text.value)
  }

  lemma HeldIsUnclaimed(places: seq<Place>, claimed: set<nat>, n: nat, j: nat)
    requires MatchesIncrease(places) && ClaimsPlaced(claimed, n, places)
    requires j < |places| && places[j].Held? && places[j].index.Some?
    ensures places[j].index.value !in claimed
  {
    var i := places[j].index.value;
    forall k | 0 <= k < |places| ensures places[k] != Adopted(i) {
      assert MatchedAt(places[j]) == MatchedAt(Adopted(i)) == Some(i);
    }
  }

  lemma HeldRowShown(existing: seq<Message>, rows: seq<Row>, m: Merge, j: nat)
    requires Explained(existing, rows, m) && Located(existing, rows, m) && MatchesIncrease(m.places)
    requires j < |rows| && m.places[j].Held?
    ensures Valid(rows[j]) && m.places[j].index.Some? && m.places[j].index.value < |m.next|
    ensures m.next[m.places[j].index.value].id == rows[j].id.value
  {
    assert HeldLocally(existing, m.places[j], rows[j]);
    HeldIsUnclaimed(m.places, m.claimed, |existing|, j);
  }

  lemma ValidRowShown(existing: seq<Message>, rows: seq<Row>, j: nat)
    requires j < |rows| && Valid(rows[j]) && DistinctRowIds(rows) && MatchesIncrease(Walk(existing, rows).places)
    ensures RowShown(Walk(existing, rows), MergeHistory(existing, rows), j, rows[j])
  {
    var m := Walk(existing, rows);
    WalkExplained(existing, rows);
    HeldRowIsLocal(existing, rows);
    RenderAt(m.next, m.inserts);
    match m.places[j] {
      case Held(_) => HeldRowShown(existing, rows, m, j);
      case Adopted(i) => assert AdoptionOk(existing, m, i, rows[j]);
      case Inserted(_) => assert FreshOk(m, j, rows[j]);
      case Skipped =>
    }
  }

  /**
   * For distinct snapshot ids whose matches increase, the merged list shows every
   * valid row under its own id, in snapshot order.
   */
  lemma MergedShowsSnapshot(existing: seq<Message>, rows: seq<Row>, j: nat, k: nat)
    requires j < k < |rows| && Valid(rows[j]) && Valid(rows[k])
    requires DistinctRowIds(rows) && MatchesIncrease(Walk(existing, rows).places)
    ensures var m := Walk(existing, rows);
            var merged := MergeHistory(existing, rows);
            RowShown(m, merged, j, rows[j]) && RowShown(m, merged, k, rows[k]) && RowPos(m, j) < RowPos(m, k)
  {
    ValidRowShown(existing, rows, j);
    ValidRowShown(existing, rows, k);
    SnapshotOrder(existing, rows, j, k);
  }

  // ---------------------------------------------------------------------------
  // The deferred rebuild is immediate insertion
  // ---------------------------------------------------------------------------

  /** What the screen would show if each row were applied to it at once. */
  function ShowRow(existing: seq<Message>, m: Merge, shown: seq<Item>, row: Row): seq<Item>
    requires |m.next| == |existing|
  {
    var m' := Step(existing, m, row);
    match m'.places[|m'.places| - 1]
    case Adopted(i) => if i < |m'.next| then Overwrite(shown, i, m'.next[i]) else shown
    case Inserted(c) => if Valid(row) then InsertBefore(shown, c, Fresh(row)) else shown
    case _ => shown
  }

  function ShowAll(existing: seq<Message>, rows: seq<Row>): seq<Item> {
    if rows == [] then Tagged(existing, [], 0)
    else
      var init := rows[..|rows| - 1];
      ShowRow(existing, Walk(existing, init), ShowAll(existing, init), rows[|rows| - 1])
  }

  lemma ShowRowIsStep(existing: seq<Message>, m: Merge, row: Row)
    requires |m.next| == |existing| && m.cursor <= |existing|
    ensures var m' := Step(existing, m, row);
            ShowRow(existing, m, Tagged(m.next, m.inserts, 0), row) == Tagged(m'.next, m'.inserts, 0)
  {
    if Valid(row) && row.id.value !in m.seen {
      var target := Target(existing, m.claimed, m.anchor, row);
      if target.Some? {
        OverwriteIsUpdate(m.next, m.inserts, target.value, Adopt(m.next[target.value], row), 0);
      } else {
        InsertIsDeferred(m.next, m.inserts, m.cursor, Fresh(row), 0);
      }
    }
  }

  lemma {:induction false} ShowAllIsTagged(existing: seq<Message>, rows: seq<Row>)
    ensures var m := Walk(existing, rows); ShowAll(existing, rows) == Tagged(m.next, m.inserts, 0)
  {
    if rows != [] {
      var init := rows[..|rows| - 1];
      ShowAllIsTagged(existing, init);
      WalkExplained(existing, init);
      ShowRowIsStep(existing, Walk(existing, init), rows[|rows| - 1]);
    }
  }

  /** The one deferred rebuild shows what inserting each fresh row at its cursor at once would. */
  lemma DeferredIsImmediate(existing: seq<Message>, rows: seq<Row>)
    ensures MergeHistory(existing, rows) == Texts(ShowAll(existing, rows))
  {
    var m := Walk(existing, rows);
    ShowAllIsTagged(existing, rows);
    TaggedIsRender(m.next, m.inserts, 0);
    var shown := Texts(Tagged(m.next, m.inserts, 0));
    assert [] + shown == shown;
  }

  // ---------------------------------------------------------------------------
  // Applying a snapshot twice
  // ---------------------------------------------------------------------------

  ghost predicate CanonicalRows(rows: seq<Row>) {
    forall j :: 0 <= j < |rows| && Valid(rows[j]) ==> !InLiveNamespace(rows[j].id.value)
  }

  lemma StepKeepsCanonical(existing: seq<Message>, m: Merge, row: Row, id: string)
    requires |m.next| == |existing|
    requires forall i: nat :: i < |existing| && i !in m.claimed ==> m.next[i] == existing[i]
    requires id in IdSet(Pool(m)) && !InLiveNamespace(id)
    ensures id in IdSet(Pool(Step(existing, m, row)))
  {
    var p :| 0 <= p < |Pool(m)| && Pool(m)[p].id == id;
    StepPool(existing, m, row);
    assert Pool(Step(existing, m, row))[p] == Pool(m)[p];
  }

  lemma {:induction false} CanonicalIdsArePooled(existing: seq<Message>, rows: seq<Row>, id: string)
    requires id in Walk(existing, rows).seen && !InLiveNamespace(id)
    ensures id in IdSet(Pool(Walk(existing, rows)))
  {
    if rows == [] {
      assert Pool(Start(existing)) == existing;
    } else {
      var init, row := rows[..|rows| - 1], rows[|rows| - 1];
      var m, m' := Walk(existing, init), Walk(existing, rows);
      WalkExplained(existing, init);
      if id in m.seen {
        CanonicalIdsArePooled(existing, init, id);
        StepKeepsCanonical(existing, m, row, id);
      } else {
        StepPool(existing, m, row);
        var target := Target(existing, m.claimed, m.anchor, row);
        assert Pool(m')[if target.Some? then target.value else |Pool(m)|].id == id;
      }
    }
  }

  lemma StepSees(existing: seq<Message>, m: Merge, row: Row)
    requires |m.next| == |existing|
    ensures m.seen + (if Valid(row) then {row.id.value} else {}) <= Step(existing, m, row).seen
  {
  }

  lemma {:induction false} RowsAreSeen(existing: seq<Message>, rows: seq<Row>)
    ensures RowIds(rows) <= Walk(existing, rows).seen
  {
    if rows != [] {
      var init, row := rows[..|rows| - 1], rows[|rows| - 1];
      RowsAreSeen(existing, init);
      RowIdsSnoc(init, row);
      StepSees(existing, Walk(existing, init), row);
      assert rows == init + [row];
    }
  }

  lemma {:induction false} KnownRowsChangeNothing(existing: seq<Message>, rows: seq<Row>)
    requires RowIds(rows) <= IdSet(existing)
    ensures var m := Walk(existing, rows);
            m.next == existing && m.inserts == [] && IdSet(existing) <= m.seen
  {
    if rows != [] {
      RowIdsSnoc(rows[..|rows| - 1], rows[|rows| - 1]);
      assert rows == rows[..|rows| - 1] + [rows[|rows| - 1]];
      KnownRowsChangeNothing(existing, rows[..|rows| - 1]);
    }
  }

  /** Applying the same canonical snapshot again leaves the transcript unchanged. */
  lemma SecondMergeIsNoop(existing: seq<Message>, rows: seq<Row>)
    requires CanonicalRows(rows)
    ensures var merged := MergeHistory(existing, rows);
            MergeHistory(merged, rows) == merged
  {
    var m := Walk(existing, rows);
    var merged := MergeHistory(existing, rows);
    WalkExplained(existing, rows);
    RenderConserves(m.next, m.inserts);
    RowsAreSeen(existing, rows);
    forall id | id in RowIds(rows) ensures id in IdSet(merged) {
      CanonicalIdsArePooled(existing, rows, id);
      var p :| 0 <= p < |Pool(m)| && Pool(m)[p].id == id;
      assert Pool(m)[p] in multiset(merged);
      var q :| 0 <= q < |merged| && merged[q] == Pool(m)[p];
      assert merged[q].id == id;
    }
    KnownRowsChangeNothing(merged, rows);
    NothingInserted(merged, |merged|);
  }

  // ---------------------------------------------------------------------------
  // A snapshot that matches nothing
  // ---------------------------------------------------------------------------

  ghost predicate MatchesNothing(existing: seq<Message>, rows: seq<Row>) {
    forall j, i :: 0 <= j < |rows| && 0 <= i < |existing| && Valid(rows[j]) ==>
      existing[i].id != rows[j].id.value && !Matches(existing[i], rows[j].role, rows[j].text.value)
  }

  /** The valid rows as fresh messages, a repeated id only once. */
  function FreshRows(rows: seq<Row>): seq<Message> {
    if rows == [] then []
    else
      var init, row := rows[..|rows| - 1], rows[|rows| - 1];
      FreshRows(init) + if Valid(row) && row.id.value !in RowIds(init) then [Fresh(row)] else []
  }

  ghost predicate AllFresh(existing: seq<Message>, rows: seq<Row>, m: Merge) {
    && m.next == existing && m.claimed == {} && m.anchor == None && m.cursor == 0
    && m.seen == IdSet(existing) + RowIds(rows)
    && (forall id :: id in m.indexById ==> id in IdSet(existing))
    && Messages(m.inserts) == FreshRows(rows)
    && (forall j :: 0 <= j < |m.inserts| ==> m.inserts[j].cursor == 0)
  }

  lemma FreshRowsSnoc(rows: seq<Row>, row: Row)
    ensures FreshRows(rows + [row]) == FreshRows(rows) + if Valid(row) && row.id.value !in RowIds(rows) then [Fresh(row)] else []
  {
    assert (rows + [row])[..|rows|] == rows;
  }

  lemma NothingToAdopt(existing: seq<Message>, row: Row)
    requires Valid(row) && forall i :: 0 <= i < |existing| ==> !Matches(existing[i], row.role, row.text.value)
    ensures Target(existing, {}, None, row).None?
  {
  }

  lemma KnownStepAllFresh(existing: seq<Message>, rows: seq<Row>, m: Merge, row: Row)
    requires AllFresh(existing, rows, m)
    requires Valid(row) ==> row.id.value !in IdSet(existing) && row.id.value in RowIds(rows)
    ensures AllFresh(existing, rows + [row], Step(existing, m, row))
  {
    RowIdsSnoc(rows, row);
    FreshRowsSnoc(rows, row);
    assert RowIds(rows + [row]) == RowIds(rows);
  }

  lemma NewStepAllFresh(existing: seq<Message>, rows: seq<Row>, m: Merge, row: Row)
    requires AllFresh(existing, rows, m)
    requires Valid(row) && row.id.value !in IdSet(existing) && row.id.value !in RowIds(rows)
    requires forall i :: 0 <= i < |existing| ==> !Matches(existing[i], row.role, row.text.value)
    ensures AllFresh(existing, rows + [row], Step(existing, m, row))
  {
    RowIdsSnoc(rows, row);
    FreshRowsSnoc(rows, row);
    NothingToAdopt(existing, row);
    MessagesSnoc(m.inserts, Insert(0, Fresh(row)));
  }

  lemma {:induction false} UnmatchedRowsAreFresh(existing: seq<Message>, rows: seq<Row>)
    requires MatchesNothing(existing, rows)
    ensures AllFresh(existing, rows, Walk(existing, rows))
  {
    if rows != [] {
      var init, row := rows[..|rows| - 1], rows[|rows| - 1];
      UnmatchedRowsAreFresh(existing, init);
      assert rows == init + [row] && row == rows[|rows| - 1];
      if Valid(row) && row.id.value !in RowIds(init) {
        NewStepAllFresh(existing, init, Walk(existing, init), row);
      } else {
        KnownStepAllFresh(existing, init, Walk(existing, init), row);
      }
    }
  }

  lemma {:induction false} ZeroCursorsPrepend(inserts: seq<Insert>, c: nat)
    requires forall j :: 0 <= j < |inserts| ==> inserts[j].cursor == 0
    ensures Group(inserts, c) == if c == 0 then Messages(inserts) else []
  {
    if inserts != [] {
      ZeroCursorsPrepend(inserts[..|inserts| - 1], c);
    }
  }

  lemma OneMoreSlot(rows: seq<Message>, next: seq<Message>, n: nat, slots: seq<Message>, group: seq<Message>)
    requires n < |next|
    requires slots == (if n == 0 then [] else rows + next[..n]) && group == (if n == 0 then rows else [])
    ensures slots + group + [next[n]] == rows + next[..n + 1]
  {
    assert next[..n + 1] == next[..n] + [next[n]];
  }

  lemma {:induction false} PrependedSlots(next: seq<Message>, inserts: seq<Insert>, n: nat)
    requires forall j :: 0 <= j < |inserts| ==> inserts[j].cursor == 0
    requires n <= |next|
    ensures Slots(next, inserts, n) == if n == 0 then [] else Messages(inserts) + next[..n]
  {
    if n > 0 {
      PrependedSlots(next, inserts, n - 1);
      ZeroCursorsPrepend(inserts, n - 1);
      OneMoreSlot(Messages(inserts), next, n - 1, Slots(next, inserts, n - 1), Group(inserts, n - 1));
    }
  }

  /** A snapshot that matches nothing yields its rows followed by the local list. */
  lemma UnmatchedSnapshotIsPrepended(existing: seq<Message>, rows: seq<Row>)
    requires MatchesNothing(existing, rows)
    ensures MergeHistory(existing, rows) == FreshRows(rows) + existing
  {
    UnmatchedRowsAreFresh(existing, rows);
    var m := Walk(existing, rows);
    PrependedSlots(existing, m.inserts, |existing|);
    ZeroCursorsPrepend(m.inserts, |existing|);
    assert existing[..|existing|] == existing;
    if existing == [] {
      assert FreshRows(rows) + existing == FreshRows(rows);
    }
  }
}
