/** Where the rebuild puts each local bubble and each fresh row, and that it loses nothing. */
module HistoryRender {
  import opened Options
  import opened HistoryMerge

  /** Inserts with a cursor below `c`. */
  function Below(inserts: seq<Insert>, c: nat): nat {
    if inserts == [] then 0
    else Below(inserts[..|inserts| - 1], c) + if inserts[|inserts| - 1].cursor < c then 1 else 0
  }

  function Messages(inserts: seq<Insert>): (ms: seq<Message>)
    ensures |ms| == |inserts| && forall j :: 0 <= j < |ms| ==> ms[j] == inserts[j].message
  {
    if inserts == [] then [] else Messages(inserts[..|inserts| - 1]) + [inserts[|inserts| - 1].message]
  }

  /** The display position of local bubble `i`. */
  function SlotPos(inserts: seq<Insert>, i: nat): nat {
    i + Below(inserts, i + 1)
  }

  /** The display position of the `j`-th fresh row. */
  function FreshPos(inserts: seq<Insert>, j: nat): nat
    requires j < |inserts|
  {
    inserts[j].cursor + Below(inserts, inserts[j].cursor) + |Group(inserts[..j], inserts[j].cursor)|
  }

  lemma {:induction false} BelowNext(inserts: seq<Insert>, c: nat)
    ensures Below(inserts, c + 1) == Below(inserts, c) + |Group(inserts, c)|
  {
    if inserts != [] {
      BelowNext(inserts[..|inserts| - 1], c);
    }
  }

  lemma {:induction false} BelowMonotone(inserts: seq<Insert>, c: nat, d: nat)
    requires c <= d
    ensures Below(inserts, c) <= Below(inserts, d)
  {
    if inserts != [] {
      BelowMonotone(inserts[..|inserts| - 1], c, d);
    }
  }

  lemma {:induction false} SlotsLength(next: seq<Message>, inserts: seq<Insert>, n: nat)
    requires n <= |next|
    ensures |Slots(next, inserts, n)| == n + Below(inserts, n)
  {
    if n == 0 {
      NoneBelowZero(inserts);
    } else {
      SlotsLength(next, inserts, n - 1);
      BelowNext(inserts, n - 1);
    }
  }

  lemma {:induction false} NoneBelowZero(inserts: seq<Insert>)
    ensures Below(inserts, 0) == 0
  {
    if inserts != [] {
      NoneBelowZero(inserts[..|inserts| - 1]);
    }
  }

  lemma {:induction false} SlotAt(next: seq<Message>, inserts: seq<Insert>, n: nat, i: nat)
    requires i < n <= |next|
    ensures SlotPos(inserts, i) < |Slots(next, inserts, n)|
    ensures Slots(next, inserts, n)[SlotPos(inserts, i)] == next[i]
  {
    SlotsLength(next, inserts, n - 1);
    BelowNext(inserts, n - 1);
    if i < n - 1 {
      SlotAt(next, inserts, n - 1, i);
    }
  }

  lemma {:induction false} GroupAt(inserts: seq<Insert>, j: nat)
    requires j < |inserts|
    ensures var c := inserts[j].cursor; var k := |Group(inserts[..j], c)|;
            k < |Group(inserts, c)| && Group(inserts, c)[k] == inserts[j].message
  {
    var init := inserts[..|inserts| - 1];
    if j < |init| {
      GroupAt(init, j);
      assert init[..j] == inserts[..j];
    }
  }

  lemma {:induction false} FreshInSlots(next: seq<Message>, inserts: seq<Insert>, n: nat, j: nat)
    requires n <= |next| && j < |inserts| && inserts[j].cursor < n
    ensures FreshPos(inserts, j) < |Slots(next, inserts, n)|
    ensures Slots(next, inserts, n)[FreshPos(inserts, j)] == inserts[j].message
  {
    if inserts[j].cursor < n - 1 {
      FreshInSlots(next, inserts, n - 1, j);
    } else {
      SlotsLength(next, inserts, n - 1);
      GroupAt(inserts, j);
    }
  }

  predicate ShownAt(shown: seq<Message>, pos: nat, m: Message) {
    pos < |shown| && shown[pos] == m
  }

  /** Every local bubble and every fresh row is shown at its position. */
  lemma RenderAt(next: seq<Message>, inserts: seq<Insert>)
    requires forall j :: 0 <= j < |inserts| ==> inserts[j].cursor <= |next|
    ensures |Render(next, inserts)| == |next| + |inserts|
    ensures forall i: nat :: i < |next| ==> ShownAt(Render(next, inserts), SlotPos(inserts, i), next[i])
    ensures forall j: nat :: j < |inserts| ==> ShownAt(Render(next, inserts), FreshPos(inserts, j), inserts[j].message)
  {
    var n := |next|;
    SlotsLength(next, inserts, n);
    RenderLength(next, inserts);
    forall i: nat | i < n
      ensures ShownAt(Slots(next, inserts, n), SlotPos(inserts, i), next[i])
    {
      SlotAt(next, inserts, n, i);
    }
    forall j: nat | j < |inserts|
      ensures ShownAt(Render(next, inserts), FreshPos(inserts, j), inserts[j].message)
    {
      if inserts[j].cursor < n {
        FreshInSlots(next, inserts, n, j);
      } else {
        GroupAt(inserts, j);
      }
    }
  }

  lemma RenderLength(next: seq<Message>, inserts: seq<Insert>)
    requires forall j :: 0 <= j < |inserts| ==> inserts[j].cursor <= |next|
    ensures |Render(next, inserts)| == |next| + |inserts|
  {
    SlotsLength(next, inserts, |next|);
    BelowNext(inserts, |next|);
    AllBelow(inserts, |next| + 1);
  }

  lemma {:induction false} AllBelow(inserts: seq<Insert>, c: nat)
    requires forall j :: 0 <= j < |inserts| ==> inserts[j].cursor < c
    ensures Below(inserts, c) == |inserts|
  {
    if inserts != [] {
      AllBelow(inserts[..|inserts| - 1], c);
    }
  }

  // ---------------------------------------------------------------------------
  // Order of positions
  // ---------------------------------------------------------------------------

  lemma SlotsKeepOrder(inserts: seq<Insert>, i: nat, k: nat)
    requires i < k
    ensures SlotPos(inserts, i) < SlotPos(inserts, k)
  {
    BelowMonotone(inserts, i + 1, k + 1);
  }

  lemma FreshAgainstSlot(inserts: seq<Insert>, j: nat, i: nat)
    requires j < |inserts|
    ensures i >= inserts[j].cursor ==> FreshPos(inserts, j) < SlotPos(inserts, i)
    ensures i < inserts[j].cursor ==> SlotPos(inserts, i) < FreshPos(inserts, j)
  {
    var c := inserts[j].cursor;
    GroupAt(inserts, j);
    BelowNext(inserts, c);
    if i >= c {
      BelowMonotone(inserts, c + 1, i + 1);
    } else {
      BelowMonotone(inserts, i + 1, c);
    }
  }

  lemma FreshKeepOrder(inserts: seq<Insert>, j: nat, k: nat)
    requires j < k < |inserts| && inserts[j].cursor <= inserts[k].cursor
    ensures FreshPos(inserts, j) < FreshPos(inserts, k)
  {
    var c, d := inserts[j].cursor, inserts[k].cursor;
    if c == d {
      var before := inserts[..k];
      GroupAt(before, j);
      assert before[..j] == inserts[..j];
    } else {
      GroupAt(inserts, j);
      BelowNext(inserts, c);
      BelowMonotone(inserts, c + 1, d);
    }
  }

  // ---------------------------------------------------------------------------
  // Nothing is lost or doubled
  // ---------------------------------------------------------------------------

  lemma MessagesSnoc(inserts: seq<Insert>, x: Insert)
    ensures Messages(inserts + [x]) == Messages(inserts) + [x.message]
  {
    assert (inserts + [x])[..|inserts|] == inserts;
  }

  lemma GroupSnoc(inserts: seq<Insert>, x: Insert, c: nat)
    ensures Group(inserts + [x], c) == Group(inserts, c) + if x.cursor == c then [x.message] else []
  {
    assert (inserts + [x])[..|inserts|] == inserts;
  }

  lemma JoinMultisets<T>(a: seq<T>, b: seq<T>, g: seq<T>, h: seq<T>, tail: seq<T>, extra: multiset<T>, more: multiset<T>)
    requires multiset(b) == multiset(a) + extra && multiset(h) == multiset(g) + more
    ensures multiset(b + h + tail) == multiset(a + g + tail) + extra + more
  {
  }

  function Once(x: Insert, yes: bool): multiset<Message> {
    if yes then multiset{x.message} else multiset{}
  }

  lemma GroupMultiset(inserts: seq<Insert>, x: Insert, c: nat)
    ensures multiset(Group(inserts + [x], c)) == multiset(Group(inserts, c)) + Once(x, x.cursor == c)
  {
    GroupSnoc(inserts, x, c);
  }

  lemma SlotsUnfold(next: seq<Message>, inserts: seq<Insert>, k: nat)
    requires k < |next|
    ensures Slots(next, inserts, k + 1) == Slots(next, inserts, k) + Group(inserts, k) + [next[k]]
  {
  }

  lemma {:induction false} SlotsSnoc(next: seq<Message>, inserts: seq<Insert>, x: Insert, n: nat)
    requires n <= |next|
    ensures multiset(Slots(next, inserts + [x], n)) == multiset(Slots(next, inserts, n)) + Once(x, x.cursor < n)
  {
    if n > 0 {
      var more, k := inserts + [x], n - 1;
      var a, b, g, h := Slots(next, inserts, k), Slots(next, more, k), Group(inserts, k), Group(more, k);
      SlotsSnoc(next, inserts, x, k);
      GroupMultiset(inserts, x, k);
      JoinMultisets(a, b, g, h, [next[k]], Once(x, x.cursor < k), Once(x, x.cursor == k));
      SlotsUnfold(next, inserts, k);
      SlotsUnfold(next, more, k);
    }
  }

  lemma JoinPairs<T>(a: seq<T>, b: seq<T>, g: seq<T>, h: seq<T>, extra: multiset<T>, more: multiset<T>)
    requires multiset(b) == multiset(a) + extra && multiset(h) == multiset(g) + more
    ensures multiset(b + h) == multiset(a + g) + (extra + more)
  {
  }

  lemma OnceEither(x: Insert, n: nat)
    requires x.cursor <= n
    ensures Once(x, x.cursor < n) + Once(x, x.cursor == n) == multiset{x.message}
  {
  }

  lemma RenderSnoc(next: seq<Message>, inserts: seq<Insert>, x: Insert)
    requires x.cursor <= |next|
    ensures multiset(Render(next, inserts + [x])) == multiset(Render(next, inserts)) + multiset{x.message}
  {
    var n := |next|;
    var more := inserts + [x];
    SlotsSnoc(next, inserts, x, n);
    GroupMultiset(inserts, x, n);
    JoinPairs(Slots(next, inserts, n), Slots(next, more, n), Group(inserts, n), Group(more, n),
              Once(x, x.cursor < n), Once(x, x.cursor == n));
    OnceEither(x, n);
  }

  /** The rebuilt list is the local list and the fresh rows, each exactly once. */
  lemma {:induction false} RenderConserves(next: seq<Message>, inserts: seq<Insert>)
    requires forall j :: 0 <= j < |inserts| ==> inserts[j].cursor <= |next|
    ensures multiset(Render(next, inserts)) == multiset(next + Messages(inserts))
  {
    if inserts == [] {
      NothingInserted(next, |next|);
      assert next + [] == next;
    } else {
      var init, x := inserts[..|inserts| - 1], inserts[|inserts| - 1];
      assert inserts == init + [x];
      RenderConserves(next, init);
      RenderSnoc(next, init, x);
      assert next + Messages(inserts) == (next + Messages(init)) + [x.message];
    }
  }

  // ---------------------------------------------------------------------------
  // Deferred and immediate insertion
  // ---------------------------------------------------------------------------

  datatype Item = Local(index: nat, message: Message) | FreshItem(message: Message)

  function Texts(items: seq<Item>): (ms: seq<Message>)
    ensures |ms| == |items| && forall i :: 0 <= i < |ms| ==> ms[i] == items[i].message
  {
    if items == [] then [] else [items[0].message] + Texts(items[1..])
  }

  /** Put a fresh message right before local bubble `c`, or at the end. */
  function InsertBefore(items: seq<Item>, c: nat, m: Message): seq<Item> {
    if items == [] then [FreshItem(m)]
    else if items[0].Local? && items[0].index == c then [FreshItem(m)] + items
    else [items[0]] + InsertBefore(items[1..], c, m)
  }

  /** Overwrite local bubble `i` where it is shown. */
  function Overwrite(items: seq<Item>, i: nat, m: Message): seq<Item> {
    if items == [] then []
    else if items[0].Local? && items[0].index == i then [Local(i, m)] + items[1..]
    else [items[0]] + Overwrite(items[1..], i, m)
  }

  function Tag(ms: seq<Message>): (items: seq<Item>)
    ensures |items| == |ms| && forall i :: 0 <= i < |ms| ==> items[i] == FreshItem(ms[i])
  {
    if ms == [] then [] else Tag(ms[..|ms| - 1]) + [FreshItem(ms[|ms| - 1])]
  }

  /** The rebuild from slot `i` on, each message tagged with its origin. */
  function Tagged(next: seq<Message>, inserts: seq<Insert>, i: nat): seq<Item>
    requires i <= |next|
    decreases |next| - i
  {
    if i == |next| then Tag(Group(inserts, i))
    else Tag(Group(inserts, i)) + ([Local(i, next[i])] + Tagged(next, inserts, i + 1))
  }

  lemma {:induction false} TextsConcat(a: seq<Item>, b: seq<Item>)
    ensures Texts(a + b) == Texts(a) + Texts(b)
  {
    var whole, parts := Texts(a + b), Texts(a) + Texts(b);
    assert |whole| == |parts|;
    forall i | 0 <= i < |whole| ensures whole[i] == parts[i] {
      if i < |a| {
        assert (a + b)[i] == a[i];
      } else {
        assert (a + b)[i] == b[i - |a|];
      }
    }
  }

  lemma Regroup<T>(a: seq<T>, b: seq<T>, c: seq<T>, d: seq<T>)
    ensures a + (b + (c + d)) == (a + b + c) + d
  {
  }

  lemma TextsOfTag(group: seq<Message>)
    ensures Texts(Tag(group)) == group
  {
    var texts := Texts(Tag(group));
    assert forall i :: 0 <= i < |texts| ==> texts[i] == group[i];
  }

  lemma TextsOfSlot(group: seq<Message>, i: nat, x: Message, rest: seq<Item>)
    ensures Texts(Tag(group) + ([Local(i, x)] + rest)) == group + ([x] + Texts(rest))
  {
    TextsConcat(Tag(group), [Local(i, x)] + rest);
    TextsOfTag(group);
    assert ([Local(i, x)] + rest)[1..] == rest;
  }

  lemma TaggedUnfold(next: seq<Message>, inserts: seq<Insert>, i: nat)
    requires i < |next|
    ensures Tagged(next, inserts, i) == Tag(Group(inserts, i)) + ([Local(i, next[i])] + Tagged(next, inserts, i + 1))
  {
  }

  lemma {:induction false} TaggedIsRender(next: seq<Message>, inserts: seq<Insert>, i: nat)
    requires i <= |next|
    ensures Render(next, inserts) == Slots(next, inserts, i) + Texts(Tagged(next, inserts, i))
    decreases |next| - i
  {
    if i == |next| {
      TextsOfTag(Group(inserts, i));
    } else {
      var rest := Tagged(next, inserts, i + 1);
      TaggedIsRender(next, inserts, i + 1);
      TaggedUnfold(next, inserts, i);
      TextsOfSlot(Group(inserts, i), i, next[i], rest);
      SlotsUnfold(next, inserts, i);
      Regroup(Slots(next, inserts, i), Group(inserts, i), [next[i]], Texts(rest));
    }
  }

  lemma {:induction false} InsertPastGroup(ms: seq<Message>, rest: seq<Item>, c: nat, m: Message)
    ensures InsertBefore(Tag(ms) + rest, c, m) == Tag(ms) + InsertBefore(rest, c, m)
    decreases |ms|
  {
    if ms == [] {
      assert Tag(ms) + rest == rest;
    } else {
      var items := Tag(ms);
      assert Tag(ms[1..]) == items[1..];
      InsertPastGroup(ms[1..], rest, c, m);
      assert (items + rest)[1..] == items[1..] + rest;
    }
  }

  lemma TagSnoc(ms: seq<Message>, m: Message)
    ensures Tag(ms + [m]) == Tag(ms) + [FreshItem(m)]
  {
    assert (ms + [m])[..|ms|] == ms;
  }

  lemma InsertAtLocal(i: nat, x: Message, rest: seq<Item>, c: nat, m: Message)
    ensures InsertBefore([Local(i, x)] + rest, c, m)
         == if i == c then [FreshItem(m)] + ([Local(i, x)] + rest) else [Local(i, x)] + InsertBefore(rest, c, m)
  {
    assert ([Local(i, x)] + rest)[1..] == rest;
  }

  lemma InsertAtSlot(group: seq<Message>, i: nat, x: Message, rest: seq<Item>, c: nat, m: Message)
    ensures InsertBefore(Tag(group) + ([Local(i, x)] + rest), c, m)
         == if i == c then Tag(group + [m]) + ([Local(i, x)] + rest)
            else Tag(group) + ([Local(i, x)] + InsertBefore(rest, c, m))
  {
    var tail := [Local(i, x)] + rest;
    InsertPastGroup(group, tail, c, m);
    InsertAtLocal(i, x, rest, c, m);
    if i == c {
      TagSnoc(group, m);
      assert (Tag(group) + [FreshItem(m)]) + tail == Tag(group) + ([FreshItem(m)] + tail);
    }
  }

  lemma InsertAtEnd(group: seq<Message>, c: nat, m: Message)
    ensures InsertBefore(Tag(group), c, m) == Tag(group + [m])
  {
    InsertPastGroup(group, [], c, m);
    TagSnoc(group, m);
    assert Tag(group) + [] == Tag(group);
  }

  lemma GroupJoined(inserts: seq<Insert>, c: nat, m: Message, i: nat)
    ensures Group(inserts + [Insert(c, m)], i) == if i == c then Group(inserts, i) + [m] else Group(inserts, i)
  {
    GroupSnoc(inserts, Insert(c, m), i);
    assert Group(inserts, i) + [] == Group(inserts, i);
  }

  /** One slot of the deferral: the group, its local bubble, and the slots after it. */
  lemma SlotDeferred(group: seq<Message>, group': seq<Message>, i: nat, x: Message, rest: seq<Item>, rest': seq<Item>, c: nat, m: Message)
    requires group' == if i == c then group + [m] else group
    requires rest' == if i + 1 <= c then InsertBefore(rest, c, m) else rest
    ensures var t, t' := Tag(group) + ([Local(i, x)] + rest), Tag(group') + ([Local(i, x)] + rest');
            t' == if i <= c then InsertBefore(t, c, m) else t
  {
    InsertAtSlot(group, i, x, rest, c, m);
  }

  /** Showing the rebuild's items with one more, right before local bubble `c`. */
  function Shown(items: seq<Item>, c: nat, m: Message, here: bool): seq<Item> {
    if here then InsertBefore(items, c, m) else items
  }

  lemma LastSlotDeferred(next: seq<Message>, inserts: seq<Insert>, c: nat, m: Message)
    requires c <= |next|
    ensures var n := |next|;
            Tagged(next, inserts + [Insert(c, m)], n) == Shown(Tagged(next, inserts, n), c, m, n <= c)
  {
    GroupJoined(inserts, c, m, |next|);
    InsertAtEnd(Group(inserts, |next|), c, m);
  }

  lemma EarlierSlotDeferred(next: seq<Message>, inserts: seq<Insert>, c: nat, m: Message, i: nat)
    requires i < |next| && c <= |next|
    requires Tagged(next, inserts + [Insert(c, m)], i + 1) == Shown(Tagged(next, inserts, i + 1), c, m, i + 1 <= c)
    ensures Tagged(next, inserts + [Insert(c, m)], i) == Shown(Tagged(next, inserts, i), c, m, i <= c)
  {
    var inserts' := inserts + [Insert(c, m)];
    var rest, rest' := Tagged(next, inserts, i + 1), Tagged(next, inserts', i + 1);
    GroupJoined(inserts, c, m, i);
    TaggedUnfold(next, inserts, i);
    TaggedUnfold(next, inserts', i);
    SlotDeferred(Group(inserts, i), Group(inserts', i), i, next[i], rest, rest', c, m);
  }

  /** Joining cursor group `c` is being shown right before local bubble `c`. */
  lemma {:induction false} InsertIsDeferred(next: seq<Message>, inserts: seq<Insert>, c: nat, m: Message, i: nat)
    requires i <= |next| && c <= |next|
    ensures Tagged(next, inserts + [Insert(c, m)], i) == Shown(Tagged(next, inserts, i), c, m, i <= c)
    decreases |next| - i
  {
    if i == |next| {
      LastSlotDeferred(next, inserts, c, m);
    } else {
      InsertIsDeferred(next, inserts, c, m, i + 1);
      EarlierSlotDeferred(next, inserts, c, m, i);
    }
  }

  lemma {:induction false} OverwritePastGroup(ms: seq<Message>, rest: seq<Item>, c: nat, m: Message)
    ensures Overwrite(Tag(ms) + rest, c, m) == Tag(ms) + Overwrite(rest, c, m)
    decreases |ms|
  {
    if ms == [] {
      assert Tag(ms) + rest == rest;
    } else {
      var items := Tag(ms);
      assert Tag(ms[1..]) == items[1..];
      OverwritePastGroup(ms[1..], rest, c, m);
      assert (items + rest)[1..] == items[1..] + rest;
    }
  }

  lemma OverwriteAtSlot(group: seq<Message>, i: nat, x: Message, rest: seq<Item>, k: nat, m: Message)
    ensures Overwrite(Tag(group) + ([Local(i, x)] + rest), k, m)
         == if i == k then Tag(group) + ([Local(i, m)] + rest) else Tag(group) + ([Local(i, x)] + Overwrite(rest, k, m))
  {
    var tail := [Local(i, x)] + rest;
    OverwritePastGroup(group, tail, k, m);
    assert tail[1..] == rest;
  }

  lemma EarlierSlotOverwritten(next: seq<Message>, inserts: seq<Insert>, k: nat, m: Message, i: nat)
    requires i < |next| && k < |next|
    requires Tagged(next[k := m], inserts, i + 1) == Overwritten(Tagged(next, inserts, i + 1), k, m, i + 1 <= k)
    ensures Tagged(next[k := m], inserts, i) == Overwritten(Tagged(next, inserts, i), k, m, i <= k)
  {
    TaggedUnfold(next, inserts, i);
    TaggedUnfold(next[k := m], inserts, i);
    OverwriteAtSlot(Group(inserts, i), i, next[i], Tagged(next, inserts, i + 1), k, m);
  }

  function Overwritten(items: seq<Item>, k: nat, m: Message, here: bool): seq<Item> {
    if here then Overwrite(items, k, m) else items
  }

  /** Updating a local bubble is overwriting it where it is shown. */
  lemma {:induction false} OverwriteIsUpdate(next: seq<Message>, inserts: seq<Insert>, k: nat, m: Message, i: nat)
    requires i <= |next| && k < |next|
    ensures Tagged(next[k := m], inserts, i) == Overwritten(Tagged(next, inserts, i), k, m, i <= k)
    decreases |next| - i
  {
    if i < |next| {
      OverwriteIsUpdate(next, inserts, k, m, i + 1);
      EarlierSlotOverwritten(next, inserts, k, m, i);
    }
  }
}
