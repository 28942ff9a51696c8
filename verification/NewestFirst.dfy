/** The stable in-place insertion that orders table rows newest first, and what the ordered
    list is. */
module NewestFirst {

  // --- The order ------------------------------------------------------------------------

  /** What the selection looks at in one table row. */
  datatype Key = Key(eligible: bool, seen: int)

  datatype Entry = Entry(index: nat, seen: int)

  predicate Precedes(a: Entry, b: Entry) {
    a.seen > b.seen || (a.seen == b.seen && a.index < b.index)
  }

  ghost predicate Ordered(list: seq<Entry>) {
    forall j, k :: 0 <= j < k < |list| ==> Precedes(list[j], list[k])
  }

  predicate Drawn(e: Entry, rows: seq<Key>) {
    e.index < |rows| && rows[e.index].eligible && rows[e.index].seen == e.seen
  }

  predicate Listed(list: seq<Entry>, i: nat) {
    exists k :: 0 <= k < |list| && list[k].index == i
  }

  /** Newest first, ties in table order, holding exactly the eligible rows, each once. */
  ghost predicate IsNewestFirst(list: seq<Entry>, rows: seq<Key>) {
    && Ordered(list)
    && (forall k :: 0 <= k < |list| ==> Drawn(list[k], rows))
    && (forall i :: 0 <= i < |rows| && rows[i].eligible ==> Listed(list, i))
  }

  /** There is only one such list. */
  lemma {:induction false} NewestFirstIsUnique(a: seq<Entry>, b: seq<Entry>, rows: seq<Key>)
    requires IsNewestFirst(a, rows) && IsNewestFirst(b, rows)
    ensures a == b
  {
    SameEntries(a, b, rows);
    SameEntries(b, a, rows);
    OrderedWithSameEntries(a, b);
  }

  lemma {:induction false} SameEntries(a: seq<Entry>, b: seq<Entry>, rows: seq<Key>)
    requires IsNewestFirst(a, rows) && IsNewestFirst(b, rows)
    ensures forall e :: e in a ==> e in b
  {
    forall e | e in a
      ensures e in b
    {
      assert Drawn(e, rows);
      assert Listed(b, e.index);
      var k :| 0 <= k < |b| && b[k].index == e.index;
      assert Drawn(b[k], rows) && b[k] == e;
    }
  }

  lemma {:induction false} HasMember(a: seq<Entry>)
    requires |a| > 0
    ensures exists e :: e in a
  {
    assert a[0] in a;
  }

  lemma {:induction false} OrderedWithSameEntries(a: seq<Entry>, b: seq<Entry>)
    requires Ordered(a) && Ordered(b)
    requires (forall e :: e in a ==> e in b) && (forall e :: e in b ==> e in a)
    ensures a == b
  {
    if |a| == 0 {
      if |b| > 0 {
        HasMember(b);
      }
    } else if |b| == 0 {
      HasMember(a);
    } else {
      assert a[0] in b;
      assert b[0] in a;
      assert a[0] == b[0];
      forall e | e in a[1..]
        ensures e in b[1..]
      {
        assert Precedes(a[0], e) && e in a;
      }
      forall e | e in b[1..]
        ensures e in a[1..]
      {
        assert Precedes(b[0], e) && e in b;
      }
      OrderedWithSameEntries(a[1..], b[1..]);
      assert a == [a[0]] + a[1..] && b == [b[0]] + b[1..];
    }
  }

  // --- The insertion --------------------------------------------------------------------

  /** The place the insertion stops at, coming from the end: behind the last entry that is
      at least as new. */
  function Place(list: seq<Entry>, seen: int): (p: nat)
    ensures p <= |list|
    ensures forall k :: p <= k < |list| ==> list[k].seen < seen
    ensures p > 0 ==> list[p - 1].seen >= seen
  {
    if |list| == 0 || list[|list| - 1].seen >= seen then |list| else Place(list[..|list| - 1], seen)
  }

  function Inserted(list: seq<Entry>, e: Entry): seq<Entry> {
    var p := Place(list, e.seen);
    list[..p] + [e] + list[p..]
  }

  function Ranked(rows: seq<Key>): seq<Entry> {
    if |rows| == 0 then []
    else
      var i := |rows| - 1;
      if rows[i].eligible then Inserted(Ranked(rows[..i]), Entry(i, rows[i].seen)) else Ranked(rows[..i])
  }

  /** The two arrays hold `list` in their first places. */
  ghost predicate Holds(indices: array<int>, times: array<int>, list: seq<Entry>)
    reads indices, times
  {
    && |list| <= indices.Length && |list| <= times.Length
    && forall k :: 0 <= k < |list| ==> indices[k] == list[k].index && times[k] == list[k].seen
  }

  predicate AllOlder(list: seq<Entry>, p: nat, seen: int) {
    forall k :: p <= k < |list| ==> list[k].seen < seen
  }

  lemma {:induction false} PlaceIsLastNewer(list: seq<Entry>, seen: int, p: nat)
    requires p <= |list|
    requires AllOlder(list, p, seen)
    requires p > 0 ==> list[p - 1].seen >= seen
    ensures Place(list, seen) == p
  {
    if p < |list| {
      PlaceIsLastNewer(list[..|list| - 1], seen, p);
    }
  }

  lemma {:induction false} InsertedAt(list: seq<Entry>, e: Entry, p: nat)
    requires Place(list, e.seen) == p
    ensures var after := Inserted(list, e);
            && |after| == |list| + 1
            && (forall k :: 0 <= k < p ==> after[k] == list[k])
            && after[p] == e
            && (forall k :: p < k <= |list| ==> after[k] == list[k - 1])
  {
  }

  /** The arrays hold `list` with a hole at `pos`: what came from there on sits one place later. */
  ghost predicate Holed(indices: array<int>, times: array<int>, list: seq<Entry>, pos: nat)
    reads indices, times
  {
    && pos <= |list| < indices.Length && |list| < times.Length
    && (forall k :: 0 <= k < pos ==> indices[k] == list[k].index && times[k] == list[k].seen)
    && (forall k :: pos < k <= |list| ==> indices[k] == list[k - 1].index && times[k] == list[k - 1].seen)
  }

  lemma {:induction false} FilledHoleHolds(indices: array<int>, times: array<int>, list: seq<Entry>, e: Entry)
    requires Holed(indices, times, list, Place(list, e.seen))
    requires indices[Place(list, e.seen)] == e.index && times[Place(list, e.seen)] == e.seen
    ensures Holds(indices, times, Inserted(list, e))
  {
    InsertedAt(list, e, Place(list, e.seen));
  }

  method Insert(indices: array<int>, times: array<int>, n: nat, index: nat, seen: int, ghost list: seq<Entry>)
    requires indices != times && n < indices.Length && n < times.Length
    requires Holds(indices, times, list) && |list| == n
    modifies indices, times
    ensures Holds(indices, times, Inserted(list, Entry(index, seen)))
  {
    var pos := n;
    while pos > 0 && times[pos - 1] < seen
      invariant 0 <= pos <= n
      invariant AllOlder(list, pos, seen)
      invariant Holed(indices, times, list, pos)
    {
      indices[pos] := indices[pos - 1];
      times[pos] := times[pos - 1];
      pos := pos - 1;
    }
    indices[pos] := index;
    times[pos] := seen;
    assert Holed(indices, times, list, pos);
    PlaceIsLastNewer(list, seen, pos);
    FilledHoleHolds(indices, times, list, Entry(index, seen));
  }

  lemma {:induction false} InsertedKeepsOrder(list: seq<Entry>, e: Entry)
    requires Ordered(list) && forall k :: 0 <= k < |list| ==> list[k].index < e.index
    ensures Ordered(Inserted(list, e))
  {
    var p, after := Place(list, e.seen), Inserted(list, e);
    forall j, k | 0 <= j < k < |after|
      ensures Precedes(after[j], after[k])
    {
      if j < p && p > 0 && j != p - 1 {
        assert Precedes(list[j], list[p - 1]);
      }
      if k > p && p < |list| && k - 1 != p {
        assert Precedes(list[p], list[k - 1]);
      }
    }
  }

  lemma {:induction false} InsertedKeepsEntries(list: seq<Entry>, e: Entry)
    ensures forall x :: x in Inserted(list, e) <==> x in list || x == e
  {
    var p, after := Place(list, e.seen), Inserted(list, e);
    assert list == list[..p] + list[p..];
    forall x
      ensures x in after <==> x in list || x == e
    {
    }
  }

  /** Inserting the eligible rows one after the other yields the newest-first list. */
  lemma {:induction false} RankedIsNewestFirst(rows: seq<Key>)
    ensures IsNewestFirst(Ranked(rows), rows)
  {
    if |rows| > 0 {
      var i := |rows| - 1;
      var before, list := rows[..i], Ranked(rows[..i]);
      RankedIsNewestFirst(before);
      assert forall k :: 0 <= k < |list| ==> Drawn(list[k], before);
      if rows[i].eligible {
        var e := Entry(i, rows[i].seen);
        InsertedKeepsOrder(list, e);
        InsertedKeepsEntries(list, e);
        ListedAfterInsertion(list, e, rows);
      }
    }
  }

  lemma {:induction false} ListedAfterInsertion(list: seq<Entry>, e: Entry, rows: seq<Key>)
    requires |rows| > 0 && e == Entry(|rows| - 1, rows[|rows| - 1].seen) && rows[|rows| - 1].eligible
    requires forall k :: 0 <= k < |list| ==> Drawn(list[k], rows[..|rows| - 1])
    requires forall i :: 0 <= i < |rows| - 1 && rows[i].eligible ==> Listed(list, i)
    requires forall x :: x in Inserted(list, e) <==> x in list || x == e
    ensures forall k :: 0 <= k < |Inserted(list, e)| ==> Drawn(Inserted(list, e)[k], rows)
    ensures forall i :: 0 <= i < |rows| && rows[i].eligible ==> Listed(Inserted(list, e), i)
  {
    var after := Inserted(list, e);
    forall k | 0 <= k < |after|
      ensures Drawn(after[k], rows)
    {
      assert after[k] in after;
    }
    forall i | 0 <= i < |rows| && rows[i].eligible
      ensures Listed(after, i)
    {
      if i == |rows| - 1 {
        assert e in after;
      } else {
        assert Listed(list, i);
        var k :| 0 <= k < |list| && list[k].index == i;
        assert list[k] in after;
      }
    }
  }

  /** Nothing eligible is lost unless the room runs out, and what is lost then is no newer
      than anything kept. */
  lemma {:induction false} CutLosesOnlyTheOldest(rows: seq<Key>, capacity: nat, i: nat)
    requires i < |rows| && rows[i].eligible
    ensures var list := Ranked(rows);
            var kept := if |list| > capacity then list[..capacity] else list;
            !Listed(kept, i) ==> |kept| == capacity && forall k :: 0 <= k < |kept| ==> Precedes(kept[k], Entry(i, rows[i].seen))
  {
    RankedIsNewestFirst(rows);
    var list := Ranked(rows);
    assert Listed(list, i);
    var k :| 0 <= k < |list| && list[k].index == i;
    assert Drawn(list[k], rows) && list[k] == Entry(i, rows[i].seen);
    if |list| > capacity && k < capacity {
      assert list[..capacity][k].index == i;
    }
  }

  /** `shown` is the newest-first list of `rows`, cut to `capacity`. */
  ghost predicate Selection(shown: seq<Entry>, rows: seq<Key>, capacity: nat) {
    exists list :: IsNewestFirst(list, rows) && shown == (if |list| > capacity then list[..capacity] else list)
  }

  lemma {:induction false} RankedNext(rows: seq<Key>, i: nat)
    requires i < |rows|
    ensures Ranked(rows[..i + 1]) == if rows[i].eligible then Inserted(Ranked(rows[..i]), Entry(i, rows[i].seen))
                                     else Ranked(rows[..i])
    ensures |Ranked(rows[..i + 1])| == |Ranked(rows[..i])| + if rows[i].eligible then 1 else 0
  {
    assert rows[..i + 1][..i] == rows[..i];
  }

  lemma {:induction false} SelectionIsCut(rows: seq<Key>, capacity: nat)
    ensures var list := Ranked(rows);
            var shown := if |list| > capacity then list[..capacity] else list;
            Selection(shown, rows, capacity) && forall k :: 0 <= k < |shown| ==> Drawn(shown[k], rows)
  {
    RankedIsNewestFirst(rows);
  }
}
