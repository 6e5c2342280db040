/** One cache folder's files, each real file once (src/dependencies.rs, `keep_first_by_name`). */
module CacheListing {
  import opened Text
  import opened StableSort
  import opened DependencyLoader
  import opened LoaderRanking

  /** A directory entry and the canonical path it resolves to (opaque). */
  datatype Entry = Entry(name: string, canonical: nat)

  function CompareNames(a: Entry, b: Entry): int {
    CompareLists(Codes(a.name), Codes(b.name))
  }

  /** The entries whose canonical path is new, in order. */
  function FirstSeen(entries: seq<Entry>, seen: set<nat>): seq<Entry> {
    if entries == [] then []
    else if entries[0].canonical in seen then FirstSeen(entries[1..], seen)
    else [entries[0]] + FirstSeen(entries[1..], seen + {entries[0].canonical})
  }

  function Canonicals(entries: seq<Entry>): set<nat> {
    set e | e in entries :: e.canonical
  }

  lemma FirstSeenStep(entries: seq<Entry>, n: nat, seen: set<nat>)
    requires n < |entries|
    ensures FirstSeen(entries[n..], seen) ==
              if entries[n].canonical in seen then FirstSeen(entries[n + 1..], seen)
              else [entries[n]] + FirstSeen(entries[n + 1..], seen + {entries[n].canonical})
  {
    assert entries[n..][0] == entries[n] && entries[n..][1..] == entries[n + 1..];
  }

  lemma CanonicalsGrow(entries: seq<Entry>, n: nat)
    requires n < |entries|
    ensures Canonicals(entries[..n + 1]) == Canonicals(entries[..n]) + {entries[n].canonical}
  {
    assert forall x :: x in entries[..n + 1] <==> x in entries[..n] || x == entries[n];
  }

  method KeepNew(sorted: seq<Entry>, seen: set<nat>) returns (kept: seq<Entry>, seen1: set<nat>)
    ensures kept == FirstSeen(sorted, seen) && seen1 == seen + Canonicals(sorted)
  {
    kept, seen1 := [], seen;
    assert sorted[0..] == sorted;
    for n := 0 to |sorted|
      invariant kept + FirstSeen(sorted[n..], seen1) == FirstSeen(sorted, seen)
      invariant seen1 == seen + Canonicals(sorted[..n])
    {
      var e := sorted[n];
      FirstSeenStep(sorted, n, seen1);
      CanonicalsGrow(sorted, n);
      if e.canonical !in seen1 {
        seen1 := seen1 + {e.canonical};
        kept := kept + [e];
      }
    }
    assert sorted[..|sorted|] == sorted;
  }

  method KeepFirstByName(entries: seq<Entry>, seen: set<nat>) returns (kept: seq<Entry>, seen1: set<nat>)
    ensures kept == FirstSeen(SortedBy(CompareNames, entries), seen)
    ensures seen1 == seen + Canonicals(entries)
  {
    var sorted := SortedBy(CompareNames, entries);
    NamesArePreordered();
    SortedBySorts(CompareNames, entries);
    assert forall e: Entry :: e in entries <==> e in multiset(entries);
    assert forall e: Entry :: e in sorted <==> e in multiset(sorted);
    kept, seen1 := KeepNew(sorted, seen);
  }

  lemma NamesArePreordered()
    ensures IsPreorder(CompareNames)
  {
    TuplesArePreordered();
    forall a, b
      ensures Compared(CompareNames, a, b)
    {
      assert Compared(CompareLists, Codes(a.name), Codes(b.name));
    }
    forall a, b, c
      ensures Chained(CompareNames, a, b, c)
    {
      assert Chained(CompareLists, Codes(a.name), Codes(b.name), Codes(c.name));
    }
  }

  lemma SameNames(a: Entry, b: Entry)
    ensures CompareNames(a, b) == 0 <==> a.name == b.name
  {
    SameListIsEqual(Codes(a.name), Codes(b.name));
    assert Codes(a.name) == Codes(b.name) ==> forall i :: 0 <= i < |a.name| ==> Codes(a.name)[i] == Codes(b.name)[i];
  }

  predicate DistinctNames(entries: seq<Entry>) {
    forall i, j :: 0 <= i < j < |entries| ==> entries[i].name != entries[j].name
  }

  lemma {:induction false} ClassIsOne(entries: seq<Entry>, k: Entry)
    requires DistinctNames(entries)
    ensures |Class(CompareNames, k, entries)| <= 1
  {
    if entries != [] {
      var rest, last := entries[..|entries| - 1], entries[|entries| - 1];
      ClassIsOne(rest, k);
      ClassMembers(CompareNames, k, rest);
      var tied := Class(CompareNames, k, rest);
      assert tied != [] ==> tied[0] in rest && CompareNames(tied[0], k) == 0;
      forall e | e in rest
        ensures CompareNames(e, k) != 0 || CompareNames(last, k) != 0
      {
        SameNames(e, k);
        SameNames(last, k);
      }
    }
  }

  lemma {:induction false} SameClass(a: seq<Entry>, b: seq<Entry>, k: Entry)
    requires DistinctNames(a) && DistinctNames(b) && forall e :: e in a <==> e in b
    ensures Class(CompareNames, k, a) == Class(CompareNames, k, b)
  {
    ClassIsOne(a, k);
    ClassIsOne(b, k);
    ClassMembers(CompareNames, k, a);
    ClassMembers(CompareNames, k, b);
    var x, y := Class(CompareNames, k, a), Class(CompareNames, k, b);
    assert x != [] ==> x[0] in y;
    assert y != [] ==> y[0] in x;
  }

  /** The order in which the directory lists its files does not matter. */
  lemma {:induction false} ListingOrderIsIgnored(a: seq<Entry>, b: seq<Entry>, seen: set<nat>)
    requires DistinctNames(a) && DistinctNames(b) && forall e :: e in a <==> e in b
    ensures FirstSeen(SortedBy(CompareNames, a), seen) == FirstSeen(SortedBy(CompareNames, b), seen)
  {
    NamesArePreordered();
    forall k
      ensures Class(CompareNames, k, a) == Class(CompareNames, k, b)
    {
      SameClass(a, b, k);
    }
    SameClassesSortAlike(CompareNames, a, b);
  }

  predicate FirstOf(entries: seq<Entry>, i: nat, seen: set<nat>)
    requires i < |entries|
  {
    entries[i].canonical !in seen && forall j :: 0 <= j < i ==> entries[j].canonical != entries[i].canonical
  }

  lemma {:induction false} KeptAtFirstPlace(entries: seq<Entry>, seen: set<nat>, x: Entry)
    ensures x in FirstSeen(entries, seen) <==>
              exists i :: 0 <= i < |entries| && entries[i] == x && FirstOf(entries, i, seen)
    decreases |entries|
  {
    if entries != [] {
      var rest, c := entries[1..], entries[0].canonical;
      var seen1 := seen + {c};
      KeptAtFirstPlace(rest, seen1, x);
      assert c in seen ==> seen1 == seen;
      assert forall i :: 0 <= i < |rest| ==> (FirstOf(rest, i, seen1) <==> FirstOf(entries, i + 1, seen)) by {
        forall i | 0 <= i < |rest|
          ensures FirstOf(rest, i, seen1) <==> FirstOf(entries, i + 1, seen)
        {
          assert FirstOf(entries, i + 1, seen) ==> entries[0].canonical != entries[i + 1].canonical;
          assert forall j :: 0 <= j < i ==> rest[j] == entries[j + 1];
        }
      }
      if exists i :: 0 <= i < |rest| && rest[i] == x && FirstOf(rest, i, seen1) {
        var i :| 0 <= i < |rest| && rest[i] == x && FirstOf(rest, i, seen1);
        assert entries[i + 1] == x && FirstOf(entries, i + 1, seen);
      }
      if exists i :: 0 <= i < |entries| && entries[i] == x && FirstOf(entries, i, seen) {
        var i :| 0 <= i < |entries| && entries[i] == x && FirstOf(entries, i, seen);
        assert i > 0 ==> rest[i - 1] == x && FirstOf(rest, i - 1, seen1);
      }
      assert FirstOf(entries, 0, seen) <==> c !in seen;
    }
  }

  lemma NameOrderMeans(a: Entry, b: Entry)
    ensures CompareNames(a, b) <= 0 <==> a.name == b.name || TextBefore(a.name, b.name)
    ensures CompareNames(b, a) <= 0 ==> !TextBefore(a.name, b.name)
  {
    NamesArePreordered();
    assert Compared(CompareNames, a, b);
    TextsMean(a.name, b.name);
  }

  /** Of the names of one real file this is the first. */
  ghost predicate FirstName(entries: seq<Entry>, x: Entry) {
    x in entries &&
    forall y :: y in entries && y.canonical == x.canonical && y != x ==> TextBefore(x.name, y.name)
  }

  lemma FirstPlaceIsFirstName(entries: seq<Entry>, sorted: seq<Entry>, seen: set<nat>, x: Entry)
    requires DistinctNames(entries) && forall e :: e in entries <==> e in sorted
    requires forall i, j :: 0 <= i < j < |sorted| ==> CompareNames(sorted[i], sorted[j]) <= 0
    ensures (exists i :: 0 <= i < |sorted| && sorted[i] == x && FirstOf(sorted, i, seen)) <==>
              FirstName(entries, x) && x.canonical !in seen
  {
    if i :| 0 <= i < |sorted| && sorted[i] == x && FirstOf(sorted, i, seen) {
      forall y | y in entries && y.canonical == x.canonical && y != x
        ensures TextBefore(x.name, y.name)
      {
        var j :| 0 <= j < |sorted| && sorted[j] == y;
        NameOrderMeans(x, y);
      }
    }
    if FirstName(entries, x) && x.canonical !in seen {
      var i := FirstIndex(sorted, x);
      forall j | 0 <= j < i
        ensures sorted[j].canonical != x.canonical
      {
        NameOrderMeans(x, sorted[j]);
      }
      assert FirstOf(sorted, i, seen);
    }
  }

  function FirstIndex(entries: seq<Entry>, x: Entry): (i: nat)
    requires x in entries
    ensures i < |entries| && entries[i] == x && x !in entries[..i]
  {
    if entries[0] == x then 0 else 1 + FirstIndex(entries[1..], x)
  }

  /** Main result: kept are exactly the first names of the real files not seen before, in the
      order of their names, each file once. */
  lemma {:induction false} KeptUnderFirstName(entries: seq<Entry>, seen: set<nat>, x: Entry)
    requires DistinctNames(entries)
    ensures var kept := FirstSeen(SortedBy(CompareNames, entries), seen);
            && (x in kept <==> FirstName(entries, x) && x.canonical !in seen)
            && forall i, j :: 0 <= i < j < |kept| ==>
                 kept[i].canonical != kept[j].canonical && TextBefore(kept[i].name, kept[j].name)
  {
    var sorted := SortedBy(CompareNames, entries);
    NamesArePreordered();
    SortedBySorts(CompareNames, entries);
    assert forall e: Entry :: e in entries <==> e in multiset(entries);
    assert forall e: Entry :: e in sorted <==> e in multiset(sorted);
    KeptAtFirstPlace(sorted, seen, x);
    FirstPlaceIsFirstName(entries, sorted, seen, x);
    KeptInOrder(sorted, seen);
    var kept := FirstSeen(sorted, seen);
    forall i, j | 0 <= i < j < |kept|
      ensures kept[i].canonical != kept[j].canonical && TextBefore(kept[i].name, kept[j].name)
    {
      NameOrderMeans(kept[i], kept[j]);
      assert kept[i] in sorted && kept[j] in sorted;
    }
  }

  lemma {:induction false} KeptInOrder(sorted: seq<Entry>, seen: set<nat>)
    requires forall i, j :: 0 <= i < j < |sorted| ==> CompareNames(sorted[i], sorted[j]) <= 0
    ensures var kept := FirstSeen(sorted, seen);
            && (forall e :: e in kept ==> e in sorted && e.canonical !in seen)
            && forall i, j :: 0 <= i < j < |kept| ==>
                 kept[i].canonical != kept[j].canonical && CompareNames(kept[i], kept[j]) <= 0
    decreases |sorted|
  {
    if sorted != [] {
      var rest, c := sorted[1..], sorted[0].canonical;
      KeptInOrder(rest, seen);
      KeptInOrder(rest, seen + {c});
      assert forall e :: e in rest ==> CompareNames(sorted[0], e) <= 0;
      var kept := FirstSeen(rest, seen + {c});
      assert forall j :: 0 <= j < |kept| ==> kept[j] in kept;
    }
  }
}
