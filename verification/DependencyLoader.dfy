/** Which copy of each dependency is loaded (src/dependencies.rs): grouping by GUID through a
    hash map, loading each group best-first with fallback, and the final sort. */
module DependencyLoader {
  import opened Wrappers
  import opened StableSort
  import opened Versions

  /** A discovered `.app` with the identity of its manifest; the path by components. */
  datatype App = App(path: seq<string>, id: string, name: string, publisher: string, version: string)

  /** A duplicate set aside for the copy that was kept. */
  datatype Dropped = Dropped(winner: App, loser: App)

  /** `unreadable`: the best copy of each group no copy of which could be read. */
  datatype Report = Report(kept: seq<App>, dropped: seq<Dropped>, unreadable: seq<App>)

  // ---- the comparisons -------------------------------------------------------------

  function Lex<T(!new)>(cmp: Comparator<T>, a: seq<T>, b: seq<T>): int {
    if a == [] then (if b == [] then 0 else -1)
    else if b == [] then 1
    else if cmp(a[0], b[0]) != 0 then cmp(a[0], b[0])
    else Lex(cmp, a[1..], b[1..])
  }

  function Codes(s: string): (r: seq<nat>)
    ensures |r| == |s| && forall i :: 0 <= i < |s| ==> r[i] == s[i] as nat
  {
    seq(|s|, i requires 0 <= i < |s| => s[i] as nat)
  }

  function CompareNats(a: nat, b: nat): int {
    a - b
  }

  function CompareLists(a: seq<nat>, b: seq<nat>): int {
    Lex(CompareNats, a, b)
  }

  function CompareTuples(a: seq<seq<nat>>, b: seq<seq<nat>>): int {
    Lex(CompareLists, a, b)
  }

  function PathKey(path: seq<string>): seq<seq<nat>> {
    seq(|path|, i requires 0 <= i < |path| => Codes(path[i]))
  }

  /** The order within a group: highest version first, then the path. */
  function RankApps(a: App, b: App): int {
    var byVersion := CompareVersions(a.version, b.version);
    if byVersion != 0 then byVersion else CompareTuples(PathKey(a.path), PathKey(b.path))
  }

  /** The key of the final sort; here version parts compare without padding. */
  function SortKey(a: App): seq<seq<nat>> {
    [Codes(a.id), Codes(a.name), Codes(a.publisher), ParseVersion(a.version)]
  }

  function CompareKeys(a: App, b: App): int {
    CompareTuples(SortKey(a), SortKey(b))
  }

  lemma {:induction false} LexCompared<T(!new)>(cmp: Comparator<T>, a: seq<T>, b: seq<T>)
    requires IsPreorder(cmp)
    ensures Lex(cmp, a, b) <= 0 || Lex(cmp, b, a) <= 0
    ensures Lex(cmp, a, b) == 0 <==> Lex(cmp, a, b) <= 0 && Lex(cmp, b, a) <= 0
  {
    if a != [] && b != [] {
      assert Compared(cmp, a[0], b[0]) && Compared(cmp, b[0], a[0]);
      LexCompared(cmp, a[1..], b[1..]);
    }
  }

  lemma {:induction false} LexChained<T(!new)>(cmp: Comparator<T>, a: seq<T>, b: seq<T>, c: seq<T>)
    requires IsPreorder(cmp) && Lex(cmp, a, b) <= 0 && Lex(cmp, b, c) <= 0
    ensures Lex(cmp, a, c) <= 0
  {
    if a != [] && b != [] && c != [] {
      assert Compared(cmp, a[0], b[0]) && Compared(cmp, b[0], c[0]) && Compared(cmp, a[0], c[0]);
      assert Chained(cmp, a[0], b[0], c[0]) && Chained(cmp, c[0], a[0], b[0]) && Chained(cmp, b[0], c[0], a[0]);
      if cmp(a[0], b[0]) == 0 && cmp(b[0], c[0]) == 0 {
        assert Chained(cmp, c[0], b[0], a[0]) && Compared(cmp, b[0], a[0]) && Compared(cmp, c[0], b[0]);
        LexChained(cmp, a[1..], b[1..], c[1..]);
      }
    }
  }

  lemma TuplesArePreordered()
    ensures IsPreorder(CompareLists) && IsPreorder(CompareTuples)
  {
    assert IsPreorder(CompareNats);
    forall a, b
      ensures Compared(CompareLists, a, b)
    {
      LexCompared(CompareNats, a, b);
    }
    forall a, b, c
      ensures Chained(CompareLists, a, b, c)
    {
      if CompareLists(a, b) <= 0 && CompareLists(b, c) <= 0 {
        LexChained(CompareNats, a, b, c);
      }
    }
    forall a, b
      ensures Compared(CompareTuples, a, b)
    {
      LexCompared(CompareLists, a, b);
    }
    forall a, b, c
      ensures Chained(CompareTuples, a, b, c)
    {
      if CompareTuples(a, b) <= 0 && CompareTuples(b, c) <= 0 {
        LexChained(CompareLists, a, b, c);
      }
    }
  }

  /** Both comparators are total preorders, as `sort_by` requires. */
  lemma AppsArePreordered()
    ensures IsPreorder(RankApps) && IsPreorder(CompareKeys)
  {
    TuplesArePreordered();
    VersionsArePreordered();
    forall a, b
      ensures Compared(CompareKeys, a, b)
    {
      assert Compared(CompareTuples, SortKey(a), SortKey(b));
    }
    forall a, b, c
      ensures Chained(CompareKeys, a, b, c)
    {
      assert Chained(CompareTuples, SortKey(a), SortKey(b), SortKey(c));
    }
    forall a, b
      ensures Compared(RankApps, a, b)
    {
      assert Compared(CompareVersions, a.version, b.version) && Compared(CompareVersions, b.version, a.version);
      assert Compared(CompareTuples, PathKey(a.path), PathKey(b.path));
    }
    forall a, b, c
      ensures Chained(RankApps, a, b, c)
    {
      RankChained(a, b, c);
    }
  }

  lemma RankChained(a: App, b: App, c: App)
    requires IsPreorder(CompareTuples) && IsPreorder(CompareVersions)
    ensures Chained(RankApps, a, b, c)
  {
    var (x, y, z) := (a.version, b.version, c.version);
    assert Compared(CompareVersions, x, y) && Compared(CompareVersions, y, z) && Compared(CompareVersions, x, z);
    assert Compared(CompareVersions, y, x) && Compared(CompareVersions, z, y);
    assert Chained(CompareVersions, x, y, z) && Chained(CompareVersions, z, x, y) && Chained(CompareVersions, y, z, x);
    assert Chained(CompareVersions, z, y, x);
    assert Chained(CompareTuples, PathKey(a.path), PathKey(b.path), PathKey(c.path));
  }

  lemma {:induction false} SameListIsEqual(a: seq<nat>, b: seq<nat>)
    ensures CompareLists(a, b) == 0 <==> a == b
  {
    if a != [] && b != [] {
      SameListIsEqual(a[1..], b[1..]);
      assert a == [a[0]] + a[1..] && b == [b[0]] + b[1..];
    }
  }

  lemma SameKeySameId(a: App, b: App)
    requires CompareKeys(a, b) == 0
    ensures a.id == b.id
  {
    SameListIsEqual(Codes(a.id), Codes(b.id));
    assert SortKey(a)[0] == Codes(a.id) && SortKey(b)[0] == Codes(b.id);
    assert forall i :: 0 <= i < |a.id| ==> Codes(a.id)[i] == a.id[i] as nat;
  }

  // ---- the groups ------------------------------------------------------------------------

  /** Apps without a GUID are never merged: each is its own group. */
  function Singles(apps: seq<App>): seq<seq<App>> {
    if apps == [] then []
    else
      var last := apps[|apps| - 1];
      Singles(apps[..|apps| - 1]) + (if last.id == "" then [[last]] else [])
  }

  function OfGuid(apps: seq<App>, guid: string): seq<App> {
    if apps == [] then []
    else
      var last := apps[|apps| - 1];
      OfGuid(apps[..|apps| - 1], guid) + (if last.id == guid then [last] else [])
  }

  function Guids(apps: seq<App>): set<string> {
    set a | a in apps && a.id != "" :: a.id
  }

  /** `order` is one order in which a hash map may yield the GUIDs. */
  predicate IsOrder(order: seq<string>, guids: set<string>) {
    && (forall i, j :: 0 <= i < j < |order| ==> order[i] != order[j])
    && (forall g :: g in order ==> g in guids)
    && (forall g :: g in guids ==> g in order)
  }

  function Ranked(apps: seq<App>, guid: string): seq<App> {
    SortedBy(RankApps, OfGuid(apps, guid))
  }

  function RankedAll(apps: seq<App>, order: seq<string>): seq<seq<App>> {
    if order == [] then []
    else RankedAll(apps, order[..|order| - 1]) + [Ranked(apps, order[|order| - 1])]
  }

  function Groups(apps: seq<App>, order: seq<string>): seq<seq<App>> {
    Singles(apps) + RankedAll(apps, order)
  }

  method Bucket(apps: seq<App>) returns (singles: seq<seq<App>>, byGuid: map<string, seq<App>>)
    ensures singles == Singles(apps) && byGuid.Keys == Guids(apps)
    ensures forall g :: g in byGuid ==> byGuid[g] == OfGuid(apps, g)
  {
    byGuid := map[];
    singles := [];
    for n := 0 to |apps|
      invariant singles == Singles(apps[..n])
      invariant byGuid.Keys == Guids(apps[..n])
      invariant forall g :: g in byGuid ==> byGuid[g] == OfGuid(apps[..n], g)
    {
      var app := apps[n];
      assert apps[..n + 1][..n] == apps[..n];
      GuidsGrow(apps, n);
      if app.id == "" {
        singles := singles + [[app]];
      } else {
        NoneOfGuid(apps[..n], app.id);
        byGuid := byGuid[app.id := (if app.id in byGuid then byGuid[app.id] else []) + [app]];
      }
    }
    assert apps[..|apps|] == apps;
  }

  /** `group_discovered_by_guid`; the order the map yields is anyone's guess. */
  method GroupByGuid(apps: seq<App>) returns (groups: seq<seq<App>>)
    ensures exists order :: IsOrder(order, Guids(apps)) && groups == Groups(apps, order)
  {
    var byGuid;
    groups, byGuid := Bucket(apps);
    ghost var order: seq<string> := [];
    var left := byGuid.Keys;
    while left != {}
      invariant left <= Guids(apps) && IsOrder(order, Guids(apps) - left)
      invariant groups == Groups(apps, order)
      decreases |left|
    {
      var guid: string :| guid in left;
      left := left - {guid};
      groups := groups + [SortedBy(RankApps, byGuid[guid])];
      OrderGrows(apps, order, guid);
      order := order + [guid];
    }
    assert IsOrder(order, Guids(apps));
  }

  lemma OrderGrows(apps: seq<App>, order: seq<string>, guid: string)
    ensures Groups(apps, order + [guid]) == Groups(apps, order) + [Ranked(apps, guid)]
  {
    assert (order + [guid])[..|order|] == order;
  }

  lemma GuidsGrow(apps: seq<App>, n: nat)
    requires n < |apps|
    ensures Guids(apps[..n + 1]) == Guids(apps[..n]) + if apps[n].id == "" then {} else {apps[n].id}
  {
    assert forall a :: a in apps[..n + 1] <==> a in apps[..n] || a == apps[n];
  }

  lemma {:induction false} NoneOfGuid(apps: seq<App>, guid: string)
    ensures guid != "" && guid !in Guids(apps) ==> OfGuid(apps, guid) == []
    ensures forall a :: a in OfGuid(apps, guid) <==> a in apps && a.id == guid
  {
    if apps != [] {
      NoneOfGuid(apps[..|apps| - 1], guid);
      GuidsGrow(apps, |apps| - 1);
      assert apps[..|apps|] == apps;
      assert forall a :: a in apps <==> a in apps[..|apps| - 1] || a == apps[|apps| - 1];
    }
  }

  // ---- loading ---------------------------------------------------------------------------

  /** Whether the symbols of an app can be extracted. */
  type Loads = App -> bool

  /** The index of the first copy that loads, or the group's length. */
  function FirstLoading(group: seq<App>, loads: Loads): (i: nat)
    ensures i <= |group| && (forall j :: 0 <= j < i ==> !loads(group[j])) && (i < |group| ==> loads(group[i]))
  {
    if group == [] || loads(group[0]) then 0 else 1 + FirstLoading(group[1..], loads)
  }

  function KeptOf(group: seq<App>, loads: Loads): seq<App> {
    var i := FirstLoading(group, loads);
    if i < |group| then [group[i]] else []
  }

  function Behind(winner: App, losers: seq<App>): seq<Dropped> {
    if losers == [] then [] else Behind(winner, losers[..|losers| - 1]) + [Dropped(winner, losers[|losers| - 1])]
  }

  function DroppedOf(group: seq<App>, loads: Loads): seq<Dropped> {
    var i := FirstLoading(group, loads);
    if i < |group| then Behind(group[i], group[i + 1..]) else []
  }

  function UnreadableOf(group: seq<App>, loads: Loads): seq<App> {
    if group != [] && FirstLoading(group, loads) == |group| then [group[0]] else []
  }

  function AllKept(groups: seq<seq<App>>, loads: Loads): seq<App> {
    if groups == [] then [] else AllKept(groups[..|groups| - 1], loads) + KeptOf(groups[|groups| - 1], loads)
  }

  function AllDropped(groups: seq<seq<App>>, loads: Loads): seq<Dropped> {
    if groups == [] then [] else AllDropped(groups[..|groups| - 1], loads) + DroppedOf(groups[|groups| - 1], loads)
  }

  function AllUnreadable(groups: seq<seq<App>>, loads: Loads): seq<App> {
    if groups == [] then []
    else AllUnreadable(groups[..|groups| - 1], loads) + UnreadableOf(groups[|groups| - 1], loads)
  }

  /** What `load_all_apps_from` returns when the hash map yields the GUIDs in `order`. */
  function Loaded(apps: seq<App>, loads: Loads, order: seq<string>): Report {
    var groups := Groups(apps, order);
    Report(SortedBy(CompareKeys, AllKept(groups, loads)), AllDropped(groups, loads), AllUnreadable(groups, loads))
  }

  method LoadGroup(group: seq<App>, loads: Loads) returns (kept: seq<App>, dropped: seq<Dropped>, unreadable: seq<App>)
    ensures kept == KeptOf(group, loads) && dropped == DroppedOf(group, loads) &&
              unreadable == UnreadableOf(group, loads)
  {
    kept, dropped, unreadable := [], [], [];
    var winner: Option<nat> := None;
    for i := 0 to |group|
      invariant winner.None? && kept == [] && forall j :: 0 <= j < i ==> !loads(group[j])
    {
      if loads(group[i]) {
        kept := [group[i]];
        winner := Some(i);
        break;
      }
    }
    if winner.None? {
      if group != [] {
        unreadable := [group[0]];
      }
      return;
    }
    var first := winner.value + 1;
    for i := first to |group|
      invariant dropped == Behind(group[winner.value], group[first..i])
    {
      assert group[first..i + 1][..i - first] == group[first..i];
      dropped := dropped + [Dropped(group[winner.value], group[i])];
    }
    assert group[first..|group|] == group[first..];
  }

  method LoadGroups(groups: seq<seq<App>>, loads: Loads)
    returns (kept: seq<App>, dropped: seq<Dropped>, unreadable: seq<App>)
    ensures kept == AllKept(groups, loads) && dropped == AllDropped(groups, loads)
    ensures unreadable == AllUnreadable(groups, loads)
  {
    kept, dropped, unreadable := [], [], [];
    for n := 0 to |groups|
      invariant kept == AllKept(groups[..n], loads)
      invariant dropped == AllDropped(groups[..n], loads)
      invariant unreadable == AllUnreadable(groups[..n], loads)
    {
      assert groups[..n + 1][..n] == groups[..n];
      var k, d, u := LoadGroup(groups[n], loads);
      kept, dropped, unreadable := kept + k, dropped + d, unreadable + u;
    }
    assert groups[..|groups|] == groups;
  }

  // ---- the loaded list does not depend on the hash map --------------------------------------

  lemma {:induction false} AllKeptConcat(a: seq<seq<App>>, b: seq<seq<App>>, loads: Loads)
    ensures AllKept(a + b, loads) == AllKept(a, loads) + AllKept(b, loads)
  {
    if b == [] {
      assert a + b == a;
    } else {
      assert (a + b)[..|a + b| - 1] == a + b[..|b| - 1];
      AllKeptConcat(a, b[..|b| - 1], loads);
    }
  }

  lemma RankedMembers(apps: seq<App>, guid: string)
    ensures forall a :: a in Ranked(apps, guid) <==> a in apps && a.id == guid
    ensures IsSorted(RankApps, Ranked(apps, guid)) && multiset(Ranked(apps, guid)) == multiset(OfGuid(apps, guid))
  {
    AppsArePreordered();
    var ofGuid := OfGuid(apps, guid);
    NoneOfGuid(apps, guid);
    SortedBySorts(RankApps, ofGuid);
    assert forall a: App :: a in Ranked(apps, guid) <==> a in multiset(Ranked(apps, guid));
    assert forall a: App :: a in ofGuid <==> a in multiset(ofGuid);
  }

  /** Among the kept apps of the GUID groups, those that tie with `k` are at most the one of
      `k`'s own group. */
  lemma {:induction false} KeptClass(apps: seq<App>, loads: Loads, order: seq<string>, k: App)
    requires forall i, j :: 0 <= i < j < |order| ==> order[i] != order[j]
    ensures Class(CompareKeys, k, AllKept(RankedAll(apps, order), loads)) ==
              if k.id in order then Class(CompareKeys, k, KeptOf(Ranked(apps, k.id), loads)) else []
  {
    if order != [] {
      var rest, last := order[..|order| - 1], order[|order| - 1];
      KeptClass(apps, loads, rest, k);
      var kept := KeptOf(Ranked(apps, last), loads);
      ClassOfConcat(CompareKeys, k, AllKept(RankedAll(apps, rest), loads), kept);
      RankedCount(apps, order);
      assert RankedAll(apps, order)[..|order| - 1] == RankedAll(apps, rest);
      assert forall g :: g in order <==> g in rest || g == last;
      OtherIds(apps, loads, last, k);
    }
  }

  lemma {:induction false} RankedCount(apps: seq<App>, order: seq<string>)
    ensures |RankedAll(apps, order)| == |order|
  {
    if order != [] {
      RankedCount(apps, order[..|order| - 1]);
    }
  }

  lemma OtherIds(apps: seq<App>, loads: Loads, guid: string, k: App)
    ensures k.id != guid ==> Class(CompareKeys, k, KeptOf(Ranked(apps, guid), loads)) == []
  {
    var kept := KeptOf(Ranked(apps, guid), loads);
    RankedMembers(apps, guid);
    ClassMembers(CompareKeys, k, kept);
    forall x | x in Class(CompareKeys, k, kept)
      ensures x.id == guid && x.id == k.id
    {
      SameKeySameId(x, k);
    }
    if Class(CompareKeys, k, kept) != [] {
      assert Class(CompareKeys, k, kept)[0] in Class(CompareKeys, k, kept);
    }
  }

  /** Main result: whatever order the hash map yields, the loaded list is the same. */
  lemma KeptIgnoresHashOrder(apps: seq<App>, loads: Loads, order1: seq<string>, order2: seq<string>)
    requires IsOrder(order1, Guids(apps)) && IsOrder(order2, Guids(apps))
    ensures Loaded(apps, loads, order1).kept == Loaded(apps, loads, order2).kept
  {
    var kept1, kept2 := AllKept(Groups(apps, order1), loads), AllKept(Groups(apps, order2), loads);
    AppsArePreordered();
    forall k
      ensures Class(CompareKeys, k, kept1) == Class(CompareKeys, k, kept2)
    {
      ClassOfKept(apps, loads, order1, k);
      ClassOfKept(apps, loads, order2, k);
    }
    SameClassesSortAlike(CompareKeys, kept1, kept2);
  }

  lemma ClassOfKept(apps: seq<App>, loads: Loads, order: seq<string>, k: App)
    requires IsOrder(order, Guids(apps))
    ensures Class(CompareKeys, k, AllKept(Groups(apps, order), loads)) ==
              Class(CompareKeys, k, AllKept(Singles(apps), loads))
              + if k.id in Guids(apps) then Class(CompareKeys, k, KeptOf(Ranked(apps, k.id), loads)) else []
  {
    AllKeptConcat(Singles(apps), RankedAll(apps, order), loads);
    ClassOfConcat(CompareKeys, k, AllKept(Singles(apps), loads), AllKept(RankedAll(apps, order), loads));
    KeptClass(apps, loads, order, k);
  }

  /** Phases 2 and 3 of `load_all_apps_from` and its final sort: the report is that of some
      order of the hash map, and the loaded list that of every order. */
  method Load(apps: seq<App>, loads: Loads) returns (report: Report)
    ensures exists order :: IsOrder(order, Guids(apps)) && report == Loaded(apps, loads, order)
    ensures forall order :: IsOrder(order, Guids(apps)) ==> report.kept == Loaded(apps, loads, order).kept
  {
    var groups := GroupByGuid(apps);
    var kept, dropped, unreadable := LoadGroups(groups, loads);
    report := Report(SortedBy(CompareKeys, kept), dropped, unreadable);
    ghost var met :| IsOrder(met, Guids(apps)) && groups == Groups(apps, met);
    assert report == Loaded(apps, loads, met);
    forall order | IsOrder(order, Guids(apps))
      ensures report.kept == Loaded(apps, loads, order).kept
    {
      KeptIgnoresHashOrder(apps, loads, met, order);
    }
  }
}
