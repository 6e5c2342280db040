/** What the dependency loader keeps and reports: the best loadable copy of each GUID, and
    every discovered app accounted for exactly once. */
module LoaderReport {
  import opened StableSort
  import opened Versions
  import opened DependencyLoader
  import opened LoaderRanking

  lemma {:induction false} CountOfGuid(apps: seq<App>, guid: string, x: App)
    ensures multiset(OfGuid(apps, guid))[x] == if x.id == guid then multiset(apps)[x] else 0
  {
    if apps != [] {
      CountOfGuid(apps[..|apps| - 1], guid, x);
      assert apps == apps[..|apps| - 1] + [apps[|apps| - 1]];
    }
  }

  function Flat(groups: seq<seq<App>>): seq<App> {
    if groups == [] then [] else Flat(groups[..|groups| - 1]) + groups[|groups| - 1]
  }

  lemma {:induction false} FlatConcat(a: seq<seq<App>>, b: seq<seq<App>>)
    ensures Flat(a + b) == Flat(a) + Flat(b)
  {
    if b == [] {
      assert a + b == a;
    } else {
      assert (a + b)[..|a + b| - 1] == a + b[..|b| - 1];
      FlatConcat(a, b[..|b| - 1]);
    }
  }

  lemma FlatSnoc(groups: seq<seq<App>>, g: seq<App>)
    ensures Flat(groups + [g]) == Flat(groups) + g
  {
    assert (groups + [g])[..|groups|] == groups;
  }

  lemma CountSnoc<T>(s: seq<T>, y: T, x: T)
    ensures multiset(s + [y])[x] == multiset(s)[x] + if x == y then 1 else 0
  {
    assert multiset(s + [y]) == multiset(s) + multiset{y};
  }

  lemma {:induction false} CountSingles(apps: seq<App>, x: App)
    ensures multiset(Flat(Singles(apps)))[x] == if x.id == "" then multiset(apps)[x] else 0
  {
    if apps != [] {
      var rest, last := apps[..|apps| - 1], apps[|apps| - 1];
      CountSingles(rest, x);
      assert apps == rest + [last];
      CountSnoc(rest, last, x);
      SinglesSnoc(rest, last);
      if last.id == "" {
        FlatSnoc(Singles(rest), [last]);
        CountSnoc(Flat(Singles(rest)), last, x);
      }
    }
  }

  lemma SinglesSnoc(rest: seq<App>, last: App)
    ensures Singles(rest + [last]) == if last.id == "" then Singles(rest) + [[last]] else Singles(rest)
  {
    assert (rest + [last])[..|rest|] == rest;
    assert Singles(rest) + [] == Singles(rest);
  }

  lemma {:induction false} CountRanked(apps: seq<App>, order: seq<string>, x: App)
    requires forall i, j :: 0 <= i < j < |order| ==> order[i] != order[j]
    ensures multiset(Flat(RankedAll(apps, order)))[x] == if x.id in order then multiset(apps)[x] else 0
  {
    if order != [] {
      var rest, last := order[..|order| - 1], order[|order| - 1];
      CountRanked(apps, rest, x);
      RankedCount(apps, order);
      assert RankedAll(apps, order)[..|order| - 1] == RankedAll(apps, rest);
      RankedMembers(apps, last);
      CountOfGuid(apps, last, x);
      assert x.id in order <==> x.id in rest || x.id == last;
    }
  }

  /** Grouping loses and adds nothing. */
  lemma GroupsHoldEveryApp(apps: seq<App>, order: seq<string>)
    requires IsOrder(order, Guids(apps))
    ensures multiset(Flat(Groups(apps, order))) == multiset(apps)
  {
    FlatConcat(Singles(apps), RankedAll(apps, order));
    forall x: App
      ensures multiset(Flat(Groups(apps, order)))[x] == multiset(apps)[x]
    {
      CountSingles(apps, x);
      CountRanked(apps, order, x);
      assert x in apps && x.id != "" ==> x.id in Guids(apps);
      assert "" !in order;
    }
  }

  // ---- every app is kept, dropped, passed over or lost ------------------------------------

  function Losers(dropped: seq<Dropped>): seq<App> {
    if dropped == [] then [] else Losers(dropped[..|dropped| - 1]) + [dropped[|dropped| - 1].loser]
  }

  function FailedAbove(g: seq<App>, loads: Loads): seq<App> {
    var i := FirstLoading(g, loads);
    if i < |g| then g[..i] else []
  }

  function LostIn(g: seq<App>, loads: Loads): seq<App> {
    if FirstLoading(g, loads) < |g| then [] else g
  }

  /** The copies that failed above a group's winner. */
  function PassedOver(groups: seq<seq<App>>, loads: Loads): seq<App> {
    if groups == [] then [] else PassedOver(groups[..|groups| - 1], loads) + FailedAbove(groups[|groups| - 1], loads)
  }

  /** The copies in the groups none of which loads. */
  function Lost(groups: seq<seq<App>>, loads: Loads): seq<App> {
    if groups == [] then [] else Lost(groups[..|groups| - 1], loads) + LostIn(groups[|groups| - 1], loads)
  }

  lemma {:induction false} LosersBehind(winner: App, losers: seq<App>)
    ensures Losers(Behind(winner, losers)) == losers
    ensures forall d :: d in Behind(winner, losers) ==> d.winner == winner && d.loser in losers
  {
    if losers != [] {
      LosersBehind(winner, losers[..|losers| - 1]);
      assert Behind(winner, losers)[..|losers| - 1] == Behind(winner, losers[..|losers| - 1]) by {
        BehindCount(winner, losers);
      }
      assert losers == losers[..|losers| - 1] + [losers[|losers| - 1]];
    }
  }

  lemma {:induction false} BehindCount(winner: App, losers: seq<App>)
    ensures |Behind(winner, losers)| == |losers|
  {
    if losers != [] {
      BehindCount(winner, losers[..|losers| - 1]);
    }
  }

  lemma {:induction false} LosersConcat(a: seq<Dropped>, b: seq<Dropped>)
    ensures Losers(a + b) == Losers(a) + Losers(b)
  {
    if b == [] {
      assert a + b == a;
    } else {
      assert (a + b)[..|a + b| - 1] == a + b[..|b| - 1];
      LosersConcat(a, b[..|b| - 1]);
    }
  }

  lemma GroupSplits(g: seq<App>, loads: Loads)
    ensures multiset(g) == multiset(KeptOf(g, loads)) + multiset(Losers(DroppedOf(g, loads)))
                           + multiset(FailedAbove(g, loads)) + multiset(LostIn(g, loads))
  {
    GroupParts(g, loads);
    Assemble(g, KeptOf(g, loads), Losers(DroppedOf(g, loads)), FailedAbove(g, loads), LostIn(g, loads),
             FirstLoading(g, loads));
  }

  predicate PartsAt(g: seq<App>, k: seq<App>, l: seq<App>, above: seq<App>, lost: seq<App>, i: nat)
    requires i <= |g|
  {
    if i < |g| then k == [g[i]] && l == g[i + 1..] && above == g[..i] && lost == []
    else k == [] && l == [] && above == [] && lost == g
  }

  lemma GroupParts(g: seq<App>, loads: Loads)
    ensures PartsAt(g, KeptOf(g, loads), Losers(DroppedOf(g, loads)), FailedAbove(g, loads), LostIn(g, loads),
                    FirstLoading(g, loads))
  {
    var i := FirstLoading(g, loads);
    if i < |g| {
      LosersBehind(g[i], g[i + 1..]);
    }
  }

  lemma Assemble(g: seq<App>, k: seq<App>, l: seq<App>, above: seq<App>, lost: seq<App>, i: nat)
    requires i <= |g| && PartsAt(g, k, l, above, lost, i)
    ensures multiset(g) == multiset(k) + multiset(l) + multiset(above) + multiset(lost)
  {
    if i < |g| {
      SplitAt(g, i);
    }
  }

  lemma SplitAt(g: seq<App>, i: nat)
    requires i < |g|
    ensures multiset(g) == multiset([g[i]]) + multiset(g[i + 1..]) + multiset(g[..i])
  {
    assert g == (g[..i] + [g[i]]) + g[i + 1..];
    assert multiset(g) == multiset(g[..i] + [g[i]]) + multiset(g[i + 1..]);
  }

  lemma GroupKinds(g: seq<App>, loads: Loads)
    ensures forall a :: a in FailedAbove(g, loads) || a in LostIn(g, loads) ==> !loads(a)
    ensures forall a :: a in KeptOf(g, loads) ==> loads(a)
  {
    var i := FirstLoading(g, loads);
    assert forall j :: 0 <= j < i ==> !loads(g[j]);
  }

  lemma Rearranged(k: multiset<App>, l: multiset<App>, p: multiset<App>, o: multiset<App>,
                   k1: multiset<App>, l1: multiset<App>, p1: multiset<App>, o1: multiset<App>)
    ensures (k + l + p + o) + (k1 + l1 + p1 + o1) == (k + k1) + (l + l1) + (p + p1) + (o + o1)
  {
  }

  lemma {:induction false} GroupsSplit(groups: seq<seq<App>>, loads: Loads)
    ensures multiset(Flat(groups)) == multiset(AllKept(groups, loads)) + multiset(Losers(AllDropped(groups, loads)))
                                      + multiset(PassedOver(groups, loads)) + multiset(Lost(groups, loads))
  {
    if groups != [] {
      var rest, g := groups[..|groups| - 1], groups[|groups| - 1];
      GroupsSplit(rest, loads);
      GroupSplits(g, loads);
      LosersConcat(AllDropped(rest, loads), DroppedOf(g, loads));
      Rearranged(multiset(AllKept(rest, loads)), multiset(Losers(AllDropped(rest, loads))),
                 multiset(PassedOver(rest, loads)), multiset(Lost(rest, loads)),
                 multiset(KeptOf(g, loads)), multiset(Losers(DroppedOf(g, loads))),
                 multiset(FailedAbove(g, loads)), multiset(LostIn(g, loads)));
    }
  }

  lemma {:induction false} KindsLoad(groups: seq<seq<App>>, loads: Loads)
    ensures forall a :: a in PassedOver(groups, loads) || a in Lost(groups, loads) ==> !loads(a)
    ensures forall a :: a in AllKept(groups, loads) ==> loads(a)
  {
    if groups != [] {
      KindsLoad(groups[..|groups| - 1], loads);
      GroupKinds(groups[|groups| - 1], loads);
    }
  }

  /** Main result: the discovered apps are exactly the kept ones, the reported losers, the
      copies that failed above a winner and the copies of groups with no winner, each counted
      once. The kept ones load; the last two kinds do not. */
  lemma EveryAppAccountedFor(apps: seq<App>, loads: Loads, order: seq<string>)
    requires IsOrder(order, Guids(apps))
    ensures var (groups, r) := (Groups(apps, order), Loaded(apps, loads, order));
            && multiset(apps) == multiset(r.kept) + multiset(Losers(r.dropped))
                                 + multiset(PassedOver(groups, loads)) + multiset(Lost(groups, loads))
            && (forall a :: a in multiset(r.kept) ==> loads(a))
            && (forall a :: a in PassedOver(groups, loads) || a in Lost(groups, loads) ==> !loads(a))
  {
    var groups := Groups(apps, order);
    GroupsHoldEveryApp(apps, order);
    GroupsSplit(groups, loads);
    KindsLoad(groups, loads);
    AppsArePreordered();
    SortedBySorts(CompareKeys, AllKept(groups, loads));
    assert forall a: App :: a in AllKept(groups, loads) <==> a in multiset(AllKept(groups, loads));
  }

  // ---- the best copy is kept ---------------------------------------------------------------

  lemma {:induction false} OfGuidConcat(a: seq<App>, b: seq<App>, guid: string)
    ensures OfGuid(a + b, guid) == OfGuid(a, guid) + OfGuid(b, guid)
  {
    if b == [] {
      assert a + b == a;
    } else {
      assert (a + b)[..|a + b| - 1] == a + b[..|b| - 1];
      OfGuidConcat(a, b[..|b| - 1], guid);
    }
  }

  lemma OneGroupKept(apps: seq<App>, loads: Loads, of: string, guid: string)
    ensures var kept := KeptOf(Ranked(apps, of), loads); OfGuid(kept, guid) == if of == guid then kept else []
  {
    RankedMembers(apps, of);
    var kept := KeptOf(Ranked(apps, of), loads);
    if kept != [] {
      assert kept == [kept[0]] && kept[..0] == [];
      assert kept[0].id == of;
    }
  }

  lemma {:induction false} KeptOfGuid(apps: seq<App>, loads: Loads, order: seq<string>, guid: string)
    requires forall i, j :: 0 <= i < j < |order| ==> order[i] != order[j]
    ensures OfGuid(AllKept(RankedAll(apps, order), loads), guid) ==
              if guid in order then KeptOf(Ranked(apps, guid), loads) else []
  {
    if order != [] {
      var rest, last := order[..|order| - 1], order[|order| - 1];
      KeptOfGuid(apps, loads, rest, guid);
      RankedCount(apps, order);
      assert RankedAll(apps, order)[..|order| - 1] == RankedAll(apps, rest);
      OfGuidConcat(AllKept(RankedAll(apps, rest), loads), KeptOf(Ranked(apps, last), loads), guid);
      OneGroupKept(apps, loads, last, guid);
      assert guid in order <==> guid in rest || guid == last;
    }
  }

  lemma AllKeptSnoc(groups: seq<seq<App>>, g: seq<App>, loads: Loads)
    ensures AllKept(groups + [g], loads) == AllKept(groups, loads) + KeptOf(g, loads)
  {
    assert (groups + [g])[..|groups|] == groups;
  }

  lemma {:induction false} SinglesHaveNoGuid(apps: seq<App>, loads: Loads, guid: string)
    requires guid != ""
    ensures OfGuid(AllKept(Singles(apps), loads), guid) == []
  {
    if apps != [] {
      var rest, last := apps[..|apps| - 1], apps[|apps| - 1];
      SinglesHaveNoGuid(rest, loads, guid);
      assert apps == rest + [last];
      SinglesSnoc(rest, last);
      if last.id == "" {
        AllKeptSnoc(Singles(rest), [last], loads);
        OfGuidConcat(AllKept(Singles(rest), loads), KeptOf([last], loads), guid);
        assert KeptOf([last], loads) == [last] || KeptOf([last], loads) == [];
        assert [last][..0] == [];
      }
    }
  }

  /** The copy of `guid` that is kept is its best loadable one: no other has a higher version,
      and among versions that differ in no part no other has a path that comes first. */
  ghost predicate KeepsBest(apps: seq<App>, loads: Loads, kept: seq<App>, guid: string) {
    && |OfGuid(kept, guid)| <= 1
    && (|OfGuid(kept, guid)| == 1 <==> exists a :: a in apps && a.id == guid && loads(a))
    && (forall k, a :: k in OfGuid(kept, guid) && a in apps && a.id == guid && loads(a) ==>
        k in apps && loads(k) && AtLeastAsGood(k, a))
  }

  lemma KeptCopies(apps: seq<App>, loads: Loads, order: seq<string>, guid: string)
    requires IsOrder(order, Guids(apps)) && guid != ""
    ensures multiset(OfGuid(Loaded(apps, loads, order).kept, guid)) == multiset(KeptOf(Ranked(apps, guid), loads))
  {
    var unsorted := AllKept(Groups(apps, order), loads);
    AllKeptConcat(Singles(apps), RankedAll(apps, order), loads);
    OfGuidConcat(AllKept(Singles(apps), loads), AllKept(RankedAll(apps, order), loads), guid);
    SinglesHaveNoGuid(apps, loads, guid);
    KeptOfGuid(apps, loads, order, guid);
    AppsArePreordered();
    SortedBySorts(CompareKeys, unsorted);
    OfGuidPermutes(unsorted, Loaded(apps, loads, order).kept, guid);
    if guid !in order {
      NoneOfGuid(apps, guid);
      assert Ranked(apps, guid) == [];
    }
  }

  lemma BestOfGroup(apps: seq<App>, loads: Loads, guid: string)
    ensures var kept := KeptOf(Ranked(apps, guid), loads);
            && |kept| <= 1
            && (forall a :: a in apps && a.id == guid && loads(a) ==> |kept| == 1 && AtLeastAsGood(kept[0], a))
            && (|kept| == 1 ==> kept[0] in apps && kept[0].id == guid && loads(kept[0]))
  {
    RankedMembers(apps, guid);
    AppsArePreordered();
    var group := Ranked(apps, guid);
    FirstIsBest(group, loads);
    assert FirstLoading(group, loads) < |group| ==> group[FirstLoading(group, loads)] in group;
  }

  lemma FirstIsBest(group: seq<App>, loads: Loads)
    requires IsPreorder(RankApps) && IsSorted(RankApps, group)
    ensures forall a :: a in group && loads(a) ==>
              FirstLoading(group, loads) < |group| && AtLeastAsGood(group[FirstLoading(group, loads)], a)
  {
    forall a | a in group && loads(a)
      ensures FirstLoading(group, loads) < |group| && AtLeastAsGood(group[FirstLoading(group, loads)], a)
    {
      var j :| 0 <= j < |group| && group[j] == a;
      FirstComesBefore(group, loads, j);
    }
  }

  lemma FirstComesBefore(group: seq<App>, loads: Loads, j: nat)
    requires IsPreorder(RankApps) && IsSorted(RankApps, group) && j < |group| && loads(group[j])
    ensures FirstLoading(group, loads) <= j && AtLeastAsGood(group[FirstLoading(group, loads)], group[j])
  {
    var i := FirstLoading(group, loads);
    assert i <= j;
    assert Compared(RankApps, group[j], group[j]);
    RankMeans(group[i], group[j]);
  }

  /** Main result: each non-empty GUID keeps its best loadable copy, and only that. */
  lemma BestCopyKept(apps: seq<App>, loads: Loads, order: seq<string>, guid: string)
    requires IsOrder(order, Guids(apps)) && guid != ""
    ensures KeepsBest(apps, loads, Loaded(apps, loads, order).kept, guid)
  {
    var mine, best := OfGuid(Loaded(apps, loads, order).kept, guid), KeptOf(Ranked(apps, guid), loads);
    KeptCopies(apps, loads, order, guid);
    BestOfGroup(apps, loads, guid);
    assert |mine| == |multiset(mine)| && |best| == |multiset(best)|;
    forall k | k in mine
      ensures |best| == 1 && k == best[0]
    {
      assert k in multiset(mine);
      assert k in multiset(best);
    }
  }

  lemma OfGuidPermutes(a: seq<App>, b: seq<App>, guid: string)
    requires multiset(a) == multiset(b)
    ensures multiset(OfGuid(a, guid)) == multiset(OfGuid(b, guid))
  {
    forall x: App
      ensures multiset(OfGuid(a, guid))[x] == multiset(OfGuid(b, guid))[x]
    {
      CountOfGuid(a, guid, x);
      CountOfGuid(b, guid, x);
    }
  }
}
