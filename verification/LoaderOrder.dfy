/** What of the dependency loader's report depends on the order in which the hash map yields
    the GUIDs: which entries never, in which order exactly when two GUIDs have some. */
module LoaderOrder {
  import opened StableSort
  import opened Versions
  import opened DependencyLoader
  import opened LoaderRanking
  import opened LoaderReport

  // ---- lists put together in an unknown order ----------------------------------------------

  /** What each GUID contributes to a list. */
  type Parts<!T(!new)> = string -> seq<T>

  function Joined<T(!new)>(order: seq<string>, part: Parts<T>): seq<T> {
    if order == [] then [] else Joined(order[..|order| - 1], part) + part(order[|order| - 1])
  }

  /** Each entry tells by `owner` which GUID contributed it. */
  ghost predicate Owned<T(!new)>(guids: set<string>, part: Parts<T>, owner: T -> string) {
    forall g, x :: g in guids && x in part(g) ==> owner(x) == g
  }

  ghost predicate OneList<T(!new)>(guids: set<string>, part: Parts<T>) {
    forall order1, order2 :: IsOrder(order1, guids) && IsOrder(order2, guids) ==>
                               Joined(order1, part) == Joined(order2, part)
  }

  lemma AtMostOne(s: set<string>)
    ensures |s| <= 1 <==> forall g, h :: g in s && h in s ==> g == h
  {
    if s != {} {
      var g :| g in s;
      assert |s| == 1 + |s - {g}|;
      assert s - {g} != {} ==> exists h :: h in s - {g};
    }
  }

  lemma {:induction false} JoinedStarts<T(!new)>(first: string, order: seq<string>, part: Parts<T>)
    ensures Joined([first] + order, part) == part(first) + Joined(order, part)
  {
    if order == [] {
      assert [first] + order == [first] && [first][..0] == [];
    } else {
      var rest := order[..|order| - 1];
      assert ([first] + order)[..|order|] == [first] + rest;
      JoinedStarts(first, rest, part);
    }
  }

  ghost predicate GrowsBy<T(!new)>(list: seq<string> -> seq<T>, part: Parts<T>, order: seq<string>, guid: string) {
    list(order + [guid]) == list(order) + part(guid)
  }

  lemma {:induction false} GrownIsJoined<T(!new)>(list: seq<string> -> seq<T>, part: Parts<T>, order: seq<string>)
    requires forall o, guid :: GrowsBy(list, part, o, guid)
    ensures list(order) == list([]) + Joined(order, part)
  {
    if order != [] {
      var rest, last := order[..|order| - 1], order[|order| - 1];
      GrownIsJoined(list, part, rest);
      assert GrowsBy(list, part, rest, last) && order == rest + [last];
    }
  }

  lemma {:induction false} OnePart<T(!new)>(order: seq<string>, part: Parts<T>, only: string)
    requires forall i, j :: 0 <= i < j < |order| ==> order[i] != order[j]
    requires forall g :: g in order && g != only ==> part(g) == []
    ensures Joined(order, part) == if only in order then part(only) else []
  {
    if order != [] {
      var rest, last := order[..|order| - 1], order[|order| - 1];
      OnePart(rest, part, only);
      assert only in order <==> only in rest || only == last;
      assert last == only ==> only !in rest;
    }
  }

  lemma {:induction false} SomeOrder(guids: set<string>) returns (order: seq<string>)
    ensures IsOrder(order, guids)
    decreases |guids|
  {
    if guids == {} {
      return [];
    }
    var guid :| guid in guids;
    order := SomeOrder(guids - {guid});
    order := order + [guid];
  }

  lemma OrderFrom(guids: set<string>, first: string) returns (order: seq<string>)
    requires first in guids
    ensures IsOrder(order, guids) && order != [] && order[0] == first
  {
    order := SomeOrder(guids - {first});
    order := [first] + order;
  }

  /** Two GUIDs with entries: whichever comes first, its entries come first. */
  lemma TwoPartsTellTheOrder<T(!new)>(guids: set<string>, part: Parts<T>, owner: T -> string, g: string, h: string)
    requires Owned(guids, part, owner) && g in guids && h in guids && g != h && part(g) != [] && part(h) != []
    ensures !OneList(guids, part)
  {
    var order1 := OrderFrom(guids, g);
    var order2 := OrderFrom(guids, h);
    assert order1 == [g] + order1[1..] && order2 == [h] + order2[1..];
    JoinedStarts(g, order1[1..], part);
    JoinedStarts(h, order2[1..], part);
    assert part(g)[0] in part(g) && part(h)[0] in part(h);
    assert owner(Joined(order1, part)[0]) == g && owner(Joined(order2, part)[0]) == h;
  }

  /** There is one list whatever the order exactly when at most one GUID has entries. */
  lemma OneListExactly<T(!new)>(guids: set<string>, part: Parts<T>, owner: T -> string, filled: set<string>)
    requires Owned(guids, part, owner) && forall g :: g in filled <==> g in guids && part(g) != []
    ensures OneList(guids, part) <==> |filled| <= 1
  {
    AtMostOne(filled);
    if |filled| <= 1 {
      var only := if filled == {} then "" else var g :| g in filled; g;
      forall order1, order2 | IsOrder(order1, guids) && IsOrder(order2, guids)
        ensures Joined(order1, part) == Joined(order2, part)
      {
        OnePart(order1, part, only);
        OnePart(order2, part, only);
      }
    } else {
      var g, h :| g in filled && h in filled && g != h;
      TwoPartsTellTheOrder(guids, part, owner, g, h);
    }
  }

  /** An entry is in the list as often as its owner contributes it. */
  lemma {:induction false} JoinedCount<T(!new)>(order: seq<string>, guids: set<string>, part: Parts<T>,
                                                owner: T -> string, x: T)
    requires Owned(guids, part, owner) && forall g :: g in order ==> g in guids
    requires forall i, j :: 0 <= i < j < |order| ==> order[i] != order[j]
    ensures multiset(Joined(order, part))[x] == if owner(x) in order then multiset(part(owner(x)))[x] else 0
  {
    if order != [] {
      var rest, last := order[..|order| - 1], order[|order| - 1];
      JoinedCount(rest, guids, part, owner, x);
      assert x in multiset(part(last)) ==> x in part(last);
      assert owner(x) in order <==> owner(x) in rest || owner(x) == last;
    }
  }

  // ---- the drops -----------------------------------------------------------------------------

  function DropsOf(apps: seq<App>, loads: Loads): Parts<Dropped> {
    guid => DroppedOf(Ranked(apps, guid), loads)
  }

  /** Another copy of `guid` stands behind its best loadable one. */
  predicate HasDrops(apps: seq<App>, loads: Loads, guid: string) {
    FirstLoading(Ranked(apps, guid), loads) + 1 < |Ranked(apps, guid)|
  }

  function WithDrops(apps: seq<App>, loads: Loads): set<string> {
    set guid | guid in Guids(apps) && HasDrops(apps, loads, guid)
  }

  function WinnerId(d: Dropped): string {
    d.winner.id
  }

  lemma DropsOfGuid(apps: seq<App>, loads: Loads, guid: string)
    ensures HasDrops(apps, loads, guid) <==> DroppedOf(Ranked(apps, guid), loads) != []
    ensures forall d :: d in DroppedOf(Ranked(apps, guid), loads) ==> d.winner.id == guid
  {
    var group := Ranked(apps, guid);
    var i := FirstLoading(group, loads);
    RankedMembers(apps, guid);
    if i < |group| {
      LosersBehind(group[i], group[i + 1..]);
      BehindCount(group[i], group[i + 1..]);
      assert group[i] in group;
    }
  }

  lemma DropsAreOwned(apps: seq<App>, loads: Loads)
    ensures Owned(Guids(apps), DropsOf(apps, loads), WinnerId)
    ensures forall guid :: HasDrops(apps, loads, guid) <==> DropsOf(apps, loads)(guid) != []
  {
    var part := DropsOf(apps, loads);
    forall guid
      ensures (HasDrops(apps, loads, guid) <==> part(guid) != []) && forall d :: d in part(guid) ==> d.winner.id == guid
    {
      DropsOfGuid(apps, loads, guid);
    }
  }

  lemma {:induction false} SinglesDropNothing(apps: seq<App>, loads: Loads)
    ensures AllDropped(Singles(apps), loads) == []
  {
    if apps != [] {
      var rest, last := apps[..|apps| - 1], apps[|apps| - 1];
      SinglesDropNothing(rest, loads);
      assert apps == rest + [last];
      SinglesSnoc(rest, last);
      if last.id == "" {
        AllDroppedSnoc(Singles(rest), [last], loads);
        assert [last][1..] == [];
      }
    }
  }

  lemma AllDroppedSnoc(groups: seq<seq<App>>, g: seq<App>, loads: Loads)
    ensures AllDropped(groups + [g], loads) == AllDropped(groups, loads) + DroppedOf(g, loads)
  {
    assert (groups + [g])[..|groups|] == groups;
  }

  /** The drops of the groups in `order`. */
  function DropList(apps: seq<App>, loads: Loads): seq<string> -> seq<Dropped> {
    order => AllDropped(Groups(apps, order), loads)
  }

  lemma DropsAreJoined(apps: seq<App>, loads: Loads, order: seq<string>)
    ensures Loaded(apps, loads, order).dropped == Joined(order, DropsOf(apps, loads))
  {
    forall o, guid
      ensures GrowsBy(DropList(apps, loads), DropsOf(apps, loads), o, guid)
    {
      OrderGrows(apps, o, guid);
      AllDroppedSnoc(Groups(apps, o), Ranked(apps, guid), loads);
    }
    GrownIsJoined(DropList(apps, loads), DropsOf(apps, loads), order);
    SinglesDropNothing(apps, loads);
    assert Groups(apps, []) == Singles(apps);
  }

  /** The same drops are reported whatever the order ... */
  lemma DropsIgnoreHashOrder(apps: seq<App>, loads: Loads, order1: seq<string>, order2: seq<string>)
    requires IsOrder(order1, Guids(apps)) && IsOrder(order2, Guids(apps))
    ensures multiset(Loaded(apps, loads, order1).dropped) == multiset(Loaded(apps, loads, order2).dropped)
  {
    DropsAreOwned(apps, loads);
    DropsAreJoined(apps, loads, order1);
    DropsAreJoined(apps, loads, order2);
    SameEntries(order1, order2, Guids(apps), DropsOf(apps, loads), WinnerId);
  }

  lemma SameEntries<T(!new)>(order1: seq<string>, order2: seq<string>, guids: set<string>, part: Parts<T>,
                             owner: T -> string)
    requires IsOrder(order1, guids) && IsOrder(order2, guids) && Owned(guids, part, owner)
    ensures multiset(Joined(order1, part)) == multiset(Joined(order2, part))
  {
    forall x: T
      ensures multiset(Joined(order1, part))[x] == multiset(Joined(order2, part))[x]
    {
      JoinedCount(order1, guids, part, owner, x);
      JoinedCount(order2, guids, part, owner, x);
      assert owner(x) in order1 <==> owner(x) in order2;
    }
  }

  ghost predicate DropOrderFixed(apps: seq<App>, loads: Loads) {
    forall order1, order2 :: IsOrder(order1, Guids(apps)) && IsOrder(order2, Guids(apps)) ==>
                               Loaded(apps, loads, order1).dropped == Loaded(apps, loads, order2).dropped
  }

  /** ... and in one sequence exactly when at most one GUID has drops. */
  lemma DropOrderFixedExactly(apps: seq<App>, loads: Loads)
    ensures DropOrderFixed(apps, loads) <==> |WithDrops(apps, loads)| <= 1
  {
    DropsAreOwned(apps, loads);
    OneListExactly(Guids(apps), DropsOf(apps, loads), WinnerId, WithDrops(apps, loads));
    forall order
      ensures Loaded(apps, loads, order).dropped == Joined(order, DropsOf(apps, loads))
    {
      DropsAreJoined(apps, loads, order);
    }
  }

  // ---- the unreadable apps -------------------------------------------------------------------

  function UnreadableOfGuid(apps: seq<App>, loads: Loads): Parts<App> {
    guid => UnreadableOf(Ranked(apps, guid), loads)
  }

  /** No copy of `guid` loads. */
  predicate Unloadable(apps: seq<App>, loads: Loads, guid: string) {
    forall a :: a in apps && a.id == guid ==> !loads(a)
  }

  function WithoutLoadable(apps: seq<App>, loads: Loads): set<string> {
    set guid | guid in Guids(apps) && Unloadable(apps, loads, guid)
  }

  function IdOf(a: App): string {
    a.id
  }

  /** `named` holds the copy of `guid` than which no other is better, if none loads. */
  ghost predicate NamesBest(apps: seq<App>, loads: Loads, guid: string, named: seq<App>) {
    if Unloadable(apps, loads, guid)
    then |named| == 1 && named[0] in apps && named[0].id == guid &&
         forall a :: a in apps && a.id == guid ==> AtLeastAsGood(named[0], a)
    else named == []
  }

  lemma UnreadableOne(apps: seq<App>, loads: Loads, guid: string)
    requires guid in Guids(apps)
    ensures |UnreadableOf(Ranked(apps, guid), loads)| <= 1
    ensures NamesBest(apps, loads, guid, UnreadableOf(Ranked(apps, guid), loads))
  {
    var group := Ranked(apps, guid);
    RankedMembers(apps, guid);
    AppsArePreordered();
    var app :| app in apps && app.id == guid;
    assert app in group;
    var i := FirstLoading(group, loads);
    if i < |group| {
      assert group[i] in group;
    } else {
      assert forall j :: 0 <= j < |group| ==> !loads(group[j]);
      assert group[0] in group;
      BeforeAll(group);
    }
  }

  lemma BeforeAll(group: seq<App>)
    requires IsPreorder(RankApps) && IsSorted(RankApps, group) && group != []
    ensures forall a :: a in group ==> AtLeastAsGood(group[0], a)
  {
    assert Compared(RankApps, group[0], group[0]);
    forall a | a in group
      ensures AtLeastAsGood(group[0], a)
    {
      var j :| 0 <= j < |group| && group[j] == a;
      RankMeans(group[0], group[j]);
    }
  }

  lemma UnreadableOneOwned(apps: seq<App>, loads: Loads, guid: string)
    requires guid in Guids(apps)
    ensures Unloadable(apps, loads, guid) <==> UnreadableOf(Ranked(apps, guid), loads) != []
    ensures forall a :: a in UnreadableOf(Ranked(apps, guid), loads) ==> a.id == guid
  {
    UnreadableOne(apps, loads, guid);
  }

  lemma UnreadableIsOwned(apps: seq<App>, loads: Loads)
    ensures Owned(Guids(apps), UnreadableOfGuid(apps, loads), IdOf)
    ensures forall guid :: guid in Guids(apps) ==>
                             (Unloadable(apps, loads, guid) <==> UnreadableOfGuid(apps, loads)(guid) != [])
  {
    var part := UnreadableOfGuid(apps, loads);
    forall guid | guid in Guids(apps)
      ensures (Unloadable(apps, loads, guid) <==> part(guid) != []) && forall a :: a in part(guid) ==> a.id == guid
    {
      UnreadableOneOwned(apps, loads, guid);
    }
  }

  lemma AllUnreadableSnoc(groups: seq<seq<App>>, g: seq<App>, loads: Loads)
    ensures AllUnreadable(groups + [g], loads) == AllUnreadable(groups, loads) + UnreadableOf(g, loads)
  {
    assert (groups + [g])[..|groups|] == groups;
  }

  /** The unreadable apps of the groups in `order`. */
  function UnreadableList(apps: seq<App>, loads: Loads): seq<string> -> seq<App> {
    order => AllUnreadable(Groups(apps, order), loads)
  }

  lemma UnreadableGrows(apps: seq<App>, loads: Loads, order: seq<string>, guid: string)
    ensures GrowsBy(UnreadableList(apps, loads), UnreadableOfGuid(apps, loads), order, guid)
  {
    OrderGrows(apps, order, guid);
    AllUnreadableSnoc(Groups(apps, order), Ranked(apps, guid), loads);
  }

  /** The apps without a GUID come first, in the order of discovery. */
  lemma UnreadableIsJoined(apps: seq<App>, loads: Loads, order: seq<string>)
    ensures Loaded(apps, loads, order).unreadable ==
              AllUnreadable(Singles(apps), loads) + Joined(order, UnreadableOfGuid(apps, loads))
  {
    forall o, guid
      ensures GrowsBy(UnreadableList(apps, loads), UnreadableOfGuid(apps, loads), o, guid)
    {
      UnreadableGrows(apps, loads, o, guid);
    }
    GrownIsJoined(UnreadableList(apps, loads), UnreadableOfGuid(apps, loads), order);
    assert Groups(apps, []) == Singles(apps);
  }

  lemma UnreadableSinglesSnoc(rest: seq<App>, last: App, loads: Loads)
    ensures AllUnreadable(Singles(rest + [last]), loads) ==
              AllUnreadable(Singles(rest), loads) + if last.id == "" && !loads(last) then [last] else []
  {
    SinglesSnoc(rest, last);
    if last.id == "" {
      AllUnreadableSnoc(Singles(rest), [last], loads);
      assert UnreadableOf([last], loads) == if loads(last) then [] else [last];
    }
  }

  lemma {:induction false} UnreadableSingles(apps: seq<App>, loads: Loads, x: App)
    ensures multiset(AllUnreadable(Singles(apps), loads))[x] == if x.id == "" && !loads(x) then multiset(apps)[x] else 0
  {
    if apps != [] {
      var rest, last := apps[..|apps| - 1], apps[|apps| - 1];
      UnreadableSingles(rest, loads, x);
      assert apps == rest + [last];
      CountSnoc(rest, last, x);
      UnreadableSinglesSnoc(rest, last, loads);
      if last.id == "" && !loads(last) {
        CountSnoc(AllUnreadable(Singles(rest), loads), last, x);
      }
    }
  }

  lemma CountUnreadable(apps: seq<App>, loads: Loads, order: seq<string>, x: App)
    requires IsOrder(order, Guids(apps))
    ensures multiset(Loaded(apps, loads, order).unreadable)[x] ==
              if x.id == "" then (if loads(x) then 0 else multiset(apps)[x])
              else multiset(if x.id in Guids(apps) then UnreadableOf(Ranked(apps, x.id), loads) else [])[x]
  {
    UnreadableIsOwned(apps, loads);
    UnreadableIsJoined(apps, loads, order);
    UnreadableSingles(apps, loads, x);
    JoinedCount(order, Guids(apps), UnreadableOfGuid(apps, loads), IdOf, x);
  }

  lemma CountAtMostOne(s: seq<App>, x: App)
    requires |s| <= 1
    ensures multiset(s)[x] == if s != [] && s[0] == x then 1 else 0
  {
    assert s == [] || s == [s[0]];
  }

  /** How often `x` is reported as unreadable: without a GUID, as often as it was found if it
      does not load; with one, at most once, and then no copy of it loads and none is better. */
  lemma UnreadableCount(apps: seq<App>, loads: Loads, order: seq<string>, x: App)
    requires IsOrder(order, Guids(apps))
    ensures var n := multiset(Loaded(apps, loads, order).unreadable)[x];
            if x.id == "" then n == if loads(x) then 0 else multiset(apps)[x]
            else n <= 1 && (n == 1 ==> x in apps && Unloadable(apps, loads, x.id) &&
                                       forall a :: a in apps && a.id == x.id ==> AtLeastAsGood(x, a))
  {
    CountUnreadable(apps, loads, order, x);
    if x.id in Guids(apps) {
      UnreadableOne(apps, loads, x.id);
      CountAtMostOne(UnreadableOf(Ranked(apps, x.id), loads), x);
    }
  }

  /** The same apps are reported whatever the order ... */
  lemma UnreadableIgnoresHashOrder(apps: seq<App>, loads: Loads, order1: seq<string>, order2: seq<string>)
    requires IsOrder(order1, Guids(apps)) && IsOrder(order2, Guids(apps))
    ensures multiset(Loaded(apps, loads, order1).unreadable) == multiset(Loaded(apps, loads, order2).unreadable)
  {
    UnreadableIsOwned(apps, loads);
    UnreadableIsJoined(apps, loads, order1);
    UnreadableIsJoined(apps, loads, order2);
    SameEntries(order1, order2, Guids(apps), UnreadableOfGuid(apps, loads), IdOf);
  }

  ghost predicate UnreadableOrderFixed(apps: seq<App>, loads: Loads) {
    forall order1, order2 :: IsOrder(order1, Guids(apps)) && IsOrder(order2, Guids(apps)) ==>
                               Loaded(apps, loads, order1).unreadable == Loaded(apps, loads, order2).unreadable
  }

  /** ... and in one sequence exactly when at most one GUID is without a loadable copy. */
  lemma UnreadableOrderFixedExactly(apps: seq<App>, loads: Loads)
    ensures UnreadableOrderFixed(apps, loads) <==> |WithoutLoadable(apps, loads)| <= 1
  {
    UnreadableIsOwned(apps, loads);
    OneListExactly(Guids(apps), UnreadableOfGuid(apps, loads), IdOf, WithoutLoadable(apps, loads));
    var fixed := AllUnreadable(Singles(apps), loads);
    forall order
      ensures Loaded(apps, loads, order).unreadable == fixed + Joined(order, UnreadableOfGuid(apps, loads))
    {
      UnreadableIsJoined(apps, loads, order);
    }
    forall order1, order2
      ensures Loaded(apps, loads, order1).unreadable == Loaded(apps, loads, order2).unreadable <==>
                Joined(order1, UnreadableOfGuid(apps, loads)) == Joined(order2, UnreadableOfGuid(apps, loads))
    {
      SamePrefix(fixed, Joined(order1, UnreadableOfGuid(apps, loads)), Joined(order2, UnreadableOfGuid(apps, loads)));
    }
  }

  lemma SamePrefix<T>(a: seq<T>, b: seq<T>, c: seq<T>)
    ensures a + b == a + c <==> b == c
  {
    assert (a + b)[|a|..] == b && (a + c)[|a|..] == c;
  }

  lemma CountNamed(apps: seq<App>, loads: Loads, order: seq<string>, guid: string, x: App)
    requires IsOrder(order, Guids(apps)) && guid in Guids(apps)
    ensures multiset(OfGuid(Loaded(apps, loads, order).unreadable, guid))[x] ==
              multiset(UnreadableOf(Ranked(apps, guid), loads))[x]
  {
    CountOfGuid(Loaded(apps, loads, order).unreadable, guid, x);
    CountUnreadable(apps, loads, order, x);
    UnreadableOneOwned(apps, loads, guid);
    assert x in multiset(UnreadableOf(Ranked(apps, guid), loads)) <==> x in UnreadableOf(Ranked(apps, guid), loads);
  }

  /** Main result: of each GUID the report names exactly one copy when none loads, the best
      one by version then path, and none when some copy loads. */
  lemma UnreadableNamesTheBest(apps: seq<App>, loads: Loads, order: seq<string>, guid: string)
    requires IsOrder(order, Guids(apps)) && guid in Guids(apps)
    ensures NamesBest(apps, loads, guid, OfGuid(Loaded(apps, loads, order).unreadable, guid))
  {
    forall x: App {
      CountNamed(apps, loads, order, guid, x);
    }
    UnreadableOne(apps, loads, guid);
    SameIfShort(OfGuid(Loaded(apps, loads, order).unreadable, guid), UnreadableOf(Ranked(apps, guid), loads));
  }

  lemma SameIfShort(a: seq<App>, b: seq<App>)
    requires |b| <= 1 && forall x: App :: multiset(a)[x] == multiset(b)[x]
    ensures a == b
  {
    assert multiset(a) == multiset(b);
    SameLength(a, b);
    if b != [] {
      assert b[0] in multiset(b) && a[0] in multiset(a);
    }
  }

  lemma SameLength(a: seq<App>, b: seq<App>)
    requires multiset(a) == multiset(b)
    ensures |a| == |b|
  {
    assert |a| == |multiset(a)| && |b| == |multiset(b)|;
  }

  // ---- an input on which both lists vary ----------------------------------------------------

  lemma TwoMembers(s: seq<App>, a: App, b: App)
    requires a in s && b in s && a != b
    ensures |s| >= 2
  {
    assert |s| != 1;
  }

  lemma FirstLoads(group: seq<App>, loads: Loads)
    requires forall x :: loads(x)
    ensures FirstLoading(group, loads) == 0
  {
  }

  lemma TwoCopiesDrop(apps: seq<App>, loads: Loads, a: App, b: App)
    requires a in apps && b in apps && a.id == b.id && a != b && forall x :: loads(x)
    ensures HasDrops(apps, loads, a.id)
  {
    RankedMembers(apps, a.id);
    TwoMembers(Ranked(apps, a.id), a, b);
    FirstLoads(Ranked(apps, a.id), loads);
  }

  /** Two copies of each of two apps. When all load, the order of the drops varies; when none
      loads, that of the unreadable apps. */
  lemma TwoPairsFollowHashOrder(apps: seq<App>, loads: Loads, a: App, b: App, c: App, d: App)
    requires a in apps && b in apps && c in apps && d in apps
    requires a.id == b.id != c.id == d.id && a != b && c != d && a.id != "" && c.id != ""
    ensures (forall x :: loads(x)) ==> !DropOrderFixed(apps, loads)
    ensures (forall x :: !loads(x)) ==> !UnreadableOrderFixed(apps, loads)
  {
    assert a.id in Guids(apps) && c.id in Guids(apps);
    if forall x :: loads(x) {
      TwoCopiesDrop(apps, loads, a, b);
      TwoCopiesDrop(apps, loads, c, d);
      assert a.id in WithDrops(apps, loads) && c.id in WithDrops(apps, loads);
      AtMostOne(WithDrops(apps, loads));
      DropOrderFixedExactly(apps, loads);
    }
    if forall x :: !loads(x) {
      assert a.id in WithoutLoadable(apps, loads) && c.id in WithoutLoadable(apps, loads);
      AtMostOne(WithoutLoadable(apps, loads));
      UnreadableOrderFixedExactly(apps, loads);
    }
  }

  function Copy(id: string, folder: string): App {
    App([folder, id], id, id, "", "1.0")
  }

  const TWO_PAIRS := [Copy("g", "1"), Copy("g", "2"), Copy("h", "1"), Copy("h", "2")]

  lemma ReportFollowsHashOrder()
    ensures !DropOrderFixed(TWO_PAIRS, _ => true) && !UnreadableOrderFixed(TWO_PAIRS, _ => false)
  {
    var a, b, c, d := TWO_PAIRS[0], TWO_PAIRS[1], TWO_PAIRS[2], TWO_PAIRS[3];
    assert a.id[0] != c.id[0] && a.path[0][0] != b.path[0][0] && c.path[0][0] != d.path[0][0];
    TwoPairsFollowHashOrder(TWO_PAIRS, _ => true, a, b, c, d);
    TwoPairsFollowHashOrder(TWO_PAIRS, _ => false, a, b, c, d);
  }
}
