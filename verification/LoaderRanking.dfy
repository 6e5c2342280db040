/** What the two orders of the dependency loader mean, apart from the comparators. */
module LoaderRanking {
  import opened Text
  import opened StableSort
  import opened Versions
  import opened DependencyLoader

  // ---- which copy is better ----------------------------------------------------

  /** The versions, then the paths by components: the higher version, and among versions that
      differ in no part the path that comes first. */
  ghost predicate AtLeastAsGood(a: App, b: App) {
    Outranks(ParseVersion(a.version), ParseVersion(b.version)) ||
    (SamePadded(ParseVersion(a.version), ParseVersion(b.version)) &&
     (a.path == b.path || PathBefore(a.path, b.path)))
  }

  /** The final order: by GUID, name and publisher, then by the parts of the version as listed. */
  ghost predicate ListedBefore(a: App, b: App) {
    TextBefore(a.id, b.id) ||
    (a.id == b.id &&
     (TextBefore(a.name, b.name) ||
      (a.name == b.name &&
       (TextBefore(a.publisher, b.publisher) ||
        (a.publisher == b.publisher && NumbersBefore(ParseVersion(a.version), ParseVersion(b.version)))))))
  }

  // ---- the comparators say the same ----------------------------------------------

  predicate LexAt<T(!new)>(cmp: Comparator<T>, a: seq<T>, b: seq<T>, k: nat) {
    && k <= |a| && k < |b|
    && (forall j :: 0 <= j < k ==> cmp(a[j], b[j]) == 0)
    && (k < |a| ==> cmp(a[k], b[k]) < 0)
  }

  lemma {:induction false} LexMeans<T(!new)>(cmp: Comparator<T>, a: seq<T>, b: seq<T>)
    ensures Lex(cmp, a, b) < 0 <==> exists k: nat :: LexAt(cmp, a, b, k)
  {
    if a == [] {
      assert b != [] ==> LexAt(cmp, a, b, 0);
    } else if b != [] {
      if cmp(a[0], b[0]) == 0 {
        LexMeans(cmp, a[1..], b[1..]);
        LexShift(cmp, a, b);
      } else {
        assert cmp(a[0], b[0]) < 0 ==> LexAt(cmp, a, b, 0);
      }
    }
  }

  lemma LexShift<T(!new)>(cmp: Comparator<T>, a: seq<T>, b: seq<T>)
    requires a != [] && b != [] && cmp(a[0], b[0]) == 0
    ensures (exists k: nat :: LexAt(cmp, a, b, k)) <==> exists k: nat :: LexAt(cmp, a[1..], b[1..], k)
  {
    forall k: nat | LexAt(cmp, a, b, k)
      ensures k > 0 && LexAt(cmp, a[1..], b[1..], k - 1)
    {
    }
    forall k: nat | LexAt(cmp, a[1..], b[1..], k)
      ensures LexAt(cmp, a, b, k + 1)
    {
    }
  }

  lemma {:induction false} LexZero<T(!new)>(cmp: Comparator<T>, a: seq<T>, b: seq<T>)
    ensures Lex(cmp, a, b) == 0 <==> |a| == |b| && forall j :: 0 <= j < |a| ==> cmp(a[j], b[j]) == 0
  {
    if a != [] && b != [] {
      LexZero(cmp, a[1..], b[1..]);
      if Lex(cmp, a, b) == 0 {
        assert forall j :: 1 <= j < |a| ==> a[j] == a[1..][j - 1] && b[j] == b[1..][j - 1];
      } else if cmp(a[0], b[0]) == 0 && |a| == |b| {
        var j :| 0 <= j < |a| - 1 && cmp(a[1..][j], b[1..][j]) != 0;
        assert cmp(a[j + 1], b[j + 1]) != 0;
      }
    }
  }

  lemma NumbersMean(a: seq<nat>, b: seq<nat>)
    ensures CompareLists(a, b) < 0 <==> NumbersBefore(a, b)
    ensures CompareLists(a, b) == 0 <==> a == b
  {
    LexMeans(CompareNats, a, b);
    SameListIsEqual(a, b);
    forall k: nat
      ensures LexAt(CompareNats, a, b, k) <==> NumbersBeforeAt(a, b, k)
    {
    }
  }

  lemma TextsMean(s: string, t: string)
    ensures CompareLists(Codes(s), Codes(t)) < 0 <==> TextBefore(s, t)
    ensures CompareLists(Codes(s), Codes(t)) == 0 <==> s == t
  {
    NumbersMean(Codes(s), Codes(t));
    forall k: nat
      ensures NumbersBeforeAt(Codes(s), Codes(t), k) <==> TextBeforeAt(s, t, k)
    {
    }
    assert forall j :: 0 <= j < |s| ==> Codes(s)[j] == s[j] as nat;
  }

  lemma PathsMean(p: seq<string>, q: seq<string>)
    ensures CompareTuples(PathKey(p), PathKey(q)) < 0 <==> PathBefore(p, q)
    ensures CompareTuples(PathKey(p), PathKey(q)) == 0 <==> p == q
  {
    LexMeans(CompareLists, PathKey(p), PathKey(q));
    LexZero(CompareLists, PathKey(p), PathKey(q));
    ComponentsMean(p, q);
    forall k: nat
      ensures LexAt(CompareLists, PathKey(p), PathKey(q), k) <==> PathBeforeAt(p, q, k)
    {
    }
  }

  lemma ComponentsMean(p: seq<string>, q: seq<string>)
    ensures forall j :: 0 <= j < |p| && j < |q| ==>
              && (CompareLists(PathKey(p)[j], PathKey(q)[j]) < 0 <==> TextBefore(p[j], q[j]))
              && (CompareLists(PathKey(p)[j], PathKey(q)[j]) == 0 <==> p[j] == q[j])
  {
    forall j | 0 <= j < |p| && j < |q|
      ensures CompareLists(PathKey(p)[j], PathKey(q)[j]) < 0 <==> TextBefore(p[j], q[j])
      ensures CompareLists(PathKey(p)[j], PathKey(q)[j]) == 0 <==> p[j] == q[j]
    {
      TextsMean(p[j], q[j]);
    }
  }

  /** The order within a group. */
  lemma RankMeans(a: App, b: App)
    ensures RankApps(a, b) <= 0 <==> AtLeastAsGood(a, b)
  {
    CompareIsPadded(a.version, b.version);
    PathsMean(a.path, b.path);
  }

  lemma LexCons(x: seq<nat>, xs: seq<seq<nat>>, y: seq<nat>, ys: seq<seq<nat>>)
    ensures CompareTuples([x] + xs, [y] + ys) ==
              if CompareLists(x, y) != 0 then CompareLists(x, y) else CompareTuples(xs, ys)
  {
    assert ([x] + xs)[1..] == xs && ([y] + ys)[1..] == ys;
  }

  lemma FourKeys(a: seq<nat>, b: seq<nat>, c: seq<nat>, d: seq<nat>,
                 a1: seq<nat>, b1: seq<nat>, c1: seq<nat>, d1: seq<nat>)
    ensures CompareTuples([a, b, c, d], [a1, b1, c1, d1]) < 0 <==>
              CompareLists(a, a1) < 0 ||
              (CompareLists(a, a1) == 0 &&
               (CompareLists(b, b1) < 0 ||
                (CompareLists(b, b1) == 0 &&
                 (CompareLists(c, c1) < 0 || (CompareLists(c, c1) == 0 && CompareLists(d, d1) < 0)))))
  {
    LexCons(a, [b, c, d], a1, [b1, c1, d1]);
    LexCons(b, [c, d], b1, [c1, d1]);
    LexCons(c, [d], c1, [d1]);
    LexCons(d, [], d1, []);
    assert [a] + [b, c, d] == [a, b, c, d] && [a1] + [b1, c1, d1] == [a1, b1, c1, d1];
    assert [b] + [c, d] == [b, c, d] && [b1] + [c1, d1] == [b1, c1, d1];
    assert [c] + [d] == [c, d] && [c1] + [d1] == [c1, d1] && [d] + [] == [d] && [d1] + [] == [d1];
  }

  /** The order of the loaded list. */
  lemma KeysMean(a: App, b: App)
    ensures CompareKeys(a, b) < 0 <==> ListedBefore(a, b)
  {
    TextsMean(a.id, b.id);
    TextsMean(a.name, b.name);
    TextsMean(a.publisher, b.publisher);
    NumbersMean(ParseVersion(a.version), ParseVersion(b.version));
    FourKeys(Codes(a.id), Codes(a.name), Codes(a.publisher), ParseVersion(a.version),
             Codes(b.id), Codes(b.name), Codes(b.publisher), ParseVersion(b.version));
  }

  // ---- and of two copies one is always the better ----------------------------------

  lemma GoodnessIsTotal(a: App, b: App, c: App)
    ensures AtLeastAsGood(a, a) && (AtLeastAsGood(a, b) || AtLeastAsGood(b, a))
    ensures AtLeastAsGood(a, b) && AtLeastAsGood(b, c) ==> AtLeastAsGood(a, c)
  {
    AppsArePreordered();
    assert Compared(RankApps, a, a) && Compared(RankApps, a, b) && Chained(RankApps, a, b, c);
    RankMeans(a, a);
    RankMeans(a, b);
    RankMeans(b, a);
    RankMeans(b, c);
    RankMeans(a, c);
  }

  /** Every group is ranked best first. */
  lemma RankedBestFirst(apps: seq<App>, guid: string)
    ensures forall i, j :: 0 <= i < j < |Ranked(apps, guid)| ==>
              AtLeastAsGood(Ranked(apps, guid)[i], Ranked(apps, guid)[j])
  {
    var group := Ranked(apps, guid);
    RankedMembers(apps, guid);
    forall i, j | 0 <= i < j < |group|
      ensures AtLeastAsGood(group[i], group[j])
    {
      RankMeans(group[i], group[j]);
    }
  }

  /** Main result on the list: no app in it should be listed before one that precedes it. */
  lemma LoadedListIsSorted(apps: seq<App>, loads: Loads, order: seq<string>)
    ensures var kept := Loaded(apps, loads, order).kept;
            forall i, j :: 0 <= i < j < |kept| ==> !ListedBefore(kept[j], kept[i])
  {
    var kept := Loaded(apps, loads, order).kept;
    AppsArePreordered();
    SortedBySorts(CompareKeys, AllKept(Groups(apps, order), loads));
    forall i, j | 0 <= i < j < |kept|
      ensures !ListedBefore(kept[j], kept[i])
    {
      assert Compared(CompareKeys, kept[i], kept[j]) && Compared(CompareKeys, kept[j], kept[i]);
      KeysMean(kept[j], kept[i]);
    }
  }
}
