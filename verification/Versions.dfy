/** Version strings and the choice of a dependency file by version (src/dependencies.rs). */
module Versions {
  import opened Wrappers
  import opened StableSort
  import opened Text

  function Digits(s: string): Option<nat> {
    if s == [] then Some(0)
    else if !('0' <= s[|s| - 1] <= '9') then None
    else
      var high := Digits(s[..|s| - 1]);
      if high.None? then None else Some(10 * high.value + (s[|s| - 1] as int - '0' as int))
  }

  /** `part.parse::<u64>()`: one optional `+`, then digits that fit 64 bits. */
  function ParsePart(s: string): Option<nat> {
    var digits := if s != [] && s[0] == '+' then s[1..] else s;
    var n := Digits(digits);
    if digits == [] || n.None? || n.value > U64_MAX then None else n
  }

  /** A part is a number exactly when it is digits, perhaps behind one `+`, that fit 64 bits. */
  lemma ParsePartMeans(s: string, n: nat)
    ensures ParsePart(s) == Some(n) <==>
              n <= 18446744073709551615 && exists digits :: SpellsPart(s, digits, n)
  {
    var digits := if s != [] && s[0] == '+' then s[1..] else s;
    forall d | SpellsPart(s, d, n)
      ensures d == digits
    {
      assert d[0] != '+';
      assert s == "+" + d ==> s[1..] == d;
    }
    DigitsMeans(digits);
    if ParsePart(s) == Some(n) {
      assert s == digits || s == "+" + digits;
      assert SpellsPart(s, digits, n);
    }
  }

  ghost predicate SpellsPart(s: string, digits: string, n: nat) {
    && (s == digits || s == "+" + digits) && digits != []
    && (forall i :: 0 <= i < |digits| ==> '0' <= digits[i] <= '9') && DigitsValue(digits) == n
  }

  lemma {:induction false} DigitsMeans(s: string)
    ensures Digits(s).Some? <==> forall i :: 0 <= i < |s| ==> '0' <= s[i] <= '9'
    ensures Digits(s).Some? ==> Digits(s).value == DigitsValue(s)
  {
    if s != [] {
      DigitsMeans(s[..|s| - 1]);
    }
  }

  function Parsed(parts: seq<string>): seq<nat> {
    if parts == [] then []
    else
      var first := ParsePart(parts[0]);
      (if first.None? then [] else [first.value]) + Parsed(parts[1..])
  }

  /** A part that is no number does not count at all, not even as zero. */
  lemma {:induction false} JunkIsSkipped(before: seq<string>, junk: string, after: seq<string>)
    requires ParsePart(junk).None?
    ensures Parsed(before + [junk] + after) == Parsed(before + after)
  {
    if before == [] {
      assert [] + [junk] + after == [junk] + after && ([junk] + after)[1..] == after && [] + after == after;
    } else {
      JunkIsSkipped(before[1..], junk, after);
      assert (before + [junk] + after)[1..] == before[1..] + [junk] + after;
      assert (before + after)[1..] == before[1..] + after;
    }
  }

  /** Numbers are taken one by one, in order. */
  lemma {:induction false} NumbersAreTaken(parts: seq<string>)
    requires forall i :: 0 <= i < |parts| ==> ParsePart(parts[i]).Some?
    ensures |Parsed(parts)| == |parts|
    ensures forall i :: 0 <= i < |parts| ==> ParsePart(parts[i]) == Some(Parsed(parts)[i])
  {
    if parts != [] {
      NumbersAreTaken(parts[1..]);
    }
  }

  /** `parse_version`: the parts that are numbers; the others are dropped, not zero. */
  function ParseVersion(version: string): seq<nat> {
    Parsed(Split(version, '.'))
  }

  function Dotted(parts: seq<string>): string
    requires parts != []
  {
    if |parts| == 1 then parts[0] else parts[0] + "." + Dotted(parts[1..])
  }

  /** The parts of a version are what stands between its dots. */
  lemma {:induction false} DottedParts(parts: seq<string>)
    requires parts != [] && forall p :: p in parts ==> '.' !in p
    ensures ParseVersion(Dotted(parts)) == Parsed(parts)
  {
    SplitDotted(parts);
  }

  lemma {:induction false} SplitDotted(parts: seq<string>)
    requires parts != [] && forall p :: p in parts ==> '.' !in p
    ensures Split(Dotted(parts), '.') == parts
    decreases parts
  {
    assert parts[0] in parts;
    if |parts| == 1 {
      SplitHead(parts[0], [], '.');
    } else {
      SplitDotted(parts[1..]);
      SplitHead(parts[0], Dotted(parts[1..]), '.');
    }
  }

  /** A missing part counts as zero. */
  function Part(parts: seq<nat>, i: nat): nat {
    if i < |parts| then parts[i] else 0
  }

  function Max(a: nat, b: nat): nat {
    if a < b then b else a
  }

  function CompareFrom(a: seq<nat>, b: seq<nat>, i: nat): int
    decreases Max(|a|, |b|) - i
  {
    if i >= Max(|a|, |b|) then 0
    else if Part(b, i) < Part(a, i) then -1
    else if Part(b, i) > Part(a, i) then 1
    else CompareFrom(a, b, i + 1)
  }

  /** `compare_versions`: the higher version comes first. */
  function CompareVersions(a: string, b: string): int {
    CompareFrom(ParseVersion(a), ParseVersion(b), 0)
  }

  function CompatibleFrom(required: seq<nat>, actual: seq<nat>, i: nat): bool
    decreases 2 - i
  {
    if i >= 2 || i >= |required| then true
    else if Part(actual, i) > Part(required, i) then true
    else if Part(actual, i) < Part(required, i) then false
    else CompatibleFrom(required, actual, i + 1)
  }

  /** `is_version_compatible`. */
  predicate Compatible(required: string, actual: string) {
    CompatibleFrom(ParseVersion(required), ParseVersion(actual), 0)
  }

  // ---- the order is the zero-padded lexicographic one --------------------------------

  predicate EqualBelow(a: seq<nat>, b: seq<nat>, i: nat) {
    forall j :: 0 <= j < i ==> Part(a, j) == Part(b, j)
  }

  predicate OutranksAt(a: seq<nat>, b: seq<nat>, i: nat) {
    Part(a, i) > Part(b, i) && EqualBelow(a, b, i)
  }

  ghost predicate Outranks(a: seq<nat>, b: seq<nat>) {
    exists i: nat :: OutranksAt(a, b, i)
  }

  ghost predicate SamePadded(a: seq<nat>, b: seq<nat>) {
    forall i: nat :: Part(a, i) == Part(b, i)
  }

  lemma {:induction false} CompareFromPadded(a: seq<nat>, b: seq<nat>, i: nat)
    requires EqualBelow(a, b, i)
    ensures CompareFrom(a, b, i) < 0 <==> Outranks(a, b)
    ensures CompareFrom(a, b, i) > 0 <==> Outranks(b, a)
    ensures CompareFrom(a, b, i) == 0 <==> SamePadded(a, b)
    decreases Max(|a|, |b|) - i
  {
    if i >= Max(|a|, |b|) {
      assert SamePadded(a, b) by {
        forall k: nat
          ensures Part(a, k) == Part(b, k)
        {
        }
      }
    } else if Part(a, i) == Part(b, i) {
      CompareFromPadded(a, b, i + 1);
    } else {
      FirstDifference(a, b, i);
    }
  }

  lemma FirstDifference(a: seq<nat>, b: seq<nat>, i: nat)
    requires EqualBelow(a, b, i) && Part(a, i) != Part(b, i)
    ensures Outranks(a, b) <==> Part(a, i) > Part(b, i)
    ensures Outranks(b, a) <==> Part(b, i) > Part(a, i)
    ensures !SamePadded(a, b)
  {
    forall k: nat | OutranksAt(a, b, k)
      ensures k == i
    {
      assert k < i ==> Part(a, k) == Part(b, k);
    }
    forall k: nat | OutranksAt(b, a, k)
      ensures k == i
    {
      assert k < i ==> Part(a, k) == Part(b, k);
    }
    assert Part(a, i) > Part(b, i) ==> OutranksAt(a, b, i);
    assert Part(b, i) > Part(a, i) ==> OutranksAt(b, a, i);
  }

  /** The order of two version strings: by the first part where they differ, missing parts
      being zero; equal when they differ nowhere. */
  lemma CompareIsPadded(a: string, b: string)
    ensures CompareVersions(a, b) < 0 <==> Outranks(ParseVersion(a), ParseVersion(b))
    ensures CompareVersions(a, b) > 0 <==> Outranks(ParseVersion(b), ParseVersion(a))
    ensures CompareVersions(a, b) == 0 <==> SamePadded(ParseVersion(a), ParseVersion(b))
  {
    CompareFromPadded(ParseVersion(a), ParseVersion(b), 0);
  }

  lemma OutranksChains(a: seq<nat>, b: seq<nat>, c: seq<nat>)
    requires (Outranks(a, b) || SamePadded(a, b)) && (Outranks(b, c) || SamePadded(b, c))
    ensures Outranks(a, c) || SamePadded(a, c)
  {
    if SamePadded(a, b) {
      if Outranks(b, c) {
        var j: nat :| OutranksAt(b, c, j);
        assert OutranksAt(a, c, j);
      }
    } else {
      var i: nat :| OutranksAt(a, b, i);
      if SamePadded(b, c) {
        assert OutranksAt(a, c, i);
      } else {
        var j: nat :| OutranksAt(b, c, j);
        assert i <= j ==> OutranksAt(a, c, i);
        assert j < i ==> OutranksAt(a, c, j);
      }
    }
  }

  /** `compare_versions` is a total preorder on strings, so `sort_by` may use it. */
  lemma VersionsArePreordered()
    ensures IsPreorder(CompareVersions)
  {
    forall a, b
      ensures Compared(CompareVersions, a, b)
    {
      CompareIsPadded(a, b);
      CompareIsPadded(b, a);
    }
    forall a, b, c
      ensures Chained(CompareVersions, a, b, c)
    {
      VersionsChain(a, b, c);
    }
  }

  lemma VersionsChain(a: string, b: string, c: string)
    ensures Chained(CompareVersions, a, b, c)
  {
    CompareTrichotomy(a, b);
    CompareTrichotomy(b, c);
    CompareTrichotomy(a, c);
    if CompareVersions(a, b) <= 0 && CompareVersions(b, c) <= 0 {
      OutranksChains(ParseVersion(a), ParseVersion(b), ParseVersion(c));
    }
  }

  lemma CompareTrichotomy(a: string, b: string)
    ensures CompareVersions(a, b) <= 0 <==>
              Outranks(ParseVersion(a), ParseVersion(b)) || SamePadded(ParseVersion(a), ParseVersion(b))
  {
    CompareIsPadded(a, b);
  }

  // ---- compatibility ------------------------------------------------------------------

  /** Compatible is: padded (major, minor) not below the required pair. */
  lemma CompatibleIsPadded(required: string, actual: string)
    ensures var r, a := ParseVersion(required), ParseVersion(actual);
            Compatible(required, actual) <==>
                Part(a, 0) > Part(r, 0) || (Part(a, 0) == Part(r, 0) && Part(a, 1) >= Part(r, 1))
  {
  }

  /** Any version that ranks at least as high as a compatible one is compatible. */
  lemma CompatibleUpward(required: string, low: string, high: string)
    requires Compatible(required, low) && CompareVersions(high, low) <= 0
    ensures Compatible(required, high)
  {
    var r, l, h := ParseVersion(required), ParseVersion(low), ParseVersion(high);
    CompatibleIsPadded(required, low);
    CompatibleIsPadded(required, high);
    CompareTrichotomy(high, low);
    assert Part(h, 0) >= Part(l, 0) && (Part(h, 0) == Part(l, 0) ==> Part(h, 1) >= Part(l, 1)) by {
      if !SamePadded(h, l) {
        var i: nat :| OutranksAt(h, l, i);
      }
    }
  }

  // ---- the choice of a file -------------------------------------------------------------

  datatype Dependency = Dependency(publisher: string, name: string, version: string)

  const APP_SUFFIX := ".app"

  function Prefix(dep: Dependency): string {
    dep.publisher + "_" + dep.name + "_"
  }

  /** The version a file name spells for the dependency, if it matches at all. */
  function VersionIn(dep: Dependency, filename: string): Option<string> {
    if Prefix(dep) <= filename && EndsWith(filename[|Prefix(dep)|..], APP_SUFFIX) then
      Some(filename[|Prefix(dep)|..|filename| - |APP_SUFFIX|])
    else None
  }

  type Candidate = (string, string)

  function CompareCandidates(a: Candidate, b: Candidate): int {
    CompareVersions(a.1, b.1)
  }

  predicate Eligible(dep: Dependency, filename: string) {
    VersionIn(dep, filename).Some? && Compatible(dep.version, VersionIn(dep, filename).value)
  }

  /** The compatible files with their versions, in directory order. */
  method Candidates(entries: seq<string>, dep: Dependency) returns (candidates: seq<Candidate>)
    ensures forall f, v :: (f, v) in candidates <==> f in entries && Eligible(dep, f) && VersionIn(dep, f) == Some(v)
  {
    candidates := [];
    for n := 0 to |entries|
      invariant forall f, v :: (f, v) in candidates <==>
                  f in entries[..n] && Eligible(dep, f) && VersionIn(dep, f) == Some(v)
    {
      var f := entries[n];
      assert forall x :: x in entries[..n + 1] <==> x in entries[..n] || x == f;
      var version := VersionIn(dep, f);
      if version.Some? && Compatible(dep.version, version.value) {
        assert Eligible(dep, f);
        candidates := candidates + [(f, version.value)];
      } else {
        assert !Eligible(dep, f);
      }
    }
    assert entries[..|entries|] == entries;
  }

  /** No file of the dependency has a version that outranks `best`'s. */
  ghost predicate NothingOutranks(dep: Dependency, entries: seq<string>, best: string) {
    VersionIn(dep, best).Some? &&
    forall f :: f in entries && VersionIn(dep, f).Some? ==>
                  !Outranks(ParseVersion(VersionIn(dep, f).value), ParseVersion(VersionIn(dep, best).value))
  }

  lemma RankedFirst(dep: Dependency, entries: seq<string>, best: string)
    requires VersionIn(dep, best).Some?
    requires forall f :: f in entries && VersionIn(dep, f).Some? ==>
               CompareVersions(VersionIn(dep, best).value, VersionIn(dep, f).value) <= 0
    ensures NothingOutranks(dep, entries, best)
  {
    forall f | f in entries && VersionIn(dep, f).Some?
      ensures !Outranks(ParseVersion(VersionIn(dep, f).value), ParseVersion(VersionIn(dep, best).value))
    {
      CompareIsPadded(VersionIn(dep, best).value, VersionIn(dep, f).value);
    }
  }

  /** A file matches exactly when its name is the dependency's, a version and `.app`. */
  lemma VersionInMeans(dep: Dependency, filename: string, version: string)
    ensures VersionIn(dep, filename) == Some(version) <==>
              filename == dep.publisher + "_" + dep.name + "_" + version + ".app"
  {
    var prefix := Prefix(dep);
    assert prefix + version + ".app" == prefix + (version + ".app");
    assert (prefix + (version + ".app"))[|prefix|..] == version + ".app";
    if VersionIn(dep, filename) == Some(version) {
      var rest := filename[|prefix|..];
      assert filename == prefix + rest && rest == rest[..|rest| - 4] + rest[|rest| - 4..];
      assert filename[|prefix|..|filename| - 4] == rest[..|rest| - 4];
    }
    assert EndsWith(version + ".app", ".app") && (version + ".app")[..|version|] == version;
  }

  /** `find_matching_app` over the directory's entries, in whatever order they come. When a
      file of the dependency is compatible, the result is one that no file of the dependency
      outranks, compatible or not. */
  method FindMatchingApp(entries: seq<string>, dep: Dependency) returns (found: Option<string>)
    ensures found.None? <==> forall f :: f in entries ==> !Eligible(dep, f)
    ensures found.Some? ==> found.value in entries && Eligible(dep, found.value)
    ensures found.Some? ==> NothingOutranks(dep, entries, found.value)
  {
    var candidates := Candidates(entries, dep);
    if candidates == [] {
      assert forall f :: f in entries && Eligible(dep, f) ==> (f, VersionIn(dep, f).value) in candidates;
      return None;
    }
    var sorted := SortedBy(CompareCandidates, candidates);
    BestCandidate(dep, entries, candidates, sorted);
    RankedFirst(dep, entries, sorted[0].0);
    return Some(sorted[0].0);
  }

  lemma BestCandidate(dep: Dependency, entries: seq<string>, candidates: seq<Candidate>, sorted: seq<Candidate>)
    requires forall f, v :: (f, v) in candidates <==> f in entries && Eligible(dep, f) && VersionIn(dep, f) == Some(v)
    requires candidates != [] && sorted == SortedBy(CompareCandidates, candidates)
    ensures sorted != [] && sorted[0].0 in entries && Eligible(dep, sorted[0].0)
    ensures forall f :: f in entries && VersionIn(dep, f).Some? ==>
              CompareVersions(VersionIn(dep, sorted[0].0).value, VersionIn(dep, f).value) <= 0
    ensures !(forall f :: f in entries ==> !Eligible(dep, f))
  {
    SortedCandidates(candidates);
    assert sorted[0] == (sorted[0].0, sorted[0].1);
    FirstIsBest(dep, entries, candidates, sorted);
  }

  lemma SortedCandidates(candidates: seq<Candidate>)
    ensures var sorted := SortedBy(CompareCandidates, candidates);
            && |sorted| == |candidates| && (forall x :: x in sorted <==> x in candidates)
            && IsSorted(CompareCandidates, sorted)
            && (sorted != [] ==> sorted[0] in candidates)
  {
    CandidatesArePreordered();
    SortedBySorts(CompareCandidates, candidates);
    var sorted := SortedBy(CompareCandidates, candidates);
    assert |sorted| == |multiset(sorted)| && |candidates| == |multiset(candidates)|;
    assert forall x: Candidate :: x in sorted <==> x in multiset(sorted);
    assert forall x: Candidate :: x in candidates <==> x in multiset(candidates);
  }

  lemma CandidatesArePreordered()
    ensures IsPreorder(CompareCandidates)
  {
    VersionsArePreordered();
    forall a, b
      ensures Compared(CompareCandidates, a, b)
    {
      assert Compared(CompareVersions, a.1, b.1);
    }
    forall a, b, c
      ensures Chained(CompareCandidates, a, b, c)
    {
      assert Chained(CompareVersions, a.1, b.1, c.1);
    }
  }

  lemma FirstIsBest(dep: Dependency, entries: seq<string>, candidates: seq<Candidate>, sorted: seq<Candidate>)
    requires forall f, v :: (f, v) in candidates <==> f in entries && Eligible(dep, f) && VersionIn(dep, f) == Some(v)
    requires sorted != [] && IsSorted(CompareCandidates, sorted) && forall x :: x in sorted <==> x in candidates
    ensures forall f :: f in entries && VersionIn(dep, f).Some? ==>
              CompareVersions(sorted[0].1, VersionIn(dep, f).value) <= 0
  {
    forall f | f in entries && VersionIn(dep, f).Some?
      ensures CompareVersions(sorted[0].1, VersionIn(dep, f).value) <= 0
    {
      var v := VersionIn(dep, f).value;
      VersionsArePreordered();
      assert Compared(CompareVersions, sorted[0].1, v);
      assert sorted[0] == (sorted[0].0, sorted[0].1) && sorted[0] in candidates;
      if CompareVersions(v, sorted[0].1) <= 0 {
        CompatibleUpward(dep.version, sorted[0].1, v);
        assert (f, v) in sorted;
        var i :| 0 <= i < |sorted| && sorted[i] == (f, v);
        assert i > 0 ==> CompareCandidates(sorted[0], sorted[i]) <= 0;
        assert Compared(CompareVersions, v, v);
      }
    }
  }
}
