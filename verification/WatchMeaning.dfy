/** Which change each path of a raw event stands for, said by what the path is and what
    happened to it and not by the order of the rules in src/watcher.rs. */
module WatchMeaning {
  import opened Wrappers
  import opened Text
  import opened WatchEvents

  // ---- what a path is -----------------------------------------------------------

  /** A workspace config at the root. */
  predicate IsConfig(s: Scope, p: Path) {
    p == s.root + [".al-sem.json"] || p == s.root + [".al-call-hierarchy.json"]
  }

  /** The list of source folders at the root. */
  predicate IsSourceList(s: Scope, p: Path) {
    p == s.root + ["al-sem.dependencies.json"]
  }

  predicate IsRootManifest(s: Scope, p: Path) {
    p == s.root + ["app.json"]
  }

  /** `name` is a name, a dot and `ext`, up to case. */
  ghost predicate EndsIn(name: string, ext: string) {
    exists stem, tail :: name == stem + "." + tail && stem != "" && SameLetters(tail, ext)
  }

  ghost predicate IsAlFile(p: Path) {
    p != [] && EndsIn(p[|p| - 1], "al")
  }

  predicate IsManifest(p: Path) {
    p != [] && SameLetters(p[|p| - 1], "app.json")
  }

  predicate IsCacheFolder(s: Scope, p: Path) {
    p in s.cache.candidates
  }

  /** A package directly in a cache folder. */
  ghost predicate IsPackage(s: Scope, p: Path) {
    && p != [] && p !in s.cache.candidates && p[..|p| - 1] in s.cache.candidates
    && exists stem :: stem != "" && p[|p| - 1] == stem + ".app"
  }

  /** Source folder `i` is the first that holds the path. */
  predicate FirstHolding(roots: seq<Path>, p: Path, i: nat) {
    i < |roots| && roots[i] <= p && forall j :: 0 <= j < i ==> !(roots[j] <= p)
  }

  ghost predicate InSources(s: Scope, p: Path) {
    exists i: nat :: FirstHolding(s.sourceRoots, p, i)
  }

  /** A `.git` component below the folder. */
  predicate Hidden(folder: Path, p: Path) {
    exists i :: |folder| <= i < |p| && p[i] == ".git"
  }

  ghost predicate HiddenInSources(s: Scope, p: Path) {
    exists i: nat :: FirstHolding(s.sourceRoots, p, i) && Hidden(s.sourceRoots[i], p)
  }

  // ---- what happened to it --------------------------------------------------------

  /** It came, went or moved. */
  predicate Came(kind: Kind) {
    kind == Create || kind == Remove || kind == ModifyName
  }

  /** Its content or its metadata was written. */
  predicate Written(kind: Kind) {
    kind == ModifyData || kind == ModifyMetadata
  }

  // ---- what it means -----------------------------------------------------------------

  ghost predicate Means(s: Scope, kind: Kind, p: Path, change: Change) {
    match change
    case ConfigChanged => IsConfig(s, p)
    case DepsChanged => !IsConfig(s, p) && ChangesDeps(s, kind, p)
    case Overflow => p == s.root && Came(kind) && !InSources(s, p) && !IsPackage(s, p)
    case PathChanged(q) =>
      && q == p && s.root < p && !Hidden(s.root, p) && (IsAlFile(p) || !Written(kind))
      && !IsConfig(s, p) && !IsSourceList(s, p) && !IsRootManifest(s, p)
      && !InSources(s, p) && !IsPackage(s, p) && !IsCacheFolder(s, p)
  }

  /** The source list; a source or manifest of a source folder, or anything that comes or goes
      there; a package; a cache folder inside the root that comes or goes; the root manifest. */
  ghost predicate ChangesDeps(s: Scope, kind: Kind, p: Path) {
    || IsSourceList(s, p)
    || (InSources(s, p) && !HiddenInSources(s, p) && (IsAlFile(p) || IsManifest(p) || Came(kind)))
    || (!InSources(s, p) && IsPackage(s, p))
    || (!InSources(s, p) && IsCacheFolder(s, p) && s.root < p && Came(kind))
    || (!InSources(s, p) && IsRootManifest(s, p) && !IsCacheFolder(s, p))
  }

  // ---- the code's tests are these -------------------------------------------------------

  lemma {:induction false} AfterLastDotMeans(name: string, tail: string)
    ensures AfterLastDot(name) == Some(tail) <==>
              exists stem :: stem != "" && name == stem + "." + tail && '.' !in tail
    decreases |name|
  {
    if |name| <= 1 {
      forall stem: string | stem != ""
        ensures name != stem + "." + tail
      {
        assert |stem + "." + tail| >= 2;
      }
    } else {
      var rest, last := name[..|name| - 1], name[|name| - 1];
      assert name == rest + [last];
      if last == '.' {
        DotAtTheEnd(rest, tail);
      } else if tail == [] || tail[|tail| - 1] != last {
        forall stem | stem != "" && name == stem + "." + tail
          ensures last == (stem + "." + tail)[|name| - 1]
        {
        }
      } else {
        AfterLastDotMeans(rest, tail[..|tail| - 1]);
        SameStem(rest, tail[..|tail| - 1], last);
        assert tail == tail[..|tail| - 1] + [last];
      }
    }
  }

  lemma DotAtTheEnd(rest: string, tail: string)
    requires rest != ""
    ensures (exists stem :: stem != "" && rest + ['.'] == stem + "." + tail && '.' !in tail) <==> tail == ""
  {
    if tail == "" {
      assert rest + ['.'] == rest + "." + tail;
    }
    forall stem | rest + ['.'] == stem + "." + tail && tail != ""
      ensures '.' in tail
    {
      assert (rest + ['.'])[|rest|] == '.' && (stem + "." + tail)[|rest|] == tail[|tail| - 1];
    }
  }

  lemma SameStem(rest: string, tail: string, last: char)
    requires last != '.'
    ensures (exists stem :: stem != "" && rest == stem + "." + tail && '.' !in tail) <==>
            (exists stem :: stem != "" && rest + [last] == stem + "." + (tail + [last]) && '.' !in tail + [last])
  {
    forall stem
      ensures rest == stem + "." + tail <==> rest + [last] == stem + "." + (tail + [last])
    {
      assert stem + "." + (tail + [last]) == (stem + "." + tail) + [last];
      if rest + [last] == stem + "." + (tail + [last]) {
        assert rest == (rest + [last])[..|rest|] && stem + "." + tail == ((stem + "." + tail) + [last])[..|rest|];
      }
    }
  }

  /** The `.al` test. */
  lemma AlFileMeans(p: Path)
    ensures HasAlExtension(p) <==> IsAlFile(p)
  {
    if p != [] {
      var name := p[|p| - 1];
      forall tail
        ensures Extension(name) == Some(tail) && Lower(tail) == "al" <==>
                  exists stem :: name == stem + "." + tail && stem != "" && SameLetters(tail, "al")
      {
        AfterLastDotMeans(name, tail);
        LowerForgetsCase(tail, "al");
        assert Lower("al") == "al";
        NoDotIn(tail, "al");
        assert name == ".." && SameLetters(tail, "al") ==> forall stem :: stem != "" ==> name != stem + "." + tail;
      }
      if Extension(name).Some? {
        var tail := Extension(name).value;
        assert Extension(name) == Some(tail);
      }
    }
  }

  /** The `.app` test. */
  lemma AppFileMeans(name: string)
    ensures IsAppFile(name) <==> exists stem :: stem != "" && name == stem + ".app"
  {
    AfterLastDotMeans(name, "app");
    forall stem: string
      ensures stem + ".app" == stem + "." + "app"
    {
    }
    assert name == ".." ==> forall stem: string :: stem != "" ==> |stem + ".app"| > 2;
  }

  lemma NoDotIn(tail: string, ext: string)
    requires '.' !in ext
    ensures SameLetters(tail, ext) ==> '.' !in tail
  {
    if SameLetters(tail, ext) {
      forall i | 0 <= i < |tail|
        ensures tail[i] != '.'
      {
        assert SameLetter(tail[i], ext[i]) && ext[i] in ext;
      }
    }
  }

  lemma ManifestMeans(p: Path)
    ensures AppJson(p) <==> IsManifest(p)
  {
    if p != [] {
      LowerForgetsCase(p[|p| - 1], "app.json");
      assert Lower("app.json") == "app.json";
    }
  }

  lemma {:induction false} UnderSourceMeans(roots: seq<Path>, p: Path)
    ensures UnderSource(roots, p).Some? <==> exists i: nat :: FirstHolding(roots, p, i)
    ensures forall i: nat :: FirstHolding(roots, p, i) ==> UnderSource(roots, p) == Some(p[|roots[i]|..])
  {
    if roots != [] && !(roots[0] <= p) {
      UnderSourceMeans(roots[1..], p);
      forall i: nat
        ensures FirstHolding(roots[1..], p, i) <==> FirstHolding(roots, p, i + 1)
      {
      }
      forall i: nat | FirstHolding(roots, p, i)
        ensures i > 0 && FirstHolding(roots[1..], p, i - 1)
      {
      }
    } else if roots != [] {
      assert FirstHolding(roots, p, 0);
    }
  }

  lemma HiddenMeans(folder: Path, p: Path)
    requires folder <= p
    ensures GIT in p[|folder|..] <==> Hidden(folder, p)
  {
    if Hidden(folder, p) {
      var i :| |folder| <= i < |p| && p[i] == ".git";
      assert p[|folder|..][i - |folder|] == ".git";
    }
  }

  lemma SourcesMean(s: Scope, p: Path)
    ensures UnderSource(s.sourceRoots, p).Some? <==> InSources(s, p)
    ensures UnderSource(s.sourceRoots, p).Some? ==>
              (GIT in UnderSource(s.sourceRoots, p).value <==> HiddenInSources(s, p))
  {
    UnderSourceMeans(s.sourceRoots, p);
    forall i: nat | FirstHolding(s.sourceRoots, p, i)
      ensures GIT in p[|s.sourceRoots[i]|..] <==> Hidden(s.sourceRoots[i], p)
    {
      HiddenMeans(s.sourceRoots[i], p);
    }
  }

  lemma RolesMean(s: Scope, p: Path)
    ensures RoleOf(s.cache, p) == Some(CacheFolder) <==> IsCacheFolder(s, p)
    ensures RoleOf(s.cache, p) == Some(AppFile) <==> IsPackage(s, p)
  {
    if p != [] {
      AppFileMeans(p[|p| - 1]);
    }
  }

  lemma EntryOfRoot(s: Scope, p: Path, name: string)
    ensures RelUnderRoot(s.root, p) == Some([name]) <==> p == s.root + [name]
  {
  }

  /** The special entries of the root and the root itself are told apart. */
  lemma RootEntries(s: Scope, p: Path)
    ensures var rel := RelUnderRoot(s.root, p);
            && (rel == Some([".al-sem.json"]) || rel == Some([".al-call-hierarchy.json"]) <==> IsConfig(s, p))
            && (rel == Some([SOURCES_FILE]) <==> IsSourceList(s, p))
            && (rel == Some(["app.json"]) <==> IsRootManifest(s, p))
            && (rel == Some([]) <==> p == s.root)
            && (rel.Some? && rel != Some([]) <==> s.root < p)
            && (rel.Some? ==> (GIT in rel.value <==> Hidden(s.root, p)))
  {
    EntryOfRoot(s, p, ".al-sem.json");
    EntryOfRoot(s, p, ".al-call-hierarchy.json");
    EntryOfRoot(s, p, SOURCES_FILE);
    EntryOfRoot(s, p, "app.json");
    assert p == s.root ==> RelUnderRoot(s.root, p) == Some([]);
    assert RelUnderRoot(s.root, p) == Some([]) ==> p == s.root + [];
    if s.root <= p {
      HiddenMeans(s.root, p);
    }
  }

  /** The rules of one path, with every test said in words. */
  lemma RulesMean(s: Scope, kind: Kind, p: Path)
    ensures MapPath(s, kind, p) ==
              if IsConfig(s, p) then Some(ConfigChanged)
              else if IsSourceList(s, p) then Some(DepsChanged)
              else if InSources(s, p) then
                if !HiddenInSources(s, p) && (IsAlFile(p) || IsManifest(p) || Came(kind)) then Some(DepsChanged)
                else None
              else if IsPackage(s, p) then Some(DepsChanged)
              else if IsCacheFolder(s, p) && p != s.root then
                if s.root < p && Came(kind) then Some(DepsChanged) else None
              else if !(s.root <= p) then None
              else if p == s.root then (if Came(kind) then Some(Overflow) else None)
              else if IsRootManifest(s, p) then Some(DepsChanged)
              else if Hidden(s.root, p) || (Written(kind) && !IsAlFile(p)) then None
              else Some(PathChanged(p))
  {
    RootEntries(s, p);
    SourcesMean(s, p);
    RolesMean(s, p);
    AlFileMeans(p);
    ManifestMeans(p);
  }

  /** Main result: one path yields a change exactly when it means that change, so no two
      changes are meant by one path, and a path that means none yields none. */
  lemma MapPathMeans(s: Scope, kind: Kind, p: Path, change: Change)
    ensures MapPath(s, kind, p) == Some(change) <==> Means(s, kind, p, change)
  {
    RulesMean(s, kind, p);
    NotRoot(s, p);
  }

  lemma NotRoot(s: Scope, p: Path)
    ensures IsConfig(s, p) || IsSourceList(s, p) || IsRootManifest(s, p) ==> s.root < p
    ensures IsConfig(s, p) ==> !IsSourceList(s, p) && !IsRootManifest(s, p)
    ensures IsSourceList(s, p) ==> !IsRootManifest(s, p)
  {
    assert IsConfig(s, p) || IsSourceList(s, p) || IsRootManifest(s, p) ==> p[|p| - 1] == p[|s.root|];
    assert ".al-sem.json"[1] != "al-sem.dependencies.json"[1] && ".al-sem.json"[0] != "app.json"[0];
    assert ".al-call-hierarchy.json"[0] == '.' && "al-sem.dependencies.json"[1] == 'l' && "app.json"[1] == 'p';
  }

  // ---- whole events ----------------------------------------------------------------------

  lemma {:induction false} PathsInTurn(s: Scope, kind: Kind, a: seq<Path>, b: seq<Path>)
    ensures MapPaths(s, kind, a + b) == MapPaths(s, kind, a) + MapPaths(s, kind, b)
  {
    if b == [] {
      assert a + b == a;
    } else {
      assert (a + b)[..|a + b| - 1] == a + b[..|b| - 1];
      PathsInTurn(s, kind, a, b[..|b| - 1]);
    }
  }

  /** Lost events say one `Overflow`, an access says nothing, and any other event says what its
      paths mean, path after path. */
  lemma EventMeans(s: Scope, e: Event, a: seq<Path>, p: Path, b: seq<Path>)
    requires e.paths == a + [p] + b
    ensures e.rescan ==> Mapped(s, e) == [Overflow]
    ensures !e.rescan && e.kind == Access ==> Mapped(s, e) == []
    ensures !e.rescan && e.kind != Access ==>
              Mapped(s, e) == Mapped(s, e.(paths := a)) + Mapped(s, e.(paths := [p])) + Mapped(s, e.(paths := b))
    ensures !e.rescan && e.kind != Access ==>
              forall change :: Mapped(s, e.(paths := [p])) == [change] <==> Means(s, e.kind, p, change)
    ensures !e.rescan && e.kind != Access && (forall change :: !Means(s, e.kind, p, change)) ==>
              Mapped(s, e.(paths := [p])) == []
  {
    PathsInTurn(s, e.kind, a + [p], b);
    PathsInTurn(s, e.kind, a, [p]);
    OnePath(s, e.kind, p);
    forall change
      ensures MapPath(s, e.kind, p) == Some(change) <==> Means(s, e.kind, p, change)
    {
      MapPathMeans(s, e.kind, p, change);
    }
  }

  lemma OnePath(s: Scope, kind: Kind, p: Path)
    ensures MapPaths(s, kind, [p]) == match MapPath(s, kind, p) case Some(change) => [change] case None => []
  {
    assert [p][..0] == [];
  }

  /** The folder `i + 1` levels above the root. */
  function Ancestor(root: Path, i: nat): Path
    requires i < |root|
  {
    root[..|root| - 1 - i]
  }

  /** How far the ancestor walk goes: eight folders at most, none beyond the file-system root,
      none beyond the first that holds `.git`, and no less than that. */
  lemma {:induction false} VisitedMeans(root: Path, gits: set<Path>, k: nat)
    requires k <= |root| && k <= 8
    ensures var n := Visited(root, gits, k);
            && k <= n <= |root| && n <= 8
            && (forall i :: k <= i < n - 1 ==> Ancestor(root, i) !in gits)
            && (n == |root| || n == 8 || (n > k && Ancestor(root, n - 1) in gits))
    decreases |root| - k
  {
    if k < |root| && k < 8 && root[..|root| - 1 - k] !in gits {
      VisitedMeans(root, gits, k + 1);
    }
  }
}
