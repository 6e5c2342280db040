/** What one raw file-system event means to the updater (src/watcher.rs, with the cache scope
    of src/dependencies.rs and the path test of src/lsp/updater.rs). A path is its list of
    components below the file-system root; on this side of the platform switch
    `normalize_path` is the identity. */
module WatchEvents {
  import opened Wrappers
  import opened Text

  type Path = seq<string>

  datatype Kind = Any | Access | Create | Remove | Other
                | ModifyName | ModifyData | ModifyMetadata | ModifyAny | ModifyOther

  datatype Event = Event(kind: Kind, paths: seq<Path>, rescan: bool)

  datatype Change = ConfigChanged | DepsChanged | Overflow | PathChanged(path: Path)

  datatype CacheScope = CacheScope(candidates: seq<Path>, walkedDirs: seq<Path>)

  datatype Scope = Scope(root: Path, cache: CacheScope, sourceRoots: seq<Path>)

  datatype Role = CacheFolder | AppFile

  const ALPACKAGES := ".alpackages"
  const GIT := ".git"
  const SOURCES_FILE := "al-sem.dependencies.json"

  function RelUnderRoot(root: Path, p: Path): Option<Path> {
    if root <= p then Some(p[|root|..]) else None
  }

  predicate StrictlyInside(s: Scope, p: Path) {
    s.root < p
  }

  // ---- names ------------------------------------------------------------------

  /** The part after the last dot, unless that dot comes first or there is none. */
  function AfterLastDot(name: string): Option<string>
    decreases |name|
  {
    if |name| <= 1 then None
    else if name[|name| - 1] == '.' then Some("")
    else
      var rest := AfterLastDot(name[..|name| - 1]);
      if rest.None? then None else Some(rest.value + [name[|name| - 1]])
  }

  function Extension(name: string): Option<string> {
    if name == ".." then None else AfterLastDot(name)
  }

  predicate HasAlExtension(p: Path) {
    p != [] && Extension(p[|p| - 1]).Some? && Lower(Extension(p[|p| - 1]).value) == "al"
  }

  predicate IsAppFile(name: string) {
    Extension(name) == Some("app")
  }

  // ---- the cache scope ----------------------------------------------------------

  const MAX_ANCESTORS := 8

  /** How many ancestors the walk visits: it stops after one that holds `.git`, after eight,
      or at the file-system root. */
  function Visited(root: Path, gits: set<Path>, k: nat): nat
    requires k <= |root|
    decreases |root| - k
  {
    if k == |root| || k == MAX_ANCESTORS then k
    else if root[..|root| - 1 - k] in gits then k + 1
    else Visited(root, gits, k + 1)
  }

  lemma {:induction false} VisitedInRange(root: Path, gits: set<Path>, k: nat)
    requires k <= |root| && k <= MAX_ANCESTORS
    ensures k <= Visited(root, gits, k) <= |root| && Visited(root, gits, k) <= MAX_ANCESTORS
    decreases |root| - k
  {
    if !(k == |root| || k == MAX_ANCESTORS) && root[..|root| - 1 - k] !in gits {
      VisitedInRange(root, gits, k + 1);
    }
  }

  /** `package_cache_scope`, where `gits` are the folders holding `.git`: the nearest
      ancestors in order, each with its candidate, and the root's own candidate first. */
  method PackageCacheScope(root: Path, gits: set<Path>) returns (s: CacheScope)
    ensures |s.walkedDirs| == if root in gits then 0 else Visited(root, gits, 0)
    ensures |s.walkedDirs| <= |root|
    ensures forall i :: 0 <= i < |s.walkedDirs| ==> s.walkedDirs[i] == root[..|root| - 1 - i]
    ensures |s.candidates| == |s.walkedDirs| + 1 && s.candidates[0] == root + [ALPACKAGES]
    ensures forall i :: 0 <= i < |s.walkedDirs| ==> s.candidates[i + 1] == s.walkedDirs[i] + [ALPACKAGES]
  {
    VisitedInRange(root, gits, 0);
    s := CacheScope([root + [ALPACKAGES]], []);
    if root in gits {
      return;
    }
    var current := if root == [] then None else Some(root[..|root| - 1]);
    for n := 0 to MAX_ANCESTORS
      invariant |s.walkedDirs| == n && n <= |root| && |s.candidates| == n + 1
      invariant current == if n == |root| then None else Some(root[..|root| - 1 - n])
      invariant Visited(root, gits, 0) == Visited(root, gits, n)
      invariant forall i :: 0 <= i < n ==> s.walkedDirs[i] == root[..|root| - 1 - i]
      invariant s.candidates[0] == root + [ALPACKAGES]
      invariant forall i :: 0 <= i < n ==> s.candidates[i + 1] == s.walkedDirs[i] + [ALPACKAGES]
    {
      if current.None? {
        break;
      }
      var dir := current.value;
      s := CacheScope(s.candidates + [dir + [ALPACKAGES]], s.walkedDirs + [dir]);
      if dir in gits {
        break;
      }
      assert dir != [] ==> dir[..|dir| - 1] == root[..|root| - 2 - n];
      current := if dir == [] then None else Some(dir[..|dir| - 1]);
    }
  }

  /** What `WatchScope::compute` always yields. */
  predicate Computed(s: Scope) {
    && s.root !in s.cache.walkedDirs
    && (forall i, j :: 0 <= i < j < |s.cache.walkedDirs| ==> s.cache.walkedDirs[i] != s.cache.walkedDirs[j])
    && (forall c :: c in s.cache.candidates ==> c != [] && c[|c| - 1] == ALPACKAGES)
  }

  method ComputeScope(root: Path, gits: set<Path>, sourceRoots: seq<Path>) returns (s: Scope)
    ensures s.root == root && s.sourceRoots == sourceRoots && Computed(s)
  {
    var cache := PackageCacheScope(root, gits);
    s := Scope(root, cache, sourceRoots);
    assert forall i :: 0 <= i < |cache.walkedDirs| ==> |cache.walkedDirs[i]| == |root| - 1 - i;
    forall c | c in cache.candidates
      ensures c != [] && c[|c| - 1] == ALPACKAGES
    {
      var i :| 0 <= i < |cache.candidates| && cache.candidates[i] == c;
      assert i > 0 ==> cache.candidates[i - 1 + 1] == cache.walkedDirs[i - 1] + [ALPACKAGES];
    }
  }

  function RoleOf(cache: CacheScope, p: Path): Option<Role> {
    if p in cache.candidates then Some(CacheFolder)
    else if p != [] && p[..|p| - 1] in cache.candidates && IsAppFile(p[|p| - 1]) then Some(AppFile)
    else None
  }

  // ---- the mapping ----------------------------------------------------------------

  predicate Structural(kind: Kind) {
    kind.Create? || kind.Remove? || kind.ModifyName?
  }

  /** The first source root that holds the path: the path below it. */
  function UnderSource(roots: seq<Path>, p: Path): Option<Path> {
    if roots == [] then None
    else if RelUnderRoot(roots[0], p).Some? then RelUnderRoot(roots[0], p)
    else UnderSource(roots[1..], p)
  }

  predicate AppJson(p: Path) {
    p != [] && Lower(p[|p| - 1]) == "app.json"
  }

  /** One path of an event that is neither a rescan nor an access; first match wins. */
  function MapPath(s: Scope, kind: Kind, p: Path): Option<Change> {
    var rel := RelUnderRoot(s.root, p);
    var sub := UnderSource(s.sourceRoots, p);
    var role := RoleOf(s.cache, p);
    if rel == Some([".al-sem.json"]) || rel == Some([".al-call-hierarchy.json"]) then Some(ConfigChanged)
    else if rel == Some([SOURCES_FILE]) then Some(DepsChanged)
    else if sub.Some? then
      if GIT !in sub.value && (HasAlExtension(p) || AppJson(p) || Structural(kind)) then Some(DepsChanged) else None
    else if role == Some(AppFile) then Some(DepsChanged)
    else if role == Some(CacheFolder) && rel != Some([]) then
      if StrictlyInside(s, p) && Structural(kind) then Some(DepsChanged) else None
    else if rel.None? then None
    else if rel.value == [] then (if Structural(kind) then Some(Overflow) else None)
    else if rel.value == ["app.json"] then Some(DepsChanged)
    else if GIT in rel.value then None
    else if (kind.ModifyData? || kind.ModifyMetadata?) && !HasAlExtension(p) then None
    else Some(PathChanged(p))
  }

  function MapPaths(s: Scope, kind: Kind, paths: seq<Path>): seq<Change> {
    if paths == [] then []
    else
      var last := MapPath(s, kind, paths[|paths| - 1]);
      MapPaths(s, kind, paths[..|paths| - 1]) + (if last.Some? then [last.value] else [])
  }

  function Mapped(s: Scope, e: Event): seq<Change> {
    if e.rescan then [Overflow]
    else if e.kind.Access? then []
    else MapPaths(s, e.kind, e.paths)
  }

  /** `map_event`. */
  method MapEvent(s: Scope, e: Event) returns (changes: seq<Change>)
    ensures changes == Mapped(s, e)
  {
    if e.rescan {
      return [Overflow];
    }
    if e.kind.Access? {
      return [];
    }
    changes := [];
    for n := 0 to |e.paths|
      invariant changes == MapPaths(s, e.kind, e.paths[..n])
    {
      assert e.paths[..n + 1][..n] == e.paths[..n];
      var mapped := MapPath(s, e.kind, e.paths[n]);
      if mapped.None? {
        continue;
      }
      changes := changes + [mapped.value];
    }
    assert e.paths[..|e.paths|] == e.paths;
  }

  /** Each change comes from one path of the event, and each path's change is there. */
  lemma {:induction false} ChangesArePathwise(s: Scope, kind: Kind, paths: seq<Path>)
    ensures forall p :: p in paths && MapPath(s, kind, p).Some? ==>
              MapPath(s, kind, p).value in MapPaths(s, kind, paths)
    ensures forall x :: x in MapPaths(s, kind, paths) ==> exists p :: p in paths && MapPath(s, kind, p) == Some(x)
  {
    if paths != [] {
      var rest, last := paths[..|paths| - 1], paths[|paths| - 1];
      ChangesArePathwise(s, kind, rest);
      assert forall p :: p in paths <==> p in rest || p == last;
      forall x | x in MapPaths(s, kind, paths)
        ensures exists p :: p in paths && MapPath(s, kind, p) == Some(x)
      {
        if x in MapPaths(s, kind, rest) {
          var p :| p in rest && MapPath(s, kind, p) == Some(x);
          assert p in paths;
        } else {
          assert last in paths;
        }
      }
    }
  }

  /** The path matters to nobody: outside the root, every source root and every cache folder. */
  predicate Foreign(s: Scope, p: Path) {
    !(s.root <= p) && UnderSource(s.sourceRoots, p).None? && RoleOf(s.cache, p).None?
  }

  /** The two workspace configs, and nothing else, change the config. */
  lemma ConfigChangesMean(s: Scope, kind: Kind, p: Path)
    ensures MapPath(s, kind, p) == Some(ConfigChanged) <==>
              p == s.root + [".al-sem.json"] || p == s.root + [".al-call-hierarchy.json"]
  {
    RootEntry(s, p, ".al-sem.json");
    RootEntry(s, p, ".al-call-hierarchy.json");
  }

  /** A package in a cache folder always rebuilds the dependencies. */
  lemma PackageChangesMean(s: Scope, kind: Kind, p: Path)
    requires RoleOf(s.cache, p) == Some(AppFile) && UnderSource(s.sourceRoots, p).None?
    ensures MapPath(s, kind, p) == Some(DepsChanged)
  {
    AppNames(p[|p| - 1]);
    RootEntry(s, p, ".al-sem.json");
    RootEntry(s, p, ".al-call-hierarchy.json");
  }

  /** What the other changes say about the path they come from. */
  lemma ChangesMean(s: Scope, kind: Kind, p: Path)
    ensures MapPath(s, kind, p) == Some(Overflow) ==> p == s.root && Structural(kind)
    ensures MapPath(s, kind, p).Some? && MapPath(s, kind, p).value.PathChanged? ==>
              MapPath(s, kind, p).value.path == p && StrictlyInside(s, p) && GIT !in p[|s.root|..]
    ensures Foreign(s, p) ==> MapPath(s, kind, p).None?
  {
    var rel := RelUnderRoot(s.root, p);
    assert rel == Some([]) ==> p == s.root + [];
  }

  lemma RootEntry(s: Scope, p: Path, name: string)
    ensures RelUnderRoot(s.root, p) == Some([name]) <==> p == s.root + [name]
  {
  }

  lemma AppNames(name: string)
    requires IsAppFile(name)
    ensures name !in [".al-sem.json", ".al-call-hierarchy.json", SOURCES_FILE, "app.json"]
  {
    ExtensionEnds(name);
    assert name[|name| - 1] == 'p';
  }

  /** The components whose `.git` silences a source file: those below the first source root
      that holds it, else those below the root. */
  function WatchedPart(s: Scope, p: Path): Path
    requires s.root <= p
  {
    var sub := UnderSource(s.sourceRoots, p);
    if sub.Some? then sub.value else p[|s.root|..]
  }

  /** No source change is lost: a source file strictly inside the root, in an event that is
      not an access, yields a change exactly when no `.git` component hides it. */
  lemma SourceChangesAreSeen(s: Scope, e: Event, p: Path)
    requires Computed(s) && !e.rescan && !e.kind.Access? && p in e.paths
    requires StrictlyInside(s, p) && HasAlExtension(p)
    ensures (MapPath(s, e.kind, p).Some? <==> GIT !in WatchedPart(s, p))
    ensures GIT !in WatchedPart(s, p) ==>
              MapPath(s, e.kind, p).value in Mapped(s, e) &&
                  MapPath(s, e.kind, p).value in {PathChanged(p), DepsChanged}
  {
    MapsSource(s, e.kind, p);
    ChangesArePathwise(s, e.kind, e.paths);
  }

  lemma MapsSource(s: Scope, kind: Kind, p: Path)
    requires Computed(s) && StrictlyInside(s, p) && HasAlExtension(p)
    ensures MapPath(s, kind, p) == if GIT in WatchedPart(s, p) then None
                                   else if UnderSource(s.sourceRoots, p).Some? then Some(DepsChanged)
                                   else Some(PathChanged(p))
  {
    SourceName(p[|p| - 1]);
    SourceRel(s, p);
  }

  /** A source file is none of the special entries. */
  lemma SourceRel(s: Scope, p: Path)
    requires Computed(s) && StrictlyInside(s, p) && HasAlExtension(p)
    ensures RoleOf(s.cache, p).None?
    ensures forall name: string :: name in [".al-sem.json", ".al-call-hierarchy.json", SOURCES_FILE, "app.json"] ==>
              RelUnderRoot(s.root, p) != Some([name])
  {
    var name, rel := p[|p| - 1], p[|s.root|..];
    SourceName(name);
    assert rel[|rel| - 1] == name;
  }

  lemma SourceName(name: string)
    requires Extension(name).Some? && Lower(Extension(name).value) == "al"
    ensures !IsAppFile(name) && name != ALPACKAGES && name != SOURCES_FILE && name != "app.json"
    ensures name != ".al-sem.json" && name != ".al-call-hierarchy.json"
  {
    ExtensionEnds(name);
    assert LowerChar(name[|name| - 1]) == 'l';
  }

  /** A non-empty extension ends as its name does. */
  lemma ExtensionEnds(name: string)
    ensures Extension(name).Some? && Extension(name).value != "" ==>
              name != "" && Extension(name).value[|Extension(name).value| - 1] == name[|name| - 1]
    ensures Extension(name).Some? && Lower(Extension(name).value) == "al" ==> LowerChar(name[|name| - 1]) == 'l'
  {
    if Extension(name).Some? && Lower(Extension(name).value) == "al" {
      var ext := Extension(name).value;
      assert LowerChar(ext[1]) == Lower(ext)[1] == 'l';
    }
  }
}
