/** One root's watch registrations (src/watcher.rs): the books `WatchState` keeps against a
    notify backend that may refuse any call and whose watches may die unseen. */
module Watcher {
  import opened Wrappers
  import opened WatchEvents

  datatype Mode = Recursive | NonRecursive

  /** `registered`, `failed`, `seen`: the fields of `WatchState`. `native`: what the backend
      watches; `calls`: how often it was asked to watch. */
  datatype Books = Books(registered: map<Path, Mode>, failed: map<Path, Mode>, seen: map<Path, bool>,
                         native: map<Path, Mode>, calls: nat)

  /** Whether the backend accepts its n-th `watch`. */
  type Answers = nat -> bool

  // ---- the operations on the books ------------------------------------------------

  function Registered(b: Books, answers: Answers, p: Path, mode: Mode): Books {
    if answers(b.calls) then
      b.(registered := b.registered[p := mode], failed := b.failed - {p}, native := b.native[p := mode],
         calls := b.calls + 1)
    else b.(failed := b.failed[p := mode], calls := b.calls + 1)
  }

  function Forgotten(b: Books, p: Path): Books {
    b.(registered := b.registered - {p}, native := b.native - {p})
  }

  function Rearmed(b: Books, answers: Answers, p: Path): Books {
    if p !in b.registered then b else Registered(Forgotten(b, p), answers, p, b.registered[p])
  }

  function RearmedAll(b: Books, answers: Answers, ps: seq<Path>): Books {
    if ps == [] then b else Rearmed(RearmedAll(b, answers, ps[..|ps| - 1]), answers, ps[|ps| - 1])
  }

  /** One planned registration: `start` makes these in order. */
  type Plan = seq<(Path, Mode)>

  function Each(ps: seq<Path>, mode: Mode): (plan: Plan)
    ensures |plan| == |ps| && forall i :: 0 <= i < |ps| ==> plan[i] == (ps[i], mode)
  {
    seq(|ps|, i requires 0 <= i < |ps| => (ps[i], mode))
  }

  function Planned(s: Scope): Plan {
    Each([s.root], Recursive) + Each(s.cache.walkedDirs, NonRecursive) + Each(s.sourceRoots, Recursive)
  }

  function RegisteredAll(b: Books, answers: Answers, plan: Plan): Books {
    if plan == [] then b
    else
      var last := plan[|plan| - 1];
      Registered(RegisteredAll(b, answers, plan[..|plan| - 1]), answers, last.0, last.1)
  }

  lemma {:induction false} RegisteredInTurn(b: Books, answers: Answers, first: Plan, second: Plan)
    ensures RegisteredAll(b, answers, first + second) ==
              RegisteredAll(RegisteredAll(b, answers, first), answers, second)
  {
    if second == [] {
      assert first + second == first;
    } else {
      assert (first + second)[..|first + second| - 1] == first + second[..|second| - 1];
      RegisteredInTurn(b, answers, first, second[..|second| - 1]);
    }
  }

  predicate InPlan(plan: Plan, p: Path) {
    exists i :: 0 <= i < |plan| && plan[i].0 == p
  }

  predicate Twice(plan: Plan, p: Path) {
    exists i, j :: 0 <= i < j < |plan| && plan[i].0 == p && plan[j].0 == p
  }

  lemma PlanGrows(rest: Plan, last: (Path, Mode))
    ensures forall p :: InPlan(rest + [last], p) <==> InPlan(rest, p) || p == last.0
    ensures forall p :: Twice(rest + [last], p) <==> Twice(rest, p) || (p == last.0 && InPlan(rest, p))
  {
    var plan := rest + [last];
    assert plan[|rest|] == last;
    forall p
      ensures InPlan(plan, p) <==> InPlan(rest, p) || p == last.0
      ensures Twice(plan, p) <==> Twice(rest, p) || (p == last.0 && InPlan(rest, p))
    {
      if InPlan(rest, p) {
        var i :| 0 <= i < |rest| && rest[i].0 == p;
        assert plan[i].0 == p;
      }
      if Twice(rest, p) {
        var i, j :| 0 <= i < j < |rest| && rest[i].0 == p && rest[j].0 == p;
        assert plan[i].0 == p && plan[j].0 == p;
      }
      if Twice(plan, p) {
        var i, j :| 0 <= i < j < |plan| && plan[i].0 == p && plan[j].0 == p;
        assert rest[i].0 == p;
      }
    }
  }

  function OutsideCandidates(s: Scope): seq<Path> {
    Outside(s.root, s.cache.candidates)
  }

  function Outside(root: Path, candidates: seq<Path>): (r: seq<Path>)
    ensures forall c :: c in r <==> c in candidates && !(root <= c)
  {
    if candidates == [] then []
    else
      var last := candidates[|candidates| - 1];
      Outside(root, candidates[..|candidates| - 1]) + (if root <= last then [] else [last])
  }

  /** One candidate re-stated: `exists_` is whether it is a folder now. */
  function ResyncedOne(b: Books, answers: Answers, c: Path, exists_: bool): Books {
    var b1 := b.(seen := b.seen[c := exists_]);
    if exists_ then (if c in b.registered then b1 else Registered(b1, answers, c, NonRecursive))
    else
      var b2 := b1.(failed := b1.failed - {c});
      if c in b.registered then Forgotten(b2, c) else b2
  }

  function Resynced(b: Books, answers: Answers, candidates: seq<Path>, dirs: set<Path>): Books {
    if candidates == [] then b
    else
      var c := candidates[|candidates| - 1];
      ResyncedOne(Resynced(b, answers, candidates[..|candidates| - 1], dirs), answers, c, c in dirs)
  }

  // ---- what a raw event does to the books ------------------------------------------------

  /** The root is watched afresh: re-armed, or registered when only the retry list has it. */
  function RootRefreshed(b: Books, answers: Answers, root: Path): Books {
    if root in b.registered then Rearmed(b, answers, root) else Registered(b, answers, root, Recursive)
  }

  /** After lost events: the root and every registered cache folder afresh, then a resync. */
  function Refreshed(s: Scope, b: Books, answers: Answers, dirs: set<Path>): Books {
    var caches := OutsideCandidates(s);
    Resynced(RearmedAll(RootRefreshed(b, answers, s.root), answers, caches), answers, caches, dirs)
  }

  /** What is done before the change is sent. */
  function Prepared(s: Scope, b: Books, answers: Answers, dirs: set<Path>, change: Change): Books {
    match change
    case Overflow => Refreshed(s, b, answers, dirs)
    case DepsChanged => Resynced(b, answers, OutsideCandidates(s), dirs)
    case _ => b
  }

  function PreparedAll(s: Scope, b: Books, answers: Answers, dirs: set<Path>, changes: seq<Change>): Books {
    if changes == [] then b
    else Prepared(s, PreparedAll(s, b, answers, dirs, changes[..|changes| - 1]), answers, dirs, changes[|changes| - 1])
  }

  /** An event that names outside cache folders re-states them all, and when it says that an
      entry appeared, vanished or moved, watches the named ones afresh. */
  function Touched(s: Scope, b: Books, answers: Answers, dirs: set<Path>, e: Event): Books {
    if !Touches(s, e) then b
    else
      var b1 := Resynced(b, answers, OutsideCandidates(s), dirs);
      if Structural(e.kind) then RearmedAll(b1, answers, Named(s, e)) else b1
  }

  /** How many of the changes were tried when sending stopped. */
  predicate TriedUpTo(changes: seq<Change>, n: nat, sent: nat, room: nat, alive: bool) {
    && n <= |changes|
    && if alive then n == |changes|
       else n > 0 && sent + |Expanded(changes[..n - 1])| <= room < sent + |Expanded(changes[..n])|
  }

  /** The books after the changes were sent, as far as the channel took them. */
  ghost predicate Delivered(s: Scope, answers: Answers, dirs: set<Path>, changes: seq<Change>, b: Books, b1: Books,
                            sent: nat, room: nat, alive: bool)
  {
    exists n: nat :: TriedUpTo(changes, n, sent, room, alive) && b1 == PreparedAll(s, b, answers, dirs, changes[..n])
  }

  /** The books after a raw event; a watch error changes nothing. */
  ghost predicate Handled(s: Scope, answers: Answers, dirs: set<Path>, raw: Option<Event>, b: Books, b1: Books,
                          sent: nat, room: nat, alive: bool)
  {
    match raw
    case None => b1 == b
    case Some(e) =>
      Delivered(s, answers, dirs, Outgoing(s, e, Stale(b.seen, OutsideCandidates(s), dirs)),
                Touched(s, b, answers, dirs, e), b1, sent, room, alive)
  }

  const NEW_BOOKS := Books(map[], map[], map[], map[], 0)

  function Started(s: Scope, answers: Answers, dirs: set<Path>): Books {
    Resynced(RegisteredAll(NEW_BOOKS, answers, Planned(s)), answers, OutsideCandidates(s), dirs)
  }

  // ---- what the books keep ----------------------------------------------------------

  predicate Disjoint(b: Books) {
    b.registered.Keys !! b.failed.Keys
  }

  /** The backend watches only what is registered, in the registered mode. */
  predicate Backed(b: Books) {
    forall p :: p in b.native ==> p in b.registered && b.native[p] == b.registered[p]
  }

  /** Registered watches that died without the watcher being told. */
  function Dead(b: Books): set<Path> {
    b.registered.Keys - b.native.Keys
  }

  /** The root is watched or on the retry list, and always recursive. */
  predicate RootKept(b: Books, root: Path) {
    && (root in b.registered || root in b.failed)
    && (root in b.registered ==> b.registered[root].Recursive?)
    && (root in b.failed ==> b.failed[root].Recursive?)
  }

  /** Every existing candidate is watched or retried, every absent one neither. */
  predicate Synced(b: Books, candidates: seq<Path>, dirs: set<Path>) {
    forall c :: c in candidates ==>
      if c in dirs then c in b.registered || c in b.failed else c !in b.registered && c !in b.failed
  }

  lemma AliveMeansEqual(b: Books)
    requires Backed(b)
    ensures Dead(b) == {} <==> b.native == b.registered
  {
    if Dead(b) == {} {
      assert forall p :: p in b.registered ==> p in b.native || p in Dead(b);
    }
  }

  lemma RegisterKeeps(b: Books, answers: Answers, p: Path, mode: Mode)
    requires Backed(b)
    ensures var b1 := Registered(b, answers, p, mode);
            && Backed(b1) && Dead(b1) <= Dead(b)
            && (answers(b.calls) ==> p !in Dead(b1))
            && (Disjoint(b) && p !in b.registered ==> Disjoint(b1))
  {
  }

  lemma RearmKeeps(b: Books, answers: Answers, p: Path)
    requires Backed(b)
    ensures var b1 := Rearmed(b, answers, p);
            && Backed(b1) && Dead(b1) <= Dead(b) - {p}
            && (Disjoint(b) ==> Disjoint(b1))
            && b1.registered.Keys + b1.failed.Keys == b.registered.Keys + b.failed.Keys
            && (forall q :: q != p ==>
                  (q in b1.registered <==> q in b.registered) && (q in b1.failed <==> q in b.failed))
            && b1.seen == b.seen
  {
  }

  /** A registered path is watched afresh in its own mode, or waits for a retry in it. */
  lemma RearmedMeans(b: Books, answers: Answers, p: Path)
    ensures var b1 := Rearmed(b, answers, p);
            if p !in b.registered then b1 == b
            else
              && b1.calls == b.calls + 1 && b1.native - {p} == b.native - {p}
              && b1.registered - {p} == b.registered - {p} && b1.failed - {p} == b.failed - {p}
              && (if answers(b.calls)
                  then p in b1.registered && b1.registered[p] == b.registered[p] && p !in b1.failed &&
                       p in b1.native && b1.native[p] == b.registered[p]
                  else p !in b1.registered && p !in b1.native && p in b1.failed && b1.failed[p] == b.registered[p])
  {
  }

  lemma RearmKeepsRoot(b: Books, answers: Answers, p: Path, root: Path)
    requires RootKept(b, root)
    ensures RootKept(Rearmed(b, answers, p), root)
  {
  }

  /** None of the paths has a dead watch. */
  predicate Alive(b: Books, ps: seq<Path>) {
    forall p :: p in ps ==> p !in Dead(b)
  }

  lemma {:induction false} RearmAllKeeps(b: Books, answers: Answers, ps: seq<Path>, root: Path)
    requires Backed(b) && RootKept(b, root)
    ensures var b1 := RearmedAll(b, answers, ps);
            && Backed(b1) && RootKept(b1, root)
            && Dead(b1) <= Dead(b) && (forall p :: p in ps ==> p !in Dead(b1))
            && (Disjoint(b) ==> Disjoint(b1))
            && b1.registered.Keys + b1.failed.Keys == b.registered.Keys + b.failed.Keys
  {
    if ps != [] {
      var rest, last := ps[..|ps| - 1], ps[|ps| - 1];
      RearmAllKeeps(b, answers, rest, root);
      RearmKeeps(RearmedAll(b, answers, rest), answers, last);
      RearmKeepsRoot(RearmedAll(b, answers, rest), answers, last, root);
      assert forall p :: p in ps <==> p in rest || p == last;
    }
  }

  /** The books say the same of `p`'s registration and retry. */
  predicate SameFor(b: Books, b1: Books, p: Path) {
    && (p in b1.registered <==> p in b.registered)
    && (p in b.registered && p in b1.registered ==> b1.registered[p] == b.registered[p])
    && (p in b1.failed <==> p in b.failed)
    && (p in b.failed && p in b1.failed ==> b1.failed[p] == b.failed[p])
  }

  lemma ResyncOneKeeps(b: Books, answers: Answers, c: Path, dirs: set<Path>)
    requires Backed(b)
    ensures var b1 := ResyncedOne(b, answers, c, c in dirs);
            && Backed(b1) && Dead(b1) <= Dead(b)
            && (Disjoint(b) ==> Disjoint(b1))
            && Synced(b1, [c], dirs)
            && b1.seen == b.seen[c := c in dirs]
            && (forall p :: p != c ==> SameFor(b, b1, p))
            && (c in dirs && c in b.registered ==> SameFor(b, b1, c))
  {
  }

  lemma {:induction false} ResyncKeeps(b: Books, answers: Answers, candidates: seq<Path>, dirs: set<Path>)
    requires Backed(b)
    ensures var b1 := Resynced(b, answers, candidates, dirs);
            && Backed(b1) && Dead(b1) <= Dead(b)
            && (Disjoint(b) ==> Disjoint(b1))
            && Synced(b1, candidates, dirs)
            && (forall p :: p !in candidates ==> SameFor(b, b1, p))
            && (forall p :: p in dirs && p in b.registered ==> SameFor(b, b1, p))
  {
    if candidates != [] {
      var rest, c := candidates[..|candidates| - 1], candidates[|candidates| - 1];
      ResyncKeeps(b, answers, rest, dirs);
      var b0, b1 := Resynced(b, answers, rest, dirs), Resynced(b, answers, candidates, dirs);
      ResyncOneKeeps(b0, answers, c, dirs);
      assert forall p :: p in candidates <==> p in rest || p == c;
      assert forall p :: p != c ==> SameFor(b0, b1, p);
      assert c in [c];
      forall p | p in candidates
        ensures if p in dirs then p in b1.registered || p in b1.failed else p !in b1.registered && p !in b1.failed
      {
        if p != c {
          assert SameFor(b0, b1, p);
        }
      }
      forall p | p !in candidates || (p in dirs && p in b.registered)
        ensures SameFor(b, b1, p)
      {
        assert SameFor(b, b0, p);
        if p == c {
          assert SameFor(b0, b1, c);
        } else {
          assert SameFor(b0, b1, p);
        }
      }
    }
  }

  /** A mode a cache folder may have: its own as before, or that of a folder by itself. */
  predicate ModeKept(before: map<Path, Mode>, after: map<Path, Mode>, p: Path) {
    p in after ==> after[p].NonRecursive? || (p in before && before[p] == after[p])
  }

  /** A resync watches cache folders without what is below them, and keeps the mode of those
      registered (a root that is itself a candidate stays recursive). */
  lemma {:induction false} ResyncModes(b: Books, answers: Answers, candidates: seq<Path>, dirs: set<Path>, p: Path)
    ensures var b1 := Resynced(b, answers, candidates, dirs);
            ModeKept(b.registered, b1.registered, p) && ModeKept(b.failed, b1.failed, p)
  {
    if candidates != [] {
      ResyncModes(b, answers, candidates[..|candidates| - 1], dirs, p);
    }
  }

  /** What `cache_seen` holds after a resync, and when it reports a change. */
  lemma {:induction false} ResyncSees(b: Books, answers: Answers, candidates: seq<Path>, dirs: set<Path>)
    ensures var b1 := Resynced(b, answers, candidates, dirs);
            && (forall c :: c in candidates ==> c in b1.seen && b1.seen[c] == (c in dirs))
            && (forall p :: p !in candidates ==>
                  (p in b1.seen <==> p in b.seen) && (p in b.seen ==> b1.seen[p] == b.seen[p]))
  {
    if candidates != [] {
      var rest, c := candidates[..|candidates| - 1], candidates[|candidates| - 1];
      ResyncSees(b, answers, rest, dirs);
      assert forall p :: p in candidates <==> p in rest || p == c;
      assert Resynced(b, answers, candidates, dirs).seen == Resynced(b, answers, rest, dirs).seen[c := c in dirs];
    }
  }

  lemma ResyncGrows(b: Books, answers: Answers, candidates: seq<Path>, n: nat, dirs: set<Path>)
    requires n < |candidates|
    ensures var (c, b1) := (candidates[n], Resynced(b, answers, candidates[..n], dirs));
            && Resynced(b, answers, candidates[..n + 1], dirs) == ResyncedOne(b1, answers, c, c in dirs)
            && (Stale(b.seen, candidates[..n + 1], dirs) <==>
                Stale(b.seen, candidates[..n], dirs) || !(c in b1.seen && b1.seen[c] == (c in dirs)))
  {
    ResyncSees(b, answers, candidates[..n], dirs);
    assert forall p :: p in candidates[..n + 1] <==> p in candidates[..n] || p == candidates[n];
    assert candidates[..n + 1][..n] == candidates[..n];
  }

  /** The paths among the candidates. */
  function NamedIn(candidates: seq<Path>, paths: seq<Path>): (r: seq<Path>)
    ensures forall p :: p in r <==> p in paths && p in candidates
  {
    if paths == [] then []
    else
      var last := paths[|paths| - 1];
      NamedIn(candidates, paths[..|paths| - 1]) + (if last in candidates then [last] else [])
  }

  // ---- the retry pass ------------------------------------------------------------------

  /** `plan` tries paths of `failed` once each, in their own modes; `todo` is left to try. */
  ghost predicate PartOfPass(plan: Plan, failed: map<Path, Mode>, todo: map<Path, Mode>) {
    && |plan| + |todo| == |failed|
    && (forall i :: 0 <= i < |plan| ==> plan[i].0 in failed && plan[i].1 == failed[plan[i].0])
    && (forall i, j :: 0 <= i < j < |plan| ==> plan[i].0 != plan[j].0)
    && (forall p :: p in failed ==> (InPlan(plan, p) <==> p !in todo))
    && (forall p :: p in todo ==> p in failed && todo[p] == failed[p])
  }

  /** `plan` tries each failed path exactly once, in its own mode. */
  ghost predicate IsPass(plan: Plan, failed: map<Path, Mode>) {
    PartOfPass(plan, failed, map[])
  }

  /** The backend accepts some call of the pass that begins with its `calls`-th. */
  ghost predicate Accepted(answers: Answers, calls: nat, plan: Plan) {
    exists i :: calls <= i < calls + |plan| && answers(i)
  }

  ghost predicate AcceptedFor(answers: Answers, calls: nat, plan: Plan, p: Path) {
    exists i :: 0 <= i < |plan| && plan[i].0 == p && answers(calls + i)
  }

  /** The books after a retry pass in the order of `plan`. */
  function Retried(b: Books, answers: Answers, plan: Plan): Books {
    RegisteredAll(b.(failed := map[]), answers, plan)
  }

  lemma {:induction false} CallsOf(b: Books, answers: Answers, plan: Plan)
    ensures RegisteredAll(b, answers, plan).calls == b.calls + |plan|
  {
    if plan != [] {
      CallsOf(b, answers, plan[..|plan| - 1]);
    }
  }

  lemma PassGrows(plan: Plan, failed: map<Path, Mode>, todo: map<Path, Mode>, p: Path)
    requires PartOfPass(plan, failed, todo) && p in todo
    ensures PartOfPass(plan + [(p, todo[p])], failed, todo - {p})
  {
    PlanGrows(plan, (p, todo[p]));
    assert !InPlan(plan, p);
    assert |todo.Keys - {p}| == |todo.Keys| - 1;
    assert (todo - {p}).Keys == todo.Keys - {p};
    forall i | 0 <= i < |plan|
      ensures plan[i].0 != p
    {
      assert InPlan(plan, plan[i].0);
    }
  }

  lemma AcceptedGrows(answers: Answers, calls: nat, plan: Plan, last: (Path, Mode), root: Path)
    ensures Accepted(answers, calls, plan + [last]) <==> Accepted(answers, calls, plan) || answers(calls + |plan|)
    ensures AcceptedFor(answers, calls, plan + [last], root) <==>
              AcceptedFor(answers, calls, plan, root) || (last.0 == root && answers(calls + |plan|))
  {
    var more := plan + [last];
    assert more[|plan|] == last;
    if Accepted(answers, calls, plan) {
      var i :| calls <= i < calls + |plan| && answers(i);
      assert calls <= i < calls + |more| && answers(i);
    }
    if AcceptedFor(answers, calls, plan, root) {
      var i :| 0 <= i < |plan| && plan[i].0 == root && answers(calls + i);
      assert 0 <= i < |more| && more[i].0 == root;
    }
  }

  /** The books in the middle of the pass, and what was accepted so far. */
  ghost predicate PassSoFar(b0: Books, b: Books, answers: Answers, root: Path, plan: Plan, some: bool, rootBack: bool) {
    && b == Retried(b0, answers, plan)
    && (some <==> Accepted(answers, b0.calls, plan))
    && (rootBack <==> AcceptedFor(answers, b0.calls, plan, root))
  }

  lemma PassStep(b0: Books, b: Books, answers: Answers, root: Path, plan: Plan, some: bool, rootBack: bool,
                 p: Path, mode: Mode)
    requires PassSoFar(b0, b, answers, root, plan, some, rootBack)
    ensures PassSoFar(b0, Registered(b, answers, p, mode), answers, root, plan + [(p, mode)],
                      some || answers(b.calls), rootBack || (answers(b.calls) && p == root))
  {
    RetriedGrows(b0, answers, plan, (p, mode));
    AcceptedGrows(answers, b0.calls, plan, (p, mode), root);
  }

  lemma RetriedGrows(b0: Books, answers: Answers, plan: Plan, last: (Path, Mode))
    ensures Retried(b0, answers, plan).calls == b0.calls + |plan|
    ensures Retried(b0, answers, plan + [last]) == Registered(Retried(b0, answers, plan), answers, last.0, last.1)
  {
    CallsOf(b0.(failed := map[]), answers, plan);
    assert (plan + [last])[..|plan|] == plan;
  }

  /** A whole pass from `b0` to `b`, whether some call of it was accepted, and the root's. */
  ghost predicate RetriedBy(b0: Books, b: Books, answers: Answers, root: Path, plan: Plan, some: bool, rootBack: bool) {
    IsPass(plan, b0.failed) && PassSoFar(b0, b, answers, root, plan, some, rootBack)
  }

  /** What the updater hears of a retry pass. */
  function Returned(some: bool, root: bool): seq<Change> {
    if !some then [] else if root then [ConfigChanged, Overflow] else [DepsChanged]
  }

  /** What a pass does: it asks the backend once per failed path. A path whose call is accepted
      is watched and registered in its mode and off the retry list, a path whose call is refused
      waits as before; nothing else changes. */
  lemma {:induction false} PassMeans(b: Books, answers: Answers, plan: Plan, i: nat)
    requires i < |plan| && forall j, k :: 0 <= j < k < |plan| ==> plan[j].0 != plan[k].0
    ensures var (b1, p, mode) := (RegisteredAll(b, answers, plan), plan[i].0, plan[i].1);
            && b1.calls == b.calls + |plan|
            && (answers(b.calls + i) ==>
                  p in b1.registered && b1.registered[p] == mode && p in b1.native && b1.native[p] == mode &&
                  p !in b1.failed)
            && (!answers(b.calls + i) ==> p in b1.failed && b1.failed[p] == mode && SameWatch(b, b1, p))
  {
    var rest, n := plan[..|plan| - 1], |plan| - 1;
    CallsOf(b, answers, rest);
    CallsOf(b, answers, plan);
    if i < n {
      PassMeans(b, answers, rest, i);
    } else {
      UntriedAreLeft(b, answers, rest, plan[i].0);
    }
  }

  /** Where a tried path ends up. */
  predicate EndsUp(to: Books, p: Path, mode: Mode, accepted: bool, isCache: bool, isFolder: bool) {
    if accepted then
      if isCache && !isFolder then p !in to.registered && p !in to.failed
      else p in to.registered && to.registered[p] == mode && p !in to.failed
    else isCache || (p in to.failed && to.failed[p] == mode)
  }

  /** Main result on retries: one call per failed path; afterwards a path whose call was accepted
      is registered in its own mode and off the retry list, one that is a cache folder by then
      gone is on neither, and a refused one that is no cache folder waits in its mode. */
  lemma {:induction false} RetriedMeans(s: Scope, answers: Answers, dirs: set<Path>, b0: Books, plan: Plan, b: Books,
                                        some: bool, root: bool, i: nat)
    requires Backed(b0) && RetriedBy(b0, b, answers, s.root, plan, some, root) && i < |plan|
    ensures |plan| == |b0.failed| && b.calls == b0.calls + |b0.failed|
    ensures var to := if some then Resynced(b, answers, OutsideCandidates(s), dirs) else b;
            && plan[i].0 in b0.failed
            && EndsUp(to, plan[i].0, b0.failed[plan[i].0], answers(b0.calls + i), plan[i].0 in OutsideCandidates(s),
                      plan[i].0 in dirs)
  {
    PassMeans(b0.(failed := map[]), answers, plan, i);
    BackedThroughPass(b0.(failed := map[]), answers, plan);
    ResyncedEnds(b, answers, OutsideCandidates(s), dirs, plan[i].0, plan[i].1, answers(b0.calls + i));
    if answers(b0.calls + i) {
      assert Accepted(answers, b0.calls, plan);
    }
  }

  lemma {:induction false} ResyncedEnds(b: Books, answers: Answers, candidates: seq<Path>, dirs: set<Path>, p: Path,
                                        mode: Mode, accepted: bool)
    requires Backed(b)
    requires if accepted then p in b.registered && b.registered[p] == mode && p !in b.failed
             else p in b.failed && b.failed[p] == mode
    ensures EndsUp(Resynced(b, answers, candidates, dirs), p, mode, accepted, p in candidates, p in dirs)
  {
    AfterResync(b, answers, candidates, dirs, p);
  }

  lemma {:induction false} AfterResync(b: Books, answers: Answers, candidates: seq<Path>, dirs: set<Path>, p: Path)
    requires Backed(b)
    ensures var to := Resynced(b, answers, candidates, dirs);
            if p in candidates && p !in dirs then p !in to.registered && p !in to.failed
            else p in b.registered || p !in candidates ==> SameFor(b, to, p)
  {
    ResyncKeeps(b, answers, candidates, dirs);
  }

  lemma {:induction false} BackedThroughPass(b: Books, answers: Answers, plan: Plan)
    requires Backed(b)
    ensures Backed(RegisteredAll(b, answers, plan))
  {
    if plan != [] {
      var rest, last := plan[..|plan| - 1], plan[|plan| - 1];
      BackedThroughPass(b, answers, rest);
      RegisterKeeps(RegisteredAll(b, answers, rest), answers, last.0, last.1);
    }
  }

  predicate SameWatch(b: Books, b1: Books, p: Path) {
    && (p in b1.registered <==> p in b.registered)
    && (p in b.registered && p in b1.registered ==> b1.registered[p] == b.registered[p])
    && (p in b1.native <==> p in b.native)
    && (p in b.native && p in b1.native ==> b1.native[p] == b.native[p])
  }

  lemma {:induction false} UntriedAreLeft(b: Books, answers: Answers, plan: Plan, p: Path)
    requires !InPlan(plan, p)
    ensures var b1 := RegisteredAll(b, answers, plan);
            SameWatch(b, b1, p) && (p in b1.failed <==> p in b.failed) &&
            (p in b.failed ==> b1.failed[p] == b.failed[p]) && b1.seen == b.seen
  {
    if plan != [] {
      var rest, last := plan[..|plan| - 1], plan[|plan| - 1];
      PlanGrows(rest, last);
      assert rest + [last] == plan;
      UntriedAreLeft(b, answers, rest, p);
    }
  }

  /** In the middle of a retry pass that began with `b0`: what is still to try, and whether
      something has come back. */
  ghost predicate Retrying(b0: Books, b: Books, todo: map<Path, Mode>, some: bool) {
    && Backed(b) && Dead(b) <= Dead(b0) && b.seen == b0.seen
    && todo.Keys !! b.failed.Keys
    && (Disjoint(b0) ==> Disjoint(b) && todo.Keys !! b.registered.Keys)
    && (forall p :: p in todo ==> p in b0.failed && todo[p] == b0.failed[p])
    && (forall p :: p in b.failed ==> p in b0.failed && b.failed[p] == b0.failed[p])
    && (forall p :: p in b0.failed ==> p in todo || p in b.failed || (some && p in b.registered))
    && (forall p :: p in b0.registered ==> p in b.registered)
    && (forall p :: p in b.registered ==> (p in b0.registered && b.registered[p] == b0.registered[p])
                                          || (p in b0.failed && b.registered[p] == b0.failed[p]))
    && (!some ==> b.registered == b0.registered)
  }

  lemma RetryBegins(b0: Books)
    requires Backed(b0)
    ensures Retrying(b0, b0.(failed := map[]), b0.failed, false)
  {
  }

  lemma RetryDone(b0: Books, b: Books, some: bool, root: Path)
    requires Retrying(b0, b, map[], some) && RootKept(b0, root)
    ensures RootKept(b, root) && (Disjoint(b0) ==> Disjoint(b)) && Dead(b) <= Dead(b0) && Backed(b)
    ensures !some ==> b.registered == b0.registered && b.failed == b0.failed
  {
  }

  lemma RetryStep(b0: Books, b: Books, todo: map<Path, Mode>, some: bool, answers: Answers, p: Path)
    requires Retrying(b0, b, todo, some) && p in todo
    ensures Retrying(b0, Registered(b, answers, p, todo[p]), todo - {p}, some || answers(b.calls))
  {
    RegisterKeeps(b, answers, p, todo[p]);
  }

  // ---- the classes --------------------------------------------------------------------

  /** The notify backend. An `unwatch` may report an error, but the watch is gone either way. */
  class Backend {
    const answers: Answers
    var native: map<Path, Mode>
    var calls: nat

    method Watch(p: Path, mode: Mode) returns (ok: bool)
      modifies this
      ensures ok == answers(old(calls)) && calls == old(calls) + 1
      ensures native == if ok then old(native)[p := mode] else old(native)
    {
      ok := answers(calls);
      calls := calls + 1;
      if ok {
        native := native[p := mode];
      }
    }

    /** The operating system drops watches unasked. */
    method Die(ps: set<Path>)
      modifies this`native
      ensures native == old(native) - ps
    {
      native := native - ps;
    }

    method Unwatch(p: Path)
      modifies this`native
      ensures native == old(native) - {p}
    {
      native := native - {p};
    }
  }

  /** One turn of the watch thread: the watches that died since the last, what it received,
      whether five seconds have passed, and the folders there are now. */
  datatype Turn = Turn(deaths: set<Path>, raw: Option<Option<Event>>, retryDue: bool, dirs: set<Path>)

  /** What reached the updater, in order; a change with the books at that moment. */
  datatype Trace = Reloaded | Sent(change: Change, books: Books)

  /** The config handle and the updater's channel, which closes after `room` sends. */
  class Updater {
    const room: nat
    var sent: nat
    ghost var log: seq<Trace>

    ghost predicate Valid()
      reads this
    {
      sent <= room
    }

    method Reload()
      modifies this`log
      ensures log == old(log) + [Reloaded] && Changes(log) == Changes(old(log))
    {
      log := log + [Reloaded];
      assert log[..|log| - 1] == old(log);
    }

    method Send(change: Change, ghost books: Books) returns (delivered: bool)
      requires Valid()
      modifies this
      ensures Valid() && Told(old(log), old(sent), log, sent, room, [change], delivered)
      ensures log == if delivered then old(log) + [Sent(change, books)] else old(log)
    {
      delivered := sent < room;
      if delivered {
        log := log + [Sent(change, books)];
        sent := sent + 1;
        assert log[..|log| - 1] == old(log);
      }
    }
  }

  /** The changes went out in order until the channel closed, and `alive` says whether all did. */
  ghost predicate Told(log0: seq<Trace>, sent0: nat, log1: seq<Trace>, sent1: nat, room: nat, changes: seq<Change>,
                       alive: bool)
  {
    && sent0 <= room
    && (alive <==> sent0 + |changes| <= room)
    && sent1 == (if alive then sent0 + |changes| else room)
    && Changes(log1) == Changes(log0) + changes[..sent1 - sent0]
  }

  lemma ToldTwice(log0: seq<Trace>, sent0: nat, log1: seq<Trace>, sent1: nat, log2: seq<Trace>, sent2: nat,
                  room: nat, first: seq<Change>, second: seq<Change>, alive: bool)
    requires Told(log0, sent0, log1, sent1, room, first, true)
    requires Told(log1, sent1, log2, sent2, room, second, alive)
    ensures Told(log0, sent0, log2, sent2, room, first + second, alive)
  {
    assert first[..|first|] == first;
    assert (first + second)[..sent2 - sent0] == first + second[..sent2 - sent1];
  }

  lemma ToldInPart(log0: seq<Trace>, sent0: nat, log1: seq<Trace>, sent1: nat, room: nat, changes: seq<Change>,
                   more: seq<Change>)
    requires Told(log0, sent0, log1, sent1, room, changes, false)
    ensures Told(log0, sent0, log1, sent1, room, changes + more, false)
  {
    assert (changes + more)[..sent1 - sent0] == changes[..sent1 - sent0];
  }

  lemma {:induction false} ExpandedConcat(a: seq<Change>, b: seq<Change>)
    ensures Expanded(a + b) == Expanded(a) + Expanded(b)
  {
    if b == [] {
      assert a + b == a;
    } else {
      assert (a + b)[..|a + b| - 1] == a + b[..|b| - 1];
      ExpandedConcat(a, b[..|b| - 1]);
    }
  }

  lemma {:induction false} OneMoreTold(log0: seq<Trace>, sent0: nat, log1: seq<Trace>, sent1: nat, log2: seq<Trace>,
                                       sent2: nat, room: nat, changes: seq<Change>, n: nat, alive: bool)
    requires n < |changes| && Told(log0, sent0, log1, sent1, room, Expanded(changes[..n]), true)
    requires Told(log1, sent1, log2, sent2, room, Expansion(changes[n]), alive)
    ensures alive ==> Told(log0, sent0, log2, sent2, room, Expanded(changes[..n + 1]), true)
    ensures !alive ==> Told(log0, sent0, log2, sent2, room, Expanded(changes), false)
    ensures !alive ==> TriedUpTo(changes, n + 1, sent0, room, false)
  {
    assert changes[..n + 1] == changes[..n] + [changes[n]];
    ExpandedSnoc(changes[..n], changes[n]);
    ToldTwice(log0, sent0, log1, sent1, log2, sent2, room, Expanded(changes[..n]), Expansion(changes[n]), alive);
    if !alive {
      ExpandedSplits(changes, n + 1);
      ToldInPart(log0, sent0, log2, sent2, room, Expanded(changes[..n + 1]), Expanded(changes[n + 1..]));
    }
  }

  lemma {:induction false} PreparedGrows(s: Scope, b: Books, answers: Answers, dirs: set<Path>, changes: seq<Change>,
                                         n: nat)
    requires n < |changes|
    ensures PreparedAll(s, b, answers, dirs, changes[..n + 1]) ==
              Prepared(s, PreparedAll(s, b, answers, dirs, changes[..n]), answers, dirs, changes[n])
  {
    assert changes[..n + 1][..n] == changes[..n];
  }

  lemma {:induction false} ExpandedSnoc(changes: seq<Change>, last: Change)
    ensures Expanded(changes + [last]) == Expanded(changes) + Expansion(last)
  {
    assert (changes + [last])[..|changes|] == changes;
  }

  lemma {:induction false} ExpandedSplits(changes: seq<Change>, n: nat)
    requires n <= |changes|
    ensures Expanded(changes) == Expanded(changes[..n]) + Expanded(changes[n..])
  {
    ExpandedConcat(changes[..n], changes[n..]);
    assert changes[..n] + changes[n..] == changes;
  }

  /** Since `from`: a `DepsChanged` or `Overflow` went out with the candidates in sync, a
      `ConfigChanged` right after a reload. */
  ghost predicate Timely(log: seq<Trace>, from: nat, candidates: seq<Path>, dirs: set<Path>) {
    forall i :: from <= i < |log| && log[i].Sent? ==> TimelyAt(log, from, i, candidates, dirs)
  }

  ghost predicate TimelyAt(log: seq<Trace>, from: nat, i: nat, candidates: seq<Path>, dirs: set<Path>)
    requires from <= i < |log| && log[i].Sent?
  {
    && (log[i].change.DepsChanged? || log[i].change.Overflow? ==> Synced(log[i].books, candidates, dirs))
    && (log[i].change.ConfigChanged? ==> i > from && log[i - 1].Reloaded?)
  }

  /** The changes delivered in a stretch of the log. */
  ghost function Changes(log: seq<Trace>): seq<Change> {
    if log == [] then []
    else
      var last := log[|log| - 1];
      Changes(log[..|log| - 1]) + (if last.Sent? then [last.change] else [])
  }

  /** Each `Overflow` goes out behind a `ConfigChanged`. */
  function Expanded(changes: seq<Change>): seq<Change> {
    if changes == [] then []
    else
      var last := changes[|changes| - 1];
      Expanded(changes[..|changes| - 1]) + Expansion(last)
  }

  function Expansion(change: Change): seq<Change> {
    if change.Overflow? then [ConfigChanged, Overflow] else [change]
  }

  /** Some candidate's existence is not the one last seen. */
  ghost predicate Stale(seen: map<Path, bool>, candidates: seq<Path>, dirs: set<Path>) {
    exists c :: c in candidates && !(c in seen && seen[c] == (c in dirs))
  }

  /** The outside cache folders the event names. */
  function Named(s: Scope, e: Event): seq<Path> {
    NamedIn(OutsideCandidates(s), e.paths)
  }

  /** The event asks for a resync of the cache folders. */
  predicate Touches(s: Scope, e: Event) {
    Named(s, e) != [] && !e.rescan && !e.kind.Access?
  }

  /** What the event sends: `DepsChanged` first when a cache folder changed, then what
      `map_event` says. */
  ghost function Outgoing(s: Scope, e: Event, stale: bool): seq<Change> {
    (if Touches(s, e) && (stale || Structural(e.kind)) then [DepsChanged] else []) + Mapped(s, e)
  }

  /** What a raw event or a watch error makes the updater hear. */
  ghost function Answering(s: Scope, raw: Option<Event>, stale: bool): seq<Change> {
    if raw.None? then [] else Expanded(Outgoing(s, raw.value, stale))
  }

  /** Lost events are answered by a config change and an overflow; nothing by an access; and
      wherever an overflow goes out, a config change goes out right before it. */
  lemma {:induction false} AnsweringMeans(s: Scope, e: Event, stale: bool)
    ensures var told := Answering(s, Some(e), stale);
            && (e.rescan ==> told == [ConfigChanged, Overflow])
            && (!e.rescan && e.kind.Access? ==> told == [])
            && BehindConfig(told)
  {
    if e.rescan {
      assert Expanded([Overflow]) == Expanded([]) + Expansion(Overflow);
    }
    ConfigFirst(Outgoing(s, e, stale));
  }

  predicate BehindConfig(told: seq<Change>) {
    forall i :: 0 <= i < |told| && told[i] == Overflow ==> i > 0 && told[i - 1] == ConfigChanged
  }

  lemma {:induction false} ConfigFirst(changes: seq<Change>)
    ensures BehindConfig(Expanded(changes))
  {
    if changes != [] {
      var n := |changes| - 1;
      ConfigFirst(changes[..n]);
      var front, last := Expanded(changes[..n]), Expansion(changes[n]);
      assert BehindConfig(last);
      forall i | 0 <= i < |front + last| && (front + last)[i] == Overflow
        ensures i > 0 && (front + last)[i - 1] == ConfigChanged
      {
        if i >= |front| {
          assert last[i - |front|] == Overflow;
        }
      }
    }
  }

  // ---- the turns of the thread ------------------------------------------------------------

  /** The books and what the updater has been told. */
  datatype Snap = Snap(books: Books, log: seq<Trace>, sent: nat)

  /** What the received event did; nothing when none was received. */
  ghost predicate RawHandled(s: Scope, answers: Answers, turn: Turn, from: Snap, to: Snap, room: nat, alive: bool) {
    match turn.raw
    case None => to == from && alive
    case Some(raw) =>
      var stale := Stale(from.books.seen, OutsideCandidates(s), turn.dirs);
      && Told(from.log, from.sent, to.log, to.sent, room, Answering(s, raw, stale), alive)
      && Handled(s, answers, turn.dirs, raw, from.books, to.books, from.sent, room, alive)
      && (raw.Some? && Touches(s, raw.value) && Structural(raw.value.kind) ==> Alive(to.books, Named(s, raw.value)))
      && (alive && raw.Some? && raw.value.rescan ==> Alive(to.books, [s.root] + OutsideCandidates(s)))
  }

  /** The retry pass, when one was due. */
  ghost predicate Returns(s: Scope, answers: Answers, turn: Turn, from: Snap, to: Snap, room: nat, alive: bool,
                          plan: Plan, b: Books, some: bool, root: bool)
  {
    && RetriedBy(from.books, b, answers, s.root, plan, some, root)
    && to.books == (if some then Resynced(b, answers, OutsideCandidates(s), turn.dirs) else b)
    && Told(from.log, from.sent, to.log, to.sent, room, Returned(some, root), alive)
  }

  /** A turn with nothing but a retry pass. */
  function DueNow(dirs: set<Path>): Turn {
    Turn({}, None, true, dirs)
  }

  ghost predicate RetryHandled(s: Scope, answers: Answers, turn: Turn, from: Snap, to: Snap, room: nat, alive: bool) {
    if turn.retryDue then
      exists plan, b, some, root :: Returns(s, answers, DueNow(turn.dirs), from, to, room, alive, plan, b, some, root)
    else to == from && alive
  }

  function Dying(from: Snap, deaths: set<Path>): Snap {
    from.(books := from.books.(native := from.books.native - deaths))
  }

  /** One turn: watches die, the event is handled, and if the updater is there yet, a due retry
      pass is made. */
  ghost predicate TurnTaken(s: Scope, answers: Answers, turn: Turn, from: Snap, to: Snap, room: nat, alive: bool) {
    exists mid, heard ::
      && RawHandled(s, answers, turn, Dying(from, turn.deaths), mid, room, heard)
      && if heard then RetryHandled(s, answers, turn, mid, to, room, alive) else to == mid && !alive
  }

  ghost predicate TakenSoFar(s: Scope, answers: Answers, turns: seq<Turn>, story: seq<Snap>, room: nat, n: nat)
    requires n <= |turns| && n < |story|
  {
    forall i :: 0 <= i < n ==> TurnTaken(s, answers, turns[i], story[i], story[i + 1], room, true)
  }

  /** The story of a thread: all turns, or the turns up to one that found the updater gone. */
  ghost predicate Tells(s: Scope, answers: Answers, turns: seq<Turn>, story: seq<Snap>, room: nat, alive: bool) {
    && 1 <= |story| <= |turns| + 1
    && var last := |story| - 1;
       if alive then last == |turns| && TakenSoFar(s, answers, turns, story, room, last)
       else last > 0 && TakenSoFar(s, answers, turns, story, room, last - 1) &&
            TurnTaken(s, answers, turns[last - 1], story[last - 1], story[last], room, false)
  }

  lemma StoryGrows(s: Scope, answers: Answers, turns: seq<Turn>, story: seq<Snap>, room: nat, n: nat, next: Snap,
                   alive: bool)
    requires n < |turns| && |story| == n + 1 && TakenSoFar(s, answers, turns, story, room, n)
    requires TurnTaken(s, answers, turns[n], story[n], next, room, alive)
    ensures alive ==> TakenSoFar(s, answers, turns, story + [next], room, n + 1)
    ensures !alive ==> Tells(s, answers, turns, story + [next], room, false)
  {
    var longer := story + [next];
    assert forall i :: 0 <= i <= n ==> longer[i] == story[i];
    assert longer[n + 1] == next;
  }

  class WatchState {
    const scope: Scope
    var registered: map<Path, Mode>
    var cacheSeen: map<Path, bool>
    var failed: map<Path, Mode>

    constructor (s: Scope)
      ensures scope == s && registered == map[] && cacheSeen == map[] && failed == map[]
    {
      scope, registered, cacheSeen, failed := s, map[], map[], map[];
    }

    ghost function Now(backend: Backend): Books
      reads this, backend
    {
      Books(registered, failed, cacheSeen, backend.native, backend.calls)
    }

    ghost function View(backend: Backend, updater: Updater): Snap
      reads this, backend, updater
    {
      Snap(Now(backend), updater.log, updater.sent)
    }

    ghost predicate Valid(backend: Backend)
      reads this, backend
    {
      Backed(Now(backend)) && RootKept(Now(backend), scope.root)
    }

    method Register(backend: Backend, p: Path, mode: Mode) returns (ok: bool)
      modifies this`registered, this`failed, backend
      ensures ok == backend.answers(old(backend.calls))
      ensures Now(backend) == Registered(old(Now(backend)), backend.answers, p, mode)
    {
      ok := backend.Watch(p, mode);
      if ok {
        failed := failed - {p};
        registered := registered[p := mode];
      } else {
        failed := failed[p := mode];
      }
    }

    method Rearm(backend: Backend, p: Path) returns (found: bool)
      modifies this`registered, this`failed, backend
      ensures found == (p in old(registered))
      ensures Now(backend) == Rearmed(old(Now(backend)), backend.answers, p)
    {
      if p !in registered {
        return false;
      }
      var mode := registered[p];
      registered := registered - {p};
      backend.Unwatch(p);
      var _ := Register(backend, p, mode);
      return true;
    }

    method RearmAll(backend: Backend, ps: seq<Path>)
      modifies this`registered, this`failed, backend
      ensures Now(backend) == RearmedAll(old(Now(backend)), backend.answers, ps)
    {
      for n := 0 to |ps|
        invariant Now(backend) == RearmedAll(old(Now(backend)), backend.answers, ps[..n])
      {
        assert ps[..n + 1][..n] == ps[..n];
        var _ := Rearm(backend, ps[n]);
      }
      assert ps[..|ps|] == ps;
    }

    method Resync(backend: Backend, dirs: set<Path>) returns (changed: bool)
      modifies this, backend
      ensures Now(backend) == Resynced(old(Now(backend)), backend.answers, OutsideCandidates(scope), dirs)
      ensures changed <==> Stale(old(cacheSeen), OutsideCandidates(scope), dirs)
    {
      var candidates := OutsideCandidates(scope);
      changed := false;
      ghost var b := Now(backend);
      for n := 0 to |candidates|
        invariant Now(backend) == Resynced(b, backend.answers, candidates[..n], dirs)
        invariant changed <==> Stale(b.seen, candidates[..n], dirs)
      {
        var c := candidates[n];
        var exists_ := c in dirs;
        ResyncGrows(b, backend.answers, candidates, n, dirs);
        changed := changed || !(c in cacheSeen && cacheSeen[c] == exists_);
        cacheSeen := cacheSeen[c := exists_];
        var known := c in registered;
        if exists_ && !known {
          var _ := Register(backend, c, NonRecursive);
        } else if !exists_ {
          failed := failed - {c};
          if known {
            backend.Unwatch(c);
            registered := registered - {c};
          }
        }
      }
      assert candidates[..|candidates|] == candidates;
    }

    method RegisterEach(backend: Backend, ps: seq<Path>, mode: Mode)
      modifies this`registered, this`failed, backend
      ensures Now(backend) == RegisteredAll(old(Now(backend)), backend.answers, Each(ps, mode))
    {
      ghost var plan := Each(ps, mode);
      for n := 0 to |ps|
        invariant Now(backend) == RegisteredAll(old(Now(backend)), backend.answers, plan[..n])
      {
        assert plan[..n + 1][..n] == plan[..n];
        var _ := Register(backend, ps[n], mode);
      }
      assert plan[..|ps|] == plan;
    }

    /** The root and the walked folders first, then the candidates that exist: one created in
        between is seen by its parent's watch. */
    method Start(backend: Backend, dirs: set<Path>)
      requires registered == map[] && failed == map[] && cacheSeen == map[] && backend.native == map[] &&
               backend.calls == 0
      modifies this, backend
      ensures Now(backend) == Started(scope, backend.answers, dirs)
    {
      RegisterEach(backend, [scope.root], Recursive);
      RegisterEach(backend, scope.cache.walkedDirs, NonRecursive);
      RegisteredInTurn(NEW_BOOKS, backend.answers, Each([scope.root], Recursive),
                       Each(scope.cache.walkedDirs, NonRecursive));
      RegisterEach(backend, scope.sourceRoots, Recursive);
      RegisteredInTurn(NEW_BOOKS, backend.answers,
                       Each([scope.root], Recursive) + Each(scope.cache.walkedDirs, NonRecursive),
                       Each(scope.sourceRoots, Recursive));
      var _ := Resync(backend, dirs);
    }

    /** A resync as the sends rely on it. */
    method ResyncNow(backend: Backend, dirs: set<Path>)
      requires Valid(backend)
      modifies this, backend
      ensures Valid(backend) && Dead(Now(backend)) <= old(Dead(Now(backend)))
      ensures old(Disjoint(Now(backend))) ==> Disjoint(Now(backend))
      ensures Synced(Now(backend), OutsideCandidates(scope), dirs)
      ensures Now(backend) == Resynced(old(Now(backend)), backend.answers, OutsideCandidates(scope), dirs)
    {
      ResyncKeeps(Now(backend), backend.answers, OutsideCandidates(scope), dirs);
      var _ := Resync(backend, dirs);
      assert SameFor(old(Now(backend)), Now(backend), scope.root);
    }

    /** An overflow: the root and every registered cache folder are watched afresh. */
    method Refresh(backend: Backend, dirs: set<Path>)
      requires Valid(backend)
      modifies this, backend
      ensures Valid(backend) && Dead(Now(backend)) <= old(Dead(Now(backend)))
      ensures old(Disjoint(Now(backend))) ==> Disjoint(Now(backend))
      ensures Synced(Now(backend), OutsideCandidates(scope), dirs)
      ensures Alive(Now(backend), [scope.root] + OutsideCandidates(scope))
      ensures Now(backend) == Refreshed(scope, old(Now(backend)), backend.answers, dirs)
    {
      RefreshRoot(backend);
      RearmAllKeeps(Now(backend), backend.answers, OutsideCandidates(scope), scope.root);
      RearmAll(backend, OutsideCandidates(scope));
      ResyncNow(backend, dirs);
    }

    method RefreshRoot(backend: Backend)
      requires Valid(backend)
      modifies this, backend
      ensures Valid(backend) && Dead(Now(backend)) <= old(Dead(Now(backend))) - {scope.root}
      ensures old(Disjoint(Now(backend))) ==> Disjoint(Now(backend))
      ensures Now(backend) == RootRefreshed(old(Now(backend)), backend.answers, scope.root)
    {
      RearmKeeps(Now(backend), backend.answers, scope.root);
      RearmKeepsRoot(Now(backend), backend.answers, scope.root, scope.root);
      RegisterKeeps(Now(backend), backend.answers, scope.root, Recursive);
      var found := Rearm(backend, scope.root);
      if !found {
        var _ := Register(backend, scope.root, Recursive);
      }
    }

    /** Reload the config, then say so. */
    method TellConfig(backend: Backend, updater: Updater, dirs: set<Path>, ghost from: nat) returns (alive: bool)
      requires from <= |updater.log| && Timely(updater.log, from, OutsideCandidates(scope), dirs) && updater.Valid()
      modifies updater
      ensures old(updater.log) <= updater.log && Timely(updater.log, from, OutsideCandidates(scope), dirs)
      ensures updater.Valid()
      ensures Told(old(updater.log), old(updater.sent), updater.log, updater.sent, updater.room, [ConfigChanged], alive)
    {
      updater.Reload();
      alive := updater.Send(ConfigChanged, Now(backend));
    }

    method DeliverOverflow(backend: Backend, updater: Updater, dirs: set<Path>, ghost from: nat) returns (alive: bool)
      requires Valid(backend) && from <= |updater.log|
      requires Timely(updater.log, from, OutsideCandidates(scope), dirs) && updater.Valid()
      modifies this, backend, updater
      ensures Valid(backend) && Dead(Now(backend)) <= old(Dead(Now(backend)))
      ensures old(Disjoint(Now(backend))) ==> Disjoint(Now(backend))
      ensures old(updater.log) <= updater.log && Timely(updater.log, from, OutsideCandidates(scope), dirs)
      ensures updater.Valid() && Told(old(updater.log), old(updater.sent), updater.log, updater.sent, updater.room,
                                      Expansion(Overflow), alive)
      ensures Alive(Now(backend), [scope.root] + OutsideCandidates(scope))
      ensures Now(backend) == Refreshed(scope, old(Now(backend)), backend.answers, dirs)
    {
      Refresh(backend, dirs);
      alive := TellConfig(backend, updater, dirs, from);
      if alive {
        alive := updater.Send(Overflow, Now(backend));
      }
    }

    /** Send one mapped change, with what must happen before it. */
    method Deliver(backend: Backend, updater: Updater, change: Change, dirs: set<Path>, ghost from: nat)
      returns (alive: bool)
      requires Valid(backend) && from <= |updater.log|
      requires Timely(updater.log, from, OutsideCandidates(scope), dirs) && updater.Valid()
      modifies this, backend, updater
      ensures Valid(backend) && Dead(Now(backend)) <= old(Dead(Now(backend)))
      ensures old(Disjoint(Now(backend))) ==> Disjoint(Now(backend))
      ensures old(updater.log) <= updater.log && Timely(updater.log, from, OutsideCandidates(scope), dirs)
      ensures updater.Valid() && Told(old(updater.log), old(updater.sent), updater.log, updater.sent, updater.room,
                                      Expansion(change), alive)
      ensures change.Overflow? ==> Alive(Now(backend), [scope.root] + OutsideCandidates(scope))
      ensures Now(backend) == Prepared(scope, old(Now(backend)), backend.answers, dirs, change)
    {
      if change.ConfigChanged? {
        alive := TellConfig(backend, updater, dirs, from);
      } else if change.Overflow? {
        alive := DeliverOverflow(backend, updater, dirs, from);
      } else {
        if change.DepsChanged? {
          ResyncNow(backend, dirs);
        }
        alive := updater.Send(change, Now(backend));
      }
    }

    method DeliverAll(backend: Backend, updater: Updater, changes: seq<Change>, dirs: set<Path>, ghost from: nat)
      returns (alive: bool)
      requires Valid(backend) && from <= |updater.log|
      requires Timely(updater.log, from, OutsideCandidates(scope), dirs) && updater.Valid()
      modifies this, backend, updater
      ensures Valid(backend) && Dead(Now(backend)) <= old(Dead(Now(backend)))
      ensures old(Disjoint(Now(backend))) ==> Disjoint(Now(backend))
      ensures old(updater.log) <= updater.log && Timely(updater.log, from, OutsideCandidates(scope), dirs)
      ensures updater.Valid() && Told(old(updater.log), old(updater.sent), updater.log, updater.sent, updater.room,
                                      Expanded(changes), alive)
      ensures alive && Overflow in changes ==> Alive(Now(backend), [scope.root] + OutsideCandidates(scope))
      ensures Delivered(scope, backend.answers, dirs, changes, old(Now(backend)), Now(backend), old(updater.sent),
                        updater.room, alive)
    {
      ghost var b := Now(backend);
      for n := 0 to |changes|
        invariant Valid(backend) && Dead(Now(backend)) <= old(Dead(Now(backend)))
        invariant old(Disjoint(Now(backend))) ==> Disjoint(Now(backend))
        invariant old(updater.log) <= updater.log && Timely(updater.log, from, OutsideCandidates(scope), dirs)
        invariant updater.Valid() && Told(old(updater.log), old(updater.sent), updater.log, updater.sent,
                                          updater.room, Expanded(changes[..n]), true)
        invariant Overflow in changes[..n] ==> Alive(Now(backend), [scope.root] + OutsideCandidates(scope))
        invariant Now(backend) == PreparedAll(scope, b, backend.answers, dirs, changes[..n])
      {
        assert Overflow in changes[..n + 1] <==> Overflow in changes[..n] || changes[n] == Overflow;
        ghost var log1, sent1 := updater.log, updater.sent;
        alive := Deliver(backend, updater, changes[n], dirs, from);
        OneMoreTold(old(updater.log), old(updater.sent), log1, sent1, updater.log, updater.sent, updater.room,
                    changes, n, alive);
        PreparedGrows(scope, b, backend.answers, dirs, changes, n);
        if !alive {
          assert TriedUpTo(changes, n + 1, old(updater.sent), updater.room, false);
          return false;
        }
      }
      assert changes[..|changes|] == changes && TriedUpTo(changes, |changes|, old(updater.sent), updater.room, true);
      return true;
    }

    /** `handle_raw`, for an event or a watch error (None), on the folders there are now. The
        books stay sound; every send comes after what it promises; when the updater is alive
        it has been told everything; a replaced cache folder and, after lost events, the root
        and every cache folder have live watches or wait for a retry. */
    method HandleRaw(backend: Backend, raw: Option<Event>, updater: Updater, dirs: set<Path>) returns (alive: bool)
      requires Valid(backend) && updater.Valid()
      modifies this, backend, updater
      ensures Valid(backend) && Dead(Now(backend)) <= old(Dead(Now(backend)))
      ensures old(Disjoint(Now(backend))) ==> Disjoint(Now(backend))
      ensures old(updater.log) <= updater.log
      ensures Timely(updater.log, |old(updater.log)|, OutsideCandidates(scope), dirs)
      ensures updater.Valid()
      ensures Told(old(updater.log), old(updater.sent), updater.log, updater.sent, updater.room,
                   Answering(scope, raw, Stale(old(cacheSeen), OutsideCandidates(scope), dirs)), alive)
      ensures raw.Some? && Touches(scope, raw.value) && Structural(raw.value.kind) ==>
                Alive(Now(backend), Named(scope, raw.value))
      ensures alive && raw.Some? && raw.value.rescan ==> Alive(Now(backend), [scope.root] + OutsideCandidates(scope))
      ensures Handled(scope, backend.answers, dirs, raw, old(Now(backend)), Now(backend), old(updater.sent),
                      updater.room, alive)
    {
      if raw.None? {
        return true;
      }
      var e := raw.value;
      var changes: seq<Change> := [];
      if Touches(scope, e) {
        ResyncKeeps(Now(backend), backend.answers, OutsideCandidates(scope), dirs);
        var changed := Resync(backend, dirs);
        assert SameFor(old(Now(backend)), Now(backend), scope.root);
        if Structural(e.kind) {
          RearmAllKeeps(Now(backend), backend.answers, Named(scope, e), scope.root);
          RearmAll(backend, Named(scope, e));
        }
        if changed || Structural(e.kind) {
          changes := [DepsChanged];
        }
      }
      var mapped := MapEvent(scope, e);
      changes := changes + mapped;
      alive := DeliverAll(backend, updater, changes, dirs, |updater.log|);
    }

    /** The retry pass alone: every failed registration tried once, in whatever order. */
    method RetryEach(backend: Backend) returns (some: bool, root: bool)
      requires Valid(backend)
      modifies this`registered, this`failed, backend
      ensures Valid(backend) && Dead(Now(backend)) <= old(Dead(Now(backend)))
      ensures old(Disjoint(Now(backend))) ==> Disjoint(Now(backend))
      ensures exists plan :: RetriedBy(old(Now(backend)), Now(backend), backend.answers, scope.root, plan, some, root)
    {
      ghost var b0 := Now(backend);
      ghost var plan: Plan := [];
      RetryBegins(b0);
      var todo := failed;
      failed := map[];
      some, root := false, false;
      while todo != map[]
        invariant Retrying(b0, Now(backend), todo, some)
        invariant PartOfPass(plan, b0.failed, todo)
        invariant PassSoFar(b0, Now(backend), backend.answers, scope.root, plan, some, root)
        decreases |todo|
      {
        var p :| p in todo.Keys;
        var mode := todo[p];
        RetryStep(b0, Now(backend), todo, some, backend.answers, p);
        PassGrows(plan, b0.failed, todo, p);
        PassStep(b0, Now(backend), backend.answers, scope.root, plan, some, root, p, mode);
        todo := todo - {p};
        plan := plan + [(p, mode)];
        var ok := Register(backend, p, mode);
        some := some || ok;
        root := root || (ok && p == scope.root);
      }
      RetryDone(b0, Now(backend), some, scope.root);
      assert RetriedBy(b0, Now(backend), backend.answers, scope.root, plan, some, root);
    }

    /** `retry_failed`: one call for each failed path, in its mode. Silent when the backend
        refuses them all; else a resync, then `Overflow` behind a reload when the root came
        back, `DepsChanged` when only others did. */
    method RetryFailed(backend: Backend, updater: Updater, dirs: set<Path>) returns (alive: bool)
      requires Valid(backend) && updater.Valid()
      modifies this, backend, updater
      ensures Valid(backend) && Dead(Now(backend)) <= old(Dead(Now(backend)))
      ensures old(Disjoint(Now(backend))) ==> Disjoint(Now(backend))
      ensures old(updater.log) <= updater.log && updater.Valid()
      ensures Timely(updater.log, |old(updater.log)|, OutsideCandidates(scope), dirs)
      ensures exists plan, b, some, root ::
                Returns(scope, backend.answers, DueNow(dirs), old(View(backend, updater)), View(backend, updater),
                        updater.room, alive, plan, b, some, root)
      ensures updater.sent == old(updater.sent) && alive ==> updater.log == old(updater.log)
    {
      ghost var from := View(backend, updater);
      var some, root := RetryEach(backend);
      ghost var b := Now(backend);
      ghost var plan :| RetriedBy(from.books, b, backend.answers, scope.root, plan, some, root);
      alive := true;
      if some {
        alive := TellReturned(backend, updater, dirs, root);
      }
      ghost var to := View(backend, updater);
      assert Returns(scope, backend.answers, DueNow(dirs), from, to, updater.room, alive, plan, b, some, root);
    }

    /** After a registration came back: a resync, then the news. */
    method TellReturned(backend: Backend, updater: Updater, dirs: set<Path>, root: bool) returns (alive: bool)
      requires Valid(backend) && updater.Valid()
      modifies this, backend, updater
      ensures Valid(backend) && Dead(Now(backend)) <= old(Dead(Now(backend)))
      ensures old(Disjoint(Now(backend))) ==> Disjoint(Now(backend))
      ensures old(updater.log) <= updater.log && updater.Valid()
      ensures Timely(updater.log, |old(updater.log)|, OutsideCandidates(scope), dirs)
      ensures Now(backend) == Resynced(old(Now(backend)), backend.answers, OutsideCandidates(scope), dirs)
      ensures Told(old(updater.log), old(updater.sent), updater.log, updater.sent, updater.room, Returned(true, root),
                   alive)
    {
      ghost var b := Now(backend);
      ResyncKeeps(b, backend.answers, OutsideCandidates(scope), dirs);
      var _ := Resync(backend, dirs);
      assert SameFor(b, Now(backend), scope.root);
      if root {
        alive := TellConfig(backend, updater, dirs, |updater.log|);
        if alive {
          alive := updater.Send(Overflow, Now(backend));
        }
      } else {
        alive := updater.Send(DepsChanged, Now(backend));
      }
    }

    /** One turn of the thread. */
    method TakeTurn(backend: Backend, updater: Updater, turn: Turn) returns (alive: bool)
      requires Valid(backend) && updater.Valid()
      modifies this, backend, updater
      ensures Valid(backend) && updater.Valid()
      ensures old(Disjoint(Now(backend))) ==> Disjoint(Now(backend))
      ensures turn.deaths == {} ==> Dead(Now(backend)) <= old(Dead(Now(backend)))
      ensures TurnTaken(scope, backend.answers, turn, old(View(backend, updater)), View(backend, updater),
                        updater.room, alive)
    {
      ghost var before := View(backend, updater);
      backend.Die(turn.deaths);
      alive := true;
      ghost var from := View(backend, updater);
      assert from == Dying(before, turn.deaths);
      if turn.raw.Some? {
        alive := HandleRaw(backend, turn.raw.value, updater, turn.dirs);
      }
      ghost var mid, heard := View(backend, updater), alive;
      assert RawHandled(scope, backend.answers, turn, from, mid, updater.room, heard);
      if alive && turn.retryDue {
        alive := RetryFailed(backend, updater, turn.dirs);
      }
      ghost var to := View(backend, updater);
      assert if heard then RetryHandled(scope, backend.answers, turn, mid, to, updater.room, alive)
             else to == mid && !alive;
    }

    /** The thread of `start_watching`: native watches die, then a raw event or a timeout is
        handled, then a retry pass may be due. It stops when a send finds the updater gone.
        `story` tells each turn taken; when it is shorter than the turns, the last one stopped
        it. After any number of turns the books are sound and, if no watch ever died, the
        backend watches exactly what is registered. */
    method Loop(backend: Backend, updater: Updater, turns: seq<Turn>) returns (ghost story: seq<Snap>, alive: bool)
      requires Valid(backend) && updater.Valid()
      modifies this, backend, updater
      ensures Valid(backend)
      ensures old(Disjoint(Now(backend))) ==> Disjoint(Now(backend))
      ensures old(Dead(Now(backend))) == {} && (forall t :: t in turns ==> t.deaths == {}) ==>
                registered == backend.native
      ensures Tells(scope, backend.answers, turns, story, updater.room, alive)
      ensures story[0] == old(View(backend, updater)) && story[|story| - 1] == View(backend, updater)
    {
      story, alive := [View(backend, updater)], true;
      for n := 0 to |turns|
        invariant Valid(backend) && updater.Valid()
        invariant old(Disjoint(Now(backend))) ==> Disjoint(Now(backend))
        invariant old(Dead(Now(backend))) == {} && (forall t :: t in turns ==> t.deaths == {}) ==>
                    Dead(Now(backend)) == {}
        invariant alive && |story| == n + 1 && story[0] == old(View(backend, updater))
        invariant story[n] == View(backend, updater)
        invariant TakenSoFar(scope, backend.answers, turns, story, updater.room, n)
      {
        alive := TakeTurn(backend, updater, turns[n]);
        StoryGrows(scope, backend.answers, turns, story, updater.room, n, View(backend, updater), alive);
        story := story + [View(backend, updater)];
        if !alive {
          break;
        }
      }
      AliveMeansEqual(Now(backend));
    }
  }

  // ---- the start -------------------------------------------------------------------------

  lemma {:induction false} PlanRegistered(answers: Answers, plan: Plan)
    ensures var b := RegisteredAll(NEW_BOOKS, answers, plan);
            && b.native == b.registered
            && (forall p :: p in b.registered || p in b.failed <==> InPlan(plan, p))
            && (forall p :: p in b.registered && p in b.failed ==> Twice(plan, p))
  {
    if plan != [] {
      var rest, last := plan[..|plan| - 1], plan[|plan| - 1];
      PlanRegistered(answers, rest);
      PlanGrows(rest, last);
      assert rest + [last] == plan;
    }
  }

  lemma {:induction false} PlanRootRecursive(answers: Answers, plan: Plan, root: Path)
    requires forall i :: 0 <= i < |plan| && plan[i].0 == root ==> plan[i].1.Recursive?
    ensures var b := RegisteredAll(NEW_BOOKS, answers, plan);
            (root in b.registered ==> b.registered[root].Recursive?) && (root in b.failed ==> b.failed[root].Recursive?)
  {
    if plan != [] {
      PlanRootRecursive(answers, plan[..|plan| - 1], root);
    }
  }

  /** After `start` the books are sound, nothing is dead and the candidates are in sync,
      whatever the backend refuses. */
  lemma StartIsSound(s: Scope, answers: Answers, dirs: set<Path>)
    requires Computed(s)
    ensures var b := Started(s, answers, dirs);
            Backed(b) && Dead(b) == {} && RootKept(b, s.root) && Synced(b, OutsideCandidates(s), dirs)
  {
    var plan := Planned(s);
    assert plan[0] == (s.root, Recursive);
    var w := |s.cache.walkedDirs|;
    assert forall i :: 0 < i <= w ==> plan[i].0 == s.cache.walkedDirs[i - 1];
    assert forall i :: 0 <= i < |plan| && plan[i].0 == s.root ==> plan[i].1.Recursive?;
    PlanRegistered(answers, plan);
    PlanRootRecursive(answers, plan, s.root);
    assert InPlan(plan, s.root);
    var b := RegisteredAll(NEW_BOOKS, answers, plan);
    ResyncKeeps(b, answers, OutsideCandidates(s), dirs);
    assert SameFor(b, Started(s, answers, dirs), s.root);
  }

  lemma {:induction false} PlanModes(answers: Answers, plan: Plan, p: Path)
    ensures var b := RegisteredAll(NEW_BOOKS, answers, plan);
            && (p in b.registered ==> (p, b.registered[p]) in plan)
            && (p in b.failed ==> (p, b.failed[p]) in plan)
  {
    if plan != [] {
      PlanModes(answers, plan[..|plan| - 1], p);
      assert forall x :: x in plan[..|plan| - 1] ==> x in plan;
    }
  }

  /** What `start` watches or retries, cache folders apart: the root and the source folders with
      all below them, the folders the ancestor walk visited without, and nothing else. */
  lemma StartWatches(s: Scope, answers: Answers, dirs: set<Path>, p: Path)
    requires p !in OutsideCandidates(s)
    ensures var b := Started(s, answers, dirs);
            && (p in b.registered || p in b.failed <==> p == s.root || p in s.cache.walkedDirs || p in s.sourceRoots)
            && (p in b.registered && b.registered[p].Recursive? ==> p == s.root || p in s.sourceRoots)
            && (p in b.failed && b.failed[p].Recursive? ==> p == s.root || p in s.sourceRoots)
            && (p in b.registered && b.registered[p].NonRecursive? ==> p in s.cache.walkedDirs)
            && (p in b.failed && b.failed[p].NonRecursive? ==> p in s.cache.walkedDirs)
  {
    var plan := Planned(s);
    PlanRegistered(answers, plan);
    PlanModes(answers, plan, p);
    PlannedMeans(s, p);
    ResyncKeeps(RegisteredAll(NEW_BOOKS, answers, plan), answers, OutsideCandidates(s), dirs);
    assert SameFor(RegisteredAll(NEW_BOOKS, answers, plan), Started(s, answers, dirs), p);
  }

  lemma PlannedMeans(s: Scope, p: Path)
    ensures (p, Recursive) in Planned(s) <==> p == s.root || p in s.sourceRoots
    ensures (p, NonRecursive) in Planned(s) <==> p in s.cache.walkedDirs
    ensures InPlan(Planned(s), p) <==> (p, Recursive) in Planned(s) || (p, NonRecursive) in Planned(s)
  {
    var w, r := |s.cache.walkedDirs|, |s.sourceRoots|;
    var plan := Planned(s);
    assert plan[0] == (s.root, Recursive);
    assert forall i :: 1 <= i < w + 1 ==> plan[i] == (s.cache.walkedDirs[i - 1], NonRecursive);
    assert forall i :: w + 1 <= i < |plan| ==> plan[i] == (s.sourceRoots[i - w - 1], Recursive);
    if p in s.cache.walkedDirs {
      var i :| 0 <= i < w && s.cache.walkedDirs[i] == p;
      assert plan[i + 1] == (p, NonRecursive);
    }
    if p in s.sourceRoots {
      var i :| 0 <= i < r && s.sourceRoots[i] == p;
      assert plan[w + 1 + i] == (p, Recursive);
    }
    if InPlan(plan, p) {
      var i :| 0 <= i < |plan| && plan[i].0 == p;
      assert plan[i] == (p, plan[i].1) && plan[i] in plan;
    }
  }

  /** No path is planned twice, but for candidates absent at the start. */
  ghost predicate PlannedOnce(s: Scope, dirs: set<Path>) {
    forall p :: Twice(Planned(s), p) ==> p in OutsideCandidates(s) && p !in dirs
  }

  /** A backend that refuses one call. */
  function RefusesOnly(j: nat): Answers {
    n => n != j
  }

  lemma {:induction false} RefusedAgain(plan: Plan, p: Path, i: nat, j: nat, n: nat)
    requires i < j < |plan| && n <= |plan| && plan[i].0 == p && plan[j].0 == p
    requires forall k :: j < k < |plan| ==> plan[k].0 != p
    ensures var b := RegisteredAll(NEW_BOOKS, RefusesOnly(j), plan[..n]);
            b.calls == n && (n > i ==> p in b.registered) && (n > j ==> p in b.failed)
    decreases n
  {
    if n > 0 {
      RefusedAgain(plan, p, i, j, n - 1);
      assert plan[..n][..n - 1] == plan[..n - 1];
    }
  }

  lemma LastOf(plan: Plan, p: Path) returns (i: nat, j: nat)
    requires Twice(plan, p)
    ensures i < j < |plan| && plan[i].0 == p && plan[j].0 == p && forall k :: j < k < |plan| ==> plan[k].0 != p
  {
    var a, b :| 0 <= a < b < |plan| && plan[a].0 == p && plan[b].0 == p;
    i, j := a, |plan| - 1;
    while plan[j].0 != p
      invariant b <= j < |plan|
      invariant forall k :: j < k < |plan| ==> plan[k].0 != p
      decreases j
    {
      j := j - 1;
    }
  }

  /** Main result on duplicates. After `start` no path is both registered and on the retry
      list, whatever the backend refuses, exactly when none is planned twice (a listed source
      folder that repeats, or that is a walked folder), absent candidates aside. */
  lemma DisjointExactlyWhenPlannedOnce(s: Scope, dirs: set<Path>)
    requires Computed(s)
    ensures (forall answers :: Disjoint(Started(s, answers, dirs))) <==> PlannedOnce(s, dirs)
  {
    var plan, candidates := Planned(s), OutsideCandidates(s);
    if PlannedOnce(s, dirs) {
      forall answers
        ensures Disjoint(Started(s, answers, dirs))
      {
        OnceMeansDisjoint(plan, answers, candidates, dirs);
      }
    } else {
      var p :| Twice(plan, p) && !(p in candidates && p !in dirs);
      var i, j := LastOf(plan, p);
      RefusedAgain(plan, p, i, j, |plan|);
      assert plan[..|plan|] == plan;
      var answers := RefusesOnly(j);
      var b := RegisteredAll(NEW_BOOKS, answers, plan);
      PlanRegistered(answers, plan);
      ResyncKeeps(b, answers, candidates, dirs);
      assert SameFor(b, Started(s, answers, dirs), p);
      assert !Disjoint(Started(s, answers, dirs));
    }
  }

  lemma OnceMeansDisjoint(plan: Plan, answers: Answers, candidates: seq<Path>, dirs: set<Path>)
    requires forall p :: Twice(plan, p) ==> p in candidates && p !in dirs
    ensures Disjoint(Resynced(RegisteredAll(NEW_BOOKS, answers, plan), answers, candidates, dirs))
  {
    PlanRegistered(answers, plan);
    ResyncParts(RegisteredAll(NEW_BOOKS, answers, plan), answers, candidates, dirs);
  }

  lemma {:induction false} ResyncParts(b: Books, answers: Answers, candidates: seq<Path>, dirs: set<Path>)
    requires forall p :: p in b.registered && p in b.failed ==> p in candidates && p !in dirs
    ensures Disjoint(Resynced(b, answers, candidates, dirs))
  {
    var b1 := Resynced(b, answers, candidates, dirs);
    forall p | p in b1.registered
      ensures p !in b1.failed
    {
      if Both(b1, p) {
        BothAfterResync(b, answers, candidates, dirs, p);
      }
    }
  }

  predicate Both(b: Books, p: Path) {
    p in b.registered && p in b.failed
  }

  lemma {:induction false} BothAfterResync(b: Books, answers: Answers, candidates: seq<Path>, dirs: set<Path>, p: Path)
    requires Both(Resynced(b, answers, candidates, dirs), p)
    ensures Both(b, p) && !(p in candidates && p !in dirs)
  {
    if candidates != [] {
      BothAfterResync(b, answers, candidates[..|candidates| - 1], dirs, p);
    }
  }
}
