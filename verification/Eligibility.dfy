/** Which open issues the executor may start on (scripts/agentflow/eligibility.py).
    An issue is what the deterministic parsers read from it: `refs` is every number its
    dependency lines name; labels are numbered in their sort order. */
module Eligibility {
  import opened Wrappers
  import opened CycleFinder

  datatype Issue = Issue(number: nat, author: nat, labels: set<nat>, hasAcceptance: bool, isQuestion: bool,
                         refs: set<nat>)

  datatype Reason = Author | Label(name: nat) | NoAcceptance | DependencyCycle | DependsOnOpen(number: nat)

  datatype Excluded = Excluded(issue: Issue, reason: Reason)

  datatype Policy = Policy(allowedAuthors: set<nat>, excludeLabels: set<nat>)

  predicate IsLeast(s: set<nat>, m: nat) {
    m in s && forall x :: x in s ==> m <= x
  }

  function Numbers(issues: seq<Issue>): set<nat> {
    set i | i in issues :: i.number
  }

  /** The dependency graph over the open issues: a later entry of one number replaces an earlier. */
  function DepsOf(issues: seq<Issue>, open: set<nat>): Graph {
    if issues == [] then map[]
    else DepsOf(issues[..|issues| - 1], open)[issues[|issues| - 1].number := issues[|issues| - 1].refs * open]
  }

  /** The first test the issue fails, in the order `eligible` asks them; None is accepted.
      The cycle test is stated by reachability. */
  ghost predicate Verdict(p: Policy, g: Graph, i: Issue, r: Option<Reason>)
    requires i.number in g
  {
    var bad := i.labels * p.excludeLabels;
    if i.author !in p.allowedAuthors then r == Some(Author)
    else if bad != {} then r.Some? && r.value.Label? && IsLeast(bad, r.value.name)
    else if !i.hasAcceptance && !i.isQuestion then r == Some(NoAcceptance)
    else if OnCycle(g, i.number) then r == Some(DependencyCycle)
    else if g[i.number] != {} then r.Some? && r.value.DependsOnOpen? && IsLeast(g[i.number], r.value.number)
    else r == None
  }

  method Least(s: set<nat>) returns (m: nat)
    requires s != {}
    ensures IsLeast(s, m)
  {
    m :| m in s;
    var todo := s - {m};
    while todo != {}
      invariant m in s && todo <= s
      invariant forall x :: x in s ==> x in todo || m <= x
    {
      var x :| x in todo;
      todo := todo - {x};
      if x < m {
        m := x;
      }
    }
  }

  lemma {:induction false} DepsCoverNumbers(issues: seq<Issue>, open: set<nat>, i: Issue)
    requires i in issues
    ensures i.number in DepsOf(issues, open)
  {
    if issues[|issues| - 1] != i {
      DepsCoverNumbers(issues[..|issues| - 1], open, i);
    }
  }

  ghost predicate AllJudged(p: Policy, g: Graph, ok: seq<Issue>, out: seq<Excluded>) {
    && (forall i :: i in ok ==> i.number in g && Verdict(p, g, i, None))
    && (forall e :: e in out ==> e.issue.number in g && Verdict(p, g, e.issue, Some(e.reason)))
  }

  function IssuesOf(out: seq<Excluded>): seq<Issue> {
    seq(|out|, k requires 0 <= k < |out| => out[k].issue)
  }

  ghost function Accepts(p: Policy, g: Graph): Issue -> bool {
    (i: Issue) => i.number in g && Verdict(p, g, i, None)
  }

  ghost function Refuses(p: Policy, g: Graph): Issue -> bool {
    (i: Issue) => !(i.number in g && Verdict(p, g, i, None))
  }

  /** The elements that satisfy `f`, in their order. */
  function Keep<T>(s: seq<T>, f: T -> bool): seq<T> {
    if s == [] then []
    else Keep(s[..|s| - 1], f) + (if f(s[|s| - 1]) then [s[|s| - 1]] else [])
  }

  lemma KeepStep<T>(s: seq<T>, f: T -> bool, n: nat)
    requires n < |s|
    ensures Keep(s[..n + 1], f) == Keep(s[..n], f) + (if f(s[n]) then [s[n]] else [])
  {
    assert s[..n + 1][..n] == s[..n];
  }

  lemma SplitOne<T>(front: seq<T>, last: T, kept: seq<T>, others: seq<T>, keep: bool)
    requires multiset(kept) + multiset(others) == multiset(front)
    ensures multiset(kept + if keep then [last] else []) + multiset(others + if keep then [] else [last])
         == multiset(front + [last])
  {
  }

  /** A test and its negation split a list: each element is in one part, as often as it was given. */
  lemma {:induction false} KeepSplits<T>(s: seq<T>, f: T -> bool, g: T -> bool)
    requires forall x :: g(x) == !f(x)
    ensures multiset(Keep(s, f)) + multiset(Keep(s, g)) == multiset(s)
  {
    if s != [] {
      var front, last := s[..|s| - 1], s[|s| - 1];
      KeepSplits(front, f, g);
      SplitOne(front, last, Keep(front, f), Keep(front, g), f(last));
      assert s == front + [last];
    }
  }

  /** Every issue lands in exactly one of the two lists, with the first test it fails. */
  method Eligible(issues: seq<Issue>, p: Policy) returns (ok: seq<Issue>, out: seq<Excluded>)
    ensures multiset(ok) + multiset(IssuesOf(out)) == multiset(issues)
    ensures AllJudged(p, DepsOf(issues, Numbers(issues)), ok, out)
    ensures ok == Keep(issues, Accepts(p, DepsOf(issues, Numbers(issues))))
    ensures IssuesOf(out) == Keep(issues, Refuses(p, DepsOf(issues, Numbers(issues))))
  {
    var open := Numbers(issues);
    var deps: Graph := map[];
    for n := 0 to |issues|
      invariant deps == DepsOf(issues[..n], open)
    {
      deps := deps[issues[n].number := issues[n].refs * open];
      assert issues[..n + 1][..n] == issues[..n];
    }
    assert issues[..|issues|] == issues;
    var cyclic := CycleMembers(deps);
    ok, out := [], [];
    for n := 0 to |issues|
      invariant AllJudged(p, deps, ok, out)
      invariant ok == Keep(issues[..n], Accepts(p, deps)) && IssuesOf(out) == Keep(issues[..n], Refuses(p, deps))
    {
      var i := issues[n];
      DepsCoverNumbers(issues, open, i);
      var verdict := Judge(p, deps, cyclic, i);
      KeepStep(issues, Accepts(p, deps), n);
      KeepStep(issues, Refuses(p, deps), n);
      match verdict {
        case None => ok := ok + [i];
        case Some(r) =>
          assert IssuesOf(out + [Excluded(i, r)]) == IssuesOf(out) + [i];
          out := out + [Excluded(i, r)];
      }
    }
    KeepSplits(issues, Accepts(p, deps), Refuses(p, deps));
  }

  method Judge(p: Policy, deps: Graph, cyclic: set<nat>, i: Issue) returns (r: Option<Reason>)
    requires i.number in deps && forall v :: v in cyclic <==> OnCycle(deps, v)
    ensures Verdict(p, deps, i, r)
  {
    var bad := i.labels * p.excludeLabels;
    if i.author !in p.allowedAuthors {
      return Some(Author);
    }
    if bad != {} {
      var l := Least(bad);
      return Some(Label(l));
    }
    if !i.hasAcceptance && !i.isQuestion {
      return Some(NoAcceptance);
    }
    if i.number in cyclic {
      return Some(DependencyCycle);
    }
    if deps[i.number] != {} {
      var d := Least(deps[i.number]);
      return Some(DependsOnOpen(d));
    }
    return None;
  }

  lemma {:induction false} DepsOfDistinct(issues: seq<Issue>, open: set<nat>, k: nat)
    requires k < |issues|
    requires forall a, b :: 0 <= a < b < |issues| ==> issues[a].number != issues[b].number
    ensures issues[k].number in DepsOf(issues, open) && DepsOf(issues, open)[issues[k].number] == issues[k].refs * open
  {
    if k < |issues| - 1 {
      DepsOfDistinct(issues[..|issues| - 1], open, k);
    }
  }

  /** Accepted is an issue with nothing against it; and what is named as against it is so: of
      several labels or open dependencies the least, and a later reason only when no earlier
      one applies. */
  lemma VerdictMeans(p: Policy, g: Graph, i: Issue, r: Reason)
    requires i.number in g
    ensures var (known, shunned) := (i.author in p.allowedAuthors, i.labels * p.excludeLabels);
            var ready := i.hasAcceptance || i.isQuestion;
            && (Verdict(p, g, i, None) <==>
                  known && shunned == {} && ready && g[i.number] == {})
            && (Verdict(p, g, i, Some(Author)) <==> !known)
            && (r.Label? ==> (Verdict(p, g, i, Some(r)) <==> known && IsLeast(shunned, r.name)))
            && (Verdict(p, g, i, Some(NoAcceptance)) <==> known && shunned == {} && !ready)
            && (Verdict(p, g, i, Some(DependencyCycle)) <==>
                  known && shunned == {} && ready && OnCycle(g, i.number))
            && (r.DependsOnOpen? ==>
                  (Verdict(p, g, i, Some(r)) <==>
                     known && shunned == {} && ready && !OnCycle(g, i.number) && IsLeast(g[i.number], r.number)))
  {
    if OnCycle(g, i.number) {
      CyclicHasOpenDependency(g, i.number);
    }
  }

  /** With distinct numbers an accepted issue depends on no open issue. */
  lemma AcceptedDependsOnNothingOpen(issues: seq<Issue>, p: Policy, ok: seq<Issue>, out: seq<Excluded>, i: Issue)
    requires forall a, b :: 0 <= a < b < |issues| ==> issues[a].number != issues[b].number
    requires multiset(ok) + multiset(IssuesOf(out)) == multiset(issues)
    requires AllJudged(p, DepsOf(issues, Numbers(issues)), ok, out) && i in ok
    ensures i.refs * Numbers(issues) == {}
  {
    assert i in multiset(issues);
    var k :| 0 <= k < |issues| && issues[k] == i;
    DepsOfDistinct(issues, Numbers(issues), k);
  }

  /** The cycle test only names the reason: a node on a cycle has an open dependency, so
      it would be refused without the test as well. */
  lemma CyclicHasOpenDependency(g: Graph, v: nat)
    requires OnCycle(g, v)
    ensures v in g && g[v] != {}
  {
    var path :| IsCycleThrough(g, v, path);
    assert Edge(g, path[0], path[0 + 1]);
  }
}
