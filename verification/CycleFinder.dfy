/** The dependency-cycle search of scripts/agentflow/eligibility.py: an iterative
    depth-first search from every node, against reachability. */
module CycleFinder {
  /** node -> the nodes it depends on; a dependency may name a node outside the graph. */
  type Graph = map<nat, set<nat>>

  predicate Edge(g: Graph, a: nat, b: nat) {
    a in g && b in g[a]
  }

  ghost predicate IsPath(g: Graph, p: seq<nat>) {
    p != [] && forall i :: 0 <= i < |p| - 1 ==> Edge(g, p[i], p[i + 1])
  }

  /** `p` leaves `v` and comes back to it. */
  ghost predicate IsCycleThrough(g: Graph, v: nat, p: seq<nat>) {
    IsPath(g, p) && |p| >= 2 && p[0] == v && p[|p| - 1] == v
  }

  ghost predicate OnCycle(g: Graph, v: nat) {
    exists p :: IsCycleThrough(g, v, p)
  }

  /** A stack entry: a node and what its iterator has not yielded yet. */
  datatype Frame = Frame(node: nat, rest: set<nat>)

  function Pending(stack: seq<Frame>): nat {
    if stack == [] then 0 else Pending(stack[..|stack| - 1]) + |stack[|stack| - 1].rest| + 1
  }

  /** What the search owes for a yielded neighbour: it is explored, and `start` is reported. */
  predicate Handled(g: Graph, start: nat, seen: set<nat>, found: set<nat>, b: nat) {
    (b in g ==> b in seen) && (b == start ==> start in found)
  }

  ghost predicate Waiting(stack: seq<Frame>, v: nat, b: nat) {
    exists k :: 0 <= k < |stack| && stack[k].node == v && b in stack[k].rest
  }

  ghost predicate AllHandled(g: Graph, start: nat, seen: set<nat>, found: set<nat>, stack: seq<Frame>) {
    forall v, b :: v in seen && Edge(g, v, b) && !Waiting(stack, v, b) ==> Handled(g, start, seen, found, b)
  }

  ghost predicate StackIsPath(g: Graph, start: nat, seen: set<nat>, stack: seq<Frame>, path: seq<nat>) {
    && |path| == |stack|
    && (path != [] ==> path[0] == start && IsPath(g, path))
    && (forall k :: 0 <= k < |stack| ==>
          stack[k].node == path[k] && path[k] in seen && path[k] in g && stack[k].rest <= g[path[k]])
  }

  /** Closing a path back to its start puts every node of it on a cycle. */
  lemma PathClosesCycle(g: Graph, path: seq<nat>, j: nat)
    requires IsPath(g, path) && j < |path| && Edge(g, path[|path| - 1], path[0])
    ensures OnCycle(g, path[j])
  {
    var p := path[j..] + path[..j + 1];
    forall i | 0 <= i < |p| - 1
      ensures Edge(g, p[i], p[i + 1])
    {
      if i < |path| - j - 1 {
        assert p[i] == path[j + i] && p[i + 1] == path[j + i + 1];
      } else if i == |path| - j - 1 {
        assert p[i] == path[|path| - 1] && p[i + 1] == path[0];
      } else {
        assert p[i] == path[i - (|path| - j)] && p[i + 1] == path[i + 1 - (|path| - j)];
      }
    }
    assert IsCycleThrough(g, path[j], p);
  }

  /** With nothing waiting, every cycle through `start` was walked to its last edge. */
  lemma SearchIsComplete(g: Graph, start: nat, seen: set<nat>, found: set<nat>)
    requires start in seen && AllHandled(g, start, seen, found, [])
    ensures OnCycle(g, start) ==> start in found
  {
    if OnCycle(g, start) {
      var p :| IsCycleThrough(g, start, p);
      WalkStaysSeen(g, start, seen, found, p, |p| - 2);
      assert Edge(g, p[|p| - 2], p[|p| - 2 + 1]);
      assert !Waiting([], p[|p| - 2], start);
    }
  }

  lemma {:induction false} WalkStaysSeen(g: Graph, start: nat, seen: set<nat>, found: set<nat>, p: seq<nat>, i: nat)
    requires AllHandled(g, start, seen, found, []) && IsPath(g, p) && p[0] in seen && i < |p| - 1
    ensures p[i] in seen
  {
    if i > 0 {
      WalkStaysSeen(g, start, seen, found, p, i - 1);
      assert Edge(g, p[i - 1], p[i - 1 + 1]) && Edge(g, p[i], p[i + 1]);
      assert !Waiting([], p[i - 1], p[i]);
    }
  }

  /** Popping an exhausted frame leaves nothing unhandled. */
  lemma PopHandled(g: Graph, start: nat, seen: set<nat>, found: set<nat>, stack: seq<Frame>)
    requires AllHandled(g, start, seen, found, stack) && stack != [] && stack[|stack| - 1].rest == {}
    ensures AllHandled(g, start, seen, found, stack[..|stack| - 1])
  {
    forall v, b | Waiting(stack, v, b)
      ensures Waiting(stack[..|stack| - 1], v, b)
    {
    }
  }

  function Yielded(stack: seq<Frame>, nxt: nat): seq<Frame>
    requires stack != []
  {
    stack[..|stack| - 1] + [Frame(stack[|stack| - 1].node, stack[|stack| - 1].rest - {nxt})]
  }

  lemma YieldKeepsWaiting(stack: seq<Frame>, nxt: nat, v: nat, b: nat)
    requires stack != [] && Waiting(stack, v, b) && b != nxt
    ensures Waiting(Yielded(stack, nxt), v, b)
  {
    var k :| 0 <= k < |stack| && stack[k].node == v && b in stack[k].rest;
    assert Yielded(stack, nxt)[k].node == v && b in Yielded(stack, nxt)[k].rest;
  }

  lemma PushKeepsWaiting(stack: seq<Frame>, top: Frame, v: nat, b: nat)
    requires Waiting(stack, v, b)
    ensures Waiting(stack + [top], v, b)
  {
    var k :| 0 <= k < |stack| && stack[k].node == v && b in stack[k].rest;
    assert (stack + [top])[k] == stack[k];
  }

  /** A yield may stop only the yielded neighbour from waiting, and that one is handled. */
  lemma YieldHandled(g: Graph, start: nat, seen: set<nat>, seen': set<nat>, found: set<nat>, found': set<nat>,
                     stack: seq<Frame>, nxt: nat)
    requires stack != [] && AllHandled(g, start, seen, found, stack)
    requires seen <= seen' && found <= found' && Handled(g, start, seen', found', nxt)
    ensures forall v, b :: v in seen && Edge(g, v, b) && !Waiting(Yielded(stack, nxt), v, b) ==>
              Handled(g, start, seen', found', b)
  {
    forall v, b | v in seen && Edge(g, v, b) && !Waiting(Yielded(stack, nxt), v, b)
      ensures Handled(g, start, seen', found', b)
    {
      if b != nxt {
        assert !Waiting(stack, v, b) by {
          if Waiting(stack, v, b) {
            YieldKeepsWaiting(stack, nxt, v, b);
          }
        }
      }
    }
  }

  /** Pushing a new node makes all of its neighbours wait. */
  lemma PushHandled(g: Graph, start: nat, seen: set<nat>, found: set<nat>, stack: seq<Frame>, nxt: nat)
    requires stack != [] && AllHandled(g, start, seen, found, stack) && nxt in g && nxt != start
    ensures AllHandled(g, start, seen + {nxt}, found, Yielded(stack, nxt) + [Frame(nxt, g[nxt])])
  {
    var before := Yielded(stack, nxt);
    var after := before + [Frame(nxt, g[nxt])];
    YieldHandled(g, start, seen, seen + {nxt}, found, found, stack, nxt);
    forall v, b | v in seen + {nxt} && Edge(g, v, b) && !Waiting(after, v, b)
      ensures Handled(g, start, seen + {nxt}, found, b)
    {
      assert after[|before|] == Frame(nxt, g[nxt]);
      assert v != nxt;
      assert !Waiting(before, v, b) by {
        if Waiting(before, v, b) {
          PushKeepsWaiting(before, Frame(nxt, g[nxt]), v, b);
        }
      }
    }
  }

  lemma YieldKeepsPath(g: Graph, start: nat, seen: set<nat>, stack: seq<Frame>, path: seq<nat>, nxt: nat)
    requires StackIsPath(g, start, seen, stack, path) && stack != [] && nxt in stack[|stack| - 1].rest
    ensures StackIsPath(g, start, seen, Yielded(stack, nxt), path)
    ensures Edge(g, path[|path| - 1], nxt)
    ensures Pending(Yielded(stack, nxt)) < Pending(stack)
  {
    assert Yielded(stack, nxt)[..|stack| - 1] == stack[..|stack| - 1];
    assert stack[|stack| - 1].node == path[|path| - 1];
  }

  lemma PushKeepsPath(g: Graph, start: nat, seen: set<nat>, stack: seq<Frame>, path: seq<nat>, nxt: nat)
    requires StackIsPath(g, start, seen, stack, path) && stack != [] && nxt in g
    requires Edge(g, path[|path| - 1], nxt)
    ensures StackIsPath(g, start, seen + {nxt}, stack + [Frame(nxt, g[nxt])], path + [nxt])
  {
  }

  lemma PopKeepsPath(g: Graph, start: nat, seen: set<nat>, stack: seq<Frame>, path: seq<nat>)
    requires StackIsPath(g, start, seen, stack, path) && stack != []
    ensures StackIsPath(g, start, seen, stack[..|stack| - 1], path[..|path| - 1])
    ensures Pending(stack[..|stack| - 1]) < Pending(stack)
  {
  }

  lemma WholePathOnCycle(g: Graph, path: seq<nat>)
    requires IsPath(g, path) && Edge(g, path[|path| - 1], path[0])
    ensures forall v :: v in path ==> OnCycle(g, v)
  {
    forall j | 0 <= j < |path|
      ensures OnCycle(g, path[j])
    {
      PathClosesCycle(g, path, j);
    }
  }

  /** One search: everything it adds lies on a cycle, and it adds `start` if that does. */
  method SearchFrom(deps: Graph, start: nat, found0: set<nat>) returns (found: set<nat>)
    requires start in deps
    requires forall v :: v in found0 ==> OnCycle(deps, v)
    ensures found0 <= found
    ensures forall v :: v in found ==> OnCycle(deps, v)
    ensures OnCycle(deps, start) ==> start in found
  {
    found := found0;
    var stack, seen, path := [Frame(start, deps[start])], {start}, [start];
    assert forall b :: Edge(deps, start, b) ==> b in stack[0].rest;
    while stack != []
      invariant start in seen && seen <= deps.Keys
      invariant found0 <= found
      invariant forall v :: v in found ==> OnCycle(deps, v)
      invariant StackIsPath(deps, start, seen, stack, path)
      invariant AllHandled(deps, start, seen, found, stack)
      decreases |deps.Keys - seen|, Pending(stack)
    {
      var top := stack[|stack| - 1];
      if top.rest == {} {
        PopHandled(deps, start, seen, found, stack);
        PopKeepsPath(deps, start, seen, stack, path);
        stack, path := stack[..|stack| - 1], path[..|path| - 1];
      } else {
        var nxt :| nxt in top.rest;
        YieldKeepsPath(deps, start, seen, stack, path, nxt);
        if nxt == start {
          WholePathOnCycle(deps, path);
          assert path[0] in path;
          var more := found + set x | x in path;
          YieldHandled(deps, start, seen, seen, found, more, stack, nxt);
          found, stack := more, Yielded(stack, nxt);
        } else if nxt in deps && nxt !in seen {
          PushHandled(deps, start, seen, found, stack, nxt);
          PushKeepsPath(deps, start, seen, Yielded(stack, nxt), path, nxt);
          assert deps.Keys - (seen + {nxt}) == (deps.Keys - seen) - {nxt};
          seen := seen + {nxt};
          stack := Yielded(stack, nxt) + [Frame(nxt, deps[nxt])];
          path := path + [nxt];
        } else {
          YieldHandled(deps, start, seen, seen, found, found, stack, nxt);
          stack := Yielded(stack, nxt);
        }
      }
    }
    SearchIsComplete(deps, start, seen, found);
  }

  /** `_cycle_members`: exactly the nodes that lie on some cycle. */
  method CycleMembers(deps: Graph) returns (onCycle: set<nat>)
    ensures forall v :: v in onCycle <==> OnCycle(deps, v)
  {
    onCycle := {};
    var starts := deps.Keys;
    while starts != {}
      invariant starts <= deps.Keys
      invariant forall v :: v in onCycle ==> OnCycle(deps, v)
      invariant forall v :: v in deps.Keys - starts && OnCycle(deps, v) ==> v in onCycle
    {
      var start :| start in starts;
      starts := starts - {start};
      onCycle := SearchFrom(deps, start, onCycle);
    }
    forall v | OnCycle(deps, v)
      ensures v in deps
    {
      var p :| IsCycleThrough(deps, v, p);
      assert Edge(deps, p[0], p[0 + 1]);
    }
  }
}
