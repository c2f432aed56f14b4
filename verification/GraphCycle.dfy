/**
 The depth-first search that turns a failed ordering into a diagnostic: it returns a closed dependency path,
 and on what an incomplete peeling leaves behind it always finds one.
 */
module GraphCycle {
  import opened Prelude
  import opened GraphOrder

  /** A finishing order: every node comes after all it depends on. */
  predicate Finished(adj: Adj, done: seq<Node>) {
    forall i, d :: 0 <= i < |done| && d in Deps(adj, done[i]) ==> d in done[..i]
  }

  predicate Closed(adj: Adj, nodes: set<Node>) {
    forall c, d :: c in nodes && d in Deps(adj, c) ==> d in nodes
  }

  /** The `k`-th node of the path has seen its first `next[k]` dependencies: they are finished, except that
      the last one may be the next node of the path. */
  predicate Level(adj: Adj, path: seq<Node>, next: seq<nat>, done: seq<Node>, k: nat)
    requires |next| == |path| && k < |path|
  {
    var deps := Deps(adj, path[k]);
    && next[k] <= |deps|
    && (k < |path| - 1 ==> next[k] > 0 && deps[next[k] - 1] == path[k + 1])
    && (forall j :: 0 <= j < next[k] ==> deps[j] in done || (k < |path| - 1 && j == next[k] - 1))
  }

  predicate Search(adj: Adj, nodes: set<Node>, path: seq<Node>, next: seq<nat>, visited: set<Node>, done: seq<Node>) {
    && |next| == |path| && NoDup(path)
    && Elements(path) <= nodes && Elements(done) <= nodes
    && visited == Elements(path) + Elements(done) && Elements(path) !! Elements(done)
    && Finished(adj, done)
    && forall k :: 0 <= k < |path| ==> Level(adj, path, next, done, k)
  }

  /** The dependencies the search still has to look at along its path. */
  function Left(adj: Adj, path: seq<Node>, next: seq<nat>): int
    requires |next| == |path|
  {
    if path == [] then 0
    else
      var k := |path| - 1;
      Left(adj, path[..k], next[..k]) + |Deps(adj, path[k])| - next[k] + 1
  }

  lemma {:induction false} LeftIsNatural(adj: Adj, path: seq<Node>, next: seq<nat>)
    requires |next| == |path| && forall k :: 0 <= k < |path| ==> next[k] <= |Deps(adj, path[k])|
    ensures Left(adj, path, next) >= 0
  {
    if path != [] {
      var k := |path| - 1;
      LeftIsNatural(adj, path[..k], next[..k]);
    }
  }

  /** Moving past a finished dependency. */
  lemma SkipKeepsSearch(adj: Adj, nodes: set<Node>, path: seq<Node>, next: seq<nat>, visited: set<Node>, done: seq<Node>)
    requires Search(adj, nodes, path, next, visited, done) && path != []
    requires next[|path| - 1] < |Deps(adj, path[|path| - 1])|
    requires Deps(adj, path[|path| - 1])[next[|path| - 1]] in done
    ensures Search(adj, nodes, path, next[|path| - 1 := next[|path| - 1] + 1], visited, done)
  {
    var top := |path| - 1;
    var next' := next[top := next[top] + 1];
    forall k | 0 <= k < |path| ensures Level(adj, path, next', done, k) {
      assert Level(adj, path, next, done, k);
    }
  }

  /** Going down to an unvisited dependency. */
  lemma PushKeepsSearch(adj: Adj, nodes: set<Node>, path: seq<Node>, next: seq<nat>, visited: set<Node>, done: seq<Node>)
    requires Closed(adj, nodes) && Search(adj, nodes, path, next, visited, done) && path != []
    requires next[|path| - 1] < |Deps(adj, path[|path| - 1])|
    requires Deps(adj, path[|path| - 1])[next[|path| - 1]] !in visited
    ensures
      var d := Deps(adj, path[|path| - 1])[next[|path| - 1]];
      d in nodes && Search(adj, nodes, path + [d], next[|path| - 1 := next[|path| - 1] + 1] + [0], visited + {d}, done)
  {
    var top := |path| - 1;
    var d := Deps(adj, path[top])[next[top]];
    assert path[top] in Elements(path);
    var path', next' := path + [d], next[top := next[top] + 1] + [0];
    assert Elements(path') == Elements(path) + {d};
    assert forall i :: 0 <= i < |path| ==> path[i] in Elements(path);
    forall k | 0 <= k < |path'| ensures Level(adj, path', next', done, k) {
      if k < |path| { assert Level(adj, path, next, done, k); }
    }
  }

  lemma FinishedAppend(adj: Adj, done: seq<Node>, x: Node)
    requires Finished(adj, done) && forall d :: d in Deps(adj, x) ==> d in done
    ensures Finished(adj, done + [x])
  {
    var done' := done + [x];
    forall i, d | 0 <= i < |done'| && d in Deps(adj, done'[i]) ensures d in done'[..i] {
      assert done'[..i] == done[..i];
    }
  }

  lemma ElementsOfInit(s: seq<Node>)
    requires s != [] && NoDup(s)
    ensures Elements(s) == Elements(s[..|s| - 1]) + {s[|s| - 1]}
    ensures s[|s| - 1] !in Elements(s[..|s| - 1]) && NoDup(s[..|s| - 1])
  {
  }

  /** Finishing the last node of the path. */
  lemma PopKeepsSearch(adj: Adj, nodes: set<Node>, path: seq<Node>, next: seq<nat>, visited: set<Node>, done: seq<Node>)
    requires Search(adj, nodes, path, next, visited, done) && path != []
    requires next[|path| - 1] == |Deps(adj, path[|path| - 1])|
    ensures
      var top := |path| - 1;
      Search(adj, nodes, path[..top], next[..top], visited, done + [path[top]])
  {
    var top := |path| - 1;
    var x := path[top];
    assert Level(adj, path, next, done, top);
    FinishedAppend(adj, done, x);
    ElementsOfInit(path);
    assert Elements(done + [x]) == Elements(done) + {x};
    forall k | 0 <= k < top ensures Level(adj, path[..top], next[..top], done + [x], k) {
      assert Level(adj, path, next, done, k);
    }
  }

  lemma ClosingTheLoop(adj: Adj, nodes: set<Node>, path: seq<Node>, next: seq<nat>, visited: set<Node>,
                       done: seq<Node>, pos: nat)
    requires Search(adj, nodes, path, next, visited, done) && pos < |path|
    requires next[|path| - 1] < |Deps(adj, path[|path| - 1])|
    requires Deps(adj, path[|path| - 1])[next[|path| - 1]] == path[pos]
    ensures
      var cycle := path[pos..] + [path[pos]];
      IsCycle(adj, cycle) && Elements(cycle) <= nodes
  {
    var cycle := path[pos..] + [path[pos]];
    forall k | 0 <= k < |cycle| - 1 ensures DependsOn(adj, cycle[k], cycle[k + 1]) {
      assert cycle[k] == path[pos + k];
      if k < |cycle| - 2 {
        assert Level(adj, path, next, done, pos + k);
        assert cycle[k + 1] == path[pos + k + 1];
      }
    }
    forall n | n in cycle ensures n in nodes {
      assert n in Elements(path);
    }
  }

  lemma SearchFacts(adj: Adj, nodes: set<Node>, path: seq<Node>, next: seq<nat>, visited: set<Node>, done: seq<Node>)
    requires Search(adj, nodes, path, next, visited, done) && path != []
    ensures next[|path| - 1] <= |Deps(adj, path[|path| - 1])|
    ensures Left(adj, path, next) >= 0 && visited <= nodes
    ensures forall d :: d in visited && d !in path ==> d in done
  {
    forall k | 0 <= k < |path| ensures next[k] <= |Deps(adj, path[k])| {
      assert Level(adj, path, next, done, k);
    }
    LeftIsNatural(adj, path, next);
    assert forall d :: d in visited ==> d in Elements(path) || d in Elements(done);
  }

  /** One turn of the search loop. */
  method Advance(adj: Adj, ghost nodes: set<Node>, path: seq<Node>, next: seq<nat>, visited: set<Node>,
                 ghost done: seq<Node>)
      returns (cycle: Option<seq<Node>>, path': seq<Node>, next': seq<nat>, visited': set<Node>, ghost done': seq<Node>)
    requires Closed(adj, nodes) && Search(adj, nodes, path, next, visited, done) && path != []
    ensures cycle.Some? ==> IsCycle(adj, cycle.value) && Elements(cycle.value) <= nodes
    ensures cycle.None? ==>
      && Search(adj, nodes, path', next', visited', done') && visited <= visited'
      && (visited' != visited || 0 <= Left(adj, path', next') < Left(adj, path, next))
  {
    SearchFacts(adj, nodes, path, next, visited, done);
    cycle, path', next', visited', done' := None, path, next, visited, done;
    var top := |path| - 1;
    var deps := Deps(adj, path[top]);
    if next[top] == |deps| {
      PopKeepsSearch(adj, nodes, path, next, visited, done);
      path', next', done' := path[..top], next[..top], done + [path[top]];
      if path' != [] { SearchFacts(adj, nodes, path', next', visited, done'); }
      return;
    }
    var d := deps[next[top]];
    if d in path {
      var pos := IndexOf(path, d);
      ClosingTheLoop(adj, nodes, path, next, visited, done, pos);
      cycle := Some(path[pos..] + [d]);
    } else if d in visited {
      SkipKeepsSearch(adj, nodes, path, next, visited, done);
      next' := next[top := next[top] + 1];
      SearchFacts(adj, nodes, path, next', visited, done);
    } else {
      PushKeepsSearch(adj, nodes, path, next, visited, done);
      path', next' := path + [d], next[top := next[top] + 1] + [0];
      visited' := visited + {d};
    }
  }

  /** Searches from one start node; without a cycle everything reached has been finished. */
  method Explore(adj: Adj, ghost nodes: set<Node>, start: Node, visited: set<Node>, ghost done: seq<Node>)
      returns (cycle: Option<seq<Node>>, visited': set<Node>, ghost done': seq<Node>)
    requires Closed(adj, nodes) && start in nodes && start !in visited
    requires Search(adj, nodes, [], [], visited, done)
    ensures cycle.Some? ==> IsCycle(adj, cycle.value) && Elements(cycle.value) <= nodes
    ensures cycle.None? ==> start in visited' && visited <= visited' && Search(adj, nodes, [], [], visited', done')
  {
    cycle, visited', done' := None, visited + {start}, done;
    var path: seq<Node>, next: seq<nat> := [start], [0];
    while path != []
      invariant Search(adj, nodes, path, next, visited', done')
      invariant start in visited' && visited <= visited'
      invariant cycle.None?
      decreases nodes - visited', Left(adj, path, next)
    {
      SearchFacts(adj, nodes, path, next, visited', done');
      ghost var before := visited';
      cycle, path, next, visited', done' := Advance(adj, nodes, path, next, visited', done');
      if cycle.Some? { return; }
      if path != [] {
        SearchFacts(adj, nodes, path, next, visited', done');
      } else {
        assert next == [];
      }
      if visited' != before {
        var n :| n in visited' && n !in before;
      }
    }
  }

  method FindCycle(adj: Adj, starts: seq<Node>) returns (cycle: Option<seq<Node>>, ghost done: seq<Node>)
    requires Closed(adj, Elements(starts))
    ensures cycle.Some? ==> IsCycle(adj, cycle.value) && Elements(cycle.value) <= Elements(starts)
    ensures cycle.None? ==> Elements(done) == Elements(starts) && Finished(adj, done)
  {
    var visited: set<Node> := {};
    cycle, done := None, [];
    for k := 0 to |starts|
      invariant Search(adj, Elements(starts), [], [], visited, done)
      invariant Elements(starts[..k]) <= visited
    {
      if starts[k] !in visited {
        cycle, visited, done := Explore(adj, Elements(starts), starts[k], visited, done);
        if cycle.Some? { return; }
      }
      assert Elements(starts[..k + 1]) == Elements(starts[..k]) + {starts[k]};
    }
    assert starts[..|starts|] == starts;
    cycle := None;
  }

  predicate HasDependent(adj: Adj, nodes: set<Node>, x: Node) { exists m :: m in nodes && DependsOn(adj, m, x) }

  /** Where every node has a dependent there is no finishing order: each node's dependent finishes later. */
  lemma {:induction false} NoFinishingOrder(adj: Adj, nodes: set<Node>, done: seq<Node>, n: Node, later: nat)
    requires Finished(adj, done) && (forall x :: x in done <==> x in nodes)
    requires forall x {:trigger HasDependent(adj, nodes, x)} :: x in nodes ==> HasDependent(adj, nodes, x)
    requires n in done && later == |done| - IndexOf(done, n)
    ensures false
    decreases later
  {
    assert HasDependent(adj, nodes, n);
    var m :| m in nodes && DependsOn(adj, m, n);
    NoFinishingOrder(adj, nodes, done, m, |done| - IndexOf(done, m));
  }

  /** What an incomplete peeling of a closed graph leaves behind. */
  ghost function Rest(nodes: set<Node>, adj: Adj): set<Node> { nodes - Elements(Peel(nodes, adj)) }

  lemma PeelTakesDependents(nodes: set<Node>, adj: Adj, c: Node, d: Node)
    requires c in nodes && d in Peel(nodes, adj) && DependsOn(adj, c, d)
    ensures c in Peel(nodes, adj)
  {
  }

  lemma RestIsClosed(nodes: set<Node>, adj: Adj)
    requires Closed(adj, nodes)
    ensures Closed(adj, Rest(nodes, adj))
    ensures forall x {:trigger HasDependent(adj, Rest(nodes, adj), x)} :: x in Rest(nodes, adj) ==> HasDependent(adj, Rest(nodes, adj), x)
  {
    PeelIsOrdered(nodes, adj);
    var s := Peel(nodes, adj);
    forall c, d | c in Rest(nodes, adj) && d in Deps(adj, c) ensures d in Rest(nodes, adj) {
      if d in s { PeelTakesDependents(nodes, adj, c, d); }
    }
    forall x | x in Rest(nodes, adj) ensures HasDependent(adj, Rest(nodes, adj), x) {
      RestIsStuck(nodes, adj, x);
    }
  }

  /** The search never comes back empty-handed: when the ordering is incomplete there is a cycle among the nodes
      left behind, and the search finds one. */
  method ExplainFailure(nodes: seq<Node>, adj: Adj, order: seq<Node>) returns (cycle: seq<Node>)
    requires Closed(adj, Elements(nodes)) && order == Peel(Elements(nodes), adj)
    requires !Complete(Elements(nodes), adj)
    ensures IsCycle(adj, cycle) && Elements(cycle) <= Elements(nodes) - Elements(order)
  {
    var starts := [];
    for k := 0 to |nodes|
      invariant Elements(starts) == Elements(nodes[..k]) - Elements(order)
    {
      assert Elements(nodes[..k + 1]) == Elements(nodes[..k]) + {nodes[k]};
      if nodes[k] !in order {
        assert Elements(starts + [nodes[k]]) == Elements(starts) + {nodes[k]};
        starts := starts + [nodes[k]];
      }
    }
    assert nodes[..|nodes|] == nodes;
    assert Elements(starts) == Rest(Elements(nodes), adj);
    RestIsClosed(Elements(nodes), adj);
    PeelIsOrdered(Elements(nodes), adj);
    var found: Option<seq<Node>>;
    ghost var done;
    found, done := FindCycle(adj, starts);
    if found.None? {
      var n :| n in Elements(starts);
      NoFinishingOrder(adj, Elements(starts), done, n, |done| - IndexOf(done, n));
      assert false;
    }
    cycle := found.value;
  }

  /** Conversely a graph with a cycle is never ordered completely. */
  lemma CyclicIsNeverComplete(nodes: set<Node>, adj: Adj, cycle: seq<Node>)
    requires Closed(adj, nodes) && IsCycle(adj, cycle) && cycle[0] in nodes
    ensures !Complete(nodes, adj)
  {
    CycleStaysInside(nodes, adj, cycle, |cycle| - 1);
    CycleBlocksPeeling(nodes, adj, cycle);
  }

  lemma {:induction false} CycleStaysInside(nodes: set<Node>, adj: Adj, path: seq<Node>, k: nat)
    requires Closed(adj, nodes) && k < |path| && path[0] in nodes
    requires forall i :: 0 <= i < |path| - 1 ==> DependsOn(adj, path[i], path[i + 1])
    ensures forall i :: 0 <= i <= k ==> path[i] in nodes
  {
    if k > 0 {
      CycleStaysInside(nodes, adj, path, k - 1);
      assert path[k] in Deps(adj, path[k - 1]);
    }
  }
}
