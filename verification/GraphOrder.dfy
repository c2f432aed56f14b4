/**
 Ordering a dependency graph: peeling off, least first, the nodes nothing left depends on; the in-degree
 loop that computes the peeling; and the depth-first search that explains a failure with a cycle.

 `adj[c]` lists what `c` depends on, with repetitions.
 */
module GraphOrder {
  import opened Prelude

  type Node = nat
  type Adj = map<Node, seq<Node>>

  function Deps(adj: Adj, c: Node): seq<Node> { if c in adj then adj[c] else [] }

  predicate DependsOn(adj: Adj, c: Node, p: Node) { p in Deps(adj, c) }

  // ---- the peeling ----

  /** Nothing in `rem` depends on the node any more. */
  predicate Free(rem: set<Node>, adj: Adj, n: Node) { forall m :: m in rem ==> !DependsOn(adj, m, n) }

  function Ready(rem: set<Node>, adj: Adj): set<Node> { set n | n in rem && Free(rem, adj, n) }

  predicate IsLeast(s: set<Node>, x: Node) { x in s && forall y :: y in s ==> x <= y }

  ghost function Least(s: set<Node>): (x: Node)
    requires s != {}
    ensures IsLeast(s, x)
  {
    var x :| x in s;
    assert forall y :: y in s ==> y == x || y in s - {x};
    if s - {x} == {} then x
    else
      var z := Least(s - {x});
      if z < x then z else x
  }

  ghost function Peel(rem: set<Node>, adj: Adj): seq<Node>
    decreases rem
  {
    var ready := Ready(rem, adj);
    if ready == {} then [] else [Least(ready)] + Peel(rem - {Least(ready)}, adj)
  }

  function Elements(s: seq<Node>): set<Node> { set n | n in s }

  ghost predicate Complete(rem: set<Node>, adj: Adj) { Elements(Peel(rem, adj)) == rem }

  lemma {:induction false} PeelIsDistinct(rem: set<Node>, adj: Adj)
    ensures Elements(Peel(rem, adj)) <= rem && NoDup(Peel(rem, adj))
    decreases rem
  {
    var ready := Ready(rem, adj);
    if ready != {} {
      var x := Least(ready);
      PeelIsDistinct(rem - {x}, adj);
      assert forall n :: n in Peel(rem - {x}, adj) ==> n in Elements(Peel(rem - {x}, adj));
    }
  }

  /** The peeling lists nodes of `rem` once each, and a node only after everything depending on it. */
  lemma {:induction false} PeelIsOrdered(rem: set<Node>, adj: Adj)
    ensures
      var s := Peel(rem, adj);
      && Elements(s) <= rem && NoDup(s)
      && (forall i, m :: 0 <= i < |s| && m in rem && DependsOn(adj, m, s[i]) ==> m in s[..i])
    decreases rem
  {
    PeelIsDistinct(rem, adj);
    var ready := Ready(rem, adj);
    if ready != {} {
      var x := Least(ready);
      PeelIsOrdered(rem - {x}, adj);
      var s, rest := Peel(rem, adj), Peel(rem - {x}, adj);
      assert s == [x] + rest && Free(rem, adj, x);
      forall i, m | 0 <= i < |s| && m in rem && DependsOn(adj, m, s[i]) ensures m in s[..i] {
        assert i > 0;
        assert s[..i] == [x] + rest[..i - 1];
        if m != x { assert DependsOn(adj, m, rest[i - 1]) && m in rem - {x}; }
      }
    }
  }

  /** Every node the peeling leaves behind still has a dependent left behind. */
  lemma {:induction false} RestIsStuck(rem: set<Node>, adj: Adj, n: Node)
    requires n in rem && n !in Elements(Peel(rem, adj))
    ensures exists m :: m in rem - Elements(Peel(rem, adj)) && DependsOn(adj, m, n)
    decreases rem
  {
    var ready := Ready(rem, adj);
    if ready == {} {
      assert Peel(rem, adj) == [];
      assert n !in ready;
      assert !Free(rem, adj, n);
      var m :| m in rem && DependsOn(adj, m, n);
    } else {
      var x := Least(ready);
      var rest := Peel(rem - {x}, adj);
      assert Peel(rem, adj) == [x] + rest;
      assert Elements(Peel(rem, adj)) == {x} + Elements(rest) by {
        assert forall k :: k in [x] + rest <==> k == x || k in rest;
      }
      RestIsStuck(rem - {x}, adj, n);
    }
  }

  // ---- cycles ----

  /** A closed path: each node depends on the next, and the last is the first again. */
  predicate IsCycle(adj: Adj, path: seq<Node>) {
    && |path| >= 2 && path[0] == path[|path| - 1]
    && forall k :: 0 <= k < |path| - 1 ==> DependsOn(adj, path[k], path[k + 1])
  }

  function IndexOf(s: seq<Node>, n: Node): (i: nat)
    requires n in s
    ensures i < |s| && s[i] == n && forall j :: 0 <= j < i ==> s[j] != n
  {
    if s[0] == n then 0
    else
      assert s == [s[0]] + s[1..];
      IndexOf(s[1..], n) + 1
  }

  /** A node comes only after everything in the sequence that depends on it. */
  predicate DependentsFirst(s: seq<Node>, adj: Adj) {
    forall i, m :: 0 <= i < |s| && m in s && DependsOn(adj, m, s[i]) ==> m in s[..i]
  }

  /** Along a path the positions only go up. */
  lemma {:induction false} PathGoesUp(s: seq<Node>, adj: Adj, path: seq<Node>, k: nat)
    requires DependentsFirst(s, adj) && 1 <= k < |path| && forall i :: 0 <= i < |path| ==> path[i] in s
    requires forall i :: 0 <= i < |path| - 1 ==> DependsOn(adj, path[i], path[i + 1])
    ensures IndexOf(s, path[0]) < IndexOf(s, path[k])
  {
    var i := IndexOf(s, path[k]);
    assert DependsOn(adj, path[k - 1], s[i]);
    if k > 1 { PathGoesUp(s, adj, path, k - 1); }
  }

  /** A graph with a closed path inside `rem` cannot be peeled completely. */
  lemma CycleBlocksPeeling(rem: set<Node>, adj: Adj, path: seq<Node>)
    requires IsCycle(adj, path) && forall i :: 0 <= i < |path| ==> path[i] in rem
    ensures !Complete(rem, adj)
  {
    var s := Peel(rem, adj);
    PeelIsOrdered(rem, adj);
    if Complete(rem, adj) {
      assert forall n :: n in s <==> n in Elements(s);
      PathGoesUp(s, adj, path, |path| - 1);
    }
  }

  // ---- the in-degree loop ----

  function Count(s: seq<Node>, n: Node): nat {
    if s == [] then 0 else Count(s[..|s| - 1], n) + if s[|s| - 1] == n then 1 else 0
  }

  lemma {:induction false} CountMember(s: seq<Node>, n: Node)
    ensures Count(s, n) > 0 <==> n in s
  {
    if s != [] {
      CountMember(s[..|s| - 1], n);
      assert s == s[..|s| - 1] + [s[|s| - 1]];
    }
  }

  lemma {:induction false} CountPrefix(s: seq<Node>, j: nat, n: Node)
    requires j <= |s|
    ensures Count(s[..j], n) <= Count(s, n)
  {
    if j < |s| {
      CountPrefix(s[..|s| - 1], j, n);
      assert s[..|s| - 1][..j] == s[..j];
    } else {
      assert s[..j] == s;
    }
  }

  lemma CountStep(s: seq<Node>, j: nat, n: Node)
    requires j < |s|
    ensures Count(s[..j + 1], n) == Count(s[..j], n) + if s[j] == n then 1 else 0
  {
    assert s[..j + 1][..j] == s[..j];
  }

  /** How many dependencies on `n` the nodes of `alive` among `nodes` have. */
  function Degree(nodes: seq<Node>, adj: Adj, alive: set<Node>, n: Node): nat {
    if nodes == [] then 0
    else
      var last := nodes[|nodes| - 1];
      Degree(nodes[..|nodes| - 1], adj, alive, n) + if last in alive then Count(Deps(adj, last), n) else 0
  }

  lemma {:induction false} DegreeWithout(nodes: seq<Node>, adj: Adj, alive: set<Node>, x: Node, n: Node)
    requires NoDup(nodes) && x in alive
    ensures Degree(nodes, adj, alive, n)
         == Degree(nodes, adj, alive - {x}, n) + if x in nodes then Count(Deps(adj, x), n) else 0
  {
    if nodes != [] {
      var init, last := nodes[..|nodes| - 1], nodes[|nodes| - 1];
      DegreeWithout(init, adj, alive, x, n);
      assert nodes == init + [last];
      assert last !in init;
    }
  }

  lemma {:induction false} DegreeZero(nodes: seq<Node>, adj: Adj, alive: set<Node>, n: Node)
    ensures Degree(nodes, adj, alive, n) == 0
       <==> forall m :: m in nodes && m in alive ==> !DependsOn(adj, m, n)
  {
    if nodes != [] {
      var init, last := nodes[..|nodes| - 1], nodes[|nodes| - 1];
      DegreeZero(init, adj, alive, n);
      CountMember(Deps(adj, last), n);
      assert nodes == init + [last];
    }
  }

  method CountIn(deps: seq<Node>, degree: map<Node, nat>) returns (degree': map<Node, nat>)
    ensures degree'.Keys == degree.Keys
    ensures forall n :: n in degree ==> degree'[n] == degree[n] + Count(deps, n)
  {
    degree' := degree;
    for j := 0 to |deps|
      invariant degree'.Keys == degree.Keys
      invariant forall n :: n in degree ==> degree'[n] == degree[n] + Count(deps[..j], n)
    {
      forall n { CountStep(deps, j, n); }
      if deps[j] in degree' { degree' := degree'[deps[j] := degree'[deps[j]] + 1]; }
    }
    assert deps[..|deps|] == deps;
  }

  lemma DegreeStep(nodes: seq<Node>, adj: Adj, alive: set<Node>, k: nat, n: Node)
    requires k < |nodes| && nodes[k] in alive
    ensures Degree(nodes[..k + 1], adj, alive, n) == Degree(nodes[..k], adj, alive, n) + Count(Deps(adj, nodes[k]), n)
  {
    assert nodes[..k + 1][..k] == nodes[..k];
  }

  /** Counting every dependency once gives the in-degree table. */
  method InDegrees(nodes: seq<Node>, adj: Adj) returns (degree: map<Node, nat>)
    requires NoDup(nodes)
    ensures degree.Keys == Elements(nodes)
    ensures forall n :: n in nodes ==> degree[n] == Degree(nodes, adj, Elements(nodes), n)
  {
    degree := map n | n in nodes :: 0;
    ghost var alive := Elements(nodes);
    for k := 0 to |nodes|
      invariant degree.Keys == alive
      invariant forall n :: n in degree ==> degree[n] == Degree(nodes[..k], adj, alive, n)
    {
      degree := CountIn(Deps(adj, nodes[k]), degree);
      forall n { DegreeStep(nodes, adj, alive, k, n); }
    }
    assert nodes[..|nodes|] == nodes;
  }

  /** Takes the dependencies of a processed node out of the table; a node that drops to zero becomes ready. */
  method Release(deps: seq<Node>, degree: map<Node, nat>, ready: set<Node>)
      returns (degree': map<Node, nat>, ready': set<Node>)
    requires forall n :: n in degree ==> Count(deps, n) <= degree[n]
    ensures degree'.Keys == degree.Keys
    ensures forall n :: n in degree ==> degree'[n] == degree[n] - Count(deps, n)
    ensures forall n :: n in ready' <==> n in ready || (n in degree && n in deps && degree'[n] == 0)
  {
    degree', ready' := degree, ready;
    for j := 0 to |deps|
      invariant degree'.Keys == degree.Keys
      invariant forall n :: n in degree ==> degree'[n] == degree[n] - Count(deps[..j], n)
      invariant forall n :: n in ready' <==> n in ready || (n in degree && Count(deps[..j], n) > 0 && degree'[n] == 0)
    {
      var d := deps[j];
      forall n { CountStep(deps, j, n); }
      CountPrefix(deps, j + 1, d);
      if d in degree' {
        degree' := degree'[d := degree'[d] - 1];
        if degree'[d] == 0 { ready' := ready' + {d}; }
      }
    }
    assert deps[..|deps|] == deps;
    forall n { CountMember(deps, n); }
  }

  /** One turn of the loop: the released node's table and ready set are those of the nodes still left. */
  lemma AfterRelease(nodes: seq<Node>, adj: Adj, rem: set<Node>, x: Node, n: Node)
    requires NoDup(nodes) && rem <= Elements(nodes) && x in Ready(rem, adj)
    ensures Degree(nodes, adj, rem, n) == Degree(nodes, adj, rem - {x}, n) + Count(Deps(adj, x), n)
    ensures n in rem ==> (n in Ready(rem, adj) <==> Degree(nodes, adj, rem, n) == 0)
    ensures n in rem - {x} ==> (n in Ready(rem - {x}, adj) <==> Degree(nodes, adj, rem - {x}, n) == 0)
  {
    DegreeWithout(nodes, adj, rem, x, n);
    DegreeZero(nodes, adj, rem, n);
    DegreeZero(nodes, adj, rem - {x}, n);
    assert forall m :: m in rem ==> m in Elements(nodes);
  }

  lemma ReadyAfterRelease(nodes: seq<Node>, adj: Adj, rem: set<Node>, x: Node, degree: map<Node, nat>)
    requires NoDup(nodes) && rem <= Elements(nodes) && x in Ready(rem, adj) && degree.Keys == Elements(nodes)
    requires forall n :: n in degree ==> degree[n] == Degree(nodes, adj, rem - {x}, n)
    requires forall n :: n in degree && n !in rem ==> Free(rem, adj, n)
    ensures Ready(rem - {x}, adj)
         == Ready(rem, adj) - {x} + set n | n in degree && n in Deps(adj, x) && degree[n] == 0
  {
    var freed := set n | n in degree && n in Deps(adj, x) && degree[n] == 0;
    forall n ensures n in Ready(rem - {x}, adj) <==> n in Ready(rem, adj) - {x} + freed {
      AfterRelease(nodes, adj, rem, x, n);
      assert DependsOn(adj, x, n) <==> n in Deps(adj, x);
      if n in freed { assert n in rem && n != x; }
    }
  }

  /** The tables of the in-degree loop when `rem` is what it has not processed. */
  predicate Tables(nodes: seq<Node>, adj: Adj, rem: set<Node>, degree: map<Node, nat>, ready: set<Node>) {
    && rem <= Elements(nodes) && ready == Ready(rem, adj) && degree.Keys == Elements(nodes)
    && (forall n :: n in degree ==> degree[n] == Degree(nodes, adj, rem, n))
    && (forall n :: n in degree && n !in rem ==> Free(rem, adj, n))
  }

  lemma InitialTables(nodes: seq<Node>, adj: Adj, degree: map<Node, nat>)
    requires NoDup(nodes) && degree.Keys == Elements(nodes)
    requires forall n :: n in nodes ==> degree[n] == Degree(nodes, adj, Elements(nodes), n)
    ensures Tables(nodes, adj, Elements(nodes), degree, set n | n in nodes && degree[n] == 0)
  {
    forall n | n in nodes ensures n in Ready(Elements(nodes), adj) <==> degree[n] == 0 {
      DegreeZero(nodes, adj, Elements(nodes), n);
    }
    assert (set n | n in nodes && degree[n] == 0) == Ready(Elements(nodes), adj);
  }

  lemma ReleaseIsSafe(nodes: seq<Node>, adj: Adj, rem: set<Node>, degree: map<Node, nat>, ready: set<Node>, x: Node)
    requires NoDup(nodes) && Tables(nodes, adj, rem, degree, ready) && x in ready
    ensures forall n :: n in degree ==>
      degree[n] == Degree(nodes, adj, rem - {x}, n) + Count(Deps(adj, x), n)
  {
    forall n | n in degree
      ensures degree[n] == Degree(nodes, adj, rem - {x}, n) + Count(Deps(adj, x), n)
    {
      AfterRelease(nodes, adj, rem, x, n);
    }
  }

  lemma TablesAfterRelease(nodes: seq<Node>, adj: Adj, rem: set<Node>, degree: map<Node, nat>, ready: set<Node>,
                           x: Node, degree': map<Node, nat>, ready': set<Node>)
    requires NoDup(nodes) && Tables(nodes, adj, rem, degree, ready) && x in ready
    requires degree'.Keys == degree.Keys
    requires forall n :: n in degree ==> degree'[n] == degree[n] - Count(Deps(adj, x), n)
    requires forall n :: n in ready' <==> n in ready - {x} || (n in degree && n in Deps(adj, x) && degree'[n] == 0)
    ensures Tables(nodes, adj, rem - {x}, degree', ready')
  {
    ReleaseIsSafe(nodes, adj, rem, degree, ready, x);
    ReadyAfterRelease(nodes, adj, rem, x, degree');
    assert ready' == Ready(rem - {x}, adj);
  }

  method PopFirst(ready: set<Node>) returns (x: Node, rest: set<Node>)
    requires ready != {}
    ensures x == Least(ready) && rest == ready - {x}
  {
    assert IsLeast(ready, Least(ready));
    x :| x in ready && forall y :: y in ready ==> x <= y;
    rest := ready - {x};
  }

  lemma PeelStep(rem: set<Node>, adj: Adj, order: seq<Node>, x: Node)
    requires Ready(rem, adj) != {} && x == Least(Ready(rem, adj))
    ensures order + [x] + Peel(rem - {x}, adj) == order + Peel(rem, adj)
  {
  }

  /** The in-degree loop computes the peeling. */
  method Kahn(nodes: seq<Node>, adj: Adj) returns (order: seq<Node>)
    requires NoDup(nodes)
    ensures order == Peel(Elements(nodes), adj)
  {
    var degree := InDegrees(nodes, adj);
    ghost var rem := Elements(nodes);
    InitialTables(nodes, adj, degree);
    var ready := set n | n in nodes && degree[n] == 0;
    order := [];
    while ready != {}
      invariant Tables(nodes, adj, rem, degree, ready)
      invariant order + Peel(rem, adj) == Peel(Elements(nodes), adj)
      decreases rem
    {
      var x, rest := PopFirst(ready);
      PeelStep(rem, adj, order, x);
      ReleaseIsSafe(nodes, adj, rem, degree, ready, x);
      var degree', ready' := Release(Deps(adj, x), degree, rest);
      TablesAfterRelease(nodes, adj, rem, degree, ready, x, degree', ready');
      degree, ready := degree', ready';
      order := order + [x];
      rem := rem - {x};
    }
    assert order + [] == order;
  }
}
