/**
 The provider graph: resolving every requirement of every consumer to exactly one provider at its highest
 compatible version, and ordering the result.

 A version is its rank in the semver order, and a version requirement an interval of ranks: a semver
 requirement is a conjunction of comparators over release versions.
 */
module ProviderGraph {
  import opened Prelude
  import opened GraphOrder
  import opened GraphCycle

  type Inst = nat
  type Key = nat
  type Version = nat

  datatype Iface = Iface(key: Key, version: Version)

  /** `text` is the normalized requirement text, which keeps requirements with equal intervals apart. */
  datatype Requirement = Requirement(key: Key, text: nat, lo: Version, hi: Option<Version>)

  datatype Edge = Edge(provider: Inst, version: Version)

  type Providers = map<Inst, set<Iface>>
  type Consumers = map<Inst, set<Requirement>>
  type Edges = map<(Inst, Requirement), Edge>

  datatype Graph = Graph(providers: Providers, edges: Edges, order: seq<Inst>)

  datatype BuildError =
    | Missing(consumer: Inst, requirement: Requirement)
    | Incompatible(consumer: Inst, requirement: Requirement)
    | Ambiguous(consumer: Inst, requirement: Requirement, candidates: set<Inst>)
    | Cycle(path: seq<Inst>)
    | DuplicateProvider(provider: Inst)
    | DuplicateConsumer(consumer: Inst)

  predicate Satisfies(r: Requirement, i: Iface) {
    i.key == r.key && r.lo <= i.version && (r.hi.Some? ==> i.version < r.hi.value)
  }

  predicate Offers(ps: Providers, p: Inst, r: Requirement) {
    p in ps && exists i :: i in ps[p] && Satisfies(r, i)
  }

  function Candidates(ps: Providers, r: Requirement): set<Inst> { set p | p in ps && Offers(ps, p, r) }

  predicate IsHighest(ifaces: set<Iface>, r: Requirement, v: Version) {
    && Iface(r.key, v) in ifaces && Satisfies(r, Iface(r.key, v))
    && forall i :: i in ifaces && Satisfies(r, i) ==> i.version <= v
  }

  /** The one candidate, at its highest compatible version. */
  predicate Resolves(ps: Providers, r: Requirement, e: Edge) {
    Candidates(ps, r) == {e.provider} && IsHighest(ps[e.provider], r, e.version)
  }

  /** The requirement admits this version: at least its lower bound and below its upper one. */
  predicate InRange(r: Requirement, v: Version) { r.lo <= v && (r.hi.None? || v < r.hi.value) }

  /** What an edge means: its provider offers the interface at that version, which the requirement admits and which is the
      highest it offers that is admitted; and nobody else offers the interface at any admitted version. */
  lemma ResolvesExactly(ps: Providers, r: Requirement, e: Edge)
    ensures Resolves(ps, r, e) <==>
      && e.provider in ps && Iface(r.key, e.version) in ps[e.provider] && InRange(r, e.version)
      && (forall v: Version :: Iface(r.key, v) in ps[e.provider] && InRange(r, v) ==> v <= e.version)
      && (forall p: Inst, v: Version :: p in ps && p != e.provider && Iface(r.key, v) in ps[p] ==> !InRange(r, v))
  {
    forall i ensures Satisfies(r, i) <==> i == Iface(r.key, i.version) && InRange(r, i.version) {}
    forall p ensures p in Candidates(ps, r) <==> p in ps && exists v: Version :: Iface(r.key, v) in ps[p] && InRange(r, v) {
      OffersInRange(ps, p, r);
    }
  }

  lemma OffersInRange(ps: Providers, p: Inst, r: Requirement)
    ensures Offers(ps, p, r) <==> p in ps && exists v: Version :: Iface(r.key, v) in ps[p] && InRange(r, v)
  {
    if Offers(ps, p, r) {
      var i :| i in ps[p] && Satisfies(r, i);
      assert Iface(r.key, i.version) == i;
    }
    if p in ps {
      if v :| Iface(r.key, v) in ps[p] && InRange(r, v) { assert Satisfies(r, Iface(r.key, v)); }
    }
  }

  function Wants(cs: Consumers): set<(Inst, Requirement)> {
    set c, r | c in cs && r in cs[c] :: (c, r)
  }

  predicate ResolvesAll(ps: Providers, cs: Consumers, edges: Edges) {
    && edges.Keys == Wants(cs)
    && forall k :: k in edges ==> Resolves(ps, k.1, edges[k])
  }

  predicate EdgeBetween(edges: Edges, c: Inst, p: Inst) {
    exists k :: k in edges && k.0 == c && edges[k].provider == p
  }

  predicate Represents(adj: Adj, edges: Edges, nodes: set<Inst>) {
    && (forall c :: c in adj ==> c in nodes)
    && (forall c, p | c in nodes && p in nodes :: DependsOn(adj, c, p) <==> EdgeBetween(edges, c, p))
    && (forall c, p | c in adj && p in adj[c] :: EdgeBetween(edges, c, p) && p in nodes)
  }

  /** Everything that takes part: all providers, and the consumers that require something. */
  function Participants(ps: Providers, edges: Edges): set<Inst> {
    ps.Keys + set k | k in edges :: k.0
  }

  function Reverse(s: seq<Inst>): (r: seq<Inst>)
    ensures |r| == |s| && forall i :: 0 <= i < |s| ==> r[i] == s[|s| - 1 - i]
  {
    if s == [] then [] else Reverse(s[1..]) + [s[0]]
  }

  ghost predicate IsOrder(ps: Providers, edges: Edges, order: seq<Inst>) {
    var nodes := Participants(ps, edges);
    exists adj ::
      && Represents(adj, edges, nodes)
      && Complete(nodes, adj) && order == Reverse(Peel(nodes, adj))
  }

  /** What building a graph from the records means. */
  ghost predicate IsGraph(ps: Providers, cs: Consumers, g: Graph) {
    && g.providers == ps
    && ResolvesAll(ps, cs, g.edges)
    && IsOrder(ps, g.edges, g.order)
  }

  ghost predicate Buildable(ps: Providers, cs: Consumers) { exists g :: IsGraph(ps, cs, g) }

  // ---- the graph is determined by the records ----

  lemma {:induction false} PeelByRelation(rem: set<Node>, a: Adj, b: Adj)
    requires forall m, n | m in rem && n in rem :: DependsOn(a, m, n) <==> DependsOn(b, m, n)
    ensures Peel(rem, a) == Peel(rem, b)
    decreases rem
  {
    assert forall n :: n in rem ==> (Free(rem, a, n) <==> Free(rem, b, n));
    assert Ready(rem, a) == Ready(rem, b);
    if Ready(rem, a) != {} { PeelByRelation(rem - {Least(Ready(rem, a))}, a, b); }
  }

  lemma EdgesAreUnique(ps: Providers, cs: Consumers, a: Edges, b: Edges)
    requires ResolvesAll(ps, cs, a) && ResolvesAll(ps, cs, b)
    ensures a == b
  {
  }

  /** The same records always give the same graph, activation order included. */
  lemma GraphIsUnique(ps: Providers, cs: Consumers, g: Graph, h: Graph)
    requires IsGraph(ps, cs, g) && IsGraph(ps, cs, h)
    ensures g == h
  {
    EdgesAreUnique(ps, cs, g.edges, h.edges);
    var nodes := Participants(ps, g.edges);
    var a :| Represents(a, g.edges, nodes) && Complete(nodes, a) && g.order == Reverse(Peel(nodes, a));
    var b :| Represents(b, h.edges, nodes) && Complete(nodes, b) && h.order == Reverse(Peel(nodes, b));
    PeelByRelation(nodes, a, b);
  }

  lemma ReversedPositions(s: seq<Inst>, i: nat, c: Inst)
    requires i < |s| && c in s[..i]
    ensures
      var order := Reverse(s);
      exists a, b :: 0 <= a < b < |order| && order[a] == s[i] && order[b] == c
  {
    var j :| 0 <= j < i && s[j] == c;
    assert Reverse(s)[|s| - 1 - i] == s[i] && Reverse(s)[|s| - 1 - j] == c;
  }

  /** In the reversed peeling a node comes before everything that depends on it. */
  lemma ReversedPeelOrder(nodes: set<Inst>, adj: Adj, c: Inst, p: Inst)
    requires Complete(nodes, adj) && c in nodes && p in nodes && DependsOn(adj, c, p)
    ensures
      var order := Reverse(Peel(nodes, adj));
      exists i, j :: 0 <= i < j < |order| && order[i] == p && order[j] == c
  {
    var s := Peel(nodes, adj);
    PeelIsOrdered(nodes, adj);
    assert p in Elements(s);
    var i := IndexOf(s, p);
    assert c in s[..i];
    ReversedPositions(s, i, c);
  }

  /** Providers come before their consumers in the activation order, which lists every participant once. */
  lemma OrderIsTopological(ps: Providers, cs: Consumers, g: Graph, k: (Inst, Requirement))
    requires IsGraph(ps, cs, g)
    ensures NoDup(g.order) && Elements(g.order) == Participants(ps, g.edges)
    ensures k in g.edges ==>
      exists i, j :: 0 <= i < j < |g.order| && g.order[i] == g.edges[k].provider && g.order[j] == k.0
  {
    var nodes := Participants(ps, g.edges);
    var adj :| Represents(adj, g.edges, nodes) && Complete(nodes, adj) && g.order == Reverse(Peel(nodes, adj));
    PeelIsOrdered(nodes, adj);
    ReverseElements(Peel(nodes, adj));
    if k in g.edges {
      assert EdgeBetween(g.edges, k.0, g.edges[k].provider);
      ForcedEdge(ps, cs, g.edges, k.0, g.edges[k].provider);
      ReversedPeelOrder(nodes, adj, k.0, g.edges[k].provider);
    }
  }

  lemma ReverseElements(s: seq<Inst>)
    ensures Elements(Reverse(s)) == Elements(s)
    ensures NoDup(s) ==> NoDup(Reverse(s))
  {
    forall n | n in s ensures n in Reverse(s) {
      var i :| 0 <= i < |s| && s[i] == n;
      assert Reverse(s)[|s| - 1 - i] == n;
    }
  }

  /** An installation never resolves to itself. */
  lemma NoSelfEdge(ps: Providers, cs: Consumers, g: Graph, k: (Inst, Requirement))
    requires IsGraph(ps, cs, g) && k in g.edges
    ensures g.edges[k].provider != k.0
  {
    OrderIsTopological(ps, cs, g, k);
    var i, j :| 0 <= i < j < |g.order| && g.order[i] == g.edges[k].provider && g.order[j] == k.0;
  }

  // ---- when records cannot be built ----

  /** A set of nodes each of which has a dependent in the set is never peeled. */
  lemma {:induction false} StuckIsNeverPeeled(rem: set<Node>, adj: Adj, stuck: set<Node>)
    requires stuck <= rem
    requires forall n {:trigger HasDependent(adj, stuck, n)} :: n in stuck ==> HasDependent(adj, stuck, n)
    ensures Elements(Peel(rem, adj)) !! stuck
    decreases rem
  {
    var ready := Ready(rem, adj);
    if ready != {} {
      var x := Least(ready);
      forall n | n in stuck ensures !Free(rem, adj, n) {
        assert HasDependent(adj, stuck, n);
      }
      StuckIsNeverPeeled(rem - {x}, adj, stuck);
      assert forall n :: n in Peel(rem, adj) ==> n == x || n in Elements(Peel(rem - {x}, adj));
    }
  }

  /** Dropping nodes and dependencies keeps a graph orderable. */
  lemma CompleteIsMonotone(nodes: set<Node>, adj: Adj, nodes': set<Node>, adj': Adj)
    requires Complete(nodes, adj) && nodes' <= nodes
    requires forall m, n | m in nodes' && n in nodes' :: DependsOn(adj', m, n) ==> DependsOn(adj, m, n)
    ensures Complete(nodes', adj')
  {
    PeelIsOrdered(nodes', adj');
    var rest := Rest(nodes', adj');
    forall n | n in rest ensures HasDependent(adj, rest, n) {
      RestIsStuck(nodes', adj', n);
      var m :| m in rest && DependsOn(adj', m, n);
    }
    StuckIsNeverPeeled(nodes, adj, rest);
    assert rest <= Elements(Peel(nodes, adj));
    assert rest == {};
  }

  /** The dependency relation the records force. */
  predicate MustDepend(ps: Providers, cs: Consumers, c: Inst, p: Inst) {
    exists r :: c in cs && r in cs[c] && Candidates(ps, r) == {p}
  }

  /** Whether an error describes the records truthfully. */
  predicate Accurate(ps: Providers, cs: Consumers, e: BuildError) {
    match e
    case Missing(c, r) => (c, r) in Wants(cs) && forall p, i :: p in ps && i in ps[p] ==> i.key != r.key
    case Incompatible(c, r) =>
      (c, r) in Wants(cs) && Candidates(ps, r) == {} && exists p, i :: p in ps && i in ps[p] && i.key == r.key
    case Ambiguous(c, r, candidates) => (c, r) in Wants(cs) && candidates == Candidates(ps, r) && |candidates| > 1
    case Cycle(path) =>
      && |path| >= 2 && path[0] == path[|path| - 1]
      && forall k :: 0 <= k < |path| - 1 ==> MustDepend(ps, cs, path[k], path[k + 1])
    case DuplicateProvider(_) => false
    case DuplicateConsumer(_) => false
  }

  /** Records an accurate error describes have no graph. */
  lemma AccurateErrorsRefuse(ps: Providers, cs: Consumers, e: BuildError, g: Graph)
    requires Accurate(ps, cs, e)
    ensures !IsGraph(ps, cs, g)
  {
    if IsGraph(ps, cs, g) {
      if e.Cycle? { CyclicRecordsRefuse(ps, cs, e.path, g); }
    }
  }

  lemma CyclicRecordsRefuse(ps: Providers, cs: Consumers, path: seq<Inst>, g: Graph)
    requires Accurate(ps, cs, Cycle(path))
    ensures !IsGraph(ps, cs, g)
  {
    if IsGraph(ps, cs, g) {
      var nodes := Participants(ps, g.edges);
      var adj :| Represents(adj, g.edges, nodes) && Complete(nodes, adj);
      forall k | 0 <= k < |path| - 1 ensures EdgeBetween(g.edges, path[k], path[k + 1]) {
        assert MustDepend(ps, cs, path[k], path[k + 1]);
        ForcedEdge(ps, cs, g.edges, path[k], path[k + 1]);
      }
      forall i | 0 <= i < |path| ensures path[i] in nodes {
        var k := if i == 0 then 0 else i - 1;
        assert EdgeBetween(g.edges, path[k], path[k + 1]);
        ForcedEdge(ps, cs, g.edges, path[k], path[k + 1]);
      }
      assert IsCycle(adj, path);
      CycleBlocksPeeling(nodes, adj, path);
    }
  }

  lemma ForcedEdge(ps: Providers, cs: Consumers, edges: Edges, c: Inst, p: Inst)
    requires ResolvesAll(ps, cs, edges)
    ensures MustDepend(ps, cs, c, p) <==> EdgeBetween(edges, c, p)
    ensures EdgeBetween(edges, c, p) ==> c in Participants(ps, edges) && p in Participants(ps, edges)
  {
    if MustDepend(ps, cs, c, p) {
      var r :| c in cs && r in cs[c] && Candidates(ps, r) == {p};
      assert (c, r) in Wants(cs);
      assert Resolves(ps, r, edges[(c, r)]);
      assert edges[(c, r)].provider in {p};
    }
    if EdgeBetween(edges, c, p) {
      var k :| k in edges && k.0 == c && edges[k].provider == p;
      assert Resolves(ps, k.1, edges[k]);
      assert p in Candidates(ps, k.1);
    }
  }
}
