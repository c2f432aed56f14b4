/**
 Which records can leave the graph: the removal theorem behind deactivation and the uninstall check.
 */
module Removal {
  import opened Prelude
  import opened GraphOrder
  import opened GraphCycle
  import opened ProviderGraph
  import opened GraphPolicy

  function Remaining(edges: Edges, x: Inst): Edges { map k | k in edges && k.0 != x :: edges[k] }

  /** Nobody else's requirement resolves to `x`. */
  predicate Unused(edges: Edges, x: Inst) { forall k :: k in edges && k.0 != x ==> edges[k].provider != x }

  lemma ApplyWithout(rules: Rules, ps: Providers, x: Inst)
    ensures ApplyTable(rules, ps - {x}) == ApplyTable(rules, ps) - {x}
  {
  }

  lemma CandidatesWithout(ps: Providers, x: Inst, r: Requirement)
    ensures Candidates(ps - {x}, r) == Candidates(ps, r) - {x}
  {
  }

  lemma RemainingResolve(ps: Providers, cs: Consumers, edges: Edges, x: Inst)
    requires ResolvesAll(ps, cs, edges) && Unused(edges, x)
    ensures ResolvesAll(ps - {x}, cs - {x}, Remaining(edges, x))
  {
  }

  function Cut(adj: Adj, x: Inst): Adj { map c | c in adj && c != x :: adj[c] }

  lemma EdgesBetweenRemaining(edges: Edges, x: Inst, c: Inst, p: Inst)
    ensures EdgeBetween(Remaining(edges, x), c, p) <==> c != x && EdgeBetween(edges, c, p)
  {
  }

  lemma RemainingOrder(ps: Providers, cs: Consumers, g: Graph, x: Inst) returns (h: Graph)
    requires IsGraph(ps, cs, g) && Unused(g.edges, x)
    ensures IsGraph(ps - {x}, cs - {x}, h) && h.edges == Remaining(g.edges, x)
  {
    RemainingResolve(ps, cs, g.edges, x);
    var edges' := Remaining(g.edges, x);
    var nodes, nodes' := Participants(ps, g.edges), Participants(ps - {x}, edges');
    var adj :| Represents(adj, g.edges, nodes) && Complete(nodes, adj);
    var adj' := Cut(adj, x);
    CutRepresents(ps, cs, g.edges, x, adj);
    assert nodes' <= nodes;
    CompleteIsMonotone(nodes, adj, nodes', adj');
    h := Graph(ps - {x}, edges', Reverse(Peel(nodes', adj')));
  }

  lemma CutRepresents(ps: Providers, cs: Consumers, edges: Edges, x: Inst, adj: Adj)
    requires ResolvesAll(ps, cs, edges) && Unused(edges, x)
    requires Represents(adj, edges, Participants(ps, edges))
    ensures Represents(Cut(adj, x), Remaining(edges, x), Participants(ps - {x}, Remaining(edges, x)))
  {
    var edges', adj' := Remaining(edges, x), Cut(adj, x);
    var nodes, nodes' := Participants(ps, edges), Participants(ps - {x}, edges');
    RemainingResolve(ps, cs, edges, x);
    forall n | n in nodes && n != x ensures n in nodes' {
      if n !in ps {
        var k :| k in edges && k.0 == n;
        assert k in edges';
      }
    }
    forall c, p | c in nodes' && p in nodes' ensures DependsOn(adj', c, p) <==> EdgeBetween(edges', c, p) {
      EdgesBetweenRemaining(edges, x, c, p);
    }
    forall c, p | c in adj' && p in adj'[c] ensures EdgeBetween(edges', c, p) && p in nodes' {
      assert c in adj && p in adj[c];
      EdgesBetweenRemaining(edges, x, c, p);
      ForcedEdge(ps - {x}, cs - {x}, edges', c, p);
    }
  }

  /** A requirement of somebody else that resolves to `x` stands in the way of any graph without `x`. */
  lemma UsedProviderStays(ps: Providers, cs: Consumers, g: Graph, x: Inst, h: Graph)
    requires IsGraph(ps, cs, g) && !Unused(g.edges, x)
    ensures !IsGraph(ps - {x}, cs - {x}, h)
  {
    var k :| k in g.edges && k.0 != x && g.edges[k].provider == x;
    assert Resolves(ps, k.1, g.edges[k]);
    CandidatesWithout(ps, x, k.1);
    assert Candidates(ps - {x}, k.1) == {};
    assert k == (k.0, k.1) && k in Wants(cs - {x});
  }

  /** The removal theorem.  In a consistent state the rebuild without an installation succeeds exactly when no
      other installation's requirement resolves to it and no policy binding names it; then every other edge
      stays as it was. */
  lemma RemovalTheorem(rules: Rules, ps: Providers, cs: Consumers, g: Graph, x: Inst)
    requires Coherent(rules) && Fulfillable(rules, ps) && IsGraph(ApplyTable(rules, ps), cs, g)
    ensures
      (Fulfillable(rules, ps - {x}) && Buildable(ApplyTable(rules, ps - {x}), cs - {x}))
      <==> Unused(g.edges, x) && forall k :: k in rules.bindings ==> rules.bindings[k] != x
    ensures forall h :: IsGraph(ApplyTable(rules, ps - {x}), cs - {x}, h) ==> h.edges == Remaining(g.edges, x)
  {
    var applied := ApplyTable(rules, ps);
    ApplyWithout(rules, ps, x);
    if Unused(g.edges, x) {
      var after := RemainingOrder(applied, cs, g, x);
      forall h | IsGraph(applied - {x}, cs - {x}, h) ensures h.edges == Remaining(g.edges, x) {
        GraphIsUnique(applied - {x}, cs - {x}, h, after);
      }
    } else {
      forall h ensures !IsGraph(applied - {x}, cs - {x}, h) { UsedProviderStays(applied, cs, g, x, h); }
    }
  }

  /** The uninstall check looks for any edge to the installation. */
  predicate PreCheck(edges: Edges, x: Inst) { forall k :: k in edges ==> edges[k].provider != x }

  /** The uninstall check and the rebuild check disagree exactly on installations a policy binding names. */
  lemma PreCheckAgreesUnlessBound(rules: Rules, ps: Providers, cs: Consumers, g: Graph, x: Inst)
    requires Coherent(rules) && Fulfillable(rules, ps) && IsGraph(ApplyTable(rules, ps), cs, g)
    ensures
      var rebuilds := Fulfillable(rules, ps - {x}) && Buildable(ApplyTable(rules, ps - {x}), cs - {x});
      && (rebuilds ==> PreCheck(g.edges, x))
      && (PreCheck(g.edges, x) ==> (rebuilds <==> forall k :: k in rules.bindings ==> rules.bindings[k] != x))
  {
    RemovalTheorem(rules, ps, cs, g, x);
    forall k | k in g.edges ensures g.edges[k].provider != k.0 {
      NoSelfEdge(ApplyTable(rules, ps), cs, g, k);
    }
  }

  /** A bound provider nobody uses: the uninstall check passes, the rebuild does not. */
  lemma BoundPassesTheCheck()
    ensures
      var rules, ps := Rules(map[0 := 1], {}), map[1 := {Iface(0, 1)}];
      && Coherent(rules) && Fulfillable(rules, ps)
      && exists g ::
           && IsGraph(ApplyTable(rules, ps), map[], g) && PreCheck(g.edges, 1)
           && !(Fulfillable(rules, ps - {1}) && Buildable(ApplyTable(rules, ps - {1}), map[]))
  {
    var rules, ps := Rules(map[0 := 1], {}), map[1 := {Iface(0, 1)}];
    var adj: Adj := map[];
    assert Iface(0, 1) in ps[1] && Kept(rules, 1, Iface(0, 1));
    assert Filter(rules, 1, ps[1]) == ps[1];
    assert ApplyTable(rules, ps) == ps;
    assert Wants(map[]) == {};
    assert Participants(ps, map[]) == {1};
    assert Represents(adj, map[], {1});
    var g := Graph(ps, map[], Reverse(Peel({1}, adj)));
    CompleteAlone(adj);
    assert IsGraph(ps, map[], g);
    assert rules.bindings[0] == 1;
  }

  lemma CompleteAlone(adj: Adj)
    requires adj == map[]
    ensures Complete({1}, adj)
  {
    assert Free({1}, adj, 1);
    assert Ready({1}, adj) == {1};
  }
}
