/**
 Building the provider graph from records: uniqueness of the records, resolution, ordering, diagnosis.
 */
module GraphBuild {
  import opened Prelude
  import opened GraphOrder
  import opened GraphCycle
  import opened ProviderGraph

  datatype ProviderRecord = ProviderRecord(inst: Inst, provided: set<Iface>)

  datatype ConsumerRecord = ConsumerRecord(inst: Inst, required: set<Requirement>)

  function ProviderTable(records: seq<ProviderRecord>): Providers {
    if records == [] then map[]
    else
      var last := records[|records| - 1];
      ProviderTable(records[..|records| - 1])[last.inst := last.provided]
  }

  function ConsumerTable(records: seq<ConsumerRecord>): Consumers {
    if records == [] then map[]
    else
      var last := records[|records| - 1];
      ConsumerTable(records[..|records| - 1])[last.inst := last.required]
  }

  predicate DistinctProviders(records: seq<ProviderRecord>) {
    forall i, j :: 0 <= i < j < |records| ==> records[i].inst != records[j].inst
  }

  predicate DistinctConsumers(records: seq<ConsumerRecord>) {
    forall i, j :: 0 <= i < j < |records| ==> records[i].inst != records[j].inst
  }

  lemma {:induction false} ProviderTableKeys(records: seq<ProviderRecord>, p: Inst)
    ensures p in ProviderTable(records) <==> exists i :: 0 <= i < |records| && records[i].inst == p
  {
    if records != [] {
      var init := records[..|records| - 1];
      ProviderTableKeys(init, p);
      assert forall i :: 0 <= i < |init| ==> records[i] == init[i];
    }
  }

  lemma {:induction false} ConsumerTableKeys(records: seq<ConsumerRecord>, c: Inst)
    ensures c in ConsumerTable(records) <==> exists i :: 0 <= i < |records| && records[i].inst == c
  {
    if records != [] {
      var init := records[..|records| - 1];
      ConsumerTableKeys(init, c);
      assert forall i :: 0 <= i < |init| ==> records[i] == init[i];
    }
  }

  // ---- one requirement ----

  method Highest(compatible: set<Iface>, ghost r: Requirement) returns (v: Version)
    requires compatible != {} && forall i :: i in compatible ==> i.key == r.key
    ensures Iface(r.key, v) in compatible && forall i :: i in compatible ==> i.version <= v
  {
    var first :| first in compatible;
    v := first.version;
    assert Iface(r.key, v) == first;
    var rest := compatible;
    while rest != {}
      invariant rest <= compatible && Iface(r.key, v) in compatible
      invariant forall i :: i in compatible && i !in rest ==> i.version <= v
      decreases rest
    {
      var i :| i in rest;
      assert Iface(r.key, i.version) == i;
      if v < i.version { v := i.version; }
      rest := rest - {i};
    }
  }

  method Resolve(ps: Providers, c: Inst, r: Requirement) returns (result: Result<Edge, BuildError>)
    ensures result.Ok? ==> Resolves(ps, r, result.value)
    ensures result.Err? ==> forall cs :: (c, r) in Wants(cs) ==> Accurate(ps, cs, result.error)
    ensures result.Err? ==>
      || result.error == Missing(c, r) || result.error == Incompatible(c, r)
      || result.error == Ambiguous(c, r, Candidates(ps, r))
  {
    var candidates := Candidates(ps, r);
    if candidates == {} {
      if exists p :: p in ps && exists i :: i in ps[p] && i.key == r.key {
        return Err(Incompatible(c, r));
      }
      return Err(Missing(c, r));
    }
    var p :| p in candidates;
    if |candidates| > 1 { return Err(Ambiguous(c, r, candidates)); }
    SingletonOf(candidates, p);
    assert Offers(ps, p, r);
    ghost var offered :| offered in ps[p] && Satisfies(r, offered);
    var compatible := set i | i in ps[p] && Satisfies(r, i);
    assert offered in compatible;
    var v := Highest(compatible, r);
    result := Ok(Edge(p, v));
  }

  lemma SingletonOf(s: set<Inst>, p: Inst)
    requires p in s && |s| <= 1
    ensures s == {p}
  {
    assert s == {p} + (s - {p});
    assert |s| == 1 + |s - {p}|;
  }

  // ---- all of them ----

  function Ceiling(hi: Option<Version>): nat { if hi.None? then 0 else hi.value + 1 }

  /** The order of the source's sorted tables: by consumer, then by requirement. */
  predicate Before(a: (Inst, Requirement), b: (Inst, Requirement)) {
    if a.0 != b.0 then a.0 < b.0
    else if a.1.key != b.1.key then a.1.key < b.1.key
    else if a.1.text != b.1.text then a.1.text < b.1.text
    else if a.1.lo != b.1.lo then a.1.lo < b.1.lo
    else Ceiling(a.1.hi) < Ceiling(b.1.hi)
  }

  /** The order the errors are reported in: by consumer first, and then by interface. */
  lemma BeforeByConsumer(a: (Inst, Requirement), b: (Inst, Requirement))
    ensures a.0 < b.0 ==> Before(a, b) && !Before(b, a)
    ensures a.0 == b.0 && a.1.key < b.1.key ==> Before(a, b) && !Before(b, a)
  {
  }

  lemma BeforeIsTotal(a: (Inst, Requirement), b: (Inst, Requirement))
    ensures a == b || Before(a, b) || Before(b, a)
  {
  }

  lemma BeforeIsTransitive(a: (Inst, Requirement), b: (Inst, Requirement), c: (Inst, Requirement))
    requires Before(a, b) && Before(b, c)
    ensures Before(a, c)
  {
  }

  predicate IsFirstOf(wants: set<(Inst, Requirement)>, k: (Inst, Requirement)) {
    k in wants && forall j :: j in wants && j != k ==> Before(k, j)
  }

  lemma FirstOfMore(wants: set<(Inst, Requirement)>, x: (Inst, Requirement), k: (Inst, Requirement))
    requires x in wants && IsFirstOf(wants - {x}, k)
    ensures IsFirstOf(wants, if Before(x, k) then x else k)
  {
    BeforeIsTotal(x, k);
    if Before(x, k) {
      forall j | j in wants && j != x ensures Before(x, j) {
        if j != k { BeforeIsTransitive(x, k, j); }
      }
    }
  }

  lemma {:induction false} FirstExists(wants: set<(Inst, Requirement)>)
    requires wants != {}
    ensures exists k :: IsFirstOf(wants, k)
  {
    var x :| x in wants;
    if wants == {x} {
      assert IsFirstOf(wants, x);
    } else {
      FirstExists(wants - {x});
      var k :| IsFirstOf(wants - {x}, k);
      FirstOfMore(wants, x, k);
    }
  }

  ghost predicate Resolvable(ps: Providers, r: Requirement) { exists e :: Resolves(ps, r, e) }

  /** Every requirement that comes before `k` resolves. */
  ghost predicate ResolvedBefore(ps: Providers, cs: Consumers, k: (Inst, Requirement)) {
    forall j :: j in Wants(cs) && Before(j, k) ==> Resolvable(ps, j.1)
  }

  /** The error is about the first requirement that does not resolve, or there is none. */
  ghost predicate IsFirst(ps: Providers, cs: Consumers, e: BuildError) {
    match e
    case Missing(c, r) => ResolvedBefore(ps, cs, (c, r))
    case Incompatible(c, r) => ResolvedBefore(ps, cs, (c, r))
    case Ambiguous(c, r, _) => ResolvedBefore(ps, cs, (c, r))
    case _ => forall j :: j in Wants(cs) ==> Resolvable(ps, j.1)
  }

  /** Fail-fast over the requirements in order. */
  method ResolveEvery(ps: Providers, cs: Consumers) returns (result: Result<Edges, BuildError>)
    ensures result.Ok? ==> ResolvesAll(ps, cs, result.value)
    ensures result.Err? ==> Accurate(ps, cs, result.error) && IsFirst(ps, cs, result.error)
  {
    var edges: Edges := map[];
    var wants := Wants(cs);
    while wants != {}
      invariant wants <= Wants(cs) && edges.Keys == Wants(cs) - wants
      invariant forall k :: k in edges ==> Resolves(ps, k.1, edges[k])
      decreases wants
    {
      FirstExists(wants);
      var k :| k in wants && IsFirstOf(wants, k);
      var one := Resolve(ps, k.0, k.1);
      if one.Err? {
        assert k == (k.0, k.1);
        return Err(one.error);
      }
      edges := edges[k := one.value];
      wants := wants - {k};
    }
    result := Ok(edges);
  }

  /** Adjacency with one entry per edge: several requirements on the same provider repeat it. */
  method Adjacency(edges: Edges) returns (adj: Adj)
    ensures forall c :: c in adj ==> exists k :: k in edges && k.0 == c
    ensures forall c, p :: DependsOn(adj, c, p) <==> EdgeBetween(edges, c, p)
  {
    adj := map[];
    var rest := edges.Keys;
    ghost var seen: Edges := map[];
    while rest != {}
      invariant rest <= edges.Keys && seen.Keys == edges.Keys - rest
      invariant forall k :: k in seen ==> seen[k] == edges[k]
      invariant forall c :: c in adj ==> exists k :: k in edges && k.0 == c
      invariant forall c, p :: DependsOn(adj, c, p) <==> EdgeBetween(seen, c, p)
      decreases rest
    {
      var k :| k in rest;
      AddEdge(adj, seen, k, edges[k]);
      adj := adj[k.0 := Deps(adj, k.0) + [edges[k].provider]];
      seen := seen[k := edges[k]];
      rest := rest - {k};
    }
    assert seen == edges;
  }

  lemma AddEdge(adj: Adj, seen: Edges, k: (Inst, Requirement), e: Edge)
    requires k !in seen && forall c, p :: DependsOn(adj, c, p) <==> EdgeBetween(seen, c, p)
    ensures
      var adj' := adj[k.0 := Deps(adj, k.0) + [e.provider]];
      forall c, p :: DependsOn(adj', c, p) <==> EdgeBetween(seen[k := e], c, p)
  {
    var adj' := adj[k.0 := Deps(adj, k.0) + [e.provider]];
    forall c, p ensures DependsOn(adj', c, p) <==> EdgeBetween(seen[k := e], c, p) {
      assert DependsOn(adj', c, p) <==> DependsOn(adj, c, p) || (c == k.0 && p == e.provider);
    }
  }

  /** The nodes in ascending order. */
  method Sorted(s: set<Inst>) returns (nodes: seq<Inst>)
    ensures Elements(nodes) == s && NoDup(nodes)
  {
    nodes := [];
    var rest := s;
    while rest != {}
      invariant rest <= s && Elements(nodes) == s - rest && NoDup(nodes)
      decreases rest
    {
      var x, others := PopFirst(rest);
      assert forall n :: n in nodes ==> n in Elements(nodes);
      assert Elements(nodes + [x]) == Elements(nodes) + {x};
      nodes := nodes + [x];
      rest := others;
    }
  }

  lemma AdjacencyRepresents(ps: Providers, cs: Consumers, edges: Edges, adj: Adj)
    requires ResolvesAll(ps, cs, edges)
    requires forall c :: c in adj ==> exists k :: k in edges && k.0 == c
    requires forall c, p :: DependsOn(adj, c, p) <==> EdgeBetween(edges, c, p)
    ensures Represents(adj, edges, Participants(ps, edges)) && Closed(adj, Participants(ps, edges))
  {
    var nodes := Participants(ps, edges);
    forall c, p | c in adj && p in adj[c] ensures EdgeBetween(edges, c, p) && p in nodes {
      assert DependsOn(adj, c, p);
      ForcedEdge(ps, cs, edges, c, p);
    }
    forall c, d | c in nodes && d in Deps(adj, c) ensures d in nodes {
      assert c in adj && d in adj[c];
    }
  }

  lemma {:induction false} SizeOfElements(s: seq<Inst>)
    requires NoDup(s)
    ensures |Elements(s)| == |s|
  {
    if s != [] {
      ElementsOfInit(s);
      SizeOfElements(s[..|s| - 1]);
    }
  }

  lemma {:induction false} EqualSizes(a: set<Inst>, b: set<Inst>)
    requires a <= b && |a| == |b|
    ensures a == b
  {
    assert b == a + (b - a);
    assert |b| == |a| + |b - a|;
  }

  lemma FullLengthIsComplete(nodes: seq<Inst>, adj: Adj)
    requires NoDup(nodes)
    ensures |Peel(Elements(nodes), adj)| == |nodes| <==> Complete(Elements(nodes), adj)
  {
    var s := Peel(Elements(nodes), adj);
    PeelIsOrdered(Elements(nodes), adj);
    SizeOfElements(s);
    SizeOfElements(nodes);
    if |s| == |nodes| { EqualSizes(Elements(s), Elements(nodes)); }
  }

  method BuildTables(ps: Providers, cs: Consumers) returns (result: Result<Graph, BuildError>)
    ensures result.Ok? ==> IsGraph(ps, cs, result.value)
    ensures result.Err? ==> Accurate(ps, cs, result.error) && IsFirst(ps, cs, result.error)
  {
    var resolved := ResolveEvery(ps, cs);
    if resolved.Err? { return Err(resolved.error); }
    var adj := Adjacency(resolved.value);
    var nodes := Sorted(Participants(ps, resolved.value));
    AdjacencyRepresents(ps, cs, resolved.value, adj);
    result := OrderEdges(ps, cs, resolved.value, adj, nodes);
    forall j | j in Wants(cs) ensures Resolvable(ps, j.1) {
      assert Resolves(ps, j.1, resolved.value[j]);
    }
  }

  method OrderEdges(ps: Providers, ghost cs: Consumers, edges: Edges, adj: Adj, nodes: seq<Inst>)
      returns (result: Result<Graph, BuildError>)
    requires ResolvesAll(ps, cs, edges) && NoDup(nodes) && Elements(nodes) == Participants(ps, edges)
    requires Represents(adj, edges, Elements(nodes)) && Closed(adj, Elements(nodes))
    requires forall c, p :: DependsOn(adj, c, p) <==> EdgeBetween(edges, c, p)
    ensures result.Ok? ==> IsGraph(ps, cs, result.value)
    ensures result.Err? ==> Accurate(ps, cs, result.error) && result.error.Cycle?
  {
    var processed := Kahn(nodes, adj);
    FullLengthIsComplete(nodes, adj);
    if |processed| == |nodes| {
      result := Ok(Graph(ps, edges, Reverse(processed)));
    } else {
      var cycle := ExplainFailure(nodes, adj, processed);
      result := Err(Cycle(cycle));
    }
  }

  /** The first record whose installation has occurred before. */
  predicate FirstRepeatedProvider(records: seq<ProviderRecord>, p: Inst) {
    exists k :: 0 <= k < |records| && DistinctProviders(records[..k])
                && records[k].inst == p && p in ProviderTable(records[..k])
  }

  predicate FirstRepeatedConsumer(records: seq<ConsumerRecord>, c: Inst) {
    exists k :: 0 <= k < |records| && DistinctConsumers(records[..k])
                && records[k].inst == c && c in ConsumerTable(records[..k])
  }

  /** Providers are checked before consumers, both before the requirements, and those in order before cycles. */
  ghost predicate IsReported(providers: seq<ProviderRecord>, consumers: seq<ConsumerRecord>, e: BuildError) {
    match e
    case DuplicateProvider(p) => FirstRepeatedProvider(providers, p)
    case DuplicateConsumer(c) => DistinctProviders(providers) && FirstRepeatedConsumer(consumers, c)
    case _ =>
      var ps, cs := ProviderTable(providers), ConsumerTable(consumers);
      DistinctProviders(providers) && DistinctConsumers(consumers) && Accurate(ps, cs, e) && IsFirst(ps, cs, e)
  }

  method ProviderNodes(providers: seq<ProviderRecord>) returns (result: Result<Providers, BuildError>)
    ensures result.Ok? ==> DistinctProviders(providers) && result.value == ProviderTable(providers)
    ensures result.Err? ==> result.error.DuplicateProvider? && FirstRepeatedProvider(providers, result.error.provider)
  {
    var ps: Providers := map[];
    for k := 0 to |providers|
      invariant ps == ProviderTable(providers[..k]) && DistinctProviders(providers[..k])
    {
      ProviderTableKeys(providers[..k], providers[k].inst);
      if providers[k].inst in ps {
        return Err(DuplicateProvider(providers[k].inst));
      }
      assert providers[..k + 1][..k] == providers[..k];
      ps := ps[providers[k].inst := providers[k].provided];
    }
    assert providers[..|providers|] == providers;
    result := Ok(ps);
  }

  method ConsumerRequirements(consumers: seq<ConsumerRecord>) returns (result: Result<Consumers, BuildError>)
    ensures result.Ok? ==> DistinctConsumers(consumers) && result.value == ConsumerTable(consumers)
    ensures result.Err? ==> result.error.DuplicateConsumer? && FirstRepeatedConsumer(consumers, result.error.consumer)
  {
    var cs: Consumers := map[];
    for k := 0 to |consumers|
      invariant cs == ConsumerTable(consumers[..k]) && DistinctConsumers(consumers[..k])
    {
      ConsumerTableKeys(consumers[..k], consumers[k].inst);
      if consumers[k].inst in cs {
        return Err(DuplicateConsumer(consumers[k].inst));
      }
      assert consumers[..k + 1][..k] == consumers[..k];
      cs := cs[consumers[k].inst := consumers[k].required];
    }
    assert consumers[..|consumers|] == consumers;
    result := Ok(cs);
  }

  /** Building from records succeeds exactly when no installation occurs twice and the records have a graph; then it
      returns that graph, and otherwise the first error in the order of the checks. */
  method TryBuild(providers: seq<ProviderRecord>, consumers: seq<ConsumerRecord>)
      returns (result: Result<Graph, BuildError>)
    ensures result.Ok? ==>
      && DistinctProviders(providers) && DistinctConsumers(consumers)
      && IsGraph(ProviderTable(providers), ConsumerTable(consumers), result.value)
    ensures result.Err? ==> IsReported(providers, consumers, result.error)
    ensures result.Ok? <==>
      && DistinctProviders(providers) && DistinctConsumers(consumers)
      && Buildable(ProviderTable(providers), ConsumerTable(consumers))
  {
    var nodes := ProviderNodes(providers);
    if nodes.Err? {
      RepeatedProviderIsNotDistinct(providers, nodes.error.provider);
      return Err(nodes.error);
    }
    var wanted := ConsumerRequirements(consumers);
    if wanted.Err? {
      RepeatedConsumerIsNotDistinct(consumers, wanted.error.consumer);
      return Err(wanted.error);
    }
    result := BuildTables(nodes.value, wanted.value);
    if result.Err? { ReportedRefuses(nodes.value, wanted.value, result.error); }
  }

  lemma ReportedRefuses(ps: Providers, cs: Consumers, e: BuildError)
    requires Accurate(ps, cs, e)
    ensures !Buildable(ps, cs)
  {
    forall g ensures !IsGraph(ps, cs, g) { AccurateErrorsRefuse(ps, cs, e, g); }
  }

  lemma RepeatedProviderIsNotDistinct(records: seq<ProviderRecord>, p: Inst)
    requires FirstRepeatedProvider(records, p)
    ensures !DistinctProviders(records)
  {
    var k :| 0 <= k < |records| && records[k].inst == p && p in ProviderTable(records[..k]);
    ProviderTableKeys(records[..k], p);
    var i :| 0 <= i < |records[..k]| && records[..k][i].inst == p;
    assert records[i].inst == records[k].inst;
  }

  lemma RepeatedConsumerIsNotDistinct(records: seq<ConsumerRecord>, c: Inst)
    requires FirstRepeatedConsumer(records, c)
    ensures !DistinctConsumers(records)
  {
    var k :| 0 <= k < |records| && records[k].inst == c && c in ConsumerTable(records[..k]);
    ConsumerTableKeys(records[..k], c);
    var i :| 0 <= i < |records[..k]| && records[..k][i].inst == c;
    assert records[i].inst == records[k].inst;
  }

  // ---- there is only one error to report ----

  lemma ReportedIsAccurate(providers: seq<ProviderRecord>, consumers: seq<ConsumerRecord>, e: BuildError)
    requires DistinctProviders(providers) && DistinctConsumers(consumers) && IsReported(providers, consumers, e)
    ensures
      var ps, cs := ProviderTable(providers), ConsumerTable(consumers);
      Accurate(ps, cs, e) && IsFirst(ps, cs, e)
  {
    match e
    case DuplicateProvider(p) => RepeatedProviderIsNotDistinct(providers, p);
    case DuplicateConsumer(c) => RepeatedConsumerIsNotDistinct(consumers, c);
    case _ =>
  }

  /** The requirement an error is about. */
  function About(e: BuildError): Option<(Inst, Requirement)> {
    match e
    case Missing(c, r) => Some((c, r))
    case Incompatible(c, r) => Some((c, r))
    case Ambiguous(c, r, _) => Some((c, r))
    case _ => None
  }

  /** The records determine the error: two errors that may be reported are the same, or both are cycles. */
  lemma ReportedErrorIsUnique(ps: Providers, cs: Consumers, a: BuildError, b: BuildError)
    requires Accurate(ps, cs, a) && IsFirst(ps, cs, a) && Accurate(ps, cs, b) && IsFirst(ps, cs, b)
    ensures a == b || (a.Cycle? && b.Cycle?)
  {
    if About(a).Some? && About(b).Some? {
      BeforeIsTotal(About(a).value, About(b).value);
    }
  }

}
