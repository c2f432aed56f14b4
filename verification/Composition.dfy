/**
 The composition service: stored records, policy and active graph switched together, and the uninstall that
 goes through it.
 */
module Composition {
  import opened Prelude
  import opened ProviderGraph
  import opened GraphBuild
  import opened GraphPolicy
  import opened Removal

  datatype Error = GraphStore | Policy(policy: PolicyError) | Resolution(resolution: BuildError) | Audit

  datatype Records = Records(providers: seq<ProviderRecord>, consumers: seq<ConsumerRecord>)

  predicate Distinct(records: Records) {
    DistinctProviders(records.providers) && DistinctConsumers(records.consumers)
  }

  function ProvidersWithout(records: seq<ProviderRecord>, x: Inst): seq<ProviderRecord> {
    if records == [] then []
    else
      var init, last := ProvidersWithout(records[..|records| - 1], x), records[|records| - 1];
      if last.inst == x then init else init + [last]
  }

  function ConsumersWithout(records: seq<ConsumerRecord>, x: Inst): seq<ConsumerRecord> {
    if records == [] then []
    else
      var init, last := ConsumersWithout(records[..|records| - 1], x), records[|records| - 1];
      if last.inst == x then init else init + [last]
  }

  lemma UpdateThenRemove<V>(m: map<Inst, V>, k: Inst, v: V, x: Inst)
    ensures m[k := v] - {x} == if k == x then m - {x} else (m - {x})[k := v]
  {
  }

  lemma {:induction false} ProvidersWithoutDistinct(records: seq<ProviderRecord>, x: Inst)
    requires DistinctProviders(records)
    ensures DistinctProviders(ProvidersWithout(records, x))
    ensures forall i :: 0 <= i < |ProvidersWithout(records, x)| ==>
              ProvidersWithout(records, x)[i].inst != x && ProvidersWithout(records, x)[i].inst in ProviderTable(records)
  {
    if records != [] {
      DistinctInit(records);
      ProvidersWithoutDistinct(records[..|records| - 1], x);
    }
  }

  lemma {:induction false} ProvidersWithoutTable(records: seq<ProviderRecord>, x: Inst)
    requires DistinctProviders(records)
    ensures ProviderTable(ProvidersWithout(records, x)) == ProviderTable(records) - {x}
  {
    if records != [] {
      var init, last := records[..|records| - 1], records[|records| - 1];
      DistinctInit(records);
      ProvidersWithoutTable(init, x);
      var kept := ProvidersWithout(records, x);
      if last.inst != x {
        assert kept[..|kept| - 1] == ProvidersWithout(init, x);
      }
      UpdateThenRemove(ProviderTable(init), last.inst, last.provided, x);
    }
  }

  lemma DistinctConsumersInit(records: seq<ConsumerRecord>)
    requires records != [] && DistinctConsumers(records)
    ensures DistinctConsumers(records[..|records| - 1])
    ensures records[|records| - 1].inst !in ConsumerTable(records[..|records| - 1])
  {
    ConsumerTableKeys(records[..|records| - 1], records[|records| - 1].inst);
  }

  lemma {:induction false} ConsumersWithoutDistinct(records: seq<ConsumerRecord>, x: Inst)
    requires DistinctConsumers(records)
    ensures DistinctConsumers(ConsumersWithout(records, x))
    ensures forall i :: 0 <= i < |ConsumersWithout(records, x)| ==>
              ConsumersWithout(records, x)[i].inst != x && ConsumersWithout(records, x)[i].inst in ConsumerTable(records)
  {
    if records != [] {
      DistinctConsumersInit(records);
      ConsumersWithoutDistinct(records[..|records| - 1], x);
    }
  }

  lemma {:induction false} ConsumersWithoutTable(records: seq<ConsumerRecord>, x: Inst)
    requires DistinctConsumers(records)
    ensures ConsumerTable(ConsumersWithout(records, x)) == ConsumerTable(records) - {x}
  {
    if records != [] {
      var init, last := records[..|records| - 1], records[|records| - 1];
      DistinctConsumersInit(records);
      ConsumersWithoutTable(init, x);
      var kept := ConsumersWithout(records, x);
      if last.inst != x {
        assert kept[..|kept| - 1] == ConsumersWithout(init, x);
      }
      UpdateThenRemove(ConsumerTable(init), last.inst, last.required, x);
    }
  }

  function ProvidersReplaced(records: seq<ProviderRecord>, x: Inst, provided: Option<set<Iface>>): seq<ProviderRecord> {
    ProvidersWithout(records, x) + (if provided.Some? then [ProviderRecord(x, provided.value)] else [])
  }

  function ConsumersReplaced(records: seq<ConsumerRecord>, x: Inst, required: Option<set<Requirement>>): seq<ConsumerRecord> {
    ConsumersWithout(records, x) + (if required.Some? then [ConsumerRecord(x, required.value)] else [])
  }

  /** The records with the whole group of one installation replaced. */
  function Replaced(records: Records, x: Inst, provided: Option<set<Iface>>, required: Option<set<Requirement>>): Records {
    Records(ProvidersReplaced(records.providers, x, provided), ConsumersReplaced(records.consumers, x, required))
  }

  lemma ProvidersReplacedTable(records: seq<ProviderRecord>, x: Inst, provided: Option<set<Iface>>)
    requires DistinctProviders(records)
    ensures
      var after := ProvidersReplaced(records, x, provided);
      && DistinctProviders(after)
      && ProviderTable(after)
         == if provided.Some? then (ProviderTable(records) - {x})[x := provided.value] else ProviderTable(records) - {x}
  {
    ProvidersWithoutDistinct(records, x);
    ProvidersWithoutTable(records, x);
    var kept, after := ProvidersWithout(records, x), ProvidersReplaced(records, x, provided);
    if provided.Some? {
      assert after[..|after| - 1] == kept;
    } else {
      assert after == kept;
    }
  }

  lemma ConsumersReplacedTable(records: seq<ConsumerRecord>, x: Inst, required: Option<set<Requirement>>)
    requires DistinctConsumers(records)
    ensures
      var after := ConsumersReplaced(records, x, required);
      && DistinctConsumers(after)
      && ConsumerTable(after)
         == if required.Some? then (ConsumerTable(records) - {x})[x := required.value] else ConsumerTable(records) - {x}
  {
    ConsumersWithoutDistinct(records, x);
    ConsumersWithoutTable(records, x);
    var kept, after := ConsumersWithout(records, x), ConsumersReplaced(records, x, required);
    if required.Some? {
      assert after[..|after| - 1] == kept;
    } else {
      assert after == kept;
    }
  }

  lemma ReplacedDistinct(records: Records, x: Inst, provided: Option<set<Iface>>, required: Option<set<Requirement>>)
    requires Distinct(records)
    ensures Distinct(Replaced(records, x, provided, required))
  {
    ProvidersReplacedTable(records.providers, x, provided);
    ConsumersReplacedTable(records.consumers, x, required);
  }

  /** The graph of these records under these rules. */
  ghost predicate IsGraphOf(records: Records, rules: Rules, g: Graph) {
    && Fulfillable(rules, ProviderTable(records.providers))
    && IsGraph(ApplyTable(rules, ProviderTable(records.providers)), ConsumerTable(records.consumers), g)
  }

  ghost predicate HasGraph(records: Records, rules: Rules) { exists g :: IsGraphOf(records, rules, g) }

  /** The removal theorem on records. */
  lemma RemovalOfRecords(records: Records, rules: Rules, g: Graph, x: Inst)
    requires Distinct(records) && Coherent(rules) && IsGraphOf(records, rules, g)
    ensures
      var after := Replaced(records, x, None, None);
      && (HasGraph(after, rules) <==> Unused(g.edges, x) && !Bound(rules, x))
      && (forall h :: IsGraphOf(after, rules, h) ==> h.edges == Remaining(g.edges, x))
  {
    ProvidersReplacedTable(records.providers, x, None);
    ConsumersReplacedTable(records.consumers, x, None);
    var ps, cs := ProviderTable(records.providers), ConsumerTable(records.consumers);
    RemovalTheorem(rules, ps, cs, g, x);
    var after := Replaced(records, x, None, None);
    forall h ensures IsGraphOf(after, rules, h)
                <==> Fulfillable(rules, ps - {x}) && IsGraph(ApplyTable(rules, ps - {x}), cs - {x}, h)
    {
    }
    if Fulfillable(rules, ps - {x}) && Buildable(ApplyTable(rules, ps - {x}), cs - {x}) {
      var h :| IsGraph(ApplyTable(rules, ps - {x}), cs - {x}, h);
      assert IsGraphOf(after, rules, h);
    }
  }

  predicate Bound(rules: Rules, x: Inst) { exists k :: k in rules.bindings && rules.bindings[k] == x }

  datatype Faults = Faults(load: bool, audit: bool, store: bool)

  /** Whether an error says truthfully why the records have no graph under the rules. */
  ghost predicate Refused(records: Records, rules: Rules, e: Error) {
    var ps := ProviderTable(records.providers);
    match e
    case Policy(_) => !Fulfillable(rules, ps)
    case Resolution(b) =>
      var cs := ConsumerTable(records.consumers);
      Accurate(ApplyTable(rules, ps), cs, b) && IsFirst(ApplyTable(rules, ps), cs, b)
    case _ => false
  }

  /** The error of a change to these records and rules: of reading them, a true reason why they have no graph, or of the
      first port behind the build that fails. */
  ghost predicate FailsAs(records: Records, rules: Rules, f: Faults, e: Error) {
    if f.load then e == GraphStore
    else if !HasGraph(records, rules) then Refused(records, rules, e)
    else if f.audit then e == Audit
    else f.store && e == GraphStore
  }

  lemma BuildFailsAs(records: Records, rules: Rules, f: Faults, e: Error)
    requires if f.load then e == GraphStore else Refused(records, rules, e)
    ensures FailsAs(records, rules, f, e)
  {
    if !f.load { RefusedHasNoGraph(records, rules, e); }
  }

  lemma PortFailsAs(records: Records, rules: Rules, f: Faults, e: Error)
    requires HasGraph(records, rules) && !f.load && (if f.audit then e == Audit else f.store && e == GraphStore)
    ensures FailsAs(records, rules, f, e)
  {
  }

  lemma RefusedHasNoGraph(records: Records, rules: Rules, e: Error)
    requires Refused(records, rules, e)
    ensures !HasGraph(records, rules)
  {
    var ps, cs := ProviderTable(records.providers), ConsumerTable(records.consumers);
    if e.Resolution? {
      forall g ensures !IsGraph(ApplyTable(rules, ps), cs, g) {
        AccurateErrorsRefuse(ApplyTable(rules, ps), cs, e.resolution, g);
      }
    }
  }

  /** Policy filtering, then the build. */
  method BuildWith(records: Records, rules: Rules) returns (r: Result<Graph, Error>)
    requires Distinct(records)
    ensures r.Ok? ==> IsGraphOf(records, rules, r.value)
    ensures r.Err? ==> Refused(records, rules, r.error)
  {
    var filtered := Apply(rules, records.providers);
    if filtered.Err? { return Err(Policy(filtered.error)); }
    AppliedDistinct(rules, records.providers);
    ApplyRecordsIsApplyTable(rules, records.providers);
    var built := TryBuild(filtered.value, records.consumers);
    if built.Err? {
      ReportedIsAccurate(filtered.value, records.consumers, built.error);
      return Err(Resolution(built.error));
    }
    r := Ok(built.value);
  }

  ghost predicate Agree(stored: Records, rules: Rules, active: Graph) {
    Distinct(stored) && Coherent(rules) && IsGraphOf(stored, rules, active)
  }

  lemma RemovalRefused(stored: Records, rules: Rules, active: Graph, x: Inst, e: Error)
    requires Agree(stored, rules, active) && Refused(Replaced(stored, x, None, None), rules, e)
    ensures !Unused(active.edges, x) || Bound(rules, x)
  {
    RemovalOfRecords(stored, rules, active, x);
    RefusedHasNoGraph(Replaced(stored, x, None, None), rules, e);
  }

  lemma RemovalAccepted(stored: Records, rules: Rules, active: Graph, x: Inst, g: Graph)
    requires Agree(stored, rules, active) && Agree(Replaced(stored, x, None, None), rules, g)
    ensures Unused(active.edges, x) && !Bound(rules, x) && g.edges == Remaining(active.edges, x)
  {
    RemovalOfRecords(stored, rules, active, x);
    assert HasGraph(Replaced(stored, x, None, None), rules);
  }

  class CompositionService {
    var stored: Records
    var rules: Rules
    var active: Graph

    /** The active graph is the graph of the stored records under the current policy. */
    ghost predicate Consistent()
      reads this
    {
      Agree(stored, rules, active)
    }

    method BuildCandidate(x: Inst, provided: Option<set<Iface>>, required: Option<set<Requirement>>, loadFails: bool)
        returns (r: Result<Graph, Error>)
      requires Consistent()
      ensures r.Ok? ==> Agree(Replaced(stored, x, provided, required), rules, r.value)
      ensures r.Ok? <==> !loadFails && HasGraph(Replaced(stored, x, provided, required), rules)
      ensures r.Err? ==> if loadFails then r.error == GraphStore
                         else Refused(Replaced(stored, x, provided, required), rules, r.error)
    {
      if loadFails { return Err(GraphStore); }
      ghost var next := Replaced(stored, x, provided, required);
      ReplacedDistinct(stored, x, provided, required);
      r := BuildWith(Replaced(stored, x, provided, required), rules);
      if r.Err? {
        RefusedHasNoGraph(next, rules, r.error);
      } else {
        assert IsGraphOf(next, rules, r.value);
      }
    }

    method UpdatePolicy(next: Rules, f: Faults) returns (r: Result<Graph, Error>)
      requires Consistent() && Coherent(next)
      modifies this
      ensures Consistent() && stored == old(stored)
      ensures r.Ok? ==> rules == next && active == r.value && !f.load && !f.audit
      ensures r.Err? ==> rules == old(rules) && active == old(active)
      ensures r.Ok? <==> !f.load && HasGraph(stored, next) && !f.audit
      ensures r.Err? ==> FailsAs(stored, next, f, r.error)
    {
      if f.load { return Err(GraphStore); }
      r := BuildWith(stored, next);
      if r.Err? {
        RefusedHasNoGraph(stored, next, r.error);
        return;
      }
      assert IsGraphOf(stored, next, r.value);
      if f.audit { return Err(Audit); }
      rules := next;
      active := r.value;
    }

    method CommitActivation(x: Inst, provided: Option<set<Iface>>, required: Option<set<Requirement>>, f: Faults)
        returns (r: Result<Graph, Error>)
      requires Consistent()
      modifies this
      ensures Consistent() && rules == old(rules)
      ensures r.Ok? ==>
        && stored == Replaced(old(stored), x, provided, required) && active == r.value
        && !f.load && !f.audit && !f.store
      ensures r.Err? ==> stored == old(stored) && active == old(active)
      ensures r.Ok? <==> !f.load && HasGraph(Replaced(old(stored), x, provided, required), rules) && !f.audit && !f.store
      ensures r.Err? ==> FailsAs(Replaced(old(stored), x, provided, required), rules, f, r.error)
    {
      ghost var next := Replaced(stored, x, provided, required);
      var built := BuildCandidate(x, provided, required, f.load);
      if built.Err? {
        r := built;
        BuildFailsAs(next, rules, f, r.error);
      } else {
        r := SwitchUnless(Replaced(stored, x, provided, required), built.value, f);
        if r.Err? { PortFailsAs(next, rules, f, r.error); }
      }
    }

    /** The two ports behind a candidate that has been built, and the switch behind them. */
    method SwitchUnless(next: Records, graph: Graph, f: Faults) returns (r: Result<Graph, Error>)
      requires Consistent() && Agree(next, rules, graph)
      modifies `stored, `active
      ensures Consistent()
      ensures r == if f.audit then Err(Audit) else if f.store then Err(GraphStore) else Ok(graph)
      ensures stored == (if r.Ok? then next else old(stored)) && active == if r.Ok? then graph else old(active)
    {
      if f.audit { return Err(Audit); }
      if f.store { return Err(GraphStore); }
      Switch(next, graph);
      r := Ok(graph);
    }

    /** Records on disk first, then the pointer swap, which cannot fail. */
    method Switch(next: Records, graph: Graph)
      requires Agree(next, rules, graph)
      modifies `stored, `active
      ensures Consistent() && stored == next && active == graph
    {
      stored := next;
      active := graph;
    }

    /** Without port failures deactivation succeeds exactly when nobody else's requirement resolves to the
        installation and no binding names it, and it keeps every other edge; a failure changes nothing. */
    method Deactivate(x: Inst, f: Faults) returns (r: Result<(), Error>)
      requires Consistent()
      modifies this
      ensures Consistent() && rules == old(rules)
      ensures r.Err? ==> stored == old(stored) && active == old(active)
      ensures r.Ok? ==>
        && stored == Replaced(old(stored), x, None, None)
        && active.edges == Remaining(old(active).edges, x)
      ensures r.Ok? <==>
        && !f.load && !f.audit && !f.store
        && Unused(old(active).edges, x) && !Bound(rules, x)
      ensures r.Err? ==> FailsAs(Replaced(old(stored), x, None, None), rules, f, r.error)
    {
      var built := BuildCandidate(x, None, None, f.load);
      if built.Err? {
        if !f.load { RemovalRefused(stored, rules, active, x, built.error); }
        return Err(built.error);
      }
      RemovalAccepted(stored, rules, active, x, built.value);
      if f.audit { return Err(Audit); }
      if f.store { return Err(GraphStore); }
      Switch(Replaced(stored, x, None, None), built.value);
      r := Ok(());
    }

    constructor (rules: Rules)
      requires Coherent(rules) && rules.bindings == map[]
      ensures Consistent() && stored == Records([], []) && this.rules == rules
    {
      stored := Records([], []);
      this.rules := rules;
      active := Graph(map[], map[], []);
      new;
      EmptyGraph(rules);
    }
  }

  lemma EmptyGraph(rules: Rules)
    requires rules.bindings == map[]
    ensures IsGraphOf(Records([], []), rules, Graph(map[], map[], []))
  {
    var adj := map[];
    assert Wants(map[]) == {};
    assert Participants(map[], map[]) == {};
    assert Represents(adj, map[], {});
    assert ApplyTable(rules, map[]) == map[];
  }

  // ---- uninstalling ----

  datatype UninstallError = NotFound | HasConsumers | Runtime | BackgroundStop | Composition(graph: Error) | Registry

  datatype UninstallFaults = UninstallFaults(drain: bool, background: bool, graph: Faults, registry: bool)

  const NO_GRAPH_FAULTS := Faults(false, false, false)

  class UninstallService {
    const composition: CompositionService
    var registered: set<Inst>
    var serving: set<Inst>
    var background: set<Inst>

    constructor (composition: CompositionService)
      ensures this.composition == composition && registered == {} && serving == {} && background == {}
    {
      this.composition := composition;
      registered, serving, background := {}, {}, {};
    }

    /** The check runs before anything changes, but it does not look at policy bindings: an installation a
        binding names is taken out of service and then refused by the graph.  The answer is that of the first step that
        fails, and everything before that step has been done. */
    method Uninstall(x: Inst, f: UninstallFaults) returns (r: Result<(), UninstallError>)
      requires composition.Consistent()
      modifies this, composition
      ensures composition.Consistent() && composition.rules == old(composition.rules)
      ensures r == Err(NotFound) <==> x !in old(registered)
      ensures r == Err(HasConsumers) <==> x in old(registered) && !PreCheck(old(composition.active).edges, x)
      ensures
        var checked := x in old(registered) && PreCheck(old(composition.active).edges, x);
        var drained := checked && !(x in old(serving) && f.drain);
        var stopped := drained && !f.background;
        var removed := stopped && f.graph == NO_GRAPH_FAULTS && !Bound(old(composition.rules), x);
        && (r == Err(Runtime) <==> checked && !drained)
        && (r == Err(BackgroundStop) <==> drained && !stopped)
        && (r.Err? && r.error.Composition? <==> stopped && !removed)
        && (stopped && !removed ==>
              FailsAs(Replaced(old(composition.stored), x, None, None), composition.rules, f.graph, r.error.graph))
        && (r == Err(Registry) <==> removed && f.registry)
        && (r.Ok? <==> removed && !f.registry)
        && serving == (if drained then old(serving) - {x} else old(serving))
        && background == (if stopped then old(background) - {x} else old(background))
        && registered == (if r.Ok? then old(registered) - {x} else old(registered))
        && composition.stored == (if removed then Replaced(old(composition.stored), x, None, None)
                                  else old(composition.stored))
        && (if removed then composition.active.edges == Remaining(old(composition.active).edges, x)
            else composition.active == old(composition.active))
    {
      if x !in registered { return Err(NotFound); }
      if !PreCheck(composition.active.edges, x) { return Err(HasConsumers); }
      if x in serving && f.drain { return Err(Runtime); }
      serving := serving - {x};
      if f.background { return Err(BackgroundStop); }
      background := background - {x};
      assert Unused(composition.active.edges, x);
      r := Forget(x, f);
    }

    /** The graph, then the registry. */
    method Forget(x: Inst, f: UninstallFaults) returns (r: Result<(), UninstallError>)
      requires composition.Consistent() && x in registered && Unused(composition.active.edges, x)
      modifies this`registered, composition
      ensures composition.Consistent() && composition.rules == old(composition.rules)
      ensures
        var removed := f.graph == NO_GRAPH_FAULTS && !Bound(old(composition.rules), x);
        && (r.Err? && r.error.Composition? <==> !removed)
        && (!removed ==> FailsAs(Replaced(old(composition.stored), x, None, None), composition.rules, f.graph, r.error.graph))
        && (r == Err(Registry) <==> removed && f.registry)
        && (r.Ok? <==> removed && !f.registry)
        && registered == (if r.Ok? then old(registered) - {x} else old(registered))
        && composition.stored == (if removed then Replaced(old(composition.stored), x, None, None)
                                  else old(composition.stored))
        && (if removed then composition.active.edges == Remaining(old(composition.active).edges, x)
            else composition.active == old(composition.active))
    {
      var removed := composition.Deactivate(x, f.graph);
      if removed.Err? {
        r := Err(UninstallError.Composition(removed.error));
      } else if f.registry {
        r := Err(Registry);
      } else {
        registered := registered - {x};
        r := Ok(());
      }
    }
  }
}
