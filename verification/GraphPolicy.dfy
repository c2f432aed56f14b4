/**
 The runtime policy: interfaces bound to one provider, and providers kept out of the graph altogether.
 */
module GraphPolicy {
  import opened Prelude
  import opened ProviderGraph
  import opened GraphBuild

  datatype Rules = Rules(bindings: map<Key, Inst>, exclusions: set<Inst>)

  datatype PolicyError =
    | DuplicateBinding(key: Key, existing: Inst, incoming: Inst)
    | BoundAndExcluded(key: Key, provider: Inst)
    | BindingUnfulfillable(key: Key, provider: Inst)

  /** No provider is bound and excluded. */
  predicate Coherent(rules: Rules) {
    forall k :: k in rules.bindings ==> rules.bindings[k] !in rules.exclusions
  }

  class GraphPolicy {
    var rules: Rules

    constructor ()
      ensures rules == Rules(map[], {}) && Coherent(rules)
    {
      rules := Rules(map[], {});
    }

    method Bind(key: Key, provider: Inst) returns (r: Result<(), PolicyError>)
      requires Coherent(rules)
      modifies this
      ensures Coherent(rules)
      ensures r.Ok? ==> rules == old(rules).(bindings := old(rules).bindings[key := provider])
      ensures r.Err? ==> rules == old(rules)
      ensures r.Ok? <==>
        if key in old(rules).bindings then old(rules).bindings[key] == provider else provider !in old(rules).exclusions
      ensures r.Err? ==>
        r.error == if key in rules.bindings then DuplicateBinding(key, rules.bindings[key], provider)
                   else BoundAndExcluded(key, provider)
    {
      if key in rules.bindings {
        if rules.bindings[key] != provider {
          return Err(DuplicateBinding(key, rules.bindings[key], provider));
        }
        assert rules.bindings == rules.bindings[key := provider];
        return Ok(());
      }
      if provider in rules.exclusions { return Err(BoundAndExcluded(key, provider)); }
      rules := rules.(bindings := rules.bindings[key := provider]);
      r := Ok(());
    }

    method Exclude(provider: Inst) returns (r: Result<(), PolicyError>)
      requires Coherent(rules)
      modifies this
      ensures Coherent(rules)
      ensures r.Ok? <==> provider !in old(rules).bindings.Values
      ensures r.Ok? ==> rules == old(rules).(exclusions := old(rules).exclusions + {provider})
      ensures r.Err? ==> rules == old(rules)
      ensures r.Err? ==> r.error.BoundAndExcluded? && r.error.provider == provider
                         && r.error.key in rules.bindings && rules.bindings[r.error.key] == provider
    {
      if k :| k in rules.bindings && rules.bindings[k] == provider {
        return Err(BoundAndExcluded(k, provider));
      }
      rules := rules.(exclusions := rules.exclusions + {provider});
      r := Ok(());
    }
  }

  // ---- filtering records ----

  predicate Kept(rules: Rules, p: Inst, i: Iface) {
    i.key in rules.bindings ==> rules.bindings[i.key] == p
  }

  function Filter(rules: Rules, p: Inst, ifaces: set<Iface>): set<Iface> {
    set i | i in ifaces && Kept(rules, p, i)
  }

  function ApplyTable(rules: Rules, ps: Providers): Providers {
    map p | p in ps && p !in rules.exclusions && Filter(rules, p, ps[p]) != {} :: Filter(rules, p, ps[p])
  }

  predicate Has(ps: Providers, p: Inst, k: Key) { p in ps && exists i :: i in ps[p] && i.key == k }

  /** Every bound provider really offers the interface it is bound to. */
  predicate Fulfillable(rules: Rules, ps: Providers) {
    forall k :: k in rules.bindings ==> Has(ps, rules.bindings[k], k)
  }

  /** The versions of an interface a provider offers. */
  function VersionsOf(ps: Providers, p: Inst, k: Key): set<Version> {
    if p in ps then set i | i in ps[p] && i.key == k :: i.version else {}
  }

  /** A bound interface is offered by exactly its bound provider, an unbound one by exactly the providers that
      offered it and are not excluded; every version is kept. */
  lemma AppliedExactly(rules: Rules, ps: Providers, p: Inst, k: Key)
    requires Coherent(rules) && Fulfillable(rules, ps)
    ensures k in rules.bindings ==> (Has(ApplyTable(rules, ps), p, k) <==> p == rules.bindings[k])
    ensures k !in rules.bindings ==> (Has(ApplyTable(rules, ps), p, k) <==> Has(ps, p, k) && p !in rules.exclusions)
    ensures Has(ApplyTable(rules, ps), p, k) ==> VersionsOf(ApplyTable(rules, ps), p, k) == VersionsOf(ps, p, k)
  {
    if Has(ps, p, k) && p !in rules.exclusions && (k in rules.bindings ==> rules.bindings[k] == p) {
      var i :| i in ps[p] && i.key == k;
      assert i in Filter(rules, p, ps[p]);
    }
    if Has(ApplyTable(rules, ps), p, k) {
      forall v ensures v in VersionsOf(ApplyTable(rules, ps), p, k) <==> v in VersionsOf(ps, p, k) {
        if v in VersionsOf(ps, p, k) {
          var i :| i in ps[p] && i.key == k && i.version == v;
          assert i in Filter(rules, p, ps[p]);
        }
      }
    }
  }

  /** Applying the rules twice is applying them once. */
  lemma ApplyIsIdempotent(rules: Rules, ps: Providers)
    requires Coherent(rules) && Fulfillable(rules, ps)
    ensures Fulfillable(rules, ApplyTable(rules, ps))
    ensures ApplyTable(rules, ApplyTable(rules, ps)) == ApplyTable(rules, ps)
  {
    var once := ApplyTable(rules, ps);
    forall k | k in rules.bindings ensures Has(once, rules.bindings[k], k) {
      AppliedExactly(rules, ps, rules.bindings[k], k);
    }
    forall p | p in once ensures Filter(rules, p, once[p]) == once[p] {
    }
  }

  /** A requirement on a bound interface can never be ambiguous. */
  lemma BoundIsNeverAmbiguous(rules: Rules, ps: Providers, r: Requirement)
    requires Coherent(rules) && Fulfillable(rules, ps) && r.key in rules.bindings
    ensures Candidates(ApplyTable(rules, ps), r) <= {rules.bindings[r.key]}
  {
  }

  // ---- the loop over records ----

  /** The records that survive, in their order. */
  function ApplyRecords(rules: Rules, records: seq<ProviderRecord>): seq<ProviderRecord> {
    if records == [] then []
    else
      var init, last := ApplyRecords(rules, records[..|records| - 1]), records[|records| - 1];
      var provided := Filter(rules, last.inst, last.provided);
      if last.inst in rules.exclusions || provided == {} then init
      else init + [ProviderRecord(last.inst, provided)]
  }

  lemma DistinctInit(records: seq<ProviderRecord>)
    requires records != [] && DistinctProviders(records)
    ensures DistinctProviders(records[..|records| - 1])
    ensures records[|records| - 1].inst !in ProviderTable(records[..|records| - 1])
  {
    var init := records[..|records| - 1];
    ProviderTableKeys(init, records[|records| - 1].inst);
  }

  lemma {:induction false} AppliedDistinct(rules: Rules, records: seq<ProviderRecord>)
    requires DistinctProviders(records)
    ensures DistinctProviders(ApplyRecords(rules, records))
    ensures forall i :: 0 <= i < |ApplyRecords(rules, records)| ==>
              ApplyRecords(rules, records)[i].inst in ProviderTable(records)
  {
    if records != [] {
      DistinctInit(records);
      AppliedDistinct(rules, records[..|records| - 1]);
    }
  }

  /** The rules on a table with one more provider. */
  lemma ApplyOneMore(rules: Rules, ps: Providers, p: Inst, ifaces: set<Iface>)
    requires p !in ps
    ensures ApplyTable(rules, ps[p := ifaces]) ==
            if p in rules.exclusions || Filter(rules, p, ifaces) == {} then ApplyTable(rules, ps)
            else ApplyTable(rules, ps)[p := Filter(rules, p, ifaces)]
  {
  }

  lemma TableOfOneMore(records: seq<ProviderRecord>, last: ProviderRecord)
    ensures ProviderTable(records + [last]) == ProviderTable(records)[last.inst := last.provided]
  {
    assert (records + [last])[..|records|] == records;
  }

  /** With one record per provider the loop over records is the rules applied to the table they mean. */
  lemma {:induction false} ApplyRecordsIsApplyTable(rules: Rules, records: seq<ProviderRecord>)
    requires DistinctProviders(records)
    ensures ProviderTable(ApplyRecords(rules, records)) == ApplyTable(rules, ProviderTable(records))
  {
    if records != [] {
      var init, last := records[..|records| - 1], records[|records| - 1];
      DistinctInit(records);
      ApplyRecordsIsApplyTable(rules, init);
      ApplyOneMore(rules, ProviderTable(init), last.inst, last.provided);
      TableOfOneMore(ApplyRecords(rules, init), ProviderRecord(last.inst, Filter(rules, last.inst, last.provided)));
    }
  }

  /** What happens to each record in turn, and the check that comes first. */
  method Apply(rules: Rules, records: seq<ProviderRecord>) returns (r: Result<seq<ProviderRecord>, PolicyError>)
    requires DistinctProviders(records)
    ensures r.Ok? <==> Fulfillable(rules, ProviderTable(records))
    ensures r.Ok? ==> r.value == ApplyRecords(rules, records)
    ensures r.Err? ==> r.error.BindingUnfulfillable? && r.error.key in rules.bindings
                       && r.error.provider == rules.bindings[r.error.key]
                       && !Has(ProviderTable(records), r.error.provider, r.error.key)
  {
    var keys := rules.bindings.Keys;
    while keys != {}
      invariant keys <= rules.bindings.Keys
      invariant forall k :: k in rules.bindings && k !in keys ==> Has(ProviderTable(records), rules.bindings[k], k)
      decreases keys
    {
      var k :| k in keys;
      var found := AnyProvides(records, rules.bindings[k], k);
      if !found { return Err(BindingUnfulfillable(k, rules.bindings[k])); }
      keys := keys - {k};
    }
    var filtered: seq<ProviderRecord> := [];
    for n := 0 to |records|
      invariant filtered == ApplyRecords(rules, records[..n])
    {
      assert records[..n + 1][..n] == records[..n];
      var record := records[n];
      if record.inst !in rules.exclusions {
        var provided := Filter(rules, record.inst, record.provided);
        if provided != {} { filtered := filtered + [ProviderRecord(record.inst, provided)]; }
      }
    }
    assert records[..|records|] == records;
    r := Ok(filtered);
  }

  method AnyProvides(records: seq<ProviderRecord>, p: Inst, k: Key) returns (b: bool)
    requires DistinctProviders(records)
    ensures b <==> Has(ProviderTable(records), p, k)
  {
    for n := 0 to |records|
      invariant !Has(ProviderTable(records[..n]), p, k)
    {
      assert records[..n + 1][..n] == records[..n];
      if records[n].inst == p && exists i :: i in records[n].provided && i.key == k {
        TableAt(records, n);
        return true;
      }
      DistinctInit(records[..n + 1]);
    }
    assert records[..|records|] == records;
    b := false;
  }

  lemma {:induction false} TableAt(records: seq<ProviderRecord>, n: nat)
    requires DistinctProviders(records) && n < |records|
    ensures records[n].inst in ProviderTable(records)
    ensures ProviderTable(records)[records[n].inst] == records[n].provided
  {
    if n < |records| - 1 {
      DistinctInit(records);
      TableAt(records[..|records| - 1], n);
    }
  }

  lemma TableWithin(a: seq<ProviderRecord>, b: seq<ProviderRecord>, p: Inst)
    requires DistinctProviders(a) && DistinctProviders(b) && multiset(a) == multiset(b) && p in ProviderTable(a)
    ensures p in ProviderTable(b) && ProviderTable(b)[p] == ProviderTable(a)[p]
  {
    ProviderTableKeys(a, p);
    var n :| 0 <= n < |a| && a[n].inst == p;
    assert a[n] in multiset(b);
    var m :| 0 <= m < |b| && b[m] == a[n];
    TableAt(a, n);
    TableAt(b, m);
  }

  /** The order in which the records are stored changes nothing: not what they offer, not whether the rules can be
      fulfilled, and not what is left after the rules. */
  lemma RecordOrderIsIrrelevant(rules: Rules, a: seq<ProviderRecord>, b: seq<ProviderRecord>)
    requires DistinctProviders(a) && DistinctProviders(b) && multiset(a) == multiset(b)
    ensures ProviderTable(a) == ProviderTable(b)
    ensures Fulfillable(rules, ProviderTable(a)) <==> Fulfillable(rules, ProviderTable(b))
    ensures ProviderTable(ApplyRecords(rules, a)) == ProviderTable(ApplyRecords(rules, b))
  {
    forall p | p in ProviderTable(a) ensures p in ProviderTable(b) && ProviderTable(b)[p] == ProviderTable(a)[p] {
      TableWithin(a, b, p);
    }
    forall p | p in ProviderTable(b) ensures p in ProviderTable(a) { TableWithin(b, a, p); }
    assert ProviderTable(a) == ProviderTable(b);
    ApplyRecordsIsApplyTable(rules, a);
    ApplyRecordsIsApplyTable(rules, b);
  }
}
