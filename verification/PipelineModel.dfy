/**
 What the pipeline works on: requests, components, stages, and a view of everything a run can change.
 */
module PipelineModel {
  import opened Prelude
  import C = Composition
  import G = ProviderGraph
  import P = GraphPolicy
  import St = StateStore
  import M = Migration

  type Inst = nat
  type Digest = nat
  type Component = nat
  type Version = nat

  datatype State = Installed | Validated | Activating | Active | Draining | Disabled | Failed

  datatype Event =
    | ValidationSucceeded
    | ValidationFailed
    | ActivationRequested
    | ResolutionFailed
    | ReadinessSucceeded
    | ReadinessFailed
    | DrainStarted
    | DrainCompleted

  function Transition(s: State, e: Event): Option<State> {
    match (s, e)
    case (Installed, ValidationSucceeded) => Some(Validated)
    case (Installed, ValidationFailed) => Some(Failed)
    case (Validated, ActivationRequested) => Some(Activating)
    case (Validated, ResolutionFailed) => Some(Failed)
    case (Activating, ReadinessSucceeded) => Some(Active)
    case (Activating, ReadinessFailed) => Some(Failed)
    case (Active, DrainStarted) => Some(Draining)
    case (Draining, DrainCompleted) => Some(Disabled)
    case (Disabled, ActivationRequested) => Some(Activating)
    case _ => None
  }

  /** How each state is reached, and only so: a failure event leads only to `Failed`, which nothing leaves, a candidate
      serves only after validation, activation and readiness, and nothing leads back to the beginning. */
  lemma LifecycleSteps(s: State, e: Event)
    ensures Transition(s, e) == Some(Validated) <==> s == Installed && e == ValidationSucceeded
    ensures Transition(s, e) == Some(Activating) <==> (s == Validated || s == Disabled) && e == ActivationRequested
    ensures Transition(s, e) == Some(Active) <==> s == Activating && e == ReadinessSucceeded
    ensures Transition(s, e) == Some(Draining) <==> s == Active && e == DrainStarted
    ensures Transition(s, e) == Some(Disabled) <==> s == Draining && e == DrainCompleted
    ensures Transition(s, e) == Some(Failed) <==>
              || (s == Installed && e == ValidationFailed) || (s == Validated && e == ResolutionFailed)
              || (s == Activating && e == ReadinessFailed)
    ensures Transition(s, e) != Some(Installed)
  {
  }

  datatype Record = Record(
    component: Component,
    version: Version,
    active: Option<Digest>,
    lastGood: Option<Digest>,
    state: State)

  // ---- what is made of an artifact, and which artifact it was made of ----

  datatype Compiled = Compiled(from: Digest)
  datatype Linked = Linked(from: Digest)
  datatype Guest = Guest(from: Digest)
  datatype WebManifest = WebManifest(from: Digest)
  datatype WebContext = WebContext(from: Digest)

  function CompileBytes(bytes: Digest): Compiled { Compiled(bytes) }

  function LinkComponent(c: Compiled): Linked { Linked(c.from) }

  function InstantiateLinked(l: Linked): Guest { Guest(l.from) }

  function ReadManifest(g: Guest): WebManifest { WebManifest(g.from) }

  function ReadAppDescriptor(c: Compiled): WebContext { WebContext(c.from) }

  /** What serves an installation: its runtime, web manifest and web context. */
  datatype Entry = Entry(digest: Digest, version: Version, runtime: Guest, manifest: WebManifest, webApp: WebContext)

  predicate FromOneDigest(e: Entry) {
    e.runtime.from == e.digest && e.manifest.from == e.digest && e.webApp.from == e.digest
  }

  datatype Kind = Install | Upgrade | Rollback | Enable

  datatype Approval = Explicit(grants: set<nat>) | ReuseExisting

  /** What a component says about itself: its identity, the capabilities it imports, the interfaces it provides and
      requires, the two readings of its schema declaration, and its migration code. */
  datatype About = About(
    component: Component,
    version: Version,
    imports: set<nat>,
    provided: Option<set<G.Iface>>,
    required: Option<set<G.Requirement>>,
    schema: Option<St.Version>,
    schemaAgain: Option<St.Version>,
    migrate: M.Guest)

  datatype Request = Request(kind: Kind, inst: Inst, digest: Digest, approval: Approval, about: About)

  datatype Stage =
    | Config | Size | Compile | Surface | Exports | Imports
    | AuditPersist | Persist | Upsert
    | FirstDescriptor | SecondDescriptor | SameDescriptor | Identity | ResolveVersion | AuditIdentity | Bind | Insert
    | GraphCheck | GateLoad | LoadGrants | Snapshot | Prepare
    | FirstSchema | SecondSchema | SchemaStore
    | MigrationRead | MigrationBegin | MigrationStarted | MigrationEnded | MigrationCommit | MigrationAbort | MigrationFailed
    | AuditActivation | Instantiate | Readiness | Manifest | Assets | WebApp
    | AuditGrants | StoreGrants | GraphLoad | GraphAudit | GraphStore | AuditSwap | AuditManifest | UpdateRecord
    | AuditDrain | Drain | AuditDrained
    | AuditFailure | ReadArtifact | ReadCandidate(event: Event) | WriteCandidate(event: Event)

  datatype Error = At(stage: Stage) | GraphRejected(graph: C.Error) | SchemaMismatch | SchemaDowngrade
    | MigrationRejected(reason: M.GuestError) | MigrationError(migration: M.Error) | GrantApprovalRequired
    | ComponentMismatch | SupplyChainConflict | Unresolved | InvalidTransition | Internal
    | NotFound | NotActive | NotDisabled | NoRollbackTarget | ArtifactUnavailable

  datatype Outcome = Activated | RequiresApproval

  type Oracle = Stage -> bool

  function MigrationFaults(ok: Oracle): M.Faults {
    M.Faults(!ok(MigrationRead), !ok(MigrationBegin), !ok(MigrationStarted), !ok(MigrationEnded),
             !ok(MigrationCommit), !ok(MigrationAbort), !ok(MigrationFailed))
  }

  function GraphFaults(ok: Oracle): C.Faults { C.Faults(!ok(GraphLoad), !ok(GraphAudit), !ok(GraphStore)) }

  /** The graph records after the commit of this run. */
  function RecordsAfter(q: Request, stored: C.Records): C.Records {
    C.Replaced(stored, q.inst, q.about.provided, q.about.required)
  }

  /** Everything the pipeline can change. */
  datatype View = View(
    artifacts: set<Digest>,
    candidates: map<Digest, State>,
    bindings: map<(Component, Version), Digest>,
    installs: map<Inst, Record>,
    grants: map<Inst, set<nat>>,
    active: map<Inst, Entry>,
    stored: C.Records,
    rules: P.Rules,
    sys: M.Sys)

  predicate Replaces(kind: Kind) { kind.Upgrade? || kind.Rollback? }

  predicate Whole(active: map<Inst, Entry>) { forall i :: i in active ==> FromOneDigest(active[i]) }

  predicate Retained(installs: map<Inst, Record>, artifacts: set<Digest>) {
    forall i :: i in installs ==>
      && (installs[i].active.Some? ==> installs[i].active.value in artifacts)
      && (installs[i].lastGood.Some? ==> installs[i].lastGood.value in artifacts)
  }

  /** No candidate but `d` has changed. */
  ghost predicate OnlyAt(a: map<Digest, State>, b: map<Digest, State>, d: Digest) {
    && (forall x :: x in a && x != d ==> x in b && b[x] == a[x])
    && (forall x :: x in b && x != d ==> x in a)
  }

  predicate BindingsKept(a: map<(Component, Version), Digest>, b: map<(Component, Version), Digest>) {
    forall k :: k in a ==> k in b && b[k] == a[k]
  }

  ghost predicate OthersKept<T>(a: map<Inst, T>, b: map<Inst, T>, i: Inst) {
    && (forall j :: j in a && j != i ==> j in b && b[j] == a[j])
    && (forall j :: j in b && j != i ==> j in a)
  }

  predicate Bound(bindings: map<(Component, Version), Digest>, q: Request) {
    (q.about.component, q.about.version) in bindings && bindings[(q.about.component, q.about.version)] == q.digest
  }

  function StateOf(candidates: map<Digest, State>, d: Option<Digest>): Option<State> {
    if d.Some? && d.value in candidates then Some(candidates[d.value]) else None
  }

  function Fresh(q: Request): Record { Record(q.about.component, q.about.version, None, None, Validated) }

  function Activation(q: Request, lastGood: Option<Digest>): Record {
    Record(q.about.component, q.about.version, Some(q.digest), lastGood, Active)
  }

  /** The digest an upgrade or a rollback replaces. */
  function Previous(q: Request, installs: map<Inst, Record>): Option<Digest> {
    if Replaces(q.kind) && q.inst in installs then installs[q.inst].active else None
  }

  /** What a run makes the last known good digest. */
  function NextLastGood(q: Request, installs: map<Inst, Record>): Option<Digest> {
    if q.kind.Install? || q.inst !in installs then Some(q.digest)
    else if q.kind.Enable? then installs[q.inst].lastGood
    else installs[q.inst].active
  }

  /** The entry of this request, every part of it made of the request's own bytes. */
  function NewEntry(q: Request): (e: Entry)
    ensures FromOneDigest(e)
  {
    Entry(q.digest, q.about.version, Guest(q.digest), WebManifest(q.digest), WebContext(q.digest))
  }

  function GrantsOf(q: Request, grants: map<Inst, set<nat>>): set<nat> {
    match q.approval
    case Explicit(given) => given
    case ReuseExisting => if q.inst in grants then grants[q.inst] else {}
  }

  /** What a run that gets to the activation makes of the grants. */
  function Granted(q: Request, grants: map<Inst, set<nat>>): map<Inst, set<nat>> {
    if q.approval.Explicit? then grants[q.inst := q.approval.grants] else grants
  }

  /** The readings from the instantiated runtime, in order. */
  function FirstFailure(ok: Oracle): (r: Option<Stage>)
    ensures r.None? <==> ok(Instantiate) && ok(Readiness) && ok(Manifest) && ok(Assets) && ok(WebApp)
    ensures r == Some(Readiness) <==> ok(Instantiate) && !ok(Readiness)
    ensures r == Some(Manifest) <==> ok(Instantiate) && ok(Readiness) && !ok(Manifest)
    ensures r == Some(Assets) <==> ok(Instantiate) && ok(Readiness) && ok(Manifest) && !ok(Assets)
    ensures r == Some(WebApp) <==> ok(Instantiate) && ok(Readiness) && ok(Manifest) && ok(Assets) && !ok(WebApp)
    ensures r == Some(Instantiate) <==> !ok(Instantiate)
  {
    if !ok(Instantiate) then Some(Instantiate)
    else if !ok(Readiness) then Some(Readiness)
    else if !ok(Manifest) then Some(Manifest)
    else if !ok(Assets) then Some(Assets)
    else if !ok(WebApp) then Some(WebApp)
    else None
  }
}
