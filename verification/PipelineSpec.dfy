/**
 What a pipeline run does, exactly: the conditions under which each of its parts succeeds, how the run ends, and what
 it then leaves behind.
 */
module PipelineSpec {
  import opened Prelude
  import opened PipelineModel
  import C = Composition
  import P = GraphPolicy
  import St = StateStore
  import M = Migration
  import R = MigrationRuns

  // ---- when each part succeeds ----

  predicate CanMove(ok: Oracle, e: Event) { ok(ReadCandidate(e)) && ok(WriteCandidate(e)) }

  /** The bytes are stored and their candidate starts over. */
  predicate Admitted(q: Request, ok: Oracle) {
    && ok(Config) && !(q.kind.Install? && q.approval.ReuseExisting?)
    && ok(Size) && ok(Compile) && ok(Surface) && ok(Exports) && ok(Imports)
    && ok(AuditPersist) && ok(Persist) && ok(Upsert)
  }

  /** The component is the installation's own and its version is not another digest's. */
  predicate Identified(q: Request, ok: Oracle, installs: map<Inst, Record>, bindings: map<(Component, Version), Digest>) {
    && ok(FirstDescriptor) && ok(SecondDescriptor) && ok(SameDescriptor) && ok(Identity)
    && (!q.kind.Install? ==> q.inst in installs && installs[q.inst].component == q.about.component)
    && ok(ResolveVersion) && ((q.about.component, q.about.version) in bindings ==> Bound(bindings, q))
    && ok(AuditIdentity) && ok(Bind) && (q.kind.Install? ==> ok(Insert)) && CanMove(ok, ValidationSucceeded)
  }

  predicate Introduces(q: Request, ok: Oracle, v: View) { Admitted(q, ok) && Identified(q, ok, v.installs, v.bindings) }

  ghost predicate Gated(q: Request, ok: Oracle, stored: C.Records, rules: P.Rules) {
    ok(GraphCheck) && ok(GateLoad) && C.HasGraph(RecordsAfter(q, stored), rules)
  }

  predicate Linkable(q: Request, ok: Oracle, grants: map<Inst, set<nat>>) {
    && (q.approval.ReuseExisting? ==> ok(LoadGrants)) && q.about.imports <= GrantsOf(q, grants)
    && ok(Snapshot) && ok(Prepare)
  }

  /** The existing grants do not cover the imports: the run ends waiting for approval. */
  predicate LacksGrants(q: Request, ok: Oracle, grants: map<Inst, set<nat>>) {
    q.approval.ReuseExisting? && ok(LoadGrants) && !(q.about.imports <= GrantsOf(q, grants))
  }

  ghost predicate AwaitsApproval(q: Request, ok: Oracle, v: View) {
    Introduces(q, ok, v) && Gated(q, ok, v.stored, v.rules) && LacksGrants(q, ok, v.grants)
  }

  /** The run gets as far as the two readings of the schema declaration. */
  ghost predicate PhaseRuns(q: Request, ok: Oracle, v: View) {
    && Introduces(q, ok, v) && Gated(q, ok, v.stored, v.rules) && Linkable(q, ok, v.grants)
    && ok(FirstSchema) && ok(SecondSchema)
  }

  /** The store is behind the declared version. */
  predicate Behind(q: Request, db: St.Db) {
    var stored, declared := St.StoredVersion(db, q.inst), q.about.schema;
    declared == q.about.schemaAgain && stored.Some? && declared.Some? && stored.value < declared.value
  }

  function PlanOf(q: Request, db: St.Db): M.Plan
    requires Behind(q, db)
  {
    M.Plan(q.inst, St.StoredVersion(db, q.inst).value, q.about.schema.value)
  }

  function GuestOf(q: Request, db: St.Db): M.GuestRun { q.about.migrate(St.DataAt(db, q.inst).rows) }

  /** The phase commits what the guest has written: the migration succeeds, or the guest commits by itself. */
  predicate PhaseCommits(q: Request, ok: Oracle, sys: M.Sys) {
    && Behind(q, sys.db) && ok(SchemaStore)
    && R.AttemptCommits(sys, PlanOf(q, sys.db), q.about.migrate, MigrationFaults(ok))
  }

  predicate PhasePasses(q: Request, ok: Oracle, sys: M.Sys) {
    var stored, declared := St.StoredVersion(sys.db, q.inst), q.about.schema;
    && declared == q.about.schemaAgain
    && (declared.Some? ==>
          && ok(SchemaStore)
          && (stored.None? || stored == declared
              || (PhaseCommits(q, ok, sys) && !GuestOf(q, sys.db).end.CommitsItself?)))
  }

  predicate Launches(q: Request, ok: Oracle) {
    && ok(AuditActivation) && CanMove(ok, ActivationRequested) && FirstFailure(ok).None?
    && (q.approval.Explicit? ==> ok(AuditGrants) && ok(StoreGrants))
  }

  /** The run gets as far as the activation. */
  ghost predicate Prepares(q: Request, ok: Oracle, v: View) {
    PhaseRuns(q, ok, v) && PhasePasses(q, ok, v.sys) && Launches(q, ok)
  }

  predicate Commits(ok: Oracle) { ok(GraphLoad) && ok(GraphAudit) && ok(GraphStore) }

  predicate Announces(ok: Oracle) { ok(AuditSwap) && ok(AuditManifest) }

  predicate DrainsFully(ok: Oracle) { ok(AuditDrain) && ok(Drain) && ok(AuditDrained) && CanMove(ok, DrainCompleted) }

  /** The errors of the drain behind a swap. */
  predicate DrainError(e: Error) {
    || e == At(AuditDrain) || e == At(Drain) || e == At(AuditDrained)
    || e == At(ReadCandidate(DrainCompleted)) || e == At(WriteCandidate(DrainCompleted))
  }

  /** Failing a candidate never makes it active. */
  predicate FailureEvent(e: Event) { e.ValidationFailed? || e.ResolutionFailed? || e.ReadinessFailed? }

  // ---- what a run is told ----

  /** The error of a candidate's move that its lifecycle allows. */
  function MoveError(ok: Oracle, e: Event): Error { if !ok(ReadCandidate(e)) then At(ReadCandidate(e)) else At(WriteCandidate(e)) }

  /** What becomes of an error that also fails the candidate: a failing audit or move takes its place. */
  function Reported(ok: Oracle, e: Event, error: Error): Error {
    if !ok(AuditFailure) then At(AuditFailure) else if CanMove(ok, e) then error else MoveError(ok, e)
  }

  function AdmissionError(q: Request, ok: Oracle): Error {
    if !ok(Config) then At(Config)
    else if q.kind.Install? && q.approval.ReuseExisting? then GrantApprovalRequired
    else if !ok(Size) then At(Size)
    else if !ok(Compile) then At(Compile)
    else if !ok(Surface) then At(Surface)
    else if !ok(Exports) then At(Exports)
    else if !ok(Imports) then At(Imports)
    else if !ok(AuditPersist) then At(AuditPersist)
    else if !ok(Persist) then At(Persist)
    else At(Upsert)
  }

  /** The component is the installation's own. */
  predicate Recognized(q: Request, ok: Oracle, installs: map<Inst, Record>) {
    && ok(FirstDescriptor) && ok(SecondDescriptor) && ok(SameDescriptor) && ok(Identity)
    && (!q.kind.Install? ==> q.inst in installs && installs[q.inst].component == q.about.component)
  }

  function CheckError(q: Request, ok: Oracle): Error {
    Reported(ok, ValidationFailed,
             if !ok(FirstDescriptor) then At(FirstDescriptor)
             else if !ok(SecondDescriptor) then At(SecondDescriptor)
             else if !ok(SameDescriptor) then At(SameDescriptor)
             else if !ok(Identity) then At(Identity)
             else ComponentMismatch)
  }

  function BindError(q: Request, ok: Oracle, bindings: map<(Component, Version), Digest>): Error {
    if !ok(ResolveVersion) then At(ResolveVersion)
    else if (q.about.component, q.about.version) in bindings && !Bound(bindings, q)
    then Reported(ok, ValidationFailed, SupplyChainConflict)
    else if !ok(AuditIdentity) then At(AuditIdentity)
    else if !ok(Bind) then At(Bind)
    else if q.kind.Install? && !ok(Insert) then At(Insert)
    else MoveError(ok, ValidationSucceeded)
  }

  function IntroductionError(q: Request, ok: Oracle, v: View): Error {
    if !Admitted(q, ok) then AdmissionError(q, ok)
    else if !Recognized(q, ok, v.installs) then CheckError(q, ok)
    else BindError(q, ok, v.bindings)
  }

  /** What stops the gate, before it is reported: a failing call, or a true reason why the records have no graph. */
  ghost predicate GateError(q: Request, ok: Oracle, stored: C.Records, rules: P.Rules, e: Error) {
    if !ok(GraphCheck) then e == At(GraphCheck)
    else if !ok(GateLoad) then e == GraphRejected(C.GraphStore)
    else e.GraphRejected? && C.Refused(RecordsAfter(q, stored), rules, e.graph)
  }

  ghost predicate GateRefusal(q: Request, ok: Oracle, stored: C.Records, rules: P.Rules, e: Error) {
    exists why :: GateError(q, ok, stored, rules, why) && e == Reported(ok, ResolutionFailed, why)
  }

  function LinkError(q: Request, ok: Oracle, grants: map<Inst, set<nat>>): Error {
    if q.approval.ReuseExisting? && !ok(LoadGrants) then At(LoadGrants)
    else if !(q.about.imports <= GrantsOf(q, grants)) then Reported(ok, ResolutionFailed, Unresolved)
    else if !ok(Snapshot) then At(Snapshot)
    else Reported(ok, ResolutionFailed, At(Prepare))
  }

  /** What stops the schema phase, before it is reported. */
  function RawPhaseError(q: Request, ok: Oracle, sys: M.Sys): Error {
    if !ok(FirstSchema) then At(FirstSchema)
    else if !ok(SecondSchema) then At(SecondSchema)
    else if q.about.schema != q.about.schemaAgain then SchemaMismatch
    else if !ok(SchemaStore) then At(SchemaStore)
    else if !Behind(q, sys.db) then SchemaDowngrade
    else MigrationComplaint(M.Migrate(sys, PlanOf(q, sys.db), q.about.migrate, MigrationFaults(ok)))
  }

  /** All failures of the phase but that of reading the store fail the candidate. */
  function PhaseError(q: Request, ok: Oracle, sys: M.Sys): Error {
    var e := RawPhaseError(q, ok, sys);
    if e == At(SchemaStore) then e else Reported(ok, ResolutionFailed, e)
  }

  function MigrationComplaint(t: M.Progress): Error {
    if t.Done? && t.result.Err? then MigrationError(t.result.error)
    else if t.Done? && t.result.value.RolledBack? then MigrationRejected(t.result.value.reason)
    else Internal
  }

  function LaunchError(ok: Oracle): Error {
    if !ok(AuditActivation) then At(AuditActivation)
    else if !CanMove(ok, ActivationRequested) then MoveError(ok, ActivationRequested)
    else if FirstFailure(ok).Some? then Reported(ok, ReadinessFailed, At(FirstFailure(ok).value))
    else if !ok(AuditGrants) then At(AuditGrants)
    else At(StoreGrants)
  }

  ghost predicate ResolveRefusal(q: Request, ok: Oracle, m: View, e: Error) {
    if !Gated(q, ok, m.stored, m.rules) then GateRefusal(q, ok, m.stored, m.rules, e)
    else if !Linkable(q, ok, m.grants) then e == LinkError(q, ok, m.grants)
    else e == PhaseError(q, ok, m.sys)
  }

  /** Why a run does not get to the activation: the first thing in its way. */
  ghost predicate Refusal(q: Request, ok: Oracle, v: View, e: Error) {
    if !Introduces(q, ok, v) then e == IntroductionError(q, ok, v)
    else if !(PhaseRuns(q, ok, v) && PhasePasses(q, ok, v.sys)) then ResolveRefusal(q, ok, v, e)
    else e == LaunchError(ok)
  }

  /** A candidate that is activating cannot be failed for its resolution any more. */
  function CommitError(ok: Oracle): Error {
    if !ok(AuditFailure) then At(AuditFailure)
    else if !ok(ReadCandidate(ResolutionFailed)) then At(ReadCandidate(ResolutionFailed))
    else InvalidTransition
  }

  function AnnounceError(ok: Oracle): Error { if !ok(AuditSwap) then At(AuditSwap) else At(AuditManifest) }

  function DrainStartError(ok: Oracle, state: Option<State>): Error {
    if !ok(ReadCandidate(DrainStarted)) then At(ReadCandidate(DrainStarted))
    else if state.None? then Internal
    else if state != Some(Active) then InvalidTransition
    else At(WriteCandidate(DrainStarted))
  }

  function DrainFailure(ok: Oracle): Error {
    if !ok(AuditDrain) then At(AuditDrain)
    else if !ok(Drain) then At(Drain)
    else if !ok(AuditDrained) then At(AuditDrained)
    else MoveError(ok, DrainCompleted)
  }

  // ---- how a run ends ----

  /** `Unrecorded`: the previous candidate drains, its record stays.  `Unready`: the record has moved, the snapshot has
      not.  `Served`: the snapshot has moved; `drained` says that nothing failed after that. */
  datatype End =
    | Unprepared
    | Recordless
    | AlreadyServing
    | Uncommitted
    | NotServing
    | Refused(error: Error)
    | Unrecorded
    | Unready
    | Served(drained: bool)

  /** The end of a run whose graph commit succeeds. */
  function TailOf(q: Request, ok: Oracle, v: View): End {
    if Replaces(q.kind) && q.inst !in v.active then NotServing
    else if !Announces(ok) then Refused(AnnounceError(ok))
    else if Replaces(q.kind) && !(CanMove(ok, DrainStarted) && StateOf(v.candidates, Previous(q, v.installs)) == Some(Active))
    then Refused(DrainStartError(ok, StateOf(v.candidates, Previous(q, v.installs))))
    else if !ok(UpdateRecord) then Unrecorded
    else if !CanMove(ok, ReadinessSucceeded) then Unready
    else Served(Replaces(q.kind) ==> DrainsFully(ok))
  }

  /** The end of a run that gets as far as the activation. */
  function RestOf(q: Request, ok: Oracle, v: View): End {
    if Replaces(q.kind) && Previous(q, v.installs).None? then Recordless
    else if Previous(q, v.installs) == Some(q.digest) then AlreadyServing
    else if !Commits(ok) then Uncommitted
    else TailOf(q, ok, v)
  }

  ghost function EndOf(q: Request, ok: Oracle, v: View): End {
    if Prepares(q, ok, v) then RestOf(q, ok, v) else Unprepared
  }

  predicate GraphMoved(end: End) {
    end.NotServing? || end.Refused? || end.Unrecorded? || end.Unready? || end.Served?
  }

  predicate RecordMoved(end: End) { end.Unready? || end.Served? }

  predicate DrainBegun(end: End) { end.Unrecorded? || end.Unready? || end.Served? }

  /** The candidates after an end, from those of the activation. */
  function CandidatesAfter(q: Request, end: End, v: View): map<Digest, State> {
    var from := Previous(q, v.installs);
    var drained :=
      if from.Some? && DrainBegun(end)
      then v.candidates[from.value := if end == Served(true) then Disabled else Draining]
      else v.candidates;
    if end.Served? then drained[q.digest := Active] else drained
  }

  function InstallsAfter(q: Request, end: End, installs: map<Inst, Record>): map<Inst, Record> {
    if RecordMoved(end) then installs[q.inst := Activation(q, NextLastGood(q, installs))] else installs
  }

  function ActiveAfter(q: Request, end: End, active: map<Inst, Entry>): map<Inst, Entry> {
    if end.Served? then active[q.inst := NewEntry(q)] else active
  }

  /** What the tail of a run makes of the view it starts from, the graph commit being behind it. */
  function TailView(q: Request, end: End, v: View): View {
    v.(candidates := CandidatesAfter(q, end, v), installs := InstallsAfter(q, end, v.installs),
       active := ActiveAfter(q, end, v.active))
  }

  /** What the activation makes of the view it starts from. */
  function RestView(q: Request, end: End, v: View): View {
    TailView(q, end, v).(stored := if GraphMoved(end) then RecordsAfter(q, v.stored) else v.stored)
  }

  predicate ResultOf(ok: Oracle, end: End, r: Result<Outcome, Error>) {
    match end
    case Unprepared => r != Ok(Activated) && (r.Err? ==> !DrainError(r.error))
    case AlreadyServing => r == Ok(Activated)
    case Served(drained) => r == if drained then Ok(Activated) else Err(DrainFailure(ok))
    case Unrecorded => r == Err(At(UpdateRecord))
    case Unready => r == Err(MoveError(ok, ReadinessSucceeded))
    case Refused(e) => r == Err(e) && !DrainError(e)
    case Uncommitted => r == Err(CommitError(ok))
    case _ => r == Err(Internal)
  }

  // ---- what the parts before the activation leave ----

  /** A version is bound once, and only to the request's own digest. */
  predicate BindingStep(q: Request, a: map<(Component, Version), Digest>, b: map<(Component, Version), Digest>) {
    var key := (q.about.component, q.about.version);
    b == a || ((key in a ==> a[key] == q.digest) && b == a[key := q.digest])
  }

  function Inserted(q: Request, installs: map<Inst, Record>): map<Inst, Record> {
    if q.kind.Install? then installs[q.inst := Fresh(q)] else installs
  }

  /** Only the request's own candidate moves: not at all before it is admitted, and never to being active. */
  ghost predicate CandidateStep(q: Request, ok: Oracle, a: map<Digest, State>, b: map<Digest, State>) {
    && OnlyAt(a, b, q.digest)
    && if Admitted(q, ok) then StateOf(b, Some(q.digest)) != Some(Active) else b == a
  }

  /** What every part before the activation keeps. */
  ghost predicate EarlyStep(q: Request, ok: Oracle, v: View, w: View) {
    && v.artifacts <= w.artifacts && BindingStep(q, v.bindings, w.bindings)
    && CandidateStep(q, ok, v.candidates, w.candidates)
    && w.active == v.active && w.stored == v.stored && w.rules == v.rules
    && (w.installs == v.installs || w.installs == Inserted(q, v.installs))
  }

  /** The committed state after a migration to the declared version. */
  function StateAfter(q: Request, db: St.Db): map<Inst, St.Data> {
    if Behind(q, db) then M.Moved(db, PlanOf(q, db), q.about.migrate) else db.data
  }

  /** The state store: `ran` says that the schema phase was reached, `committed` that it committed the guest's
      writes.  A migration window opened on the way has been closed again. */
  predicate StoreStep(q: Request, ran: bool, committed: bool, a: M.Sys, b: M.Sys) {
    && (!(ran && Behind(q, a.db)) ==> b == a)
    && b.db.data == (if ran && committed then StateAfter(q, a.db) else a.db.data)
    && (q.inst !in a.gate ==> b.gate == a.gate)
  }

  ghost predicate StoreMoves(q: Request, ok: Oracle, v: View, w: View) {
    StoreStep(q, PhaseRuns(q, ok, v), PhaseCommits(q, ok, v.sys), v.sys, w.sys)
  }

  predicate Recorded(q: Request, v: View, w: View) {
    w.installs == Inserted(q, v.installs) && q.digest in w.artifacts && Bound(w.bindings, q)
  }

  /** Bytes, candidate and identity. */
  ghost predicate IntroducedTo(q: Request, ok: Oracle, v: View, w: View, r: Result<Compiled, Error>) {
    && EarlyStep(q, ok, v, w) && w.grants == v.grants && w.sys == v.sys
    && (r.Ok? <==> Introduces(q, ok, v))
    && (r.Err? ==> r.error == IntroductionError(q, ok, v))
    && (r.Ok? ==>
          && r.value.from == q.digest
          && Recorded(q, v, w) && StateOf(w.candidates, Some(q.digest)) == Some(Validated))
  }

  /** The graph gate, from `m`. */
  ghost predicate GateTo(q: Request, ok: Oracle, m: View, w: View, r: Result<(), Error>) {
    && w == m.(candidates := w.candidates)
    && OnlyAt(m.candidates, w.candidates, q.digest) && StateOf(w.candidates, Some(q.digest)) != Some(Active)
    && (r.Ok? <==> Gated(q, ok, m.stored, m.rules))
    && (r.Ok? ==> w.candidates == m.candidates)
    && (r.Err? ==> GateRefusal(q, ok, m.stored, m.rules, r.error))
  }

  /** Grants and linking, from `m`. */
  ghost predicate ImportsTo(q: Request, ok: Oracle, m: View, w: View, compiled: Compiled, r: Result<Option<Linked>, Error>) {
    && w == m.(candidates := w.candidates)
    && OnlyAt(m.candidates, w.candidates, q.digest) && StateOf(w.candidates, Some(q.digest)) != Some(Active)
    && (r == Ok(None) <==> LacksGrants(q, ok, m.grants))
    && (r.Ok? && r.value.Some? <==> Linkable(q, ok, m.grants))
    && (r.Ok? ==> w.candidates == m.candidates)
    && (r.Ok? && r.value.Some? ==> r.value.value.from == compiled.from)
    && (r.Err? ==> r.error == LinkError(q, ok, m.grants))
  }

  /** Graph gate, grants and linking, from `m`. */
  ghost predicate LinkedTo(q: Request, ok: Oracle, m: View, w: View, compiled: Compiled, r: Result<Option<Linked>, Error>) {
    && w == m.(candidates := w.candidates)
    && OnlyAt(m.candidates, w.candidates, q.digest) && StateOf(w.candidates, Some(q.digest)) != Some(Active)
    && (r == Ok(None) <==> Gated(q, ok, m.stored, m.rules) && LacksGrants(q, ok, m.grants))
    && (r.Ok? && r.value.Some? <==> Gated(q, ok, m.stored, m.rules) && Linkable(q, ok, m.grants))
    && (r.Ok? ==> w.candidates == m.candidates)
    && (r.Ok? && r.value.Some? ==> r.value.value.from == compiled.from)
    && (r.Err? ==> if Gated(q, ok, m.stored, m.rules) then r.error == LinkError(q, ok, m.grants)
                   else GateRefusal(q, ok, m.stored, m.rules, r.error))
  }

  /** The schema phase, from `m`. */
  ghost predicate SchemaTo(q: Request, ok: Oracle, m: View, w: View, r: Result<(), Error>) {
    && w == m.(candidates := w.candidates, sys := w.sys)
    && OnlyAt(m.candidates, w.candidates, q.digest) && StateOf(w.candidates, Some(q.digest)) != Some(Active)
    && (r.Ok? <==> ok(FirstSchema) && ok(SecondSchema) && PhasePasses(q, ok, m.sys))
    && StoreStep(q, ok(FirstSchema) && ok(SecondSchema), PhaseCommits(q, ok, m.sys), m.sys, w.sys)
    && (r.Ok? ==> w.candidates == m.candidates)
    && (r.Err? ==> r.error == PhaseError(q, ok, m.sys))
  }

  /** Graph gate, grants, linking and the schema phase, from `m`. */
  ghost predicate ResolvedTo(q: Request, ok: Oracle, m: View, w: View, compiled: Compiled, r: Result<Option<Linked>, Error>) {
    var linked := Gated(q, ok, m.stored, m.rules) && Linkable(q, ok, m.grants);
    && w == m.(candidates := w.candidates, sys := w.sys)
    && OnlyAt(m.candidates, w.candidates, q.digest) && StateOf(w.candidates, Some(q.digest)) != Some(Active)
    && (r == Ok(None) <==> Gated(q, ok, m.stored, m.rules) && LacksGrants(q, ok, m.grants))
    && (r.Ok? && r.value.Some? <==> linked && ok(FirstSchema) && ok(SecondSchema) && PhasePasses(q, ok, m.sys))
    && StoreStep(q, linked && ok(FirstSchema) && ok(SecondSchema), PhaseCommits(q, ok, m.sys), m.sys, w.sys)
    && (r.Ok? ==> w.candidates == m.candidates)
    && (r.Ok? && r.value.Some? ==> r.value.value.from == compiled.from)
    && (r.Err? ==> ResolveRefusal(q, ok, m, r.error))
  }

  /** Everything before a guest of the new component runs for its installation. */
  ghost predicate VettedTo(q: Request, ok: Oracle, v: View, w: View, r: Result<Option<(Compiled, Linked)>, Error>) {
    && EarlyStep(q, ok, v, w) && StoreMoves(q, ok, v, w) && w.grants == v.grants
    && (r == Ok(None) <==> AwaitsApproval(q, ok, v))
    && (r.Ok? && r.value.Some? <==> PhaseRuns(q, ok, v) && PhasePasses(q, ok, v.sys))
    && (r.Err? ==> Refusal(q, ok, v, r.error))
    && (r.Ok? && r.value.Some? ==>
          && r.value.value.0.from == q.digest && r.value.value.1.from == q.digest
          && Recorded(q, v, w) && StateOf(w.candidates, Some(q.digest)) == Some(Validated))
  }

  /** Everything before the activation. */
  ghost predicate PreparedTo(q: Request, ok: Oracle, v: View, w: View, r: Result<Option<Entry>, Error>) {
    && EarlyStep(q, ok, v, w) && StoreMoves(q, ok, v, w)
    && w.grants == (if r.Ok? && r.value.Some? then Granted(q, v.grants) else v.grants)
    && (r == Ok(None) <==> AwaitsApproval(q, ok, v))
    && (r.Ok? && r.value.Some? <==> Prepares(q, ok, v))
    && (r.Err? ==> Refusal(q, ok, v, r.error))
    && (r.Ok? && r.value.Some? ==>
          && r.value.value == NewEntry(q)
          && Recorded(q, v, w) && StateOf(w.candidates, Some(q.digest)) == Some(Activating))
  }

  // ---- what a whole run leaves ----

  /** Every candidate but the request's own and the one it replaces is as before. */
  ghost predicate OtherCandidatesKept(q: Request, v: View, candidates: map<Digest, State>) {
    forall x {:trigger StateOf(candidates, Some(x))} ::
      x != q.digest && Previous(q, v.installs) != Some(x) ==>
        StateOf(candidates, Some(x)) == StateOf(v.candidates, Some(x))
  }

  /** The request's own candidate is active exactly after a swap, or when it was and the run never got to it; the
      previous one drains once the record is about to move. */
  ghost predicate CandidatesEnd(q: Request, ok: Oracle, end: End, v: View, candidates: map<Digest, State>) {
    var from := Previous(q, v.installs);
    && OtherCandidatesKept(q, v, candidates)
    && (match end
        case Served(_) => StateOf(candidates, Some(q.digest)) == Some(Active)
        case Unprepared => if Admitted(q, ok) then StateOf(candidates, Some(q.digest)) != Some(Active) else candidates == v.candidates
        case _ => Admitted(q, ok) && StateOf(candidates, Some(q.digest)) == Some(Activating))
    && (from.Some? && from.value != q.digest ==>
          StateOf(candidates, from) ==
          if !DrainBegun(end) then StateOf(v.candidates, from)
          else if end == Served(true) then Some(Disabled)
          else Some(Draining))
  }

  ghost predicate EndsAs(q: Request, ok: Oracle, end: End, v: View, w: View, r: Result<Outcome, Error>) {
    && v.artifacts <= w.artifacts && BindingStep(q, v.bindings, w.bindings) && w.rules == v.rules
    && (!end.Unprepared? ==> q.digest in w.artifacts && Bound(w.bindings, q))
    && w.stored == (if GraphMoved(end) then RecordsAfter(q, v.stored) else v.stored)
    && w.active == ActiveAfter(q, end, v.active)
    && w.grants == (if end.Unprepared? then v.grants else Granted(q, v.grants))
    && w.installs == (if end.Unprepared? && w.installs == v.installs then v.installs
                      else InstallsAfter(q, end, Inserted(q, v.installs)))
    && CandidatesEnd(q, ok, end, v, w.candidates)
    && ResultOf(ok, end, r)
  }

  /** The contract of a run. */
  ghost predicate RanTo(q: Request, ok: Oracle, v: View, w: View, r: Result<Outcome, Error>) {
    && EndsAs(q, ok, EndOf(q, ok, v), v, w, r)
    && StoreMoves(q, ok, v, w)
    && (r == Ok(RequiresApproval) <==> AwaitsApproval(q, ok, v))
    && (EndOf(q, ok, v).Unprepared? && r.Err? ==> Refusal(q, ok, v, r.error))
  }

  // ---- composing the parts ----

  /** The schema phase this run goes through. */
  function PhaseOf(q: Request, ok: Oracle, sys: M.Sys): R.PhaseResult {
    R.SchemaPhase(sys, q.inst, q.about.schema, q.about.schemaAgain, !ok(SchemaStore), q.about.migrate, MigrationFaults(ok))
  }

  /** When the schema phase succeeds, and what it does to the store. */
  lemma PhaseMeans(q: Request, ok: Oracle, sys: M.Sys)
    requires St.DbOk(sys.db)
    ensures
      var phase := PhaseOf(q, ok, sys);
      && St.DbOk(phase.sys.db)
      && (phase.ok <==> PhasePasses(q, ok, sys))
      && StoreStep(q, true, PhaseCommits(q, ok, sys), sys, phase.sys)
  {
    if ok(SchemaStore) && Behind(q, sys.db) {
      var p := PlanOf(q, sys.db);
      R.AttemptMeans(sys, p, q.about.migrate, MigrationFaults(ok));
      if q.inst !in sys.gate { R.WindowClosesOnEveryExit(sys, p, q.about.migrate, MigrationFaults(ok)); }
    }
  }

  lemma GateRefuses(q: Request, ok: Oracle, m: View, w: View, compiled: Compiled, gated: Result<(), Error>,
                    r: Result<Option<Linked>, Error>)
    requires GateTo(q, ok, m, w, gated) && gated.Err? && r == Err(gated.error)
    ensures LinkedTo(q, ok, m, w, compiled, r)
  {
  }

  lemma GateThenImports(q: Request, ok: Oracle, m: View, g: View, w: View, compiled: Compiled,
                        r: Result<Option<Linked>, Error>)
    requires GateTo(q, ok, m, g, Ok(())) && ImportsTo(q, ok, g, w, compiled, r)
    ensures LinkedTo(q, ok, m, w, compiled, r)
  {
  }

  lemma LinkRefuses(q: Request, ok: Oracle, m: View, w: View, compiled: Compiled, r: Result<Option<Linked>, Error>)
    requires LinkedTo(q, ok, m, w, compiled, r) && (r.Err? || r.value.None?)
    ensures ResolvedTo(q, ok, m, w, compiled, r)
  {
  }

  lemma LinkThenPhase(q: Request, ok: Oracle, m: View, g: View, w: View, compiled: Compiled, linked: Linked,
                      schema: Result<(), Error>, r: Result<Option<Linked>, Error>)
    requires LinkedTo(q, ok, m, g, compiled, Ok(Some(linked))) && SchemaTo(q, ok, g, w, schema)
    requires r == if schema.Ok? then Ok(Some(linked)) else Err(schema.error)
    ensures ResolvedTo(q, ok, m, w, compiled, r)
  {
  }

  /** What follows the admission moves the request's own candidate, and never to being active. */
  lemma EarlyStepGoesOn(q: Request, ok: Oracle, v: View, m: View, w: View)
    requires EarlyStep(q, ok, v, m) && Admitted(q, ok)
    requires w == m.(candidates := w.candidates, grants := w.grants, sys := w.sys)
    requires OnlyAt(m.candidates, w.candidates, q.digest) && StateOf(w.candidates, Some(q.digest)) != Some(Active)
    ensures EarlyStep(q, ok, v, w)
  {
  }

  lemma IntroduceThenResolve(q: Request, ok: Oracle, v: View, m: View, w: View, compiled: Compiled,
                             linked: Result<Option<Linked>, Error>, r: Result<Option<(Compiled, Linked)>, Error>)
    requires IntroducedTo(q, ok, v, m, Ok(compiled)) && ResolvedTo(q, ok, m, w, compiled, linked)
    requires r == if linked.Err? then Err(linked.error)
                  else Ok(if linked.value.None? then None else Some((compiled, linked.value.value)))
    ensures VettedTo(q, ok, v, w, r)
  {
    EarlyStepGoesOn(q, ok, v, m, w);
  }

  lemma VetRefuses(q: Request, ok: Oracle, v: View, w: View, vetted: Result<Option<(Compiled, Linked)>, Error>,
                   r: Result<Option<Entry>, Error>)
    requires VettedTo(q, ok, v, w, vetted) && (vetted.Err? || vetted.value.None?)
    requires r == if vetted.Err? then Err(vetted.error) else Ok(None)
    ensures PreparedTo(q, ok, v, w, r)
  {
  }

  lemma VetThenStart(q: Request, ok: Oracle, v: View, m: View, w: View, vetted: (Compiled, Linked),
                     r: Result<Option<Entry>, Error>)
    requires VettedTo(q, ok, v, m, Ok(Some(vetted)))
    requires w == m.(candidates := w.candidates, grants := if r.Ok? then Granted(q, m.grants) else m.grants)
    requires OnlyAt(m.candidates, w.candidates, q.digest) && StateOf(w.candidates, Some(q.digest)) != Some(Active)
    requires r != Ok(None) && (r.Ok? <==> Launches(q, ok))
    requires r.Err? ==> r.error == LaunchError(ok)
    requires r.Ok? ==> r.value == Some(NewEntry(q)) && StateOf(w.candidates, Some(q.digest)) == Some(Activating)
    ensures PreparedTo(q, ok, v, w, r)
  {
    EarlyStepGoesOn(q, ok, v, m, w);
  }

  lemma ReportedIsNotDrain(ok: Oracle, e: Event, error: Error)
    requires FailureEvent(e) && !DrainError(error)
    ensures !DrainError(Reported(ok, e, error))
  {
  }

  lemma IntroductionIsNotDrain(q: Request, ok: Oracle, v: View)
    ensures !DrainError(IntroductionError(q, ok, v))
  {
    ReportedIsNotDrain(ok, ValidationFailed, SupplyChainConflict);
    CheckIsNotDrain(q, ok);
  }

  lemma CheckIsNotDrain(q: Request, ok: Oracle)
    ensures !DrainError(CheckError(q, ok))
  {
  }

  lemma ResolveIsNotDrain(q: Request, ok: Oracle, m: View, e: Error)
    requires ResolveRefusal(q, ok, m, e)
    ensures !DrainError(e)
  {
    if !Gated(q, ok, m.stored, m.rules) {
      GateIsNotDrain(q, ok, m.stored, m.rules, e);
    } else {
      LinkIsNotDrain(q, ok, m.grants);
      PhaseIsNotDrain(q, ok, m.sys);
    }
  }

  lemma LinkIsNotDrain(q: Request, ok: Oracle, grants: map<Inst, set<nat>>)
    ensures !DrainError(LinkError(q, ok, grants))
  {
    ReportedIsNotDrain(ok, ResolutionFailed, Unresolved);
    ReportedIsNotDrain(ok, ResolutionFailed, At(Prepare));
  }

  lemma PhaseIsNotDrain(q: Request, ok: Oracle, sys: M.Sys)
    ensures !DrainError(PhaseError(q, ok, sys))
  {
    RawPhaseIsNotDrain(q, ok, sys);
    ReportedIsNotDrain(ok, ResolutionFailed, RawPhaseError(q, ok, sys));
  }

  lemma RawPhaseIsNotDrain(q: Request, ok: Oracle, sys: M.Sys)
    ensures !DrainError(RawPhaseError(q, ok, sys))
  {
  }

  lemma GateIsNotDrain(q: Request, ok: Oracle, stored: C.Records, rules: P.Rules, e: Error)
    requires GateRefusal(q, ok, stored, rules, e)
    ensures !DrainError(e)
  {
    var why :| GateError(q, ok, stored, rules, why) && e == Reported(ok, ResolutionFailed, why);
    ReportedIsNotDrain(ok, ResolutionFailed, why);
  }

  lemma LaunchIsNotDrain(ok: Oracle)
    ensures !DrainError(LaunchError(ok))
  {
    if FirstFailure(ok).Some? { ReportedIsNotDrain(ok, ReadinessFailed, At(FirstFailure(ok).value)); }
  }

  /** Nothing that keeps a run from its activation is an error of the drain behind a swap. */
  lemma RefusalIsNotDrain(q: Request, ok: Oracle, v: View, e: Error)
    requires Refusal(q, ok, v, e)
    ensures !DrainError(e)
  {
    IntroductionIsNotDrain(q, ok, v);
    LaunchIsNotDrain(ok);
    if Introduces(q, ok, v) && !(PhaseRuns(q, ok, v) && PhasePasses(q, ok, v.sys)) { ResolveIsNotDrain(q, ok, v, e); }
  }

  lemma RunEndsEarly(q: Request, ok: Oracle, v: View, w: View, prepared: Result<Option<Entry>, Error>,
                     r: Result<Outcome, Error>)
    requires PreparedTo(q, ok, v, w, prepared) && (prepared.Err? || prepared.value.None?)
    requires r == if prepared.Err? then Err(prepared.error) else Ok(RequiresApproval)
    requires q.kind.Install? <==> q.inst !in v.installs
    ensures RanTo(q, ok, v, w, r)
  {
    if prepared.Err? { RefusalIsNotDrain(q, ok, v, prepared.error); }
  }

  lemma RestKeepsRegistry(q: Request, end: End, m: View)
    requires Retained(m.installs, m.artifacts) && Whole(m.active) && q.digest in m.artifacts && q.inst in m.installs
    ensures Retained(RestView(q, end, m).installs, m.artifacts) && Whole(RestView(q, end, m).active)
  {
  }

  lemma CommitThenTail(q: Request, ok: Oracle, v: View, m: View, w: View, r: Result<Outcome, Error>)
    requires m == v.(stored := RecordsAfter(q, v.stored)) && Commits(ok)
    requires Replaces(q.kind) ==> Previous(q, v.installs).Some? && Previous(q, v.installs) != Some(q.digest)
    requires w == TailView(q, TailOf(q, ok, m), m) && ResultOf(ok, TailOf(q, ok, m), r)
    ensures w == RestView(q, RestOf(q, ok, v), v) && ResultOf(ok, RestOf(q, ok, v), r)
  {
  }

  /** The rest of a run depends on nothing the preparation has changed. */
  lemma RestIsKnown(q: Request, ok: Oracle, v: View, m: View)
    requires OnlyAt(v.candidates, m.candidates, q.digest) && m.active == v.active && m.installs == Inserted(q, v.installs)
    requires q.kind.Install? <==> q.inst !in v.installs
    ensures RestOf(q, ok, m) == RestOf(q, ok, v) && Previous(q, m.installs) == Previous(q, v.installs)
    ensures NextLastGood(q, m.installs) == NextLastGood(q, v.installs)
  {
  }

  lemma RestMovesCandidates(q: Request, ok: Oracle, end: End, v: View, m: View)
    requires OnlyAt(v.candidates, m.candidates, q.digest) && Previous(q, m.installs) == Previous(q, v.installs)
    requires !end.Unprepared? && Admitted(q, ok) && StateOf(m.candidates, Some(q.digest)) == Some(Activating)
    requires Previous(q, v.installs) == Some(q.digest) ==> !DrainBegun(end)
    ensures CandidatesEnd(q, ok, end, v, CandidatesAfter(q, end, m))
  {
  }

  lemma FinishEndsAs(q: Request, ok: Oracle, end: End, v: View, m: View, w: View, r: Result<Outcome, Error>)
    requires EarlyStep(q, ok, v, m) && Recorded(q, v, m) && m.grants == Granted(q, v.grants) && !end.Unprepared?
    requires NextLastGood(q, m.installs) == NextLastGood(q, v.installs)
    requires w == RestView(q, end, m) && ResultOf(ok, end, r) && CandidatesEnd(q, ok, end, v, w.candidates)
    ensures EndsAs(q, ok, end, v, w, r)
  {
  }

  lemma RestEndsAs(q: Request, ok: Oracle, v: View, m: View, w: View, r: Result<Outcome, Error>)
    requires EarlyStep(q, ok, v, m) && Recorded(q, v, m) && m.grants == Granted(q, v.grants) && Admitted(q, ok)
    requires StateOf(m.candidates, Some(q.digest)) == Some(Activating)
    requires q.kind.Install? <==> q.inst !in v.installs
    requires w == RestView(q, RestOf(q, ok, m), m) && ResultOf(ok, RestOf(q, ok, m), r)
    ensures EndsAs(q, ok, RestOf(q, ok, v), v, w, r) && r != Ok(RequiresApproval)
  {
    RestIsKnown(q, ok, v, m);
    RestMovesCandidates(q, ok, RestOf(q, ok, v), v, m);
    FinishEndsAs(q, ok, RestOf(q, ok, v), v, m, w, r);
  }

  lemma RunFinishes(q: Request, ok: Oracle, v: View, m: View, w: View, r: Result<Outcome, Error>)
    requires PreparedTo(q, ok, v, m, Ok(Some(NewEntry(q))))
    requires q.kind.Install? <==> q.inst !in v.installs
    requires w == RestView(q, RestOf(q, ok, m), m) && ResultOf(ok, RestOf(q, ok, m), r)
    ensures RanTo(q, ok, v, w, r)
  {
    RestEndsAs(q, ok, v, m, w, r);
    PreparedEnd(q, ok, v);
    PreparedRun(q, ok, v, m, w, r);
  }

  lemma PreparedEnd(q: Request, ok: Oracle, v: View)
    requires Prepares(q, ok, v)
    ensures EndOf(q, ok, v) == RestOf(q, ok, v) && !RestOf(q, ok, v).Unprepared?
  {
  }

  lemma PreparedRun(q: Request, ok: Oracle, v: View, m: View, w: View, r: Result<Outcome, Error>)
    requires PreparedTo(q, ok, v, m, Ok(Some(NewEntry(q)))) && w.sys == m.sys
    requires EndsAs(q, ok, EndOf(q, ok, v), v, w, r) && r != Ok(RequiresApproval) && !EndOf(q, ok, v).Unprepared?
    ensures RanTo(q, ok, v, w, r)
  {
  }
}
