/**
 The install, upgrade, rollback and enable pipeline: a long series of fallible stages around one pointer swap,
 among them the provider graph's gate and commit and the migration of the component's state.

 `ok(stage)` says whether the port call or check of a stage succeeds.  Artifacts are content-addressed, so bytes
 are their digest.
 */
module Pipeline {
  import opened Prelude
  import opened PipelineModel
  import opened PipelineSpec
  import C = Composition
  import St = StateStore
  import M = Migration
  import R = MigrationRuns
  import StateService

  class Pipeline {
    var artifacts: set<Digest>
    var candidates: map<Digest, State>
    var bindings: map<(Component, Version), Digest>
    var installs: map<Inst, Record>
    var grants: map<Inst, set<nat>>
    var active: map<Inst, Entry>
    const composition: C.CompositionService
    const migration: StateService.MigrationService

    /** Both digests of every installation keep their stored bytes, every serving entry is of one piece, the graph is
        the graph of its records, and the state store is sound. */
    ghost predicate Valid()
      reads this, composition, migration.world
    {
      RegistryOk() && composition.Consistent() && St.DbOk(migration.world.db)
    }

    function Look(): View
      reads this, composition, migration.world
    {
      View(artifacts, candidates, bindings, installs, grants, active,
           composition.stored, composition.rules, migration.world.Sys())
    }

    ghost predicate RegistryOk()
      reads this`installs, this`artifacts, this`active
    {
      Retained(installs, artifacts) && Whole(active)
    }

    constructor (composition: C.CompositionService, migration: StateService.MigrationService)
      requires composition.Consistent() && St.DbOk(migration.world.db)
      ensures Valid() && installs == map[] && active == map[] && bindings == map[] && candidates == map[]
      ensures this.composition == composition && this.migration == migration
    {
      this.composition, this.migration := composition, migration;
      artifacts, candidates, bindings, installs, grants, active := {}, map[], map[], map[], map[], map[];
    }

    method TransitionCandidate(d: Digest, e: Event, ok: Oracle) returns (r: Result<(), Error>)
      modifies `candidates
      ensures r.Ok? <==> CanMove(ok, e) && d in old(candidates) && Transition(old(candidates)[d], e).Some?
      ensures candidates == if r.Ok? then old(candidates)[d := Transition(old(candidates)[d], e).value] else old(candidates)
      ensures r.Err? ==> r.error == if !ok(ReadCandidate(e)) then At(ReadCandidate(e))
                                    else if d !in old(candidates) then Internal
                                    else if Transition(old(candidates)[d], e).None? then InvalidTransition
                                    else At(WriteCandidate(e))
    {
      if !ok(ReadCandidate(e)) { return Err(At(ReadCandidate(e))); }
      if d !in candidates { return Err(Internal); }
      var next := Transition(candidates[d], e);
      if next.None? { return Err(InvalidTransition); }
      if !ok(WriteCandidate(e)) { return Err(At(WriteCandidate(e))); }
      candidates := candidates[d := next.value];
      r := Ok(());
    }

    /** Audits a failure and moves the candidate; a failing audit or an invalid move takes the error's place. */
    method FailCandidate(d: Digest, e: Event, error: Error, ok: Oracle) returns (reported: Error)
      requires FailureEvent(e)
      modifies `candidates
      ensures OnlyAt(old(candidates), candidates, d)
      ensures StateOf(candidates, Some(d)) == Some(Active) <==> StateOf(old(candidates), Some(d)) == Some(Active)
      ensures
        var moves := ok(AuditFailure) && CanMove(ok, e) && d in old(candidates) && Transition(old(candidates)[d], e).Some?;
        && candidates == (if moves then old(candidates)[d := Transition(old(candidates)[d], e).value] else old(candidates))
        && (moves ==> reported == error)
      ensures !ok(AuditFailure) ==> reported == At(AuditFailure)
      ensures d in old(candidates) && Transition(old(candidates)[d], e).Some? ==> reported == Reported(ok, e, error)
      ensures d in old(candidates) && Transition(old(candidates)[d], e).None? && ok(AuditFailure) ==>
                reported == if ok(ReadCandidate(e)) then InvalidTransition else At(ReadCandidate(e))
    {
      if !ok(AuditFailure) { return At(AuditFailure); }
      var moved := TransitionCandidate(d, e, ok);
      reported := if moved.Ok? then error else moved.error;
    }

    /** Everything up to and including the stored candidate. */
    method Admit(q: Request, ok: Oracle) returns (r: Result<Compiled, Error>)
      modifies `artifacts, `candidates
      ensures old(artifacts) <= artifacts <= old(artifacts) + {q.digest}
      ensures r.Ok? <==> Admitted(q, ok)
      ensures candidates == if r.Ok? then old(candidates)[q.digest := Installed] else old(candidates)
      ensures r.Ok? ==> q.digest in artifacts && r.value.from == q.digest
      ensures r.Err? ==> r.error == AdmissionError(q, ok)
    {
      if !ok(Config) { return Err(At(Config)); }
      if q.kind.Install? && q.approval.ReuseExisting? { return Err(GrantApprovalRequired); }
      if !ok(Size) { return Err(At(Size)); }
      if !ok(Compile) { return Err(At(Compile)); }
      var compiled := CompileBytes(q.digest);
      if !ok(Surface) { return Err(At(Surface)); }
      if !ok(Exports) { return Err(At(Exports)); }
      if !ok(Imports) { return Err(At(Imports)); }
      if !ok(AuditPersist) { return Err(At(AuditPersist)); }
      if !ok(Persist) { return Err(At(Persist)); }
      artifacts := artifacts + {q.digest};
      if !ok(Upsert) { return Err(At(Upsert)); }
      candidates := candidates[q.digest := Installed];
      r := Ok(compiled);
    }

    /** The readings of the component's descriptor and its match with the installation. */
    method CheckIdentity(q: Request, ok: Oracle) returns (r: Result<(), Error>)
      requires (q.kind.Install? <==> q.inst !in installs) && StateOf(candidates, Some(q.digest)) == Some(Installed)
      modifies `candidates
      ensures OnlyAt(old(candidates), candidates, q.digest) && StateOf(candidates, Some(q.digest)) != Some(Active)
      ensures r.Ok? <==> Recognized(q, ok, installs)
      ensures r.Ok? ==> candidates == old(candidates)
      ensures r.Err? ==> r.error == CheckError(q, ok)
    {
      var failed :=
        if !ok(FirstDescriptor) then Some(At(FirstDescriptor))
        else if !ok(SecondDescriptor) then Some(At(SecondDescriptor))
        else if !ok(SameDescriptor) then Some(At(SameDescriptor))
        else if !ok(Identity) then Some(At(Identity))
        else if !q.kind.Install? && installs[q.inst].component != q.about.component then Some(ComponentMismatch)
        else None;
      if failed.None? { return Ok(()); }
      var e := FailCandidate(q.digest, ValidationFailed, failed.value, ok);
      r := Err(e);
    }

    /** Version binding and, for a fresh installation, its record. */
    method BindVersion(q: Request, ok: Oracle) returns (r: Result<(), Error>)
      requires (q.kind.Install? <==> q.inst !in installs) && StateOf(candidates, Some(q.digest)) == Some(Installed)
      modifies `candidates, `bindings, `installs
      ensures OnlyAt(old(candidates), candidates, q.digest) && StateOf(candidates, Some(q.digest)) != Some(Active)
      ensures BindingStep(q, old(bindings), bindings)
      ensures installs == old(installs) || installs == Inserted(q, old(installs))
      ensures r.Ok? <==>
        && ok(ResolveVersion) && ((q.about.component, q.about.version) in old(bindings) ==> Bound(old(bindings), q))
        && ok(AuditIdentity) && ok(Bind) && (q.kind.Install? ==> ok(Insert)) && CanMove(ok, ValidationSucceeded)
      ensures r.Ok? ==>
        && installs == Inserted(q, old(installs)) && Bound(bindings, q)
        && StateOf(candidates, Some(q.digest)) == Some(Validated)
      ensures r.Err? ==> r.error == BindError(q, ok, old(bindings))
    {
      var d := q.digest;
      if !ok(ResolveVersion) { return Err(At(ResolveVersion)); }
      var key := (q.about.component, q.about.version);
      if key in bindings && bindings[key] != d {
        var e := FailCandidate(d, ValidationFailed, SupplyChainConflict, ok);
        return Err(e);
      }
      if !ok(AuditIdentity) { return Err(At(AuditIdentity)); }
      if !ok(Bind) { return Err(At(Bind)); }
      bindings := bindings[key := d];
      if q.kind.Install? {
        if !ok(Insert) { return Err(At(Insert)); }
        installs := installs[q.inst := Fresh(q)];
      }
      r := TransitionCandidate(d, ValidationSucceeded, ok);
    }

    /** Descriptor, identity and version binding; a fresh installation gets its record here. */
    method Identify(q: Request, ok: Oracle) returns (r: Result<(), Error>)
      requires (q.kind.Install? <==> q.inst !in installs) && StateOf(candidates, Some(q.digest)) == Some(Installed)
      modifies `candidates, `bindings, `installs
      ensures OnlyAt(old(candidates), candidates, q.digest) && StateOf(candidates, Some(q.digest)) != Some(Active)
      ensures BindingStep(q, old(bindings), bindings)
      ensures installs == old(installs) || installs == Inserted(q, old(installs))
      ensures r.Ok? <==> Identified(q, ok, old(installs), old(bindings))
      ensures r.Ok? ==>
        && installs == Inserted(q, old(installs)) && Bound(bindings, q)
        && StateOf(candidates, Some(q.digest)) == Some(Validated)
      ensures r.Err? ==>
        r.error == if Recognized(q, ok, old(installs)) then BindError(q, ok, old(bindings)) else CheckError(q, ok)
    {
      r := CheckIdentity(q, ok);
      if r.Ok? { r := BindVersion(q, ok); }
    }

    /** The graph the records would have with this component in place must exist before anything is activated. */
    method GateGraph(q: Request, ok: Oracle) returns (r: Result<(), Error>)
      requires composition.Consistent() && StateOf(candidates, Some(q.digest)) == Some(Validated)
      modifies `candidates
      ensures GateTo(q, ok, old(Look()), Look(), r)
    {
      r := CheckGraph(q, ok);
      if r.Err? {
        var e := FailCandidate(q.digest, ResolutionFailed, r.error, ok);
        r := Err(e);
      }
    }

    method CheckGraph(q: Request, ok: Oracle) returns (r: Result<(), Error>)
      requires composition.Consistent()
      ensures r.Ok? <==> Gated(q, ok, composition.stored, composition.rules)
      ensures r.Err? ==> GateError(q, ok, composition.stored, composition.rules, r.error)
    {
      if !ok(GraphCheck) { return Err(At(GraphCheck)); }
      var candidate := composition.BuildCandidate(q.inst, q.about.provided, q.about.required, !ok(GateLoad));
      r := if candidate.Ok? then Ok(()) else Err(GraphRejected(candidate.error));
    }

    /** Every import must be granted, and the component must link. */
    method LinkImports(q: Request, compiled: Compiled, ok: Oracle) returns (r: Result<Option<Linked>, Error>)
      requires StateOf(candidates, Some(q.digest)) == Some(Validated)
      modifies `candidates
      ensures ImportsTo(q, ok, old(Look()), Look(), compiled, r)
    {
      if q.approval.ReuseExisting? && !ok(LoadGrants) { return Err(At(LoadGrants)); }
      if !(q.about.imports <= GrantsOf(q, grants)) {
        if q.approval.ReuseExisting? { return Ok(None); }
        var e := FailCandidate(q.digest, ResolutionFailed, Unresolved, ok);
        return Err(e);
      }
      if !ok(Snapshot) { return Err(At(Snapshot)); }
      if !ok(Prepare) {
        var e := FailCandidate(q.digest, ResolutionFailed, At(Prepare), ok);
        return Err(e);
      }
      r := Ok(Some(LinkComponent(compiled)));
    }

    /** The state schema phase: two readings of the declaration, then a migration if the store is behind it. */
    method RunPhase(q: Request, ok: Oracle) returns (r: Result<(), Error>)
      modifies migration.world
      ensures ok(FirstSchema) && ok(SecondSchema) ==>
                R.PhaseResult(migration.world.Sys(), r.Ok?) == PhaseOf(q, ok, old(migration.world.Sys()))
      ensures !(ok(FirstSchema) && ok(SecondSchema)) ==> r.Err? && migration.world.Sys() == old(migration.world.Sys())
      ensures r.Err? ==> r.error == RawPhaseError(q, ok, old(migration.world.Sys()))
    {
      var first := q.about.schema;
      if !ok(FirstSchema) { return Err(At(FirstSchema)); }
      if !ok(SecondSchema) { return Err(At(SecondSchema)); }
      if first != q.about.schemaAgain { return Err(SchemaMismatch); }
      if first.None? { return Ok(()); }
      if !ok(SchemaStore) { return Err(At(SchemaStore)); }
      var stored := St.StoredVersion(migration.world.db, q.inst);
      if stored.None? || stored == first { return Ok(()); }
      if first.value < stored.value { return Err(SchemaDowngrade); }
      var m := migration.Migrate(M.Plan(q.inst, stored.value, first.value), q.about.migrate, MigrationFaults(ok));
      r := if m.Err? then Err(MigrationError(m.error))
           else if m.value.RolledBack? then Err(MigrationRejected(m.value.reason))
           else Ok(());
    }

    method BringStateForward(q: Request, ok: Oracle) returns (r: Result<(), Error>)
      requires St.DbOk(migration.world.db)
      modifies migration.world
      ensures St.DbOk(migration.world.db)
      ensures r.Ok? <==> ok(FirstSchema) && ok(SecondSchema) && PhasePasses(q, ok, old(migration.world.Sys()))
      ensures
        var sys := old(migration.world.Sys());
        StoreStep(q, ok(FirstSchema) && ok(SecondSchema), PhaseCommits(q, ok, sys), sys, migration.world.Sys())
      ensures r.Err? ==> r.error == RawPhaseError(q, ok, old(migration.world.Sys()))
    {
      PhaseMeans(q, ok, migration.world.Sys());
      r := RunPhase(q, ok);
    }

    /** All failures of the phase but one fail the candidate. */
    method SchemaStage(q: Request, ok: Oracle) returns (r: Result<(), Error>)
      requires St.DbOk(migration.world.db) && StateOf(candidates, Some(q.digest)) == Some(Validated)
      modifies `candidates, migration.world
      ensures St.DbOk(migration.world.db) && SchemaTo(q, ok, old(Look()), Look(), r)
    {
      r := BringStateForward(q, ok);
      if r.Err? && r.error != At(SchemaStore) {
        var e := FailCandidate(q.digest, ResolutionFailed, r.error, ok);
        r := Err(e);
      }
    }

    /** Bytes, candidate and identity. */
    method Introduce(q: Request, ok: Oracle) returns (r: Result<Compiled, Error>)
      requires RegistryOk() && (q.kind.Install? <==> q.inst !in installs)
      modifies `artifacts, `candidates, `bindings, `installs
      ensures RegistryOk() && IntroducedTo(q, ok, old(Look()), Look(), r)
    {
      r := Admit(q, ok);
      if r.Ok? {
        var identified := Identify(q, ok);
        if identified.Err? { r := Err(identified.error); }
      }
    }

    /** The two checks that move nothing but the candidate. */
    method GateAndLink(q: Request, compiled: Compiled, ok: Oracle) returns (r: Result<Option<Linked>, Error>)
      requires composition.Consistent() && StateOf(candidates, Some(q.digest)) == Some(Validated)
      modifies `candidates
      ensures LinkedTo(q, ok, old(Look()), Look(), compiled, r)
    {
      ghost var m := Look();
      var gated := GateGraph(q, ok);
      ghost var g := Look();
      if gated.Err? {
        r := Err(gated.error);
        GateRefuses(q, ok, m, g, compiled, gated, r);
      } else {
        r := LinkImports(q, compiled, ok);
        GateThenImports(q, ok, m, g, Look(), compiled, r);
      }
    }

    /** Graph gate, grants, linking and the state schema phase, in this order: what is not approved is not
        migrated. */
    method Resolve(q: Request, compiled: Compiled, ok: Oracle) returns (r: Result<Option<Linked>, Error>)
      requires composition.Consistent() && St.DbOk(migration.world.db)
      requires StateOf(candidates, Some(q.digest)) == Some(Validated)
      modifies `candidates, migration.world
      ensures St.DbOk(migration.world.db) && ResolvedTo(q, ok, old(Look()), Look(), compiled, r)
    {
      ghost var m := Look();
      r := GateAndLink(q, compiled, ok);
      if r.Ok? && r.value.Some? {
        var linked := r.value.value;
        ghost var g := Look();
        var schema := SchemaStage(q, ok);
        r := if schema.Ok? then Ok(Some(linked)) else Err(schema.error);
        LinkThenPhase(q, ok, m, g, Look(), compiled, linked, schema, r);
      } else {
        LinkRefuses(q, ok, m, Look(), compiled, r);
      }
    }

    /** Everything before a guest of the new component runs for its installation. */
    method Vet(q: Request, ok: Oracle) returns (r: Result<Option<(Compiled, Linked)>, Error>)
      requires Valid() && (q.kind.Install? <==> q.inst !in installs)
      modifies `artifacts, `candidates, `bindings, `installs, migration.world
      ensures RegistryOk() && St.DbOk(migration.world.db) && VettedTo(q, ok, old(Look()), Look(), r)
    {
      ghost var v := Look();
      var compiled := Introduce(q, ok);
      ghost var m := Look();
      if compiled.Err? {
        r := Err(compiled.error);
      } else {
        var linked := Resolve(q, compiled.value, ok);
        r := if linked.Err? then Err(linked.error)
             else Ok(if linked.value.None? then None else Some((compiled.value, linked.value.value)));
        IntroduceThenResolve(q, ok, v, m, Look(), compiled.value, linked, r);
      }
    }

    /** Instantiation and everything read from the new runtime; the result is the complete new entry. */
    method Start(q: Request, compiled: Compiled, linked: Linked, ok: Oracle) returns (r: Result<Entry, Error>)
      requires compiled.from == q.digest && linked.from == q.digest
      requires StateOf(candidates, Some(q.digest)) == Some(Validated)
      modifies `candidates, `grants
      ensures OnlyAt(old(candidates), candidates, q.digest) && StateOf(candidates, Some(q.digest)) != Some(Active)
      ensures grants == if r.Ok? then Granted(q, old(grants)) else old(grants)
      ensures r.Ok? <==> Launches(q, ok)
      ensures r.Ok? ==> r.value == NewEntry(q) && StateOf(candidates, Some(q.digest)) == Some(Activating)
      ensures r.Err? ==> r.error == LaunchError(ok)
    {
      var d := q.digest;
      if !ok(AuditActivation) { return Err(At(AuditActivation)); }
      var requested := TransitionCandidate(d, ActivationRequested, ok);
      if requested.Err? { return Err(requested.error); }
      var failed := FirstFailure(ok);
      if failed.Some? {
        var e := FailCandidate(d, ReadinessFailed, At(failed.value), ok);
        return Err(e);
      }
      var guest := InstantiateLinked(linked);
      var manifest, webApp := ReadManifest(guest), ReadAppDescriptor(compiled);
      if q.approval.Explicit? {
        if !ok(AuditGrants) { return Err(At(AuditGrants)); }
        if !ok(StoreGrants) { return Err(At(StoreGrants)); }
        grants := grants[q.inst := q.approval.grants];
      }
      r := Ok(Entry(d, q.about.version, guest, manifest, webApp));
    }

    /** The composition service's part of an activation: it runs the gate's build again, so after the gate only a
        failing port stops it. */
    method CommitGraph(q: Request, ok: Oracle) returns (r: Result<(), C.Error>)
      requires composition.Consistent()
      modifies composition
      ensures composition.Consistent() && composition.rules == old(composition.rules)
      ensures composition.stored == if r.Ok? then RecordsAfter(q, old(composition.stored)) else old(composition.stored)
      ensures r.Ok? <==> Commits(ok) && C.HasGraph(RecordsAfter(q, old(composition.stored)), composition.rules)
    {
      var committed := composition.CommitActivation(q.inst, q.about.provided, q.about.required, GraphFaults(ok));
      r := if committed.Err? then Err(committed.error) else Ok(());
    }

    /** The graph commit of an activation.  A rejected candidate is already activating, a state the failure event does
        not apply to. */
    method CommitActivation(q: Request, ok: Oracle) returns (r: Result<(), Error>)
      requires composition.Consistent() && StateOf(candidates, Some(q.digest)) == Some(Activating)
      modifies `candidates, composition
      ensures composition.Consistent() && composition.rules == old(composition.rules)
      ensures composition.stored == if r.Ok? then RecordsAfter(q, old(composition.stored)) else old(composition.stored)
      ensures candidates == old(candidates)
      ensures r.Ok? <==> Commits(ok) && C.HasGraph(RecordsAfter(q, old(composition.stored)), composition.rules)
      ensures r.Err? ==> r.error == CommitError(ok)
    {
      var committed := CommitGraph(q, ok);
      if committed.Err? {
        var e := FailCandidate(q.digest, ResolutionFailed, GraphRejected(committed.error), ok);
        r := Err(e);
      } else {
        r := Ok(());
      }
    }

    method AnnounceActivation(ok: Oracle) returns (r: Result<(), Error>)
      ensures r.Ok? <==> Announces(ok)
      ensures r.Err? ==> r.error == AnnounceError(ok)
    {
      if !ok(AuditSwap) { return Err(At(AuditSwap)); }
      if !ok(AuditManifest) { return Err(At(AuditManifest)); }
      r := Ok(());
    }

    /** Everything an install or an enable writes before the swap, after the graph. */
    method RecordActivation(q: Request, lastGood: Option<Digest>, ok: Oracle) returns (r: Result<(), Error>)
      requires StateOf(candidates, Some(q.digest)) == Some(Activating)
      modifies `candidates, `installs
      ensures r.Ok? <==> Announces(ok) && ok(UpdateRecord) && CanMove(ok, ReadinessSucceeded)
      ensures candidates == if r.Ok? then old(candidates)[q.digest := Active] else old(candidates)
      ensures installs ==
        if Announces(ok) && ok(UpdateRecord) then old(installs)[q.inst := Activation(q, lastGood)] else old(installs)
      ensures r.Err? ==> r.error == if !Announces(ok) then AnnounceError(ok)
                                    else if !ok(UpdateRecord) then At(UpdateRecord)
                                    else MoveError(ok, ReadinessSucceeded)
    {
      r := AnnounceActivation(ok);
      if r.Err? { return; }
      if !ok(UpdateRecord) { return Err(At(UpdateRecord)); }
      installs := installs[q.inst := Activation(q, lastGood)];
      r := TransitionCandidate(q.digest, ReadinessSucceeded, ok);
    }

    /** The end of an install or an enable: the record, then the swap. */
    method Activate(q: Request, entry: Entry, ok: Oracle) returns (r: Result<Outcome, Error>)
      requires !Replaces(q.kind) && q.inst in installs && entry == NewEntry(q)
      requires StateOf(candidates, Some(q.digest)) == Some(Activating)
      modifies `candidates, `installs, `active
      ensures Look() == TailView(q, TailOf(q, ok, old(Look())), old(Look()))
      ensures ResultOf(ok, TailOf(q, ok, old(Look())), r)
    {
      var lastGood := if q.kind.Install? then Some(q.digest) else installs[q.inst].lastGood;
      var recorded := RecordActivation(q, lastGood, ok);
      if recorded.Ok? { active := active[q.inst := entry]; }
      r := if recorded.Ok? then Ok(Activated) else Err(recorded.error);
    }

    method StartDrain(from: Digest, ok: Oracle) returns (r: Result<(), Error>)
      modifies `candidates
      ensures r.Ok? <==> Announces(ok) && CanMove(ok, DrainStarted) && StateOf(old(candidates), Some(from)) == Some(Active)
      ensures candidates == if r.Ok? then old(candidates)[from := Draining] else old(candidates)
      ensures r.Err? ==> r.error == if !Announces(ok) then AnnounceError(ok)
                                    else DrainStartError(ok, StateOf(old(candidates), Some(from)))
    {
      r := AnnounceActivation(ok);
      if r.Ok? { r := TransitionCandidate(from, DrainStarted, ok); }
    }

    /** Everything an upgrade or rollback writes before the swap: the old candidate starts draining, then the record
        moves, then the new candidate becomes active. */
    method MoveRecord(q: Request, from: Digest, ok: Oracle) returns (r: Result<(), Error>)
      requires q.inst in installs && installs[q.inst].active == Some(from) && from != q.digest
      requires StateOf(candidates, Some(q.digest)) == Some(Activating)
      modifies `candidates, `installs
      ensures
        var drains := Announces(ok) && CanMove(ok, DrainStarted) && StateOf(old(candidates), Some(from)) == Some(Active);
        && (r.Ok? <==> drains && ok(UpdateRecord) && CanMove(ok, ReadinessSucceeded))
        && installs == (if drains && ok(UpdateRecord) then old(installs)[q.inst := Activation(q, Some(from))] else old(installs))
        && candidates == (if !drains then old(candidates)
                          else if r.Ok? then old(candidates)[from := Draining][q.digest := Active]
                          else old(candidates)[from := Draining])
      ensures r.Err? ==>
        var state := StateOf(old(candidates), Some(from));
        r.error == if !Announces(ok) then AnnounceError(ok)
                   else if !(CanMove(ok, DrainStarted) && state == Some(Active)) then DrainStartError(ok, state)
                   else if !ok(UpdateRecord) then At(UpdateRecord)
                   else MoveError(ok, ReadinessSucceeded)
    {
      r := StartDrain(from, ok);
      if r.Err? { return; }
      if !ok(UpdateRecord) { return Err(At(UpdateRecord)); }
      installs := installs[q.inst := Activation(q, Some(from))];
      r := TransitionCandidate(q.digest, ReadinessSucceeded, ok);
    }

    /** The end of an upgrade or a rollback: the record, the swap, and only then the drain of the old runtime. */
    method Replace(q: Request, from: Digest, entry: Entry, ok: Oracle) returns (r: Result<Outcome, Error>)
      requires Replaces(q.kind) && q.inst in installs && installs[q.inst].active == Some(from) && from != q.digest
      requires StateOf(candidates, Some(q.digest)) == Some(Activating) && entry == NewEntry(q)
      modifies `candidates, `installs, `active
      ensures Look() == TailView(q, TailOf(q, ok, old(Look())), old(Look()))
      ensures ResultOf(ok, TailOf(q, ok, old(Look())), r)
    {
      if q.inst !in active {
        r := Err(Internal);
      } else {
        var moved := MoveRecord(q, from, ok);
        if moved.Err? {
          r := Err(moved.error);
        } else {
          active := active[q.inst := entry];
          var drained := DrainPrevious(from, ok);
          r := if drained.Ok? then Ok(Activated) else Err(drained.error);
          assert candidates == CandidatesAfter(q, Served(drained.Ok?), old(Look()));
        }
      }
    }

    method DrainPrevious(d: Digest, ok: Oracle) returns (r: Result<(), Error>)
      requires StateOf(candidates, Some(d)) == Some(Draining)
      modifies `candidates
      ensures r.Ok? <==> DrainsFully(ok)
      ensures candidates == if r.Ok? then old(candidates)[d := Disabled] else old(candidates)
      ensures r.Err? ==> r.error == DrainFailure(ok)
    {
      if !ok(AuditDrain) { return Err(At(AuditDrain)); }
      if !ok(Drain) { return Err(At(Drain)); }
      if !ok(AuditDrained) { return Err(At(AuditDrained)); }
      r := TransitionCandidate(d, DrainCompleted, ok);
    }

    /** Everything before the activation. */
    method Prepared(q: Request, ok: Oracle) returns (r: Result<Option<Entry>, Error>)
      requires Valid() && (q.kind.Install? <==> q.inst !in installs)
      modifies `artifacts, `candidates, `bindings, `installs, `grants, migration.world
      ensures RegistryOk() && St.DbOk(migration.world.db) && PreparedTo(q, ok, old(Look()), Look(), r)
    {
      ghost var v := Look();
      var vetted := Vet(q, ok);
      if vetted.Err? || vetted.value.None? {
        r := if vetted.Err? then Err(vetted.error) else Ok(None);
        VetRefuses(q, ok, v, Look(), vetted, r);
      } else {
        r := StartVetted(q, vetted.value.value, ok, v);
      }
    }

    /** Starting what was vetted from `v`. */
    method StartVetted(q: Request, vetted: (Compiled, Linked), ok: Oracle, ghost v: View)
        returns (r: Result<Option<Entry>, Error>)
      requires VettedTo(q, ok, v, Look(), Ok(Some(vetted)))
      modifies `candidates, `grants
      ensures PreparedTo(q, ok, v, Look(), r)
    {
      ghost var m := Look();
      var started := Start(q, vetted.0, vetted.1, ok);
      r := if started.Err? then Err(started.error) else Ok(Some(started.value));
      VetThenStart(q, ok, v, m, Look(), vetted, r);
    }

    /** The activation of what has been prepared; there is nothing to do when the digest serves already. */
    method Finish(q: Request, entry: Entry, ok: Oracle) returns (r: Result<Outcome, Error>)
      requires composition.Consistent() && q.inst in installs && entry == NewEntry(q)
      requires StateOf(candidates, Some(q.digest)) == Some(Activating)
      requires C.HasGraph(RecordsAfter(q, composition.stored), composition.rules)
      modifies `candidates, `installs, `active, composition
      ensures composition.Consistent()
      ensures Look() == RestView(q, RestOf(q, ok, old(Look())), old(Look())) && ResultOf(ok, RestOf(q, ok, old(Look())), r)
    {
      if Replaces(q.kind) && installs[q.inst].active.None? {
        r := Err(Internal);
      } else if Replaces(q.kind) && installs[q.inst].active.value == q.digest {
        r := Ok(Activated);
      } else {
        r := CommitAndConclude(q, entry, ok);
      }
    }

    /** The graph first, then the record and the swap. */
    method CommitAndConclude(q: Request, entry: Entry, ok: Oracle) returns (r: Result<Outcome, Error>)
      requires composition.Consistent() && q.inst in installs && entry == NewEntry(q)
      requires Replaces(q.kind) ==> installs[q.inst].active.Some? && installs[q.inst].active.value != q.digest
      requires StateOf(candidates, Some(q.digest)) == Some(Activating)
      requires C.HasGraph(RecordsAfter(q, composition.stored), composition.rules)
      modifies `candidates, `installs, `active, composition
      ensures composition.Consistent()
      ensures Look() == RestView(q, RestOf(q, ok, old(Look())), old(Look())) && ResultOf(ok, RestOf(q, ok, old(Look())), r)
    {
      ghost var v := Look();
      var committed := CommitActivation(q, ok);
      if committed.Err? {
        r := Err(committed.error);
      } else {
        ghost var m := Look();
        r := Conclude(q, entry, ok);
        CommitThenTail(q, ok, v, m, Look(), r);
      }
    }

    /** Record and swap by kind. */
    method Conclude(q: Request, entry: Entry, ok: Oracle) returns (r: Result<Outcome, Error>)
      requires q.inst in installs && entry == NewEntry(q)
      requires StateOf(candidates, Some(q.digest)) == Some(Activating)
      requires Replaces(q.kind) ==> installs[q.inst].active.Some? && installs[q.inst].active.value != q.digest
      modifies `candidates, `installs, `active
      ensures Look() == TailView(q, TailOf(q, ok, old(Look())), old(Look()))
      ensures ResultOf(ok, TailOf(q, ok, old(Look())), r)
    {
      if Replaces(q.kind) {
        r := Replace(q, installs[q.inst].active.value, entry, ok);
      } else {
        r := Activate(q, entry, ok);
      }
    }

    /** The pipeline. */
    method Run(q: Request, ok: Oracle) returns (r: Result<Outcome, Error>)
      requires Valid() && (q.kind.Install? <==> q.inst !in installs)
      modifies this, composition, migration.world
      ensures Valid() && RanTo(q, ok, old(Look()), Look(), r)
    {
      ghost var v := Look();
      var prepared := Prepared(q, ok);
      ghost var m := Look();
      if prepared.Err? || prepared.value.None? {
        r := if prepared.Err? then Err(prepared.error) else Ok(RequiresApproval);
        RunEndsEarly(q, ok, v, m, prepared, r);
      } else {
        r := Finish(q, prepared.value.value, ok);
        RestKeepsRegistry(q, RestOf(q, ok, m), m);
        RunFinishes(q, ok, v, m, Look(), r);
      }
    }
  }
}
