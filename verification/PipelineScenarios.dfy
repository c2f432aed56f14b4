/**
 Scenarios from an empty host: an upgrade whose record cannot be written, one whose readiness cannot be written, two
 rollbacks, and a version locked out of its state.  Each shows that the premises of the results on failing upgrades are
 met by the services themselves.
 */
module PipelineScenarios {
  import opened Prelude
  import opened PipelineModel
  import opened PipelineSpec
  import opened PipelineRuns
  import opened PipelineServices
  import opened Pipeline
  import C = Composition
  import P = GraphPolicy
  import St = StateStore
  import M = Migration
  import R = MigrationRuns
  import StateService

  /** A component without imports and interfaces whose version is its digest. */
  function Plain(d: Digest, schema: Option<St.Version>): About {
    About(0, d, {}, None, None, schema, schema, rows => M.GuestRun([St.PutKey(0, 0)], M.KeepsOpen, Ok(())))
  }

  function Bytes(d: Digest, approval: Approval): Offer { Offer(d, approval, Plain(d, None)) }

  function PlainRequest(kind: Kind, i: Inst, d: Digest): Request {
    AsRequest(kind, i, Bytes(d, if kind.Install? then Explicit({}) else ReuseExisting))
  }

  /** Only plain components have run. */
  predicate PlainHost(v: View) {
    && v.stored == C.Records([], []) && v.rules == P.Rules(map[], {})
    && (forall i :: i in v.installs ==> v.installs[i].component == 0)
    && (forall k :: k in v.bindings ==> v.bindings[k] == k.1)
  }

  predicate IsPlain(q: Request) {
    && q.about.component == 0 && q.about.version == q.digest && q.about.imports == {}
    && q.about.provided == None && q.about.required == None
    && (q.kind.Install? ==> q.approval.Explicit?)
  }

  lemma NoRecords(q: Request, v: View)
    requires PlainHost(v) && IsPlain(q)
    ensures RecordsAfter(q, v.stored) == v.stored && C.HasGraph(RecordsAfter(q, v.stored), v.rules)
  {
    C.EmptyGraph(v.rules);
    assert C.ProvidersWithout([], q.inst) == [] && C.ConsumersWithout([], q.inst) == [];
  }

  /** On a plain host a plain request gets to the writes around the swap. */
  lemma PlainRun(q: Request, late: Stage, v: View)
    requires PlainHost(v) && IsPlain(q) && Late(late) && Addressed(q, v) && StateReady(q, v.sys)
    ensures EndOf(q, AllBut(late), v) == RestOf(q, AllBut(late), v)
    ensures Prepares(q, AllBut(late), v)
  {
    NoRecords(q, v);
    CleanRunPrepares(q, late, v);
  }

  lemma PlainStays(q: Request, ok: Oracle, v: View, w: View, r: Result<Outcome, Error>)
    requires PlainHost(v) && IsPlain(q) && RanTo(q, ok, v, w, r) && Addressed(q, v)
    ensures PlainHost(w)
  {
    NoRecords(q, v);
    RunTouchesOne(q, ok, v, w, r);
  }

  /** The installation serves these bytes, under its record and with its candidate active. */
  predicate Deployed(v: View, i: Inst, d: Digest) {
    && Serving(v.installs, i) && v.installs[i].active == Some(d)
    && i in v.active && v.active[i].digest == d && StateOf(v.candidates, Some(d)) == Some(Active)
  }

  const CLEAN := AllBut(AuditFailure)

  /** Once prepared, with the swap's calls succeeding, the two writes decide. */
  lemma WritesDecide(q: Request, ok: Oracle, v: View)
    requires Commits(ok) && Announces(ok) && CanMove(ok, DrainStarted) && DrainsFully(ok)
    requires Replaces(q.kind) ==>
               Deployed(v, q.inst, ServingDigest(v, q.inst)) && v.installs[q.inst].active != Some(q.digest)
    ensures RestOf(q, ok, v) == if !ok(UpdateRecord) then Unrecorded
                                else if !CanMove(ok, ReadinessSucceeded) then Unready else Served(true)
  {
  }

  lemma CleanWrites()
    ensures CLEAN(ReadArtifact) && CLEAN(UpdateRecord) && CanMove(CLEAN, ReadinessSucceeded)
  {
  }

  lemma CleanServes(q: Request, v: View)
    requires Replaces(q.kind) ==>
               Deployed(v, q.inst, ServingDigest(v, q.inst)) && v.installs[q.inst].active != Some(q.digest)
    ensures RestOf(q, CLEAN, v) == Served(true)
  {
    CleanSwap(AuditFailure);
    CleanWrites();
    WritesDecide(q, CLEAN, v);
  }

  lemma PlainServes(q: Request, v: View)
    requires PlainHost(v) && IsPlain(q) && Addressed(q, v) && StateReady(q, v.sys)
    requires RestOf(q, CLEAN, v) == Served(true)
    ensures EndOf(q, CLEAN, v) == Served(true)
  {
    PlainRun(q, AuditFailure, v);
  }

  lemma PlainInstallServes(q: Request, v: View)
    requires PlainHost(v) && IsPlain(q) && q.kind.Install? && Addressed(q, v) && StateReady(q, v.sys)
    ensures EndOf(q, CLEAN, v) == Served(true)
  {
    CleanServes(q, v);
    PlainServes(q, v);
  }

  lemma PlainSwapServes(q: Request, v: View)
    requires PlainHost(v) && IsPlain(q) && Replaces(q.kind) && StateReady(q, v.sys)
    requires Deployed(v, q.inst, ServingDigest(v, q.inst)) && ServingDigest(v, q.inst) != q.digest
    ensures EndOf(q, CLEAN, v) == Served(true)
  {
    CleanServes(q, v);
    PlainServes(q, v);
  }

  /** A run that serves completely. */
  lemma ServedDeploys(q: Request, ok: Oracle, v: View, w: View, r: Result<Outcome, Error>)
    requires EndsAs(q, ok, Served(true), v, w, r) && Addressed(q, v)
    ensures r == Ok(Activated) && Deployed(w, q.inst, q.digest)
    ensures w.installs[q.inst].lastGood == NextLastGood(q, v.installs)
  {
  }

  lemma InstallDeploys(q: Request, ok: Oracle, v: View, w: View, r: Result<Outcome, Error>)
    requires RanTo(q, ok, v, w, r) && q.kind.Install? && Addressed(q, v) && EndOf(q, ok, v) == Served(true)
    ensures r == Ok(Activated) && Deployed(w, q.inst, q.digest) && w.installs[q.inst].lastGood == Some(q.digest)
  {
    ServedDeploys(q, ok, v, w, r);
  }

  lemma KeptForOthers(q: Request, ok: Oracle, v: View, w: View, r: Result<Outcome, Error>)
    requires RanTo(q, ok, v, w, r) && Addressed(q, v)
    ensures forall i :: i != q.inst ==> KeptFor(i, v, w)
  {
    RunTouchesOne(q, ok, v, w, r);
    forall i | i != q.inst ensures KeptFor(i, v, w) { KeptByOthers(v, w, q.inst, i); }
  }

  lemma KeptByOthers(v: View, w: View, i: Inst, j: Inst)
    requires OthersKept(v.active, w.active, i) && OthersKept(v.installs, w.installs, i) && j != i
    ensures KeptFor(j, v, w)
  {
  }

  /** A swap that names both digests. */
  lemma SwapDeploys(q: Request, ok: Oracle, v: View, w: View, r: Result<UpgradeOutcome, Error>)
    requires Replaces(q.kind) && Serving(v.installs, q.inst) && v.installs[q.inst].active != Some(q.digest)
    requires Answers(q, ok, v, w, r) && EndOf(q, ok, v) == Served(true)
    ensures r == Ok(Swapped(ServingDigest(v, q.inst), q.digest)) && Deployed(w, q.inst, q.digest)
    ensures w.installs[q.inst].lastGood == Some(ServingDigest(v, q.inst))
  {
    ServedDeploys(q, ok, v, w, RunOutcome(r));
    SwapsExactly(q, ok, v, w, r);
  }

  /** The two writes whose failure gets an installation stuck. */
  predicate Fatal(late: Stage) { late == UpdateRecord || late == WriteCandidate(ReadinessSucceeded) }

  lemma FatalWrites(late: Stage)
    requires Fatal(late)
    ensures
      var ok := AllBut(late);
      (ok(UpdateRecord) <==> late != UpdateRecord) && !(ok(UpdateRecord) && CanMove(ok, ReadinessSucceeded))
  {
  }

  lemma PlainFailure(q: Request, late: Stage, v: View, w: View, r: Result<Outcome, Error>)
    requires Fatal(late) && PlainHost(v) && IsPlain(q) && Replaces(q.kind) && StateReady(q, v.sys)
    requires Deployed(v, q.inst, ServingDigest(v, q.inst)) && ServingDigest(v, q.inst) != q.digest
    requires RanTo(q, AllBut(late), v, w, r)
    ensures r.Err? && Stuck(w, q.inst) && w.active == v.active
    ensures w.installs[q.inst].active == Some(if late == UpdateRecord then ServingDigest(v, q.inst) else q.digest)
  {
    PlainRun(q, late, v);
    CleanSwap(late);
    FatalWrites(late);
    GetsStuck(q, AllBut(late), v, w, r);
  }

  /** The record that a failing readiness leaves. */
  lemma UnreadyRecord(q: Request, v: View, w: View, r: Result<Outcome, Error>)
    requires PlainHost(v) && IsPlain(q) && Replaces(q.kind) && StateReady(q, v.sys)
    requires Deployed(v, q.inst, ServingDigest(v, q.inst)) && ServingDigest(v, q.inst) != q.digest
    requires RanTo(q, AllBut(WriteCandidate(ReadinessSucceeded)), v, w, r)
    ensures q.inst in w.installs && w.installs[q.inst].lastGood == v.installs[q.inst].active
  {
    var late := WriteCandidate(ReadinessSucceeded);
    PlainRun(q, late, v);
    CleanSwap(late);
    FatalWrites(late);
    WritesDecide(q, AllBut(late), v);
  }

  lemma NoApproval(q: Request, v: View, w: View, r: Result<Outcome, Error>)
    requires PlainHost(v) && IsPlain(q) && Addressed(q, v) && StateReady(q, v.sys) && RanTo(q, CLEAN, v, w, r)
    ensures r != Ok(RequiresApproval)
  {
    PlainRun(q, AuditFailure, v);
  }

  lemma StuckRefuses(q: Request, ok: Oracle, v: View, w: View, r: Result<Outcome, Error>)
    requires RanTo(q, ok, v, w, r) && Replaces(q.kind) && Stuck(v, q.inst) && v.installs[q.inst].active != Some(q.digest)
    requires r != Ok(RequiresApproval)
    ensures r.Err? && Stuck(w, q.inst) && KeptFor(q.inst, v, w)
  {
    StuckStays(q, ok, v, w, r, q.inst);
    OutcomeKinds(r);
  }

  /** Another installation's active candidate for the recorded bytes frees a stuck installation. */
  lemma SharedBytes(v: View, w: View, i: Inst, j: Inst, d: Digest)
    requires Stuck(v, i) && v.installs[i].active == Some(d) && i in v.active && v.active[i].digest == d
    requires KeptFor(i, v, w) && Deployed(w, j, d)
    ensures Deployed(w, i, d)
  {
  }

  lemma StateUntouched(q: Request, ok: Oracle, v: View, w: View)
    requires StoreMoves(q, ok, v, w) && q.about.schema.None?
    ensures w.sys == v.sys
  {
  }

  /** A host with nothing installed; the state store holds `data`. */
  method EmptyHost(data: map<nat, St.Data>) returns (p: Pipeline)
    requires St.DbOk(St.Db(data, None, 0))
    ensures p.Valid() && fresh(p) && fresh(p.composition) && fresh(p.migration) && fresh(p.migration.world)
    ensures PlainHost(p.Look()) && p.installs == map[]
    ensures p.Look().sys == M.Sys(St.Db(data, None, 0), {}, [], false)
  {
    var world := new StateService.World(St.Db(data, None, 0), false);
    var migration := new StateService.MigrationService(world);
    var composition := new C.CompositionService(P.Rules(map[], {}));
    p := new Pipeline(composition, migration);
  }

  /** An installation of the bytes `d`. */
  method DeployOn(p: Pipeline, i: Inst, d: Digest) returns (installed: bool)
    requires p.Valid() && PlainHost(p.Look()) && i !in p.installs
    modifies p, p.composition, p.migration.world
    ensures p.Valid() && installed && PlainHost(p.Look()) && Deployed(p.Look(), i, d)
    ensures p.installs[i].lastGood == Some(d)
    ensures forall j :: j != i ==> KeptFor(j, old(p.Look()), p.Look())
    ensures forall j :: j in p.installs ==> j in old(p.installs) || j == i
    ensures p.Look().sys == old(p.Look()).sys
  {
    var service := new InstallService(p);
    ghost var v, q := p.Look(), PlainRequest(Kind.Install, i, d);
    var r := service.Install(i, Bytes(d, Explicit({})), CLEAN);
    installed := r.Ok?;
    ghost var outcome := if r.Ok? then Ok(Activated) else Err(r.error);
    PlainInstallServes(q, v);
    InstallDeploys(q, CLEAN, v, p.Look(), outcome);
    PlainStays(q, CLEAN, v, p.Look(), outcome);
    KeptForOthers(q, CLEAN, v, p.Look(), outcome);
    NoOthersAppear(q, CLEAN, v, p.Look(), outcome);
    StateUntouched(q, CLEAN, v, p.Look());
  }

  /** An upgrade to the bytes `d`. */
  method UpgradeOn(s: UpgradeService, i: Inst, d: Digest) returns (r: Result<UpgradeOutcome, Error>)
    requires s.pipeline.Valid() && PlainHost(s.pipeline.Look())
    requires Deployed(s.pipeline.Look(), i, ServingDigest(s.pipeline.Look(), i)) && d != ServingDigest(s.pipeline.Look(), i)
    modifies s.pipeline, s.pipeline.composition, s.pipeline.migration.world
    ensures s.pipeline.Valid() && PlainHost(s.pipeline.Look()) && Deployed(s.pipeline.Look(), i, d)
    ensures r == Ok(Swapped(ServingDigest(old(s.pipeline.Look()), i), d))
    ensures s.pipeline.installs[i].lastGood == Some(ServingDigest(old(s.pipeline.Look()), i))
  {
    ghost var v, q := s.pipeline.Look(), PlainRequest(Kind.Upgrade, i, d);
    r := s.Upgrade(i, Bytes(d, ReuseExisting), CLEAN);
    PlainSwapServes(q, v);
    SwapDeploys(q, CLEAN, v, s.pipeline.Look(), r);
    PlainStays(q, CLEAN, v, s.pipeline.Look(), RunOutcome(r));
  }

  /** A plain rollback succeeds, and leaves the installation fit for the next. */
  lemma RollbackDeploys(q: Request, v: View)
    requires PlainHost(v) && IsPlain(q) && q.kind.Rollback? && StateReady(q, v.sys)
    requires Deployed(v, q.inst, ServingDigest(v, q.inst)) && ServingDigest(v, q.inst) != q.digest
    ensures Reverts(q, CLEAN, v)
    ensures forall w :: RanTo(q, CLEAN, v, w, Ok(Activated)) ==> PlainHost(w) && Deployed(w, q.inst, q.digest)
  {
    CleanWrites();
    PlainSwapServes(q, v);
    forall w | RanTo(q, CLEAN, v, w, Ok(Activated)) ensures PlainHost(w) && Deployed(w, q.inst, q.digest) {
      ServedDeploys(q, CLEAN, v, w, Ok(Activated));
      PlainStays(q, CLEAN, v, w, Ok(Activated));
    }
  }

  /** An upgrade to the bytes `d` that fails at the write `late`. */
  method FailOn(s: UpgradeService, i: Inst, d: Digest, late: Stage) returns (r: Result<UpgradeOutcome, Error>)
    requires s.pipeline.Valid() && PlainHost(s.pipeline.Look()) && Fatal(late)
    requires Deployed(s.pipeline.Look(), i, ServingDigest(s.pipeline.Look(), i)) && d != ServingDigest(s.pipeline.Look(), i)
    modifies s.pipeline, s.pipeline.composition, s.pipeline.migration.world
    ensures s.pipeline.Valid() && PlainHost(s.pipeline.Look())
    ensures r.Err? && Stuck(s.pipeline.Look(), i) && s.pipeline.active == old(s.pipeline.active)
    ensures s.pipeline.installs[i].active ==
              Some(if late == UpdateRecord then ServingDigest(old(s.pipeline.Look()), i) else d)
    ensures late != UpdateRecord ==> s.pipeline.installs[i].lastGood == old(s.pipeline.installs)[i].active
    ensures forall j :: j in s.pipeline.installs ==> j in old(s.pipeline.installs)
  {
    ghost var v := s.pipeline.Look();
    r := s.Upgrade(i, Bytes(d, ReuseExisting), AllBut(late));
    FailedAs(PlainRequest(Kind.Upgrade, i, d), late, v, s.pipeline.Look(), RunOutcome(r));
  }

  lemma FailedAs(q: Request, late: Stage, v: View, w: View, r: Result<Outcome, Error>)
    requires Fatal(late) && PlainHost(v) && IsPlain(q) && Replaces(q.kind) && StateReady(q, v.sys)
    requires Deployed(v, q.inst, ServingDigest(v, q.inst)) && ServingDigest(v, q.inst) != q.digest
    requires RanTo(q, AllBut(late), v, w, r)
    ensures r.Err? && PlainHost(w) && Stuck(w, q.inst) && w.active == v.active
    ensures forall j :: j in w.installs ==> j in v.installs
    ensures w.installs[q.inst].active == Some(if late == UpdateRecord then ServingDigest(v, q.inst) else q.digest)
    ensures late != UpdateRecord ==> w.installs[q.inst].lastGood == v.installs[q.inst].active
  {
    PlainFailure(q, late, v, w, r);
    PlainStays(q, AllBut(late), v, w, r);
    NoOthersAppear(q, AllBut(late), v, w, r);
    if late != UpdateRecord { UnreadyRecord(q, v, w, r); }
  }

  lemma NoOthersAppear(q: Request, ok: Oracle, v: View, w: View, r: Result<Outcome, Error>)
    requires RanTo(q, ok, v, w, r) && Addressed(q, v)
    ensures forall j :: j in w.installs ==> j in v.installs || j == q.inst
  {
    RunTouchesOne(q, ok, v, w, r);
  }

  /** An upgrade of a stuck installation, with no call failing. */
  method RefusedOn(s: UpgradeService, i: Inst, d: Digest) returns (r: Result<UpgradeOutcome, Error>)
    requires s.pipeline.Valid() && PlainHost(s.pipeline.Look())
    requires Stuck(s.pipeline.Look(), i) && d != ServingDigest(s.pipeline.Look(), i)
    modifies s.pipeline, s.pipeline.composition, s.pipeline.migration.world
    ensures s.pipeline.Valid() && PlainHost(s.pipeline.Look()) && r.Err? && Stuck(s.pipeline.Look(), i)
    ensures KeptFor(i, old(s.pipeline.Look()), s.pipeline.Look())
    ensures forall j :: j in s.pipeline.installs ==> j in old(s.pipeline.installs)
  {
    ghost var v, q := s.pipeline.Look(), PlainRequest(Kind.Upgrade, i, d);
    r := s.Upgrade(i, Bytes(d, ReuseExisting), CLEAN);
    NoApproval(q, v, s.pipeline.Look(), RunOutcome(r));
    StuckRefuses(q, CLEAN, v, s.pipeline.Look(), RunOutcome(r));
    PlainStays(q, CLEAN, v, s.pipeline.Look(), RunOutcome(r));
    NoOthersAppear(q, CLEAN, v, s.pipeline.Look(), RunOutcome(r));
  }

  /** A rollback of a stuck installation, with no call failing. */
  method NotRolledBack(s: UpgradeService, i: Inst, d: Digest) returns (r: Result<UpgradeOutcome, Error>)
    requires s.pipeline.Valid() && PlainHost(s.pipeline.Look())
    requires Stuck(s.pipeline.Look(), i) && d != ServingDigest(s.pipeline.Look(), i)
    requires s.pipeline.installs[i].lastGood == Some(d)
    modifies s.pipeline, s.pipeline.composition, s.pipeline.migration.world
    ensures s.pipeline.Valid() && r.Err? && Stuck(s.pipeline.Look(), i)
    ensures KeptFor(i, old(s.pipeline.Look()), s.pipeline.Look())
  {
    ghost var v, q := s.pipeline.Look(), PlainRequest(Kind.Rollback, i, d);
    CleanWrites();
    r := s.Rollback(i, Bytes(d, ReuseExisting), CLEAN);
    NoApproval(q, v, s.pipeline.Look(), RunOutcome(r));
    StuckRefuses(q, CLEAN, v, s.pipeline.Look(), RunOutcome(r));
  }

  /** An upgrade that fails at `late`, and one to other bytes in which no call fails. */
  method FailThenTry(s: UpgradeService, late: Stage)
      returns (failed: Result<UpgradeOutcome, Error>, refused: Result<UpgradeOutcome, Error>)
    requires s.pipeline.Valid() && PlainHost(s.pipeline.Look()) && Fatal(late) && Deployed(s.pipeline.Look(), 1, 1)
    modifies s.pipeline, s.pipeline.composition, s.pipeline.migration.world
    ensures s.pipeline.Valid() && PlainHost(s.pipeline.Look())
    ensures failed.Err? && refused.Err? && Stuck(s.pipeline.Look(), 1)
    ensures 1 in s.pipeline.active && s.pipeline.active[1].digest == 1
    ensures s.pipeline.installs[1].active == Some(if late == UpdateRecord then 1 else 2)
    ensures late != UpdateRecord ==> s.pipeline.installs[1].lastGood == Some(1)
    ensures forall j :: j in s.pipeline.installs ==> j in old(s.pipeline.installs)
  {
    failed := FailOn(s, 1, 2, late);
    refused := RefusedOn(s, 1, 3);
  }

  /** Installed, upgraded with a failing record update, and refused from then on. */
  method StuckHost() returns (s: UpgradeService, failed: Result<UpgradeOutcome, Error>,
                              refused: Result<UpgradeOutcome, Error>)
    ensures fresh(s) && fresh(s.pipeline) && fresh(s.pipeline.composition) && fresh(s.pipeline.migration.world)
    ensures s.pipeline.Valid() && PlainHost(s.pipeline.Look()) && 2 !in s.pipeline.installs
    ensures failed.Err? && refused.Err? && Stuck(s.pipeline.Look(), 1) && s.pipeline.installs[1].active == Some(1)
    ensures 1 in s.pipeline.active && s.pipeline.active[1].digest == 1
  {
    var p := EmptyHost(map[]);
    var _ := DeployOn(p, 1, 1);
    assert 2 !in p.installs;
    s := new UpgradeService(p);
    failed, refused := FailThenTry(s, UpdateRecord);
  }

  /** Such an installation is freed by a second installation of the recorded bytes. */
  method FailedRecord() returns (failed: Result<UpgradeOutcome, Error>, refused: Result<UpgradeOutcome, Error>,
                                 freed: Result<UpgradeOutcome, Error>)
    ensures failed.Err? && refused.Err? && freed == Ok(Swapped(1, 3))
  {
    var upgrade;
    upgrade, failed, refused := StuckHost();
    Relieve(upgrade.pipeline);
    freed := UpgradeOn(upgrade, 1, 3);
  }

  /** A second installation of the recorded bytes. */
  method Relieve(p: Pipeline)
    requires p.Valid() && PlainHost(p.Look()) && 2 !in p.installs
    requires Stuck(p.Look(), 1) && p.installs[1].active == Some(1) && 1 in p.active && p.active[1].digest == 1
    modifies p, p.composition, p.migration.world
    ensures p.Valid() && PlainHost(p.Look()) && Deployed(p.Look(), 1, 1)
  {
    ghost var v := p.Look();
    var _ := DeployOn(p, 2, 1);
    SharedBytes(v, p.Look(), 1, 2, 1);
  }

  /** With the readiness unwritten the record names bytes that do not serve: upgrading to them is answered as done, and
      neither other bytes nor a rollback can replace them. */
  method FailedReadiness() returns (failed: Result<UpgradeOutcome, Error>, refused: Result<UpgradeOutcome, Error>,
                                    same: Result<UpgradeOutcome, Error>, back: Result<UpgradeOutcome, Error>,
                                    recorded: Option<Digest>, serving: Digest)
    ensures failed.Err? && refused.Err? && same == Ok(NoOp) && back.Err? && recorded == Some(2) && serving == 1
  {
    var p := EmptyHost(map[]);
    var upgrade := new UpgradeService(p);
    var _ := DeployOn(p, 1, 1);
    failed, refused := FailThenTry(upgrade, WriteCandidate(ReadinessSucceeded));
    same := upgrade.Upgrade(1, Bytes(2, ReuseExisting), CLEAN);
    back := NotRolledBack(upgrade, 1, 1);
    recorded, serving := p.installs[1].active, p.active[1].digest;
  }

  /** Two rollbacks that both succeed. */
  method BackAndForth() returns (both: bool)
    ensures both
  {
    var p := EmptyHost(map[]);
    var upgrade := new UpgradeService(p);
    var _ := DeployOn(p, 1, 1);
    var _ := UpgradeOn(upgrade, 1, 2);
    ghost var v := p.Look();
    RollbackDeploys(PlainRequest(Kind.Rollback, 1, 1), v);
    ghost var between;
    both, between := upgrade.RollbackTwice(1, Bytes(1, ReuseExisting), Bytes(2, ReuseExisting), CLEAN, CLEAN);
    RollbackDeploys(PlainRequest(Kind.Rollback, 1, 2), between);
  }

  lemma MigrationReaches(q: Request, late: Stage, sys: M.Sys)
    requires Late(late) && Behind(q, sys.db) && StateReady(q, sys)
    ensures PhaseCommits(q, AllBut(late), sys)
  {
    CleanGate(late);
    CleanMigration(late);
    assert R.GuestReached(sys, PlanOf(q, sys.db), MigrationFaults(AllBut(late)));
  }

  lemma PlainPhaseRuns(q: Request, late: Stage, v: View)
    requires Late(late) && PlainHost(v) && IsPlain(q) && Addressed(q, v) && StateReady(q, v.sys)
    ensures PhaseRuns(q, AllBut(late), v)
  {
    PlainRun(q, late, v);
  }

  /** An upgrade to schema 2 over a store at schema 1. */
  function Migrating(): Request { AsRequest(Kind.Upgrade, 1, Offer(2, ReuseExisting, Plain(2, Some(2)))) }

  lemma MigratingIsReady(sys: M.Sys)
    requires sys == M.Sys(St.Db(map[1 := St.Data(map[], Some(1))], None, 0), {}, [], false)
    ensures Behind(Migrating(), sys.db) && StateReady(Migrating(), sys)
    ensures M.Wrote(St.DataAt(sys.db, 1).rows, 2, GuestOf(Migrating(), sys.db).writes)
  {
  }

  lemma MigratingLocksOut(v: View, w: View, r: Result<Outcome, Error>)
    requires v.sys == M.Sys(St.Db(map[1 := St.Data(map[], Some(1))], None, 0), {}, [], false)
    requires PlainHost(v) && 1 in v.installs && RanTo(Migrating(), AllBut(UpdateRecord), v, w, r)
    ensures StateService.VersionCheck(w.sys, 1, 1) == Some(StateService.UnsupportedSchemaVersion)
  {
    MigratingIsReady(v.sys);
    PlainPhaseRuns(Migrating(), UpdateRecord, v);
    MigrationReaches(Migrating(), UpdateRecord, v.sys);
    LockedOutExactly(Migrating(), AllBut(UpdateRecord), v, w, r, 1);
  }

  /** The first version's state is at schema 1; an upgrade migrates it to schema 2 and then fails to write the record.
      The first version serves on and is refused its state. */
  method LockedOut() returns (failed: Result<UpgradeOutcome, Error>, serving: Digest, check: Option<StateService.Error>)
    ensures failed.Err? && serving == 1 && check == Some(StateService.UnsupportedSchemaVersion)
  {
    var p := EmptyHost(map[1 := St.Data(map[], Some(1))]);
    var upgrade := new UpgradeService(p);
    var _ := DeployOn(p, 1, 1);
    ghost var v := p.Look();
    MigratingIsReady(v.sys);
    failed := upgrade.Upgrade(1, Offer(2, ReuseExisting, Plain(2, Some(2))), AllBut(UpdateRecord));
    FailedAs(Migrating(), UpdateRecord, v, p.Look(), RunOutcome(failed));
    MigratingLocksOut(v, p.Look(), RunOutcome(failed));
    serving := p.active[1].digest;
    check := StateService.VersionCheck(p.Look().sys, 1, 1);
  }
}
