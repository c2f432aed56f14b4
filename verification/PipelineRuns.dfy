/**
 What pipeline runs come to: what one run can touch, when an error leaves a new snapshot, when an installation gets
 stuck, when record and snapshot part, and when the serving version is locked out of its state; and the same over whole
 histories of runs of any installations.
 */
module PipelineRuns {
  import opened Prelude
  import opened PipelineModel
  import opened PipelineSpec
  import C = Composition
  import P = GraphPolicy
  import St = StateStore
  import M = Migration
  import R = MigrationRuns
  import StateService

  /** An install is for a new installation, everything else for an existing one. */
  predicate Addressed(q: Request, v: View) { q.kind.Install? <==> q.inst !in v.installs }

  // ---- one installation, no way back ----

  lemma EndOfKnown(q: Request, ok: Oracle, v: View)
    requires !EndOf(q, ok, v).Unprepared?
    ensures Prepares(q, ok, v) && EndOf(q, ok, v) == RestOf(q, ok, v)
    ensures !q.kind.Install? ==> q.inst in v.installs && v.installs[q.inst].component == q.about.component
  {
  }

  lemma EndTouchesOne(q: Request, ok: Oracle, end: End, v: View, w: View, r: Result<Outcome, Error>)
    requires EndsAs(q, ok, end, v, w, r) && Addressed(q, v)
    requires !end.Unprepared? && !q.kind.Install? ==> v.installs[q.inst].component == q.about.component
    ensures OthersKept(v.active, w.active, q.inst) && OthersKept(v.installs, w.installs, q.inst)
    ensures OthersKept(v.grants, w.grants, q.inst) && BindingsKept(v.bindings, w.bindings)
    ensures q.inst in v.installs ==> q.inst in w.installs && w.installs[q.inst].component == v.installs[q.inst].component
  {
  }

  lemma StoreStepGrows(q: Request, ran: bool, committed: bool, a: M.Sys, b: M.Sys)
    requires StoreStep(q, ran, committed, a, b)
    ensures forall i :: St.VersionGrows(St.StoredVersion(a.db, i), St.StoredVersion(b.db, i))
  {
  }

  /** A run touches no other installation, keeps every version binding and every installation's component, and takes
      no stored schema version back. */
  lemma RunTouchesOne(q: Request, ok: Oracle, v: View, w: View, r: Result<Outcome, Error>)
    requires RanTo(q, ok, v, w, r) && Addressed(q, v)
    ensures OthersKept(v.active, w.active, q.inst) && OthersKept(v.installs, w.installs, q.inst)
    ensures OthersKept(v.grants, w.grants, q.inst) && BindingsKept(v.bindings, w.bindings)
    ensures q.inst in v.installs ==> q.inst in w.installs && w.installs[q.inst].component == v.installs[q.inst].component
    ensures forall i :: St.VersionGrows(St.StoredVersion(v.sys.db, i), St.StoredVersion(w.sys.db, i))
  {
    if !EndOf(q, ok, v).Unprepared? { EndOfKnown(q, ok, v); }
    EndTouchesOne(q, ok, EndOf(q, ok, v), v, w, r);
    StoreStepGrows(q, PhaseRuns(q, ok, v), PhaseCommits(q, ok, v.sys), v.sys, w.sys);
  }

  // ---- what is reported ----

  /** A component that declares a schema version runs over a store at that version, if it had a version at all,
      exactly when the store was there already or the migration wrote something. */
  predicate EndsAtDeclaredVersion(q: Request, before: St.Db, after: St.Db) {
    var stored, declared := St.StoredVersion(before, q.inst), q.about.schema;
    var rows := St.DataAt(before, q.inst).rows;
    stored.Some? && declared.Some? ==>
      && stored.value <= declared.value
      && (St.StoredVersion(after, q.inst) == declared <==>
            stored == declared || M.Wrote(rows, declared.value, q.about.migrate(rows).writes))
  }

  lemma PassedPhaseEnds(q: Request, ok: Oracle, a: M.Sys, b: M.Sys)
    requires PhasePasses(q, ok, a) && StoreStep(q, true, PhaseCommits(q, ok, a), a, b)
    ensures EndsAtDeclaredVersion(q, a.db, b.db)
  {
  }

  /** Record, graph and snapshot are the request's own. */
  predicate ActivatedTo(q: Request, v: View, w: View) {
    && w.active == v.active[q.inst := NewEntry(q)]
    && w.installs == v.installs[q.inst := Activation(q, NextLastGood(q, v.installs))]
    && w.stored == RecordsAfter(q, v.stored)
  }

  predicate Serves(q: Request, v: View, w: View) {
    ActivatedTo(q, v, w) && NewlyServed(q, v, w) && EndsAtDeclaredVersion(q, v.sys.db, w.sys.db)
  }

  /** Field by field what an installation that has just been served looks like: record and serving entry carry the
      request's component, version and digest, every part of the entry is made of those bytes, and what was recorded before
      an upgrade is the last known good. */
  predicate NewlyServed(q: Request, v: View, w: View) {
    && q.inst in w.installs && q.inst in w.active
    && w.stored == C.Replaced(v.stored, q.inst, q.about.provided, q.about.required)
    && var record, entry := w.installs[q.inst], w.active[q.inst];
       && record.component == q.about.component && record.version == q.about.version
       && record.active == Some(q.digest) && record.state == Active
       && entry.digest == q.digest && entry.version == q.about.version
       && entry.runtime.from == q.digest && entry.manifest.from == q.digest && entry.webApp.from == q.digest
       && record.lastGood == (if q.kind.Install? then Some(q.digest)
                              else if q.inst !in v.installs then Some(q.digest)
                              else if q.kind.Enable? then v.installs[q.inst].lastGood
                              else v.installs[q.inst].active)
  }

  lemma ServedRecordAndEntry(q: Request, ok: Oracle, v: View, w: View, r: Result<Outcome, Error>)
    requires RanTo(q, ok, v, w, r) && Addressed(q, v) && EndOf(q, ok, v).Served?
    ensures NewlyServed(q, v, w)
  {
    EndReports(q, ok, EndOf(q, ok, v), v, w, r);
  }

  /** Record, snapshot and graph are as before. */
  predicate Unmoved(v: View, w: View) { w.active == v.active && w.installs == v.installs && w.stored == v.stored }

  lemma EndReports(q: Request, ok: Oracle, end: End, v: View, w: View, r: Result<Outcome, Error>)
    requires EndsAs(q, ok, end, v, w, r) && Addressed(q, v)
    requires end == Served(false) ==> Replaces(q.kind)
    ensures r == Ok(Activated) <==> end == Served(true) || end == AlreadyServing
    ensures end.Served? ==> ActivatedTo(q, v, w)
    ensures end == AlreadyServing && !q.kind.Install? ==> Unmoved(v, w)
    ensures r.Err? && DrainError(r.error) <==> end == Served(false)
    ensures r.Err? && !DrainError(r.error) ==> w.active == v.active
  {
  }

  lemma PreparedRunEnds(q: Request, ok: Oracle, v: View, w: View)
    requires Prepares(q, ok, v) && StoreMoves(q, ok, v, w)
    ensures EndsAtDeclaredVersion(q, v.sys.db, w.sys.db)
  {
    PassedPhaseEnds(q, ok, v.sys, w.sys);
  }

  lemma ApprovalMovesNothing(q: Request, ok: Oracle, v: View, w: View, r: Result<Outcome, Error>)
    requires EndsAs(q, ok, Unprepared, v, w, r) && StoreMoves(q, ok, v, w) && AwaitsApproval(q, ok, v)
    ensures Unmoved(v, w) && w.sys == v.sys
  {
  }

  /** A success serves the request completely, or found it served already.  An error of the final drain leaves the new
      version serving completely; any other error leaves the snapshot alone.  Waiting for approval moves nothing. */
  lemma RunReports(q: Request, ok: Oracle, v: View, w: View, r: Result<Outcome, Error>)
    requires RanTo(q, ok, v, w, r) && Addressed(q, v)
    ensures r == Ok(Activated) <==> EndOf(q, ok, v) == Served(true) || EndOf(q, ok, v) == AlreadyServing
    ensures EndOf(q, ok, v).Served? ==> Serves(q, v, w)
    ensures EndOf(q, ok, v) == AlreadyServing ==> Unmoved(v, w)
    ensures r.Err? && DrainError(r.error) ==> Replaces(q.kind) && Serves(q, v, w)
    ensures r.Err? && !DrainError(r.error) ==> w.active == v.active
    ensures r == Ok(RequiresApproval) ==> Unmoved(v, w) && w.sys == v.sys
  {
    var end := EndOf(q, ok, v);
    RestKinds(q, ok, v);
    EndReports(q, ok, end, v, w, r);
    if !end.Unprepared? {
      EndOfKnown(q, ok, v);
      PreparedRunEnds(q, ok, v, w);
      if end.Served? { ServedRecordAndEntry(q, ok, v, w, r); }
    } else if r == Ok(RequiresApproval) {
      ApprovalMovesNothing(q, ok, v, w, r);
    }
  }

  /** What a run has found before it activates anything: the component is the installation's own, its version is free or
      these bytes', the records with it have a graph under the policy, its imports are granted, its two schema
      declarations agree, and its state is not ahead of them. */
  lemma PreparedIsSound(q: Request, ok: Oracle, v: View)
    requires Prepares(q, ok, v)
    ensures q.kind.Install? ==> q.approval.Explicit?
    ensures !q.kind.Install? ==> q.inst in v.installs && v.installs[q.inst].component == q.about.component
    ensures (q.about.component, q.about.version) in v.bindings ==>
              v.bindings[(q.about.component, q.about.version)] == q.digest
    ensures exists g :: C.IsGraphOf(C.Replaced(v.stored, q.inst, q.about.provided, q.about.required), v.rules, g)
    ensures q.about.imports <= if q.approval.Explicit? then q.approval.grants
                               else if q.inst in v.grants then v.grants[q.inst] else {}
    ensures q.about.schema == q.about.schemaAgain
    ensures var stored := St.StoredVersion(v.sys.db, q.inst);
            stored.Some? && q.about.schema.Some? ==> stored.value <= q.about.schema.value
  {
  }

  /** The calls a request goes through on its way to being served. */
  predicate Needs(q: Request, s: Stage) {
    match s
    case Insert => q.kind.Install?
    case LoadGrants => q.approval.ReuseExisting?
    case AuditGrants => q.approval.Explicit?
    case StoreGrants => q.approval.Explicit?
    case SchemaStore => q.about.schema.Some?
    case AuditDrain => Replaces(q.kind)
    case Drain => Replaces(q.kind)
    case AuditDrained => Replaces(q.kind)
    case ReadCandidate(e) => NeedsMove(q, e)
    case WriteCandidate(e) => NeedsMove(q, e)
    case MigrationRead => false
    case MigrationBegin => false
    case MigrationStarted => false
    case MigrationEnded => false
    case MigrationCommit => false
    case MigrationAbort => false
    case MigrationFailed => false
    case AuditFailure => false
    case ReadArtifact => false
    case _ => true
  }

  predicate NeedsMove(q: Request, e: Event) {
    match e
    case ValidationSucceeded => true
    case ActivationRequested => true
    case ReadinessSucceeded => true
    case DrainStarted => Replaces(q.kind)
    case DrainCompleted => Replaces(q.kind)
    case _ => false
  }

  /** The calls of the activation itself. */
  predicate OfActivation(s: Stage) {
    match s
    case GraphLoad => true
    case GraphAudit => true
    case GraphStore => true
    case AuditSwap => true
    case AuditManifest => true
    case UpdateRecord => true
    case AuditDrain => true
    case Drain => true
    case AuditDrained => true
    case ReadCandidate(e) => e.ReadinessSucceeded? || e.DrainStarted? || e.DrainCompleted?
    case WriteCandidate(e) => e.ReadinessSucceeded? || e.DrainStarted? || e.DrainCompleted?
    case _ => false
  }

  lemma PreparingNeeds(q: Request, ok: Oracle, v: View, s: Stage)
    requires Prepares(q, ok, v) && Needs(q, s) && !OfActivation(s)
    ensures ok(s)
  {
  }

  lemma ActivatingNeeds(q: Request, ok: Oracle, v: View, s: Stage)
    requires RestOf(q, ok, v) == Served(true) && Needs(q, s) && OfActivation(s)
    ensures ok(s)
  {
  }

  /** Nothing serves without having gone through every check, every audit and every write: a run that ends serving with
      nothing behind it failing has had none of its calls fail, and has replaced something that served. */
  lemma ServedPassedEverything(q: Request, ok: Oracle, v: View, s: Stage)
    requires EndOf(q, ok, v) == Served(true)
    ensures Needs(q, s) ==> ok(s)
    ensures Replaces(q.kind) ==> q.inst in v.active && StateOf(v.candidates, Previous(q, v.installs)) == Some(Active)
  {
    RestKnown(q, ok, v);
    if Needs(q, s) {
      if OfActivation(s) { ActivatingNeeds(q, ok, v, s); } else { PreparingNeeds(q, ok, v, s); }
    }
  }

  /** A run that does not get to the activation leaves at most a record for its new installation that serves nothing. */
  lemma UnpreparedLeavesNoActivation(q: Request, ok: Oracle, v: View, w: View, r: Result<Outcome, Error>)
    requires RanTo(q, ok, v, w, r) && EndOf(q, ok, v).Unprepared?
    ensures w.active == v.active
    ensures w.installs != v.installs ==>
      && q.kind.Install? && q.inst in w.installs
      && w.installs[q.inst] == Record(q.about.component, q.about.version, None, None, Validated)
      && w.installs == v.installs[q.inst := w.installs[q.inst]]
  {
  }

  /** Whatever a run gets to activate imports only capabilities the installation has been granted; a run that does not
      get there leaves the grants alone. */
  lemma OnlyGrantedIsServed(q: Request, ok: Oracle, v: View, w: View, r: Result<Outcome, Error>)
    requires RanTo(q, ok, v, w, r)
    ensures Prepares(q, ok, v) ==> q.about.imports <= if q.inst in w.grants then w.grants[q.inst] else {}
    ensures EndOf(q, ok, v).Served? ==> Prepares(q, ok, v)
    ensures !Prepares(q, ok, v) ==> w.grants == v.grants
  {
    RestKnown(q, ok, v);
    GrantedCovers(q, v.grants);
  }

  lemma RestKnown(q: Request, ok: Oracle, v: View)
    ensures EndOf(q, ok, v).Unprepared? <==> !Prepares(q, ok, v)
    ensures Prepares(q, ok, v) ==> Linkable(q, ok, v.grants)
  {
  }

  lemma GrantedCovers(q: Request, grants: map<Inst, set<nat>>)
    ensures GrantsOf(q, grants) == if q.inst in Granted(q, grants) then Granted(q, grants)[q.inst] else {}
  {
  }

  lemma RestKinds(q: Request, ok: Oracle, v: View)
    ensures EndOf(q, ok, v) == AlreadyServing || EndOf(q, ok, v) == Served(false) ==> Replaces(q.kind)
  {
  }

  // ---- installations that are stuck ----

  predicate Serving(installs: map<Inst, Record>, i: Inst) {
    i in installs && installs[i].state == Active && installs[i].active.Some?
  }

  /** An active installation whose recorded candidate cannot start draining, so that nothing can replace it. */
  predicate Stuck(v: View, i: Inst) {
    Serving(v.installs, i) && StateOf(v.candidates, v.installs[i].active) != Some(Active)
  }

  /** When a run leaves the installation `i` stuck.  Candidates belong to bytes, not to installations: a run of the same
      bytes, for whomever, starts the candidate over, and replacing the same bytes elsewhere drains it. */
  predicate StuckAfter(q: Request, ok: Oracle, end: End, v: View, i: Inst)
    requires Serving(v.installs, i)
  {
    var d := v.installs[i].active.value;
    if q.digest == d then !end.Served? && (Admitted(q, ok) || Stuck(v, i))
    else if q.inst == i then end.Unready? || (Replaces(q.kind) && end.Unrecorded?) || (!end.Served? && Stuck(v, i))
    else Stuck(v, i) || (Previous(q, v.installs) == Some(d) && DrainBegun(end))
  }

  lemma OwnRunSticks(q: Request, ok: Oracle, end: End, v: View, w: View, r: Result<Outcome, Error>)
    requires EndsAs(q, ok, end, v, w, r) && Addressed(q, v) && Serving(v.installs, q.inst)
    ensures Serving(w.installs, q.inst) && (Stuck(w, q.inst) <==> StuckAfter(q, ok, end, v, q.inst))
  {
  }

  lemma OtherRunSticks(q: Request, ok: Oracle, end: End, v: View, w: View, r: Result<Outcome, Error>, i: Inst)
    requires EndsAs(q, ok, end, v, w, r) && Addressed(q, v) && Serving(v.installs, i) && q.inst != i
    ensures Serving(w.installs, i) && (Stuck(w, i) <==> StuckAfter(q, ok, end, v, i))
  {
    var d := v.installs[i].active.value;
    assert w.installs[i] == v.installs[i];
    assert StateOf(w.candidates, Some(d)) == StateOf(w.candidates, v.installs[i].active);
  }

  /** Exactly when an installation is stuck after a run, whoever the run is for. */
  lemma StuckExactly(q: Request, ok: Oracle, v: View, w: View, r: Result<Outcome, Error>, i: Inst)
    requires RanTo(q, ok, v, w, r) && Addressed(q, v) && Serving(v.installs, i)
    ensures Serving(w.installs, i) && (Stuck(w, i) <==> StuckAfter(q, ok, EndOf(q, ok, v), v, i))
  {
    if q.inst == i {
      OwnRunSticks(q, ok, EndOf(q, ok, v), v, w, r);
    } else {
      OtherRunSticks(q, ok, EndOf(q, ok, v), v, w, r, i);
    }
  }

  /** The stages at which an installation's own upgrade or rollback to other bytes gets it stuck: the old candidate
      starts draining, and then the record or the new candidate's readiness cannot be written. */
  lemma ReplacementSticksExactly(q: Request, ok: Oracle, v: View, w: View, r: Result<Outcome, Error>)
    requires RanTo(q, ok, v, w, r) && Addressed(q, v) && Replaces(q.kind)
    requires Serving(v.installs, q.inst) && !Stuck(v, q.inst) && q.inst in v.active
    requires v.installs[q.inst].active != Some(q.digest)
    ensures Stuck(w, q.inst) <==>
      && Prepares(q, ok, v) && Commits(ok) && Announces(ok) && CanMove(ok, DrainStarted)
      && !(ok(UpdateRecord) && CanMove(ok, ReadinessSucceeded))
  {
    StuckExactly(q, ok, v, w, r, q.inst);
  }

  /** The record and the serving entry of `i` are as before. */
  predicate KeptFor(i: Inst, v: View, w: View) {
    && (i in v.installs <==> i in w.installs) && (i in v.installs ==> w.installs[i] == v.installs[i])
    && (i in v.active <==> i in w.active) && (i in v.active ==> w.active[i] == v.active[i])
  }

  /** Nothing can replace a stuck installation. */
  lemma StuckIsRefused(q: Request, ok: Oracle, v: View)
    requires Stuck(v, q.inst) && Replaces(q.kind) && v.installs[q.inst].active != Some(q.digest)
    ensures !DrainBegun(EndOf(q, ok, v))
  {
  }

  lemma KeptByEnd(q: Request, ok: Oracle, end: End, v: View, w: View, r: Result<Outcome, Error>, i: Inst)
    requires EndsAs(q, ok, end, v, w, r) && Addressed(q, v) && i in v.installs && (q.inst == i ==> !DrainBegun(end))
    ensures KeptFor(i, v, w)
  {
  }

  /** A stuck installation stays stuck, and serves what it served, through any run of other bytes: its own upgrades and
      rollbacks and whatever other installations do. */
  lemma StuckStays(q: Request, ok: Oracle, v: View, w: View, r: Result<Outcome, Error>, i: Inst)
    requires RanTo(q, ok, v, w, r) && Addressed(q, v) && Stuck(v, i)
    requires v.installs[i].active != Some(q.digest) && (q.inst == i ==> Replaces(q.kind))
    ensures Stuck(w, i) && KeptFor(i, v, w) && (q.inst == i ==> r != Ok(Activated))
  {
    StuckExactly(q, ok, v, w, r, i);
    if q.inst == i { StuckIsRefused(q, ok, v); }
    KeptByEnd(q, ok, EndOf(q, ok, v), v, w, r, i);
  }

  /** What frees it is exactly a run of its own bytes, for another installation, that ends serving. */
  lemma FreedExactly(q: Request, ok: Oracle, v: View, w: View, r: Result<Outcome, Error>, i: Inst)
    requires RanTo(q, ok, v, w, r) && Addressed(q, v) && Stuck(v, i) && (q.inst == i ==> Replaces(q.kind))
    ensures !Stuck(w, i) <==>
              q.inst != i && v.installs[i].active == Some(q.digest) && EndOf(q, ok, v).Served?
  {
    StuckExactly(q, ok, v, w, r, i);
  }

  // ---- record and snapshot ----

  /** The installations recorded as active are the ones that serve, each under its recorded digest and version. */
  ghost predicate Agrees(v: View) { forall i :: AgreesAt(v, i) }

  predicate AgreesAt(v: View, i: Inst) {
    && (i in v.active ==>
          && Serving(v.installs, i) && v.installs[i].active == Some(v.active[i].digest)
          && v.installs[i].version == v.active[i].version)
    && (Serving(v.installs, i) ==> i in v.active)
  }

  /** The installation does not serve these bytes under this version. */
  predicate OtherServes(q: Request, v: View) {
    q.inst in v.active ==> v.active[q.inst].digest != q.digest || v.active[q.inst].version != q.about.version
  }

  lemma EndAgrees(q: Request, ok: Oracle, end: End, v: View, w: View, r: Result<Outcome, Error>)
    requires EndsAs(q, ok, end, v, w, r) && Addressed(q, v) && AgreesAt(v, q.inst)
    ensures AgreesAt(w, q.inst) <==> !(end.Unready? && OtherServes(q, v))
  {
  }

  lemma OthersAgree(q: Request, v: View, w: View, i: Inst)
    requires OthersKept(v.active, w.active, q.inst) && OthersKept(v.installs, w.installs, q.inst)
    requires i != q.inst && AgreesAt(v, i)
    ensures AgreesAt(w, i)
  {
  }

  /** Record and snapshot part exactly when the record has moved to other bytes and the readiness could not be
      written. */
  lemma AgreesExactly(q: Request, ok: Oracle, v: View, w: View, r: Result<Outcome, Error>)
    requires RanTo(q, ok, v, w, r) && Addressed(q, v) && Agrees(v)
    ensures Agrees(w) <==>
              !(EndOf(q, ok, v).Unready? && OtherServes(q, v))
  {
    RunTouchesOne(q, ok, v, w, r);
    forall i | i != q.inst ensures AgreesAt(w, i) {
      assert AgreesAt(v, i);
      OthersAgree(q, v, w, i);
    }
    assert AgreesAt(v, q.inst);
    EndAgrees(q, ok, EndOf(q, ok, v), v, w, r);
    assert Agrees(w) <==> AgreesAt(w, q.inst);
  }

  // ---- state under the serving version ----

  /** The schema phase is reached, its migration commits, and the guest has written something. */
  ghost predicate LocksOut(q: Request, ok: Oracle, v: View) {
    && PhaseRuns(q, ok, v) && PhaseCommits(q, ok, v.sys)
    && M.Wrote(St.DataAt(v.sys.db, q.inst).rows, q.about.schema.value, GuestOf(q, v.sys.db).writes)
  }

  /** Exactly when a run leaves the version that was served before unable to use its state: the schema phase comes
      before everything that can still fail, so how the run ends plays no part. */
  lemma LockedOutExactly(q: Request, ok: Oracle, v: View, w: View, r: Result<Outcome, Error>, served: St.Version)
    requires RanTo(q, ok, v, w, r)
    requires q.inst !in v.sys.gate && St.StoredVersion(v.sys.db, q.inst) == Some(served)
    ensures StateService.VersionCheck(w.sys, q.inst, served) ==
              if LocksOut(q, ok, v) then Some(StateService.UnsupportedSchemaVersion) else None
  {
  }

  // ---- when nothing fails ----

  /** Every call succeeds, except perhaps this one. */
  function AllBut(stage: Stage): Oracle { s => s != stage }

  /** The writes of the record and of the new candidate's readiness, and a call only failing runs make. */
  predicate Late(stage: Stage) {
    stage == UpdateRecord || stage == WriteCandidate(ReadinessSucceeded) || stage == AuditFailure
  }

  /** The component is the installation's own, its version is not another digest's, and its imports are granted. */
  predicate Acceptable(q: Request, v: View) {
    && (q.kind.Install? ==> q.approval.Explicit?)
    && (!q.kind.Install? ==> q.inst in v.installs && v.installs[q.inst].component == q.about.component)
    && ((q.about.component, q.about.version) in v.bindings ==> Bound(v.bindings, q))
    && q.about.imports <= GrantsOf(q, v.grants)
  }

  /** The component's state can be brought to its declared version: both readings agree, and a store that is behind
      can be migrated by a guest that keeps its contract. */
  predicate StateReady(q: Request, sys: M.Sys) {
    var stored, declared := St.StoredVersion(sys.db, q.inst), q.about.schema;
    && declared == q.about.schemaAgain
    && (stored.Some? && declared.Some? && stored != declared ==>
          && stored.value < declared.value && sys.db.tx.None? && !sys.shared
          && GuestOf(q, sys.db).end.KeepsOpen? && GuestOf(q, sys.db).result.Ok?)
  }

  lemma CleanAdmission(q: Request, late: Stage)
    requires Late(late) && !(q.kind.Install? && q.approval.ReuseExisting?)
    ensures Admitted(q, AllBut(late))
  {
  }

  lemma CleanIdentity(q: Request, late: Stage, v: View)
    requires Late(late) && Acceptable(q, v)
    ensures Identified(q, AllBut(late), v.installs, v.bindings)
  {
  }

  lemma CleanLinks(q: Request, late: Stage, v: View)
    requires Late(late) && Acceptable(q, v)
    ensures Linkable(q, AllBut(late), v.grants)
  {
  }

  lemma CleanReadings(late: Stage)
    requires Late(late)
    ensures
      var ok := AllBut(late);
      ok(Instantiate) && ok(Readiness) && ok(Manifest) && ok(Assets) && ok(WebApp)
  {
  }

  lemma CleanLaunch(q: Request, late: Stage)
    requires Late(late)
    ensures Launches(q, AllBut(late))
  {
    CleanReadings(late);
    assert CanMove(AllBut(late), ActivationRequested);
  }

  lemma CleanSwap(late: Stage)
    requires Late(late)
    ensures
      var ok := AllBut(late);
      Commits(ok) && Announces(ok) && CanMove(ok, DrainStarted) && DrainsFully(ok)
  {
  }

  lemma CleanGate(late: Stage)
    requires Late(late)
    ensures
      var ok := AllBut(late);
      ok(GraphCheck) && ok(GateLoad) && ok(FirstSchema) && ok(SecondSchema) && ok(SchemaStore)
  {
  }

  lemma CleanMigration(late: Stage)
    requires Late(late)
    ensures MigrationFaults(AllBut(late)) == M.NO_FAULTS
  {
  }

  lemma PhaseWithoutFaults(q: Request, ok: Oracle, sys: M.Sys)
    requires ok(SchemaStore) && MigrationFaults(ok) == M.NO_FAULTS && StateReady(q, sys)
    ensures PhasePasses(q, ok, sys)
  {
    if Behind(q, sys.db) { assert R.GuestReached(sys, PlanOf(q, sys.db), MigrationFaults(ok)); }
  }

  /** Then the run gets to the writes around the swap. */
  lemma CleanRunPrepares(q: Request, late: Stage, v: View)
    requires Late(late) && Acceptable(q, v) && StateReady(q, v.sys)
    requires C.HasGraph(RecordsAfter(q, v.stored), v.rules)
    ensures Prepares(q, AllBut(late), v)
  {
    CleanAdmission(q, late);
    CleanIdentity(q, late, v);
    CleanGate(late);
    CleanLinks(q, late, v);
    CleanMigration(late);
    PhaseWithoutFaults(q, AllBut(late), v.sys);
    CleanLaunch(q, late);
  }

  // ---- histories ----

  datatype Step = Step(q: Request, ok: Oracle, before: View, after: View, r: Result<Outcome, Error>)

  ghost predicate IsStep(s: Step) { RanTo(s.q, s.ok, s.before, s.after, s.r) && Addressed(s.q, s.before) }

  /** Runs of any installations, one after the other. */
  ghost predicate History(steps: seq<Step>) {
    && (forall k :: 0 <= k < |steps| ==> IsStep(steps[k]))
    && (forall k :: 0 < k < |steps| ==> steps[k].before == steps[k - 1].after)
  }

  /** Runs that leave the bytes of `i` alone. */
  predicate OtherBytes(s: Step, i: Inst, d: Digest) { s.q.digest != d && (s.q.inst == i ==> Replaces(s.q.kind)) }

  lemma {:induction false} StuckOverHistories(steps: seq<Step>, i: Inst, d: Digest)
    requires History(steps) && steps != [] && Stuck(steps[0].before, i)
    requires steps[0].before.installs[i].active == Some(d)
    requires forall k :: 0 <= k < |steps| ==> OtherBytes(steps[k], i, d)
    ensures Stuck(steps[|steps| - 1].after, i) && KeptFor(i, steps[0].before, steps[|steps| - 1].after)
    decreases |steps|
  {
    var last := steps[|steps| - 1];
    if |steps| > 1 {
      var init := steps[..|steps| - 1];
      StuckOverHistories(init, i, d);
      assert last.before == steps[|steps| - 2].after;
    }
    assert IsStep(last) && OtherBytes(last, i, d);
    StuckStays(last.q, last.ok, last.before, last.after, last.r, i);
  }

  /** Over any history in which no run ends with its record moved and its readiness unwritten, record and snapshot
      agree throughout. */
  lemma {:induction false} AgreesOverHistories(steps: seq<Step>)
    requires History(steps) && steps != [] && Agrees(steps[0].before)
    requires forall k :: 0 <= k < |steps| ==> !EndOf(steps[k].q, steps[k].ok, steps[k].before).Unready?
    ensures Agrees(steps[|steps| - 1].after)
    decreases |steps|
  {
    var last := steps[|steps| - 1];
    if |steps| > 1 {
      var init := steps[..|steps| - 1];
      AgreesOverHistories(init);
      assert last.before == steps[|steps| - 2].after;
    }
    assert IsStep(last);
    AgreesExactly(last.q, last.ok, last.before, last.after, last.r);
  }
}
