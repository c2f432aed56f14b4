/**
 The operations an administrator calls: install, enable, upgrade and rollback, each a guard in front of the
 pipeline.
 */
module PipelineServices {
  import opened Prelude
  import opened PipelineModel
  import opened PipelineSpec
  import opened PipelineRuns
  import opened Pipeline
  import St = StateStore
  import StateService

  datatype UpgradeOutcome = NoOp | Swapped(from: Digest, to: Digest) | NeedsApproval

  /** What an outside observer gives a call: the bytes, the grants, and the component behind the bytes. */
  datatype Offer = Offer(digest: Digest, approval: Approval, about: About)

  function AsRequest(kind: Kind, i: Inst, o: Offer): Request { Request(kind, i, o.digest, o.approval, o.about) }

  /** The pipeline's outcome behind an answer. */
  function RunOutcome(r: Result<UpgradeOutcome, Error>): Result<Outcome, Error> {
    match r
    case Err(e) => Err(e)
    case Ok(outcome) => Ok(if outcome.NeedsApproval? then RequiresApproval else Activated)
  }

  /** The answer is that of the pipeline run: a swap names both digests and has moved record, graph, snapshot and state;
      any other success has moved nothing. */
  ghost predicate Answers(q: Request, ok: Oracle, v: View, w: View, r: Result<UpgradeOutcome, Error>) {
    && RanTo(q, ok, v, w, RunOutcome(r)) && r != Ok(NoOp)
    && (r.Ok? && r.value.Swapped? ==> Serves(q, v, w) && r.value == Swapped(ServingDigest(v, q.inst), q.digest))
    && (r == Ok(NeedsApproval) ==> Unmoved(v, w) && w.sys == v.sys)
  }

  function ServingDigest(v: View, i: Inst): Digest {
    if Serving(v.installs, i) then v.installs[i].active.value else 0
  }

  lemma SwapAnswers(q: Request, ok: Oracle, from: Digest, v: View, w: View, outcome: Result<Outcome, Error>,
                    r: Result<UpgradeOutcome, Error>)
    requires RanTo(q, ok, v, w, outcome) && Replaces(q.kind) && Serving(v.installs, q.inst)
    requires v.installs[q.inst].active == Some(from) && from != q.digest
    requires r == if outcome.Err? then Err(outcome.error)
                  else Ok(if outcome.value.Activated? then Swapped(from, q.digest) else NeedsApproval)
    ensures Answers(q, ok, v, w, r)
  {
    RunReports(q, ok, v, w, outcome);
    NotServedYet(q, ok, v);
    assert RunOutcome(r) == outcome;
  }

  lemma NotServedYet(q: Request, ok: Oracle, v: View)
    requires Previous(q, v.installs) != Some(q.digest)
    ensures EndOf(q, ok, v) != AlreadyServing
  {
  }

  lemma InstallNeedsNoApproval(q: Request, ok: Oracle, v: View, w: View, r: Result<Outcome, Error>)
    requires RanTo(q, ok, v, w, r) && q.kind.Install?
    ensures r.Ok? ==> r == Ok(Activated)
  {
    assert !AwaitsApproval(q, ok, v);
    OutcomeKinds(r);
  }

  lemma OutcomeKinds(r: Result<Outcome, Error>)
    ensures r.Err? || r == Ok(Activated) || r == Ok(RequiresApproval)
  {
    match r
    case Err(_) =>
    case Ok(outcome) => assert outcome.Activated? || outcome.RequiresApproval?;
  }

  /** The record after a swap: the new digest serves, the old one is the last known good. */
  lemma SwappedRecord(q: Request, ok: Oracle, v: View, w: View, r: Result<UpgradeOutcome, Error>)
    requires Answers(q, ok, v, w, r) && r.Ok? && r.value.Swapped? && Replaces(q.kind) && Serving(v.installs, q.inst)
    ensures Serving(w.installs, q.inst) && q.inst in w.active && w.active[q.inst].digest == q.digest
    ensures w.installs[q.inst].active == Some(q.digest) && w.installs[q.inst].lastGood == v.installs[q.inst].active
    ensures w.installs[q.inst].component == v.installs[q.inst].component
    ensures w.installs[q.inst].version == q.about.version == w.active[q.inst].version
  {
    RunTouchesOne(q, ok, v, w, RunOutcome(r));
  }

  lemma EnableKeepsDigests(q: Request, ok: Oracle, v: View, w: View, r: Result<Outcome, Error>)
    requires RanTo(q, ok, v, w, r) && q.kind.Enable? && q.inst in v.installs && v.installs[q.inst].active == Some(q.digest)
    ensures r == Ok(Activated) ==> Serves(q, v, w)
    ensures r != Ok(Activated) ==> w.active == v.active
    ensures q.inst in w.installs && w.installs[q.inst].active == v.installs[q.inst].active
    ensures w.installs[q.inst].lastGood == v.installs[q.inst].lastGood
  {
    RunReports(q, ok, v, w, r);
    NotServedYet(q, ok, v);
    RecordOfEnable(q, ok, EndOf(q, ok, v), v, w, r);
  }

  lemma RecordOfEnable(q: Request, ok: Oracle, end: End, v: View, w: View, r: Result<Outcome, Error>)
    requires EndsAs(q, ok, end, v, w, r)
    requires q.kind.Enable? && q.inst in v.installs && v.installs[q.inst].active == Some(q.digest)
    ensures q.inst in w.installs && w.installs[q.inst].active == v.installs[q.inst].active
    ensures w.installs[q.inst].lastGood == v.installs[q.inst].lastGood
  {
  }

  /** Why an installation has nothing to replace: it is unknown, not active, or active without a digest. */
  function NotServingError(installs: map<Inst, Record>, i: Inst): Error {
    if i !in installs then NotFound else if installs[i].state != Active then NotActive else Internal
  }

  class UpgradeService {
    const pipeline: Pipeline

    constructor (pipeline: Pipeline)
      ensures this.pipeline == pipeline
    {
      this.pipeline := pipeline;
    }

    method Upgrade(i: Inst, o: Offer, ok: Oracle) returns (r: Result<UpgradeOutcome, Error>)
      requires pipeline.Valid()
      modifies pipeline, pipeline.composition, pipeline.migration.world
      ensures pipeline.Valid()
      ensures Serving(old(pipeline.installs), i) && o.digest != ServingDigest(old(pipeline.Look()), i) ==>
                Answers(AsRequest(Kind.Upgrade, i, o), ok, old(pipeline.Look()), pipeline.Look(), r)
      ensures !Serving(old(pipeline.installs), i) ==>
                pipeline.Look() == old(pipeline.Look()) && r == Err(NotServingError(old(pipeline.installs), i))
      ensures Serving(old(pipeline.installs), i) && o.digest == ServingDigest(old(pipeline.Look()), i) ==>
                pipeline.Look() == old(pipeline.Look()) && r == Ok(NoOp)
    {
      if i !in pipeline.installs { return Err(NotFound); }
      var current := pipeline.installs[i];
      if current.state != Active { return Err(NotActive); }
      if current.active.None? { return Err(Internal); }
      if current.active.value == o.digest { return Ok(NoOp); }
      r := Swap(AsRequest(Kind.Upgrade, i, o), current.active.value, ok);
    }

    /** The pipeline run behind an upgrade or a rollback to a digest other than the serving one. */
    method Swap(q: Request, from: Digest, ok: Oracle) returns (r: Result<UpgradeOutcome, Error>)
      requires pipeline.Valid() && Replaces(q.kind) && Serving(pipeline.installs, q.inst)
      requires pipeline.installs[q.inst].active == Some(from) && from != q.digest
      modifies pipeline, pipeline.composition, pipeline.migration.world
      ensures pipeline.Valid() && Answers(q, ok, old(pipeline.Look()), pipeline.Look(), r)
    {
      ghost var v := pipeline.Look();
      var outcome := pipeline.Run(q, ok);
      r := if outcome.Err? then Err(outcome.error)
           else Ok(if outcome.value.Activated? then Swapped(from, q.digest) else NeedsApproval);
      SwapAnswers(q, ok, from, v, pipeline.Look(), outcome, r);
    }

    /** Rolls back to the last known good digest; the component behind its bytes is `o`'s. */
    method Rollback(i: Inst, o: Offer, ok: Oracle) returns (r: Result<UpgradeOutcome, Error>)
      requires pipeline.Valid() && o.approval.ReuseExisting?
      requires i in pipeline.installs && pipeline.installs[i].lastGood.Some? ==>
                 o.digest == pipeline.installs[i].lastGood.value
      modifies pipeline, pipeline.composition, pipeline.migration.world
      ensures pipeline.Valid()
      ensures RollsBack(old(pipeline.Look()), i, ok) ==>
                Answers(AsRequest(Kind.Rollback, i, o), ok, old(pipeline.Look()), pipeline.Look(), r)
      ensures !RollsBack(old(pipeline.Look()), i, ok) ==>
        && pipeline.Look() == old(pipeline.Look())
        && r == if !Serving(old(pipeline.installs), i) then Err(NotServingError(old(pipeline.installs), i))
                else if old(pipeline.installs)[i].lastGood.None? then Err(NoRollbackTarget)
                else if old(pipeline.installs)[i].active == old(pipeline.installs)[i].lastGood then Ok(NoOp)
                else Err(At(ReadArtifact))
    {
      if i !in pipeline.installs { return Err(NotFound); }
      var current := pipeline.installs[i];
      if current.state != Active { return Err(NotActive); }
      if current.active.None? { return Err(Internal); }
      if current.lastGood.None? { return Err(NoRollbackTarget); }
      if current.active == current.lastGood { return Ok(NoOp); }
      if !ok(ReadArtifact) { return Err(At(ReadArtifact)); }
      if current.lastGood.value !in pipeline.artifacts {
        // Every recorded digest keeps its bytes, so this does not happen.
        assert false;
        return Err(ArtifactUnavailable);
      }
      r := Swap(AsRequest(Kind.Rollback, i, o), current.active.value, ok);
    }

    /** Two successful rollbacks in a row leave both digests as they were, and the whole record as long as the bytes
        still say what it says; both succeed exactly when both runs end serving, the second from what the first has
        left. */
    method RollbackTwice(i: Inst, first: Offer, second: Offer, ok: Oracle, ok': Oracle)
        returns (both: bool, ghost between: View)
      requires pipeline.Valid() && Serving(pipeline.installs, i) && pipeline.installs[i].lastGood == Some(first.digest)
      requires pipeline.installs[i].active == Some(second.digest)
      requires first.approval.ReuseExisting? && second.approval.ReuseExisting?
      modifies pipeline, pipeline.composition, pipeline.migration.world
      ensures pipeline.Valid()
      ensures Reverts(AsRequest(Kind.Rollback, i, first), ok, old(pipeline.Look())) ==>
                RanTo(AsRequest(Kind.Rollback, i, first), ok, old(pipeline.Look()), between, Ok(Activated))
      ensures both <==>
        && Reverts(AsRequest(Kind.Rollback, i, first), ok, old(pipeline.Look()))
        && Reverts(AsRequest(Kind.Rollback, i, second), ok', between)
      ensures both ==>
        && i in pipeline.installs
        && pipeline.installs[i].active == old(pipeline.installs)[i].active
        && pipeline.installs[i].lastGood == old(pipeline.installs)[i].lastGood
        && pipeline.installs[i].component == old(pipeline.installs)[i].component
        && i in pipeline.active && pipeline.active[i].digest == second.digest
        && pipeline.installs[i].version == second.about.version == pipeline.active[i].version
        && (SaysSo(second, old(pipeline.installs)[i]) ==> pipeline.installs[i] == old(pipeline.installs)[i])
    {
      both := false;
      ghost var v := pipeline.Look();
      var a := Rollback(i, first, ok);
      between := pipeline.Look();
      RollsBackExactly(AsRequest(Kind.Rollback, i, first), ok, v, between, a);
      if a.Ok? && a.value.Swapped? {
        SwappedRecord(AsRequest(Kind.Rollback, i, first), ok, v, between, a);
        var b := Rollback(i, second, ok');
        both := b.Ok? && b.value.Swapped?;
        RollsBackExactly(AsRequest(Kind.Rollback, i, second), ok', between, pipeline.Look(), b);
        if both { SwappedRecord(AsRequest(Kind.Rollback, i, second), ok', between, pipeline.Look(), b); }
      }
    }
  }

  /** The bytes on offer are of the recorded component and version. */
  predicate SaysSo(o: Offer, record: Record) {
    o.about.component == record.component && o.about.version == record.version
  }

  /** The bytes can be read back and the run behind a rollback ends serving. */
  ghost predicate Reverts(q: Request, ok: Oracle, v: View) { ok(ReadArtifact) && EndOf(q, ok, v) == Served(true) }

  /** An upgrade or rollback to other bytes is answered as a swap exactly when its run ends serving. */
  lemma SwapsExactly(q: Request, ok: Oracle, v: View, w: View, r: Result<UpgradeOutcome, Error>)
    requires Answers(q, ok, v, w, r) && Replaces(q.kind) && Serving(v.installs, q.inst)
    requires v.installs[q.inst].active != Some(q.digest)
    ensures (r.Ok? && r.value.Swapped?) <==> EndOf(q, ok, v) == Served(true)
    ensures RunOutcome(r) == Ok(Activated) <==> EndOf(q, ok, v) == Served(true)
  {
    RunReports(q, ok, v, w, RunOutcome(r));
    NotServedYet(q, ok, v);
    assert RunOutcome(r) == Ok(Activated) <==> r.Ok? && r.value.Swapped?;
  }

  lemma RollsBackExactly(q: Request, ok: Oracle, v: View, w: View, r: Result<UpgradeOutcome, Error>)
    requires q.kind.Rollback? && Serving(v.installs, q.inst) && v.installs[q.inst].lastGood == Some(q.digest)
    requires RollsBack(v, q.inst, ok) ==> Answers(q, ok, v, w, r)
    requires !RollsBack(v, q.inst, ok) ==> !(r.Ok? && r.value.Swapped?)
    ensures (r.Ok? && r.value.Swapped?) <==> Reverts(q, ok, v)
    ensures Reverts(q, ok, v) ==> RanTo(q, ok, v, w, Ok(Activated))
  {
    if RollsBack(v, q.inst, ok) {
      SwapsExactly(q, ok, v, w, r);
    } else if v.installs[q.inst].active == v.installs[q.inst].lastGood {
      SameDigestNeverServes(q, ok, v);
    }
  }

  lemma SameDigestNeverServes(q: Request, ok: Oracle, v: View)
    requires Previous(q, v.installs) == Some(q.digest)
    ensures !EndOf(q, ok, v).Served?
  {
  }

  /** A rollback has somewhere to go. */
  predicate RollsBack(v: View, i: Inst, ok: Oracle) {
    && Serving(v.installs, i) && v.installs[i].lastGood.Some? && v.installs[i].active != v.installs[i].lastGood
    && ok(ReadArtifact)
  }

  class InstallService {
    const pipeline: Pipeline

    constructor (pipeline: Pipeline)
      ensures this.pipeline == pipeline
    {
      this.pipeline := pipeline;
    }

    /** `i` is the fresh identifier of the new installation. */
    method Install(i: Inst, o: Offer, ok: Oracle) returns (r: Result<(), Error>)
      requires pipeline.Valid() && i !in pipeline.installs
      modifies pipeline, pipeline.composition, pipeline.migration.world
      ensures pipeline.Valid()
      ensures RanTo(AsRequest(Kind.Install, i, o), ok, old(pipeline.Look()), pipeline.Look(),
                    if r.Ok? then Ok(Activated) else Err(r.error))
      ensures r.Ok? ==> Serves(AsRequest(Kind.Install, i, o), old(pipeline.Look()), pipeline.Look())
      ensures r.Ok? ==> pipeline.installs[i].lastGood == Some(o.digest) && !Stuck(pipeline.Look(), i)
      ensures r.Err? ==> pipeline.active == old(pipeline.active)
    {
      ghost var v := pipeline.Look();
      var outcome := pipeline.Run(AsRequest(Kind.Install, i, o), ok);
      r := if outcome.Err? then Err(outcome.error) else Ok(());
      InstallNeedsNoApproval(AsRequest(Kind.Install, i, o), ok, v, pipeline.Look(), outcome);
      RunReports(AsRequest(Kind.Install, i, o), ok, v, pipeline.Look(), outcome);
    }

    /** Validates the stored bytes of a disabled installation again and serves them. */
    method Enable(i: Inst, o: Offer, ok: Oracle) returns (r: Result<Outcome, Error>)
      requires pipeline.Valid() && o.approval.ReuseExisting?
      requires i in pipeline.installs && pipeline.installs[i].active.Some? ==> o.digest == pipeline.installs[i].active.value
      modifies pipeline, pipeline.composition, pipeline.migration.world
      ensures pipeline.Valid()
      ensures Enables(old(pipeline.Look()), i, ok) ==>
                RanTo(AsRequest(Kind.Enable, i, o), ok, old(pipeline.Look()), pipeline.Look(), r)
      ensures !Enables(old(pipeline.Look()), i, ok) ==>
        && pipeline.Look() == old(pipeline.Look())
        && r == Err(if i !in old(pipeline.installs) then NotFound
                    else if old(pipeline.installs)[i].state != Disabled then NotDisabled
                    else if old(pipeline.installs)[i].active.None? then Internal
                    else At(ReadArtifact))
      ensures i in old(pipeline.installs) ==>
        && i in pipeline.installs
        && pipeline.installs[i].active == old(pipeline.installs)[i].active
        && pipeline.installs[i].lastGood == old(pipeline.installs)[i].lastGood
      ensures r == Ok(Activated) ==> Serves(AsRequest(Kind.Enable, i, o), old(pipeline.Look()), pipeline.Look())
      ensures r != Ok(Activated) ==> pipeline.active == old(pipeline.active)
    {
      if i !in pipeline.installs { return Err(NotFound); }
      var current := pipeline.installs[i];
      if current.state != Disabled { return Err(NotDisabled); }
      if current.active.None? { return Err(Internal); }
      if !ok(ReadArtifact) { return Err(At(ReadArtifact)); }
      if current.active.value !in pipeline.artifacts {
        // Every recorded digest keeps its bytes, so this does not happen.
        assert false;
        return Err(ArtifactUnavailable);
      }
      ghost var v := pipeline.Look();
      r := pipeline.Run(AsRequest(Kind.Enable, i, o), ok);
      EnableKeepsDigests(AsRequest(Kind.Enable, i, o), ok, v, pipeline.Look(), r);
    }
  }

  predicate Enables(v: View, i: Inst, ok: Oracle) {
    i in v.installs && v.installs[i].state == Disabled && v.installs[i].active.Some? && ok(ReadArtifact)
  }

  /** The digest the record names after an upgrade that has got its installation stuck. */
  function RecordedDigest(v: View, i: Inst, o: Offer, ok: Oracle): Digest {
    if ok(UpdateRecord) then o.digest else ServingDigest(v, i)
  }

  /** An upgrade that begins to drain the old candidate and then cannot write the record, or the new candidate's
      readiness, is the last one: from then on whatever is run, for this installation or any other, leaves it stuck,
      serving what it served, as long as the recorded bytes themselves are not run again for another installation. */
  method FailedUpdateBlocksUpgrades(s: UpgradeService, i: Inst, o: Offer, ok: Oracle, later: seq<(Request, Oracle)>)
      returns (first: Result<UpgradeOutcome, Error>)
    requires s.pipeline.Valid() && Serving(s.pipeline.installs, i) && !Stuck(s.pipeline.Look(), i) && i in s.pipeline.active
    requires o.digest != ServingDigest(s.pipeline.Look(), i)
    requires Prepares(AsRequest(Kind.Upgrade, i, o), ok, s.pipeline.Look())
    requires Commits(ok) && Announces(ok) && CanMove(ok, DrainStarted)
    requires !(ok(UpdateRecord) && CanMove(ok, ReadinessSucceeded))
    requires forall k :: 0 <= k < |later| ==>
               && later[k].0.digest != RecordedDigest(s.pipeline.Look(), i, o, ok)
               && (later[k].0.inst == i ==> Replaces(later[k].0.kind))
    modifies s.pipeline, s.pipeline.composition, s.pipeline.migration.world
    ensures first.Err? && Stuck(s.pipeline.Look(), i)
    ensures ServingDigest(s.pipeline.Look(), i) == RecordedDigest(old(s.pipeline.Look()), i, o, ok)
    ensures i in s.pipeline.active && s.pipeline.active[i] == old(s.pipeline.active)[i]
  {
    ghost var v := s.pipeline.Look();
    first := s.Upgrade(i, o, ok);
    GetsStuck(AsRequest(Kind.Upgrade, i, o), ok, v, s.pipeline.Look(), RunOutcome(first));
    RunLater(s.pipeline, i, later);
  }

  lemma GetsStuck(q: Request, ok: Oracle, v: View, w: View, r: Result<Outcome, Error>)
    requires RanTo(q, ok, v, w, r) && Replaces(q.kind)
    requires Serving(v.installs, q.inst) && !Stuck(v, q.inst) && q.inst in v.active
    requires v.installs[q.inst].active != Some(q.digest)
    requires Prepares(q, ok, v) && Commits(ok) && Announces(ok) && CanMove(ok, DrainStarted)
    requires !(ok(UpdateRecord) && CanMove(ok, ReadinessSucceeded))
    ensures r.Err? && Stuck(w, q.inst) && w.active == v.active
    ensures w.installs[q.inst].active == if ok(UpdateRecord) then Some(q.digest) else v.installs[q.inst].active
  {
    ReplacementSticksExactly(q, ok, v, w, r);
    assert EndOf(q, ok, v) == if ok(UpdateRecord) then Unready else Unrecorded;
  }

  /** Any runs of other bytes, for this installation or others; what is addressed to the wrong kind of installation is
      passed over. */
  method RunLater(p: Pipeline, i: Inst, later: seq<(Request, Oracle)>)
    requires p.Valid() && Stuck(p.Look(), i)
    requires forall k :: 0 <= k < |later| ==>
               && later[k].0.digest != ServingDigest(p.Look(), i)
               && (later[k].0.inst == i ==> Replaces(later[k].0.kind))
    modifies p, p.composition, p.migration.world
    ensures p.Valid() && Stuck(p.Look(), i) && KeptFor(i, old(p.Look()), p.Look())
  {
    for k := 0 to |later|
      invariant p.Valid() && Stuck(p.Look(), i) && KeptFor(i, old(p.Look()), p.Look())
    {
      var q, ok := later[k].0, later[k].1;
      if q.kind.Install? == (q.inst !in p.installs) { RunOne(p, i, q, ok); }
    }
  }

  method RunOne(p: Pipeline, i: Inst, q: Request, ok: Oracle)
    requires p.Valid() && Stuck(p.Look(), i) && Addressed(q, p.Look())
    requires q.digest != ServingDigest(p.Look(), i) && (q.inst == i ==> Replaces(q.kind))
    modifies p, p.composition, p.migration.world
    ensures p.Valid() && Stuck(p.Look(), i) && KeptFor(i, old(p.Look()), p.Look())
  {
    ghost var v := p.Look();
    var r := p.Run(q, ok);
    StuckStays(q, ok, v, p.Look(), r, i);
  }

  /** Exactly when an upgrade, however it goes, leaves the version that was served before locked out of its state; an
      error that is not the final drain's leaves that version serving. */
  method FailedUpgradeLocksStateOut(s: UpgradeService, o: Offer, ok: Oracle, i: Inst, served: St.Version)
      returns (r: Result<UpgradeOutcome, Error>)
    requires s.pipeline.Valid() && Serving(s.pipeline.installs, i) && o.digest != ServingDigest(s.pipeline.Look(), i)
    requires i !in s.pipeline.migration.world.gate
    requires St.StoredVersion(s.pipeline.migration.world.db, i) == Some(served)
    modifies s.pipeline, s.pipeline.composition, s.pipeline.migration.world
    ensures StateService.VersionCheck(s.pipeline.migration.world.Sys(), i, served)
         == if LocksOut(AsRequest(Kind.Upgrade, i, o), ok, old(s.pipeline.Look()))
            then Some(StateService.UnsupportedSchemaVersion) else None
    ensures r.Err? && !DrainError(r.error) ==> s.pipeline.active == old(s.pipeline.active)
  {
    ghost var v := s.pipeline.Look();
    r := s.Upgrade(i, o, ok);
    LockedOutExactly(AsRequest(Kind.Upgrade, i, o), ok, v, s.pipeline.Look(), RunOutcome(r), served);
    RunReports(AsRequest(Kind.Upgrade, i, o), ok, v, s.pipeline.Look(), RunOutcome(r));
  }
}
