// The engine itself: one run updates the binding and the plan in place, phase by phase, and
// flushes after each. Its methods are proved to flush exactly the rows of SwitchoverModel.
module SwitchoverEngine {
  import opened Domain
  import opened SwitchoverModel

  class CapabilityBinding {
    var provider: ProviderId
    var status: BindingStatus

    constructor (provider: ProviderId, status: BindingStatus)
      ensures this.provider == provider && this.status == status
    {
      this.provider, this.status := provider, status;
    }
  }

  class SwitchoverPlan {
    const terms: Plan
    var status: SwitchoverStatus
    var state: ExecutionState
    var finishedAt: bool

    constructor (terms: Plan)
      ensures this.terms == terms && status.Pending? && state == InitialState() && !finishedAt
    {
      this.terms := terms;
      status, state, finishedAt := SwitchoverStatus.Pending, InitialState(), false;
    }
  }

  function RowOf(plan: SwitchoverPlan, binding: CapabilityBinding): Row
    reads plan, binding
  {
    Row(binding.provider, binding.status, plan.status, plan.state, plan.finishedAt)
  }

  // The database session of one request: the rows flushed so far, and what is committed.
  class Session {
    var written: seq<Row>
    var committed: Option<Row>

    constructor ()
      ensures written == [] && committed == None
    {
      written, committed := [], None;
    }

    method Flush(plan: SwitchoverPlan, binding: CapabilityBinding)
      modifies this`written
      ensures written == old(written) + [RowOf(plan, binding)]
    {
      written := written + [RowOf(plan, binding)];
    }

    method Commit(plan: SwitchoverPlan, binding: CapabilityBinding)
      modifies this`committed
      ensures committed == Some(RowOf(plan, binding))
    {
      committed := Some(RowOf(plan, binding));
    }
  }

  // Where a run stands, as a value.
  function FlightOf(db: Session, plan: SwitchoverPlan, binding: CapabilityBinding, raised: bool): Flight
    reads db, plan, binding
  {
    Flight(RowOf(plan, binding), db.written, raised)
  }

  method FilterOut(phases: seq<Phase>, p: Phase) returns (kept: seq<Phase>)
    ensures kept == Without(phases, p)
  {
    kept := [];
    for i := |phases| downto 0
      invariant kept == Without(phases[i..], p)
    {
      assert phases[i..][1..] == phases[i + 1..];
      if phases[i] != p {
        kept := [phases[i]] + kept;
      }
    }
    assert phases[0..] == phases;
  }

  method RestoreCheckpoint(db: Session, plan: SwitchoverPlan, binding: CapabilityBinding)
    requires db.written == []
    modifies db`written, plan, binding
    ensures FlightOf(db, plan, binding, false) == Recover(old(RowOf(plan, binding)))
  {
    var state := plan.state;
    if state.required && state.previous.Some? {
      binding.provider := state.previous.value;
      binding.status := BindingStatus.Active;
      var kept := FilterOut(state.completed, StageTarget);
      plan.state := state.(required := false, marker := InPhase(Preflight), completed := kept);
      plan.status := SwitchoverStatus.Running;
      db.Flush(plan, binding);
    }
  }

  method PreflightPhase(db: Session, plan: SwitchoverPlan, binding: CapabilityBinding, probes: Probes) returns (raised: bool)
    modifies db`written, plan
    ensures FlightOf(db, plan, binding, raised) == RunPreflight(old(FlightOf(db, plan, binding, false)), probes)
  {
    raised := false;
    if Preflight !in plan.state.completed {
      if probes.report.None? || !PreflightReady(probes.report.value) {
        return true;
      }
      plan.state := MarkDone(plan.state, Preflight);
      db.Flush(plan, binding);
    }
  }

  method StagePhase(db: Session, plan: SwitchoverPlan, binding: CapabilityBinding)
    modifies db`written, plan, binding
    ensures FlightOf(db, plan, binding, false) == RunStage(plan.terms, old(FlightOf(db, plan, binding, false)))
  {
    if StageTarget !in plan.state.completed {
      var state := plan.state;
      if plan.terms.storage {
        state := state.(dataCopied := true);
      }
      state := state.(required := true, previous := Some(binding.provider));
      binding.provider := plan.terms.target;
      binding.status := BindingStatus.PendingValidation;
      plan.state := MarkDone(state, StageTarget);
      db.Flush(plan, binding);
    }
  }

  // The checkpoint loop: stops at the first checkpoint above the threshold.
  method EvaluateCheckpoints(terms: Plan) returns (checkpoints: seq<CanaryCheckpoint>, aborted: bool)
    ensures checkpoints == CanaryFrom(terms, 0) && aborted == Aborts(terms)
    ensures aborted <==> (
              && terms.checkpointCount >= 1
              && (match terms.simulatedRate case Some(rate) => rate > terms.abortRate case None => 0.0 > terms.abortRate))
    ensures |checkpoints| == if aborted then 1 else if terms.checkpointCount > 0 then terms.checkpointCount else 0
    ensures forall i :: 0 <= i < |checkpoints| ==>
              && checkpoints[i].number == i + 1 && checkpoints[i].trafficPercent == terms.trafficPercent
              && checkpoints[i].errorRate == (match terms.simulatedRate case Some(rate) => rate case None => 0.0)
              && checkpoints[i].healthy == !aborted
  {
    checkpoints, aborted := [], false;
    var index := 0;
    var rate := match terms.simulatedRate case Some(given) => given case None => 0.0;
    while index < terms.checkpointCount && !aborted
      invariant 0 <= index && (terms.checkpointCount > 0 ==> index <= terms.checkpointCount)
      invariant index > 0 ==> terms.checkpointCount > 0
      invariant aborted ==> index < terms.checkpointCount && rate > terms.abortRate && index == 0
      invariant index > 0 && !aborted ==> rate <= terms.abortRate
      invariant |checkpoints| == if aborted then 1 else index
      invariant forall i :: 0 <= i < |checkpoints| ==>
                  checkpoints[i] == CanaryCheckpoint(i + 1, terms.trafficPercent, rate, rate <= terms.abortRate)
      decreases terms.checkpointCount - index, !aborted
    {
      checkpoints := checkpoints + [CanaryCheckpoint(index + 1, terms.trafficPercent, rate, rate <= terms.abortRate)];
      if rate > terms.abortRate {
        aborted := true;
      } else {
        index := index + 1;
      }
    }
    CanaryRecord(terms, 0);
  }

  method CanaryPhase(db: Session, plan: SwitchoverPlan, binding: CapabilityBinding) returns (raised: bool)
    modifies db`written, plan
    ensures FlightOf(db, plan, binding, raised) == RunCanary(plan.terms, old(FlightOf(db, plan, binding, false)))
  {
    raised := false;
    if Canary !in plan.state.completed {
      var checkpoints, aborted := EvaluateCheckpoints(plan.terms);
      plan.state := MarkDone(plan.state.(checkpoints := checkpoints, aborted := aborted), Canary);
      db.Flush(plan, binding);
      raised := aborted;
    }
  }

  method ValidatePhase(db: Session, plan: SwitchoverPlan, binding: CapabilityBinding, probes: Probes) returns (raised: bool)
    modifies db`written, plan, binding
    ensures FlightOf(db, plan, binding, raised) == RunValidate(plan.terms, old(FlightOf(db, plan, binding, false)), probes)
  {
    raised := false;
    if ValidateCutover !in plan.state.completed {
      if !probes.referencesFound || !probes.targetHealth.Ready? || !probes.prerequisitesMet {
        return true;
      }
      var state := plan.state;
      if plan.terms.storage {
        state := state.(cutoverVerified := true);
      }
      binding.status := BindingStatus.Active;
      plan.state := MarkDone(state, ValidateCutover);
      db.Flush(plan, binding);
    }
  }

  method RetirePhase(db: Session, plan: SwitchoverPlan, binding: CapabilityBinding)
    modifies db`written, plan
    ensures FlightOf(db, plan, binding, false) == RunRetire(plan.terms, old(FlightOf(db, plan, binding, false)))
  {
    if RetireOldBinding !in plan.state.completed {
      var outcome := match plan.terms.strategy
        case Immediate => OldRetired
        case Deferred => RetirementDeferred
        case Manual => ManualActionRequired;
      plan.state := MarkDone(plan.state.(retirement := outcome), RetireOldBinding);
      db.Flush(plan, binding);
    }
  }

  method MarkCompleted(db: Session, plan: SwitchoverPlan, binding: CapabilityBinding)
    modifies db`written, plan
    ensures FlightOf(db, plan, binding, false) == Finish(old(FlightOf(db, plan, binding, false)))
  {
    plan.state := plan.state.(marker := AllDone, completed := PHASES, required := false);
    plan.status := SwitchoverStatus.Completed;
    plan.finishedAt := true;
    db.Flush(plan, binding);
  }

  // The exception handler.
  method RestoreAfterFailure(db: Session, plan: SwitchoverPlan, binding: CapabilityBinding)
    modifies db`written, plan, binding
    ensures FlightOf(db, plan, binding, true) == Finish(old(FlightOf(db, plan, binding, true)))
  {
    var restored := match plan.state.previous case Some(p) => p case None => binding.provider;
    binding.provider := restored;
    binding.status := BindingStatus.Active;
    plan.state := plan.state.(required := false, previous := Some(restored), marker := RollbackComplete);
    plan.status := SwitchoverStatus.Failed;
    plan.finishedAt := true;
    db.Flush(plan, binding);
  }

  datatype ExecuteError = AlreadyCompleted | CannotResume

  // One request: the flushed rows and the committed row are those of SwitchoverModel.Execute,
  // and a plan that may not run is left alone.
  method ExecuteSwitchoverPlan(db: Session, plan: SwitchoverPlan, binding: CapabilityBinding, probes: Probes)
    returns (r: Result<SwitchoverStatus, ExecuteError>)
    requires db.written == []
    modifies db, plan, binding
    ensures old(Executable(RowOf(plan, binding))) ==>
              && r == Ok(plan.status)
              && RowOf(plan, binding) == Execute(plan.terms, old(RowOf(plan, binding)), probes).row
              && db.written == Execute(plan.terms, old(RowOf(plan, binding)), probes).trace
              && db.committed == Some(RowOf(plan, binding))
    ensures !old(Executable(RowOf(plan, binding))) ==>
              && r == Err(if old(plan.status).Completed? then AlreadyCompleted else CannotResume)
              && unchanged(db) && unchanged(plan) && unchanged(binding)
  {
    if plan.status.Completed? {
      return Err(AlreadyCompleted);
    }
    if !(plan.status.Pending? || plan.status.Running? || plan.status.Failed?) {
      return Err(CannotResume);
    }
    hide Recover, Begin, RunPreflight, RunStage, RunCanary, RunValidate, RunRetire, Finish;
    ghost var row := RowOf(plan, binding);
    ghost var terms := plan.terms;
    StartRun(db, plan, binding);
    assert FlightOf(db, plan, binding, false) == Begin(Recover(row));
    var raised := RunPhases(db, plan, binding, probes);
    TryBlock(terms, row, probes);
    assert FlightOf(db, plan, binding, raised) == UpToRetire(terms, row, probes);
    if raised {
      RestoreAfterFailure(db, plan, binding);
    } else {
      MarkCompleted(db, plan, binding);
    }
    db.Commit(plan, binding);
    r := Ok(plan.status);
  }

  method StartRun(db: Session, plan: SwitchoverPlan, binding: CapabilityBinding)
    requires db.written == []
    modifies db`written, plan, binding
    ensures FlightOf(db, plan, binding, false) == Begin(Recover(old(RowOf(plan, binding))))
  {
    RestoreCheckpoint(db, plan, binding);
    plan.status := SwitchoverStatus.Running;
    db.Flush(plan, binding);
  }

  // The body of the try block: the first phase that raises ends it.
  method RunPhases(db: Session, plan: SwitchoverPlan, binding: CapabilityBinding, probes: Probes) returns (raised: bool)
    modifies db`written, plan, binding
    ensures var f := old(FlightOf(db, plan, binding, false));
            FlightOf(db, plan, binding, raised) ==
            RunRetire(plan.terms, RunValidate(plan.terms, RunCanary(plan.terms, RunStage(plan.terms, RunPreflight(f, probes))), probes))
  {
    hide Flushed, MarkDone, StagedRow, CanaryRow, ValidatedRow, CutoverPasses, PreflightPasses, Done;
    raised := PreflightPhase(db, plan, binding, probes);
    if raised {
      return;
    }
    StagePhase(db, plan, binding);
    raised := CanaryPhase(db, plan, binding);
    if raised {
      return;
    }
    raised := ValidatePhase(db, plan, binding, probes);
    if raised {
      return;
    }
    RetirePhase(db, plan, binding);
  }

  method RollbackSwitchoverPlan(db: Session, plan: SwitchoverPlan, binding: CapabilityBinding)
    returns (r: Result<SwitchoverStatus, RollbackError>)
    modifies db, plan, binding
    ensures match Rollback(old(RowOf(plan, binding)))
            case Ok(row) => RowOf(plan, binding) == row && db.committed == Some(row) && r == Ok(SwitchoverStatus.RolledBack)
            case Err(e) => r == Err(e) && unchanged(db) && unchanged(plan) && unchanged(binding)
  {
    if plan.state.previous.None? {
      return Err(NoCheckpoint);
    }
    binding.provider := plan.state.previous.value;
    binding.status := BindingStatus.Active;
    plan.state := plan.state.(marker := ManualRollbackComplete, required := false);
    plan.status := SwitchoverStatus.RolledBack;
    plan.finishedAt := true;
    db.Flush(plan, binding);
    db.Commit(plan, binding);
    r := Ok(plan.status);
  }
}
