// What a run of the switchover engine leaves behind, spelled out row by row in terms of the
// request, the probes and the row it found.
module SwitchoverOutcome {
  import opened Domain
  import opened SwitchoverModel
  import Flush = SwitchoverFlushLevel

  // The rate the canary judges by: the one given, if any.
  function GivenRate(terms: Plan): real {
    match terms.simulatedRate case Some(rate) => rate case None => 0.0
  }

  // The record of a canary that finds nothing wrong.
  function AllHealthy(terms: Plan): (r: seq<CanaryCheckpoint>)
    requires terms.checkpointCount >= 0
    ensures |r| == terms.checkpointCount
  {
    seq(terms.checkpointCount, i requires 0 <= i < terms.checkpointCount =>
      CanaryCheckpoint(i + 1, terms.trafficPercent, GivenRate(terms), true))
  }

  function OneUnhealthy(terms: Plan): seq<CanaryCheckpoint> {
    [CanaryCheckpoint(1, terms.trafficPercent, GivenRate(terms), false)]
  }

  predicate AllChecksPass(probes: Probes) {
    && probes.report.Some? && probes.report.value.health && probes.report.value.secrets
    && probes.report.value.region && probes.report.value.migrations
  }

  predicate TargetValidates(probes: Probes) {
    probes.referencesFound && probes.targetHealth == Ready && probes.prerequisitesMet
  }

  function Retired(strategy: RetirementStrategy): RetirementStatus {
    if strategy == Immediate then OldRetired else if strategy == Deferred then RetirementDeferred else ManualActionRequired
  }

  lemma CanaryIs(terms: Plan)
    requires ValidPlan(terms)
    ensures GivenRate(terms) > terms.abortRate ==> CanaryFrom(terms, 0) == OneUnhealthy(terms) && Aborts(terms)
    ensures GivenRate(terms) <= terms.abortRate ==> CanaryFrom(terms, 0) == AllHealthy(terms) && !Aborts(terms)
  {
    CanaryRecord(terms, 0);
  }

  // The state a failed run leaves, with what it had recorded so far.
  function FailedState(completed: seq<Phase>, p0: ProviderId, checkpoints: seq<CanaryCheckpoint>, aborted: bool, copied: bool): ExecutionState {
    ExecutionState(RollbackComplete, completed, false, Some(p0), checkpoints, aborted, RetirementPending, copied, false)
  }

  // The whole row after the first run of a plan just created.
  function AfterFirstRun(terms: Plan, p0: ProviderId, probes: Probes): Row
    requires terms.checkpointCount >= 0
  {
    if !AllChecksPass(probes) then
      Row(p0, BindingStatus.Active, SwitchoverStatus.Failed, FailedState([], p0, [], false, false), true)
    else if GivenRate(terms) > terms.abortRate then
      Row(p0, BindingStatus.Active, SwitchoverStatus.Failed,
          FailedState([Preflight, StageTarget, Canary], p0, OneUnhealthy(terms), true, terms.storage), true)
    else if !TargetValidates(probes) then
      Row(p0, BindingStatus.Active, SwitchoverStatus.Failed,
          FailedState([Preflight, StageTarget, Canary], p0, AllHealthy(terms), false, terms.storage), true)
    else
      Row(terms.target, BindingStatus.Active, SwitchoverStatus.Completed,
          ExecutionState(AllDone, [Preflight, StageTarget, Canary, ValidateCutover, RetireOldBinding], false, Some(p0),
                         AllHealthy(terms), false, Retired(terms.strategy), terms.storage, terms.storage),
          true)
  }

  // From the request to the end of the first run: it completes on the target asked for exactly
  // when the preflight passes, the given rate is within the threshold and the target validates;
  // otherwise it has failed on the old provider, with the record of how far it came.
  lemma FirstRun(request: Plan, strategy: string, lookups: Lookups, p0: ProviderId, status: BindingStatus, probes: Probes)
    requires CreatePlan(request, strategy, lookups, p0, status).Ok?
    ensures var (terms, row) := CreatePlan(request, strategy, lookups, p0, status).value;
            && Execute(terms, row, probes).row == AfterFirstRun(terms, p0, probes)
            && (Execute(terms, row, probes).row.status.Completed? <==>
                  && AllChecksPass(probes) && TargetValidates(probes)
                  && !(request.simulatedRate.Some? && request.simulatedRate.value > request.abortRate))
            && (Execute(terms, row, probes).row.status.Completed? ==> Execute(terms, row, probes).row.provider == request.target)
            && (!Execute(terms, row, probes).row.status.Completed? ==>
                  Execute(terms, row, probes).row.status.Failed? && Execute(terms, row, probes).row.provider == p0)
  {
    var (terms, row) := CreatePlan(request, strategy, lookups, p0, status).value;
    CanaryIs(terms);
    TryBlock(terms, row, probes);
    if AllChecksPass(probes) {
      Flush.FreshRunStages(terms, p0, status, probes);
      FreshStaged(terms, p0, status, probes);
      hide UpToStage, CanaryFrom, Aborts;
    } else {
      hide CanaryFrom, Aborts;
    }
    assert PHASES == [Preflight, StageTarget, Canary, ValidateCutover, RetireOldBinding];
  }

  // The row that the canary of a first run finds.
  lemma FreshStaged(terms: Plan, p0: ProviderId, status: BindingStatus, probes: Probes)
    requires AllChecksPass(probes)
    ensures var f := UpToStage(terms, InitialRow(p0, status), probes);
            && !f.raised
            && f.row == Row(terms.target, BindingStatus.PendingValidation, SwitchoverStatus.Running,
                            ExecutionState(InPhase(StageTarget), [Preflight, StageTarget], true, Some(p0), [], false,
                                           RetirementPending, terms.storage, false), false)
  {
  }

  // The rows of a first run that completes, flush by flush.
  lemma FirstRunFlushes(terms: Plan, p0: ProviderId, status: BindingStatus, probes: Probes)
    requires ValidPlan(terms) && AllChecksPass(probes) && GivenRate(terms) <= terms.abortRate && TargetValidates(probes)
    ensures var created := Row(p0, status, SwitchoverStatus.Pending,
                               ExecutionState(InPhase(Preflight), [], false, None, [], false, RetirementPending, false, false), false);
            var begun := created.(status := SwitchoverStatus.Running);
            var checked := begun.(state := begun.state.(completed := [Preflight]));
            var staged := Row(terms.target, BindingStatus.PendingValidation, SwitchoverStatus.Running,
                              ExecutionState(InPhase(StageTarget), [Preflight, StageTarget], true, Some(p0), [], false,
                                             RetirementPending, terms.storage, false), false);
            var judged := staged.(state := staged.state.(marker := InPhase(Canary), completed := [Preflight, StageTarget, Canary],
                                                         checkpoints := AllHealthy(terms)));
            var validated := judged.(bindingStatus := BindingStatus.Active,
                                     state := judged.state.(marker := InPhase(ValidateCutover), cutoverVerified := terms.storage,
                                                            completed := [Preflight, StageTarget, Canary, ValidateCutover]));
            var retired := validated.(state := validated.state.(marker := InPhase(RetireOldBinding), retirement := Retired(terms.strategy),
                                                                completed := [Preflight, StageTarget, Canary, ValidateCutover, RetireOldBinding]));
            Execute(terms, created, probes).trace ==
            [begun, checked, staged, judged, validated, retired, AfterFirstRun(terms, p0, probes)]
  {
    var row := InitialRow(p0, status);
    CanaryIs(terms);
    TryBlock(terms, row, probes);
    FreshFlushes(terms, p0, status, probes);
    var f := UpToStage(terms, row, probes);
    CanaryFlushes(terms, f);
    ValidateFlushes(terms, RunCanary(terms, f), probes);
    RetireFlushes(terms, RunValidate(terms, RunCanary(terms, f), probes));
    hide UpToStage, CanaryFrom, Aborts, RunCanary, RunValidate, RunRetire, UpToRetire;
    assert PHASES == [Preflight, StageTarget, Canary, ValidateCutover, RetireOldBinding];
  }

  lemma CanaryFlushes(terms: Plan, f: Flight)
    requires ValidPlan(terms) && GivenRate(terms) <= terms.abortRate
    requires !f.raised && f.row.state.completed == [Preflight, StageTarget]
    ensures var row := f.row.(state := f.row.state.(marker := InPhase(Canary), completed := [Preflight, StageTarget, Canary],
                                                    checkpoints := AllHealthy(terms), aborted := false));
            RunCanary(terms, f) == Flight(row, f.trace + [row], false)
  {
    CanaryIs(terms);
    hide CanaryFrom, Aborts;
    assert f.row.state.completed + [Canary] == [Preflight, StageTarget, Canary];
  }

  lemma ValidateFlushes(terms: Plan, f: Flight, probes: Probes)
    requires TargetValidates(probes) && !f.raised && f.row.state.completed == [Preflight, StageTarget, Canary]
    ensures var row := f.row.(bindingStatus := BindingStatus.Active,
                              state := f.row.state.(marker := InPhase(ValidateCutover), cutoverVerified := f.row.state.cutoverVerified || terms.storage,
                                                    completed := [Preflight, StageTarget, Canary, ValidateCutover]));
            RunValidate(terms, f, probes) == Flight(row, f.trace + [row], false)
  {
    assert f.row.state.completed + [ValidateCutover] == [Preflight, StageTarget, Canary, ValidateCutover];
  }

  lemma RetireFlushes(terms: Plan, f: Flight)
    requires !f.raised && f.row.state.completed == [Preflight, StageTarget, Canary, ValidateCutover]
    ensures var row := f.row.(state := f.row.state.(marker := InPhase(RetireOldBinding), retirement := Retired(terms.strategy),
                                                    completed := [Preflight, StageTarget, Canary, ValidateCutover, RetireOldBinding]));
            RunRetire(terms, f) == Flight(row, f.trace + [row], false)
  {
    assert f.row.state.completed + [RetireOldBinding] == [Preflight, StageTarget, Canary, ValidateCutover, RetireOldBinding];
  }

  lemma FreshFlushes(terms: Plan, p0: ProviderId, status: BindingStatus, probes: Probes)
    requires AllChecksPass(probes)
    ensures var f := UpToStage(terms, InitialRow(p0, status), probes);
            var begun := InitialRow(p0, status).(status := SwitchoverStatus.Running);
            f == Flight(f.row, [begun, begun.(state := begun.state.(completed := [Preflight])), f.row], false) && f.row ==
              Row(terms.target, BindingStatus.PendingValidation, SwitchoverStatus.Running,
                  ExecutionState(InPhase(StageTarget), [Preflight, StageTarget], true, Some(p0), [], false,
                                 RetirementPending, terms.storage, false), false)
  {
    FreshStaged(terms, p0, status, probes);
    var begun := InitialRow(p0, status).(status := SwitchoverStatus.Running);
    var checked := begun.(state := begun.state.(completed := [Preflight]));
    var b := Begin(Recover(InitialRow(p0, status)));
    assert b == Flight(begun, [begun], false);
    var c := RunPreflight(b, probes);
    assert c.row == checked && c.trace == [begun, checked] && !c.raised;
    assert RunStage(terms, c).trace == [begun, checked, RunStage(terms, c).row];
  }

  // A resumed run fails exactly when something it still has to do goes wrong.
  lemma ResumeFailsIff(terms: Plan, p0: ProviderId, row: Row, probes: Probes)
    requires ValidPlan(terms) && Flush.Inv(terms, p0, row)
    requires row.status.Pending? || row.status.Running? || row.status.Failed?
    ensures var r := Execute(terms, row, probes).row;
            && (r.status.Failed? <==>
                  || (Preflight !in row.state.completed && !AllChecksPass(probes))
                  || (Canary !in row.state.completed && GivenRate(terms) > terms.abortRate)
                  || (ValidateCutover !in row.state.completed && !TargetValidates(probes)))
            && (r.status.Failed? ==> r.provider == p0 && r.bindingStatus.Active? && r.finishedAt && r.state.marker == RollbackComplete)
            && (!r.status.Failed? ==>
                  && r.status.Completed? && r.finishedAt && r.state.marker == AllDone
                  && r.provider == (if row.state.required || StageTarget !in row.state.completed then terms.target else p0)
                  && r.state.retirement == Retired(terms.strategy))
  {
    CanaryIs(terms);
    Flush.RunOutcome(terms, p0, row, probes);
    FailureMarker(terms, row, probes);
    hide Execute, CanaryFrom, Aborts;
  }

  lemma FailureMarker(terms: Plan, row: Row, probes: Probes)
    ensures var r := Execute(terms, row, probes).row;
            r.status.Failed? ==> r.state.marker == RollbackComplete && r.finishedAt
  {
    hide UpToRetire;
  }

  // What a run flushes first: with a checkpoint required, the provider it names, ACTIVE again,
  // and a state that has forgotten staging and nothing else; otherwise the row it found, running.
  lemma FirstFlush(terms: Plan, row: Row, probes: Probes, before: seq<Phase>, after: seq<Phase>)
    requires row.state.required && row.state.previous.Some? && row.state.completed == before + [StageTarget] + after
    requires StageTarget !in before && StageTarget !in after
    ensures var trace := Execute(terms, row, probes).trace;
            trace != [] && trace[0] ==
              Row(row.state.previous.value, BindingStatus.Active, SwitchoverStatus.Running,
                  row.state.(required := false, marker := InPhase(Preflight), completed := before + after), row.finishedAt)
  {
    WithoutOne(before, after, StageTarget);
    KeepsFirstFlush(terms, row, probes);
    hide Execute, Without;
  }

  lemma FirstFlushUnrecovered(terms: Plan, row: Row, probes: Probes)
    requires !row.state.required || row.state.previous.None?
    ensures var trace := Execute(terms, row, probes).trace;
            trace != [] && trace[0] == row.(status := SwitchoverStatus.Running)
  {
    KeepsFirstFlush(terms, row, probes);
    hide Execute;
  }

  // Later phases only add to what has been flushed.
  lemma KeepsFirstFlush(terms: Plan, row: Row, probes: Probes)
    ensures Begin(Recover(row)).trace != []
    ensures Begin(Recover(row)).trace <= Execute(terms, row, probes).trace
  {
    TryBlock(terms, row, probes);
    hide UpToRetire, CanaryFrom, Without, PreflightPasses, CutoverPasses;
    var f := RunPreflight(Begin(Recover(row)), probes);
    var g := RunStage(terms, f);
    var h := RunCanary(terms, g);
    var k := RunValidate(terms, h, probes);
    assert Begin(Recover(row)).trace <= f.trace <= g.trace <= h.trace <= k.trace <= RunRetire(terms, k).trace;
  }

  lemma {:induction false} WithoutNone(phases: seq<Phase>, p: Phase)
    requires p !in phases
    ensures Without(phases, p) == phases
  {
    if phases != [] {
      WithoutNone(phases[1..], p);
    }
  }

  lemma {:induction false} WithoutOne(before: seq<Phase>, after: seq<Phase>, p: Phase)
    requires p !in before && p !in after
    ensures Without(before + [p] + after, p) == before + after
  {
    var all := before + [p] + after;
    if before == [] {
      assert all[1..] == after;
      assert before + after == after;
      WithoutNone(after, p);
    } else {
      assert all[1..] == before[1..] + [p] + after;
      WithoutOne(before[1..], after, p);
      assert before + after == [before[0]] + (before[1..] + after);
    }
  }

  // The manual rollback: possible exactly with a checkpoint, whose provider it restores.
  lemma RollbackMeans(row: Row)
    ensures Rollback(row) ==
            match row.state.previous
            case None => Err(NoCheckpoint)
            case Some(p) =>
              Ok(Row(p, BindingStatus.Active, SwitchoverStatus.RolledBack,
                     row.state.(marker := ManualRollbackComplete, required := false), true))
  {
  }
}
