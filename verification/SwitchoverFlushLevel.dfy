// Crash recovery of the switchover engine: any flush of a run may be the last thing that
// happened, after which the plan is executed again, any number of times.
module SwitchoverFlushLevel {
  import opened Domain
  import opened SwitchoverModel

  // `ExecuteOp(probes, flushes)`: one run that stops after `flushes` flushes; a number at
  // or beyond the length of the run lets it finish. `RollbackOp`: one manual rollback.
  datatype Op = ExecuteOp(probes: Probes, flushes: nat) | RollbackOp

  function StepFlush(plan: Plan, row: Row, op: Op): Row {
    match op
    case ExecuteOp(probes, flushes) =>
      var trace := Execute(plan, row, probes).trace;
      if !Executable(row) || flushes == 0 || trace == [] then row
      else if flushes <= |trace| then trace[flushes - 1]
      else trace[|trace| - 1]
    case RollbackOp =>
      var r := Rollback(row);
      if r.Ok? then r.value else row
  }

  function Replay(plan: Plan, row0: Row, ops: seq<Op>): Row
    decreases |ops|
  {
    if ops == [] then row0
    else StepFlush(plan, Replay(plan, row0, ops[..|ops| - 1]), ops[|ops| - 1])
  }

  // ---- the invariant of every flushed row ----

  predicate ProviderKnown(plan: Plan, p0: ProviderId, row: Row) {
    && (row.provider == p0 || row.provider == plan.target)
    && (row.state.previous == None || row.state.previous == Some(p0))
    && (row.state.required ==> row.state.previous == Some(p0) && Done(row, StageTarget) && row.status.Running?)
    && (row.provider != p0 ==> row.state.required || row.status.Completed?)
    && (Done(row, StageTarget) ==> row.state.previous == Some(p0))
  }

  predicate StatusMeaning(p0: ProviderId, row: Row) {
    && (row.status.Completed? ==>
          && row.state.completed == PHASES && row.finishedAt && row.state.marker.AllDone?
          && !row.state.required && row.state.previous == Some(p0))
    && (row.status.Failed? ==>
          && row.provider == p0 && row.bindingStatus.Active? && row.finishedAt
          && !row.state.required && row.state.previous == Some(p0))
    && (row.status.RolledBack? ==>
          && row.provider == p0 && row.bindingStatus.Active? && row.finishedAt
          && !row.state.required && row.state.previous == Some(p0))
    // A plan that failed after staging is resumed with its old provider still active.
    && (Executable(row) && Done(row, StageTarget) && !row.state.required ==>
          row.provider == p0 && row.bindingStatus.Active?)
  }

  // What each recorded phase has left behind; the canary is a function of the plan alone.
  predicate PhaseEvidence(plan: Plan, row: Row) {
    && (if Done(row, Canary) then row.state.checkpoints == CanaryFrom(plan, 0) && row.state.aborted == Aborts(plan)
        else row.state.checkpoints == [] && !row.state.aborted)
    && (Done(row, StageTarget) || Done(row, Canary) || Done(row, ValidateCutover) || Done(row, RetireOldBinding) ==>
          row.state.dataCopied == plan.storage)
    && (row.state.dataCopied ==> plan.storage)
    && (if Done(row, ValidateCutover) then row.state.cutoverVerified == plan.storage else !row.state.cutoverVerified)
    && (if Done(row, RetireOldBinding) then row.state.retirement == RetirementOf(plan.strategy)
        else row.state.retirement == RetirementPending)
  }

  predicate Inv(plan: Plan, p0: ProviderId, row: Row) {
    ProviderKnown(plan, p0, row) && StatusMeaning(p0, row) && PhaseEvidence(plan, row)
  }

  // A run in flight keeps the invariant on everything it has flushed and on its current row.
  predicate FlightInv(plan: Plan, p0: ProviderId, f: Flight) {
    && Inv(plan, p0, f.row)
    && f.row.status.Running?
    && (forall i :: 0 <= i < |f.trace| ==> Inv(plan, p0, f.trace[i]))
  }

  lemma BeginKeepsInv(plan: Plan, p0: ProviderId, row: Row)
    requires Inv(plan, p0, row) && Executable(row)
    ensures var f := Begin(Recover(row));
            && FlightInv(plan, p0, f) && f.trace != [] && !f.raised
            && !f.row.state.required && f.row.provider == p0
            && (Done(f.row, StageTarget) <==> Done(row, StageTarget) && !row.state.required)
            && (Done(f.row, StageTarget) ==> f.row.bindingStatus.Active?)
            && SameBut(f.row, row, StageTarget)
  {
  }

  // Nothing but `phase` may have been recorded or forgotten.
  predicate SameBut(a: Row, b: Row, phase: Phase) {
    forall p :: p != phase ==> (Done(a, p) <==> Done(b, p))
  }

  lemma PreflightKeepsInv(plan: Plan, p0: ProviderId, f: Flight, probes: Probes)
    requires FlightInv(plan, p0, f) && !f.row.state.required && !f.raised
    ensures var g := RunPreflight(f, probes);
            && FlightInv(plan, p0, g) && |g.trace| >= |f.trace|
            && (g.raised <==> !Done(f.row, Preflight) && !PreflightPasses(probes))
            && g.row.provider == f.row.provider && g.row.bindingStatus == f.row.bindingStatus
            && !g.row.state.required && (!g.raised ==> Done(g.row, Preflight))
            && SameBut(g.row, f.row, Preflight)
  {
  }

  lemma StageKeepsInv(plan: Plan, p0: ProviderId, f: Flight)
    requires FlightInv(plan, p0, f) && !f.row.state.required
    ensures var g := RunStage(plan, f);
            && FlightInv(plan, p0, g) && |g.trace| >= |f.trace| && g.raised == f.raised
            && SameBut(g.row, f.row, StageTarget)
            && (!f.raised ==>
                  && Done(g.row, StageTarget)
                  && g.row.provider == (if Done(f.row, StageTarget) then f.row.provider else plan.target)
                  && g.row.bindingStatus == (if Done(f.row, StageTarget) then f.row.bindingStatus else BindingStatus.PendingValidation))
  {
  }

  lemma CanaryKeepsInv(plan: Plan, p0: ProviderId, f: Flight)
    requires FlightInv(plan, p0, f) && (f.raised || Done(f.row, StageTarget))
    ensures var g := RunCanary(plan, f);
            && FlightInv(plan, p0, g)
            && (g.raised <==> f.raised || (!Done(f.row, Canary) && Aborts(plan)))
            && g.row.provider == f.row.provider && g.row.bindingStatus == f.row.bindingStatus
            && SameBut(g.row, f.row, Canary) && (!g.raised ==> Done(g.row, Canary))
  {
  }

  lemma ValidateKeepsInv(plan: Plan, p0: ProviderId, f: Flight, probes: Probes)
    requires FlightInv(plan, p0, f) && (f.raised || Done(f.row, StageTarget))
    ensures var g := RunValidate(plan, f, probes);
            && FlightInv(plan, p0, g)
            && (g.raised <==> f.raised || (!Done(f.row, ValidateCutover) && !CutoverPasses(probes)))
            && g.row.provider == f.row.provider
            && (!g.raised ==> g.row.bindingStatus == if Done(f.row, ValidateCutover) then f.row.bindingStatus else BindingStatus.Active)
            && SameBut(g.row, f.row, ValidateCutover) && (!g.raised ==> Done(g.row, ValidateCutover))
  {
  }

  lemma RetireKeepsInv(plan: Plan, p0: ProviderId, f: Flight)
    requires FlightInv(plan, p0, f) && (f.raised || Done(f.row, StageTarget))
    ensures var g := RunRetire(plan, f);
            && FlightInv(plan, p0, g) && g.raised == f.raised
            && g.row.provider == f.row.provider && g.row.bindingStatus == f.row.bindingStatus
            && SameBut(g.row, f.row, RetireOldBinding) && (!g.raised ==> Done(g.row, RetireOldBinding))
  {
  }

  // ---- what one run does, exactly ----

  // Staging happens in this run: either it was never recorded, or recovery forgets it.
  predicate Restages(row: Row) {
    row.state.required || !Done(row, StageTarget)
  }

  // Some phase that this run still has to do goes wrong.
  predicate Fails(plan: Plan, row: Row, probes: Probes) {
    || (!Done(row, Preflight) && !PreflightPasses(probes))
    || (!Done(row, Canary) && Aborts(plan))
    || (!Done(row, ValidateCutover) && !CutoverPasses(probes))
  }

  // The run up to and including staging.
  predicate StagedWell(plan: Plan, p0: ProviderId, row: Row, probes: Probes, f: Flight) {
    && f.trace != []
    && (f.raised <==> !Done(row, Preflight) && !PreflightPasses(probes))
    && (Done(f.row, Canary) <==> Done(row, Canary))
    && (Done(f.row, ValidateCutover) <==> Done(row, ValidateCutover))
    && (!f.raised ==>
          && Done(f.row, Preflight) && Done(f.row, StageTarget)
          && f.row.provider == (if Restages(row) then plan.target else p0)
          && f.row.bindingStatus == (if Restages(row) then BindingStatus.PendingValidation else BindingStatus.Active))
  }

  lemma StagedFlight(plan: Plan, p0: ProviderId, row: Row, probes: Probes)
    requires Inv(plan, p0, row) && Executable(row)
    ensures FlightInv(plan, p0, UpToStage(plan, row, probes))
    ensures StagedWell(plan, p0, row, probes, UpToStage(plan, row, probes))
  {
    hide FlightInv, Inv, Begin, Recover, RunPreflight, RunStage, Done, PreflightPasses;
    BeginKeepsInv(plan, p0, row);
    PreflightKeepsInv(plan, p0, Begin(Recover(row)), probes);
    StageKeepsInv(plan, p0, RunPreflight(Begin(Recover(row)), probes));
  }

  // The run up to the point where only the final flush is missing.
  predicate RetiredWell(plan: Plan, p0: ProviderId, row: Row, probes: Probes, f: Flight) {
    && (f.raised <==> Fails(plan, row, probes))
    && (!f.raised ==>
          && Done(f.row, StageTarget) && Done(f.row, Canary) && Done(f.row, ValidateCutover) && Done(f.row, RetireOldBinding)
          && f.row.provider == (if Restages(row) then plan.target else p0)
          && f.row.bindingStatus ==
             (if Restages(row) && Done(row, ValidateCutover) then BindingStatus.PendingValidation else BindingStatus.Active))
  }

  lemma RetiredFlight(plan: Plan, p0: ProviderId, row: Row, probes: Probes)
    requires Inv(plan, p0, row) && Executable(row)
    ensures FlightInv(plan, p0, UpToRetire(plan, row, probes))
    ensures RetiredWell(plan, p0, row, probes, UpToRetire(plan, row, probes))
  {
    hide UpToRetire, UpToStage, FlightInv, RunCanary, RunValidate, RunRetire, Done, CutoverPasses, PreflightPasses, Aborts;
    StagedFlight(plan, p0, row, probes);
    TryBlock(plan, row, probes);
    var f := UpToStage(plan, row, probes);
    CanaryKeepsInv(plan, p0, f);
    var g := RunCanary(plan, f);
    ValidateKeepsInv(plan, p0, g, probes);
    RetireKeepsInv(plan, p0, RunValidate(plan, g, probes));
  }

  // The row of a finished plan is determined by the plan and two facts about the last run.
  function GoalRow(plan: Plan, p0: ProviderId, onTarget: bool, active: bool): Row {
    Row(if onTarget then plan.target else p0,
        if active then BindingStatus.Active else BindingStatus.PendingValidation,
        SwitchoverStatus.Completed,
        ExecutionState(AllDone, PHASES, false, Some(p0), CanaryFrom(plan, 0), Aborts(plan),
                       RetirementOf(plan.strategy), plan.storage, plan.storage),
        true)
  }

  function Last(f: Flight): Row
    requires f.trace != []
  {
    f.trace[|f.trace| - 1]
  }

  // One run, from any row a crash may leave: it completes unless a phase it still has to do
  // goes wrong; a completed run leaves the target in place exactly when it staged it itself,
  // and leaves the binding inactive exactly when it staged the target after an earlier run
  // had already recorded the cutover validation.
  lemma RunOutcome(plan: Plan, p0: ProviderId, row: Row, probes: Probes)
    requires Inv(plan, p0, row) && Executable(row)
    ensures var f := Execute(plan, row, probes);
            && f.trace != [] && f.row == Last(f)
            && (forall i :: 0 <= i < |f.trace| ==> Inv(plan, p0, f.trace[i]))
    ensures Fails(plan, row, probes) ==>
              var r := Execute(plan, row, probes).row;
              r.status.Failed? && r.provider == p0 && r.bindingStatus.Active?
    ensures !Fails(plan, row, probes) ==>
              Execute(plan, row, probes).row == GoalRow(plan, p0, Restages(row), !(Restages(row) && Done(row, ValidateCutover)))
  {
    hide UpToRetire, Fails, Restages;
    RetiredFlight(plan, p0, row, probes);
    FinishedFlight(plan, p0, UpToRetire(plan, row, probes));
  }

  // The final flush of a run in flight.
  lemma FinishedFlight(plan: Plan, p0: ProviderId, f: Flight)
    requires FlightInv(plan, p0, f)
    requires !f.raised ==> Done(f.row, StageTarget) && Done(f.row, Canary) && Done(f.row, ValidateCutover) && Done(f.row, RetireOldBinding)
    ensures Finish(f).trace == f.trace + [Finish(f).row] && Inv(plan, p0, Finish(f).row)
    ensures f.raised ==> Finish(f).row.status.Failed?
    ensures !f.raised && (f.row.bindingStatus.Active? || f.row.bindingStatus.PendingValidation?) ==>
              Finish(f).row == GoalRow(plan, f.row.state.previous.value, false, f.row.bindingStatus.Active?).(provider := f.row.provider)
    ensures !f.raised ==> f.row.state.previous == Some(p0)
  {
    assert PHASES[1] == StageTarget && PHASES[2] == Canary && PHASES[3] == ValidateCutover && PHASES[4] == RetireOldBinding;
  }

  lemma StepKeepsInv(plan: Plan, p0: ProviderId, row: Row, op: Op)
    requires Inv(plan, p0, row)
    ensures Inv(plan, p0, StepFlush(plan, row, op))
  {
    if op.ExecuteOp? && Executable(row) {
      RunOutcome(plan, p0, row, op.probes);
    }
  }

  lemma {:induction false} ReplayKeepsInv(plan: Plan, p0: ProviderId, status: BindingStatus, ops: seq<Op>)
    ensures Inv(plan, p0, Replay(plan, InitialRow(p0, status), ops))
    decreases |ops|
  {
    if ops != [] {
      ReplayKeepsInv(plan, p0, status, ops[..|ops| - 1]);
      StepKeepsInv(plan, p0, Replay(plan, InitialRow(p0, status), ops[..|ops| - 1]), ops[|ops| - 1]);
    }
  }

  // ---- what COMPLETED means over whole histories ----

  // Until its last flush a run neither gains nor loses the intention to stage the target.
  predicate KeepsIntent(f: Flight, restages: bool) {
    && Restages(f.row) == restages
    && (forall i :: 0 <= i < |f.trace| ==> f.trace[i].status.Running? && Restages(f.trace[i]) == restages)
  }

  lemma IntentThroughStage(plan: Plan, p0: ProviderId, row: Row, probes: Probes)
    requires Inv(plan, p0, row) && Executable(row)
    ensures KeepsIntent(UpToStage(plan, row, probes), Restages(row))
    ensures UpToStage(plan, row, probes).row.status.Running?
  {
    var f := Begin(Recover(row));
    BeginKeepsIntent(plan, p0, row);
    PreflightKeepsIntent(f, probes, Restages(row));
    StageKeepsIntent(plan, RunPreflight(f, probes), Restages(row));
    hide Begin, Recover, RunPreflight, RunStage, KeepsIntent, Restages;
  }

  lemma BeginKeepsIntent(plan: Plan, p0: ProviderId, row: Row)
    requires Inv(plan, p0, row) && Executable(row)
    ensures var f := Begin(Recover(row));
            KeepsIntent(f, Restages(row)) && f.row.status.Running? && !f.row.state.required
  {
  }

  lemma PreflightKeepsIntent(f: Flight, probes: Probes, restages: bool)
    requires KeepsIntent(f, restages) && f.row.status.Running? && !f.row.state.required
    ensures var g := RunPreflight(f, probes);
            KeepsIntent(g, restages) && g.row.status.Running? && !g.row.state.required
  {
    hide PreflightPasses;
  }

  lemma StageKeepsIntent(plan: Plan, f: Flight, restages: bool)
    requires KeepsIntent(f, restages) && f.row.status.Running? && !f.row.state.required
    ensures KeepsIntent(RunStage(plan, f), restages) && RunStage(plan, f).row.status.Running?
  {
  }

  lemma IntentThroughRetire(plan: Plan, p0: ProviderId, row: Row, probes: Probes)
    requires Inv(plan, p0, row) && Executable(row)
    ensures KeepsIntent(UpToRetire(plan, row, probes), Restages(row))
  {
    IntentThroughStage(plan, p0, row, probes);
    TryBlock(plan, row, probes);
    var f := UpToStage(plan, row, probes);
    CanaryKeepsIntent(plan, f, Restages(row));
    ValidateKeepsIntent(plan, RunCanary(plan, f), probes, Restages(row));
    RetireKeepsIntent(plan, RunValidate(plan, RunCanary(plan, f), probes), Restages(row));
    hide *;
  }

  lemma CanaryKeepsIntent(plan: Plan, f: Flight, restages: bool)
    requires KeepsIntent(f, restages) && f.row.status.Running?
    ensures KeepsIntent(RunCanary(plan, f), restages) && RunCanary(plan, f).row.status.Running?
  {
    hide CanaryFrom;
  }

  lemma ValidateKeepsIntent(plan: Plan, f: Flight, probes: Probes, restages: bool)
    requires KeepsIntent(f, restages) && f.row.status.Running?
    ensures KeepsIntent(RunValidate(plan, f, probes), restages) && RunValidate(plan, f, probes).row.status.Running?
  {
  }

  lemma RetireKeepsIntent(plan: Plan, f: Flight, restages: bool)
    requires KeepsIntent(f, restages) && f.row.status.Running?
    ensures KeepsIntent(RunRetire(plan, f), restages)
  {
  }

  predicate StagedFailure(row: Row) {
    row.status.Failed? && Done(row, StageTarget)
  }

  // Some earlier run ended FAILED with `stage_target` already recorded.
  predicate HadStagedFailure(plan: Plan, row0: Row, ops: seq<Op>)
    decreases |ops|
  {
    ops != [] && (StagedFailure(Replay(plan, row0, ops)) || HadStagedFailure(plan, row0, ops[..|ops| - 1]))
  }

  predicate IsGoal(plan: Plan, p0: ProviderId, row: Row, onTarget: bool) {
    row == GoalRow(plan, p0, onTarget, true) || row == GoalRow(plan, p0, onTarget, false)
  }

  predicate Ledger(plan: Plan, p0: ProviderId, row: Row, had: bool) {
    && (Executable(row) ==> Restages(row) == !had)
    && (row.status.Completed? ==> IsGoal(plan, p0, row, !had))
  }

  // The rows one run may stop at: the row it found, a running row with the same intent, or its last row.
  lemma StopsAt(plan: Plan, p0: ProviderId, row: Row, op: Op)
    requires Inv(plan, p0, row) && Executable(row) && op.ExecuteOp?
    ensures var next := StepFlush(plan, row, op);
            || next == row
            || (next.status.Running? && Restages(next) == Restages(row))
            || next == Execute(plan, row, op.probes).row
  {
    hide UpToRetire, Inv, Restages;
    IntentThroughRetire(plan, p0, row, op.probes);
    var f := UpToRetire(plan, row, op.probes);
    assert Execute(plan, row, op.probes).trace == f.trace + [Execute(plan, row, op.probes).row];
    if 0 < op.flushes <= |f.trace| {
      assert StepFlush(plan, row, op) == f.trace[op.flushes - 1];
    }
  }

  lemma FailureLedger(plan: Plan, p0: ProviderId, row: Row, probes: Probes)
    requires Inv(plan, p0, row) && Executable(row) && Fails(plan, row, probes)
    ensures var next := Execute(plan, row, probes).row;
            && next.status.Failed? && !next.state.required
            && (Restages(row) ==> Restages(next) == !StagedFailure(next))
            && (!Restages(row) ==> StagedFailure(next))
  {
    hide UpToRetire, Inv, Fails;
    RetiredFlight(plan, p0, row, probes);
    IntentThroughRetire(plan, p0, row, probes);
  }

  lemma StepLedger(plan: Plan, p0: ProviderId, row: Row, op: Op, had: bool)
    requires Inv(plan, p0, row) && Ledger(plan, p0, row, had)
    ensures var next := StepFlush(plan, row, op);
            Ledger(plan, p0, next, had || StagedFailure(next))
  {
    if op.ExecuteOp? && Executable(row) {
      hide StepFlush, Execute, Fails, CanaryFrom;
      StopsAt(plan, p0, row, op);
      RunOutcome(plan, p0, row, op.probes);
      if Fails(plan, row, op.probes) {
        FailureLedger(plan, p0, row, op.probes);
      }
    }
  }

  lemma {:induction false} ReplayLedger(plan: Plan, p0: ProviderId, status: BindingStatus, ops: seq<Op>)
    ensures var row0 := InitialRow(p0, status);
            Ledger(plan, p0, Replay(plan, row0, ops), HadStagedFailure(plan, row0, ops))
    decreases |ops|
  {
    var row0 := InitialRow(p0, status);
    if ops != [] {
      var before := ops[..|ops| - 1];
      hide StepFlush, Ledger;
      ReplayLedger(plan, p0, status, before);
      ReplayKeepsInv(plan, p0, status, before);
      StepLedger(plan, p0, Replay(plan, row0, before), ops[|ops| - 1], HadStagedFailure(plan, row0, before));
    }
  }

  // ---- main results ----

  // Every row any history of interrupted runs, failures and rollbacks can leave behind.
  lemma CrashSafety(plan: Plan, p0: ProviderId, status: BindingStatus, ops: seq<Op>)
    ensures var r := Replay(plan, InitialRow(p0, status), ops);
            && (r.provider == p0 || r.provider == plan.target)
            && (r.state.previous == None || r.state.previous == Some(p0))
            && (r.provider != p0 ==> r.state.required || r.status.Completed?)
            && (r.state.required ==> r.status.Running? && Rollback(r).Ok? && Rollback(r).value.provider == p0)
            && (r.status.Failed? || r.status.RolledBack? ==> r.provider == p0 && r.bindingStatus.Active?)
  {
    ReplayKeepsInv(plan, p0, status, ops);
  }

  // _assert_switchover_state_invariants
  predicate StateAssertion(row: Row) {
    row.status.Completed? ==> row.state.marker.AllDone? && row.state.completed == PHASES && row.finishedAt
  }

  // The engine's own check of a completed plan never fires, whatever was interrupted before;
  // it does not look at the provider, and so does not notice a plan that completed off target.
  lemma StateAssertionNeverFires(plan: Plan, p0: ProviderId, status: BindingStatus, ops: seq<Op>)
    ensures StateAssertion(Replay(plan, InitialRow(p0, status), ops))
  {
    ReplayKeepsInv(plan, p0, status, ops);
  }

  // A plan that has completed is on its target unless an earlier run failed after staging.
  lemma CompletedOnTarget(plan: Plan, p0: ProviderId, status: BindingStatus, ops: seq<Op>)
    requires plan.target != p0
    requires Replay(plan, InitialRow(p0, status), ops).status.Completed?
    ensures var row0 := InitialRow(p0, status);
            && (Replay(plan, row0, ops).provider == plan.target <==> !HadStagedFailure(plan, row0, ops))
            && IsGoal(plan, p0, Replay(plan, row0, ops), !HadStagedFailure(plan, row0, ops))
  {
    hide Replay, HadStagedFailure;
    ReplayLedger(plan, p0, status, ops);
  }

  // Crashes are invisible: a history without a staged failure that completes with an active
  // binding ends in exactly the row that one uninterrupted run would have left.
  lemma InterruptedRunsConverge(plan: Plan, p0: ProviderId, status: BindingStatus, ops: seq<Op>, probes: Probes)
    requires !Aborts(plan) && PreflightPasses(probes) && CutoverPasses(probes)
    requires var row0 := InitialRow(p0, status);
             && Replay(plan, row0, ops).status.Completed? && Replay(plan, row0, ops).bindingStatus.Active?
             && !HadStagedFailure(plan, row0, ops)
    ensures Replay(plan, InitialRow(p0, status), ops) == Execute(plan, InitialRow(p0, status), probes).row
  {
    hide Replay, HadStagedFailure, Execute;
    ReplayLedger(plan, p0, status, ops);
    RunOutcome(plan, p0, InitialRow(p0, status), probes);
  }

  // When a run that does not fail ends on the target with an aborted canary on record: exactly
  // when it stages the target itself and an earlier run had already flushed the aborted canary.
  lemma AbortedCanaryOnTarget(plan: Plan, p0: ProviderId, row: Row, probes: Probes)
    requires Inv(plan, p0, row) && Executable(row) && plan.target != p0 && !Fails(plan, row, probes)
    ensures var r := Execute(plan, row, probes).row;
            r.provider == plan.target && r.state.aborted <==> Restages(row) && row.state.aborted
  {
    hide Execute;
    RunOutcome(plan, p0, row, probes);
  }

  // It does happen: for every plan whose canary aborts, a crash between the flush of the canary
  // and the flush of the failure is enough.
  lemma AbortedCanaryCanReachTarget(plan: Plan, p0: ProviderId, status: BindingStatus, probes: Probes)
    requires Aborts(plan) && PreflightPasses(probes) && CutoverPasses(probes)
    ensures var r := Replay(plan, InitialRow(p0, status), [ExecuteOp(probes, 4), ExecuteOp(probes, 9)]);
            r.status.Completed? && r.provider == plan.target && r.state.aborted
  {
    var row0 := InitialRow(p0, status);
    var ops := [ExecuteOp(probes, 4), ExecuteOp(probes, 9)];
    TwoSteps(plan, row0, ops[0], ops[1]);
    CrashAfterCanary(plan, p0, status, probes);
    hide StepFlush, CutoverPasses, PreflightPasses, CanaryFrom, Inv;
    FirstStepKeepsInv(plan, p0, status, ops[0]);
    ResumeCompletes(plan, p0, StepFlush(plan, row0, ops[0]), probes);
  }

  lemma TwoSteps(plan: Plan, row0: Row, a: Op, b: Op)
    ensures Replay(plan, row0, [a, b]) == StepFlush(plan, StepFlush(plan, row0, a), b)
  {
    hide StepFlush;
    assert [a, b][..1] == [a] && [a][..0] == [];
    assert Replay(plan, row0, [a]) == StepFlush(plan, row0, a);
  }

  // No run flushes more than eight times.
  lemma LastRunLength(plan: Plan, row: Row, probes: Probes)
    ensures 0 < |Execute(plan, row, probes).trace| <= 8
  {
    hide CanaryFrom, MarkDone, Done, Aborts;
    TryBlock(plan, row, probes);
  }

  lemma FirstStepKeepsInv(plan: Plan, p0: ProviderId, status: BindingStatus, op: Op)
    ensures Inv(plan, p0, StepFlush(plan, InitialRow(p0, status), op))
  {
    hide StepFlush;
    StepKeepsInv(plan, p0, InitialRow(p0, status), op);
  }

  lemma ResumeCompletes(plan: Plan, p0: ProviderId, row: Row, probes: Probes)
    requires Inv(plan, p0, row) && Executable(row) && !Fails(plan, row, probes)
    ensures StepFlush(plan, row, ExecuteOp(probes, 9)) ==
            GoalRow(plan, p0, Restages(row), !(Restages(row) && Done(row, ValidateCutover)))
  {
    hide Execute, Fails, Inv, GoalRow;
    RunOutcome(plan, p0, row, probes);
    LastRunLength(plan, row, probes);
  }

  // A first run reaches the canary with three flushes behind it.
  lemma FreshRunStages(plan: Plan, p0: ProviderId, status: BindingStatus, probes: Probes)
    requires PreflightPasses(probes)
    ensures var f := UpToStage(plan, InitialRow(p0, status), probes);
            && !f.raised && |f.trace| == 3
            && f.row.status.Running? && f.row.state.completed == [Preflight, StageTarget] && f.row.state.required
  {
    hide PreflightPasses;
  }

  lemma CrashAfterCanary(plan: Plan, p0: ProviderId, status: BindingStatus, probes: Probes)
    requires PreflightPasses(probes)
    ensures var r := StepFlush(plan, InitialRow(p0, status), ExecuteOp(probes, 4));
            && r.status.Running? && r.state.completed == [Preflight, StageTarget, Canary] && r.state.required
            && r.state.aborted == Aborts(plan)
  {
    hide CanaryFrom, PreflightPasses, CutoverPasses, Aborts, RunPhases, RunPhase, UpToRetire;
    TryBlock(plan, InitialRow(p0, status), probes);
    FreshRunStages(plan, p0, status, probes);
    hide UpToStage, InitialRow;
  }

  lemma CrashAfterValidation(plan: Plan, p0: ProviderId, status: BindingStatus, probes: Probes)
    requires !Aborts(plan) && PreflightPasses(probes) && CutoverPasses(probes)
    ensures var r := StepFlush(plan, InitialRow(p0, status), ExecuteOp(probes, 5));
            && r.status.Running? && r.state.completed == [Preflight, StageTarget, Canary, ValidateCutover] && r.state.required
  {
    hide CanaryFrom, PreflightPasses, CutoverPasses, Aborts, RunPhases, RunPhase, UpToRetire;
    TryBlock(plan, InitialRow(p0, status), probes);
    FreshRunStages(plan, p0, status, probes);
    hide UpToStage, InitialRow;
  }

  // When a run that does not fail leaves the plan COMPLETED but the binding not ACTIVE: exactly
  // when it stages the target although an earlier run already recorded the validation.
  lemma CompletedButInactive(plan: Plan, p0: ProviderId, row: Row, probes: Probes)
    requires Inv(plan, p0, row) && Executable(row) && !Fails(plan, row, probes)
    ensures var r := Execute(plan, row, probes).row;
            && r.status.Completed?
            && (!r.bindingStatus.Active? <==> Restages(row) && Done(row, ValidateCutover))
  {
    hide Execute;
    RunOutcome(plan, p0, row, probes);
  }

  // It does happen: a crash right after the flush of the validation, then one clean run.
  lemma CompletedButInactiveHappens(plan: Plan, p0: ProviderId, status: BindingStatus, probes: Probes)
    requires !Aborts(plan) && PreflightPasses(probes) && CutoverPasses(probes)
    ensures var r := Replay(plan, InitialRow(p0, status), [ExecuteOp(probes, 5), ExecuteOp(probes, 9)]);
            r.status.Completed? && r.provider == plan.target && r.bindingStatus.PendingValidation?
  {
    var row0 := InitialRow(p0, status);
    var ops := [ExecuteOp(probes, 5), ExecuteOp(probes, 9)];
    TwoSteps(plan, row0, ops[0], ops[1]);
    CrashAfterValidation(plan, p0, status, probes);
    hide StepFlush, CutoverPasses, PreflightPasses, CanaryFrom, Inv;
    FirstStepKeepsInv(plan, p0, status, ops[0]);
    ResumeCompletes(plan, p0, StepFlush(plan, row0, ops[0]), probes);
  }
}
