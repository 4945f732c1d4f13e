// The switchover plan as data: what the two rows it owns contain, what one run of the
// engine reads from outside, and the sequence of rows that one run flushes.
module SwitchoverModel {
  import opened Domain

  datatype Phase = Preflight | StageTarget | Canary | ValidateCutover | RetireOldBinding

  const PHASES: seq<Phase> := [Preflight, StageTarget, Canary, ValidateCutover, RetireOldBinding]

  // The "phase" entry of the execution state.
  datatype Marker =
    | InPhase(phase: Phase)
    | AllDone
    | RollbackComplete
    | ManualRollbackComplete

  datatype RetirementStrategy = Immediate | Deferred | Manual

  datatype RetirementStatus = RetirementPending | OldRetired | RetirementDeferred | ManualActionRequired

  // What create_switchover_plan fixes for good.
  datatype Plan = Plan(
    target: ProviderId,
    storage: bool,
    strategy: RetirementStrategy,
    trafficPercent: int,
    checkpointCount: int,
    abortRate: real,
    simulatedRate: Option<real>)

  datatype CanaryCheckpoint = CanaryCheckpoint(number: int, trafficPercent: int, errorRate: real, healthy: bool)

  // The execution_state dictionary. `required` and `previous` are the rollback checkpoint;
  // the empty dictionary is `required == false, previous == None`.
  datatype ExecutionState = ExecutionState(
    marker: Marker,
    completed: seq<Phase>,
    required: bool,
    previous: Option<ProviderId>,
    checkpoints: seq<CanaryCheckpoint>,
    aborted: bool,
    retirement: RetirementStatus,
    dataCopied: bool,
    cutoverVerified: bool)

  // The binding row and the plan row, as far as a run writes them.
  datatype Row = Row(
    provider: ProviderId,
    bindingStatus: BindingStatus,
    status: SwitchoverStatus,
    state: ExecutionState,
    finishedAt: bool)

  datatype PreflightReport = PreflightReport(health: bool, secrets: bool, region: bool, migrations: bool)

  datatype Health = Ready | NotReady | Raises

  // Everything one run learns from the catalogue, the adapters and the other tables.
  // `report == None` means that looking up the target or building the report raised.
  datatype Probes = Probes(
    report: Option<PreflightReport>,
    referencesFound: bool,
    targetHealth: Health,
    prerequisitesMet: bool)

  predicate PreflightReady(report: PreflightReport) {
    report.health && report.secrets && report.region && report.migrations
  }

  predicate PreflightPasses(probes: Probes) {
    probes.report.Some? && PreflightReady(probes.report.value)
  }

  predicate CutoverPasses(probes: Probes) {
    probes.referencesFound && probes.targetHealth.Ready? && probes.prerequisitesMet
  }

  // ---- creating a plan ----

  datatype CreateError =
    | BadStrategy
    | BadTrafficPercent
    | BadCheckpointCount
    | BadAbortRate
    | TargetMissing
    | CapabilityMissing
    | OperationsMissing(operations: set<string>)
    | NotReplaceable(operations: set<string>)
    | PreflightFailed

  // What creating a plan looks up: the catalogue rows, the operations the capability requires and
  // the two providers support, and the preflight report.
  datatype Lookups = Lookups(
    targetFound: bool,
    capabilityFound: bool,
    required: set<string>,
    current: set<string>,
    target: set<string>,
    report: PreflightReport)

  function ParseStrategy(name: string): Option<RetirementStrategy> {
    if name == "immediate" then Some(Immediate)
    else if name == "deferred" then Some(Deferred)
    else if name == "manual" then Some(Manual)
    else None
  }

  function InitialState(): ExecutionState {
    ExecutionState(InPhase(Preflight), [], false, None, [], false, RetirementPending, false, false)
  }

  function InitialRow(provider: ProviderId, bindingStatus: BindingStatus): Row {
    Row(provider, bindingStatus, SwitchoverStatus.Pending, InitialState(), false)
  }

  // The retirement strategy arrives as text; `terms` holds the rest of the request.
  function CreatePlan(terms: Plan, strategy: string, lookups: Lookups, provider: ProviderId, bindingStatus: BindingStatus)
    : (r: Result<(Plan, Row), CreateError>)
    ensures r.Ok? <==>
              && strategy in {"immediate", "deferred", "manual"}
              && 0 <= terms.trafficPercent <= 100 && 1 <= terms.checkpointCount && 0.0 <= terms.abortRate <= 1.0
              && lookups.targetFound && lookups.capabilityFound
              && lookups.required + lookups.current <= lookups.target
              && lookups.report.health && lookups.report.secrets && lookups.report.region && lookups.report.migrations
    ensures r.Ok? ==>
              && r.value.0 == terms.(strategy := if strategy == "immediate" then Immediate
                                                 else if strategy == "deferred" then Deferred else Manual)
              && r.value.1 == Row(provider, bindingStatus, SwitchoverStatus.Pending,
                                  ExecutionState(InPhase(Preflight), [], false, None, [], false, RetirementPending, false, false),
                                  false)
    ensures r == Err(BadStrategy) <==> strategy !in {"immediate", "deferred", "manual"}
    ensures r == Err(BadTrafficPercent) ==> !(0 <= terms.trafficPercent <= 100)
    ensures r == Err(BadCheckpointCount) ==> 0 <= terms.trafficPercent <= 100 && terms.checkpointCount < 1
    ensures r == Err(BadAbortRate) ==> 0 <= terms.trafficPercent <= 100 && 1 <= terms.checkpointCount && !(0.0 <= terms.abortRate <= 1.0)
    ensures strategy in {"immediate", "deferred", "manual"} &&
              !(0 <= terms.trafficPercent <= 100 && 1 <= terms.checkpointCount && 0.0 <= terms.abortRate <= 1.0) ==>
              r in {Err(BadTrafficPercent), Err(BadCheckpointCount), Err(BadAbortRate)}
    ensures r == Err(TargetMissing) ==> ValidPlan(terms) && !lookups.targetFound
    ensures r == Err(CapabilityMissing) ==> ValidPlan(terms) && lookups.targetFound && !lookups.capabilityFound
    ensures r.Err? && r.error.OperationsMissing? ==>
              r.error.operations != {} && forall o :: o in r.error.operations <==> o in lookups.required && o !in lookups.target
    ensures r.Err? && r.error.NotReplaceable? ==>
              && r.error.operations != {} && (forall o :: o in r.error.operations <==> o in lookups.current && o !in lookups.target)
              && lookups.required <= lookups.target
    ensures r == Err(PreflightFailed) ==>
              && lookups.required + lookups.current <= lookups.target
              && !(lookups.report.health && lookups.report.secrets && lookups.report.region && lookups.report.migrations)
  {
    if ParseStrategy(strategy).None? then Err(BadStrategy)
    else if terms.trafficPercent < 0 || terms.trafficPercent > 100 then Err(BadTrafficPercent)
    else if terms.checkpointCount < 1 then Err(BadCheckpointCount)
    else if terms.abortRate < 0.0 || terms.abortRate > 1.0 then Err(BadAbortRate)
    else if !lookups.targetFound then Err(TargetMissing)
    else if !lookups.capabilityFound then Err(CapabilityMissing)
    else if lookups.required - lookups.target != {} then Err(OperationsMissing(lookups.required - lookups.target))
    else
      assert lookups.required <= (lookups.required - lookups.target) + lookups.target;
      assert lookups.current <= (lookups.current - lookups.target) + lookups.target;
      if lookups.current - lookups.target != {} then Err(NotReplaceable(lookups.current - lookups.target))
      else if !PreflightReady(lookups.report) then Err(PreflightFailed)
      else Ok((terms.(strategy := ParseStrategy(strategy).value), InitialRow(provider, bindingStatus)))
  }

  predicate ValidPlan(plan: Plan) {
    && 0 <= plan.trafficPercent <= 100
    && 1 <= plan.checkpointCount
    && 0.0 <= plan.abortRate <= 1.0
  }

  // ---- the canary ----

  function ErrorRate(plan: Plan): real {
    if plan.simulatedRate.Some? then plan.simulatedRate.value else 0.0
  }

  function CheckpointAt(plan: Plan, index: int): CanaryCheckpoint {
    CanaryCheckpoint(index + 1, plan.trafficPercent, ErrorRate(plan), ErrorRate(plan) <= plan.abortRate)
  }

  // The checkpoints recorded from position `index` on; the first unhealthy one is the last.
  function CanaryFrom(plan: Plan, index: int): seq<CanaryCheckpoint>
    decreases plan.checkpointCount - index
  {
    if index >= plan.checkpointCount then []
    else if ErrorRate(plan) > plan.abortRate then [CheckpointAt(plan, index)]
    else [CheckpointAt(plan, index)] + CanaryFrom(plan, index + 1)
  }

  predicate Aborts(plan: Plan) {
    plan.checkpointCount >= 1 && ErrorRate(plan) > plan.abortRate
  }

  predicate FullyHealthy(plan: Plan, checkpoints: seq<CanaryCheckpoint>) {
    && |checkpoints| == plan.checkpointCount
    && forall i :: 0 <= i < |checkpoints| ==> checkpoints[i].healthy
  }

  // What the canary records from position `index` on, read off the request alone: the rate that
  // was given, or none at all, against the threshold. Without an abort every checkpoint is
  // recorded and healthy; an abort records one that is not.
  lemma {:induction false} CanaryRecord(plan: Plan, index: int)
    requires 0 <= index && (index <= plan.checkpointCount || index == 0)
    ensures var rate := match plan.simulatedRate case Some(given) => given case None => 0.0;
            var c := CanaryFrom(plan, index);
            && (Aborts(plan) <==> plan.checkpointCount >= 1 && rate > plan.abortRate)
            && |c| == (if index >= plan.checkpointCount then 0 else if rate > plan.abortRate then 1 else plan.checkpointCount - index)
            && forall i :: 0 <= i < |c| ==> c[i] == CanaryCheckpoint(index + i + 1, plan.trafficPercent, rate, rate <= plan.abortRate)
    decreases plan.checkpointCount - index
  {
    if index < plan.checkpointCount && !Aborts(plan) {
      CanaryRecord(plan, index + 1);
    }
  }

  // A plan that could be created aborts exactly when a rate above the threshold was given.
  lemma CanaryAbortsIff(plan: Plan)
    requires ValidPlan(plan)
    ensures Aborts(plan) <==> plan.simulatedRate.Some? && plan.simulatedRate.value > plan.abortRate
    ensures forall i :: 0 <= i < |CanaryFrom(plan, 0)| ==>
              && CanaryFrom(plan, 0)[i].errorRate == (if plan.simulatedRate.Some? then plan.simulatedRate.value else 0.0)
              && CanaryFrom(plan, 0)[i].trafficPercent == plan.trafficPercent
              && CanaryFrom(plan, 0)[i].number == i + 1
  {
    CanaryRecord(plan, 0);
  }

  // ---- one run ----

  predicate Executable(row: Row) {
    row.status.Pending? || row.status.Running? || row.status.Failed?
  }

  predicate Done(row: Row, phase: Phase) {
    phase in row.state.completed
  }

  function Without(phases: seq<Phase>, p: Phase): (r: seq<Phase>)
    ensures p !in r
    ensures forall q :: q != p ==> (q in r <==> q in phases)
  {
    if phases == [] then []
    else
      var rest := Without(phases[1..], p);
      assert forall q :: q in phases <==> q == phases[0] || q in phases[1..];
      if phases[0] == p then rest else [phases[0]] + rest
  }

  function MarkDone(state: ExecutionState, phase: Phase): ExecutionState {
    state.(marker := InPhase(phase), completed := state.completed + [phase])
  }

  function RetirementOf(strategy: RetirementStrategy): RetirementStatus {
    match strategy
    case Immediate => OldRetired
    case Deferred => RetirementDeferred
    case Manual => ManualActionRequired
  }

  // A run in flight: the current rows, everything flushed so far, and whether an exception is up.
  datatype Flight = Flight(row: Row, trace: seq<Row>, raised: bool)

  function Flushed(f: Flight, row: Row): Flight {
    Flight(row, f.trace + [row], f.raised)
  }

  predicate NeedsRecovery(row: Row) {
    row.state.required && row.state.previous.Some?
  }

  function RecoveredRow(row: Row): Row
    requires NeedsRecovery(row)
  {
    Row(row.state.previous.value, BindingStatus.Active, SwitchoverStatus.Running,
        row.state.(required := false, marker := InPhase(Preflight), completed := Without(row.state.completed, StageTarget)),
        row.finishedAt)
  }

  function Recover(row: Row): Flight {
    if NeedsRecovery(row) then Flight(RecoveredRow(row), [RecoveredRow(row)], false) else Flight(row, [], false)
  }

  function Begin(f: Flight): Flight {
    Flushed(f, f.row.(status := SwitchoverStatus.Running))
  }

  function RunPreflight(f: Flight, probes: Probes): Flight {
    if Done(f.row, Preflight) then f
    else if !PreflightPasses(probes) then f.(raised := true)
    else Flushed(f, f.row.(state := MarkDone(f.row.state, Preflight)))
  }

  function StagedRow(plan: Plan, row: Row): Row {
    Row(plan.target, BindingStatus.PendingValidation, row.status,
        MarkDone(row.state.(required := true, previous := Some(row.provider), dataCopied := row.state.dataCopied || plan.storage), StageTarget),
        row.finishedAt)
  }

  function RunStage(plan: Plan, f: Flight): Flight {
    if f.raised || Done(f.row, StageTarget) then f else Flushed(f, StagedRow(plan, f.row))
  }

  function CanaryRow(plan: Plan, row: Row): Row {
    row.(state := MarkDone(row.state.(checkpoints := CanaryFrom(plan, 0), aborted := Aborts(plan)), Canary))
  }

  function RunCanary(plan: Plan, f: Flight): Flight {
    if f.raised || Done(f.row, Canary) then f
    else Flushed(f, CanaryRow(plan, f.row)).(raised := Aborts(plan))
  }

  function ValidatedRow(plan: Plan, row: Row): Row {
    row.(bindingStatus := BindingStatus.Active,
         state := MarkDone(row.state.(cutoverVerified := row.state.cutoverVerified || plan.storage), ValidateCutover))
  }

  function RunValidate(plan: Plan, f: Flight, probes: Probes): Flight {
    if f.raised || Done(f.row, ValidateCutover) then f
    else if !CutoverPasses(probes) then f.(raised := true)
    else Flushed(f, ValidatedRow(plan, f.row))
  }

  function RunRetire(plan: Plan, f: Flight): Flight {
    if f.raised || Done(f.row, RetireOldBinding) then f
    else Flushed(f, f.row.(state := MarkDone(f.row.state.(retirement := RetirementOf(plan.strategy)), RetireOldBinding)))
  }

  function CompletedRow(row: Row): Row {
    row.(status := SwitchoverStatus.Completed, finishedAt := true,
         state := row.state.(marker := AllDone, completed := PHASES, required := false))
  }

  // The exception path: restore the checkpoint, or keep the current provider when there is none.
  function FailedRow(row: Row): Row {
    var restored := if row.state.previous.Some? then row.state.previous.value else row.provider;
    Row(restored, BindingStatus.Active, SwitchoverStatus.Failed,
        row.state.(required := false, previous := Some(restored), marker := RollbackComplete),
        true)
  }

  function Finish(f: Flight): Flight {
    if f.raised then Flushed(f, FailedRow(f.row)) else Flushed(f, CompletedRow(f.row))
  }

  function RunPhase(plan: Plan, f: Flight, probes: Probes, phase: Phase): Flight {
    match phase
    case Preflight => RunPreflight(f, probes)
    case StageTarget => RunStage(plan, f)
    case Canary => RunCanary(plan, f)
    case ValidateCutover => RunValidate(plan, f, probes)
    case RetireOldBinding => RunRetire(plan, f)
  }

  function RunPhases(plan: Plan, f: Flight, probes: Probes, phases: seq<Phase>): Flight
    decreases |phases|
  {
    if phases == [] then f
    else RunPhase(plan, RunPhases(plan, f, probes, phases[..|phases| - 1]), probes, phases[|phases| - 1])
  }

  function UpToRetire(plan: Plan, row: Row, probes: Probes): Flight {
    RunPhases(plan, Begin(Recover(row)), probes, PHASES)
  }

  function UpToStage(plan: Plan, row: Row, probes: Probes): Flight {
    RunStage(plan, RunPreflight(Begin(Recover(row)), probes))
  }

  lemma TryBlock(plan: Plan, row: Row, probes: Probes)
    ensures UpToRetire(plan, row, probes) ==
            RunRetire(plan, RunValidate(plan, RunCanary(plan, UpToStage(plan, row, probes)), probes))
  {
    hide RunPreflight, RunStage, RunCanary, RunValidate, RunRetire, Recover, Begin, RunPhases;
    PhasesInOrder(plan, Begin(Recover(row)), probes);
  }

  // The try block, written out phase by phase.
  lemma PhasesInOrder(plan: Plan, f: Flight, probes: Probes)
    ensures RunPhases(plan, f, probes, PHASES) ==
            RunRetire(plan, RunValidate(plan, RunCanary(plan, RunStage(plan, RunPreflight(f, probes))), probes))
  {
    hide RunPreflight, RunStage, RunCanary, RunValidate, RunRetire;
    var p5, p4, p3, p2, p1 := PHASES, PHASES[..4], PHASES[..3], PHASES[..2], PHASES[..1];
    assert p5[..4] == p4 && p4[..3] == p3 && p3[..2] == p2 && p2[..1] == p1 && p1[..0] == [];
    assert RunPhases(plan, f, probes, p1[..0]) == f;
    assert RunPhases(plan, f, probes, p1) == RunPreflight(f, probes);
    assert RunPhases(plan, f, probes, p2) == RunStage(plan, RunPreflight(f, probes));
    assert RunPhases(plan, f, probes, p3) == RunCanary(plan, RunStage(plan, RunPreflight(f, probes)));
    assert RunPhases(plan, f, probes, p4) == RunValidate(plan, RunCanary(plan, RunStage(plan, RunPreflight(f, probes))), probes);
  }

  function Execute(plan: Plan, row: Row, probes: Probes): Flight {
    Finish(UpToRetire(plan, row, probes))
  }

  // ---- the manual rollback ----

  datatype RollbackError = NoCheckpoint

  function RolledBackRow(row: Row): Row
    requires row.state.previous.Some?
  {
    Row(row.state.previous.value, BindingStatus.Active, SwitchoverStatus.RolledBack,
        row.state.(marker := ManualRollbackComplete, required := false), true)
  }

  function Rollback(row: Row): Result<Row, RollbackError> {
    if row.state.previous.None? then Err(NoCheckpoint) else Ok(RolledBackRow(row))
  }
}
