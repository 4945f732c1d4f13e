// The switchover engine seen between requests: a run either commits its last row or, when it
// dies, commits nothing. Every such history is also a history of SwitchoverFlushLevel.
module SwitchoverCommitLevel {
  import opened Domain
  import opened SwitchoverModel
  import Flush = SwitchoverFlushLevel

  datatype Op = ExecuteOp(probes: Probes, commits: bool) | RollbackOp

  function StepCommit(plan: Plan, row: Row, op: Op): Row {
    match op
    case ExecuteOp(probes, commits) =>
      if !Executable(row) || !commits then row else Execute(plan, row, probes).row
    case RollbackOp =>
      var r := Rollback(row);
      if r.Ok? then r.value else row
  }

  function Replay(plan: Plan, row0: Row, ops: seq<Op>): Row
    decreases |ops|
  {
    if ops == [] then row0
    else StepCommit(plan, Replay(plan, row0, ops[..|ops| - 1]), ops[|ops| - 1])
  }

  // ---- refinement of the flush-level histories ----

  function AsFlush(op: Op): Flush.Op {
    match op
    case ExecuteOp(probes, commits) => Flush.ExecuteOp(probes, if commits then 8 else 0)
    case RollbackOp => Flush.RollbackOp
  }

  function AsFlushes(ops: seq<Op>): (r: seq<Flush.Op>)
    ensures |r| == |ops| && forall i :: 0 <= i < |ops| ==> r[i] == AsFlush(ops[i])
  {
    seq(|ops|, i requires 0 <= i < |ops| => AsFlush(ops[i]))
  }

  lemma LastRowIsFinal(plan: Plan, row: Row, probes: Probes)
    ensures var f := Execute(plan, row, probes);
            f.trace != [] && f.row == f.trace[|f.trace| - 1]
  {
    hide UpToRetire;
  }

  lemma StepRefines(plan: Plan, row: Row, op: Op)
    ensures StepCommit(plan, row, op) == Flush.StepFlush(plan, row, AsFlush(op))
  {
    hide Execute;
    if op.ExecuteOp? {
      LastRowIsFinal(plan, row, op.probes);
      Flush.LastRunLength(plan, row, op.probes);
    }
  }

  lemma {:induction false} CommitHistoryIsFlushHistory(plan: Plan, row0: Row, ops: seq<Op>)
    ensures Replay(plan, row0, ops) == Flush.Replay(plan, row0, AsFlushes(ops))
    decreases |ops|
  {
    if ops != [] {
      hide StepCommit, Flush.StepFlush;
      var before := ops[..|ops| - 1];
      assert AsFlushes(ops)[..|ops| - 1] == AsFlushes(before);
      CommitHistoryIsFlushHistory(plan, row0, before);
      StepRefines(plan, Replay(plan, row0, before), ops[|ops| - 1]);
    }
  }

  // ---- the stronger invariant between requests ----

  predicate IsPhasePrefix(phases: seq<Phase>) {
    phases <= PHASES
  }

  // Committed phase lists: nothing yet, everything up to the canary, or everything.
  predicate Settled(row: Row) {
    && !row.state.required
    && (row.state.completed == [] || row.state.completed == PHASES[..3] || row.state.completed == PHASES)
    && (Executable(row) ==> row.state.completed != PHASES)
  }

  predicate Inv(plan: Plan, p0: ProviderId, row: Row) {
    Flush.Inv(plan, p0, row) && Settled(row)
  }

  lemma StagePhases(plan: Plan, row: Row, probes: Probes)
    requires Settled(row) && Executable(row)
    ensures var f := UpToStage(plan, row, probes);
            && f.row.state.completed ==
               (if row.state.completed != [] then row.state.completed
                else if f.raised then [] else [Preflight, StageTarget])
            && (f.raised ==> row.state.completed == [])
  {
    assert PHASES[..3] == [Preflight, StageTarget, Canary];
  }

  lemma FailureSettles(plan: Plan, row: Row, probes: Probes)
    requires Settled(row) && Executable(row)
    requires Execute(plan, row, probes).row.status.Failed?
    ensures Settled(Execute(plan, row, probes).row)
  {
    hide CanaryFrom, UpToStage, CutoverPasses;
    TryBlock(plan, row, probes);
    StagePhases(plan, row, probes);
    assert PHASES[..3] == [Preflight, StageTarget, Canary];
    assert [Preflight, StageTarget] + [Canary] == PHASES[..3];
  }

  lemma StepKeepsInv(plan: Plan, p0: ProviderId, row: Row, op: Op)
    requires Inv(plan, p0, row)
    ensures Inv(plan, p0, StepCommit(plan, row, op))
  {
    if op.ExecuteOp? && Executable(row) {
      hide Execute, Flush.Fails, CanaryFrom, Flush.Inv;
      Flush.RunOutcome(plan, p0, row, op.probes);
      LastRowIsFinal(plan, row, op.probes);
      if Flush.Fails(plan, row, op.probes) {
        FailureSettles(plan, row, op.probes);
      }
    }
  }

  lemma {:induction false} ReplayKeepsInv(plan: Plan, p0: ProviderId, status: BindingStatus, ops: seq<Op>)
    ensures Inv(plan, p0, Replay(plan, InitialRow(p0, status), ops))
    decreases |ops|
  {
    if ops != [] {
      hide StepCommit, Inv;
      ReplayKeepsInv(plan, p0, status, ops[..|ops| - 1]);
      StepKeepsInv(plan, p0, Replay(plan, InitialRow(p0, status), ops[..|ops| - 1]), ops[|ops| - 1]);
    }
  }

  // ---- main results ----

  // Provider safety over every history of executes, failures, resumes and rollbacks.
  lemma CommitSafety(plan: Plan, p0: ProviderId, status: BindingStatus, ops: seq<Op>)
    ensures var r := Replay(plan, InitialRow(p0, status), ops);
            && (r.provider == p0 || (r.provider == plan.target && r.status.Completed?))
            && (r.state.previous == None || r.state.previous == Some(p0))
            && (r.status.Failed? ==> r.provider == p0 && r.bindingStatus.Active?)
            && IsPhasePrefix(r.state.completed)
            && (r.status.Completed? ==> r.state.completed == PHASES && r.finishedAt)
  {
    ReplayKeepsInv(plan, p0, status, ops);
  }

  // A manual rollback after any finished run restores the original provider for good.
  lemma RollbackRestores(plan: Plan, p0: ProviderId, status: BindingStatus, ops: seq<Op>, later: seq<Op>)
    requires var r := Replay(plan, InitialRow(p0, status), ops); r.status.Completed? || r.status.Failed?
    ensures var r := Replay(plan, InitialRow(p0, status), ops + [RollbackOp] + later);
            r.status.RolledBack? && r.provider == p0 && r.bindingStatus.Active?
    decreases |later|
  {
    var row0 := InitialRow(p0, status);
    var all := ops + [RollbackOp] + later;
    if later == [] {
      assert all[..|all| - 1] == ops;
      ReplayKeepsInv(plan, p0, status, ops);
    } else {
      var before := later[..|later| - 1];
      assert all[..|all| - 1] == ops + [RollbackOp] + before;
      RollbackRestores(plan, p0, status, ops, before);
      ReplayKeepsInv(plan, p0, status, ops + [RollbackOp] + before);
      hide Execute, Flush.Inv;
      assert Replay(plan, row0, all) == StepCommit(plan, Replay(plan, row0, all[..|all| - 1]), later[|later| - 1]);
      RolledBackStays(plan, p0, Replay(plan, row0, all[..|all| - 1]), later[|later| - 1]);
    }
  }

  lemma RolledBackStays(plan: Plan, p0: ProviderId, row: Row, op: Op)
    requires Inv(plan, p0, row) && row.status.RolledBack?
    ensures var r := StepCommit(plan, row, op);
            r.status.RolledBack? && r.provider == p0 && r.bindingStatus.Active?
  {
    hide Execute;
  }

  // A run commits the target exactly when it did all the work itself: the preflight passed,
  // no checkpoint was unhealthy, and the target was ready with its prerequisites met.
  predicate EarnsCutover(plan: Plan, row: Row, probes: Probes) {
    && Executable(row) && row.state.completed == []
    && PreflightPasses(probes) && !Aborts(plan) && CutoverPasses(probes)
  }

  lemma CanaryAndHealthSafety(plan: Plan, p0: ProviderId, row: Row, probes: Probes)
    requires Inv(plan, p0, row) && Executable(row) && plan.target != p0 && ValidPlan(plan)
    ensures var r := Execute(plan, row, probes).row;
            && (r.provider == plan.target <==> EarnsCutover(plan, row, probes))
            && (r.provider == plan.target ==>
                  && r.status.Completed? && r.bindingStatus.Active?
                  && FullyHealthy(plan, r.state.checkpoints) && !r.state.aborted
                  && probes.targetHealth.Ready?)
  {
    hide Execute, CanaryFrom;
    Flush.RunOutcome(plan, p0, row, probes);
    CanaryRecord(plan, 0);
    assert PHASES[..3] == [Preflight, StageTarget, Canary];
  }

  // The run at position k of the history is where the target was earned, and it stayed since.
  predicate EarnedAt(plan: Plan, row0: Row, ops: seq<Op>, k: nat)
    requires k < |ops|
  {
    && ops[k].ExecuteOp? && ops[k].commits
    && EarnsCutover(plan, Replay(plan, row0, ops[..k]), ops[k].probes)
    && forall j :: k < j <= |ops| ==> Replay(plan, row0, ops[..j]).provider == plan.target
  }

  lemma EarnedAtExtends(plan: Plan, row0: Row, ops: seq<Op>, k: nat)
    requires k < |ops| - 1 && EarnedAt(plan, row0, ops[..|ops| - 1], k)
    requires Replay(plan, row0, ops).provider == plan.target
    ensures EarnedAt(plan, row0, ops, k)
  {
    hide Replay, EarnsCutover;
    var before := ops[..|ops| - 1];
    assert before[..k] == ops[..k];
    forall j | k < j <= |ops| ensures Replay(plan, row0, ops[..j]).provider == plan.target {
      if j < |ops| {
        assert before[..j] == ops[..j];
      } else {
        assert ops[..j] == ops;
      }
    }
  }

  // Whenever the binding is committed on the target, one single run put it there and earned it.
  lemma {:induction false} TargetWasEarned(plan: Plan, p0: ProviderId, status: BindingStatus, ops: seq<Op>) returns (k: nat)
    requires plan.target != p0 && ValidPlan(plan)
    requires Replay(plan, InitialRow(p0, status), ops).provider == plan.target
    ensures k < |ops| && EarnedAt(plan, InitialRow(p0, status), ops, k)
    decreases |ops|
  {
    var row0 := InitialRow(p0, status);
    hide EarnedAt, EarnsCutover, Inv, StepCommit;
    var n := |ops| - 1;
    var row := Replay(plan, row0, ops[..n]);
    ReplayKeepsInv(plan, p0, status, ops[..n]);
    if row.provider == plan.target {
      k := TargetWasEarned(plan, p0, status, ops[..n]);
      EarnedAtExtends(plan, row0, ops, k);
    } else {
      k := n;
      OnlyExecuteReachesTarget(plan, p0, row, ops[n]);
      EarnedJustNow(plan, row0, ops);
    }
  }

  lemma EarnedJustNow(plan: Plan, row0: Row, ops: seq<Op>)
    requires ops != [] && Replay(plan, row0, ops).provider == plan.target
    requires var op := ops[|ops| - 1];
             op.ExecuteOp? && op.commits && EarnsCutover(plan, Replay(plan, row0, ops[..|ops| - 1]), op.probes)
    ensures EarnedAt(plan, row0, ops, |ops| - 1)
  {
    hide Replay, EarnsCutover;
    assert ops[..|ops|] == ops;
  }

  lemma OnlyExecuteReachesTarget(plan: Plan, p0: ProviderId, row: Row, op: Op)
    requires Inv(plan, p0, row) && row.provider != plan.target && plan.target != p0 && ValidPlan(plan)
    requires StepCommit(plan, row, op).provider == plan.target
    ensures op.ExecuteOp? && op.commits && EarnsCutover(plan, row, op.probes)
  {
    hide Execute, EarnsCutover;
    if op.ExecuteOp? && Executable(row) {
      CanaryAndHealthSafety(plan, p0, row, op.probes);
    }
  }

  // An aborted canary is final: no later history of the plan commits the target.
  lemma {:induction false} AbortedCanaryIsFinal(plan: Plan, p0: ProviderId, status: BindingStatus, ops: seq<Op>, later: seq<Op>)
    requires plan.target != p0 && ValidPlan(plan)
    requires Replay(plan, InitialRow(p0, status), ops).state.aborted
    ensures Replay(plan, InitialRow(p0, status), ops + later).provider == p0
  {
    hide Execute;
    ReplayKeepsInv(plan, p0, status, ops);
    ReplayKeepsInv(plan, p0, status, ops + later);
    if Replay(plan, InitialRow(p0, status), ops + later).provider == plan.target {
      var k := TargetWasEarned(plan, p0, status, ops + later);
    }
  }

  // What COMPLETED is worth: the binding is active, and it is on the target exactly when no
  // earlier run failed with `stage_target` recorded.
  lemma CompletedMeaning(plan: Plan, p0: ProviderId, status: BindingStatus, ops: seq<Op>)
    requires plan.target != p0
    requires Replay(plan, InitialRow(p0, status), ops).status.Completed?
    ensures var row0 := InitialRow(p0, status);
            var onTarget := !Flush.HadStagedFailure(plan, row0, AsFlushes(ops));
            && Replay(plan, row0, ops) == Flush.GoalRow(plan, p0, onTarget, true)
            && (Replay(plan, row0, ops).provider == plan.target <==> onTarget)
  {
    var row0 := InitialRow(p0, status);
    hide Flush.HadStagedFailure, Flush.Replay, CanaryFrom;
    CommitHistoryIsFlushHistory(plan, row0, ops);
    Flush.CompletedOnTarget(plan, p0, status, AsFlushes(ops));
    CompletedIsActive(plan, p0, status, ops);
  }

  lemma {:induction false} CompletedIsActive(plan: Plan, p0: ProviderId, status: BindingStatus, ops: seq<Op>)
    requires Replay(plan, InitialRow(p0, status), ops).status.Completed?
    ensures Replay(plan, InitialRow(p0, status), ops).bindingStatus.Active?
    decreases |ops|
  {
    var before := ops[..|ops| - 1];
    var row := Replay(plan, InitialRow(p0, status), before);
    hide Execute, CanaryFrom;
    ReplayKeepsInv(plan, p0, status, before);
    if row.status.Completed? {
      CompletedIsActive(plan, p0, status, before);
    } else {
      Flush.RunOutcome(plan, p0, row, ops[|ops| - 1].probes);
    }
  }

  // The caller can tell beforehand: a run that will not fail ends on the target exactly when
  // `stage_target` is not yet recorded.
  lemma ResumeReachesTarget(plan: Plan, p0: ProviderId, row: Row, probes: Probes)
    requires Inv(plan, p0, row) && Executable(row) && plan.target != p0 && !Flush.Fails(plan, row, probes)
    ensures var r := Execute(plan, row, probes).row;
            && r.status.Completed?
            && (r.provider == plan.target <==> !Done(row, StageTarget))
  {
    hide Execute, CanaryFrom;
    Flush.RunOutcome(plan, p0, row, probes);
  }

  // It does happen: any plan whose canary aborts, executed twice, is COMPLETED on its old provider.
  lemma ResumeCanCompleteOnOldProvider(plan: Plan, p0: ProviderId, status: BindingStatus, probes: Probes)
    requires Aborts(plan) && plan.target != p0 && PreflightPasses(probes) && CutoverPasses(probes)
    ensures var r := Replay(plan, InitialRow(p0, status), [ExecuteOp(probes, true), ExecuteOp(probes, true)]);
            r.status.Completed? && r.provider == p0 && r.state.aborted
  {
    var row0 := InitialRow(p0, status);
    var op := ExecuteOp(probes, true);
    assert [op, op][..1] == [op] && [op][..0] == [];
    assert Replay(plan, row0, [op]) == StepCommit(plan, row0, op);
    hide Execute, CanaryFrom, PreflightPasses, CutoverPasses;
    ReplayKeepsInv(plan, p0, status, [op]);
    Flush.RunOutcome(plan, p0, row0, probes);
    Flush.RunOutcome(plan, p0, StepCommit(plan, row0, op), probes);
    AbortLeavesStaged(plan, row0, probes);
  }

  lemma AbortLeavesStaged(plan: Plan, row: Row, probes: Probes)
    requires Aborts(plan) && PreflightPasses(probes) && Executable(row) && row.state == InitialState()
    ensures var r := Execute(plan, row, probes).row;
            r.status.Failed? && r.state.completed == [Preflight, StageTarget, Canary]
  {
    hide CanaryFrom, PreflightPasses, CutoverPasses;
    TryBlock(plan, row, probes);
  }
}
