// How migration, definition, drift report and execution log stay coupled over every history.
module MigrationProofs {
  import opened Domain
  import opened MigrationModel

  // `dies`: the request ends without committing anything.
  datatype Op =
    | ApplyOp(ddl: Ddl, dies: bool)
    | RetryOp(ddl: Ddl, dies: bool)
    | CancelOp
    | RefreshOp(world: World)
    | ReconcileOp(before: World, ddl: Ddl, after: World, maxRetries: int, dies: bool)

  function Step(r: Rows, op: Op): Rows {
    match op
    case ApplyOp(ddl, dies) => if dies then r else Apply(r, ddl).0
    case RetryOp(ddl, dies) => Retry(r, ddl, dies).0
    case CancelOp => Cancel(r).0
    case RefreshOp(w) => Refresh(r, w)
    case ReconcileOp(before, ddl, after, maxRetries, dies) => if dies then r else Reconcile(r, before, ddl, after, maxRetries)
  }

  function Replay(r: Rows, ops: seq<Op>): Rows
    decreases |ops|
  {
    if ops == [] then r else Replay(Step(r, ops[0]), ops[1..])
  }

  // The definition follows the migration.
  predicate Coupled(r: Rows) {
    && HasTable(r)
    && (r.definition.status.DefinitionActive? <==> r.status.Applied?)
    && (r.definition.status.DefinitionCanceled? <==> r.status.Canceled?)
  }

  predicate ReportConsistent(r: Rows) {
    && (r.reconciliation.Drifted? <==> r.entities != {})
    && (r.severity.NoDrift? <==> r.entities == {})
    && (r.status.Failed? ==> r.reconciliation.Drifted? && r.severity.Critical?)
    && (r.status.Applied? ==> r.reconciliation.InSync? || r.reconciliation.Drifted?)
  }

  // Any number of FAILED entries, then at most one APPLIED, and nothing pending.
  predicate LogShape(log: seq<MigrationStatus>) {
    forall i :: 0 <= i < |log| ==> log[i].Failed? || (log[i].Applied? && i == |log| - 1)
  }

  predicate LogCoupled(r: Rows, development: bool) {
    && LogShape(r.log)
    && (development ==> r.log == [] && r.status.Applied?)
    && (!development ==> (MigrationStatus.Applied in r.log <==> r.status.Applied?))
    && (r.status.Queued? ==> r.log == [])
    && (r.status.Failed? ==> r.log != [])
  }

  predicate Inv(r: Rows, development: bool) {
    Coupled(r) && ReportConsistent(r) && LogCoupled(r, development)
  }

  lemma DetectConsistent(r: Rows, w: World)
    ensures var d := Detect(r, w);
            && (d.reconciliation.Drifted? <==> d.entities != {})
            && (d.severity.NoDrift? <==> d.entities == {})
            && (r.status.Failed? ==> d.severity.Critical?)
            && (r.status.Applied? ==> d.reconciliation.InSync? || d.reconciliation.Drifted?)
  {
  }

  lemma StepKeepsInv(r: Rows, op: Op, development: bool)
    requires Inv(r, development)
    ensures Inv(Step(r, op), development)
  {
    match op
    case RefreshOp(w) => DetectConsistent(r, w);
    case ReconcileOp(before, ddl, after, maxRetries, dies) =>
      DetectConsistent(r, before);
      var t := Refresh(r, before).(attempts := r.attempts + 1, error := NoError);
      DetectConsistent(t, after);
      hide Detect;
    case _ =>
  }

  lemma {:induction false} ReplayKeepsInv(r: Rows, ops: seq<Op>, development: bool)
    requires Inv(r, development)
    ensures Inv(Replay(r, ops), development)
    decreases |ops|
  {
    if ops != [] {
      hide Inv, Step;
      StepKeepsInv(r, ops[0], development);
      ReplayKeepsInv(Step(r, ops[0]), ops[1..], development);
    }
  }

  // ---- main results ----

  // The coupling after any history of a migration created by create_table_metadata.
  lemma LifecycleCoupled(development: bool, columns: set<string>, ops: seq<Op>)
    ensures var r := Replay(Created(development, columns), ops);
            && r.definition.Present?
            && r.definition.status == (if r.status.Applied? then DefinitionActive
                                       else if r.status.Canceled? then DefinitionCanceled
                                       else DefinitionPending)
            && LogShape(r.log)
            && (!development ==> (MigrationStatus.Applied in r.log <==> r.status.Applied?))
            && (r.reconciliation.Drifted? <==> r.entities != {})
            && (r.reconciliation.Drifted? <==> !r.severity.NoDrift?)
  {
    ReplayKeepsInv(Created(development, columns), ops, development);
  }

  // _assert_migration_state_invariants
  predicate StateAssertion(r: Rows) {
    && (r.status.Applied? ==> r.reconciliation.InSync? && r.severity.NoDrift?)
    && (r.status.Failed? ==> r.reconciliation.Drifted?)
  }

  // The tables have what the migration was to create.
  predicate Materialized(r: Rows, w: World) {
    HasTable(r) && w.tableExists && Expected(r.definition.columns) <= w.columns
  }

  // What the next request makes of the assertion that closes an apply. It is broken only for an
  // APPLIED migration, by a refresh that sees less than the migration was to create or by a
  // reconciliation that sees so too and does not repair it; and it is restored the same way.
  predicate StaysAsserted(r: Rows, op: Op) {
    match op
    case RefreshOp(w) => r.status.Applied? ==> Materialized(r, w)
    case ReconcileOp(before, ddl, after, maxRetries, dies) =>
      if dies then StateAssertion(r)
      else r.status.Applied? ==>
             Materialized(r, before) || (r.attempts < maxRetries && ddl.DdlOk? && Materialized(r, after))
    case _ => r.status.Applied? ==> StateAssertion(r)
  }

  // After any history, the assertion holds of what the next request commits exactly then; and it
  // always holds after an apply that did something.
  lemma StateAssertionIff(development: bool, columns: set<string>, ops: seq<Op>, op: Op)
    ensures var r := Replay(Created(development, columns), ops);
            && (StateAssertion(Step(r, op)) <==> StaysAsserted(r, op))
            && (op.ApplyOp? && !r.status.Applied? ==> StateAssertion(Step(r, op)))
  {
    var r := Replay(Created(development, columns), ops);
    ReplayKeepsInv(Created(development, columns), ops, development);
    StepKeepsInv(r, op, development);
    match op
    case RefreshOp(w) => RefreshAssertion(r, w, development);
    case ReconcileOp(before, ddl, after, maxRetries, dies) =>
      if !dies {
        ReconcileAssertion(r, before, ddl, after, maxRetries, development);
      }
    case _ =>
      hide Detect;
  }

  lemma RefreshAssertion(r: Rows, w: World, development: bool)
    requires Inv(r, development)
    ensures StateAssertion(Refresh(r, w)) <==> (r.status.Applied? ==> Materialized(r, w))
  {
    DetectConsistent(r, w);
    if r.status.Applied? {
      InSyncMeaning(r, w);
    }
  }

  lemma ReconcileAssertion(r: Rows, before: World, ddl: Ddl, after: World, maxRetries: int, development: bool)
    requires Inv(r, development)
    ensures StateAssertion(Reconcile(r, before, ddl, after, maxRetries)) <==>
            (r.status.Applied? ==>
               Materialized(r, before) || (r.attempts < maxRetries && ddl.DdlOk? && Materialized(r, after)))
  {
    RefreshAssertion(r, before, development);
    if r.status.Applied? {
      InSyncMeaning(r, before);
      RepairOutcome(r, before, ddl, after, maxRetries);
      DetectConsistent(r, before);
      DetectConsistent(Refresh(r, before).(attempts := r.attempts + 1, error := NoError), after);
    }
    hide Detect;
  }

  // It is broken by as little as an apply that succeeds and a refresh that misses the table.
  lemma AssertionBreaks(columns: set<string>)
    ensures var applied := Replay(Created(false, columns), [ApplyOp(DdlOk, false)]);
            var r := Replay(Created(false, columns), [ApplyOp(DdlOk, false), RefreshOp(World(false, {}))]);
            && StateAssertion(applied) && !StateAssertion(r)
            && r.status.Applied? && r.severity.Critical? && r.entities == {TableEntity}
  {
    var s := Created(false, columns);
    var ops := [ApplyOp(DdlOk, false), RefreshOp(World(false, {}))];
    assert ops[1..] == [RefreshOp(World(false, {}))];
    var applied := Step(s, ops[0]);
    assert Replay(s, [ApplyOp(DdlOk, false)]) == Replay(applied, []);
    assert Replay(applied, [RefreshOp(World(false, {}))]) == Replay(Step(applied, ops[1]), []);
    assert Affected(applied, World(false, {})) == {TableEntity};
  }

  // APPLIED and CANCELED are final: nothing later changes the status, the definition or the log.
  lemma {:induction false} TerminalStates(r: Rows, ops: seq<Op>)
    requires r.status.Applied? || r.status.Canceled?
    ensures var t := Replay(r, ops);
            t.status == r.status && t.definition == r.definition && t.log == r.log
    decreases |ops|
  {
    if ops != [] {
      TerminalStep(r, ops[0]);
      hide Step;
      TerminalStates(Step(r, ops[0]), ops[1..]);
    }
  }

  lemma TerminalStep(r: Rows, op: Op)
    requires r.status.Applied? || r.status.Canceled?
    ensures var t := Step(r, op);
            t.status == r.status && t.definition == r.definition && t.log == r.log
  {
    hide Detect;
  }

  // A log only grows, and a committed entry never changes.
  lemma {:induction false} LogGrows(r: Rows, ops: seq<Op>)
    ensures r.log <= Replay(r, ops).log
    decreases |ops|
  {
    if ops != [] {
      assert r.log <= Step(r, ops[0]).log by { hide Detect; }
      hide Step;
      LogGrows(Step(r, ops[0]), ops[1..]);
    }
  }

  // What a refresh of an applied migration reports: in sync exactly when nothing is missing.
  lemma InSyncMeaning(r: Rows, w: World)
    requires r.status.Applied?
    ensures Refresh(r, w).reconciliation.InSync? <==>
              && r.namespace && !r.definition.Missing?
              && (r.definition.Present? ==> w.tableExists && Expected(r.definition.columns) <= w.columns)
    ensures !Refresh(r, w).reconciliation.InSync? ==> Refresh(r, w).reconciliation.Drifted?
    ensures HasTable(r) && w.tableExists ==>
              forall c :: ColumnEntity(c) in Refresh(r, w).entities <==> c in Expected(r.definition.columns) && c !in w.columns
  {
    if HasTable(r) && w.tableExists {
      var missing := Expected(r.definition.columns) - w.columns;
      assert forall c :: c in missing ==> ColumnEntity(c) in Affected(r, w);
      if !(Expected(r.definition.columns) <= w.columns) {
        var c :| c in Expected(r.definition.columns) && c !in w.columns;
        assert c in missing;
        assert ColumnEntity(c) in Affected(r, w);
      }
    }
  }

  // ---- the retry budget ----

  function RepairsOf(r: Rows, op: Op): nat {
    if op.ReconcileOp? && !op.dies && Attempts(r, op.before, op.maxRetries) then 1 else 0
  }

  function Repairs(r: Rows, ops: seq<Op>): nat
    decreases |ops|
  {
    if ops == [] then 0 else RepairsOf(r, ops[0]) + Repairs(Step(r, ops[0]), ops[1..])
  }

  lemma RepairIsCounted(r: Rows, op: Op)
    ensures Step(r, op).attempts == r.attempts + RepairsOf(r, op)
  {
    hide Detect;
  }

  // With a fixed budget, the committed repair attempts of a whole history stay within it, and
  // the counter on the row is their number.
  lemma {:induction false} RepairBudget(r: Rows, ops: seq<Op>, maxRetries: int)
    requires forall i :: 0 <= i < |ops| && ops[i].ReconcileOp? ==> ops[i].maxRetries == maxRetries
    ensures Replay(r, ops).attempts == r.attempts + Repairs(r, ops)
    ensures Repairs(r, ops) <= if r.attempts <= maxRetries then maxRetries - r.attempts else 0
    decreases |ops|
  {
    if ops != [] {
      RepairIsCounted(r, ops[0]);
      assert RepairsOf(r, ops[0]) == 1 ==> r.attempts < maxRetries;
      RepairBudget(Step(r, ops[0]), ops[1..], maxRetries);
    }
  }

  // The repairs begun, whether or not their request lived to commit, and those that did not.
  function Begun(r: Rows, ops: seq<Op>): nat
    decreases |ops|
  {
    if ops == [] then 0
    else (if ops[0].ReconcileOp? && Attempts(r, ops[0].before, ops[0].maxRetries) then 1 else 0) + Begun(Step(r, ops[0]), ops[1..])
  }

  function Died(r: Rows, ops: seq<Op>): nat
    decreases |ops|
  {
    if ops == [] then 0
    else (if ops[0].ReconcileOp? && ops[0].dies && Attempts(r, ops[0].before, ops[0].maxRetries) then 1 else 0) +
         Died(Step(r, ops[0]), ops[1..])
  }

  lemma {:induction false} BegunOrDied(r: Rows, ops: seq<Op>)
    ensures Begun(r, ops) == Repairs(r, ops) + Died(r, ops)
    decreases |ops|
  {
    if ops != [] {
      hide Step, Attempts;
      BegunOrDied(Step(r, ops[0]), ops[1..]);
    }
  }

  // The budget bounds the repairs begun exactly up to those whose request died.
  lemma BudgetWithDeaths(r: Rows, ops: seq<Op>, maxRetries: int)
    requires forall i :: 0 <= i < |ops| && ops[i].ReconcileOp? ==> ops[i].maxRetries == maxRetries
    ensures Replay(r, ops).attempts == r.attempts + Begun(r, ops) - Died(r, ops)
    ensures Begun(r, ops) <= (if r.attempts <= maxRetries then maxRetries - r.attempts else 0) + Died(r, ops)
    ensures r.attempts == 0 && 0 <= maxRetries ==>
              (Begun(r, ops) <= maxRetries <==> Replay(r, ops).attempts + Died(r, ops) <= maxRetries)
  {
    RepairBudget(r, ops, maxRetries);
    BegunOrDied(r, ops);
  }

  function Repeat(op: Op, n: nat): seq<Op> {
    if n == 0 then [] else [op] + Repeat(op, n - 1)
  }

  // Requests that die do not use the budget up: with any budget above the counter, any number of
  // repairs can be begun.
  lemma {:induction false} DeathsAreFree(r: Rows, op: Op, n: nat)
    requires op.ReconcileOp? && op.dies && Attempts(r, op.before, op.maxRetries)
    ensures Begun(r, Repeat(op, n)) == n && Replay(r, Repeat(op, n)) == r
  {
    if n > 0 {
      assert Repeat(op, n)[1..] == Repeat(op, n - 1);
      DeathsAreFree(r, op, n - 1);
    }
  }

  // A repair that meets no error is judged by what the tables look like afterwards, and one
  // that is not attempted leaves the drift in the report.
  lemma RepairOutcome(r: Rows, before: World, ddl: Ddl, after: World, maxRetries: int)
    requires r.status.Applied? && HasTable(r)
    ensures var t := Reconcile(r, before, ddl, after, maxRetries);
            && (Attempts(r, before, maxRetries) && ddl.DdlOk? ==>
                  (t.reconciliation.InSync? <==> after.tableExists && Expected(r.definition.columns) <= after.columns))
            && (Attempts(r, before, maxRetries) && !ddl.DdlOk? ==> t.reconciliation.Drifted? && t.entities != {} && t.error == RepairError(ddl.text))
            && (!Attempts(r, before, maxRetries) && !Refresh(r, before).reconciliation.InSync? ==>
                  t.reconciliation.Drifted? && t.error == BudgetExhausted && t.attempts == r.attempts)
  {
    InSyncMeaning(r, before);
    DetectConsistent(r, before);
    var u := Refresh(r, before).(attempts := r.attempts + 1, error := NoError);
    InSyncMeaning(u, after);
    hide Detect;
  }

  // ---- what each operation does, in terms of the columns ----

  predicate HasDefinitionAndNamespace(r: Rows) {
    r.namespace && !r.definition.NoReference? && !r.definition.Missing?
  }

  function MarkedAs(d: Definition, status: DefinitionStatus): Definition {
    if d.Present? then d.(status := status) else d
  }

  // The columns after an apply that succeeded, and after one that failed.
  predicate BecameApplied(r: Rows, t: Rows) {
    && t.status == MigrationStatus.Applied && t.reconciliation == InSync && t.severity == NoDrift && t.entities == {} && t.error == NoError
    && t.definition == (if HasDefinitionAndNamespace(r) then MarkedAs(r.definition, DefinitionActive) else r.definition)
    && t.log == r.log + [MigrationStatus.Applied] && t.attempts == r.attempts && t.namespace == r.namespace
  }

  predicate BecameFailed(r: Rows, t: Rows, text: string) {
    && t.status == MigrationStatus.Failed && t.reconciliation == Drifted && t.severity == Critical && t.entities == {MigrationEntity}
    && t.error == ApplyError(text) && t.definition == MarkedAs(r.definition, DefinitionPending)
    && t.log == r.log + [MigrationStatus.Failed] && t.attempts == r.attempts && t.namespace == r.namespace
  }

  // An apply of a migration that is neither APPLIED nor CANCELED ends APPLIED exactly when there
  // is no table to create or its DDL succeeds, and otherwise FAILED with the text of the error.
  lemma ApplyMeans(r: Rows, ddl: Ddl)
    ensures var (t, answer) := Apply(r, ddl);
            && (r.status == MigrationStatus.Applied ==> t == r && answer == Ok(MigrationStatus.Applied))
            && (r.status == MigrationStatus.Canceled ==> t == r && answer == Err(CanceledCannotApply))
            && (r.status != MigrationStatus.Applied && r.status != MigrationStatus.Canceled ==>
                  if !HasDefinitionAndNamespace(r) || ddl == DdlOk
                  then BecameApplied(r, t) && answer == Ok(MigrationStatus.Applied)
                  else BecameFailed(r, t, ddl.text) && answer == Err(ApplyFailed(ddl.text)))
  {
  }

  // A retry is for FAILED migrations only, and applies; a request that dies before the apply
  // leaves PENDING and everything else as it was.
  lemma RetryMeans(r: Rows, ddl: Ddl, dies: bool)
    ensures var (t, answer) := Retry(r, ddl, dies);
            && (r.status != MigrationStatus.Failed ==> t == r && answer == Err(OnlyFailedRetries))
            && (r.status == MigrationStatus.Failed && dies ==> t == r.(status := MigrationStatus.Pending))
            && (r.status == MigrationStatus.Failed && !dies ==>
                  if !HasDefinitionAndNamespace(r) || ddl == DdlOk
                  then BecameApplied(r, t) && answer == Ok(MigrationStatus.Applied)
                  else BecameFailed(r, t, ddl.text) && answer == Err(ApplyFailed(ddl.text)))
  {
    if r.status.Failed? && !dies {
      ApplyMeans(r.(status := MigrationStatus.Pending), ddl);
    }
  }

  // Any migration but an APPLIED one can be canceled, once.
  lemma CancelMeans(r: Rows)
    ensures var (t, answer) := Cancel(r);
            && (r.status == MigrationStatus.Applied ==> t == r && answer == Err(AppliedCannotCancel))
            && (r.status != MigrationStatus.Applied ==> t.status == MigrationStatus.Canceled && answer == Ok(MigrationStatus.Canceled))
            && (r.status == MigrationStatus.Canceled ==> t == r)
            && (r.status != MigrationStatus.Applied && r.status != MigrationStatus.Canceled ==>
                  && t.reconciliation == CanceledState && t.severity == NoDrift && t.entities == {} && t.error == NoError
                  && t.definition == MarkedAs(r.definition, DefinitionCanceled)
                  && t.log == r.log && t.attempts == r.attempts && t.namespace == r.namespace)
  {
  }

  // A new table is applied at once in development and queued elsewhere.
  lemma CreatedMeans(development: bool, columns: set<string>)
    ensures var r := Created(development, columns);
            && r.status == (if development then MigrationStatus.Applied else MigrationStatus.Queued)
            && r.reconciliation == (if development then InSync else PendingApply)
            && r.definition == Present(if development then DefinitionActive else DefinitionPending, columns)
            && r.severity == NoDrift && r.entities == {} && r.attempts == 0 && r.error == NoError && r.namespace && r.log == []
  {
  }

  // A refresh writes the report and clears the error when nothing is missing; the report of an
  // APPLIED migration lists what is missing, entity by entity, and its severity is that of the
  // worst of them.
  lemma RefreshMeans(r: Rows, w: World)
    ensures var t := Refresh(r, w);
            && t == r.(reconciliation := t.reconciliation, severity := t.severity, entities := t.entities,
                       error := if t.reconciliation == InSync then NoError else r.error)
            && (r.status == MigrationStatus.Queued || r.status == MigrationStatus.Pending ==>
                  t.reconciliation == PendingApply && t.severity == NoDrift && t.entities == {})
            && (r.status == MigrationStatus.Canceled ==> t.reconciliation == CanceledState && t.severity == NoDrift && t.entities == {})
            && (r.status == MigrationStatus.Failed ==> t.reconciliation == Drifted && t.severity == Critical && t.entities == {MigrationEntity})
            && (r.status == MigrationStatus.Applied ==>
                  && (NamespaceEntity in t.entities <==> !r.namespace)
                  && (DefinitionEntity in t.entities <==> r.definition == Missing)
                  && (TableEntity in t.entities <==> HasDefinitionAndNamespace(r) && !w.tableExists)
                  && (forall c :: ColumnEntity(c) in t.entities <==>
                        HasDefinitionAndNamespace(r) && w.tableExists && (c == "id" || c in r.definition.columns) && c !in w.columns)
                  && MigrationEntity !in t.entities
                  && t.reconciliation == (if t.entities == {} then InSync else Drifted)
                  && t.severity == (if t.entities == {} then NoDrift
                                    else if TableEntity in t.entities then Critical
                                    else if NamespaceEntity in t.entities then High else Medium))
  {
  }

  // A reconciliation refreshes; for an APPLIED migration still not in sync it then either finds
  // the budget used up, or uses one attempt: to no avail without definition or namespace, with
  // the error of the DDL when that fails, and otherwise followed by a second refresh.
  lemma ReconcileMeans(r: Rows, before: World, ddl: Ddl, after: World, maxRetries: int)
    ensures var s := Refresh(r, before);
            var t := Reconcile(r, before, ddl, after, maxRetries);
            var stops := s.reconciliation == InSync || r.status != MigrationStatus.Applied;
            && (stops ==> t == s)
            && (!stops && r.attempts >= maxRetries ==> t == s.(error := BudgetExhausted))
            && (!stops && r.attempts < maxRetries ==>
                  && t.attempts == r.attempts + 1
                  && (!HasDefinitionAndNamespace(r) ==>
                        t == s.(attempts := r.attempts + 1, error := MetadataMissing, reconciliation := Drifted))
                  && (HasDefinitionAndNamespace(r) && ddl != DdlOk ==>
                        t == s.(attempts := r.attempts + 1, error := RepairError(ddl.text), reconciliation := Drifted))
                  && (HasDefinitionAndNamespace(r) && ddl == DdlOk ==>
                        t == Refresh(s.(attempts := r.attempts + 1, error := NoError), after)))
  {
    hide Detect;
  }
}
