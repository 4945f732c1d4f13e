// The migration operations on the session's working rows. A rollback throws the working rows
// away, and with them the execution row the failed apply had started; the error path then
// writes the failure afresh.
module MigrationService {
  import opened Domain
  import opened MigrationModel

  class Session {
    var status: MigrationStatus
    var reconciliation: Reconciliation
    var severity: Severity
    var entities: set<Entity>
    var attempts: int
    var error: ErrorText
    var definition: Definition
    var namespace: bool
    var log: seq<MigrationStatus>

    // What the database holds.
    var committed: Rows

    constructor (r: Rows)
      ensures Work() == r && committed == r
    {
      status, reconciliation, severity, entities := r.status, r.reconciliation, r.severity, r.entities;
      attempts, error, definition, namespace, log := r.attempts, r.error, r.definition, r.namespace, r.log;
      committed := r;
    }

    function Work(): Rows
      reads this
    {
      Rows(status, reconciliation, severity, entities, attempts, error, definition, namespace, log)
    }

    // Nothing is pending when a request starts.
    predicate Clean()
      reads this
    {
      Work() == committed
    }

    method Commit()
      modifies this`committed
      ensures Clean() && committed == Work()
    {
      committed := Work();
    }

    method RollBack()
      modifies this
      ensures Clean() && committed == old(committed)
    {
      status, reconciliation, severity, entities := committed.status, committed.reconciliation, committed.severity, committed.entities;
      attempts, error, definition, namespace, log :=
        committed.attempts, committed.error, committed.definition, committed.namespace, committed.log;
    }

    method SetDefinitionStatus(s: DefinitionStatus)
      modifies this`definition
      ensures definition == SetDefinition(old(definition), s)
    {
      if definition.Present? {
        definition := Present(s, definition.columns);
      }
    }

    // _start_migration_execution: the new entry, pending; its position is its id.
    method StartExecution() returns (execution: nat)
      modifies this`log
      ensures log == old(log) + [MigrationStatus.Pending] && execution == |old(log)|
    {
      execution := |log|;
      log := log + [MigrationStatus.Pending];
    }

    method FinishExecution(execution: nat, s: MigrationStatus)
      requires execution < |log|
      modifies this`log
      ensures log == old(log)[execution := s]
    {
      log := log[execution := s];
    }

    method ApplySchemaMigration(ddl: Ddl) returns (r: Result<MigrationStatus, MigrationError>)
      requires Clean()
      modifies this
      ensures Clean() && (committed, r) == Apply(old(committed), ddl)
    {
      if status.Applied? {
        return Ok(status);
      }
      if status.Canceled? {
        return Err(CanceledCannotApply);
      }
      var execution := StartExecution();
      status := MigrationStatus.Pending;
      if definition.Present? && namespace {
        if ddl.DdlFails? {
          r := RecordFailure(execution, ddl.text);
          return;
        }
        SetDefinitionStatus(DefinitionActive);
      }
      status := MigrationStatus.Applied;
      reconciliation, severity, entities, error := InSync, NoDrift, {}, NoError;
      FinishExecution(execution, MigrationStatus.Applied);
      assert log == old(log) + [MigrationStatus.Applied];
      Commit();
      r := Ok(status);
    }

    // The exception path of apply.
    method RecordFailure(execution: nat, text: string) returns (r: Result<MigrationStatus, MigrationError>)
      requires execution == |committed.log|
      modifies this
      ensures Clean() && committed == FailedRows(old(committed), text) && r == Err(ApplyFailed(text))
    {
      RollBack();
      status := MigrationStatus.Failed;
      reconciliation, severity, entities, error := Drifted, Critical, {MigrationEntity}, ApplyError(text);
      SetDefinitionStatus(DefinitionPending);
      var entry := execution;
      if entry >= |log| {
        entry := StartExecution();
      }
      FinishExecution(entry, MigrationStatus.Failed);
      Commit();
      r := Err(ApplyFailed(text));
    }

    method RetrySchemaMigration(ddl: Ddl, dies: bool) returns (r: Result<MigrationStatus, MigrationError>)
      requires Clean()
      modifies this
      ensures Clean() && (committed, r) == Retry(old(committed), ddl, dies)
    {
      if !status.Failed? {
        return Err(OnlyFailedRetries);
      }
      status := MigrationStatus.Pending;
      Commit();
      if dies {
        return Ok(status);
      }
      r := ApplySchemaMigration(ddl);
    }

    method CancelSchemaMigration() returns (r: Result<MigrationStatus, MigrationError>)
      requires Clean()
      modifies this
      ensures Clean() && (committed, r) == Cancel(old(committed))
    {
      if status.Applied? {
        return Err(AppliedCannotCancel);
      }
      if status.Canceled? {
        return Ok(status);
      }
      status := MigrationStatus.Canceled;
      reconciliation, severity, entities, error := CanceledState, NoDrift, {}, NoError;
      SetDefinitionStatus(DefinitionCanceled);
      Commit();
      r := Ok(status);
    }

    // detect_migration_drift
    method DetectDrift(w: World) returns (report: Report)
      ensures report == Detect(Work(), w)
    {
      if status.Queued? || status.Pending? {
        return Report(PendingApply, NoDrift, {});
      }
      if status.Canceled? {
        return Report(CanceledState, NoDrift, {});
      }
      if status.Failed? {
        return Report(Drifted, Critical, {MigrationEntity});
      }
      var affected: set<Entity> := {};
      if !namespace {
        affected := affected + {NamespaceEntity};
      }
      if definition.Missing? {
        affected := affected + {DefinitionEntity};
      }
      if definition.Present? && namespace {
        if !w.tableExists {
          affected := affected + {TableEntity};
        } else {
          var missing := Expected(definition.columns) - w.columns;
          affected := affected + set c | c in missing :: ColumnEntity(c);
        }
      }
      assert affected == Affected(Work(), w);
      report := Report(if affected == {} then InSync else Drifted, DeriveSeverity(affected), affected);
    }

    method RefreshReconciliation(w: World)
      modifies this
      ensures Work() == Refresh(old(Work()), w) && committed == old(committed)
    {
      var report := DetectDrift(w);
      reconciliation, severity, entities := report.reconciliation, report.severity, report.entities;
      if report.reconciliation.InSync? {
        error := NoError;
      }
    }

    // execute_migration_reconciliation and the commit of its endpoint; `created` counts the
    // calls of create_table.
    method ReconcileMigration(before: World, ddl: Ddl, after: World, maxRetries: int) returns (created: nat)
      requires Clean()
      modifies this
      ensures Clean() && committed == Reconcile(old(committed), before, ddl, after, maxRetries)
      ensures created == if Attempts(old(committed), before, maxRetries) && HasTable(old(committed)) then 1 else 0
    {
      hide Detect, DeriveSeverity;
      created := 0;
      RefreshReconciliation(before);
      if !reconciliation.InSync? && status.Applied? {
        if attempts >= maxRetries {
          error := BudgetExhausted;
        } else {
          attempts := attempts + 1;
          if !namespace || !definition.Present? {
            error, reconciliation := MetadataMissing, Drifted;
          } else {
            created := 1;
            match ddl
            case DdlFails(text) =>
              error, reconciliation := RepairError(text), Drifted;
            case DdlOk =>
              error := NoError;
              RefreshReconciliation(after);
          }
        }
      }
      Commit();
    }
  }
}
