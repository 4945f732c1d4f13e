// One schema migration with its table definition, its drift report and its execution log.
// Every function gives the rows that one request commits.
module MigrationModel {
  import opened Domain

  datatype Reconciliation = PendingApply | InSync | Drifted | CanceledState

  datatype Severity = NoDrift | Medium | High | Critical

  datatype Entity =
    | MigrationEntity
    | NamespaceEntity
    | DefinitionEntity
    | TableEntity
    | ColumnEntity(column: string)

  datatype ErrorText = NoError | ApplyError(text: string) | BudgetExhausted | MetadataMissing | RepairError(text: string)

  datatype DefinitionStatus = DefinitionActive | DefinitionPending | DefinitionCanceled

  // table_definition_id is null, names a missing row, or names a row.
  datatype Definition = NoReference | Missing | Present(status: DefinitionStatus, columns: set<string>)

  datatype Rows = Rows(
    status: MigrationStatus,
    reconciliation: Reconciliation,
    severity: Severity,
    entities: set<Entity>,
    attempts: int,
    error: ErrorText,
    definition: Definition,
    namespace: bool,
    log: seq<MigrationStatus>)

  // What the provider answers about the physical table.
  datatype World = World(tableExists: bool, columns: set<string>)

  // How create_namespace and create_table end.
  datatype Ddl = DdlOk | DdlFails(text: string)

  datatype MigrationError = CanceledCannotApply | AppliedCannotCancel | OnlyFailedRetries | ApplyFailed(text: string)

  // create_table_metadata
  function Created(development: bool, columns: set<string>): Rows {
    if development
    then Rows(MigrationStatus.Applied, InSync, NoDrift, {}, 0, NoError, Present(DefinitionActive, columns), true, [])
    else Rows(MigrationStatus.Queued, PendingApply, NoDrift, {}, 0, NoError, Present(DefinitionPending, columns), true, [])
  }

  function SetDefinition(d: Definition, status: DefinitionStatus): Definition {
    match d
    case Present(_, columns) => Present(status, columns)
    case _ => d
  }

  predicate HasTable(r: Rows) {
    r.definition.Present? && r.namespace
  }

  // ---- apply, retry, cancel ----

  function AppliedRows(r: Rows): Rows {
    r.(status := MigrationStatus.Applied, reconciliation := InSync, severity := NoDrift, entities := {}, error := NoError,
       definition := if HasTable(r) then SetDefinition(r.definition, DefinitionActive) else r.definition,
       log := r.log + [MigrationStatus.Applied])
  }

  function FailedRows(r: Rows, text: string): Rows {
    r.(status := MigrationStatus.Failed, reconciliation := Drifted, severity := Critical, entities := {MigrationEntity},
       error := ApplyError(text),
       definition := SetDefinition(r.definition, DefinitionPending),
       log := r.log + [MigrationStatus.Failed])
  }

  predicate ApplySucceeds(r: Rows, ddl: Ddl) {
    !HasTable(r) || ddl.DdlOk?
  }

  function Apply(r: Rows, ddl: Ddl): (Rows, Result<MigrationStatus, MigrationError>) {
    if r.status.Applied? then (r, Ok(r.status))
    else if r.status.Canceled? then (r, Err(CanceledCannotApply))
    else if ApplySucceeds(r, ddl) then (AppliedRows(r), Ok(MigrationStatus.Applied))
    else (FailedRows(r, ddl.text), Err(ApplyFailed(ddl.text)))
  }

  // Retry first commits PENDING; `dies` is a crash before the apply that follows.
  function Retry(r: Rows, ddl: Ddl, dies: bool): (Rows, Result<MigrationStatus, MigrationError>) {
    if !r.status.Failed? then (r, Err(OnlyFailedRetries))
    else if dies then (r.(status := MigrationStatus.Pending), Ok(MigrationStatus.Pending))
    else Apply(r.(status := MigrationStatus.Pending), ddl)
  }

  function Cancel(r: Rows): (Rows, Result<MigrationStatus, MigrationError>) {
    if r.status.Applied? then (r, Err(AppliedCannotCancel))
    else if r.status.Canceled? then (r, Ok(r.status))
    else
      (r.(status := MigrationStatus.Canceled, reconciliation := CanceledState, severity := NoDrift, entities := {}, error := NoError,
          definition := SetDefinition(r.definition, DefinitionCanceled)),
       Ok(MigrationStatus.Canceled))
  }

  // ---- drift ----

  function DeriveSeverity(entities: set<Entity>): Severity {
    if entities == {} then NoDrift
    else if TableEntity in entities then Critical
    else if NamespaceEntity in entities then High
    else Medium
  }

  function Expected(columns: set<string>): set<string> {
    columns + {"id"}
  }

  function Affected(r: Rows, w: World): set<Entity> {
    (if !r.namespace then {NamespaceEntity} else {}) +
    (if r.definition.Missing? then {DefinitionEntity} else {}) +
    (if !HasTable(r) then {}
     else if !w.tableExists then {TableEntity}
     else set c | c in Expected(r.definition.columns) - w.columns :: ColumnEntity(c))
  }

  datatype Report = Report(reconciliation: Reconciliation, severity: Severity, entities: set<Entity>)

  function Detect(r: Rows, w: World): Report {
    if r.status.Queued? || r.status.Pending? then Report(PendingApply, NoDrift, {})
    else if r.status.Canceled? then Report(CanceledState, NoDrift, {})
    else if r.status.Failed? then Report(Drifted, Critical, {MigrationEntity})
    else
      var affected := Affected(r, w);
      Report(if affected == {} then InSync else Drifted, DeriveSeverity(affected), affected)
  }

  function Refresh(r: Rows, w: World): Rows {
    var report := Detect(r, w);
    r.(reconciliation := report.reconciliation, severity := report.severity, entities := report.entities,
       error := if report.reconciliation.InSync? then NoError else r.error)
  }

  // A reconciliation call attempts a repair exactly then.
  predicate Attempts(r: Rows, before: World, maxRetries: int) {
    r.status.Applied? && !Refresh(r, before).reconciliation.InSync? && r.attempts < maxRetries
  }

  // execute_migration_reconciliation; `before` and `after` are what the two refreshes see.
  function Reconcile(r: Rows, before: World, ddl: Ddl, after: World, maxRetries: int): Rows {
    var s := Refresh(r, before);
    if s.reconciliation.InSync? || !s.status.Applied? then s
    else if s.attempts >= maxRetries then s.(error := BudgetExhausted)
    else
      var t := s.(attempts := s.attempts + 1);
      if !HasTable(t) then t.(error := MetadataMissing, reconciliation := Drifted)
      else
        match ddl
        case DdlFails(text) => t.(error := RepairError(text), reconciliation := Drifted)
        case DdlOk => Refresh(t.(error := NoError), after)
  }
}
