// Vocabulary shared by the control-plane models: optional values, results and
// the enumerations of the platform's domain layer.
module Domain {

  datatype Option<+T> = None | Some(value: T)

  datatype Result<+T, +E> = Ok(value: T) | Err(error: E)

  datatype BindingStatus =
    | PendingValidation
    | Active
    | Deprecated
    | Retired
    | Failed
    | Pending
    | Disabled

  datatype SwitchoverStatus =
    | Pending
    | Running
    | Completed
    | Failed
    | RolledBack

  datatype MigrationStatus =
    | Queued
    | Pending
    | Applied
    | Failed
    | Canceled

  type ProviderId = int
}
