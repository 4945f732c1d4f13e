// Capability bindings: seeding, new versions and manual status changes, as functions of the table.
module BindingModel {
  import opened Domain

  // The id of a row is its position in the table.
  datatype Binding = Binding(
    environment: int,
    capability: int,
    provider: ProviderId,
    status: BindingStatus,
    supersedes: Option<nat>)

  datatype BindingError = OutsideBoundary | IllegalTransition | ProviderMissing | PrerequisitesMissing | ActiveConflict(other: nat)

  predicate SameSlot(a: Binding, b: Binding) {
    a.environment == b.environment && a.capability == b.capability
  }

  predicate InSlot(b: Binding, environment: int, capability: int) {
    b.environment == environment && b.capability == capability
  }

  // LEGAL_BINDING_STATUS_TRANSITIONS
  function LegalTargets(s: BindingStatus): set<BindingStatus> {
    match s
    case PendingValidation => {BindingStatus.Active, BindingStatus.Failed, BindingStatus.Disabled}
    case Active => {BindingStatus.Deprecated, BindingStatus.Failed, BindingStatus.Disabled, BindingStatus.Retired}
    case Deprecated => {BindingStatus.Active, BindingStatus.Disabled, BindingStatus.Retired}
    case Failed => {BindingStatus.PendingValidation, BindingStatus.Active, BindingStatus.Disabled, BindingStatus.Retired}
    case Disabled => {BindingStatus.PendingValidation, BindingStatus.Active, BindingStatus.Retired}
    case Retired => {}
    case Pending => {BindingStatus.PendingValidation, BindingStatus.Active, BindingStatus.Failed, BindingStatus.Disabled}
  }

  predicate Legal(from: BindingStatus, to: BindingStatus) {
    from == to || to in LegalTargets(from)
  }

  // The first ACTIVE row of a slot among the first n rows, leaving out row `except`.
  function FindActive(rows: seq<Binding>, environment: int, capability: int, except: int, n: nat): (r: Option<nat>)
    requires n <= |rows|
    ensures r.Some? ==> r.value < n && r.value != except && InSlot(rows[r.value], environment, capability) && rows[r.value].status.Active?
    ensures r.None? ==> forall j :: 0 <= j < n && j != except && InSlot(rows[j], environment, capability) ==> !rows[j].status.Active?
  {
    if n == 0 then None
    else
      var rest := FindActive(rows, environment, capability, except, n - 1);
      if rest.Some? then rest
      else if n - 1 != except && InSlot(rows[n - 1], environment, capability) && rows[n - 1].status.Active? then Some(n - 1)
      else None
  }

  predicate SlotUsed(rows: seq<Binding>, environment: int, capability: int) {
    exists i :: 0 <= i < |rows| && InSlot(rows[i], environment, capability)
  }

  // One capability type with its first catalogue entry, if it has one.
  datatype SeedEntry = SeedEntry(capability: int, provider: Option<ProviderId>)

  function SeedOne(rows: seq<Binding>, environment: int, e: SeedEntry): seq<Binding> {
    if SlotUsed(rows, environment, e.capability) || e.provider.None? then rows
    else rows + [Binding(environment, e.capability, e.provider.value, BindingStatus.Active, None)]
  }

  function Seed(rows: seq<Binding>, environment: int, entries: seq<SeedEntry>): seq<Binding>
    decreases |entries|
  {
    if entries == [] then rows
    else SeedOne(Seed(rows, environment, entries[..|entries| - 1]), environment, entries[|entries| - 1])
  }

  // Each secret to link is given by its environment, if there is such a secret.
  predicate WithinBoundary(environment: int, secrets: seq<Option<int>>) {
    forall s <- secrets :: s == Some(environment)
  }

  // What the new version is checked against: the required secret kinds that no linked secret
  // provides, the region asked for, and those the provider supports.
  datatype Validation = Validation(missing: set<string>, region: Option<string>, supported: set<string>)

  predicate Passes(v: Validation) {
    v.missing == {} && (v.region.None? || "global" in v.supported || v.region.value in v.supported)
  }

  datatype Readiness = Ready | Degraded

  function CreateVersion(rows: seq<Binding>, environment: int, capability: int, provider: ProviderId, secrets: seq<Option<int>>, check: Validation)
    : Result<seq<Binding>, BindingError>
  {
    var current := FindActive(rows, environment, capability, -1, |rows|);
    var created := Binding(environment, capability, provider, if Passes(check) then BindingStatus.Active else BindingStatus.Failed, current);
    if !WithinBoundary(environment, secrets) then Err(OutsideBoundary)
    else Ok((if Passes(check) && current.Some? then rows[current.value := rows[current.value].(status := BindingStatus.Deprecated)] else rows) + [created])
  }

  function SetStatus(rows: seq<Binding>, id: nat, target: BindingStatus, providerFound: bool, prerequisitesMet: bool): Result<seq<Binding>, BindingError>
    requires id < |rows|
  {
    var b := rows[id];
    var conflict := FindActive(rows, b.environment, b.capability, id, |rows|);
    if !Legal(b.status, target) then Err(IllegalTransition)
    else if target.Active? && !providerFound then Err(ProviderMissing)
    else if target.Active? && !prerequisitesMet then Err(PrerequisitesMissing)
    else if target.Active? && conflict.Some? then Err(ActiveConflict(conflict.value))
    else Ok(rows[id := b.(status := target)])
  }
}
