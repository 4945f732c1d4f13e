// The binding table as the control plane updates it.
module BindingService {
  import opened Domain
  import opened BindingModel
  import opened BindingProofs

  class BindingStore {
    var rows: seq<Binding>
    var readiness: map<int, Readiness>

    constructor ()
      ensures rows == [] && readiness == map[]
    {
      rows, readiness := [], map[];
    }

    // The query for the ACTIVE binding of a slot.
    method QueryActive(environment: int, capability: int, except: int) returns (r: Option<nat>)
      ensures r == FindActive(rows, environment, capability, except, |rows|)
    {
      r := None;
      for i := 0 to |rows|
        invariant r == FindActive(rows, environment, capability, except, i)
      {
        if r.None? && i != except && InSlot(rows[i], environment, capability) && rows[i].status.Active? {
          r := Some(i);
        }
      }
    }

    method QueryAny(environment: int, capability: int) returns (found: bool)
      ensures found <==> SlotUsed(rows, environment, capability)
    {
      found := false;
      for i := 0 to |rows|
        invariant !found
        invariant forall j :: 0 <= j < i ==> !InSlot(rows[j], environment, capability)
      {
        if InSlot(rows[i], environment, capability) {
          return true;
        }
      }
    }

    // _seed_environment_bindings
    method SeedEnvironmentBindings(environment: int, entries: seq<SeedEntry>)
      modifies this`rows
      ensures rows == Step(old(rows), SeedOp(environment, entries))
    {
      for i := 0 to |entries|
        invariant rows == Seed(old(rows), environment, entries[..i])
      {
        assert entries[..i + 1][..i] == entries[..i];
        var existing := QueryAny(environment, entries[i].capability);
        if !existing && entries[i].provider.Some? {
          rows := rows + [Binding(environment, entries[i].capability, entries[i].provider.value, BindingStatus.Active, None)];
        }
      }
      assert entries[..|entries|] == entries;
    }

    // create_binding_version
    method CreateBindingVersion(environment: int, capability: int, provider: ProviderId, secrets: seq<Option<int>>, check: Validation)
      returns (r: Result<nat, BindingError>)
      modifies this
      ensures rows == Step(old(rows), CreateOp(environment, capability, provider, secrets, check))
      ensures readiness == ReadinessAfter(old(readiness), CreateOp(environment, capability, provider, secrets, check))
      ensures r.Ok? <==> forall s <- secrets :: s == Some(environment)
      ensures r.Ok? ==> r.value == |old(rows)| && r.value < |rows| && (rows[r.value].status.Active? <==> Passes(check))
      ensures r.Err? ==> r.error == OutsideBoundary && rows == old(rows) && readiness == old(readiness)
    {
      for i := 0 to |secrets|
        invariant forall k :: 0 <= k < i ==> secrets[k] == Some(environment)
      {
        if secrets[i] != Some(environment) {
          assert secrets[i] in secrets;
          return Err(OutsideBoundary);
        }
      }
      var current := QueryActive(environment, capability, -1);
      var id := |rows|;
      rows := rows + [Binding(environment, capability, provider, BindingStatus.PendingValidation, current)];
      var regionValid := check.region.None? || "global" in check.supported || check.region.value in check.supported;
      if check.missing == {} && regionValid {
        rows := rows[id := rows[id].(status := BindingStatus.Active)];
        if current.Some? {
          rows := rows[current.value := rows[current.value].(status := BindingStatus.Deprecated)];
        }
        readiness := readiness[environment := Ready];
      } else {
        rows := rows[id := rows[id].(status := BindingStatus.Failed)];
        readiness := readiness[environment := Degraded];
      }
      r := Ok(id);
    }

    // set_binding_status
    method SetBindingStatus(id: nat, target: BindingStatus, providerFound: bool, prerequisitesMet: bool) returns (r: Result<BindingStatus, BindingError>)
      requires id < |rows|
      modifies this`rows
      ensures rows == Step(old(rows), SetStatusOp(id, target, providerFound, prerequisitesMet))
      ensures r.Ok? <==> SetStatus(old(rows), id, target, providerFound, prerequisitesMet).Ok?
      ensures r.Err? ==> r.error == SetStatus(old(rows), id, target, providerFound, prerequisitesMet).error
    {
      var b := rows[id];
      if b.status != target && target !in LegalTargets(b.status) {
        return Err(IllegalTransition);
      }
      if target.Active? {
        if !providerFound {
          return Err(ProviderMissing);
        }
        if !prerequisitesMet {
          return Err(PrerequisitesMissing);
        }
        var conflict := QueryActive(b.environment, b.capability, id);
        if conflict.Some? {
          return Err(ActiveConflict(conflict.value));
        }
      }
      rows := rows[id := b.(status := target)];
      r := Ok(target);
    }
  }
}
