// One active binding per environment and capability, and supersession that always ends; and
// what a switchover does to both.
module BindingProofs {
  import opened Domain
  import opened BindingModel
  import Switch = SwitchoverModel
  import Flush = SwitchoverFlushLevel
  import Commit = SwitchoverCommitLevel

  datatype Op =
    | SeedOp(environment: int, entries: seq<SeedEntry>)
    | CreateOp(environment: int, capability: int, provider: ProviderId, secrets: seq<Option<int>>, check: Validation)
    | SetStatusOp(id: nat, target: BindingStatus, providerFound: bool, prerequisitesMet: bool)

  function Step(rows: seq<Binding>, op: Op): seq<Binding> {
    match op
    case SeedOp(environment, entries) => Seed(rows, environment, entries)
    case CreateOp(environment, capability, provider, secrets, check) =>
      (match CreateVersion(rows, environment, capability, provider, secrets, check)
       case Ok(t) => t
       case Err(_) => rows)
    case SetStatusOp(id, target, providerFound, prerequisitesMet) =>
      if id >= |rows| then rows
      else
        match SetStatus(rows, id, target, providerFound, prerequisitesMet)
        case Ok(t) => t
        case Err(_) => rows
  }

  function Replay(rows: seq<Binding>, ops: seq<Op>): seq<Binding>
    decreases |ops|
  {
    if ops == [] then rows else Replay(Step(rows, ops[0]), ops[1..])
  }

  predicate OneActive(rows: seq<Binding>) {
    forall i, j :: 0 <= i < j < |rows| && SameSlot(rows[i], rows[j]) ==> !(rows[i].status.Active? && rows[j].status.Active?)
  }

  predicate SupersedesBackwards(rows: seq<Binding>) {
    forall i :: 0 <= i < |rows| && rows[i].supersedes.Some? ==>
      rows[i].supersedes.value < i && SameSlot(rows[i], rows[rows[i].supersedes.value])
  }

  predicate Inv(rows: seq<Binding>) {
    OneActive(rows) && SupersedesBackwards(rows)
  }

  lemma {:induction false} SeedKeepsInv(rows: seq<Binding>, environment: int, entries: seq<SeedEntry>)
    requires Inv(rows)
    ensures Inv(Seed(rows, environment, entries))
    decreases |entries|
  {
    if entries != [] {
      var before := Seed(rows, environment, entries[..|entries| - 1]);
      SeedKeepsInv(rows, environment, entries[..|entries| - 1]);
      var e := entries[|entries| - 1];
      if !SlotUsed(before, environment, e.capability) && e.provider.Some? {
        var t := SeedOne(before, environment, e);
        assert forall i :: 0 <= i < |before| ==> !SameSlot(before[i], t[|before|]);
      }
    }
  }

  lemma StepKeepsInv(rows: seq<Binding>, op: Op)
    requires Inv(rows)
    ensures Inv(Step(rows, op))
  {
    hide Inv, Seed, CreateVersion, SetStatus;
    match op
    case SeedOp(environment, entries) => SeedKeepsInv(rows, environment, entries);
    case CreateOp(environment, capability, provider, secrets, check) =>
      CreateKeepsInv(rows, environment, capability, provider, secrets, check);
    case SetStatusOp(id, target, providerFound, prerequisitesMet) =>
      if id < |rows| {
        SetStatusKeepsInv(rows, id, target, providerFound, prerequisitesMet);
      }
  }

  lemma CreateKeepsInv(rows: seq<Binding>, environment: int, capability: int, provider: ProviderId, secrets: seq<Option<int>>, check: Validation)
    requires Inv(rows)
    ensures var r := CreateVersion(rows, environment, capability, provider, secrets, check); r.Ok? ==> Inv(r.value)
  {
  }

  lemma SetStatusKeepsInv(rows: seq<Binding>, id: nat, target: BindingStatus, providerFound: bool, prerequisitesMet: bool)
    requires Inv(rows) && id < |rows|
    ensures var r := SetStatus(rows, id, target, providerFound, prerequisitesMet); r.Ok? ==> Inv(r.value)
  {
  }

  lemma {:induction false} ReplayKeepsInv(rows: seq<Binding>, ops: seq<Op>)
    requires Inv(rows)
    ensures Inv(Replay(rows, ops))
    decreases |ops|
  {
    if ops != [] {
      hide Inv, Step;
      StepKeepsInv(rows, ops[0]);
      ReplayKeepsInv(Step(rows, ops[0]), ops[1..]);
    }
  }

  // ---- main results ----

  // Seeding, new versions and status changes never need the unique index.
  lemma AtMostOneActive(ops: seq<Op>, i: nat, j: nat)
    requires var rows := Replay([], ops);
             && i < |rows| && j < |rows| && SameSlot(rows[i], rows[j])
             && rows[i].status.Active? && rows[j].status.Active?
    ensures i == j
  {
    ReplayKeepsInv([], ops);
  }

  // The supersession chain of a row, newest first.
  function Chain(rows: seq<Binding>, i: nat): seq<nat>
    requires SupersedesBackwards(rows) && i < |rows|
    decreases i
  {
    match rows[i].supersedes
    case None => [i]
    case Some(j) => [i] + Chain(rows, j)
  }

  // Every chain ends at a row that supersedes nothing, visits each row at most once, and stays
  // within one environment and capability.
  lemma {:induction false} ChainEnds(rows: seq<Binding>, i: nat)
    requires SupersedesBackwards(rows) && i < |rows|
    ensures var c := Chain(rows, i);
            && 0 < |c| <= i + 1 && c[0] == i
            && (forall k :: 0 <= k < |c| ==> c[k] < |rows| && SameSlot(rows[c[k]], rows[i]))
            && (forall k :: 0 <= k < |c| - 1 ==> c[k + 1] < c[k] && rows[c[k]].supersedes == Some(c[k + 1]))
            && rows[c[|c| - 1]].supersedes == None
    decreases i
  {
    if rows[i].supersedes.Some? {
      ChainEnds(rows, rows[i].supersedes.value);
    }
  }

  lemma EveryChainEnds(ops: seq<Op>, i: nat)
    requires i < |Replay([], ops)|
    ensures SupersedesBackwards(Replay([], ops))
    ensures var c := Chain(Replay([], ops), i);
            c != [] && c[|c| - 1] < |Replay([], ops)| && Replay([], ops)[c[|c| - 1]].supersedes == None
  {
    ReplayKeepsInv([], ops);
    ChainEnds(Replay([], ops), i);
  }

  // A supersession link never changes, and a RETIRED binding stays RETIRED.
  lemma StepKeepsHistory(rows: seq<Binding>, op: Op)
    ensures var t := Step(rows, op);
            && |rows| <= |t|
            && (forall i :: 0 <= i < |rows| ==>
                  && SameSlot(t[i], rows[i]) && t[i].supersedes == rows[i].supersedes && t[i].provider == rows[i].provider
                  && (rows[i].status.Retired? ==> t[i].status.Retired?))
  {
    match op
    case SeedOp(environment, entries) => SeedExtends(rows, environment, entries);
    case _ =>
  }

  lemma {:induction false} SeedExtends(rows: seq<Binding>, environment: int, entries: seq<SeedEntry>)
    ensures rows <= Seed(rows, environment, entries)
    decreases |entries|
  {
    if entries != [] {
      SeedExtends(rows, environment, entries[..|entries| - 1]);
    }
  }

  lemma {:induction false} RetiredIsFinal(rows: seq<Binding>, ops: seq<Op>, i: nat)
    requires i < |rows| && rows[i].status.Retired?
    ensures i < |Replay(rows, ops)| && Replay(rows, ops)[i].status.Retired?
    decreases |ops|
  {
    if ops != [] {
      StepKeepsHistory(rows, ops[0]);
      hide Step;
      RetiredIsFinal(Step(rows, ops[0]), ops[1..], i);
    }
  }

  // ---- what each operation does, in terms of the columns ----

  // The transitions allowed by hand, pair by pair.
  predicate Listed(from: BindingStatus, to: BindingStatus) {
    || (from.PendingValidation? && (to.Active? || to.Failed? || to.Disabled?))
    || (from.Active? && (to.Deprecated? || to.Failed? || to.Disabled? || to.Retired?))
    || (from.Deprecated? && (to.Active? || to.Disabled? || to.Retired?))
    || (from.Failed? && (to.PendingValidation? || to.Active? || to.Disabled? || to.Retired?))
    || (from.Disabled? && (to.PendingValidation? || to.Active? || to.Retired?))
    || (from.Pending? && (to.PendingValidation? || to.Active? || to.Failed? || to.Disabled?))
  }

  predicate ActiveIn(rows: seq<Binding>, environment: int, capability: int, i: int) {
    0 <= i < |rows| && rows[i].environment == environment && rows[i].capability == capability && rows[i].status == BindingStatus.Active
  }

  // A status is set exactly when it is unchanged or the transition is listed and, for ACTIVE, the
  // provider is there, the prerequisites are met and no other row of the slot is ACTIVE; then
  // that one status changes. A refusal names the first of these that fails.
  lemma SetStatusMeans(rows: seq<Binding>, id: nat, target: BindingStatus, providerFound: bool, prerequisitesMet: bool)
    requires id < |rows|
    ensures var r := SetStatus(rows, id, target, providerFound, prerequisitesMet);
            var legal := rows[id].status == target || Listed(rows[id].status, target);
            var activates := legal && target == BindingStatus.Active;
            var other := exists j :: j != id && ActiveIn(rows, rows[id].environment, rows[id].capability, j);
            && (r.Ok? <==> legal && (activates ==> providerFound && prerequisitesMet && !other))
            && (r.Ok? ==> |r.value| == |rows| && forall i :: 0 <= i < |rows| ==>
                  r.value[i] == if i == id then rows[i].(status := target) else rows[i])
            && (r == Err(IllegalTransition) <==> !legal)
            && (r == Err(ProviderMissing) <==> activates && !providerFound)
            && (r == Err(PrerequisitesMissing) <==> activates && providerFound && !prerequisitesMet)
            && (r.Err? && r.error.ActiveConflict? <==> activates && providerFound && prerequisitesMet && other)
            && (r.Err? && r.error.ActiveConflict? ==>
                  r.error.other != id && ActiveIn(rows, rows[id].environment, rows[id].capability, r.error.other))
  {
    var conflict := FindActive(rows, rows[id].environment, rows[id].capability, id, |rows|);
    hide FindActive;
    if conflict.Some? {
      assert ActiveIn(rows, rows[id].environment, rows[id].capability, conflict.value);
    }
  }

  // A new version is refused exactly when a secret to link is missing or of another environment.
  // Otherwise it is appended, ACTIVE exactly when no required kind is missing and the region is
  // supported and FAILED if not, on top of the ACTIVE row of its slot, which is deprecated in the
  // one case and left alone in the other; no other row changes.
  lemma CreateVersionMeans(rows: seq<Binding>, environment: int, capability: int, provider: ProviderId, secrets: seq<Option<int>>, check: Validation)
    requires OneActive(rows)
    ensures var r := CreateVersion(rows, environment, capability, provider, secrets, check);
            var passes := check.missing == {} && (match check.region
                                                  case None => true
                                                  case Some(region) => "global" in check.supported || region in check.supported);
            && (r.Ok? <==> forall s <- secrets :: s == Some(environment))
            && (r.Err? ==> r.error == OutsideBoundary)
            && (r.Ok? ==>
                  && |r.value| == |rows| + 1
                  && (forall i :: 0 <= i < |rows| ==>
                        r.value[i] == if passes && ActiveIn(rows, environment, capability, i)
                                      then rows[i].(status := BindingStatus.Deprecated) else rows[i])
                  && var made := r.value[|rows|];
                  && made.environment == environment && made.capability == capability && made.provider == provider
                  && made.status == (if passes then BindingStatus.Active else BindingStatus.Failed)
                  && (match made.supersedes
                      case None => forall i :: !ActiveIn(rows, environment, capability, i)
                      case Some(k) => ActiveIn(rows, environment, capability, k)))
  {
    var current := FindActive(rows, environment, capability, -1, |rows|);
    hide FindActive;
    if current.Some? {
      forall i | ActiveIn(rows, environment, capability, i) ensures i == current.value {
        assert SameSlot(rows[i], rows[current.value]) && SameSlot(rows[current.value], rows[i]);
      }
    }
  }

  // Seeding appends ACTIVE rows that supersede nothing, each for a capability of the environment
  // that had none and with the first provider of its entry, and leaves no entry with a provider
  // without a row.
  lemma {:induction false} SeedMeans(rows: seq<Binding>, environment: int, entries: seq<SeedEntry>)
    ensures var t := Seed(rows, environment, entries);
            && rows <= t
            && (forall i :: |rows| <= i < |t| ==>
                  && t[i].environment == environment && t[i].status == BindingStatus.Active && t[i].supersedes == None
                  && SeedEntry(t[i].capability, Some(t[i].provider)) in entries
                  && forall j :: 0 <= j < |t| && j != i ==> !(t[j].environment == environment && t[j].capability == t[i].capability))
            && (forall e <- entries :: e.provider.Some? ==>
                  exists i :: 0 <= i < |t| && t[i].environment == environment && t[i].capability == e.capability)
    decreases |entries|
  {
    if entries != [] {
      var n := |entries| - 1;
      var before := Seed(rows, environment, entries[..n]);
      SeedMeans(rows, environment, entries[..n]);
      assert forall e <- entries[..n] :: e in entries;
      SeedOneMeans(before, environment, entries[n]);
      var t := Seed(rows, environment, entries);
      forall e | e in entries && e.provider.Some? ensures exists i :: 0 <= i < |t| && t[i].environment == environment && t[i].capability == e.capability {
        if e in entries[..n] {
          var i :| 0 <= i < |before| && before[i].environment == environment && before[i].capability == e.capability;
          assert t[i] == before[i];
        }
      }
    }
  }

  lemma SeedOneMeans(rows: seq<Binding>, environment: int, e: SeedEntry)
    ensures var t := SeedOne(rows, environment, e);
            && (t == rows || (e.provider.Some? && t == rows + [Binding(environment, e.capability, e.provider.value, BindingStatus.Active, None)]))
            && (t != rows ==> forall i :: 0 <= i < |rows| ==> !(rows[i].environment == environment && rows[i].capability == e.capability))
            && (e.provider.Some? ==> exists i :: 0 <= i < |t| && t[i].environment == environment && t[i].capability == e.capability)
  {
    if SlotUsed(rows, environment, e.capability) {
      var i :| 0 <= i < |rows| && InSlot(rows[i], environment, e.capability);
      assert rows[i].environment == environment;
    } else {
      assert forall i :: 0 <= i < |rows| ==> !InSlot(rows[i], environment, e.capability);
      if e.provider.Some? {
        assert SeedOne(rows, environment, e)[|rows|].environment == environment;
      }
    }
  }

  // ---- the readiness of environments ----

  // What an operation writes on the environments: only an accepted new version does.
  function ReadinessAfter(readiness: map<int, Readiness>, op: Op): map<int, Readiness> {
    if op.CreateOp? && WithinBoundary(op.environment, op.secrets)
    then readiness[op.environment := if Passes(op.check) then Ready else Degraded]
    else readiness
  }

  function ReplayReadiness(readiness: map<int, Readiness>, ops: seq<Op>): map<int, Readiness>
    decreases |ops|
  {
    if ops == [] then readiness else ReplayReadiness(ReadinessAfter(readiness, ops[0]), ops[1..])
  }

  // Position k holds the last version accepted for the environment.
  predicate LastAccepted(ops: seq<Op>, environment: int, k: nat) {
    && k < |ops| && Accepts(ops[k], environment)
    && forall j :: k < j < |ops| ==> !Accepts(ops[j], environment)
  }

  predicate Accepts(op: Op, environment: int) {
    op.CreateOp? && op.environment == environment && WithinBoundary(op.environment, op.secrets)
  }

  // An environment is READY exactly when the last version accepted for it passed its checks.
  lemma {:induction false} ReadinessIsTheLastCheck(readiness: map<int, Readiness>, ops: seq<Op>, environment: int, k: nat)
    requires LastAccepted(ops, environment, k)
    ensures environment in ReplayReadiness(readiness, ops)
    ensures ReplayReadiness(readiness, ops)[environment] == Ready <==> Passes(ops[k].check)
    decreases |ops|
  {
    var next := ReadinessAfter(readiness, ops[0]);
    if k > 0 {
      assert ops[1..][k - 1] == ops[k];
      assert forall j :: k - 1 < j < |ops[1..]| ==> ops[1..][j] == ops[j + 1];
      ReadinessIsTheLastCheck(next, ops[1..], environment, k - 1);
    } else {
      assert forall j :: 0 <= j < |ops[1..]| ==> ops[1..][j] == ops[j + 1];
      UnacceptedKeepsReadiness(next, ops[1..], environment);
    }
  }

  lemma {:induction false} UnacceptedKeepsReadiness(readiness: map<int, Readiness>, ops: seq<Op>, environment: int)
    requires environment in readiness && forall j :: 0 <= j < |ops| ==> !Accepts(ops[j], environment)
    ensures environment in ReplayReadiness(readiness, ops) && ReplayReadiness(readiness, ops)[environment] == readiness[environment]
    decreases |ops|
  {
    if ops != [] {
      assert forall j :: 0 <= j < |ops[1..]| ==> ops[1..][j] == ops[j + 1];
      UnacceptedKeepsReadiness(ReadinessAfter(readiness, ops[0]), ops[1..], environment);
    }
  }

  // So READY does not mean that all bindings are validated: a version of one capability that
  // fails and one of another that passes leave the environment READY with a FAILED binding.
  lemma ReadyWithFailedBinding(environment: int, a: int, b: int, provider: ProviderId, bad: Validation, good: Validation)
    requires a != b && !Passes(bad) && Passes(good)
    ensures var ops := [CreateOp(environment, a, provider, [], bad), CreateOp(environment, b, provider, [], good)];
            var rows := Replay([], ops);
            && ReplayReadiness(map[], ops) == map[environment := Ready]
            && |rows| == 2 && rows[0].status.Failed? && rows[1].status.Active?
            && rows[0].environment == environment && rows[0].capability == a
  {
    var one, two := CreateOp(environment, a, provider, [], bad), CreateOp(environment, b, provider, [], good);
    var failed := Binding(environment, a, provider, BindingStatus.Failed, None);
    assert Step([], one) == [failed];
    assert FindActive([failed], environment, b, -1, 0) == None;
    assert Step([failed], two) == [failed, Binding(environment, b, provider, BindingStatus.Active, None)];
    assert [one, two][1..] == [two];
    assert Replay([failed], [two]) == Replay(Step([failed], two), []);
    var first := ReadinessAfter(map[], one);
    assert ReplayReadiness(first, [two]) == ReplayReadiness(ReadinessAfter(first, two), []);
  }

  // ---- switchovers write bindings too ----

  // The table after a switchover of row `id` commits `r`.
  function WithSwitchover(rows: seq<Binding>, id: nat, r: Switch.Row): seq<Binding>
    requires id < |rows|
  {
    rows[id := rows[id].(provider := r.provider, status := r.bindingStatus)]
  }

  predicate AnotherIsActive(rows: seq<Binding>, id: nat)
    requires id < |rows|
  {
    exists j :: 0 <= j < |rows| && j != id && SameSlot(rows[j], rows[id]) && rows[j].status.Active?
  }

  // The row a plan for binding `id` has committed after a history of its own.
  function PlanRow(rows: seq<Binding>, id: nat, plan: Switch.Plan, ops: seq<Commit.Op>): Switch.Row
    requires id < |rows|
  {
    Commit.Replay(plan, Switch.InitialRow(rows[id].provider, rows[id].status), ops)
  }

  // A plan that has finished a run or was rolled back has made its binding ACTIVE, whatever the
  // binding was before; so it keeps one active binding exactly when no other one is active,
  // which is certain only when the binding was ACTIVE at the start.
  lemma SwitchoverKeepsOneActiveIff(rows: seq<Binding>, id: nat, plan: Switch.Plan, ops: seq<Commit.Op>)
    requires id < |rows| && OneActive(rows)
    requires !PlanRow(rows, id, plan, ops).status.Pending?
    ensures var r := PlanRow(rows, id, plan, ops);
            && r.bindingStatus.Active?
            && (OneActive(WithSwitchover(rows, id, r)) <==> !AnotherIsActive(rows, id))
            && (rows[id].status.Active? ==> OneActive(WithSwitchover(rows, id, r)))
  {
    FinishedPlanIsActive(plan, rows[id].provider, rows[id].status, ops);
    var r := PlanRow(rows, id, plan, ops);
    var t := WithSwitchover(rows, id, r);
    hide PlanRow;
    if AnotherIsActive(rows, id) {
      var j :| 0 <= j < |rows| && j != id && SameSlot(rows[j], rows[id]) && rows[j].status.Active?;
      assert SameSlot(t[j], t[id]) && t[j].status.Active? && t[id].status.Active?;
    }
  }

  lemma {:induction false} FinishedPlanIsActive(plan: Switch.Plan, p0: ProviderId, status: BindingStatus, ops: seq<Commit.Op>)
    ensures var r := Commit.Replay(plan, Switch.InitialRow(p0, status), ops);
            && (r.status.Pending? ==> r == Switch.InitialRow(p0, status))
            && (!r.status.Pending? ==> r.bindingStatus.Active? && !r.status.Running?)
    decreases |ops|
  {
    if ops != [] {
      var before := ops[..|ops| - 1];
      var row := Commit.Replay(plan, Switch.InitialRow(p0, status), before);
      FinishedPlanIsActive(plan, p0, status, before);
      Commit.ReplayKeepsInv(plan, p0, status, before);
      hide Switch.Execute, Switch.CanaryFrom;
      var op := ops[|ops| - 1];
      if op.ExecuteOp? && op.commits && Switch.Executable(row) {
        Flush.RunOutcome(plan, p0, row, op.probes);
      }
    }
  }

  // A RETIRED binding stays RETIRED under a plan exactly while the plan has committed no run.
  lemma RetiredStaysIff(rows: seq<Binding>, id: nat, plan: Switch.Plan, ops: seq<Commit.Op>)
    requires id < |rows| && rows[id].status.Retired?
    ensures WithSwitchover(rows, id, PlanRow(rows, id, plan, ops))[id].status.Retired? <==>
            PlanRow(rows, id, plan, ops).status.Pending?
  {
    FinishedPlanIsActive(plan, rows[id].provider, rows[id].status, ops);
  }

  // It does happen: one run whose preflight fails makes a RETIRED binding ACTIVE again.
  lemma FailedPreflightRevives(rows: seq<Binding>, id: nat, plan: Switch.Plan, probes: Switch.Probes)
    requires id < |rows| && rows[id].status.Retired? && !Switch.PreflightPasses(probes)
    ensures var r := PlanRow(rows, id, plan, [Commit.ExecuteOp(probes, true)]);
            && r.status.Failed? && r.provider == rows[id].provider
            && WithSwitchover(rows, id, r)[id].status.Active?
  {
    var row0 := Switch.InitialRow(rows[id].provider, rows[id].status);
    var op := Commit.ExecuteOp(probes, true);
    assert [op][..0] == [];
    assert Commit.Replay(plan, row0, [op]) == Commit.StepCommit(plan, row0, op);
    hide Switch.Execute, Switch.CanaryFrom;
    Flush.RunOutcome(plan, rows[id].provider, row0, probes);
  }
}
