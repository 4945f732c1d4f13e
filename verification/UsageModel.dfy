// Usage meters and the quota they feed. Values are exact numbers: rounding is not modelled.
module UsageModel {
  import opened Domain

  type EnvironmentId = nat

  datatype MeterKey = MeterKey(environment: EnvironmentId, capability: string, metric: string)

  datatype Meter = Meter(key: MeterKey, value: real)

  datatype Call = Call(key: MeterKey, increment: real)

  // ---- record_usage as one step ----

  function Find(rows: seq<Meter>, key: MeterKey): (r: Option<nat>)
    ensures r.Some? ==> r.value < |rows| && rows[r.value].key == key
    ensures r.None? ==> forall i :: 0 <= i < |rows| ==> rows[i].key != key
  {
    if rows == [] then None
    else if rows[0].key == key then Some(0)
    else match Find(rows[1..], key)
      case None =>
        assert forall i :: 1 <= i < |rows| ==> rows[i] == rows[1..][i - 1];
        None
      case Some(i) => Some(i + 1)
  }

  function Record(rows: seq<Meter>, call: Call): seq<Meter> {
    match Find(rows, call.key)
    case None => rows + [Meter(call.key, call.increment)]
    case Some(i) => rows[i := Meter(call.key, rows[i].value + call.increment)]
  }

  function RecordAll(rows: seq<Meter>, calls: seq<Call>): seq<Meter>
    decreases |calls|
  {
    if calls == [] then rows else RecordAll(Record(rows, calls[0]), calls[1..])
  }

  function Total(rows: seq<Meter>, environment: EnvironmentId): real
    decreases |rows|
  {
    if rows == [] then 0.0
    else Total(rows[..|rows| - 1], environment) +
         (if rows[|rows| - 1].key.environment == environment then rows[|rows| - 1].value else 0.0)
  }

  function Increments(calls: seq<Call>, environment: EnvironmentId): real
    decreases |calls|
  {
    if calls == [] then 0.0
    else (if calls[0].key.environment == environment then calls[0].increment else 0.0) +
         Increments(calls[1..], environment)
  }

  function IncrementsOf(calls: seq<Call>, key: MeterKey): real
    decreases |calls|
  {
    if calls == [] then 0.0
    else (if calls[0].key == key then calls[0].increment else 0.0) + IncrementsOf(calls[1..], key)
  }

  // ---- record_usage as a read and a write, with other transactions in between ----

  // What a transaction has read: the row it will write, if there was one, and its value then.
  datatype Reading = Reading(call: Call, row: Option<nat>, value: real)

  datatype Shared = Shared(rows: seq<Meter>, readings: map<nat, Reading>)

  datatype Event = Read(agent: nat, call: Call) | Write(agent: nat)

  function WriteBack(rows: seq<Meter>, r: Reading): seq<Meter> {
    if r.row.Some? && r.row.value < |rows|
    then rows[r.row.value := Meter(rows[r.row.value].key, r.value + r.call.increment)]
    else rows + [Meter(r.call.key, r.call.increment)]
  }

  function StepShared(s: Shared, e: Event): Shared {
    match e
    case Read(agent, call) =>
      var row := Find(s.rows, call.key);
      s.(readings := s.readings[agent := Reading(call, row, if row.Some? then s.rows[row.value].value else 0.0)])
    case Write(agent) =>
      if agent !in s.readings then s
      else s.(rows := WriteBack(s.rows, s.readings[agent]), readings := s.readings - {agent})
  }

  function RunShared(s: Shared, events: seq<Event>): Shared
    decreases |events|
  {
    if events == [] then s else RunShared(StepShared(s, events[0]), events[1..])
  }

  // ---- quota ----

  datatype Thresholds = Thresholds(warning: real, soft: real, hard: real)

  datatype QuotaState = Healthy | Warned | SoftLimited | HardLimited

  datatype Degradation = Unrestricted | Controlled | Blocked

  datatype Quota = Quota(
    state: QuotaState,
    warningTriggered: bool,
    softLimited: bool,
    hardLimited: bool,
    utilization: real,
    degradation: Degradation)

  datatype Refusal = HardLimitEnforced | SoftLimitEnforced

  type Policy = map<string, real>

  function Configured(policy: Policy, name: string, fallback: real): real {
    if name in policy then policy[name] else fallback
  }

  function ThresholdsOf(policy: Policy): Thresholds {
    Thresholds(Configured(policy, "warning_threshold", 750.0),
               Configured(policy, "soft_limit", 1000.0),
               Configured(policy, "hard_limit", 1200.0))
  }

  function Evaluate(usage: real, t: Thresholds): Quota {
    var warning, soft, hard := usage >= t.warning, usage >= t.soft, usage >= t.hard;
    var utilization := if t.hard <= 0.0 then 0.0 else if usage / t.hard < 1.0 then usage / t.hard else 1.0;
    if hard then Quota(HardLimited, warning, soft, hard, utilization, Blocked)
    else if soft then Quota(SoftLimited, warning, soft, hard, utilization, Controlled)
    else if warning then Quota(Warned, warning, soft, hard, utilization, Unrestricted)
    else Quota(Healthy, warning, soft, hard, utilization, Unrestricted)
  }

  const ControlledActions: set<string> := {"webhook_drain", "webhook_recover", "migrations"}

  function Enforce(usage: real, t: Thresholds, action: string): Option<Refusal> {
    var q := Evaluate(usage, t);
    if q.hardLimited then Some(HardLimitEnforced)
    else if q.softLimited && action !in ControlledActions then Some(SoftLimitEnforced)
    else None
  }

  function Authorize(rows: seq<Meter>, environment: EnvironmentId, policy: Policy, action: string): Option<Refusal> {
    Enforce(Total(rows, environment), ThresholdsOf(policy), action)
  }
}
