// Recording usage and checking the quota against the shared meter table.
module UsageService {
  import opened Domain
  import opened UsageModel
  import opened UsageProofs

  class Metering {
    var rows: seq<Meter>

    constructor ()
      ensures rows == []
    {
      rows := [];
    }

    method FindRow(key: MeterKey) returns (r: Option<nat>)
      ensures r == Find(rows, key)
    {
      for i := 0 to |rows|
        invariant Find(rows, key) == match Find(rows[i..], key)
                                     case None => None
                                     case Some(k) => Some(i + k)
      {
        if rows[i].key == key {
          return Some(i);
        }
        assert rows[i..][1..] == rows[i + 1..];
      }
      r := None;
    }

    // The row is created at zero when it is missing and then incremented in place.
    method RecordUsage(key: MeterKey, increment: real) returns (value: real)
      modifies this
      ensures rows == Record(old(rows), Call(key, increment))
      ensures Total(rows, key.environment) == Total(old(rows), key.environment) + increment
      ensures forall e :: e != key.environment ==> Total(rows, e) == Total(old(rows), e)
      ensures value == ValueOf(old(rows), key) + increment
    {
      var row := FindRow(key);
      var i := |rows|;
      if row.Some? {
        i := row.value;
      } else {
        rows := rows + [Meter(key, 0.0)];
      }
      rows := rows[i := Meter(key, rows[i].value + increment)];
      value := rows[i].value;
      forall e ensures Total(rows, e) == Total(old(rows), e) + (if e == key.environment then increment else 0.0) {
        RecordTotal(old(rows), Call(key, increment), e);
      }
    }

    method UsageTotal(environment: EnvironmentId) returns (total: real)
      ensures total == Total(rows, environment)
    {
      total := 0.0;
      for i := 0 to |rows|
        invariant total == Total(rows[..i], environment)
      {
        if rows[i].key.environment == environment {
          total := total + rows[i].value;
        }
        assert rows[..i + 1][..i] == rows[..i];
      }
      assert rows[..|rows|] == rows;
    }

    // The quota part of authorizing a mutation.
    method AuthorizeMutation(environment: EnvironmentId, policy: Policy, action: string) returns (refusal: Option<Refusal>)
      ensures refusal == Authorize(rows, environment, policy, action)
      ensures refusal.Some? <==> Total(rows, environment) >= Ceiling(ThresholdsOf(policy), action)
    {
      var total := UsageTotal(environment);
      var t := ThresholdsOf(policy);
      RefusedIff(total, t, action);
      if total >= t.hard {
        return Some(HardLimitEnforced);
      }
      if total >= t.soft && action !in ControlledActions {
        return Some(SoftLimitEnforced);
      }
      refusal := None;
    }
  }
}
