// Conservation of recorded usage, what concurrent recording can lose, and the quota ladder.
module UsageProofs {
  import opened Domain
  import opened UsageModel

  // ---- conservation ----

  lemma {:induction false} TotalUpdate(rows: seq<Meter>, i: nat, value: real, environment: EnvironmentId)
    requires i < |rows|
    ensures Total(rows[i := Meter(rows[i].key, value)], environment) ==
            Total(rows, environment) + (if rows[i].key.environment == environment then value - rows[i].value else 0.0)
    decreases |rows|
  {
    var n := |rows| - 1;
    var next := rows[i := Meter(rows[i].key, value)];
    if i < n {
      assert next[..n] == rows[..n][i := Meter(rows[i].key, value)];
      TotalUpdate(rows[..n], i, value, environment);
    } else {
      assert next[..n] == rows[..n];
    }
  }

  lemma TotalAppend(rows: seq<Meter>, meter: Meter, environment: EnvironmentId)
    ensures Total(rows + [meter], environment) ==
            Total(rows, environment) + (if meter.key.environment == environment then meter.value else 0.0)
  {
    assert (rows + [meter])[..|rows|] == rows;
  }

  lemma RecordTotal(rows: seq<Meter>, call: Call, environment: EnvironmentId)
    ensures Total(Record(rows, call), environment) ==
            Total(rows, environment) + (if call.key.environment == environment then call.increment else 0.0)
  {
    match Find(rows, call.key)
    case None => TotalAppend(rows, Meter(call.key, call.increment), environment);
    case Some(i) => TotalUpdate(rows, i, rows[i].value + call.increment, environment);
  }

  // What the meters of an environment show is what was recorded for it, in whatever order and
  // among whatever other environments.
  lemma {:induction false} UsageIsConserved(rows: seq<Meter>, calls: seq<Call>, environment: EnvironmentId)
    ensures Total(RecordAll(rows, calls), environment) == Total(rows, environment) + Increments(calls, environment)
    decreases |calls|
  {
    if calls != [] {
      RecordTotal(rows, calls[0], environment);
      UsageIsConserved(Record(rows, calls[0]), calls[1..], environment);
    }
  }

  predicate OneRowPerKey(rows: seq<Meter>) {
    forall i, j :: 0 <= i < j < |rows| ==> rows[i].key != rows[j].key
  }

  function ValueOf(rows: seq<Meter>, key: MeterKey): real {
    match Find(rows, key)
    case None => 0.0
    case Some(i) => rows[i].value
  }

  lemma RecordValue(rows: seq<Meter>, call: Call, key: MeterKey)
    requires OneRowPerKey(rows)
    ensures OneRowPerKey(Record(rows, call))
    ensures ValueOf(Record(rows, call), key) == ValueOf(rows, key) + (if call.key == key then call.increment else 0.0)
  {
    var next := Record(rows, call);
    var at := Find(next, key);
    if call.key == key {
      var k := if Find(rows, key).Some? then Find(rows, key).value else |rows|;
      assert next[k].key == key;
      assert at.Some? && next[at.value].key == key;
    } else if Find(rows, key).Some? {
      assert next[Find(rows, key).value].key == key;
    }
  }

  // One call after another, every key keeps a single row, holding the sum of its increments.
  lemma {:induction false} EachMeterAccumulates(calls: seq<Call>, rows: seq<Meter>, key: MeterKey)
    requires OneRowPerKey(rows)
    ensures OneRowPerKey(RecordAll(rows, calls))
    ensures ValueOf(RecordAll(rows, calls), key) == ValueOf(rows, key) + IncrementsOf(calls, key)
    decreases |calls|
  {
    if calls != [] {
      RecordValue(rows, calls[0], key);
      EachMeterAccumulates(calls[1..], Record(rows, calls[0]), key);
    }
  }

  // ---- concurrent recording ----

  // Keys never change and rows never go, so a reading stays tied to its row.
  predicate Tied(s: Shared) {
    forall agent <- s.readings :: ReadingTied(s.rows, s.readings[agent])
  }

  predicate ReadingTied(rows: seq<Meter>, r: Reading) {
    r.row.Some? ==> r.row.value < |rows| && rows[r.row.value].key == r.call.key
  }

  // What others have recorded on the row since it was read.
  function Overwritten(rows: seq<Meter>, r: Reading): real {
    if r.row.Some? && r.row.value < |rows| then rows[r.row.value].value - r.value else 0.0
  }

  // A write adds its increment and takes away exactly what was recorded on its row after the
  // read: the total counts the call in full exactly when the row still has the value read.
  lemma WriteTotal(s: Shared, agent: nat, environment: EnvironmentId)
    requires Tied(s) && agent in s.readings && s.readings[agent].call.key.environment == environment
    ensures var r := s.readings[agent];
            var before, after := Total(s.rows, environment), Total(StepShared(s, Write(agent)).rows, environment);
            && after == before + r.call.increment - Overwritten(s.rows, r)
            && (after == before + r.call.increment <==> (r.row.Some? ==> s.rows[r.row.value].value == r.value))
  {
    var r := s.readings[agent];
    assert ReadingTied(s.rows, r);
    if r.row.Some? {
      TotalUpdate(s.rows, r.row.value, r.value + r.call.increment, environment);
    } else {
      TotalAppend(s.rows, Meter(r.call.key, r.call.increment), environment);
    }
  }

  lemma StepKeepsTied(s: Shared, e: Event)
    requires Tied(s)
    ensures Tied(StepShared(s, e))
  {
    var t := StepShared(s, e);
    forall agent | agent in t.readings ensures ReadingTied(t.rows, t.readings[agent]) {
      assert agent in s.readings ==> ReadingTied(s.rows, s.readings[agent]);
    }
  }

  // What the writes of a run recorded, and what they overwrote.
  function Written(s: Shared, events: seq<Event>, environment: EnvironmentId): real
    decreases |events|
  {
    if events == [] then 0.0
    else
      (if events[0].Write? && events[0].agent in s.readings && s.readings[events[0].agent].call.key.environment == environment
       then s.readings[events[0].agent].call.increment else 0.0) +
      Written(StepShared(s, events[0]), events[1..], environment)
  }

  function Lost(s: Shared, events: seq<Event>, environment: EnvironmentId): real
    decreases |events|
  {
    if events == [] then 0.0
    else
      (if events[0].Write? && events[0].agent in s.readings && s.readings[events[0].agent].call.key.environment == environment
       then Overwritten(s.rows, s.readings[events[0].agent]) else 0.0) +
      Lost(StepShared(s, events[0]), events[1..], environment)
  }

  lemma OtherWriteTotal(s: Shared, agent: nat, environment: EnvironmentId)
    requires Tied(s) && agent in s.readings && s.readings[agent].call.key.environment != environment
    ensures Total(StepShared(s, Write(agent)).rows, environment) == Total(s.rows, environment)
  {
    var r := s.readings[agent];
    assert ReadingTied(s.rows, r);
    if r.row.Some? {
      TotalUpdate(s.rows, r.row.value, r.value + r.call.increment, environment);
    } else {
      TotalAppend(s.rows, Meter(r.call.key, r.call.increment), environment);
    }
  }

  // The balance of any interleaving: the total is what was recorded less what was overwritten.
  lemma {:induction false} InterleavedBalance(s: Shared, events: seq<Event>, environment: EnvironmentId)
    requires Tied(s)
    ensures Total(RunShared(s, events).rows, environment) ==
            Total(s.rows, environment) + Written(s, events, environment) - Lost(s, events, environment)
    decreases |events|
  {
    if events != [] {
      var e := events[0];
      if e.Write? && e.agent in s.readings {
        if s.readings[e.agent].call.key.environment == environment {
          WriteTotal(s, e.agent, environment);
        } else {
          OtherWriteTotal(s, e.agent, environment);
        }
      }
      StepKeepsTied(s, e);
      hide Tied, StepShared, Total;
      InterleavedBalance(StepShared(s, e), events[1..], environment);
    }
  }

  // Two calls that both read before either writes leave only the later write: the meters are
  // not safe against calls that overlap, and no constraint of the table stops them.
  lemma OverlapLosesFirstWrite(rows: seq<Meter>, key: MeterKey, a: real, b: real)
    requires Find(rows, key).Some?
    ensures var end := RunShared(Shared(rows, map[]), [Read(0, Call(key, a)), Read(1, Call(key, b)), Write(0), Write(1)]).rows;
            Total(end, key.environment) == Total(rows, key.environment) + b
  {
    var s := Shared(rows, map[]);
    var i := Find(rows, key).value;
    UnrollFour(s, Read(0, Call(key, a)), Read(1, Call(key, b)), Write(0), Write(1));
    BothRead(rows, key, a, b);
    var s2 := StepShared(StepShared(s, Read(0, Call(key, a))), Read(1, Call(key, b)));
    BothWrite(s2, i);
    TotalUpdate(rows, i, rows[i].value + b, key.environment);
    hide StepShared, RunShared, Total, Find;
  }

  lemma BothRead(rows: seq<Meter>, key: MeterKey, a: real, b: real)
    requires Find(rows, key).Some?
    ensures var i := Find(rows, key).value;
            var v := rows[i].value;
            StepShared(StepShared(Shared(rows, map[]), Read(0, Call(key, a))), Read(1, Call(key, b))) ==
            Shared(rows, map[0 := Reading(Call(key, a), Some(i), v), 1 := Reading(Call(key, b), Some(i), v)])
  {
    var s1 := StepShared(Shared(rows, map[]), Read(0, Call(key, a)));
    assert s1 == Shared(rows, map[0 := Reading(Call(key, a), Find(rows, key), rows[Find(rows, key).value].value)]);
  }

  lemma BothWrite(s: Shared, i: nat)
    requires 0 in s.readings && 1 in s.readings && i < |s.rows|
    requires s.readings[0].row == Some(i) && s.readings[1].row == Some(i)
    ensures StepShared(StepShared(s, Write(0)), Write(1)).rows ==
            s.rows[i := Meter(s.rows[i].key, s.readings[1].value + s.readings[1].call.increment)]
  {
    var t := StepShared(s, Write(0));
    assert t.rows == s.rows[i := Meter(s.rows[i].key, s.readings[0].value + s.readings[0].call.increment)];
    assert t.readings[1] == s.readings[1];
  }

  lemma UnrollFour(s: Shared, a: Event, b: Event, c: Event, d: Event)
    ensures RunShared(s, [a, b, c, d]) == StepShared(StepShared(StepShared(StepShared(s, a), b), c), d)
  {
    hide StepShared;
    assert [a, b, c, d][1..] == [b, c, d];
    assert [b, c, d][1..] == [c, d];
    assert [c, d][1..] == [d];
    var s1 := StepShared(s, a);
    var s2 := StepShared(s1, b);
    var s3 := StepShared(s2, c);
    assert RunShared(s3, [d]) == RunShared(StepShared(s3, d), []);
    assert RunShared(s2, [c, d]) == RunShared(s3, [d]);
    assert RunShared(s1, [b, c, d]) == RunShared(s2, [c, d]);
  }

  // A read and its write with nothing in between is the whole call.
  lemma UninterruptedIsRecord(s: Shared, agent: nat, call: Call)
    ensures StepShared(StepShared(s, Read(agent, call)), Write(agent)).rows == Record(s.rows, call)
  {
  }

  // Each call reads and writes before the next one starts.
  function OneByOne(calls: seq<Call>, agent: nat): seq<Event>
    decreases |calls|
  {
    if calls == [] then [] else [Read(agent, calls[0]), Write(agent)] + OneByOne(calls[1..], agent)
  }

  // The atomic account is that of the transactions when they do not overlap, and then nothing
  // recorded for an environment is lost.
  lemma {:induction false} OneByOneIsAtomic(s: Shared, calls: seq<Call>, agent: nat, environment: EnvironmentId)
    ensures var end := RunShared(s, OneByOne(calls, agent)).rows;
            end == RecordAll(s.rows, calls) && Total(end, environment) == Total(s.rows, environment) + Increments(calls, environment)
    decreases |calls|
  {
    UsageIsConserved(s.rows, calls, environment);
    if calls != [] {
      var events := OneByOne(calls, agent);
      var t := StepShared(s, events[0]);
      var u := StepShared(t, events[1]);
      UninterruptedIsRecord(s, agent, calls[0]);
      assert events[1..][1..] == OneByOne(calls[1..], agent);
      OneByOneIsAtomic(u, calls[1..], agent, environment);
      hide StepShared, Record, Total, Increments;
    }
  }

  // ---- quota ----

  // The usage from which an action is refused.
  function Ceiling(t: Thresholds, action: string): real {
    if action in ControlledActions || t.hard <= t.soft then t.hard else t.soft
  }

  lemma RefusedIff(usage: real, t: Thresholds, action: string)
    ensures Enforce(usage, t, action).Some? <==> usage >= Ceiling(t, action)
    ensures Enforce(usage, t, action) == Some(HardLimitEnforced) <==> usage >= t.hard
  {
  }

  function Rank(q: QuotaState): nat {
    match q
    case Healthy => 0
    case Warned => 1
    case SoftLimited => 2
    case HardLimited => 3
  }

  // More usage never relaxes anything, whatever the order of the thresholds.
  lemma QuotaOnlyTightens(less: real, more: real, t: Thresholds)
    requires less <= more
    ensures var p, q := Evaluate(less, t), Evaluate(more, t);
            && Rank(p.state) <= Rank(q.state)
            && p.utilization <= q.utilization <= 1.0
            && (p.warningTriggered ==> q.warningTriggered)
            && (p.softLimited ==> q.softLimited)
            && (p.hardLimited ==> q.hardLimited)
  {
    if t.hard > 0.0 {
      DivideKeepsOrder(less, more, t.hard);
    }
  }

  lemma DivideKeepsOrder(less: real, more: real, unit: real)
    requires less <= more && unit > 0.0
    ensures less / unit <= more / unit
  {
    var p, q := less / unit, more / unit;
    assert p * unit == less && q * unit == more;
    assert p > q ==> (p - q) * unit > 0.0;
  }

  // Full utilization and the hard limit are the same thing exactly when the limit is positive or
  // not reached; under any other limit the gauge stays at zero while everything is blocked.
  lemma FullMeansBlocked(usage: real, t: Thresholds)
    ensures var q := Evaluate(usage, t);
            && ((q.utilization == 1.0 <==> q.degradation == Blocked) <==> t.hard > 0.0 || usage < t.hard)
            && (t.hard <= usage && t.hard <= 0.0 ==> q.utilization == 0.0 && q.degradation == Blocked)
  {
    if t.hard > 0.0 {
      assert usage / t.hard * t.hard == usage;
      if usage / t.hard >= 1.0 {
        assert (usage / t.hard - 1.0) * t.hard >= 0.0;
      } else {
        assert (1.0 - usage / t.hard) * t.hard > 0.0;
      }
    }
  }

  lemma {:induction false} IncrementsNonnegative(calls: seq<Call>, environment: EnvironmentId)
    requires forall c <- calls :: c.increment >= 0.0
    ensures Increments(calls, environment) >= 0.0
    decreases |calls|
  {
    if calls != [] {
      assert calls[0] in calls;
      IncrementsNonnegative(calls[1..], environment);
    }
  }

  // Once refused, always refused: no further recording for any environment reopens an action.
  lemma RefusedStaysRefused(rows: seq<Meter>, calls: seq<Call>, environment: EnvironmentId, policy: Policy, action: string)
    requires forall c <- calls :: c.increment >= 0.0
    requires Authorize(rows, environment, policy, action).Some?
    ensures Authorize(RecordAll(rows, calls), environment, policy, action).Some?
    ensures Authorize(rows, environment, policy, action) == Some(HardLimitEnforced) ==>
            Authorize(RecordAll(rows, calls), environment, policy, action) == Some(HardLimitEnforced)
  {
    UsageIsConserved(rows, calls, environment);
    IncrementsNonnegative(calls, environment);
    var t := ThresholdsOf(policy);
    RefusedIff(Total(rows, environment), t, action);
    RefusedIff(Total(RecordAll(rows, calls), environment), t, action);
  }

  // With any signs, an action refused now is open again later exactly when the recorded
  // corrections bring the total under its ceiling.
  lemma ReopenedIff(rows: seq<Meter>, calls: seq<Call>, environment: EnvironmentId, policy: Policy, action: string)
    ensures Authorize(RecordAll(rows, calls), environment, policy, action).None? <==>
            Total(rows, environment) + Increments(calls, environment) < Ceiling(ThresholdsOf(policy), action)
  {
    UsageIsConserved(rows, calls, environment);
    RefusedIff(Total(RecordAll(rows, calls), environment), ThresholdsOf(policy), action);
  }

  // ---- the quota, with its names and defaults ----

  function Limit(policy: Policy, name: string, fallback: real): real {
    if name in policy then policy[name] else fallback
  }

  // An action is refused at the hard limit, or at the soft limit unless it drains or recovers
  // webhooks or runs a migration.
  lemma AuthorizeMeans(rows: seq<Meter>, environment: EnvironmentId, policy: Policy, action: string)
    ensures var usage := Total(rows, environment);
            Authorize(rows, environment, policy, action) ==
            if usage >= Limit(policy, "hard_limit", 1200.0) then Some(HardLimitEnforced)
            else if usage >= Limit(policy, "soft_limit", 1000.0)
                    && action != "webhook_drain" && action != "webhook_recover" && action != "migrations"
            then Some(SoftLimitEnforced)
            else None
  {
  }

  // The quota shown: the state is that of the highest limit reached, and the utilization the
  // share of the hard limit in use, at most one and zero when there is none.
  lemma QuotaMeans(usage: real, policy: Policy)
    ensures var hard := Limit(policy, "hard_limit", 1200.0);
            var soft := Limit(policy, "soft_limit", 1000.0);
            var warning := Limit(policy, "warning_threshold", 750.0);
            var q := Evaluate(usage, ThresholdsOf(policy));
            && (q.hardLimited <==> usage >= hard) && (q.softLimited <==> usage >= soft) && (q.warningTriggered <==> usage >= warning)
            && (q.state == HardLimited <==> usage >= hard)
            && (q.state == SoftLimited <==> usage < hard && usage >= soft)
            && (q.state == Warned <==> usage < hard && usage < soft && usage >= warning)
            && (q.degradation == Blocked <==> usage >= hard)
            && (q.degradation == Controlled <==> usage < hard && usage >= soft)
            && (hard <= 0.0 ==> q.utilization == 0.0)
            && (hard > 0.0 && usage < hard ==> q.utilization * hard == usage)
            && (hard > 0.0 && usage >= hard ==> q.utilization == 1.0)
  {
    var hard := Limit(policy, "hard_limit", 1200.0);
    if hard > 0.0 {
      ShareOf(usage, hard);
    }
  }

  lemma ShareOf(usage: real, hard: real)
    requires hard > 0.0
    ensures usage / hard * hard == usage
    ensures usage / hard < 1.0 <==> usage < hard
  {
    if usage / hard < 1.0 {
      assert (1.0 - usage / hard) * hard > 0.0;
    } else {
      assert (usage / hard - 1.0) * hard >= 0.0;
    }
  }
}
