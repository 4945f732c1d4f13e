// The protocol as the server performs it: methods that update the tables in place, one per
// step, and the handler that takes one request through all of them.
module IdempotencyService {
  import opened Domain
  import opened IdempotencyModel
  import opened IdempotencyProofs

  datatype Action = Commits | RollsBack

  // What execute() does with the shared session, and its result; None when it raises.
  datatype Execution = Execution(actions: seq<Action>, result: Option<Response>)

  // Every execute() of the control plane raises once it has rolled its session back.
  predicate RaisesAfterRollback(e: Execution) {
    RollsBack in e.actions ==> e.result.None?
  }

  function ActionEvent(id: Id, a: Action): Event {
    match a
    case Commits => CommitInside(id)
    case RollsBack => RollBackInside(id)
  }

  function EndEvents(id: Id, e: Execution): seq<Event> {
    match e.result
    case None => [Raise(id)]
    case Some(response) => [ExecuteReturns(id, response), PersistAndCommit(id)]
  }

  // What the other requests do while this one waits: before its check, before its reservation
  // goes through, before the second check, and before each action of execute() and its end.
  datatype Interludes = Interludes(
    beforeCheck: seq<Event>,
    beforeReserve: seq<Event>,
    beforeSecondCheck: seq<Event>,
    during: nat -> seq<Event>)

  predicate OnlyOthers(events: seq<Event>, id: Id) {
    forall e <- events :: e.id != id
  }

  ghost predicate ByOthers(o: Interludes, id: Id) {
    && OnlyOthers(o.beforeCheck, id) && OnlyOthers(o.beforeReserve, id) && OnlyOthers(o.beforeSecondCheck, id)
    && forall n :: OnlyOthers(o.during(n), id)
  }

  function Weave(id: Id, actions: seq<Action>, during: nat -> seq<Event>): seq<Event>
    decreases |actions|
  {
    if actions == [] then []
    else
      var n := |actions| - 1;
      Weave(id, actions[..n], during) + during(n) + [ActionEvent(id, actions[n])]
  }

  function UpToCheck(id: Id, key: Key, hash: string, o: Interludes): seq<Event> {
    o.beforeCheck + [Arrive(id, key, hash), Check(id)]
  }

  function UpToReserve(id: Id, key: Key, hash: string, o: Interludes): seq<Event> {
    UpToCheck(id, key, hash, o) + o.beforeReserve
  }

  function ExecuteEvents(id: Id, e: Execution, o: Interludes): seq<Event> {
    Weave(id, e.actions, o.during) + o.during(|e.actions|) + EndEvents(id, e)
  }

  // A committed row is there when the request first looks.
  predicate TakenAtCheck(s: State, key: Key, o: Interludes) {
    key in Replay(s, o.beforeCheck).table
  }

  // One is there when the insert goes through: the unique constraint fires.
  predicate TakenAtReserve(s: State, id: Id, key: Key, hash: string, o: Interludes) {
    key in Replay(s, UpToReserve(id, key, hash, o)).table
  }

  // Everything that happens until the request has its answer.
  function TraceOf(s: State, id: Id, key: Key, hash: string, e: Execution, o: Interludes): seq<Event> {
    if TakenAtCheck(s, key, o) then UpToCheck(id, key, hash, o)
    else if TakenAtReserve(s, id, key, hash, o) then
      UpToReserve(id, key, hash, o) + [Reserve(id)] + o.beforeSecondCheck + [Check(id)]
    else UpToReserve(id, key, hash, o) + [Reserve(id)] + ExecuteEvents(id, e, o)
  }

  lemma {:induction false} OthersLeave(s: State, events: seq<Event>, id: Id)
    requires OnlyOthers(events, id)
    ensures var t := Replay(s, events);
            && (id in t.requests <==> id in s.requests)
            && (id in s.requests ==> t.requests[id] == s.requests[id])
    decreases |events|
  {
    if events != [] {
      assert events[0] in events;
      OtherLeaves(s, events[0], id);
      hide Step;
      OthersLeave(Step(s, events[0]), events[1..], id);
    }
  }

  predicate Leaves(s: State, t: State, id: Id) {
    && (id in t.requests <==> id in s.requests)
    && (id in s.requests ==> t.requests[id] == s.requests[id])
  }

  lemma OtherLeaves(s: State, e: Event, id: Id)
    requires e.id != id
    ensures Leaves(s, Step(s, e), id)
  {
    if !e.Arrive? && e.id in s.requests && !s.requests[e.id].phase.Finished? {
      StepMoves(s, e);
      hide Step;
    }
  }

  lemma ReplayOne(s: State, e: Event)
    ensures Replay(s, [e]) == Step(s, e)
  {
    hide Step;
    assert Replay(Step(s, e), [e][1..]) == Step(s, e);
  }

  lemma ReplayNothing(s: State)
    ensures Replay(s, []) == s
  {
  }

  lemma WeaveMore(s: State, id: Id, actions: seq<Action>, i: nat, during: nat -> seq<Event>)
    requires i < |actions|
    ensures Replay(s, Weave(id, actions[..i + 1], during)) ==
            Step(Replay(Replay(s, Weave(id, actions[..i], during)), during(i)), ActionEvent(id, actions[i]))
  {
    var done := Weave(id, actions[..i], during);
    assert actions[..i + 1][..i] == actions[..i];
    assert Weave(id, actions[..i + 1], during) == done + during(i) + [ActionEvent(id, actions[i])];
    hide Step, Replay, Weave;
    ReplayAppend(s, done, during(i));
    ThenStep(s, done + during(i), ActionEvent(id, actions[i]));
  }

  lemma ThenStep(s: State, trace: seq<Event>, e: Event)
    ensures Replay(s, trace + [e]) == Step(Replay(s, trace), e)
  {
    hide Step;
    ReplayAppend(s, trace, [e]);
    ReplayOne(Replay(s, trace), e);
  }

  class Server {
    var table: map<Key, Record>
    var holder: map<Key, Id>
    var owner: map<Key, Id>
    var requests: map<Id, Request>
    var commits: seq<Id>

    constructor ()
      ensures View() == Empty
    {
      table, holder, owner, requests, commits := map[], map[], map[], map[], [];
    }

    function View(): State
      reads this
    {
      State(table, holder, owner, requests, commits)
    }

    predicate Live(id: Id)
      reads this
    {
      id in requests && !requests[id].phase.Finished?
    }

    method Enter(id: Id, key: Key, hash: string)
      modifies this`requests
      requires id !in requests
      ensures View() == Step(old(View()), Arrive(id, key, hash))
      ensures id in requests && requests[id] == Request(key, hash, Arrived, false, false, false)
    {
      requests := requests[id := Request(key, hash, Arrived, false, false, false)];
    }

    // The event loop runs the other requests while this one waits.
    method LetOthers(id: Id, events: seq<Event>)
      requires OnlyOthers(events, id)
      modifies this
      ensures View() == Replay(old(View()), events)
      ensures id in requests <==> id in old(requests)
      ensures id in requests ==> requests[id] == old(requests)[id]
    {
      OthersLeave(View(), events, id);
      var t := Replay(View(), events);
      table, holder, owner, requests, commits := t.table, t.holder, t.owner, t.requests, t.commits;
    }

    method MoveTo(id: Id, phase: Phase)
      requires id in requests
      modifies this`requests
      ensures View() == SetPhase(old(View()), id, phase)
    {
      requests := requests[id := requests[id].(phase := phase)];
    }

    // check_replay_or_conflict
    method CheckReplayOrConflict(id: Id) returns (answer: Option<Outcome>)
      requires Live(id) && (requests[id].phase.Arrived? || requests[id].phase.Collided?)
      modifies this`requests
      ensures View() == Step(old(View()), Check(id))
      ensures answer == Lookup(table, old(requests[id].key), old(requests[id].hash))
      ensures id in requests && requests[id] == old(requests[id]).(phase := requests[id].phase)
      ensures requests[id].phase == if answer.Some? then Finished(answer.value)
                                    else if old(requests[id].phase.Arrived?) then Checked else Finished(Raised)
    {
      var r := requests[id];
      answer := None;
      if r.key in table {
        var existing := table[r.key];
        if existing.hash != r.hash {
          answer := Some(PayloadConflict);
        } else if existing.response.None? {
          answer := Some(InProgress);
        } else {
          answer := Some(Replayed(existing.response.value));
        }
      }
      MoveTo(id, if answer.Some? then Finished(answer.value) else if r.phase.Arrived? then Checked else Finished(Raised));
    }

    // reserve_key; `ok` is false when the insert hits the unique constraint.
    method ReserveKey(id: Id) returns (ok: bool)
      requires Live(id) && requests[id].phase.Checked? && requests[id].key !in holder
      modifies this`holder, this`requests
      ensures View() == Step(old(View()), Reserve(id))
      ensures ok <==> old(requests[id].key) !in table
      ensures id in requests && table == old(table)
      ensures requests[id] == if ok then old(requests[id]).(phase := Executing(Held), started := true)
                              else old(requests[id]).(phase := Collided)
    {
      var r := requests[id];
      ok := r.key !in table;
      if ok {
        holder := holder[r.key := id];
        requests := requests[id := r.(phase := Executing(Held), started := true)];
      } else {
        MoveTo(id, Collided);
      }
    }

    method WriteRow(id: Id, response: Option<Response>, phase: Phase)
      requires id in requests
      modifies this
      ensures View() == CommitRow(old(View()), id, response, phase)
    {
      var r := requests[id];
      table := table[r.key := Record(r.hash, response)];
      owner := owner[r.key := id];
      holder := holder - {r.key};
      commits := commits + [id];
      MoveTo(id, phase);
    }

    // One db.commit() or db.rollback() inside execute().
    method Perform(id: Id, a: Action)
      requires Live(id) && requests[id].phase.Executing?
      modifies this
      ensures View() == Step(old(View()), ActionEvent(id, a))
      ensures id in requests && requests[id].phase.Executing? && requests[id].key == old(requests[id].key)
      ensures requests[id].hash == old(requests[id].hash) && requests[id].started == old(requests[id].started)
      ensures requests[id].rolledBack <==> old(requests[id].rolledBack) || a.RollsBack?
    {
      var r := requests[id];
      if a.Commits? {
        if r.phase.reservation.Held? {
          WriteRow(id, None, Executing(Kept));
        } else {
          commits := commits + [id];
        }
      } else if r.phase.reservation.Held? {
        holder := holder - {r.key};
        requests := requests[id := r.(phase := Executing(Lost), rolledBack := true, lost := true)];
      } else {
        requests := requests[id := r.(rolledBack := true)];
      }
    }

    // persist_success and the final commit.
    method PersistSuccess(id: Id, response: Response)
      requires Live(id) && requests[id].phase.Executing? && !requests[id].rolledBack
      modifies this
      ensures View() == Step(Step(old(View()), ExecuteReturns(id, response)), PersistAndCommit(id))
      ensures old(requests[id].key) in table
      ensures table[old(requests[id].key)] == Record(old(requests[id].hash), Some(response))
      ensures id in requests && requests[id] == old(requests[id]).(phase := Finished(Returned(response)))
    {
      MoveTo(id, Executed(requests[id].phase.reservation, response));
      WriteRow(id, Some(response), Finished(Returned(response)));
    }

    method Fail(id: Id)
      requires Live(id) && requests[id].phase.Executing?
      modifies this
      ensures View() == Step(old(View()), Raise(id))
      ensures id in requests && requests[id] == old(requests[id]).(phase := Finished(Raised))
    {
      var key := requests[id].key;
      if key in holder && holder[key] == id {
        holder := holder - {key};
      }
      MoveTo(id, Finished(Raised));
    }

    // _execute_idempotent_mutation among any other requests, which may act whenever this one
    // awaits. The insert goes through once no other session holds the index entry. A row found
    // at the check answers at once; one that appeared since makes the insert collide and answers
    // at the second check; otherwise execute() runs, and a success is stored.
    method HandleRequest(id: Id, key: Key, hash: string, e: Execution, o: Interludes) returns (outcome: Outcome)
      requires Inv(View()) && id !in requests && RaisesAfterRollback(e) && ByOthers(o, id)
      requires key !in Replay(View(), UpToReserve(id, key, hash, o)).holder
      modifies this
      ensures Inv(View()) && View() == Replay(old(View()), TraceOf(old(View()), id, key, hash, e, o))
      ensures id in requests && requests[id].phase == Finished(outcome)
      ensures var s := old(View());
              var taken := TakenAtCheck(s, key, o) || TakenAtReserve(s, id, key, hash, o);
              && (requests[id].started <==> !taken)
              && (taken ==> Some(outcome) == Lookup(table, key, hash))
              && (!taken && e.result.Some? ==>
                    outcome == Returned(e.result.value) && key in table && table[key] == Record(hash, Some(e.result.value)))
              && (!taken && e.result.None? ==> outcome == Raised)
    {
      ghost var s := View();
      hide Step, Replay, Inv;
      LetOthers(id, o.beforeCheck);
      Enter(id, key, hash);
      ThenStep(s, o.beforeCheck, Arrive(id, key, hash));
      assert table == Replay(s, o.beforeCheck).table;
      var answer := CheckReplayOrConflict(id);
      ThenStep(s, o.beforeCheck + [Arrive(id, key, hash)], Check(id));
      assert o.beforeCheck + [Arrive(id, key, hash)] + [Check(id)] == UpToCheck(id, key, hash, o);
      if answer.Some? {
        ReplayKeepsInv(s, UpToCheck(id, key, hash, o));
        return answer.value;
      }
      LetOthers(id, o.beforeReserve);
      ReplayAppend(s, UpToCheck(id, key, hash, o), o.beforeReserve);
      var ok := ReserveKey(id);
      ghost var trace := UpToReserve(id, key, hash, o) + [Reserve(id)];
      ThenStep(s, UpToReserve(id, key, hash, o), Reserve(id));
      ReplayKeepsInv(s, trace);
      if !ok {
        outcome := AnswerCollision(id, o.beforeSecondCheck);
        ReplayAppend(s, trace, o.beforeSecondCheck);
        ThenStep(s, trace + o.beforeSecondCheck, Check(id));
        return;
      }
      outcome := RunExecute(id, e, o);
      ReplayAppend(s, trace, ExecuteEvents(id, e, o));
      ReplayKeepsInv(s, trace + ExecuteEvents(id, e, o));
    }

    // The handler of the IntegrityError: roll back, look again, answer from the row.
    method AnswerCollision(id: Id, others: seq<Event>) returns (outcome: Outcome)
      requires Inv(View()) && Live(id) && requests[id].phase.Collided? && OnlyOthers(others, id)
      modifies this
      ensures Inv(View()) && View() == Step(Replay(old(View()), others), Check(id))
      ensures id in requests && requests[id] == old(requests[id]).(phase := Finished(outcome))
      ensures Some(outcome) == Lookup(table, requests[id].key, requests[id].hash)
    {
      ghost var s := View();
      hide Step, Replay;
      ReplayKeepsInv(s, others);
      LetOthers(id, others);
      assert RequestInv(View(), id);
      StepKeepsInv(View(), Check(id));
      var answer := CheckReplayOrConflict(id);
      outcome := answer.value;
    }

    // The call of execute() and what follows it.
    method RunExecute(id: Id, e: Execution, o: Interludes) returns (outcome: Outcome)
      requires Live(id) && requests[id].phase == Executing(Held) && !requests[id].rolledBack
      requires RaisesAfterRollback(e) && ByOthers(o, id)
      modifies this
      ensures View() == Replay(old(View()), ExecuteEvents(id, e, o))
      ensures id in requests && requests[id].phase == Finished(outcome) && requests[id].started == old(requests[id].started)
      ensures e.result.Some? ==>
                && outcome == Returned(e.result.value) && old(requests[id].key) in table
                && table[old(requests[id].key)] == Record(old(requests[id].hash), Some(e.result.value))
      ensures e.result.None? ==> outcome == Raised
    {
      ghost var s := View();
      ghost var woven := Weave(id, e.actions, o.during);
      hide Step, Replay, Weave, RequestInv, KeyInv, Inv;
      RunActions(id, e.actions, o);
      LetOthers(id, o.during(|e.actions|));
      ReplayAppend(s, woven, o.during(|e.actions|));
      outcome := Conclude(id, e);
      ReplayAppend(s, woven + o.during(|e.actions|), EndEvents(id, e));
    }

    method RunActions(id: Id, actions: seq<Action>, o: Interludes)
      requires Live(id) && requests[id].phase.Executing? && !requests[id].rolledBack && ByOthers(o, id)
      modifies this
      ensures View() == Replay(old(View()), Weave(id, actions, o.during))
      ensures Live(id) && requests[id].phase.Executing? && requests[id].key == old(requests[id].key)
      ensures requests[id].hash == old(requests[id].hash) && requests[id].started == old(requests[id].started)
      ensures requests[id].rolledBack ==> RollsBack in actions
    {
      ghost var s := View();
      ghost var r := requests[id];
      hide Step, ActionEvent, Replay;
      assert View() == Replay(s, Weave(id, actions[..0], o.during)) by { ReplayNothing(s); }
      for i := 0 to |actions|
        invariant Live(id) && requests[id].phase.Executing? && requests[id].key == r.key
        invariant requests[id].hash == r.hash && requests[id].started == r.started
        invariant requests[id].rolledBack ==> RollsBack in actions
        invariant View() == Replay(s, Weave(id, actions[..i], o.during))
      {
        LetOthers(id, o.during(i));
        assert actions[i] in actions;
        Perform(id, actions[i]);
        WeaveMore(s, id, actions, i, o.during);
      }
      assert actions[..|actions|] == actions;
    }

    // The result is stored and committed, or the exception ends the request.
    method Conclude(id: Id, e: Execution) returns (outcome: Outcome)
      requires Live(id) && requests[id].phase.Executing? && (requests[id].rolledBack ==> e.result.None?)
      modifies this
      ensures View() == Replay(old(View()), EndEvents(id, e))
      ensures id in requests && requests[id] == old(requests[id]).(phase := Finished(outcome))
      ensures e.result.Some? ==>
                && outcome == Returned(e.result.value) && old(requests[id].key) in table
                && table[old(requests[id].key)] == Record(old(requests[id].hash), Some(e.result.value))
      ensures e.result.None? ==> outcome == Raised
    {
      ghost var t := View();
      hide Step, Replay;
      match e.result
      case None =>
        Fail(id);
        ReplayOne(t, Raise(id));
        outcome := Raised;
      case Some(response) =>
        PersistSuccess(id, response);
        ReplayOne(t, ExecuteReturns(id, response));
        ThenStep(t, [ExecuteReturns(id, response)], PersistAndCommit(id));
        assert EndEvents(id, e) == [ExecuteReturns(id, response)] + [PersistAndCommit(id)];
        outcome := Returned(response);
    }
  }
}
