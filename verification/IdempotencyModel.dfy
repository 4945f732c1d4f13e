// The idempotent mutation protocol as a state machine: any number of requests, with any keys,
// take their steps in any order, and any of them may fail or die at any point.
module IdempotencyModel {
  import opened Domain

  datatype Key = Key(idempotencyKey: string, actor: int, endpoint: string)

  datatype Response = Response(status: int, body: string)

  // The committed row of a key.
  datatype Record = Record(hash: string, response: Option<Response>)

  datatype Outcome =
    | Replayed(response: Response)
    | Returned(response: Response)
    | PayloadConflict
    | InProgress
    | Raised
    | Crashed

  // Where the reservation of an executing request is: inserted but uncommitted, committed
  // together with some effects, or discarded by a rollback inside execute().
  datatype Reservation = Held | Kept | Lost

  datatype Phase =
    | Arrived
    | Checked
    | Collided
    | Executing(reservation: Reservation)
    | Executed(reservation: Reservation, result: Response)
    | Finished(outcome: Outcome)

  // `rolledBack`: execute() has rolled its session back; `lost`: the first time it did so, its
  // reservation was still uncommitted and went with it.
  datatype Request = Request(key: Key, hash: string, phase: Phase, started: bool, rolledBack: bool, lost: bool)

  type Id = nat

  // `holder` is the uncommitted index entry of a key; `owner` remembers whose reservation the
  // committed row is; `commits` logs the author of every commit that carries effects.
  datatype State = State(
    table: map<Key, Record>,
    holder: map<Key, Id>,
    owner: map<Key, Id>,
    requests: map<Id, Request>,
    commits: seq<Id>)

  const Empty: State := State(map[], map[], map[], map[], [])

  datatype Event =
    | Arrive(id: Id, key: Key, hash: string)
    | Check(id: Id)
    | Reserve(id: Id)
    | CommitInside(id: Id)
    | RollBackInside(id: Id)
    | ExecuteReturns(id: Id, response: Response)
    | PersistAndCommit(id: Id)
    | Raise(id: Id)
    | Crash(id: Id)

  function SetPhase(s: State, id: Id, phase: Phase): State
    requires id in s.requests
  {
    s.(requests := s.requests[id := s.requests[id].(phase := phase)])
  }

  // check_replay_or_conflict: what the committed row makes of a request.
  function Lookup(table: map<Key, Record>, key: Key, hash: string): Option<Outcome> {
    if key !in table then None
    else if table[key].hash != hash then Some(PayloadConflict)
    else if table[key].response.None? then Some(InProgress)
    else Some(Replayed(table[key].response.value))
  }

  // The session of a request ends without commit: its uncommitted reservation disappears.
  function Release(s: State, id: Id, phase: Phase): State
    requires id in s.requests
  {
    var key := s.requests[id].key;
    var t := SetPhase(s, id, phase);
    if key in s.holder && s.holder[key] == id then t.(holder := s.holder - {key}) else t
  }

  // A commit of the session of `id`: the pending reservation, if it is still there, becomes visible.
  function CommitRow(s: State, id: Id, response: Option<Response>, phase: Phase): State
    requires id in s.requests
  {
    var r := s.requests[id];
    var t := SetPhase(s, id, phase).(commits := s.commits + [id]);
    t.(table := s.table[r.key := Record(r.hash, response)], owner := s.owner[r.key := id], holder := s.holder - {r.key})
  }

  function StepCheck(s: State, id: Id): State
    requires id in s.requests
  {
    var r := s.requests[id];
    if r.phase.Arrived? then
      match Lookup(s.table, r.key, r.hash)
      case None => SetPhase(s, id, Checked)
      case Some(outcome) => SetPhase(s, id, Finished(outcome))
    else if r.phase.Collided? then
      match Lookup(s.table, r.key, r.hash)
      case None => SetPhase(s, id, Finished(Raised))
      case Some(outcome) => SetPhase(s, id, Finished(outcome))
    else s
  }

  // reserve_key: waits while another session holds the index entry, collides with a committed row.
  function StepReserve(s: State, id: Id): State
    requires id in s.requests
  {
    var r := s.requests[id];
    if !r.phase.Checked? || r.key in s.holder then s
    else if r.key in s.table then SetPhase(s, id, Collided)
    else s.(holder := s.holder[r.key := id],
            requests := s.requests[id := r.(phase := Executing(Held), started := true)])
  }

  function StepCommitInside(s: State, id: Id): State
    requires id in s.requests
  {
    var r := s.requests[id];
    match r.phase
    case Executing(Held) => CommitRow(s, id, None, Executing(Kept))
    case Executing(_) => s.(commits := s.commits + [id])
    case _ => s
  }

  // After a rollback execute() can only raise.
  function StepRollBackInside(s: State, id: Id): State
    requires id in s.requests
  {
    var r := s.requests[id];
    match r.phase
    case Executing(Held) =>
      s.(holder := s.holder - {r.key}, requests := s.requests[id := r.(phase := Executing(Lost), rolledBack := true, lost := true)])
    case Executing(_) => s.(requests := s.requests[id := r.(rolledBack := true)])
    case _ => s
  }

  function StepReturn(s: State, id: Id, response: Response): State
    requires id in s.requests
  {
    var r := s.requests[id];
    if r.phase.Executing? && !r.rolledBack then SetPhase(s, id, Executed(r.phase.reservation, response)) else s
  }

  function StepPersist(s: State, id: Id): State
    requires id in s.requests
  {
    var r := s.requests[id];
    if r.phase.Executed? then CommitRow(s, id, Some(r.phase.result), Finished(Returned(r.phase.result))) else s
  }

  function Step(s: State, e: Event): State {
    if e.Arrive? then
      if e.id in s.requests then s
      else s.(requests := s.requests[e.id := Request(e.key, e.hash, Arrived, false, false, false)])
    else if e.id !in s.requests || s.requests[e.id].phase.Finished? then s
    else
      match e
      case Check(id) => StepCheck(s, id)
      case Reserve(id) => StepReserve(s, id)
      case CommitInside(id) => StepCommitInside(s, id)
      case RollBackInside(id) => StepRollBackInside(s, id)
      case ExecuteReturns(id, response) => StepReturn(s, id, response)
      case PersistAndCommit(id) => StepPersist(s, id)
      case Raise(id) => if s.requests[id].phase.Executing? || s.requests[id].phase.Executed? then Release(s, id, Finished(Raised)) else s
      case Crash(id) => Release(s, id, Finished(Crashed))
  }

  function Replay(s: State, events: seq<Event>): State
    decreases |events|
  {
    if events == [] then s else Replay(Step(s, events[0]), events[1..])
  }
}
