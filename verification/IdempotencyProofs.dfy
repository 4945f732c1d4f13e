// What the protocol guarantees over every interleaving, and the one way it can wedge a key.
module IdempotencyProofs {
  import opened Domain
  import opened IdempotencyModel

  function ReservationOf(p: Phase): Option<Reservation> {
    match p
    case Executing(r) => Some(r)
    case Executed(r, _) => Some(r)
    case _ => None
  }

  // The phases a committed row without a response allows its owner.
  predicate OwnerWithoutResponse(p: Phase) {
    ReservationOf(p) == Some(Kept) || p == Finished(Raised) || p == Finished(Crashed)
  }

  predicate KeyInv(s: State, key: Key) {
    && (key in s.holder ==>
          && key !in s.table && s.holder[key] in s.requests
          && s.requests[s.holder[key]].key == key
          && ReservationOf(s.requests[s.holder[key]].phase) == Some(Held))
    && (key in s.table <==> key in s.owner)
    && (key in s.table ==>
          && s.owner[key] in s.requests
          && var r := s.requests[s.owner[key]];
          && r.key == key && r.hash == s.table[key].hash && r.started && !r.lost
          && (match s.table[key].response
              case None => OwnerWithoutResponse(r.phase)
              case Some(response) => r.phase == Finished(Returned(response))))
  }

  predicate RequestInv(s: State, id: Id)
    requires id in s.requests
  {
    var r := s.requests[id];
    && (r.phase.Arrived? || r.phase.Checked? || r.phase.Collided? ==> !r.started && !r.rolledBack)
    && (!r.started ==> !r.rolledBack)
    && (r.rolledBack ==> r.phase.Executing? || r.phase == Finished(Raised) || r.phase == Finished(Crashed))
    && (r.phase.Executing? || r.phase.Executed? ==> r.started)
    && (ReservationOf(r.phase) == Some(Held) ==> r.key in s.holder && s.holder[r.key] == id && !r.rolledBack)
    && (ReservationOf(r.phase) == Some(Kept) ==> r.key in s.owner && s.owner[r.key] == id)
    && (ReservationOf(r.phase) == Some(Lost) ==> r.lost)
    && (r.lost ==> r.rolledBack && (r.phase == Executing(Lost) || r.phase == Finished(Raised) || r.phase == Finished(Crashed)))
    && (r.phase.Executed? ==> !r.rolledBack)
    && (r.phase.Collided? ==> r.key in s.table)
    && (r.phase.Finished? ==>
          match r.phase.outcome
          case Replayed(response) => !r.started && r.key in s.table && s.table[r.key] == Record(r.hash, Some(response))
          case Returned(response) =>
            && r.started && !r.rolledBack && r.key in s.owner && s.owner[r.key] == id && r.key in s.table
            && s.table[r.key] == Record(r.hash, Some(response))
          case PayloadConflict => !r.started && r.key in s.table && s.table[r.key].hash != r.hash
          case InProgress => !r.started && r.key in s.table && s.table[r.key].hash == r.hash
          case _ => true)
  }

  predicate CommitInv(s: State, id: Id) {
    && id in s.requests && s.requests[id].started
    && (s.requests[id].lost || (s.requests[id].key in s.owner && s.owner[s.requests[id].key] == id))
  }

  ghost predicate Inv(s: State) {
    && (forall key :: KeyInv(s, key))
    && (forall id :: id in s.requests ==> RequestInv(s, id))
    && (forall i :: 0 <= i < |s.commits| ==> CommitInv(s, s.commits[i]))
  }

  lemma ArriveKeepsInv(s: State, id: Id, key: Key, hash: string)
    requires Inv(s) && id !in s.requests
    ensures Inv(Step(s, Arrive(id, key, hash)))
  {
    var t := Step(s, Arrive(id, key, hash));
    forall k ensures KeyInv(t, k) { assert KeyInv(s, k); }
    forall j | j in t.requests ensures RequestInv(t, j) {
      assert j in s.requests ==> RequestInv(s, j);
    }
    forall i | 0 <= i < |t.commits| ensures CommitInv(t, t.commits[i]) {
      assert CommitInv(s, s.commits[i]);
    }
  }

  // Rows never disappear, never change owner or hash, and a stored response is final.
  predicate RowStable(s: State, t: State, key: Key) {
    key in s.table && key in s.owner ==>
      && key in t.table && key in t.owner && t.owner[key] == s.owner[key]
      && t.table[key].hash == s.table[key].hash
      && (s.table[key].response.Some? ==> t.table[key] == s.table[key])
  }

  // What a step of one request may touch: that request, the rows of its key, and the log.
  predicate Moves(s: State, t: State, id: Id) {
    && id in s.requests && id in t.requests && t.requests == s.requests[id := t.requests[id]]
    && var r, q := s.requests[id], t.requests[id];
    && q.key == r.key && q.hash == r.hash
    && (q.lost ==> r.lost || r.phase == Executing(Held))
    && (q.phase.Executing? ==> r.phase.Executing? || r.key !in s.table)
    && t.table - {r.key} == s.table - {r.key}
    && t.holder - {r.key} == s.holder - {r.key}
    && t.owner - {r.key} == s.owner - {r.key}
    && (t.commits == s.commits || (t.commits == s.commits + [id] && (r.phase.Executing? || r.phase.Executed?)))
    && (t.owner == s.owner || (t.owner == s.owner[r.key := id] && t.commits == s.commits + [id]))
  }

  // And what it leaves right: its own request, its key, and what others have of that key.
  predicate Settles(s: State, t: State, id: Id)
    requires id in s.requests && id in t.requests
  {
    var key := s.requests[id].key;
    && RequestInv(t, id) && KeyInv(t, key) && RowStable(s, t, key)
    && (key in s.holder && s.holder[key] != id ==> key in t.holder && t.holder[key] == s.holder[key])
    && (t.commits != s.commits || CommitInv(s, id) ==> CommitInv(t, id))
  }

  lemma CheckMoves(s: State, id: Id)
    requires id in s.requests
    ensures Moves(s, StepCheck(s, id), id)
  {
  }

  lemma ReserveMoves(s: State, id: Id)
    requires id in s.requests
    ensures Moves(s, StepReserve(s, id), id)
  {
  }

  lemma CommitInsideMoves(s: State, id: Id)
    requires id in s.requests
    ensures Moves(s, StepCommitInside(s, id), id)
  {
  }

  lemma RollBackInsideMoves(s: State, id: Id)
    requires id in s.requests
    ensures Moves(s, StepRollBackInside(s, id), id)
  {
  }

  lemma ReturnMoves(s: State, id: Id, response: Response)
    requires id in s.requests
    ensures Moves(s, StepReturn(s, id, response), id)
  {
  }

  lemma PersistMoves(s: State, id: Id)
    requires id in s.requests
    ensures Moves(s, StepPersist(s, id), id)
  {
  }

  lemma ReleaseMoves(s: State, id: Id, outcome: Outcome)
    requires id in s.requests
    ensures Moves(s, Release(s, id, Finished(outcome)), id)
  {
  }

  lemma CheckSettles(s: State, id: Id)
    requires Inv(s) && id in s.requests
    ensures Settles(s, StepCheck(s, id), id)
  {
    assert RequestInv(s, id) && KeyInv(s, s.requests[id].key);
  }

  lemma ReserveSettles(s: State, id: Id)
    requires Inv(s) && id in s.requests
    ensures Settles(s, StepReserve(s, id), id)
  {
    assert RequestInv(s, id) && KeyInv(s, s.requests[id].key);
  }

  lemma CommitInsideSettles(s: State, id: Id)
    requires Inv(s) && id in s.requests
    ensures Settles(s, StepCommitInside(s, id), id)
  {
    assert RequestInv(s, id) && KeyInv(s, s.requests[id].key);
  }

  lemma RollBackInsideSettles(s: State, id: Id)
    requires Inv(s) && id in s.requests
    ensures Settles(s, StepRollBackInside(s, id), id)
  {
    assert RequestInv(s, id) && KeyInv(s, s.requests[id].key);
  }

  lemma ReturnSettles(s: State, id: Id, response: Response)
    requires Inv(s) && id in s.requests
    ensures Settles(s, StepReturn(s, id, response), id)
  {
    assert RequestInv(s, id) && KeyInv(s, s.requests[id].key);
  }

  lemma PersistSettles(s: State, id: Id)
    requires Inv(s) && id in s.requests
    ensures Settles(s, StepPersist(s, id), id)
  {
    assert RequestInv(s, id) && KeyInv(s, s.requests[id].key);
    var r := s.requests[id];
    if r.phase.Executed? {
      assert r.phase.reservation.Held? || r.phase.reservation.Kept?;
      assert ReservationOf(r.phase) == Some(r.phase.reservation);
    }
  }

  lemma ReleaseSettles(s: State, id: Id, outcome: Outcome)
    requires Inv(s) && id in s.requests && !s.requests[id].phase.Finished?
    requires outcome == Raised || outcome == Crashed
    ensures Settles(s, Release(s, id, Finished(outcome)), id)
  {
    assert RequestInv(s, id) && KeyInv(s, s.requests[id].key);
  }

  lemma OthersKeepInv(s: State, t: State, id: Id, j: Id)
    requires Inv(s) && Moves(s, t, id) && Settles(s, t, id) && j in s.requests
    ensures RequestInv(t, j) && (CommitInv(s, j) ==> CommitInv(t, j))
  {
    assert RequestInv(s, j) && KeyInv(s, s.requests[j].key);
    if j != id && s.requests[j].key != s.requests[id].key {
      SameElsewhere(s, t, id, s.requests[j].key);
    }
  }

  lemma SameElsewhere(s: State, t: State, id: Id, key: Key)
    requires Moves(s, t, id) && key != s.requests[id].key
    ensures key in t.table <==> key in s.table
    ensures key in s.table ==> t.table[key] == s.table[key]
    ensures key in t.holder <==> key in s.holder
    ensures key in s.holder ==> t.holder[key] == s.holder[key]
    ensures key in t.owner <==> key in s.owner
    ensures key in s.owner ==> t.owner[key] == s.owner[key]
  {
    var own := s.requests[id].key;
    assert key in t.table <==> key in t.table - {own};
    assert key in s.table ==> (s.table - {own})[key] == s.table[key] && (t.table - {own})[key] == t.table[key];
    assert key in t.holder <==> key in t.holder - {own};
    assert key in s.holder ==> (s.holder - {own})[key] == s.holder[key] && (t.holder - {own})[key] == t.holder[key];
    assert key in t.owner <==> key in t.owner - {own};
    assert key in s.owner ==> (s.owner - {own})[key] == s.owner[key] && (t.owner - {own})[key] == t.owner[key];
  }

  lemma OtherKeysKeepInv(s: State, t: State, id: Id, key: Key)
    requires Inv(s) && Moves(s, t, id) && Settles(s, t, id)
    ensures KeyInv(t, key)
  {
    if key != s.requests[id].key {
      assert KeyInv(s, key);
      SameElsewhere(s, t, id, key);
    }
  }

  lemma MoveKeepsInv(s: State, t: State, id: Id)
    requires Inv(s) && Moves(s, t, id) && Settles(s, t, id)
    ensures Inv(t)
  {
    forall key ensures KeyInv(t, key) {
      OtherKeysKeepInv(s, t, id, key);
    }
    forall j | j in t.requests ensures RequestInv(t, j) {
      OthersKeepInv(s, t, id, j);
    }
    hide KeyInv, RequestInv;
    forall i | 0 <= i < |t.commits| ensures CommitInv(t, t.commits[i]) {
      if i < |s.commits| {
        assert CommitInv(s, s.commits[i]);
        OthersKeepInv(s, t, id, s.commits[i]);
      }
    }
  }

  lemma StepMoves(s: State, e: Event)
    requires !e.Arrive? && e.id in s.requests && !s.requests[e.id].phase.Finished?
    ensures Moves(s, Step(s, e), e.id)
  {
    hide Moves, StepCheck, StepReserve, StepCommitInside, StepRollBackInside, StepReturn, StepPersist, Release;
    match e
    case Check(id) => CheckMoves(s, id);
    case Reserve(id) => ReserveMoves(s, id);
    case CommitInside(id) => CommitInsideMoves(s, id);
    case RollBackInside(id) => RollBackInsideMoves(s, id);
    case ExecuteReturns(id, response) => ReturnMoves(s, id, response);
    case PersistAndCommit(id) => PersistMoves(s, id);
    case Raise(id) => ReleaseMoves(s, id, Raised); NothingMoves(s, id);
    case Crash(id) => ReleaseMoves(s, id, Crashed);
  }

  lemma NothingMoves(s: State, id: Id)
    requires id in s.requests
    ensures Moves(s, s, id)
  {
  }

  lemma StepSettles(s: State, e: Event)
    requires Inv(s) && !e.Arrive? && e.id in s.requests && !s.requests[e.id].phase.Finished?
    ensures e.id in Step(s, e).requests && Settles(s, Step(s, e), e.id)
  {
    StepMoves(s, e);
    NothingSettles(s, e.id);
    hide Inv, Settles, StepCheck, StepReserve, StepCommitInside, StepRollBackInside, StepReturn, StepPersist, Release;
    match e
    case Check(id) => CheckSettles(s, id);
    case Reserve(id) => ReserveSettles(s, id);
    case CommitInside(id) => CommitInsideSettles(s, id);
    case RollBackInside(id) => RollBackInsideSettles(s, id);
    case ExecuteReturns(id, response) => ReturnSettles(s, id, response);
    case PersistAndCommit(id) => PersistSettles(s, id);
    case Raise(id) => ReleaseSettles(s, id, Raised);
    case Crash(id) => ReleaseSettles(s, id, Crashed);
  }

  lemma NothingSettles(s: State, id: Id)
    requires Inv(s) && id in s.requests
    ensures Settles(s, s, id)
  {
    assert RequestInv(s, id) && KeyInv(s, s.requests[id].key);
  }

  lemma StepKeepsInv(s: State, e: Event)
    requires Inv(s)
    ensures Inv(Step(s, e))
  {
    if e.Arrive? {
      if e.id !in s.requests {
        ArriveKeepsInv(s, e.id, e.key, e.hash);
      }
    } else if e.id in s.requests && !s.requests[e.id].phase.Finished? {
      StepMoves(s, e);
      StepSettles(s, e);
      hide Step, Inv, Moves, Settles;
      MoveKeepsInv(s, Step(s, e), e.id);
    }
  }

  lemma {:induction false} ReplayKeepsInv(s: State, events: seq<Event>)
    requires Inv(s)
    ensures Inv(Replay(s, events))
    decreases |events|
  {
    if events != [] {
      hide Inv, Step;
      StepKeepsInv(s, events[0]);
      ReplayKeepsInv(Step(s, events[0]), events[1..]);
    }
  }

  lemma {:induction false} ReplayAppend(s: State, a: seq<Event>, b: seq<Event>)
    ensures Replay(s, a + b) == Replay(Replay(s, a), b)
    decreases |a|
  {
    if a == [] {
      assert a + b == b;
    } else {
      hide Step;
      assert (a + b)[1..] == a[1..] + b;
      ReplayAppend(Step(s, a[0]), a[1..], b);
    }
  }

  // A request whose execute() returned still has its reservation, so no one else owns the row.
  lemma HeldOrKept(s: State, id: Id)
    requires Inv(s) && id in s.requests
    ensures var r := s.requests[id];
            && (r.phase.Executed? ==> r.phase.reservation.Held? || r.phase.reservation.Kept?)
            && (ReservationOf(r.phase) == Some(Held) ==> r.key !in s.table && r.key in s.holder && s.holder[r.key] == id)
            && (ReservationOf(r.phase) == Some(Kept) ==> r.key in s.owner && s.owner[r.key] == id && r.key in s.table && s.table[r.key].hash == r.hash)
            && (r.rolledBack ==> !r.phase.Executed? && r.phase != Executing(Held))
            && (r.phase.Collided? ==> r.key in s.table)
  {
    var r := s.requests[id];
    assert RequestInv(s, id) && KeyInv(s, r.key);
    if r.phase.Executed? {
      assert ReservationOf(r.phase) == Some(r.phase.reservation);
    }
  }

  lemma StepKeepsRows(s: State, e: Event, key: Key)
    requires Inv(s)
    ensures RowStable(s, Step(s, e), key)
  {
    if !e.Arrive? && e.id in s.requests && !s.requests[e.id].phase.Finished? {
      StepMoves(s, e);
      StepSettles(s, e);
      hide Step, Inv;
      if key != s.requests[e.id].key {
        SameElsewhere(s, Step(s, e), e.id, key);
      }
    }
  }

  lemma {:induction false} ReplayKeepsRows(s: State, events: seq<Event>, key: Key)
    requires Inv(s)
    ensures RowStable(s, Replay(s, events), key)
    decreases |events|
  {
    if events != [] {
      hide Inv, Step, KeyInv, RequestInv;
      StepKeepsInv(s, events[0]);
      StepKeepsRows(s, events[0], key);
      ReplayKeepsRows(Step(s, events[0]), events[1..], key);
    }
  }

  // ---- main results ----

  // This request has committed effects and did not lose its reservation.
  predicate CommittedUnderKey(s: State, id: Id) {
    id in s.commits && id in s.requests && !s.requests[id].lost
  }

  predicate Succeeded(s: State, id: Id, response: Response) {
    id in s.requests && s.requests[id].phase == Finished(Returned(response))
  }

  predicate SameKey(s: State, i: Id, j: Id) {
    i in s.requests && j in s.requests && s.requests[i].key == s.requests[j].key
  }

  lemma CommitterInv(s: State, id: Id)
    requires Inv(s) && id in s.commits
    ensures CommitInv(s, id) && RequestInv(s, id) && KeyInv(s, s.requests[id].key)
  {
    var a :| 0 <= a < |s.commits| && s.commits[a] == id;
    assert CommitInv(s, s.commits[a]);
  }

  // Over every interleaving, at most one request per key commits effects without having lost
  // its reservation; and whoever has rolled back can only report an error.
  lemma AtMostOneExecutionCommits(events: seq<Event>, i: Id, j: Id)
    ensures var s := Replay(Empty, events);
            && (CommittedUnderKey(s, i) && CommittedUnderKey(s, j) && SameKey(s, i, j) ==> i == j)
            && (i in s.requests && s.requests[i].lost ==> s.requests[i].rolledBack)
            && (i in s.requests && s.requests[i].rolledBack ==>
                  s.requests[i].phase.Executing? || s.requests[i].phase == Finished(Raised) || s.requests[i].phase == Finished(Crashed))
  {
    ReplayKeepsInv(Empty, events);
    var s := Replay(Empty, events);
    if i in s.requests {
      assert RequestInv(s, i);
    }
    if i in s.commits && j in s.commits {
      CommitterInv(s, i);
      CommitterInv(s, j);
    }
  }

  // A success is unique for its key, and its effects are the committed ones.
  lemma SuccessIsUnique(events: seq<Event>, i: Id, j: Id, a: Response, b: Response)
    ensures var s := Replay(Empty, events);
            && (Succeeded(s, i, a) && Succeeded(s, j, b) && SameKey(s, i, j) ==> i == j && a == b)
  {
    ReplayKeepsInv(Empty, events);
    var s := Replay(Empty, events);
    if Succeeded(s, i, a) && Succeeded(s, j, b) {
      assert RequestInv(s, i) && RequestInv(s, j);
    }
  }

  // Every replay is the answer of the one successful execution of that key and payload.
  lemma ReplayIsExact(events: seq<Event>, j: Id, response: Response) returns (winner: Id)
    requires var s := Replay(Empty, events);
             j in s.requests && s.requests[j].phase == Finished(Replayed(response))
    ensures var s := Replay(Empty, events);
            && Succeeded(s, winner, response) && SameKey(s, winner, j)
            && s.requests[winner].hash == s.requests[j].hash
            && winner != j && !s.requests[j].started && j !in s.commits
  {
    ReplayKeepsInv(Empty, events);
    var s := Replay(Empty, events);
    assert RequestInv(s, j) && KeyInv(s, s.requests[j].key);
    winner := s.owner[s.requests[j].key];
    NotStartedNeverCommits(s, j);
  }

  lemma NotStartedNeverCommits(s: State, id: Id)
    requires Inv(s) && id in s.requests && !s.requests[id].started
    ensures id !in s.commits
  {
    forall a | 0 <= a < |s.commits| ensures s.commits[a] != id {
      assert CommitInv(s, s.commits[a]);
    }
  }

  // What the lookup decides for a request that meets a committed row, and that it is final: a
  // different payload or a missing response refuses it, and then it never executes.
  lemma LookupIsFinal(s: State, id: Id, later: seq<Event>)
    requires Inv(s) && id in s.requests
    requires s.requests[id].phase.Arrived? || s.requests[id].phase.Collided?
    requires s.requests[id].key in s.table
    ensures var r := s.requests[id];
            var row := s.table[r.key];
            var t := Replay(Step(s, Check(id)), later);
            && id in t.requests && !t.requests[id].started && id !in t.commits
            && t.requests[id].phase ==
               Finished(if row.hash != r.hash then PayloadConflict
                        else if row.response.None? then InProgress
                        else Replayed(row.response.value))
  {
    var t := Step(s, Check(id));
    assert RequestInv(s, id);
    StepKeepsInv(s, Check(id));
    ReplayKeepsInv(t, later);
    FinishedStays(t, id, later);
    NotStartedNeverCommits(Replay(t, later), id);
  }

  lemma {:induction false} FinishedStays(s: State, id: Id, events: seq<Event>)
    requires id in s.requests && s.requests[id].phase.Finished?
    ensures id in Replay(s, events).requests && Replay(s, events).requests[id] == s.requests[id]
    decreases |events|
  {
    if events != [] {
      FinishedStaysStep(s, id, events[0]);
      hide Step;
      FinishedStays(Step(s, events[0]), id, events[1..]);
    }
  }

  lemma FinishedStaysStep(s: State, id: Id, e: Event)
    requires id in s.requests && s.requests[id].phase.Finished?
    ensures id in Step(s, e).requests && Step(s, e).requests[id] == s.requests[id]
  {
    if !e.Arrive? && e.id in s.requests && !s.requests[e.id].phase.Finished? {
      StepMoves(s, e);
      hide Step;
    }
  }

  // A collision always finds a committed row, so the re-raise after the second lookup is dead code.
  lemma CollisionFindsRow(events: seq<Event>, id: Id)
    requires var s := Replay(Empty, events); id in s.requests && s.requests[id].phase.Collided?
    ensures var s := Replay(Empty, events);
            Lookup(s.table, s.requests[id].key, s.requests[id].hash).Some?
  {
    ReplayKeepsInv(Empty, events);
    assert RequestInv(Replay(Empty, events), id);
  }

  // ---- the wedge ----

  predicate AwaitsResponse(s: State, key: Key) {
    key in s.table && key in s.owner && s.table[key].response.None? && s.owner[key] in s.requests
  }

  // The reservation is committed and the request that made it can no longer answer.
  predicate Wedged(s: State, key: Key) {
    AwaitsResponse(s, key) && (s.requests[s.owner[key]].phase.Finished? || s.requests[s.owner[key]].rolledBack)
  }

  lemma StepKeepsWedge(s: State, e: Event, key: Key)
    requires Inv(s) && Wedged(s, key)
    ensures Wedged(Step(s, e), key)
  {
    assert KeyInv(s, key) && RequestInv(s, s.owner[key]);
    if !e.Arrive? && e.id in s.requests {
      HeldOrKept(s, e.id);
    }
  }

  lemma {:induction false} ReplayKeepsWedge(s: State, events: seq<Event>, key: Key)
    requires Inv(s) && Wedged(s, key)
    ensures Wedged(Replay(s, events), key)
    decreases |events|
  {
    if events != [] {
      hide Inv, Step, KeyInv, RequestInv, Wedged;
      StepKeepsInv(s, events[0]);
      StepKeepsWedge(s, events[0], key);
      ReplayKeepsWedge(Step(s, events[0]), events[1..], key);
    }
  }

  // After these events the key has a stored response.
  predicate Answers(s: State, events: seq<Event>, key: Key) {
    key in Replay(s, events).table && Replay(s, events).table[key].response.Some?
  }

  // A committed reservation without a response can still be answered exactly when its request
  // is alive and has not rolled back; otherwise no continuation ever stores a response.
  lemma AnswerableIff(s: State, key: Key)
    requires Inv(s) && AwaitsResponse(s, key)
    ensures !Wedged(s, key) <==>
            exists events :: Answers(s, events, key)
  {
    if Wedged(s, key) {
      forall events ensures !Answers(s, events, key) {
        ReplayKeepsWedge(s, events, key);
      }
    } else {
      var id, answer := s.owner[key], Response(200, "");
      var events := [ExecuteReturns(id, answer), PersistAndCommit(id)];
      assert KeyInv(s, key);
      HeldOrKept(s, id);
      var t := Step(s, events[0]);
      var u := Step(t, events[1]);
      assert t.requests[id].phase.Executed? && t.requests[id].key == key;
      assert key in u.table && u.table[key].response.Some?;
      assert events[1..] == [events[1]] && events[1..][1..] == [];
      assert Replay(t, [events[1]]) == u;
      assert Replay(s, events) == u;
      assert Answers(s, events, key);
    }
  }

  // It does happen: a request dies between the commit inside execute() and persist_success.
  lemma CrashAfterInnerCommitWedges(id: Id, key: Key, hash: string)
    ensures Wedged(Replay(Empty, [Arrive(id, key, hash), Check(id), Reserve(id), CommitInside(id), Crash(id)]), key)
  {
    var e := [Arrive(id, key, hash), Check(id), Reserve(id), CommitInside(id), Crash(id)];
    var s1 := Step(Empty, e[0]);
    var s2 := Step(s1, e[1]);
    var s3 := Step(s2, e[2]);
    var s4 := Step(s3, e[3]);
    var s5 := Step(s4, e[4]);
    assert e[1..] == [e[1], e[2], e[3], e[4]] && e[1..][1..] == [e[2], e[3], e[4]];
    assert [e[2], e[3], e[4]][1..] == [e[3], e[4]] && [e[3], e[4]][1..] == [e[4]] && [e[4]][1..] == [];
    assert Replay(s4, [e[4]]) == Replay(s5, []) == s5;
    assert Replay(s2, [e[2], e[3], e[4]]) == s5;
  }

  // ---- what each step does, in terms of the tables ----

  // A check that finds no row goes on; a reservation waits for another one that is not committed,
  // collides with a committed row, and otherwise holds the key.
  lemma EnteringMeans(s: State, id: Id)
    requires id in s.requests
    ensures var r := s.requests[id];
            && (r.phase == Arrived && r.key !in s.table ==>
                  Step(s, Check(id)) == s.(requests := s.requests[id := r.(phase := Checked)]))
            && (r.phase == Checked && r.key in s.holder ==> Step(s, Reserve(id)) == s)
            && (r.phase == Checked && r.key !in s.holder && r.key in s.table ==>
                  Step(s, Reserve(id)) == s.(requests := s.requests[id := r.(phase := Collided)]))
            && (r.phase == Checked && r.key !in s.holder && r.key !in s.table ==>
                  Step(s, Reserve(id)) == s.(holder := s.holder[r.key := id],
                                             requests := s.requests[id := r.(phase := Executing(Held), started := true)]))
  {
  }

  // Inside execute() the first commit makes the reservation a row without a response, unless a
  // rollback has discarded it before.
  lemma ExecutingMeans(s: State, id: Id, reservation: Reservation)
    requires id in s.requests && s.requests[id].phase == Executing(reservation)
    ensures var r := s.requests[id];
            && Step(s, CommitInside(id)) ==
               (if reservation == Held
                then s.(table := s.table[r.key := Record(r.hash, None)], owner := s.owner[r.key := id], holder := s.holder - {r.key},
                        commits := s.commits + [id], requests := s.requests[id := r.(phase := Executing(Kept))])
                else s.(commits := s.commits + [id]))
            && Step(s, RollBackInside(id)) ==
               (if reservation == Held
                then s.(holder := s.holder - {r.key},
                        requests := s.requests[id := r.(phase := Executing(Lost), rolledBack := true, lost := true)])
                else s.(requests := s.requests[id := r.(rolledBack := true)]))
  {
  }

  // A result is stored with the row of the key and is what the request returns; an exception or
  // a crash stores nothing and gives back a key that was only held.
  lemma EndingMeans(s: State, id: Id, reservation: Reservation, response: Response)
    requires id in s.requests && s.requests[id].phase == Executing(reservation) && !s.requests[id].rolledBack
    ensures var r := s.requests[id];
            var t := Step(Step(s, ExecuteReturns(id, response)), PersistAndCommit(id));
            && t.table == s.table[r.key := Record(r.hash, Some(response))] && t.owner == s.owner[r.key := id]
            && t.holder == s.holder - {r.key} && t.commits == s.commits + [id]
            && t.requests == s.requests[id := r.(phase := Finished(Returned(response)))]
    ensures forall e | e == Raise(id) || e == Crash(id) ::
              var t := Step(s, e);
              && t.table == s.table && t.owner == s.owner && t.commits == s.commits
              && t.requests == s.requests[id := s.requests[id].(phase := Finished(if e == Raise(id) then Raised else Crashed))]
              && t.holder == (if s.requests[id].key in s.holder && s.holder[s.requests[id].key] == id
                              then s.holder - {s.requests[id].key} else s.holder)
  {
    var returned := Step(s, ExecuteReturns(id, response));
    assert returned == s.(requests := s.requests[id := s.requests[id].(phase := Executed(reservation, response))]);
  }

  // ---- executing twice ----

  // The owner of a committed row has committed.
  ghost predicate OwnersCommit(s: State) {
    forall key <- s.owner :: s.owner[key] in s.commits
  }

  lemma {:induction false} ReplayKeepsOwners(s: State, events: seq<Event>)
    requires OwnersCommit(s)
    ensures OwnersCommit(Replay(s, events))
    decreases |events|
  {
    if events != [] {
      StepKeepsOwners(s, events[0]);
      hide Step, OwnersCommit;
      ReplayKeepsOwners(Step(s, events[0]), events[1..]);
    }
  }

  lemma StepKeepsOwners(s: State, e: Event)
    requires OwnersCommit(s)
    ensures OwnersCommit(Step(s, e))
  {
    if !e.Arrive? && e.id in s.requests && !s.requests[e.id].phase.Finished? {
      StepMoves(s, e);
      hide Step;
      var t := Step(s, e);
      forall key | key in t.owner ensures t.owner[key] in t.commits {
        if t.owner == s.owner || key != s.requests[e.id].key {
          assert s.owner[key] in s.commits;
        } else {
          assert t.commits[|s.commits|] == t.owner[key];
        }
      }
    }
  }

  // After these events j has committed effects under the key of i.
  predicate AnotherCommits(s: State, later: seq<Event>, i: Id, j: Id) {
    var t := Replay(s, later);
    i != j && SameKey(t, i, j) && j in t.commits
  }

  // A request that lost its reservation and has committed all the same, or still can.
  predicate Rival(s: State, i: Id, j: Id) {
    && i != j && SameKey(s, i, j) && s.requests[j].lost
    && (j in s.commits || s.requests[j].phase.Executing?)
  }

  // i owns the committed row of its key and j is no rival.
  predicate ShutOut(s: State, i: Id, j: Id) {
    && i in s.requests && s.requests[i].key in s.table
    && s.requests[i].key in s.owner && s.owner[s.requests[i].key] == i
    && !Rival(s, i, j)
  }

  lemma StepKeepsShutOut(s: State, e: Event, i: Id, j: Id)
    requires Inv(s) && i != j && ShutOut(s, i, j)
    ensures ShutOut(Step(s, e), i, j)
  {
    StepKeepsRows(s, e, s.requests[i].key);
    if !e.Arrive? && e.id in s.requests && !s.requests[e.id].phase.Finished? {
      HeldOrKept(s, e.id);
      assert RequestInv(s, e.id);
      StepMoves(s, e);
      hide Step, Inv, RequestInv, KeyInv;
    }
  }

  lemma {:induction false} ReplayKeepsShutOut(s: State, events: seq<Event>, i: Id, j: Id)
    requires Inv(s) && i != j && ShutOut(s, i, j)
    ensures ShutOut(Replay(s, events), i, j) && !AnotherCommits(s, events, i, j)
    decreases |events|
  {
    if events != [] {
      StepKeepsInv(s, events[0]);
      StepKeepsShutOut(s, events[0], i, j);
      hide Inv, Step, ShutOut;
      ReplayKeepsShutOut(Step(s, events[0]), events[1..], i, j);
    } else if j in s.commits {
      CommitterInv(s, j);
    }
  }

  // A reservation that was committed cannot be lost any more.
  lemma {:induction false} KeptIsNeverLost(s: State, events: seq<Event>, i: Id)
    requires Inv(s) && i in s.commits && i in s.requests && !s.requests[i].lost
    ensures var t := Replay(s, events); i in t.commits && i in t.requests && !t.requests[i].lost
    decreases |events|
  {
    if events != [] {
      StepKeepsKept(s, events[0], i);
      StepKeepsInv(s, events[0]);
      hide Inv, Step;
      KeptIsNeverLost(Step(s, events[0]), events[1..], i);
    }
  }

  lemma StepKeepsKept(s: State, e: Event, i: Id)
    requires Inv(s) && i in s.commits && i in s.requests && !s.requests[i].lost
    ensures var t := Step(s, e); i in t.commits && i in t.requests && !t.requests[i].lost
  {
    CommitterInv(s, i);
    HeldOrKept(s, i);
    if !e.Arrive? && e.id in s.requests && !s.requests[e.id].phase.Finished? {
      StepMoves(s, e);
      hide Step, Inv;
    }
  }

  lemma FreshId(requests: map<Id, Request>) returns (id: Id)
    ensures id !in requests
  {
    id := Above(requests.Keys);
  }

  lemma {:induction false} Above(ids: set<Id>) returns (bound: Id)
    ensures forall id <- ids :: id < bound
    decreases |ids|
  {
    if ids == {} {
      bound := 0;
    } else {
      var id :| id in ids;
      var rest := Above(ids - {id});
      bound := if id < rest then rest else id + 1;
      forall x | x in ids ensures x < bound {
        assert x != id ==> x in ids - {id};
      }
    }
  }

  // A new request takes a free key.
  lemma FreshReserves(s: State, j: Id, key: Key, hash: string)
    requires j !in s.requests && key !in s.table && key !in s.holder
    ensures Step(Step(Step(s, Arrive(j, key, hash)), Check(j)), Reserve(j)) ==
            s.(holder := s.holder[key := j], requests := s.requests[j := Request(key, hash, Executing(Held), true, false, false)])
  {
    var s1 := Step(s, Arrive(j, key, hash));
    assert s1 == s.(requests := s.requests[j := Request(key, hash, Arrived, false, false, false)]);
    var s2 := Step(s1, Check(j));
    assert s2 == s.(requests := s.requests[j := Request(key, hash, Checked, false, false, false)]);
  }

  lemma HeldCommits(s: State, j: Id)
    requires j in s.requests && s.requests[j].phase == Executing(Held)
    ensures Step(s, CommitInside(j)) == CommitRow(s, j, None, Executing(Kept))
  {
  }

  function FreshTry(j: Id, key: Key, hash: string): seq<Event> {
    [Arrive(j, key, hash), Check(j), Reserve(j), CommitInside(j)]
  }

  lemma FreshRequestCommits(s: State, key: Key, hash: string, j: Id)
    requires j !in s.requests && key !in s.table && key !in s.holder
    ensures var t := Replay(s, FreshTry(j, key, hash));
            && t.commits == s.commits + [j]
            && t.requests == s.requests[j := Request(key, hash, Executing(Kept), true, false, false)]
  {
    FourSteps(s, Arrive(j, key, hash), Check(j), Reserve(j), CommitInside(j));
    FreshReserves(s, j, key, hash);
    HeldCommits(Step(Step(Step(s, Arrive(j, key, hash)), Check(j)), Reserve(j)), j);
    hide Step, Replay;
  }

  lemma FourSteps(s: State, a: Event, b: Event, c: Event, d: Event)
    ensures Replay(s, [a, b, c, d]) == Step(Step(Step(Step(s, a), b), c), d)
  {
    hide Step;
    var s1 := Step(s, a);
    var s2 := Step(s1, b);
    var s3 := Step(s2, c);
    assert [a, b, c, d][1..] == [b, c, d] && [b, c, d][1..] == [c, d] && [c, d][1..] == [d];
    assert Replay(s3, [d]) == Replay(Step(s3, d), []);
    assert Replay(s2, [c, d]) == Replay(s3, [d]);
    assert Replay(s1, [b, c, d]) == Replay(s2, [c, d]);
  }

  // The key of a request that lost its reservation has another owner, or can get one.
  lemma LostKeyPassesOn(s: State, i: Id) returns (later: seq<Event>, j: Id)
    requires Inv(s) && OwnersCommit(s) && i in s.requests && s.requests[i].lost
    ensures AnotherCommits(s, later, i, j) && !Replay(s, later).requests[j].lost
  {
    var key := s.requests[i].key;
    assert KeyInv(s, key) && RequestInv(s, i);
    later := [];
    if key in s.table {
      j := s.owner[key];
    } else if key in s.holder {
      j := s.holder[key];
      assert RequestInv(s, j);
      later := [if s.requests[j].phase.Executing? then CommitInside(j) else PersistAndCommit(j)];
      var t := Step(s, later[0]);
      assert Replay(t, later[1..]) == t;
      assert t.commits[|s.commits|] == j;
    } else {
      j := FreshId(s.requests);
      later := FreshTry(j, key, "");
      FreshRequestCommits(s, key, "", j);
      assert (s.commits + [j])[|s.commits|] == j;
      hide Step, Replay, Inv, KeyInv, RequestInv;
    }
  }

  // The key of a committed execution can pass to another one exactly when it lost its
  // reservation, that is, when it rolled back before it first committed.
  lemma KeyPassesOnIff(events: seq<Event>, i: Id)
    requires i in Replay(Empty, events).commits
    ensures var s := Replay(Empty, events);
            && i in s.requests
            && ((exists later, j :: AnotherCommits(s, later, i, j) && !Replay(s, later).requests[j].lost) <==> s.requests[i].lost)
  {
    ReplayKeepsInv(Empty, events);
    ReplayKeepsOwners(Empty, events);
    var s := Replay(Empty, events);
    CommitterInv(s, i);
    if s.requests[i].lost {
      var later, j := LostKeyPassesOn(s, i);
    } else {
      forall later, j ensures !(AnotherCommits(s, later, i, j) && !Replay(s, later).requests[j].lost) {
        OwnerIsAlone(s, later, i, j);
      }
    }
  }

  lemma OwnerIsAlone(s: State, later: seq<Event>, i: Id, j: Id)
    requires Inv(s) && i in s.commits && i in s.requests && !s.requests[i].lost
    ensures AnotherCommits(s, later, i, j) ==> Replay(s, later).requests[j].lost
  {
    var t := Replay(s, later);
    ReplayKeepsInv(s, later);
    KeptIsNeverLost(s, later, i);
    hide Replay;
    if AnotherCommits(s, later, i, j) {
      CommitterInv(t, i);
      CommitterInv(t, j);
    }
  }

  // Whether a second execution's effects ever join those of a committed one: exactly when it
  // lost its own reservation, or another request of the key lost one and has committed, or is
  // still executing.
  lemma ExecutesTwiceIff(events: seq<Event>, i: Id)
    requires i in Replay(Empty, events).commits
    ensures var s := Replay(Empty, events);
            && i in s.requests
            && ((exists later, j :: AnotherCommits(s, later, i, j)) <==> (s.requests[i].lost || exists j :: Rival(s, i, j)))
  {
    ReplayKeepsInv(Empty, events);
    ReplayKeepsOwners(Empty, events);
    var s := Replay(Empty, events);
    hide Replay;
    CommitterInv(s, i);
    if s.requests[i].lost {
      var later, j := LostKeyPassesOn(s, i);
    } else if j :| Rival(s, i, j) {
      RivalCommits(s, i, j);
    } else {
      forall later, j ensures !AnotherCommits(s, later, i, j) {
        if i != j {
          ReplayKeepsShutOut(s, later, i, j);
        }
      }
    }
  }

  lemma RivalCommits(s: State, i: Id, j: Id)
    requires Inv(s) && Rival(s, i, j)
    ensures exists later :: AnotherCommits(s, later, i, j)
  {
    if j in s.commits {
      assert AnotherCommits(s, [], i, j);
    } else {
      assert RequestInv(s, j);
      var t := Step(s, CommitInside(j));
      assert t.commits[|s.commits|] == j;
      assert Replay(t, [CommitInside(j)][1..]) == t;
      assert AnotherCommits(s, [CommitInside(j)], i, j);
    }
  }

  // A rollback inside execute() gives the key back even though the error path then commits: the
  // next request with the same key executes again.
  lemma RolledBackExecutionFreesKey(s: State, id: Id)
    requires Inv(s) && id in s.requests && s.requests[id].phase == Executing(Held)
    ensures var t := Step(Step(Step(s, RollBackInside(id)), CommitInside(id)), Raise(id));
            var key := s.requests[id].key;
            && id in t.commits && t.requests[id].phase == Finished(Raised)
            && key !in t.table && key !in t.holder
  {
    assert RequestInv(s, id) && KeyInv(s, s.requests[id].key);
  }

  // It does happen: the first request rolls back, commits its error path and raises; the second,
  // the same request sent again, commits its effects under the key.
  lemma TwoExecutionsCommit(i: Id, j: Id, key: Key, hash: string)
    requires i != j
    ensures var s := Replay(Empty, TwoExecutions(i, j, key, hash));
            && i in s.commits && j in s.commits && SameKey(s, i, j)
            && s.requests[i].lost && s.requests[i].phase == Finished(Raised)
            && !s.requests[j].lost && s.requests[j].hash == s.requests[i].hash
  {
    var raised := Replay(Empty, LostTry(i, key, hash));
    LostTryCommits(i, key, hash);
    FreshRequestCommits(raised, key, hash, j);
    ReplayAppend(Empty, LostTry(i, key, hash), FreshTry(j, key, hash));
    hide Replay, Step;
    assert ([i] + [j])[0] == i && ([i] + [j])[1] == j;
  }

  lemma LostTryCommits(i: Id, key: Key, hash: string)
    ensures var t := Replay(Empty, LostTry(i, key, hash));
            && t.commits == [i] && key !in t.table && key !in t.holder
            && t.requests == map[i := Request(key, hash, Finished(Raised), true, true, true)]
  {
    FreshReserves(Empty, i, key, hash);
    var held := Step(Step(Step(Empty, Arrive(i, key, hash)), Check(i)), Reserve(i));
    LostRaises(held, i);
    FourSteps(Empty, Arrive(i, key, hash), Check(i), Reserve(i), RollBackInside(i));
    TwoMoreSteps(Step(held, RollBackInside(i)), CommitInside(i), Raise(i));
    hide Step, Replay;
    ReplayAppend(Empty, [Arrive(i, key, hash), Check(i), Reserve(i), RollBackInside(i)], [CommitInside(i), Raise(i)]);
  }

  // A rollback, the commit of the error path, and the exception.
  lemma LostRaises(s: State, i: Id)
    requires i in s.requests && s.requests[i].phase == Executing(Held)
    requires s.requests[i].key in s.holder && s.holder[s.requests[i].key] == i
    ensures var r := s.requests[i];
            Step(Step(Step(s, RollBackInside(i)), CommitInside(i)), Raise(i)) ==
            s.(holder := s.holder - {r.key}, commits := s.commits + [i],
               requests := s.requests[i := r.(phase := Finished(Raised), rolledBack := true, lost := true)])
  {
    var r := s.requests[i];
    var t := Step(s, RollBackInside(i));
    assert t == s.(holder := s.holder - {r.key}, requests := s.requests[i := r.(phase := Executing(Lost), rolledBack := true, lost := true)]);
    assert Step(t, CommitInside(i)) == t.(commits := s.commits + [i]);
  }

  lemma TwoMoreSteps(s: State, a: Event, b: Event)
    ensures Replay(s, [a, b]) == Step(Step(s, a), b)
  {
    hide Step;
    assert [a, b][1..] == [b];
    assert Replay(Step(s, a), [b]) == Replay(Step(Step(s, a), b), []);
  }

  function LostTry(i: Id, key: Key, hash: string): seq<Event> {
    [Arrive(i, key, hash), Check(i), Reserve(i), RollBackInside(i)] + [CommitInside(i), Raise(i)]
  }

  function TwoExecutions(i: Id, j: Id, key: Key, hash: string): seq<Event> {
    LostTry(i, key, hash) + FreshTry(j, key, hash)
  }
}
