// Rooms, registrations and rounds of sends over every run of the connection manager.
module ConnectionProofs {
  import opened Domain
  import opened ConnectionModel

  // ---- rooms ----

  predicate NoEmptyRoom(s: State) {
    forall room <- s.rooms :: s.rooms[room] != {}
  }

  // What disconnect means for the rooms, whatever the order of the loop and the failures in it.
  function RoomsWithout(rooms: map<Room, set<UserId>>, user: UserId): map<Room, set<UserId>> {
    map room | room in rooms && rooms[room] - {user} != {} :: rooms[room] - {user}
  }

  function RoomsAfter(rooms: map<Room, set<UserId>>, user: UserId, visited: set<Room>): map<Room, set<UserId>> {
    map room | room in rooms && (room in visited ==> rooms[room] - {user} != {})
      :: if room in visited then rooms[room] - {user} else rooms[room]
  }

  lemma DepartRooms(s: State, user: UserId, room: Room, down: set<Connection>)
    requires NoEmptyRoom(s)
    ensures Depart(s, user, room, down).rooms == RoomsAfter(s.rooms, user, {room})
  {
    assert user !in Members(s, room) ==> Members(s, room) - {user} == Members(s, room);
  }

  lemma RoomsTwice(rooms: map<Room, set<UserId>>, user: UserId, first: Room, rest: set<Room>)
    ensures RoomsAfter(RoomsAfter(rooms, user, {first}), user, rest) == RoomsAfter(rooms, user, {first} + rest)
  {
    var one := RoomsAfter(rooms, user, {first});
    forall room | room in one && room == first ensures one[room] - {user} == one[room] {
    }
  }

  lemma {:induction false} DepartAllRooms(s: State, user: UserId, order: seq<Room>, downs: map<Room, set<Connection>>)
    requires NoEmptyRoom(s)
    ensures DepartAll(s, user, order, downs).rooms == RoomsAfter(s.rooms, user, set room <- order)
    decreases |order|
  {
    if order != [] {
      var t := Depart(s, user, order[0], DownIn(downs, order[0]));
      DepartRooms(s, user, order[0], DownIn(downs, order[0]));
      assert NoEmptyRoom(t);
      DepartAllRooms(t, user, order[1..], downs);
      RoomsTwice(s.rooms, user, order[0], set room <- order[1..]);
      assert (set room <- order) == {order[0]} + set room <- order[1..];
    }
  }

  lemma DisconnectRooms(s: State, socket: Socket, user: UserId, order: seq<Room>, downs: map<Room, set<Connection>>)
    requires NoEmptyRoom(s) && Visits(s, order)
    ensures Step(s, Disconnect(socket, user, order, downs)).rooms == RoomsWithout(s.rooms, user)
  {
    DepartAllRooms(Unregister(s, socket, user), user, order, downs);
  }

  lemma StepKeepsRooms(s: State, op: Op)
    requires NoEmptyRoom(s) && (op.Disconnect? ==> Visits(s, op.order))
    ensures NoEmptyRoom(Step(s, op))
  {
    if op.Disconnect? {
      DisconnectRooms(s, op.socket, op.user, op.order, op.downs);
    }
  }

  lemma {:induction false} RunKeepsRooms(s: State, ops: seq<Op>)
    requires NoEmptyRoom(s) && Legal(s, ops)
    ensures NoEmptyRoom(Run(s, ops))
    decreases |ops|
  {
    if ops != [] {
      StepKeepsRooms(s, ops[0]);
      RunKeepsRooms(Step(s, ops[0]), ops[1..]);
    }
  }

  // No stored room is ever empty, and a disconnect takes its user out of every room and leaves
  // all other memberships alone.
  lemma RoomsOverRuns(ops: seq<Op>, socket: Socket, user: UserId, order: seq<Room>, downs: map<Room, set<Connection>>)
    requires Legal(Empty, ops) && Visits(Run(Empty, ops), order)
    ensures var s := Run(Empty, ops);
            var t := Step(s, Disconnect(socket, user, order, downs));
            && NoEmptyRoom(s)
            && NoEmptyRoom(t)
            && (forall room :: user !in Members(t, room))
            && (forall room, other :: other != user ==> (other in Members(t, room) <==> other in Members(s, room)))
  {
    RunKeepsRooms(Empty, ops);
    DisconnectRooms(Run(Empty, ops), socket, user, order, downs);
  }

  // After a disconnect its user is in no room, and is online exactly when another connection of
  // that user was registered: then the user is online and no room reaches it. The failures of
  // the presence messages have no part in it.
  lemma OneTabClosesAllRooms(s: State, socket: Socket, user: UserId, order: seq<Room>, downs: map<Room, set<Connection>>)
    requires NoEmptyRoom(s) && Visits(s, order)
    ensures var t := Step(s, Disconnect(socket, user, order, downs));
            && (IsOnline(t, user) <==> exists other :: other != socket && Lookup(s, Connection(user, other)).Some?)
            && (forall other :: other != socket ==> Lookup(t, Connection(user, other)) == Lookup(s, Connection(user, other)))
            && Lookup(t, Connection(user, socket)).None?
            && forall room, exclude :: user !in Audience(t, room, exclude)
  {
    var u := Unregister(s, socket, user);
    var t := Step(s, Disconnect(socket, user, order, downs));
    DisconnectRooms(s, socket, user, order, downs);
    LeaverKeepsConnections(u, user, order, downs);
    UnregisterOnline(s, socket, user);
    forall other ensures Lookup(t, Connection(user, other)) == Lookup(u, Connection(user, other)) {
    }
    forall other ensures Lookup(u, Connection(user, other)) == if other == socket then None else Lookup(s, Connection(user, other)) {
      UnregisterLookup(s, socket, user, Connection(user, other));
    }
  }

  lemma UnregisterOnline(s: State, socket: Socket, user: UserId)
    ensures IsOnline(Unregister(s, socket, user), user) <==> exists other :: other != socket && Lookup(s, Connection(user, other)).Some?
  {
    var own := (if user in s.userConnections then s.userConnections[user] else map[]) - {socket};
    if own != map[] {
      var other :| other in own;
      assert other != socket && Lookup(s, Connection(user, other)).Some?;
    }
    assert forall other :: other != socket && Lookup(s, Connection(user, other)).Some? ==> other in own;
  }

  // The presence messages of a disconnect go to the others.
  lemma {:induction false} LeaverKeepsConnections(s: State, user: UserId, order: seq<Room>, downs: map<Room, set<Connection>>)
    ensures var t := DepartAll(s, user, order, downs);
            && (user in t.userConnections <==> user in s.userConnections)
            && (user in s.userConnections ==> t.userConnections[user] == s.userConnections[user])
    decreases |order|
  {
    if order != [] {
      var t := Depart(s, user, order[0], DownIn(downs, order[0]));
      assert user in s.userConnections ==> t.userConnections[user] == s.userConnections[user];
      hide Depart;
      LeaverKeepsConnections(t, user, order[1..], downs);
    }
  }

  lemma NothingFails(s: State, users: set<UserId>, down: set<Connection>)
    requires Targets(s.userConnections, users) * down == {}
    ensures Send(s, users, down).userConnections == s.userConnections
  {
    forall u | u in s.userConnections ensures Without(s.userConnections, {})[u] == s.userConnections[u] {
    }
  }

  lemma WithoutTwice(conns: map<UserId, map<Socket, Key>>, one: set<Connection>, two: set<Connection>)
    ensures Without(Without(conns, one), two) == Without(conns, one + two)
  {
    forall u | u in conns ensures Without(Without(conns, one), two)[u] == Without(conns, one + two)[u] {
    }
  }

  // ---- registrations ----

  // What the history alone says of a connection: the key it was last opened with, unless it has
  // been closed or one of its sends has failed since.
  function Standing(history: seq<Entry>, c: Connection): Option<Key>
    decreases |history|
  {
    if history == [] then None
    else
      var last := history[|history| - 1];
      if last.Opened? && last.connection == c then Some(last.key)
      else if last.Closed? && last.connection == c then None
      else if last.Round? && c in last.failed then None
      else Standing(history[..|history| - 1], c)
  }

  // A round may only try those who stood before it, and drop those it tried.
  ghost predicate Faithful(s: State) {
    && (forall c :: Lookup(s, c) == Standing(s.history, c))
    && (forall k :: 0 <= k < |s.history| && s.history[k].Round? ==> RoundFair(s.history, k))
  }

  ghost predicate RoundFair(history: seq<Entry>, k: nat)
    requires k < |history| && history[k].Round?
  {
    && history[k].failed <= history[k].tried
    && forall c <- history[k].tried :: Standing(history[..k], c).Some?
  }

  lemma OlderRoundsStayFair(history: seq<Entry>, e: Entry)
    requires forall k :: 0 <= k < |history| && history[k].Round? ==> RoundFair(history, k)
    ensures forall k :: 0 <= k < |history| && (history + [e])[k].Round? ==> RoundFair(history + [e], k)
  {
    forall k | 0 <= k < |history| && (history + [e])[k].Round? ensures RoundFair(history + [e], k) {
      assert (history + [e])[..k] == history[..k];
      assert RoundFair(history, k);
    }
  }

  lemma SendFaithful(s: State, users: set<UserId>, down: set<Connection>)
    requires Faithful(s)
    ensures Faithful(Send(s, users, down))
  {
    var t := Send(s, users, down);
    var e := t.history[|s.history|];
    OlderRoundsStayFair(s.history, e);
    assert t.history[..|s.history|] == s.history;
    forall c ensures Lookup(t, c) == Standing(t.history, c) {
      SendLookup(s, users, down, c);
      assert Lookup(s, c) == Standing(s.history, c);
    }
    forall c | c in e.tried ensures Standing(s.history, c).Some? {
      assert Lookup(s, c) == Standing(s.history, c);
    }
    assert RoundFair(t.history, |s.history|);
  }

  // A round drops exactly the addressed connections whose send failed.
  lemma SendLookup(s: State, users: set<UserId>, down: set<Connection>, c: Connection)
    ensures Lookup(Send(s, users, down), c) ==
            if c.user in users && c in down then None else Lookup(s, c)
    ensures c in Targets(s.userConnections, users) <==> c.user in users && Lookup(s, c).Some?
  {
  }

  lemma RegisterFaithful(s: State, socket: Socket, user: UserId, key: Key)
    requires Faithful(s)
    ensures Faithful(Register(s, socket, user, key))
  {
    var t := Register(s, socket, user, key);
    OlderRoundsStayFair(s.history, t.history[|s.history|]);
    assert t.history[..|s.history|] == s.history;
    forall c ensures Lookup(t, c) == Standing(t.history, c) {
      assert Lookup(s, c) == Standing(s.history, c);
    }
  }

  lemma UnregisterFaithful(s: State, socket: Socket, user: UserId)
    requires Faithful(s)
    ensures Faithful(Unregister(s, socket, user))
  {
    var t := Unregister(s, socket, user);
    OlderRoundsStayFair(s.history, t.history[|s.history|]);
    assert t.history[..|s.history|] == s.history;
    forall c ensures Lookup(t, c) == Standing(t.history, c) {
      UnregisterLookup(s, socket, user, c);
      assert Lookup(s, c) == Standing(s.history, c);
    }
  }

  lemma UnregisterLookup(s: State, socket: Socket, user: UserId, c: Connection)
    ensures Lookup(Unregister(s, socket, user), c) ==
            if c == Connection(user, socket) then None else Lookup(s, c)
  {
    var own := (if user in s.userConnections then s.userConnections[user] else map[]) - {socket};
    assert c.user == user && c.socket != socket && Lookup(s, c).Some? ==> c.socket in own;
  }

  // Rooms have no part in it.
  lemma RoomsApart(s: State, rooms: map<Room, set<UserId>>)
    requires Faithful(s)
    ensures Faithful(s.(rooms := rooms))
  {
    forall c ensures Lookup(s.(rooms := rooms), c) == Standing(s.history, c) {
      assert Lookup(s, c) == Standing(s.history, c);
    }
  }

  lemma {:induction false} DepartAllFaithful(s: State, user: UserId, order: seq<Room>, downs: map<Room, set<Connection>>)
    requires Faithful(s)
    ensures Faithful(DepartAll(s, user, order, downs))
    decreases |order|
  {
    if order != [] {
      var down := DownIn(downs, order[0]);
      var t := TakeOut(s, user, order[0]);
      RoomsApart(s, t.rooms);
      if order[0] in t.rooms {
        SendFaithful(t, t.rooms[order[0]], down);
      }
      hide Faithful;
      DepartAllFaithful(Depart(s, user, order[0], down), user, order[1..], downs);
    }
  }

  lemma StepFaithful(s: State, op: Op)
    requires Faithful(s)
    ensures Faithful(Step(s, op))
  {
    hide Faithful, Send, Register, Unregister, TakeOut, DepartAll;
    match op
    case Connect(socket, user, key) => RegisterFaithful(s, socket, user, key);
    case Disconnect(socket, user, order, downs) =>
      UnregisterFaithful(s, socket, user);
      DepartAllFaithful(Unregister(s, socket, user), user, order, downs);
    case JoinRoom(user, room, down) =>
      var members := Members(s, room) + {user};
      RoomsApart(s, s.rooms[room := members]);
      SendFaithful(s.(rooms := s.rooms[room := members]), members, down);
    case LeaveRoom(user, room, down) =>
      var t := TakeOut(s, user, room);
      TakeOutShape(s, user, room);
      RoomsApart(s, t.rooms);
      SendFaithful(t, Members(t, room), down);
    case SendPersonal(user, down) => SendFaithful(s, {user}, down);
    case BroadcastRoom(room, exclude, down) => SendFaithful(s, Audience(s, room, exclude), down);
    case BroadcastAll(down) => SendFaithful(s, s.userConnections.Keys, down);
  }

  lemma TakeOutShape(s: State, user: UserId, room: Room)
    ensures TakeOut(s, user, room) == s.(rooms := TakeOut(s, user, room).rooms)
  {
  }

  lemma {:induction false} RunFaithful(s: State, ops: seq<Op>)
    requires Faithful(s)
    ensures Faithful(Run(s, ops))
    decreases |ops|
  {
    if ops != [] {
      StepFaithful(s, ops[0]);
      hide Faithful, Step;
      RunFaithful(Step(s, ops[0]), ops[1..]);
    }
  }

  // A connection is registered, with its latest key, exactly when it was opened and since then
  // neither closed nor failed by a send; and no send ever goes to one that is not.
  lemma RegisteredMeans(ops: seq<Op>, c: Connection)
    ensures var s := Run(Empty, ops);
            && Lookup(s, c) == Standing(s.history, c)
            && forall k :: 0 <= k < |s.history| && s.history[k].Round? && c in s.history[k].tried
                 ==> Standing(s.history[..k], c).Some?
  {
    RunFaithful(Empty, ops);
    var s := Run(Empty, ops);
    forall k | 0 <= k < |s.history| && s.history[k].Round? && c in s.history[k].tried
      ensures Standing(s.history[..k], c).Some?
    {
      assert RoundFair(s.history, k);
    }
  }

  // ---- a broadcast, user after user ----

  function SendEach(s: State, order: seq<UserId>, down: set<Connection>): State
    decreases |order|
  {
    if order == [] then s else SendEach(Send(s, {order[0]}, down), order[1..], down)
  }

  lemma SplitTargets(s: State, first: set<UserId>, rest: set<UserId>, down: set<Connection>)
    requires first !! rest
    ensures var conns := Send(s, first, down).userConnections;
            && Targets(conns, rest) == Targets(s.userConnections, rest)
            && Targets(s.userConnections, first + rest) == Targets(s.userConnections, first) + Targets(conns, rest)
            && Targets(s.userConnections, first) !! Targets(conns, rest)
            && Send(Send(s, first, down), rest, down).userConnections == Send(s, first + rest, down).userConnections
  {
    var conns := Send(s, first, down).userConnections;
    var one, two := Targets(s.userConnections, first), Targets(s.userConnections, rest);
    WithoutTwice(s.userConnections, one * down, two * down);
    assert Targets(conns, rest) == two;
    assert Targets(s.userConnections, first + rest) == one + two;
    assert (one + two) * down == one * down + two * down;
  }

  // How often a send to the connection was tried.
  function Tries(history: seq<Entry>, c: Connection): nat
    decreases |history|
  {
    if history == [] then 0
    else
      var last := history[|history| - 1];
      Tries(history[..|history| - 1], c) + (if last.Round? && c in last.tried then 1 else 0)
  }

  lemma TriesByRound(s: State, users: set<UserId>, down: set<Connection>, c: Connection)
    ensures Tries(Send(s, users, down).history, c) ==
            Tries(s.history, c) + (if c.user in users && Lookup(s, c).Some? then 1 else 0)
  {
    var t := Send(s, users, down);
    assert t.history[..|s.history|] == s.history;
  }

  lemma {:induction false} SendEachAccount(s: State, order: seq<UserId>, down: set<Connection>, c: Connection)
    requires forall i, j :: 0 <= i < j < |order| ==> order[i] != order[j]
    ensures var each := SendEach(s, order, down);
            && Lookup(each, c) == (if c.user in order && c in down then None else Lookup(s, c))
            && Tries(each.history, c) == Tries(s.history, c) + (if c.user in order && Lookup(s, c).Some? then 1 else 0)
    decreases |order|
  {
    if order != [] {
      var t := Send(s, {order[0]}, down);
      TriesByRound(s, {order[0]}, down, c);
      SendLookup(s, {order[0]}, down, c);
      SendEachAccount(t, order[1..], down, c);
      assert c.user in order <==> c.user == order[0] || c.user in order[1..];
      hide Tries, Send, Lookup;
    }
  }

  // Sending to each user in turn, in any order, registers and tries the same as one round for
  // all of them: one send for each registered connection of each of the users.
  lemma BroadcastOrderIsFree(s: State, order: seq<UserId>, down: set<Connection>, c: Connection)
    requires forall i, j :: 0 <= i < j < |order| ==> order[i] != order[j]
    ensures var one, each := Send(s, (set u <- order), down), SendEach(s, order, down);
            && Lookup(one, c) == Lookup(each, c)
            && Tries(one.history, c) == Tries(each.history, c)
            && Tries(each.history, c) == Tries(s.history, c) + (if c.user in order && Lookup(s, c).Some? then 1 else 0)
  {
    TriesByRound(s, (set u <- order), down, c);
    SendLookup(s, (set u <- order), down, c);
    SendEachAccount(s, order, down, c);
    hide *;
  }

  // ---- who is online ----

  // Being listed as online is meant to say that somebody is there.
  predicate OnlineIsTrue(s: State) {
    forall u <- s.userConnections :: s.userConnections[u] != map[]
  }

  // A round keeps it exactly when every addressed user that had an entry keeps a connection.
  lemma SendKeepsOnlineIff(s: State, users: set<UserId>, down: set<Connection>)
    requires OnlineIsTrue(s)
    ensures OnlineIsTrue(Send(s, users, down)) <==>
            forall u <- s.userConnections :: u in users ==> !AllDown(s, u, down)
  {
    var t := Send(s, users, down);
    forall u | u in s.userConnections && (u !in users || !AllDown(s, u, down)) ensures t.userConnections[u] != map[] {
      assert s.userConnections[u] != map[];
      var ws :| ws in s.userConnections[u] && (u in users ==> Connection(u, ws) !in down);
      assert ws in t.userConnections[u];
    }
    forall u | u in s.userConnections && u in users && AllDown(s, u, down) ensures t.userConnections[u] == map[] {
    }
  }

  ghost predicate AllDown(s: State, user: UserId, down: set<Connection>) {
    forall ws :: Lookup(s, Connection(user, ws)).Some? ==> Connection(user, ws) in down
  }

  predicate Mentions(e: Entry, user: UserId) {
    match e
    case Opened(c, _) => c.user == user
    case Closed(c) => c.user == user
    case Round(_, failed) => exists c <- failed :: c.user == user
  }

  ghost predicate NobodyStands(history: seq<Entry>, user: UserId) {
    forall ws :: Standing(history, Connection(user, ws)).None?
  }

  // What the history alone says of a user listed with nobody there: the last thing that happened
  // to connections of the user was a round of failed sends, and it left none standing.
  ghost predicate Haunted(history: seq<Entry>, user: UserId)
    decreases |history|
  {
    && history != []
    && var last := history[|history| - 1];
       if Mentions(last, user) then last.Round? && NobodyStands(history, user)
       else Haunted(history[..|history| - 1], user)
  }

  predicate ListedAlone(s: State, user: UserId) {
    user in s.userConnections && s.userConnections[user] == map[]
  }

  ghost predicate HauntedRight(s: State) {
    Faithful(s) && forall user :: ListedAlone(s, user) <==> Haunted(s.history, user)
  }

  lemma AloneMeansNobody(s: State, user: UserId)
    requires Faithful(s) && user in s.userConnections
    ensures ListedAlone(s, user) <==> NobodyStands(s.history, user)
  {
    if s.userConnections[user] != map[] {
      var ws :| ws in s.userConnections[user];
      assert Lookup(s, Connection(user, ws)) == Standing(s.history, Connection(user, ws));
    }
    forall ws ensures Lookup(s, Connection(user, ws)) == Standing(s.history, Connection(user, ws)) {
    }
  }

  lemma SendHaunts(s: State, users: set<UserId>, down: set<Connection>)
    requires HauntedRight(s)
    ensures HauntedRight(Send(s, users, down))
  {
    var t := Send(s, users, down);
    var e := t.history[|s.history|];
    SendFaithful(s, users, down);
    assert t.history[..|s.history|] == s.history;
    forall user ensures ListedAlone(t, user) <==> Haunted(t.history, user) {
      if Mentions(e, user) {
        AloneMeansNobody(t, user);
      } else {
        SendSpares(s, users, down, user);
      }
    }
  }

  lemma SendSpares(s: State, users: set<UserId>, down: set<Connection>, user: UserId)
    requires forall c <- Targets(s.userConnections, users) * down :: c.user != user
    ensures var t := Send(s, users, down);
            && (user in t.userConnections <==> user in s.userConnections)
            && (user in s.userConnections ==> t.userConnections[user] == s.userConnections[user])
  {
  }

  lemma RegisterHaunts(s: State, socket: Socket, user: UserId, key: Key)
    requires HauntedRight(s)
    ensures HauntedRight(Register(s, socket, user, key))
  {
    var t := Register(s, socket, user, key);
    RegisterFaithful(s, socket, user, key);
    assert t.history[..|s.history|] == s.history;
    hide Faithful;
    forall u ensures ListedAlone(t, u) <==> Haunted(t.history, u) {
      assert u == user ==> socket in t.userConnections[user];
      assert u != user ==> ListedAlone(t, u) == ListedAlone(s, u);
    }
  }

  lemma UnregisterHaunts(s: State, socket: Socket, user: UserId)
    requires HauntedRight(s)
    ensures HauntedRight(Unregister(s, socket, user))
  {
    var t := Unregister(s, socket, user);
    UnregisterFaithful(s, socket, user);
    assert t.history[..|s.history|] == s.history;
    hide Faithful;
    forall u ensures ListedAlone(t, u) <==> Haunted(t.history, u) {
      assert u != user ==> ListedAlone(t, u) == ListedAlone(s, u);
    }
  }

  lemma RoomsHaunt(s: State, rooms: map<Room, set<UserId>>)
    requires HauntedRight(s)
    ensures HauntedRight(s.(rooms := rooms))
  {
    RoomsApart(s, rooms);
    hide Faithful;
    forall u ensures ListedAlone(s.(rooms := rooms), u) <==> Haunted(s.history, u) {
      assert ListedAlone(s.(rooms := rooms), u) == ListedAlone(s, u);
    }
  }

  lemma {:induction false} DepartAllHaunts(s: State, user: UserId, order: seq<Room>, downs: map<Room, set<Connection>>)
    requires HauntedRight(s)
    ensures HauntedRight(DepartAll(s, user, order, downs))
    decreases |order|
  {
    if order != [] {
      var down := DownIn(downs, order[0]);
      var t := TakeOut(s, user, order[0]);
      RoomsHaunt(s, t.rooms);
      if order[0] in t.rooms {
        SendHaunts(t, t.rooms[order[0]], down);
      }
      hide HauntedRight;
      DepartAllHaunts(Depart(s, user, order[0], down), user, order[1..], downs);
    }
  }

  lemma StepHaunts(s: State, op: Op)
    requires HauntedRight(s)
    ensures HauntedRight(Step(s, op))
  {
    hide HauntedRight, Send, Register, Unregister, TakeOut, DepartAll;
    match op
    case Connect(socket, user, key) => RegisterHaunts(s, socket, user, key);
    case Disconnect(socket, user, order, downs) =>
      UnregisterHaunts(s, socket, user);
      DepartAllHaunts(Unregister(s, socket, user), user, order, downs);
    case JoinRoom(user, room, down) =>
      var members := Members(s, room) + {user};
      RoomsHaunt(s, s.rooms[room := members]);
      SendHaunts(s.(rooms := s.rooms[room := members]), members, down);
    case LeaveRoom(user, room, down) =>
      var t := TakeOut(s, user, room);
      TakeOutShape(s, user, room);
      RoomsHaunt(s, t.rooms);
      SendHaunts(t, Members(t, room), down);
    case SendPersonal(user, down) => SendHaunts(s, {user}, down);
    case BroadcastRoom(room, exclude, down) => SendHaunts(s, Audience(s, room, exclude), down);
    case BroadcastAll(down) => SendHaunts(s, s.userConnections.Keys, down);
  }

  lemma {:induction false} RunHaunts(s: State, ops: seq<Op>)
    requires HauntedRight(s)
    ensures HauntedRight(Run(s, ops))
    decreases |ops|
  {
    if ops != [] {
      StepHaunts(s, ops[0]);
      hide HauntedRight, Step;
      RunHaunts(Step(s, ops[0]), ops[1..]);
    }
  }

  // Over every run: a user is listed as online with nobody there exactly when the last thing
  // that happened to the user's connections was a round of failed sends that left none standing;
  // so the list is right for a user with a standing connection, and otherwise wrong only then.
  lemma OnlineMeans(ops: seq<Op>, user: UserId)
    ensures var s := Run(Empty, ops);
            && (IsOnline(s, user) <==> !NobodyStands(s.history, user) || Haunted(s.history, user))
            && (IsOnline(s, user) && NobodyStands(s.history, user) <==> Haunted(s.history, user))
  {
    RunHaunts(Empty, ops);
    var s := Run(Empty, ops);
    if user in s.userConnections {
      AloneMeansNobody(s, user);
    } else {
      forall ws ensures Standing(s.history, Connection(user, ws)).None? {
        assert Lookup(s, Connection(user, ws)) == Standing(s.history, Connection(user, ws));
      }
    }
  }

  // Once the last connection of a user has been pruned, the user stays listed as online with
  // nobody there through any calls that neither connect nor disconnect that user.
  lemma {:induction false} GhostStaysOnline(s: State, ops: seq<Op>, user: UserId)
    requires user in s.userConnections && s.userConnections[user] == map[]
    requires forall op <- ops :: !(op.Connect? && op.user == user) && !(op.Disconnect? && op.user == user)
    ensures var t := Run(s, ops); IsOnline(t, user) && t.userConnections[user] == map[]
    decreases |ops|
  {
    if ops != [] {
      assert ops[0] in ops;
      if ops[0].Disconnect? {
        GhostSurvivesRooms(Unregister(s, ops[0].socket, ops[0].user), ops[0].user, ops[0].order, ops[0].downs, user);
      }
      GhostStaysOnline(Step(s, ops[0]), ops[1..], user);
    }
  }

  lemma {:induction false} GhostSurvivesRooms(s: State, leaver: UserId, order: seq<Room>, downs: map<Room, set<Connection>>, user: UserId)
    requires user in s.userConnections && s.userConnections[user] == map[]
    ensures var t := DepartAll(s, leaver, order, downs); IsOnline(t, user) && t.userConnections[user] == map[]
    decreases |order|
  {
    if order != [] {
      GhostSurvivesRooms(Depart(s, leaver, order[0], DownIn(downs, order[0])), leaver, order[1..], downs, user);
    }
  }

  // It takes one connection and one failed send.
  lemma OnlineWithNobodyThere(user: UserId, socket: Socket, key: Key)
    ensures var s := Run(Empty, [Connect(socket, user, key), SendPersonal(user, {Connection(user, socket)})]);
            IsOnline(s, user) && s.userConnections[user] == map[] && Targets(s.userConnections, {user}) == {}
  {
    var one := Step(Empty, Connect(socket, user, key));
    var op := SendPersonal(user, {Connection(user, socket)});
    assert Connection(user, socket) in Targets(one.userConnections, {user});
    assert Step(one, op).userConnections[user] == map[];
    assert Run(one, [op]) == Step(one, op);
    assert Run(Empty, [Connect(socket, user, key), op]) == Run(one, [op]);
  }

  // ---- what each call does, in terms of the tables ----

  predicate Registered(s: State, c: Connection) {
    c.user in s.userConnections && c.socket in s.userConnections[c.user]
  }

  // One round to these users: exactly their registered connections are tried, exactly those that
  // are down go, and nobody else's connection, nor any key or room, changes.
  ghost predicate IsRound(s: State, t: State, users: set<UserId>, down: set<Connection>) {
    && |t.history| == |s.history| + 1 && t.history[..|s.history|] == s.history
    && t.history[|s.history|].Round?
    && (forall c :: c in t.history[|s.history|].tried <==> Registered(s, c) && c.user in users)
    && (forall c :: c in t.history[|s.history|].failed <==> Registered(s, c) && c.user in users && c in down)
    && (forall c :: Registered(t, c) <==> Registered(s, c) && !(c.user in users && c in down))
    && (forall c :: Registered(t, c) ==> t.userConnections[c.user][c.socket] == s.userConnections[c.user][c.socket])
    && t.userConnections.Keys == s.userConnections.Keys
    && t.rooms == s.rooms
  }

  lemma SendIsRound(s: State, users: set<UserId>, down: set<Connection>)
    ensures IsRound(s, Send(s, users, down), users, down)
  {
  }

  // Whom each message goes to: a user, everyone, or the members of a room but for the excluded one.
  lemma MessagesMean(s: State, user: UserId, down: set<Connection>)
    ensures IsRound(s, Step(s, SendPersonal(user, down)), {user}, down)
    ensures IsRound(s, Step(s, BroadcastAll(down)), s.userConnections.Keys, down)
  {
    SendIsRound(s, {user}, down);
    SendIsRound(s, s.userConnections.Keys, down);
    hide Send, IsRound;
  }

  lemma BroadcastRoomMeans(s: State, room: Room, exclude: Option<UserId>, down: set<Connection>, users: set<UserId>)
    requires forall u :: u in users <==> room in s.rooms && u in s.rooms[room] && exclude != Some(u)
    ensures IsRound(s, Step(s, BroadcastRoom(room, exclude, down)), users, down)
  {
    assert Audience(s, room, exclude) == users;
    SendIsRound(s, users, down);
    hide Send, IsRound;
  }

  // Joining adds the user to the room and tells all its members, the new one included; leaving
  // takes the user out, deletes a room left empty, and tells those who remain.
  lemma JoinAndLeaveMean(s: State, user: UserId, room: Room, down: set<Connection>)
    ensures var members := if room in s.rooms then s.rooms[room] else {};
            var joined := s.(rooms := s.rooms[room := members + {user}]);
            var left := s.(rooms := if members - {user} == {} then s.rooms - {room} else s.rooms[room := members - {user}]);
            && IsRound(joined, Step(s, JoinRoom(user, room, down)), members + {user}, down)
            && IsRound(left, Step(s, LeaveRoom(user, room, down)), members - {user}, down)
  {
    var members := if room in s.rooms then s.rooms[room] else {};
    SendIsRound(s.(rooms := s.rooms[room := members + {user}]), members + {user}, down);
    var left := TakeOut(s, user, room);
    assert Members(left, room) == members - {user};
    SendIsRound(left, members - {user}, down);
    hide Send;
  }

  // A connection is registered with its key in place of any it had before, and nothing is sent.
  lemma ConnectMeans(s: State, socket: Socket, user: UserId, key: Key)
    ensures var t := Step(s, Connect(socket, user, key));
            && (forall c :: Registered(t, c) <==> Registered(s, c) || c == Connection(user, socket))
            && (forall c :: Registered(t, c) ==>
                  t.userConnections[c.user][c.socket] == if c == Connection(user, socket) then key else s.userConnections[c.user][c.socket])
            && t.rooms == s.rooms && t.history == s.history + [Opened(Connection(user, socket), key)]
  {
  }
}
