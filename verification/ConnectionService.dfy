// The connection manager itself. The parameters down and downs are the network: the connections
// on which a send fails during the call.
module ConnectionService {
  import opened Domain
  import opened ConnectionModel
  import opened ConnectionProofs

  class ConnectionManager {
    var userConnections: map<UserId, map<Socket, Key>>
    var rooms: map<Room, set<UserId>>
    // Every send tried so far.
    var sent: multiset<Connection>
    ghost var history: seq<Entry>

    constructor ()
      ensures Valid() && View() == Empty
    {
      userConnections, rooms, sent, history := map[], map[], multiset{}, [];
    }

    ghost function View(): State
      reads this
    {
      State(userConnections, rooms, history)
    }

    // The sends really tried are those the history speaks of, no more and no fewer.
    ghost predicate Valid()
      reads this
    {
      forall c :: sent[c] == Tries(history, c)
    }

    method Connect(socket: Socket, user: UserId, key: Key)
      requires Valid()
      modifies this
      ensures Valid() && View() == Step(old(View()), Op.Connect(socket, user, key))
    {
      if user !in userConnections {
        userConnections := userConnections[user := map[]];
      }
      var own: map<Socket, Key> := userConnections[user];
      userConnections := userConnections[user := own[socket := key]];
      history := history + [Opened(Connection(user, socket), key)];
      assert history[..|history| - 1] == old(history);
    }

    method SendPersonalRaw(user: UserId, down: set<Connection>)
      modifies this`userConnections, this`sent
      ensures userConnections == Without(old(userConnections), Targets(old(userConnections), {user}) * down)
      ensures forall c :: sent[c] == old(sent)[c] + (if c in Targets(old(userConnections), {user}) then 1 else 0)
    {
      var own := if user in userConnections then userConnections[user] else map[];
      var todo, dead: set<Socket> := own.Keys, {};
      while todo != {}
        invariant todo <= own.Keys
        invariant dead == set ws | ws in own.Keys - todo && Connection(user, ws) in down
        invariant forall c :: sent[c] == old(sent)[c] + (if c.user == user && c.socket in own.Keys - todo then 1 else 0)
        invariant userConnections == old(userConnections)
      {
        var ws :| ws in todo;
        sent := sent + multiset{Connection(user, ws)};
        if Connection(user, ws) in down {
          dead := dead + {ws};
        }
        todo := todo - {ws};
      }
      Prune(user, dead);
      PruningIsWithout(old(userConnections), userConnections, user, dead, down);
    }

    method Prune(user: UserId, dead: set<Socket>)
      requires dead != {} ==> user in userConnections
      modifies this`userConnections
      ensures userConnections.Keys == old(userConnections).Keys
      ensures forall u <- userConnections ::
                userConnections[u] == old(userConnections)[u] - (if u == user then dead else {})
    {
      var todo := dead;
      assert forall u <- userConnections :: userConnections[u] == userConnections[u] - {};
      while todo != {}
        invariant todo <= dead
        invariant userConnections.Keys == old(userConnections).Keys
        invariant forall u <- userConnections ::
                    userConnections[u] == old(userConnections)[u] - (if u == user then dead - todo else {})
      {
        var ws :| ws in todo;
        userConnections := userConnections[user := userConnections[user] - {ws}];
        todo := todo - {ws};
      }
    }

    // The loop of a broadcast: whoever is addressed gets one send on each registered connection.
    method SendToEach(users: set<UserId>, down: set<Connection>)
      requires Valid()
      modifies this`userConnections, this`sent, this`history
      ensures Valid() && View() == Send(old(View()), users, down)
    {
      ghost var tried := Targets(userConnections, users);
      assert Targets(userConnections, {}) == {};
      NothingFails(View(), {}, down);
      assert users - users == {};
      var todo := users;
      while todo != {}
        invariant todo <= users
        invariant userConnections == Without(old(userConnections), Targets(old(userConnections), users - todo) * down)
        invariant forall c :: sent[c] == old(sent)[c] + (if c in Targets(old(userConnections), users - todo) then 1 else 0)
        invariant rooms == old(rooms) && history == old(history)
      {
        var user :| user in todo;
        ghost var visited := users - todo;
        SendPersonalRaw(user, down);
        SplitTargets(old(View()), visited, {user}, down);
        assert users - (todo - {user}) == visited + {user};
        todo := todo - {user};
      }
      assert users - todo == users;
      history := history + [Round(tried, tried * down)];
      assert history[..|history| - 1] == old(history);
    }

    method BroadcastRoomJson(room: Room, exclude: Option<UserId>, down: set<Connection>)
      requires Valid()
      modifies this
      ensures Valid() && View() == Step(old(View()), Op.BroadcastRoom(room, exclude, down))
    {
      SendToEach((if room in rooms then rooms[room] else {}) - (if exclude.Some? then {exclude.value} else {}), down);
    }

    method BroadcastAll(down: set<Connection>)
      requires Valid()
      modifies this
      ensures Valid() && View() == Step(old(View()), Op.BroadcastAll(down))
    {
      SendToEach(userConnections.Keys, down);
    }

    method PushEvent(user: UserId, down: set<Connection>)
      requires Valid()
      modifies this
      ensures Valid() && View() == Step(old(View()), Op.SendPersonal(user, down))
    {
      SendToEach({user}, down);
    }

    method JoinRoom(user: UserId, room: Room, down: set<Connection>)
      requires Valid() && NoEmptyRoom(View())
      modifies this
      ensures Valid() && NoEmptyRoom(View()) && View() == Step(old(View()), Op.JoinRoom(user, room, down))
    {
      if room !in rooms {
        rooms := rooms[room := {}];
      }
      rooms := rooms[room := rooms[room] + {user}];
      SendToEach(rooms[room], down);
    }

    method LeaveRoom(user: UserId, room: Room, down: set<Connection>)
      requires Valid() && NoEmptyRoom(View())
      modifies this
      ensures Valid() && NoEmptyRoom(View()) && View() == Step(old(View()), Op.LeaveRoom(user, room, down))
    {
      if room !in rooms {
        rooms := rooms[room := {}];
      }
      rooms := rooms[room := rooms[room] - {user}];
      if rooms[room] == {} {
        rooms := rooms - {room};
      }
      assert rooms == TakeOut(old(View()), user, room).rooms;
      SendToEach(if room in rooms then rooms[room] else {}, down);
    }

    method RemoveConnection(socket: Socket, user: UserId)
      requires Valid()
      modifies this
      ensures Valid() && View() == Unregister(old(View()), socket, user)
    {
      if user !in userConnections {
        userConnections := userConnections[user := map[]];
      }
      userConnections := userConnections[user := userConnections[user] - {socket}];
      if userConnections[user] == map[] {
        userConnections := userConnections - {user};
      }
      history := history + [Closed(Connection(user, socket))];
      assert history[..|history| - 1] == old(history);
    }

    // The order is that of the dictionary of rooms: any order that has each room once.
    method Disconnect(socket: Socket, user: UserId, downs: map<Room, set<Connection>>) returns (ghost order: seq<Room>)
      requires Valid() && NoEmptyRoom(View())
      modifies this
      ensures Valid() && Visits(old(View()), order)
      ensures forall i, j :: 0 <= i < j < |order| ==> order[i] != order[j]
      ensures View() == Step(old(View()), Op.Disconnect(socket, user, order, downs))
      ensures rooms == RoomsWithout(old(rooms), user)
    {
      RemoveConnection(socket, user);
      ghost var start := View();
      var todo := rooms.Keys;
      order := [];
      while todo != {}
        invariant Valid() && todo <= old(rooms).Keys
        invariant forall room :: room in order <==> room in old(rooms).Keys - todo
        invariant forall i, j :: 0 <= i < j < |order| ==> order[i] != order[j]
        invariant View() == DepartAll(start, user, order, downs)
      {
        var room :| room in todo;
        DepartOne(user, room, DownIn(downs, room));
        DepartLast(start, user, order, room, downs);
        assert room !in order;
        order := order + [room];
        todo := todo - {room};
      }
      DisconnectRooms(old(View()), socket, user, order, downs);
    }

    method DepartOne(user: UserId, room: Room, down: set<Connection>)
      requires Valid()
      modifies this
      ensures Valid() && View() == Depart(old(View()), user, room, down)
    {
      if room in rooms && user in rooms[room] {
        var left := rooms[room] - {user};
        if left == {} {
          rooms := rooms - {room};
        } else {
          rooms := rooms[room := left];
          SendToEach(left, down);
        }
      }
    }
  }

  lemma PruningIsWithout(before: map<UserId, map<Socket, Key>>, after: map<UserId, map<Socket, Key>>,
                         user: UserId, dead: set<Socket>, down: set<Connection>)
    requires after.Keys == before.Keys
    requires forall u <- after :: after[u] == before[u] - (if u == user then dead else {})
    requires forall ws :: ws in dead <==> user in before && ws in before[user] && Connection(user, ws) in down
    ensures after == Without(before, Targets(before, {user}) * down)
  {
    var failed := Targets(before, {user}) * down;
    forall u | u in after ensures after[u] == Without(before, failed)[u] {
      assert forall ws <- before[u] :: Connection(u, ws) in failed <==> u == user && ws in dead;
    }
  }

  lemma {:induction false} DepartLast(s: State, user: UserId, order: seq<Room>, room: Room, downs: map<Room, set<Connection>>)
    ensures DepartAll(s, user, order + [room], downs) ==
            Depart(DepartAll(s, user, order, downs), user, room, DownIn(downs, room))
    decreases |order|
  {
    if order != [] {
      DepartLast(Depart(s, user, order[0], DownIn(downs, order[0])), user, order[1..], room, downs);
      assert (order + [room])[1..] == order[1..] + [room];
    }
  }
}
