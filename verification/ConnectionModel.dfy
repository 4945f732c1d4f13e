// The WebSocket connection manager on values. A call is one step; which of the sends it makes
// fail is up to the network and given with the call.
module ConnectionModel {
  import opened Domain

  type UserId = nat
  type Socket = nat
  type Key = nat
  type Room = string

  datatype Connection = Connection(user: UserId, socket: Socket)

  // What happened to connections, one entry for each round of sends.
  datatype Entry =
    | Opened(connection: Connection, key: Key)
    | Closed(connection: Connection)
    | Round(tried: set<Connection>, failed: set<Connection>)

  datatype State = State(
    userConnections: map<UserId, map<Socket, Key>>,
    rooms: map<Room, set<UserId>>,
    history: seq<Entry>)

  const Empty: State := State(map[], map[], [])

  datatype Op =
    | Connect(socket: Socket, user: UserId, key: Key)
    | Disconnect(socket: Socket, user: UserId, order: seq<Room>, downs: map<Room, set<Connection>>)
    | JoinRoom(user: UserId, room: Room, down: set<Connection>)
    | LeaveRoom(user: UserId, room: Room, down: set<Connection>)
    | SendPersonal(user: UserId, down: set<Connection>)
    | BroadcastRoom(room: Room, exclude: Option<UserId>, down: set<Connection>)
    | BroadcastAll(down: set<Connection>)

  // ---- the tables ----

  function Lookup(s: State, c: Connection): Option<Key> {
    if c.user in s.userConnections && c.socket in s.userConnections[c.user]
    then Some(s.userConnections[c.user][c.socket])
    else None
  }

  function Members(s: State, room: Room): set<UserId> {
    if room in s.rooms then s.rooms[room] else {}
  }

  function Audience(s: State, room: Room, exclude: Option<UserId>): set<UserId> {
    Members(s, room) - (if exclude.Some? then {exclude.value} else {})
  }

  // The registered connections of a group of users.
  function Targets(conns: map<UserId, map<Socket, Key>>, users: set<UserId>): set<Connection> {
    set u, ws | u in conns && u in users && ws in conns[u] :: Connection(u, ws)
  }

  function Without(conns: map<UserId, map<Socket, Key>>, failed: set<Connection>): map<UserId, map<Socket, Key>> {
    map u | u in conns :: map ws | ws in conns[u] && Connection(u, ws) !in failed :: conns[u][ws]
  }

  // One round: every registered connection of the users is tried once and the failed ones go.
  function Send(s: State, users: set<UserId>, down: set<Connection>): State {
    var tried := Targets(s.userConnections, users);
    s.(userConnections := Without(s.userConnections, tried * down),
       history := s.history + [Round(tried, tried * down)])
  }

  function Register(s: State, socket: Socket, user: UserId, key: Key): State {
    var own := if user in s.userConnections then s.userConnections[user] else map[];
    s.(userConnections := s.userConnections[user := own[socket := key]],
       history := s.history + [Opened(Connection(user, socket), key)])
  }

  function Unregister(s: State, socket: Socket, user: UserId): State {
    var own := (if user in s.userConnections then s.userConnections[user] else map[]) - {socket};
    s.(userConnections := if own == map[] then s.userConnections - {user} else s.userConnections[user := own],
       history := s.history + [Closed(Connection(user, socket))])
  }

  function TakeOut(s: State, user: UserId, room: Room): State {
    var left := Members(s, room) - {user};
    s.(rooms := if left == {} then s.rooms - {room} else s.rooms[room := left])
  }

  // One turn of the loop over the rooms in disconnect.
  function Depart(s: State, user: UserId, room: Room, down: set<Connection>): State {
    if user !in Members(s, room) then s
    else
      var t := TakeOut(s, user, room);
      if room in t.rooms then Send(t, t.rooms[room], down) else t
  }

  function DownIn(downs: map<Room, set<Connection>>, room: Room): set<Connection> {
    if room in downs then downs[room] else {}
  }

  function DepartAll(s: State, user: UserId, order: seq<Room>, downs: map<Room, set<Connection>>): State
    decreases |order|
  {
    if order == [] then s
    else DepartAll(Depart(s, user, order[0], DownIn(downs, order[0])), user, order[1..], downs)
  }

  function Step(s: State, op: Op): State {
    match op
    case Connect(socket, user, key) => Register(s, socket, user, key)
    case Disconnect(socket, user, order, downs) => DepartAll(Unregister(s, socket, user), user, order, downs)
    case JoinRoom(user, room, down) =>
      var members := Members(s, room) + {user};
      Send(s.(rooms := s.rooms[room := members]), members, down)
    case LeaveRoom(user, room, down) =>
      var t := TakeOut(s, user, room);
      Send(t, Members(t, room), down)
    case SendPersonal(user, down) => Send(s, {user}, down)
    case BroadcastRoom(room, exclude, down) => Send(s, Audience(s, room, exclude), down)
    case BroadcastAll(down) => Send(s, s.userConnections.Keys, down)
  }

  // The loop in disconnect visits every room there is, in some order.
  predicate Visits(s: State, order: seq<Room>) {
    (forall room <- s.rooms :: room in order) && (forall room <- order :: room in s.rooms)
  }

  predicate Legal(s: State, ops: seq<Op>)
    decreases |ops|
  {
    ops == [] || ((ops[0].Disconnect? ==> Visits(s, ops[0].order)) && Legal(Step(s, ops[0]), ops[1..]))
  }

  function Run(s: State, ops: seq<Op>): State
    decreases |ops|
  {
    if ops == [] then s else Run(Step(s, ops[0]), ops[1..])
  }

  predicate IsOnline(s: State, user: UserId) {
    user in s.userConnections
  }
}
