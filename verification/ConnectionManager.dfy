/** The connection manager as the objects it is made of.

    `WebSocketConnection` objects are shared between the connection table and the forced-disconnect tasks.
    Every step of `ConnectionState` has a method proved to do to the manager's `View` what the step does, so the run
    theorems there are theorems about these objects; the other methods are parts or sequences of such steps. */
module ConnectionManager {
  import opened Options
  import opened Events
  import CS = ConnectionState

  class WebSocketConnection {
    const id: CS.ConnId
    const user: User
    var rooms: set<Room>
    var sendQueue: seq<Payload>
    var payload: CS.Slot
    var running: bool
    var forcedTasks: nat
    ghost var written: seq<Payload>
    ghost var accepted: seq<Payload>

    constructor (id: CS.ConnId, user: User)
      ensures View() == CS.NewConn(user) && this.id == id && this.user == user
    {
      this.id, this.user := id, user;
      rooms, sendQueue, payload, running, forcedTasks := {}, [], CS.Idle, true, 0;
      written, accepted := [], [];
    }

    ghost function View(): CS.Conn
      reads this
    {
      CS.Conn(user, rooms, sendQueue, payload, written, accepted, running, forcedTasks)
    }

    /** `put_nowait`; false stands for `QueueFull`. */
    method PutNowait(p: Payload, max: int) returns (ok: bool)
      modifies this
      ensures ok == !CS.Full(old(sendQueue), max)
      ensures View() == if ok then CS.Put(old(View()), p) else old(View())
    {
      ok := !(0 < max <= |sendQueue|);
      if ok {
        sendQueue := sendQueue + [p];
        accepted := accepted + [p];
      }
    }

    /** What the broadcast does with one recipient: a full queue starts a forced disconnect. */
    method Offer(p: Payload, max: int)
      modifies this
      ensures View() == CS.Offer(old(View()), p, max)
    {
      var ok := PutNowait(p, max);
      if !ok {
        forcedTasks := forcedTasks + 1;
      }
    }
  }

  /** The loop of `disconnect` and `leave_room` over the rooms to leave, deleting sets that become empty. */
  method ForgetRooms(index: map<Room, set<User>>, rooms: set<Room>, u: User) returns (left: map<Room, set<User>>)
    ensures left == CS.Forget(index, rooms, u)
  {
    left := index;
    var todo := rooms;
    assert index == CS.Forget(index, {}, u) && rooms - todo == {};
    while todo != {}
      invariant todo <= rooms
      invariant left == CS.Forget(index, rooms - todo, u)
    {
      var r :| r in todo;
      CS.ForgetOne(left, r, u);
      CS.ForgetOneMore(index, rooms - todo, r, u);
      assert rooms - (todo - {r}) == rooms - todo + {r};
      if r in left && left[r] != {} {
        var remaining := left[r] - {u};
        left := if remaining == {} then left - {r} else left[r := remaining];
      }
      todo := todo - {r};
    }
    assert rooms - todo == rooms;
  }

  /** The loop of the forced cleanup over the old connection's rooms: emptied sets are left behind. */
  method EraseRooms(index: map<Room, set<User>>, rooms: set<Room>, u: User) returns (left: map<Room, set<User>>)
    ensures left == CS.Erase(index, rooms, u)
  {
    left := index;
    var todo := rooms;
    assert index == CS.Erase(index, {}, u) && rooms - todo == {};
    while todo != {}
      invariant todo <= rooms
      invariant left == CS.Erase(index, rooms - todo, u)
    {
      var r :| r in todo;
      CS.EraseOne(left, r, u);
      CS.EraseOneMore(index, rooms - todo, r, u);
      assert rooms - (todo - {r}) == rooms - todo + {r};
      if r in left && left[r] != {} {
        left := left[r := left[r] - {u}];
      }
      todo := todo - {r};
    }
    assert rooms - todo == rooms;
  }

  class ConnectionManager {
    const max: int
    var connections: map<User, WebSocketConnection>
    var roomConnections: map<Room, set<User>>
    var connecting: Option<CS.Connecting>
    var nextId: CS.ConnId
    ghost var all: map<CS.ConnId, WebSocketConnection>

    ghost predicate Valid()
      reads this
    {
      && (forall c <- all :: c < nextId && all[c].id == c)
      && (forall u <- connections ::
            connections[u].id in all && all[connections[u].id] == connections[u] && connections[u].user == u)
    }

    ghost function Ids(): map<User, CS.ConnId>
      reads this
    {
      map u | u in connections :: connections[u].id
    }

    ghost function Conns(): map<CS.ConnId, CS.Conn>
      reads this, all.Values
    {
      map c | c in all :: all[c].View()
    }

    ghost function View(): CS.Manager
      reads this, all.Values
    {
      CS.Manager(max, Ids(), roomConnections, Conns(), connecting)
    }

    twostate lemma OneUserRemoved(u: User)
      requires connections == old(connections) - {u}
      ensures Ids() == old(Ids()) - {u}
    {
    }

    /** Changing one connection object changes one entry of the view. */
    twostate lemma OneConnChanged(conn: WebSocketConnection)
      requires old(Valid()) && all == old(all) && old(conn.id in all && all[conn.id] == conn)
      requires forall c <- all :: all[c] != conn ==> unchanged(all[c])
      ensures Conns() == old(Conns())[conn.id := conn.View()]
    {
      forall c <- all ensures Conns()[c] == old(Conns())[conn.id := conn.View()][c] {
        assert all[c] != conn ==> c != conn.id;
      }
    }

    constructor (max: int)
      ensures Valid() && View() == CS.Empty(max)
    {
      this.max := max;
      connections, roomConnections, connecting, nextId, all := map[], map[], None, 0, map[];
    }

    /** The cleanup block of `_force_disconnect`: pops by user, whichever connection is registered. */
    method ForceCleanup(conn: WebSocketConnection)
      requires Valid() && conn.id in all && all[conn.id] == conn
      modifies this`connections, this`roomConnections, conn`running
      ensures Valid() && View() == CS.ForceCleanup(old(View()), conn.id)
    {
      connections := connections - {conn.user};
      roomConnections := EraseRooms(roomConnections, conn.rooms, conn.user);
      conn.running := false;
      OneUserRemoved(conn.user);
      OneConnChanged(conn);
    }

    /** The overflow task reaching its cleanup. */
    method RunForcedTask(conn: WebSocketConnection)
      requires Valid() && conn.id in all && all[conn.id] == conn && conn.forcedTasks > 0
      modifies this`connections, this`roomConnections, conn`running, conn`forcedTasks
      ensures Valid() && View() == CS.Cleanup(old(View()), conn.id)
    {
      conn.forcedTasks := conn.forcedTasks - 1;
      OneConnChanged(conn);
      ForceCleanup(conn);
    }

    /** `connect` up to its suspension inside `_force_disconnect`; the lock is now held. */
    method BeginConnect(u: User)
      requires Valid() && connecting.None?
      modifies this`connecting
      ensures Valid() && View() == CS.ConnectBegin(old(View()), u)
    {
      connecting := Some(CS.Connecting(u, if u in connections then Some(connections[u].id) else None));
    }

    /** Creating the connection object, its drain task and its table entry. */
    method Register(u: User) returns (conn: WebSocketConnection)
      requires Valid()
      modifies this`connections, this`nextId, this`all, this`connecting
      ensures Valid() && fresh(conn) && conn.id !in old(all) && all == old(all)[conn.id := conn]
      ensures roomConnections == old(roomConnections) && connecting.None?
      ensures Ids() == old(Ids())[u := conn.id] && Conns() == old(Conns())[conn.id := CS.NewConn(u)]
    {
      conn := new WebSocketConnection(nextId, u);
      connecting, nextId := None, nextId + 1;
      connections, all := connections[u := conn], all[conn.id := conn];
    }

    /** The rest of `connect`: the cleanup of the previous connection `old_conn`, then registration, with no
        suspension in between. */
    method FinishConnect(previous: Option<WebSocketConnection>) returns (conn: WebSocketConnection)
      requires Valid() && connecting.Some?
      requires connecting.value.previous == (if previous.Some? then Some(previous.value.id) else None)
      requires previous.Some? ==> previous.value.id in all && all[previous.value.id] == previous.value
      modifies this, if previous.Some? then {previous.value} else {}
      ensures Valid() && fresh(conn) && conn.id !in old(all) && all == old(all)[conn.id := conn]
      ensures CS.CanFinish(old(View())) && View() == CS.ConnectFinish(old(View()), conn.id)
    {
      var u := connecting.value.user;
      AbortConnect(previous);
      conn := Register(u);
    }

    /** `connect` cancelled inside `_force_disconnect`: the cleanup still runs, the lock is released, nothing is
        registered. */
    method AbortConnect(previous: Option<WebSocketConnection>)
      requires Valid() && connecting.Some?
      requires connecting.value.previous == (if previous.Some? then Some(previous.value.id) else None)
      requires previous.Some? ==> previous.value.id in all && all[previous.value.id] == previous.value
      modifies this`connections, this`roomConnections, this`connecting
      modifies if previous.Some? then {previous.value} else {}
      ensures Valid() && CS.CanFinish(old(View())) && View() == CS.ConnectAbort(old(View()))
    {
      if previous.Some? {
        ForceCleanup(previous.value);
      }
      connecting := None;
    }

    method Disconnect(u: User)
      requires Valid() && connecting.None?
      modifies this`connections, this`roomConnections, connections.Values`running
      ensures Valid() && View() == CS.Disconnect(old(View()), u)
    {
      if u in connections {
        var conn := connections[u];
        connections := connections - {u};
        roomConnections := ForgetRooms(roomConnections, conn.rooms, u);
        conn.running := false;
        OneUserRemoved(u);
        OneConnChanged(conn);
      }
    }

    method JoinRoom(u: User, r: Room)
      requires Valid() && connecting.None?
      modifies this`roomConnections, connections.Values`rooms
      ensures Valid() && View() == CS.JoinRoom(old(View()), u, r)
    {
      if u in connections {
        var conn := connections[u];
        conn.rooms := conn.rooms + {r};
        OneConnChanged(conn);
        if r !in roomConnections {
          roomConnections := roomConnections[r := {}];
        }
        roomConnections := roomConnections[r := roomConnections[r] + {u}];
        assert Ids() == old(Ids()) && Conns() == old(Conns())[conn.id := conn.View()];
        assert roomConnections == old(roomConnections)[r := CS.Members(old(roomConnections), r) + {u}];
      }
    }

    method LeaveRoom(u: User, r: Room)
      requires Valid() && connecting.None?
      modifies this`roomConnections, connections.Values`rooms
      ensures Valid() && View() == CS.LeaveRoom(old(View()), u, r)
    {
      if u in connections {
        var conn := connections[u];
        conn.rooms := conn.rooms - {r};
        roomConnections := ForgetRooms(roomConnections, {r}, u);
        OneConnChanged(conn);
      }
    }

    /** One turn of the broadcast loop. */
    method OfferTo(u: User, p: Payload, exclude: Option<User>)
      requires Valid()
      modifies connections.Values
      ensures Valid() && View() == CS.Spread(old(View()), {u}, p, exclude)
    {
      if exclude != Some(u) && u in connections {
        var conn := connections[u];
        conn.Offer(p, max);
        OneConnChanged(conn);
      }
      CS.SpreadOne(old(View()), u, p, exclude);
    }

    /** The copied user set is visited in whatever order; the outcome is the same for every order. */
    method BroadcastToRoom(r: Room, p: Payload, exclude: Option<User>)
      requires Valid()
      modifies connections.Values
      ensures Valid() && View() == CS.Broadcast(old(View()), r, p, exclude)
    {
      var userIds := if r in roomConnections then roomConnections[r] else {};
      var todo := userIds;
      CS.SpreadNone(View(), p, exclude);
      assert userIds - todo == {};
      while todo != {}
        invariant todo <= userIds
        invariant View() == CS.Spread(old(View()), userIds - todo, p, exclude)
      {
        var u :| u in todo;
        OfferTo(u, p, exclude);
        CS.SpreadOneMore(old(View()), userIds - todo, u, p, exclude);
        assert userIds - (todo - {u}) == userIds - todo + {u};
        todo := todo - {u};
      }
      assert userIds - todo == userIds;
    }

    method SendToUser(u: User, p: Payload)
      requires Valid()
      modifies connections.Values
      ensures Valid() && View() == CS.SendTo(old(View()), u, p)
    {
      if u in connections {
        var ok := connections[u].PutNowait(p, max);
        OneConnChanged(connections[u]);
      }
    }

    /** The drain task getting the oldest payload; the send is now under way. */
    method GetPayload(conn: WebSocketConnection)
      requires Valid() && conn.id in all && all[conn.id] == conn
      requires conn.running && conn.payload.Idle? && conn.sendQueue != []
      modifies conn`sendQueue, conn`payload
      ensures Valid() && View() == CS.Take(old(View()), conn.id)
      ensures conn.sendQueue == old(conn.sendQueue)[1..] && conn.payload == CS.InFlight(old(conn.sendQueue)[0])
    {
      conn.payload := CS.InFlight(conn.sendQueue[0]);
      conn.sendQueue := conn.sendQueue[1..];
      OneConnChanged(conn);
    }

    /** The send returning, or ending the loop: it failed, found the socket closed or was cancelled. */
    method SettleSend(conn: WebSocketConnection, sent: bool)
      requires Valid() && conn.id in all && all[conn.id] == conn && conn.payload.InFlight?
      modifies conn`payload, conn`running, conn`written
      ensures Valid() && View() == CS.Resolve(old(View()), conn.id, sent)
      ensures conn.View() == CS.Settle(old(conn.View()), sent)
    {
      if sent {
        conn.written := conn.written + [conn.payload.payload];
        conn.payload := CS.Idle;
      } else {
        conn.running, conn.payload := false, CS.Lost(conn.payload.payload);
      }
      OneConnChanged(conn);
    }

    /** One turn of the drain loop that nobody interrupts. */
    method SendNext(conn: WebSocketConnection, ok: bool)
      requires Valid() && conn.id in all && all[conn.id] == conn
      requires conn.running && conn.payload.Idle? && conn.sendQueue != []
      modifies conn`sendQueue, conn`payload, conn`running, conn`written
      ensures Valid() && CS.CanTake(old(View()), conn.id)
      ensures View() == CS.SendOne(old(View()), conn.id, ok)
      ensures conn.running == ok && (ok ==> conn.payload.Idle?)
      ensures |conn.written| == |old(conn.written)| + if ok then 1 else 0
    {
      GetPayload(conn);
      SettleSend(conn, ok);
    }

    /** The drain task left to itself: `outcomes[k]` says whether the `k`-th send succeeds. It stops at the first
        failure; the payloads it wrote are, in order, the oldest ones of the queue. */
    method ProcessSendQueue(conn: WebSocketConnection, outcomes: seq<bool>) returns (sent: nat)
      requires Valid() && conn.id in all && all[conn.id] == conn && conn.running && conn.payload.Idle?
      modifies conn`sendQueue, conn`payload, conn`running, conn`written
      ensures Valid() && View() == CS.Drain(old(View()), conn.id, outcomes)
      ensures CS.Drained(old(conn.View()), conn.View(), outcomes, sent)
    {
      sent := 0;
      ghost var start, now, tried := View(), View(), 0;
      while conn.running && sent < |outcomes| && conn.sendQueue != []
        invariant Valid() && sent <= tried <= |outcomes| && (conn.running ==> conn.payload.Idle? && tried == sent)
        invariant View() == now && conn.id in now.conns && now.conns[conn.id] == conn.View()
        invariant |conn.written| == |old(conn.written)| + sent
        invariant CS.Drain(now, conn.id, outcomes[tried..]) == CS.Drain(start, conn.id, outcomes)
      {
        SendNext(conn, outcomes[sent]);
        CS.DrainTurn(now, conn.id, outcomes, sent);
        now, tried := View(), tried + 1;
        if conn.running {
          sent := sent + 1;
        }
      }
      CS.DrainOver(now, conn.id, outcomes, tried);
      ghost var n := CS.DrainWrites(start, conn.id, outcomes);
    }
  }
}
