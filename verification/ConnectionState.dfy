/** Value-level state machine of the connection manager.

    `registered` is `_connections`, `index` is `_room_connections`, and `conns` is every connection object
    ever created: a forced-disconnect task keeps working on its object after the object left `registered`.
    Each step is one stretch of code without a suspension point. */
module ConnectionState {
  import opened Options
  import opened Events

  type ConnId = nat

  /** The drain task's local `payload`: none, handed to the socket, or abandoned when its loop ended. */
  datatype Slot = Idle | InFlight(payload: Payload) | Lost(payload: Payload) {
    function Contents(): seq<Payload> {
      if Idle? then [] else [payload]
    }
  }

  /** `accepted` is history only: every payload `put_nowait` took. `doomed` counts the forced-disconnect
      tasks created for this connection that have not reached their cleanup block yet. */
  datatype Conn = Conn(
    user: User,
    rooms: set<Room>,
    queue: seq<Payload>,
    slot: Slot,
    written: seq<Payload>,
    accepted: seq<Payload>,
    running: bool,
    doomed: nat)

  /** A `connect` call that holds the lock and is suspended inside `_force_disconnect(previous)`. */
  datatype Connecting = Connecting(user: User, previous: Option<ConnId>)

  datatype Manager = Manager(
    max: int,
    registered: map<User, ConnId>,
    index: map<Room, set<User>>,
    conns: map<ConnId, Conn>,
    connecting: Option<Connecting>)

  function Empty(max: int): Manager {
    Manager(max, map[], map[], map[], None)
  }

  function NewConn(u: User): Conn {
    Conn(u, {}, [], Idle, [], [], true, 0)
  }

  // ---------------------------------------------------------------- index updates

  function Members(index: map<Room, set<User>>, r: Room): set<User> {
    if r in index then index[r] else {}
  }

  /** Removal as `disconnect` and `leave_room` do it: a set that becomes empty is deleted. */
  function Forget(index: map<Room, set<User>>, rooms: set<Room>, u: User): map<Room, set<User>> {
    map r | r in index && !(r in rooms && index[r] != {} && index[r] - {u} == {}) ::
      if r in rooms then index[r] - {u} else index[r]
  }

  /** Removal as the forced cleanup does it: emptied sets stay behind. */
  function Erase(index: map<Room, set<User>>, rooms: set<Room>, u: User): map<Room, set<User>> {
    map r | r in index :: if r in rooms then index[r] - {u} else index[r]
  }

  /** Forgetting room by room is forgetting them all. */
  lemma ForgetOneMore(index: map<Room, set<User>>, rooms: set<Room>, r: Room, u: User)
    requires r !in rooms
    ensures Forget(Forget(index, rooms, u), {r}, u) == Forget(index, rooms + {r}, u)
  {
  }

  /** One turn of the forgetting loop, with its two tests. */
  lemma ForgetOne(index: map<Room, set<User>>, r: Room, u: User)
    ensures Forget(index, {r}, u) ==
            if r !in index || index[r] == {} then index
            else if index[r] - {u} == {} then index - {r}
            else index[r := index[r] - {u}]
  {
    if r in index && index[r] == {} {
      assert index[r] - {u} == index[r];
    }
    assert forall q <- index :: q != r ==> q in Forget(index, {r}, u) && Forget(index, {r}, u)[q] == index[q];
  }

  lemma EraseOneMore(index: map<Room, set<User>>, rooms: set<Room>, r: Room, u: User)
    ensures Erase(Erase(index, rooms, u), {r}, u) == Erase(index, rooms + {r}, u)
  {
    var twice, both := Erase(Erase(index, rooms, u), {r}, u), Erase(index, rooms + {r}, u);
    forall q <- index ensures twice[q] == both[q] {
      assert index[q] - {u} - {u} == index[q] - {u};
    }
  }

  /** One turn of the erasing loop. */
  lemma EraseOne(index: map<Room, set<User>>, r: Room, u: User)
    ensures Erase(index, {r}, u) ==
            if r !in index || index[r] == {} then index else index[r := index[r] - {u}]
  {
    if r in index && index[r] == {} {
      assert index[r] - {u} == index[r];
    }
  }

  // ---------------------------------------------------------------- steps

  function ForceCleanup(m: Manager, c: ConnId): Manager
    requires c in m.conns
  {
    var conn := m.conns[c];
    m.(registered := m.registered - {conn.user},
       index := Erase(m.index, conn.rooms, conn.user),
       conns := m.conns[c := conn.(running := false)])
  }

  function ConnectBegin(m: Manager, u: User): Manager {
    m.(connecting := Some(Connecting(u, Lookup(m.registered, u))))
  }

  predicate CanFinish(m: Manager) {
    m.connecting.Some? && (m.connecting.value.previous.Some? ==> m.connecting.value.previous.value in m.conns)
  }

  function ConnectAbort(m: Manager): Manager
    requires CanFinish(m)
  {
    var previous := m.connecting.value.previous;
    (if previous.Some? then ForceCleanup(m, previous.value) else m).(connecting := None)
  }

  function ConnectFinish(m: Manager, id: ConnId): Manager
    requires CanFinish(m)
  {
    var u := m.connecting.value.user;
    var cleared := ConnectAbort(m);
    cleared.(registered := cleared.registered[u := id], conns := cleared.conns[id := NewConn(u)])
  }

  predicate Registers(m: Manager, u: User, c: ConnId) {
    u in m.registered && m.registered[u] == c && c in m.conns
  }

  function Disconnect(m: Manager, u: User): Manager
    requires u in m.registered ==> m.registered[u] in m.conns
  {
    if u !in m.registered then m else
      var c := m.registered[u];
      m.(registered := m.registered - {u},
         index := Forget(m.index, m.conns[c].rooms, u),
         conns := m.conns[c := m.conns[c].(running := false)])
  }

  function JoinRoom(m: Manager, u: User, r: Room): Manager
    requires u in m.registered ==> m.registered[u] in m.conns
  {
    if u !in m.registered then m else
      var c := m.registered[u];
      m.(conns := m.conns[c := m.conns[c].(rooms := m.conns[c].rooms + {r})],
         index := m.index[r := Members(m.index, r) + {u}])
  }

  function LeaveRoom(m: Manager, u: User, r: Room): Manager
    requires u in m.registered ==> m.registered[u] in m.conns
  {
    if u !in m.registered then m else
      var c := m.registered[u];
      m.(conns := m.conns[c := m.conns[c].(rooms := m.conns[c].rooms - {r})],
         index := Forget(m.index, {r}, u))
  }

  /** `asyncio.Queue.full`: a non-positive maximum means unbounded. */
  predicate Full(queue: seq<Payload>, max: int) {
    0 < max <= |queue|
  }

  function Put(conn: Conn, p: Payload): Conn {
    conn.(queue := conn.queue + [p], accepted := conn.accepted + [p])
  }

  /** One recipient of a broadcast: enqueue, or start a forced disconnect when the queue is full. */
  function Offer(conn: Conn, p: Payload, max: int): Conn {
    if Full(conn.queue, max) then conn.(doomed := conn.doomed + 1) else Put(conn, p)
  }

  predicate Receives(m: Manager, users: set<User>, exclude: Option<User>, c: ConnId)
    requires c in m.conns
  {
    var u := m.conns[c].user;
    u in users && exclude != Some(u) && Registers(m, u, c)
  }

  /** Offering `p` to the registered connections of `users`, whatever the order. */
  function Spread(m: Manager, users: set<User>, p: Payload, exclude: Option<User>): Manager {
    m.(conns := map c | c in m.conns ::
         if Receives(m, users, exclude, c) then Offer(m.conns[c], p, m.max) else m.conns[c])
  }

  lemma SpreadNone(m: Manager, p: Payload, exclude: Option<User>)
    ensures Spread(m, {}, p, exclude) == m
  {
  }

  /** One turn of the broadcast loop, with its tests. */
  lemma SpreadOne(m: Manager, u: User, p: Payload, exclude: Option<User>)
    requires forall v <- m.registered :: m.registered[v] in m.conns && m.conns[m.registered[v]].user == v
    ensures Spread(m, {u}, p, exclude) ==
            if exclude == Some(u) || u !in m.registered then m
            else m.(conns := m.conns[m.registered[u] := Offer(m.conns[m.registered[u]], p, m.max)])
  {
  }

  /** Offering user by user is offering to them all, so the order does not matter. */
  lemma SpreadOneMore(m: Manager, users: set<User>, u: User, p: Payload, exclude: Option<User>)
    requires u !in users
    ensures Spread(Spread(m, users, p, exclude), {u}, p, exclude) == Spread(m, users + {u}, p, exclude)
  {
  }

  function Broadcast(m: Manager, r: Room, p: Payload, exclude: Option<User>): Manager {
    Spread(m, Members(m.index, r), p, exclude)
  }

  /** `send_to_user`: a full queue drops the payload and nothing else happens. */
  function SendTo(m: Manager, u: User, p: Payload): Manager
    requires u in m.registered ==> m.registered[u] in m.conns
  {
    if u !in m.registered || Full(m.conns[m.registered[u]].queue, m.max) then m else
      var c := m.registered[u];
      m.(conns := m.conns[c := Put(m.conns[c], p)])
  }

  predicate CanTake(m: Manager, c: ConnId) {
    c in m.conns && m.conns[c].running && m.conns[c].slot.Idle? && m.conns[c].queue != []
  }

  function Fetch(conn: Conn): Conn
    requires conn.queue != []
  {
    conn.(queue := conn.queue[1..], slot := InFlight(conn.queue[0]))
  }

  function Take(m: Manager, c: ConnId): Manager
    requires CanTake(m, c)
  {
    m.(conns := m.conns[c := Fetch(m.conns[c])])
  }

  predicate CanResolve(m: Manager, c: ConnId) {
    c in m.conns && m.conns[c].slot.InFlight?
  }

  /** The socket took the payload, or the send failed, found the socket closed or was cancelled. */
  function Settle(conn: Conn, sent: bool): Conn
    requires conn.slot.InFlight?
  {
    if sent then conn.(written := conn.written + [conn.slot.payload], slot := Idle)
    else conn.(running := false, slot := Lost(conn.slot.payload))
  }

  function Resolve(m: Manager, c: ConnId, sent: bool): Manager
    requires CanResolve(m, c)
  {
    m.(conns := m.conns[c := Settle(m.conns[c], sent)])
  }

  /** The drain task on its own, one outcome per send, until its queue is empty, a send fails or `outcomes` end. */
  function Drain(m: Manager, c: ConnId, outcomes: seq<bool>): Manager
    decreases |outcomes|
  {
    if outcomes == [] || !CanTake(m, c) then m else Drain(SendOne(m, c, outcomes[0]), c, outcomes[1..])
  }

  /** A payload taken and its send settled, with nothing in between. */
  function SendOne(m: Manager, c: ConnId, sent: bool): Manager
    requires CanTake(m, c)
  {
    Resolve(Take(m, c), c, sent)
  }

  lemma DrainTurn(m: Manager, c: ConnId, outcomes: seq<bool>, k: nat)
    requires CanTake(m, c) && k < |outcomes|
    ensures Drain(m, c, outcomes[k..]) == Drain(SendOne(m, c, outcomes[k]), c, outcomes[k + 1..])
  {
    assert outcomes[k..][1..] == outcomes[k + 1..];
  }

  lemma DrainOver(m: Manager, c: ConnId, outcomes: seq<bool>, k: nat)
    requires k <= |outcomes| && (k == |outcomes| || !CanTake(m, c))
    ensures Drain(m, c, outcomes[k..]) == m
  {
  }

  /** Draining `conn` for `sent` successful sends and, if the loop ended, one failed one gives `conn'`. */
  ghost predicate Drained(conn: Conn, conn': Conn, outcomes: seq<bool>, sent: nat) {
    && sent <= |conn.queue| && sent <= |outcomes| && (forall k :: 0 <= k < sent ==> outcomes[k])
    && conn'.written == conn.written + conn.queue[..sent]
    && if conn'.running then
         && conn'.queue == conn.queue[sent..] && conn'.slot.Idle?
         && (sent == |outcomes| || sent == |conn.queue|)
       else
         && sent < |outcomes| && !outcomes[sent] && sent < |conn.queue|
         && conn'.slot == Lost(conn.queue[sent]) && conn'.queue == conn.queue[sent + 1..]
  }

  lemma DrainedOneMore(conn: Conn, conn': Conn, outcomes: seq<bool>, sent: nat)
    requires conn.queue != [] && outcomes != [] && outcomes[0]
    requires Drained(Settle(Fetch(conn), true), conn', outcomes[1..], sent)
    ensures Drained(conn, conn', outcomes, sent + 1)
  {
    assert conn.queue == [conn.queue[0]] + conn.queue[1..];
    assert conn.queue[..sent + 1] == [conn.queue[0]] + conn.queue[1..][..sent];
    assert forall k :: 0 < k <= sent ==> outcomes[k] == outcomes[1..][k - 1];
  }

  /** It writes the oldest payloads in order up to the first failure, loses the one that failed, leaves the rest, and
      touches no other connection. */
  lemma {:induction false} DrainWrites(m: Manager, c: ConnId, outcomes: seq<bool>) returns (sent: nat)
    requires c in m.conns && m.conns[c].running && m.conns[c].slot.Idle?
    ensures c in Drain(m, c, outcomes).conns && Drained(m.conns[c], Drain(m, c, outcomes).conns[c], outcomes, sent)
    ensures Drain(m, c, outcomes) == m.(conns := m.conns[c := Drain(m, c, outcomes).conns[c]])
    decreases |outcomes|
  {
    sent := 0;
    if outcomes != [] && CanTake(m, c) {
      var next := SendOne(m, c, outcomes[0]);
      if outcomes[0] {
        var more := DrainWrites(next, c, outcomes[1..]);
        sent := more + 1;
        DrainedOneMore(m.conns[c], Drain(m, c, outcomes).conns[c], outcomes, more);
      }
    }
  }

  predicate CanCleanup(m: Manager, c: ConnId) {
    c in m.conns && m.conns[c].doomed > 0
  }

  function TaskRuns(m: Manager, c: ConnId): Manager
    requires CanCleanup(m, c)
  {
    m.(conns := m.conns[c := m.conns[c].(doomed := m.conns[c].doomed - 1)])
  }

  function Cleanup(m: Manager, c: ConnId): Manager
    requires CanCleanup(m, c)
  {
    ForceCleanup(TaskRuns(m, c), c)
  }

  datatype Op =
    | ConnectBeginOp(user: User)
    | ConnectFinishOp(id: ConnId)
    | ConnectAbortOp
    | DisconnectOp(user: User)
    | JoinOp(user: User, room: Room)
    | LeaveOp(user: User, room: Room)
    | BroadcastOp(room: Room, payload: Payload, exclude: Option<User>)
    | SendOp(user: User, payload: Payload)
    | TakeOp(conn: ConnId)
    | ResolveOp(conn: ConnId, sent: bool)
    | CleanupOp(conn: ConnId)

  /** When a step may happen. The lock keeps the four locked operations out while a `connect` is suspended;
      everything else runs at any time. */
  predicate Enabled(m: Manager, op: Op) {
    match op
    case ConnectBeginOp(_) => m.connecting.None?
    case ConnectFinishOp(id) => CanFinish(m) && id !in m.conns
    case ConnectAbortOp => CanFinish(m)
    case DisconnectOp(u) => m.connecting.None? && (u in m.registered ==> m.registered[u] in m.conns)
    case JoinOp(u, _) => m.connecting.None? && (u in m.registered ==> m.registered[u] in m.conns)
    case LeaveOp(u, _) => m.connecting.None? && (u in m.registered ==> m.registered[u] in m.conns)
    case BroadcastOp(_, _, _) => true
    case SendOp(u, _) => u in m.registered ==> m.registered[u] in m.conns
    case TakeOp(c) => CanTake(m, c)
    case ResolveOp(c, _) => CanResolve(m, c)
    case CleanupOp(c) => CanCleanup(m, c)
  }

  function Apply(m: Manager, op: Op): Manager
    requires Enabled(m, op)
  {
    match op
    case ConnectBeginOp(u) => ConnectBegin(m, u)
    case ConnectFinishOp(id) => ConnectFinish(m, id)
    case ConnectAbortOp => ConnectAbort(m)
    case DisconnectOp(u) => Disconnect(m, u)
    case JoinOp(u, r) => JoinRoom(m, u, r)
    case LeaveOp(u, r) => LeaveRoom(m, u, r)
    case BroadcastOp(r, p, ex) => Broadcast(m, r, p, ex)
    case SendOp(u, p) => SendTo(m, u, p)
    case TakeOp(c) => Take(m, c)
    case ResolveOp(c, sent) => Resolve(m, c, sent)
    case CleanupOp(c) => Cleanup(m, c)
  }

  // ---------------------------------------------------------------- invariants

  predicate InIndex(m: Manager, u: User, r: Room) {
    u in Members(m.index, r)
  }

  predicate InRoom(m: Manager, u: User, r: Room) {
    u in m.registered && m.registered[u] in m.conns && r in m.conns[m.registered[u]].rooms
  }

  ghost predicate WellFormed(m: Manager) {
    && (forall u <- m.registered :: m.registered[u] in m.conns && m.conns[m.registered[u]].user == u)
    && (m.connecting.Some? ==>
          var w := m.connecting.value;
          && (w.previous.None? ==> w.user !in m.registered)
          && (w.previous.Some? ==>
                && w.previous.value in m.conns
                && m.conns[w.previous.value].user == w.user
                && (w.user in m.registered ==> m.registered[w.user] == w.previous.value)))
  }

  /** Every registered connection is in the index of each of its rooms. */
  ghost predicate Complete(m: Manager) {
    forall u, r :: InRoom(m, u, r) ==> InIndex(m, u, r)
  }

  /** The index says exactly what a scan of the registered connections says. */
  ghost predicate Agree(m: Manager) {
    forall u, r :: InIndex(m, u, r) <==> InRoom(m, u, r)
  }

  /** First in, first out, with at most one payload outside both ends, in a queue within its bound. */
  predicate QueueInv(conn: Conn, max: int) {
    && conn.accepted == conn.written + conn.slot.Contents() + conn.queue
    && (conn.slot.Lost? ==> !conn.running)
    && (0 < max ==> |conn.queue| <= max)
  }

  ghost predicate Inv(m: Manager) {
    && WellFormed(m)
    && Complete(m)
    && forall c <- m.conns :: QueueInv(m.conns[c], m.max)
  }

  /** The steps that never touch what the index talks about. */
  ghost predicate SameTables(m: Manager, m': Manager) {
    && m'.registered == m.registered
    && m'.index == m.index
    && m'.conns.Keys == m.conns.Keys
    && forall c <- m.conns :: m'.conns[c].rooms == m.conns[c].rooms
  }

  lemma SameTablesFrame(m: Manager, m': Manager)
    requires SameTables(m, m')
    ensures Complete(m) ==> Complete(m')
    ensures Agree(m) <==> Agree(m')
  {
    forall u, r
      ensures InRoom(m', u, r) == InRoom(m, u, r) && InIndex(m', u, r) == InIndex(m, u, r)
    {
      assert u in m.registered && m.registered[u] in m.conns ==> m.registered[u] in m'.conns;
    }
  }

  lemma CleanupKeepsInv(m: Manager, c: ConnId)
    requires Inv(m) && c in m.conns
    ensures Inv(ForceCleanup(m, c))
  {
    var m' := ForceCleanup(m, c);
    forall u, r | InRoom(m', u, r) ensures InIndex(m', u, r) {
      assert InRoom(m, u, r) && InIndex(m, u, r);
    }
  }

  lemma AbortKeepsInv(m: Manager)
    requires Inv(m) && CanFinish(m)
    ensures Inv(ConnectAbort(m)) && m.connecting.value.user !in ConnectAbort(m).registered
  {
    var previous := m.connecting.value.previous;
    if previous.Some? {
      CleanupKeepsInv(m, previous.value);
      SameTablesFrame(ForceCleanup(m, previous.value), ConnectAbort(m));
    } else {
      SameTablesFrame(m, ConnectAbort(m));
    }
  }

  lemma FinishKeepsInv(m: Manager, id: ConnId)
    requires Inv(m) && CanFinish(m) && id !in m.conns
    ensures Inv(ConnectFinish(m, id))
  {
    AbortKeepsInv(m);
    var cleared, m' := ConnectAbort(m), ConnectFinish(m, id);
    forall u, r | InRoom(m', u, r) ensures InIndex(m', u, r) {
      assert InRoom(cleared, u, r) && InIndex(cleared, u, r);
    }
  }

  lemma LockedKeepsInv(m: Manager, op: Op)
    requires Inv(m) && Enabled(m, op)
    requires op.DisconnectOp? || op.JoinOp? || op.LeaveOp?
    ensures Inv(Apply(m, op))
  {
    var m' := Apply(m, op);
    forall u, r | InRoom(m', u, r) ensures InIndex(m', u, r) {
      assert InRoom(m, u, r) ==> InIndex(m, u, r);
    }
  }

  lemma PutKeepsQueueInv(conn: Conn, p: Payload, max: int)
    requires QueueInv(conn, max) && !Full(conn.queue, max)
    ensures QueueInv(Put(conn, p), max)
  {
  }

  lemma OfferKeepsQueueInv(conn: Conn, p: Payload, max: int)
    requires QueueInv(conn, max)
    ensures QueueInv(Offer(conn, p, max), max)
  {
  }

  lemma FetchKeepsQueueInv(conn: Conn, max: int)
    requires QueueInv(conn, max) && conn.running && conn.slot.Idle? && conn.queue != []
    ensures QueueInv(Fetch(conn), max)
  {
  }

  lemma SettleKeepsQueueInv(conn: Conn, sent: bool, max: int)
    requires QueueInv(conn, max) && conn.slot.InFlight?
    ensures QueueInv(Settle(conn, sent), max)
  {
  }

  /** The drain task's steps change one connection's queue end and nothing else. */
  lemma OneQueueKeepsInv(m: Manager, c: ConnId, conn: Conn)
    requires Inv(m) && c in m.conns && QueueInv(conn, m.max)
    requires conn.user == m.conns[c].user && conn.rooms == m.conns[c].rooms
    ensures Inv(m.(conns := m.conns[c := conn]))
  {
    SameTablesFrame(m, m.(conns := m.conns[c := conn]));
  }

  lemma DrainKeepsInv(m: Manager, op: Op)
    requires Inv(m) && Enabled(m, op)
    requires op.TakeOp? || op.ResolveOp?
    ensures Inv(Apply(m, op))
  {
    var conn := m.conns[op.conn];
    if op.TakeOp? {
      FetchKeepsQueueInv(conn, m.max);
      OneQueueKeepsInv(m, op.conn, Fetch(conn));
    } else {
      SettleKeepsQueueInv(conn, op.sent, m.max);
      OneQueueKeepsInv(m, op.conn, Settle(conn, op.sent));
    }
  }

  lemma SpreadSameTables(m: Manager, users: set<User>, p: Payload, exclude: Option<User>)
    ensures SameTables(m, Spread(m, users, p, exclude))
    ensures WellFormed(m) ==> WellFormed(Spread(m, users, p, exclude))
  {
    var m' := Spread(m, users, p, exclude);
    assert m'.conns.Keys == m.conns.Keys;
  }

  lemma SpreadKeepsInv(m: Manager, users: set<User>, p: Payload, exclude: Option<User>)
    requires Inv(m)
    ensures Inv(Spread(m, users, p, exclude))
  {
    var m' := Spread(m, users, p, exclude);
    SpreadSameTables(m, users, p, exclude);
    SameTablesFrame(m, m');
    forall c <- m'.conns ensures QueueInv(m'.conns[c], m'.max) {
      OfferKeepsQueueInv(m.conns[c], p, m.max);
    }
  }

  lemma SendKeepsInv(m: Manager, u: User, p: Payload)
    requires Inv(m)
    ensures Inv(SendTo(m, u, p))
  {
    if u in m.registered && !Full(m.conns[m.registered[u]].queue, m.max) {
      PutKeepsQueueInv(m.conns[m.registered[u]], p, m.max);
      OneQueueKeepsInv(m, m.registered[u], Put(m.conns[m.registered[u]], p));
    }
  }

  /** Every step of every interleaving keeps the invariant, stale forced cleanups included. */
  lemma StepKeepsInv(m: Manager, op: Op)
    requires Inv(m) && Enabled(m, op)
    ensures Inv(Apply(m, op))
    ensures Apply(m, op).max == m.max
  {
    match op
    case ConnectFinishOp(id) => FinishKeepsInv(m, id);
    case ConnectAbortOp => AbortKeepsInv(m);
    case CleanupOp(c) =>
      SameTablesFrame(m, TaskRuns(m, c));
      CleanupKeepsInv(TaskRuns(m, c), c);
    case DisconnectOp(_) => LockedKeepsInv(m, op);
    case JoinOp(_, _) => LockedKeepsInv(m, op);
    case LeaveOp(_, _) => LockedKeepsInv(m, op);
    case ConnectBeginOp(_) => SameTablesFrame(m, Apply(m, op));
    case BroadcastOp(r, p, ex) => SpreadKeepsInv(m, Members(m.index, r), p, ex);
    case SendOp(u, p) => SendKeepsInv(m, u, p);
    case _ => DrainKeepsInv(m, op);
  }

  // ---------------------------------------------------------------- two-way agreement

  /** What a cleanup must find for the index to stay exact: nobody registered for that user, or a connection
      (its own or a newer one) with no room outside the ones the cleanup erases. */
  predicate CleanupSafe(m: Manager, c: ConnId)
    requires c in m.conns
  {
    var u := m.conns[c].user;
    u in m.registered && m.registered[u] in m.conns ==> m.conns[m.registered[u]].rooms <= m.conns[c].rooms
  }

  /** Both directions: a stale cleanup breaks agreement exactly when the newer connection is in a room
      the old one never joined. */
  lemma CleanupAgreesIff(m: Manager, c: ConnId)
    requires WellFormed(m) && Agree(m) && c in m.conns
    ensures Agree(ForceCleanup(m, c)) <==> CleanupSafe(m, c)
  {
    var m', u := ForceCleanup(m, c), m.conns[c].user;
    if CleanupSafe(m, c) {
      forall v, r ensures InIndex(m', v, r) <==> InRoom(m', v, r) {
        assert InIndex(m, v, r) <==> InRoom(m, v, r);
      }
    } else {
      var r :| r in m.conns[m.registered[u]].rooms && r !in m.conns[c].rooms;
      assert InRoom(m, u, r) && InIndex(m, u, r);
      assert InIndex(m', u, r) && !InRoom(m', u, r);
    }
  }

  lemma LockedKeepsAgreement(m: Manager, op: Op)
    requires Inv(m) && Agree(m) && Enabled(m, op)
    requires op.DisconnectOp? || op.JoinOp? || op.LeaveOp?
    ensures Agree(Apply(m, op))
  {
    var m' := Apply(m, op);
    forall u, r ensures InIndex(m', u, r) <==> InRoom(m', u, r) {
      assert InIndex(m, u, r) <==> InRoom(m, u, r);
    }
  }

  lemma ConnectKeepsAgreement(m: Manager, id: ConnId)
    requires Inv(m) && Agree(m) && CanFinish(m)
    ensures Agree(ConnectAbort(m))
    ensures id !in m.conns ==> Agree(ConnectFinish(m, id))
  {
    var previous, cleared := m.connecting.value.previous, ConnectAbort(m);
    if previous.Some? {
      CleanupAgreesIff(m, previous.value);
      SameTablesFrame(ForceCleanup(m, previous.value), cleared);
    } else {
      SameTablesFrame(m, cleared);
    }
    if id !in m.conns {
      AbortKeepsInv(m);
      var m' := ConnectFinish(m, id);
      forall u, r ensures InIndex(m', u, r) <==> InRoom(m', u, r) {
        assert InIndex(cleared, u, r) <==> InRoom(cleared, u, r);
      }
    }
  }

  lemma TaskAgreesIff(m: Manager, c: ConnId)
    requires Inv(m) && Agree(m) && CanCleanup(m, c)
    ensures Agree(Cleanup(m, c)) <==> CleanupSafe(m, c)
  {
    SameTablesFrame(m, TaskRuns(m, c));
    CleanupAgreesIff(TaskRuns(m, c), c);
  }

  /** Agreement survives a step exactly when that step is not an unsafe forced cleanup. */
  lemma StepAgreesIff(m: Manager, op: Op)
    requires Inv(m) && Agree(m) && Enabled(m, op)
    ensures Agree(Apply(m, op)) <==> (op.CleanupOp? ==> CleanupSafe(m, op.conn))
  {
    match op
    case ConnectFinishOp(id) => ConnectKeepsAgreement(m, id);
    case ConnectAbortOp => ConnectKeepsAgreement(m, 0);
    case CleanupOp(c) => TaskAgreesIff(m, c);
    case DisconnectOp(_) => LockedKeepsAgreement(m, op);
    case JoinOp(_, _) => LockedKeepsAgreement(m, op);
    case LeaveOp(_, _) => LockedKeepsAgreement(m, op);
    case _ => SameTablesFrame(m, Apply(m, op));
  }

  // ---------------------------------------------------------------- whole runs

  /** Step `k` of a run was possible and led to state `k + 1`. */
  ghost predicate Took(states: seq<Manager>, ops: seq<Op>, k: nat)
    requires |states| == |ops| + 1 && k < |ops|
  {
    Enabled(states[k], ops[k]) && states[k + 1] == Apply(states[k], ops[k])
  }

  ghost predicate Run(states: seq<Manager>, ops: seq<Op>) {
    && |states| == |ops| + 1
    && states[0] == Empty(states[0].max)
    && forall k :: 0 <= k < |ops| ==> Took(states, ops, k)
  }

  /** In every state of every run: no registered connection is missing from the index of a room it is in, and
      every connection's writes are a prefix of what its queue accepted. */
  lemma {:induction false} RunKeepsInv(states: seq<Manager>, ops: seq<Op>, k: nat)
    requires Run(states, ops) && k < |states|
    ensures Inv(states[k])
    ensures states[k].max == states[0].max
  {
    if k > 0 {
      RunKeepsInv(states, ops, k - 1);
      assert Took(states, ops, k - 1);
      StepKeepsInv(states[k - 1], ops[k - 1]);
    }
  }

  ghost predicate OnlyAppends(m: Manager, m': Manager, c: ConnId)
    requires c in m.conns
  {
    c in m'.conns && m.conns[c].accepted <= m'.conns[c].accepted && m.conns[c].written <= m'.conns[c].written
  }

  /** A step only ever appends to what a connection accepted and wrote. */
  lemma StepExtendsHistory(m: Manager, op: Op, c: ConnId)
    requires Enabled(m, op) && c in m.conns
    ensures OnlyAppends(m, Apply(m, op), c)
  {
  }

  lemma OnlyAppendsTransitive(m: Manager, m': Manager, m'': Manager, c: ConnId)
    requires c in m.conns && OnlyAppends(m, m', c) && OnlyAppends(m', m'', c)
    ensures OnlyAppends(m, m'', c)
  {
  }

  lemma RunStepExtendsHistory(states: seq<Manager>, ops: seq<Op>, k: nat, c: ConnId)
    requires Run(states, ops) && k < |ops| && c in states[k].conns
    ensures OnlyAppends(states[k], states[k + 1], c)
  {
    assert Took(states, ops, k);
    StepExtendsHistory(states[k], ops[k], c);
  }

  lemma {:induction false} HistoryGrows(states: seq<Manager>, ops: seq<Op>, j: nat, k: nat, c: ConnId)
    requires Run(states, ops) && j <= k < |states| && c in states[j].conns
    ensures c in states[k].conns
    ensures states[j].conns[c].accepted <= states[k].conns[c].accepted
    ensures states[j].conns[c].written <= states[k].conns[c].written
  {
    if j < k {
      HistoryGrows(states, ops, j, k - 1, c);
      RunStepExtendsHistory(states, ops, k - 1, c);
      OnlyAppendsTransitive(states[j], states[k - 1], states[k], c);
    }
  }

  /** Send-queue FIFO over whole runs: what a drain task ever wrote is a prefix of what its queue had accepted by any
      later point, and at every point at most one payload is neither written nor queued. */
  lemma SendQueueFifo(states: seq<Manager>, ops: seq<Op>, j: nat, k: nat, c: ConnId)
    requires Run(states, ops) && j <= k < |states| && c in states[j].conns
    ensures c in states[k].conns
    ensures states[j].conns[c].written <= states[k].conns[c].accepted
    ensures var conn := states[k].conns[c];
            && conn.accepted == conn.written + conn.slot.Contents() + conn.queue
            && |conn.slot.Contents()| <= 1
            && (conn.running ==> !conn.slot.Lost?)
            && (0 < states[0].max ==> |conn.queue| <= states[0].max)
  {
    HistoryGrows(states, ops, j, k, c);
    RunKeepsInv(states, ops, k);
    assert QueueInv(states[k].conns[c], states[k].max);
  }

  /** Step `k` of a run is not an unsafe forced cleanup. */
  ghost predicate SafeStep(states: seq<Manager>, ops: seq<Op>, k: nat)
    requires Run(states, ops) && k < |ops|
  {
    assert Took(states, ops, k);
    ops[k].CleanupOp? ==> CleanupSafe(states[k], ops[k].conn)
  }

  /** The first `k` states agree when the first `k - 1` steps were safe. */
  lemma {:induction false} SafeRunAgrees(states: seq<Manager>, ops: seq<Op>, k: nat)
    requires Run(states, ops) && k < |states|
    requires forall j :: 0 <= j < k ==> SafeStep(states, ops, j)
    ensures Agree(states[k])
  {
    if k > 0 {
      SafeRunAgrees(states, ops, k - 1);
      RunKeepsInv(states, ops, k - 1);
      assert Took(states, ops, k - 1) && SafeStep(states, ops, k - 1);
      StepAgreesIff(states[k - 1], ops[k - 1]);
    }
  }

  /** The index equals the naive scan throughout a run if and only if every forced cleanup of the run was safe. */
  lemma RunAgreesIff(states: seq<Manager>, ops: seq<Op>)
    requires Run(states, ops)
    ensures (forall k :: 0 <= k < |states| ==> Agree(states[k]))
       <==> (forall k :: 0 <= k < |ops| ==> SafeStep(states, ops, k))
  {
    if forall k :: 0 <= k < |states| ==> Agree(states[k]) {
      forall k | 0 <= k < |ops| ensures SafeStep(states, ops, k) {
        RunKeepsInv(states, ops, k);
        assert Took(states, ops, k) && Agree(states[k]) && Agree(states[k + 1]);
        StepAgreesIff(states[k], ops[k]);
      }
    }
    if forall k :: 0 <= k < |ops| ==> SafeStep(states, ops, k) {
      forall k | 0 <= k < |states| ensures Agree(states[k]) {
        SafeRunAgrees(states, ops, k);
      }
    }
  }

  // ---------------------------------------------------------------- broadcast against the naive scan

  predicate Scans(m: Manager, r: Room, exclude: Option<User>, c: ConnId)
    requires c in m.conns
  {
    var conn := m.conns[c];
    Registers(m, conn.user, c) && r in conn.rooms && exclude != Some(conn.user)
  }

  /** The reference: look at every connection, offer to the registered ones that are in the room. */
  function NaiveBroadcast(m: Manager, r: Room, p: Payload, exclude: Option<User>): Manager {
    m.(conns := map c | c in m.conns ::
         if Scans(m, r, exclude, c) then Offer(m.conns[c], p, m.max) else m.conns[c])
  }

  /** A recipient the index still lists although its connection is not in the room. */
  predicate Dangling(m: Manager, r: Room, exclude: Option<User>, u: User) {
    InIndex(m, u, r) && exclude != Some(u) && u in m.registered && m.registered[u] in m.conns && !InRoom(m, u, r)
  }

  /** In every state a run can reach, nobody the naive scan finds is missed. */
  lemma BroadcastMissesNobody(m: Manager, r: Room, p: Payload, exclude: Option<User>, c: ConnId)
    requires Inv(m) && c in m.conns && Scans(m, r, exclude, c)
    ensures Broadcast(m, r, p, exclude).conns[c] == Offer(m.conns[c], p, m.max)
  {
    assert InRoom(m, m.conns[c].user, r);
  }

  /** The broadcast is the naive scan if and only if the room has no dangling recipient. */
  lemma BroadcastIsScanIff(m: Manager, r: Room, p: Payload, exclude: Option<User>)
    requires Inv(m)
    ensures Broadcast(m, r, p, exclude) == NaiveBroadcast(m, r, p, exclude)
       <==> forall u :: !Dangling(m, r, exclude, u)
  {
    var b, n := Broadcast(m, r, p, exclude), NaiveBroadcast(m, r, p, exclude);
    if forall u :: !Dangling(m, r, exclude, u) {
      forall c <- m.conns ensures b.conns[c] == n.conns[c] {
        var u := m.conns[c].user;
        assert !Dangling(m, r, exclude, u);
        assert InRoom(m, u, r) ==> InIndex(m, u, r);
      }
      assert b.conns == n.conns;
    } else {
      var u :| Dangling(m, r, exclude, u);
      var c := m.registered[u];
      assert b.conns[c] == Offer(m.conns[c], p, m.max) && n.conns[c] == m.conns[c];
      assert |b.conns[c].queue| + b.conns[c].doomed > |n.conns[c].queue| + n.conns[c].doomed;
    }
  }

  /** Under agreement the two are the same. */
  lemma AgreementMakesBroadcastAScan(m: Manager, r: Room, p: Payload, exclude: Option<User>)
    requires Inv(m) && Agree(m)
    ensures Broadcast(m, r, p, exclude) == NaiveBroadcast(m, r, p, exclude)
  {
    forall u ensures !Dangling(m, r, exclude, u) {
      assert InIndex(m, u, r) <==> InRoom(m, u, r);
    }
    BroadcastIsScanIff(m, r, p, exclude);
  }

  // ---------------------------------------------------------------- the stale cleanup, concretely

  /** u's first connection overflows in room "a" (maximum one), its forced disconnect is delayed, u reconnects and
      joins "b", and only then does the old cleanup run. */
  function StaleRun(p: Payload): seq<Op> {
    [ConnectBeginOp("u"), ConnectFinishOp(0), JoinOp("u", "a"),
     BroadcastOp("a", p, None), BroadcastOp("a", p, None),
     ConnectBeginOp("u"), ConnectFinishOp(1), JoinOp("u", "b"), CleanupOp(0)]
  }

  /** Connected and in room "a" with a queue of one. */
  lemma StaleRunJoins(p: Payload) returns (states: seq<Manager>)
    ensures Run(states, StaleRun(p)[..3])
    ensures var m := states[3];
            m.max == 1 && m.connecting.None? && m.registered == map["u" := 0] && m.index == map["a" := {"u"}]
    ensures states[3].conns == map[0 := NewConn("u").(rooms := {"a"})]
  {
    var ops, m0 := StaleRun(p), Empty(1);
    var m1 := Apply(m0, ops[0]);
    var m2 := Apply(m1, ops[1]);
    var m3 := Apply(m2, ops[2]);
    assert {} + {"u"} == {"u"} && {} + {"a"} == {"a"};
    states := [m0, m1, m2, m3];
  }

  lemma StaleRunStart(p: Payload) returns (states: seq<Manager>)
    ensures Run(states, StaleRun(p)[..5])
    ensures states[5].connecting.None? && states[5].registered == map["u" := 0] && states[5].conns.Keys == {0}
    ensures var slow := states[5].conns[0]; slow.user == "u" && slow.rooms == {"a"} && slow.doomed == 1
  {
    var ops := StaleRun(p);
    states := StaleRunJoins(p);
    RunSnoc(states, ops[..3], ops[3]);
    states := states + [Apply(states[3], ops[3])];
    assert states[4].conns[0].queue == [p] && ops[..3] + [ops[3]] == ops[..4];
    RunSnoc(states, ops[..4], ops[4]);
    states := states + [Apply(states[4], ops[4])];
    assert ops[..4] + [ops[4]] == ops[..5];
  }

  /** u's second connection, on top of the slow one. */
  lemma StaleReconnect(m: Manager)
    requires m.connecting.None? && m.registered == map["u" := 0] && m.conns.Keys == {0}
    requires var slow := m.conns[0]; slow.user == "u" && slow.rooms == {"a"} && slow.doomed == 1
    ensures CanFinish(ConnectBegin(m, "u"))
    ensures var m' := ConnectFinish(ConnectBegin(m, "u"), 1);
            && m'.connecting.None? && m'.registered == map["u" := 1] && m'.conns.Keys == {0, 1}
            && m'.conns[0].user == "u" && m'.conns[0].rooms == {"a"} && m'.conns[0].doomed == 1
  {
  }

  /** It joins "b", and then the slow one's cleanup runs. */
  lemma StaleCleanup(m: Manager)
    requires m.connecting.None? && m.registered == map["u" := 1] && m.conns.Keys == {0, 1}
    requires m.conns[0].user == "u" && m.conns[0].rooms == {"a"} && m.conns[0].doomed == 1
    ensures CanCleanup(JoinRoom(m, "u", "b"), 0)
    ensures var m' := Cleanup(JoinRoom(m, "u", "b"), 0);
            && m'.connecting.None? && m'.conns.Keys == {0, 1} && "u" !in m'.registered && InIndex(m', "u", "b")
  {
    assert InIndex(JoinRoom(m, "u", "b"), "u", "b");
  }

  /** From the reconnect on: the second connection joins "b" and the stale cleanup unregisters it. */
  lemma StaleRunEnd(m5: Manager, p: Payload) returns (states: seq<Manager>)
    requires m5.connecting.None? && m5.registered == map["u" := 0] && m5.conns.Keys == {0}
    requires var slow := m5.conns[0]; slow.user == "u" && slow.rooms == {"a"} && slow.doomed == 1
    ensures |states| == 5 && states[0] == m5
    ensures forall k :: 0 <= k < 4 ==>
      Enabled(states[k], StaleRun(p)[5 + k]) && states[k + 1] == Apply(states[k], StaleRun(p)[5 + k])
    ensures InIndex(states[4], "u", "b") && "u" !in states[4].registered
    ensures states[4].connecting.None? && states[4].conns.Keys == {0, 1}
  {
    StaleReconnect(m5);
    var m6 := ConnectBegin(m5, "u");
    var m7 := ConnectFinish(m6, 1);
    StaleCleanup(m7);
    var m8 := JoinRoom(m7, "u", "b");
    states := [m5, m6, m7, m8, Cleanup(m8, 0)];
  }

  /** Unconditional two-way agreement is false: after this run the index lists u for room "b" although u has no
      connection. */
  lemma StaleCleanupLeavesDangling(p: Payload) returns (states: seq<Manager>)
    ensures Run(states, StaleRun(p))
    ensures InIndex(states[9], "u", "b") && "u" !in states[9].registered && !Agree(states[9])
    ensures states[9].connecting.None? && states[9].conns.Keys == {0, 1}
  {
    var ops := StaleRun(p);
    var start := StaleRunStart(p);
    var end := StaleRunEnd(start[5], p);
    states := start + end[1..];
    forall k | 0 <= k < |ops| ensures Took(states, ops, k) {
      if k < 5 {
        assert Took(start, ops[..5], k) && ops[..5][k] == ops[k];
      } else {
        assert states[k] == end[k - 5] && states[k + 1] == end[k - 4] && ops[k] == ops[5 + (k - 5)];
      }
    }
    assert InIndex(states[9], "u", "b") && !InRoom(states[9], "u", "b");
  }

  lemma RunSnoc(states: seq<Manager>, ops: seq<Op>, op: Op)
    requires Run(states, ops) && Enabled(states[|ops|], op)
    ensures Run(states + [Apply(states[|ops|], op)], ops + [op])
  {
    var states', ops' := states + [Apply(states[|ops|], op)], ops + [op];
    forall k | 0 <= k < |ops'| ensures Took(states', ops', k) {
      if k < |ops| {
        assert Took(states, ops, k);
        assert ops'[k] == ops[k] && states'[k] == states[k] && states'[k + 1] == states[k + 1];
      }
    }
  }

  lemma ReconnectIsDangling(m: Manager, id: ConnId)
    requires InIndex(m, "u", "b") && "u" !in m.registered && id !in m.conns
    ensures Dangling(ConnectFinish(ConnectBegin(m, "u"), id), "b", None, "u")
  {
  }

  /** And so a reachable broadcast differs from the scan: u's next connection, which has joined nothing, is offered the
      events of room "b". */
  lemma StaleEntryReachesNextConnection(p: Payload, q: Payload) returns (states: seq<Manager>)
    ensures Run(states, StaleRun(p) + [ConnectBeginOp("u"), ConnectFinishOp(2)])
    ensures Registers(states[11], "u", 2) && states[11].conns[2].rooms == {}
    ensures Broadcast(states[11], "b", q, None) != NaiveBroadcast(states[11], "b", q, None)
  {
    var ops, first := StaleRun(p), [];
    first := StaleCleanupLeavesDangling(p);
    var begun := ConnectBegin(first[9], "u");
    RunSnoc(first, ops, ConnectBeginOp("u"));
    var last := ConnectFinish(begun, 2);
    RunSnoc(first + [begun], ops + [ConnectBeginOp("u")], ConnectFinishOp(2));
    states := first + [begun] + [last];
    assert ops + [ConnectBeginOp("u")] + [ConnectFinishOp(2)] == ops + [ConnectBeginOp("u"), ConnectFinishOp(2)];
    RunKeepsInv(states, ops + [ConnectBeginOp("u"), ConnectFinishOp(2)], 11);
    ReconnectIsDangling(first[9], 2);
    BroadcastIsScanIff(last, "b", q, None);
  }
}
