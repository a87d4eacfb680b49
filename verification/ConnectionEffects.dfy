/** What the manager's operations do to connections, rooms and queues, said without the operations' own definitions,
    and what follows for whole runs. */
module ConnectionEffects {
  import opened Options
  import opened Events
  import opened ConnectionState

  // ---------------------------------------------------------------- tables

  /** Membership, by connection and by index, of everyone but the pair (u, r) is as before. */
  ghost predicate OtherPairsKept(m: Manager, m': Manager, u: User, r: Room) {
    forall v, q :: (v, q) != (u, r) ==>
      (InRoom(m', v, q) <==> InRoom(m, v, q)) && (InIndex(m', v, q) <==> InIndex(m, v, q))
  }

  /** Registrations, the lock and everything about connections except their rooms is as before. */
  ghost predicate OnlyRoomsChanged(m: Manager, m': Manager) {
    && m'.max == m.max && m'.registered == m.registered && m'.connecting == m.connecting
    && m'.conns.Keys == m.conns.Keys
    && forall c <- m.conns :: m'.conns[c] == m.conns[c].(rooms := m'.conns[c].rooms)
  }

  /** `leave_room`: the pair is gone from both structures, and nothing else is. */
  lemma LeaveIsExact(m: Manager, u: User, r: Room)
    requires Inv(m)
    ensures var m' := LeaveRoom(m, u, r);
            && !InRoom(m', u, r)
            && (u in m.registered ==> !InIndex(m', u, r))
            && (u !in m.registered ==> m' == m)
            && OtherPairsKept(m, m', u, r) && OnlyRoomsChanged(m, m')
            && (forall c <- m.conns :: Lookup(m.registered, u) != Some(c) ==> m'.conns[c] == m.conns[c])
  {
  }

  /** ... and the room's set goes with its last user. */
  lemma LeaveDropsEmptied(m: Manager, u: User, r: Room)
    requires Inv(m) && u in m.registered && InIndex(m, u, r)
    ensures r in LeaveRoom(m, u, r).index <==> m.index[r] != {u}
  {
    assert m.index[r] - {u} == {} <==> m.index[r] == {u};
  }

  /** `join_room`: a registered user is in the room by both structures, and nothing else changes. */
  lemma JoinIsExact(m: Manager, u: User, r: Room)
    requires Inv(m)
    ensures var m' := JoinRoom(m, u, r);
            && (u in m.registered ==> InRoom(m', u, r) && InIndex(m', u, r))
            && (u !in m.registered ==> m' == m)
            && OtherPairsKept(m, m', u, r) && OnlyRoomsChanged(m, m')
            && (forall c <- m.conns :: Lookup(m.registered, u) != Some(c) ==> m'.conns[c] == m.conns[c])
  {
  }

  /** Connection `c` stopped draining, and nothing else happened to any connection. */
  ghost predicate OnlyStopped(m: Manager, m': Manager, c: ConnId) {
    && m'.max == m.max && m'.conns.Keys == m.conns.Keys && c in m.conns
    && m'.conns[c] == m.conns[c].(running := false)
    && forall d <- m.conns :: d != c ==> m'.conns[d] == m.conns[d]
  }

  /** User `u` is registered no longer; the others are as they were. */
  ghost predicate OnlyUnregistered(m: Manager, m': Manager, u: User) {
    && u !in m'.registered
    && forall v :: v != u ==> Lookup(m'.registered, v) == Lookup(m.registered, v)
  }

  /** The index lost user `u` in `rooms` and nothing else. */
  ghost predicate OnlyUnlisted(m: Manager, m': Manager, u: User, rooms: set<Room>) {
    forall v, q :: InIndex(m', v, q) <==> InIndex(m, v, q) && !(v == u && q in rooms)
  }

  /** `disconnect`: the user is gone, unlisted in the connection's rooms, and the drain task stopped. */
  lemma DisconnectIsExact(m: Manager, u: User)
    requires Inv(m)
    ensures u !in m.registered ==> Disconnect(m, u) == m
    ensures u in m.registered ==>
              var m', c := Disconnect(m, u), m.registered[u];
              && OnlyUnregistered(m, m', u) && OnlyStopped(m, m', c) && OnlyUnlisted(m, m', u, m.conns[c].rooms)
              && m'.connecting == m.connecting
              && forall q <- m'.index :: m'.index[q] != {} || m.index[q] == {}
  {
  }

  /** The forced cleanup: whoever is registered under the connection's user is dropped, the connection's own rooms are
      unlisted, its drain task stops, and no key of the index goes away. */
  lemma ForceCleanupIsExact(m: Manager, c: ConnId)
    requires c in m.conns
    ensures var m', conn := ForceCleanup(m, c), m.conns[c];
            && OnlyUnregistered(m, m', conn.user) && OnlyStopped(m, m', c)
            && OnlyUnlisted(m, m', conn.user, conn.rooms)
            && m'.connecting == m.connecting && m'.index.Keys == m.index.Keys
  {
  }

  /** One forced task fewer, and then the cleanup. */
  lemma CleanupIsExact(m: Manager, c: ConnId)
    requires CanCleanup(m, c)
    ensures var m', conn := Cleanup(m, c), m.conns[c];
            && OnlyUnregistered(m, m', conn.user) && OnlyUnlisted(m, m', conn.user, conn.rooms)
            && m'.conns.Keys == m.conns.Keys && m'.index.Keys == m.index.Keys && m'.connecting == m.connecting
            && m'.conns[c] == conn.(running := false, doomed := conn.doomed - 1)
            && (forall d <- m.conns :: d != c ==> m'.conns[d] == m.conns[d])
  {
    ForceCleanupIsExact(TaskRuns(m, c), c);
  }

  /** `connect` captures whatever connection the user has, and changes nothing yet. */
  lemma ConnectBeginIsExact(m: Manager, u: User)
    ensures var m' := ConnectBegin(m, u);
            && m'.connecting.Some? && m'.connecting.value.user == u
            && (u in m.registered ==> m'.connecting.value.previous == Some(m.registered[u]))
            && (u !in m.registered ==> m'.connecting.value.previous.None?)
            && m' == m.(connecting := m'.connecting)
  {
  }

  /** A connection nobody has used yet. */
  predicate Unused(conn: Conn, u: User) {
    && conn.user == u && conn.rooms == {} && conn.queue == [] && conn.slot.Idle? && conn.running && conn.doomed == 0
    && conn.written == [] && conn.accepted == []
  }

  /** The rest of `connect`: an unused connection is registered for the user, the previous one is stopped and unlisted,
      and nobody else is touched. */
  lemma ConnectFinishIsExact(m: Manager, id: ConnId)
    requires Inv(m) && CanFinish(m) && id !in m.conns
    ensures var m', u := ConnectFinish(m, id), m.connecting.value.user;
            && m'.connecting.None? && m'.max == m.max
            && Registers(m', u, id) && Unused(m'.conns[id], u)
            && (forall v :: v != u ==> Lookup(m'.registered, v) == Lookup(m.registered, v))
            && m'.conns.Keys == m.conns.Keys + {id} && m'.index.Keys == m.index.Keys
  {
  }

  lemma ConnectFinishStopsPrevious(m: Manager, id: ConnId)
    requires Inv(m) && CanFinish(m) && id !in m.conns
    ensures var m', w := ConnectFinish(m, id), m.connecting.value;
            && (forall d <- m.conns :: d in m'.conns)
            && (forall d <- m.conns :: w.previous != Some(d) ==> m'.conns[d] == m.conns[d])
            && (w.previous.Some? ==> m'.conns[w.previous.value] == m.conns[w.previous.value].(running := false))
            && OnlyUnlisted(m, m', w.user, if w.previous.Some? then m.conns[w.previous.value].rooms else {})
  {
  }

  // ---------------------------------------------------------------- queues

  /** `send_to_user`: a registered user whose queue has room gets the payload last in line; otherwise nothing
      happens. */
  lemma SendIsExact(m: Manager, u: User, p: Payload)
    requires Inv(m)
    ensures var m' := SendTo(m, u, p);
            if u in m.registered && (m.max <= 0 || |m.conns[m.registered[u]].queue| < m.max) then
              var c := m.registered[u];
              && m' == m.(conns := m'.conns) && m'.conns.Keys == m.conns.Keys
              && m'.conns[c] == m.conns[c].(queue := m.conns[c].queue + [p], accepted := m.conns[c].accepted + [p])
              && forall d <- m.conns :: d != c ==> m'.conns[d] == m.conns[d]
            else m' == m
  {
  }

  /** Offering payloads one after another with nobody draining. */
  function OfferAll(conn: Conn, ps: seq<Payload>, max: int): Conn {
    if ps == [] then conn else Offer(OfferAll(conn, ps[..|ps| - 1], max), ps[|ps| - 1], max)
  }

  /** A queue takes payloads in order up to its maximum, and each one after that starts a forced disconnect; without a
      positive maximum it takes them all. */
  lemma {:induction false} OffersFillTheQueue(conn: Conn, ps: seq<Payload>, max: int)
    requires max <= 0 || |conn.queue| <= max
    ensures var room := if max <= 0 || |ps| <= max - |conn.queue| then |ps| else max - |conn.queue|;
            OfferAll(conn, ps, max) == conn.(queue := conn.queue + ps[..room],
                                             accepted := conn.accepted + ps[..room],
                                             doomed := conn.doomed + (|ps| - room))
  {
    if ps == [] {
      assert conn.queue + ps[..0] == conn.queue && conn.accepted + ps[..0] == conn.accepted;
    } else {
      var n := |ps| - 1;
      var init := ps[..n];
      OffersFillTheQueue(conn, init, max);
      if max <= 0 || |ps| <= max - |conn.queue| {
        assert ps[..|ps|] == init + [ps[n]] && init[..n] == init;
        assert conn.queue + init + [ps[n]] == conn.queue + ps[..|ps|];
        assert conn.accepted + init + [ps[n]] == conn.accepted + ps[..|ps|];
      } else {
        assert init[..max - |conn.queue|] == ps[..max - |conn.queue|];
      }
    }
  }

  // ---------------------------------------------------------------- whole runs

  /** Only joining a room lists a user for it. */
  lemma OnlyJoinLists(m: Manager, op: Op, u: User, r: Room)
    requires Enabled(m, op) && !InIndex(m, u, r) && op != JoinOp(u, r)
    ensures !InIndex(Apply(m, op), u, r)
  {
  }

  lemma {:induction false} UnlistedUntilJoin(states: seq<Manager>, ops: seq<Op>, j: nat, k: nat, u: User, r: Room)
    requires Run(states, ops) && j <= k < |states| && !InIndex(states[j], u, r)
    requires forall x :: j <= x < k ==> ops[x] != JoinOp(u, r)
    ensures !InIndex(states[k], u, r)
  {
    if j < k {
      UnlistedUntilJoin(states, ops, j, k - 1, u, r);
      assert Took(states, ops, k - 1);
      OnlyJoinLists(states[k - 1], ops[k - 1], u, r);
    }
  }

  lemma UnlistedIsNotOffered(m: Manager, u: User, r: Room, p: Payload, exclude: Option<User>, c: ConnId)
    requires !InIndex(m, u, r) && c in m.conns && m.conns[c].user == u
    ensures Broadcast(m, r, p, exclude).conns[c] == m.conns[c]
  {
  }

  /** Whoever left a room is sent nothing of it until joining again, on whatever connection. */
  lemma QuietAfterLeaving(states: seq<Manager>, ops: seq<Op>, j: nat, k: nat, u: User, r: Room, p: Payload,
                          exclude: Option<User>, c: ConnId)
    requires Run(states, ops) && j < k < |states| && ops[j] == LeaveOp(u, r) && u in states[j].registered
    requires forall x :: j < x < k ==> ops[x] != JoinOp(u, r)
    requires c in states[k].conns && states[k].conns[c].user == u
    ensures Broadcast(states[k], r, p, exclude).conns[c] == states[k].conns[c]
  {
    RunKeepsInv(states, ops, j);
    assert Took(states, ops, j);
    LeaveIsExact(states[j], u, r);
    UnlistedUntilJoin(states, ops, j + 1, k, u, r);
    UnlistedIsNotOffered(states[k], u, r, p, exclude, c);
  }

  /** A user who disconnected is sent nothing of the rooms that connection was in until joining them again. */
  lemma QuietAfterDisconnecting(states: seq<Manager>, ops: seq<Op>, j: nat, k: nat, u: User, r: Room, p: Payload,
                                exclude: Option<User>, c: ConnId)
    requires Run(states, ops) && j < k < |states| && ops[j] == DisconnectOp(u) && InRoom(states[j], u, r)
    requires forall x :: j < x < k ==> ops[x] != JoinOp(u, r)
    requires c in states[k].conns && states[k].conns[c].user == u
    ensures Broadcast(states[k], r, p, exclude).conns[c] == states[k].conns[c]
  {
    RunKeepsInv(states, ops, j);
    assert Took(states, ops, j);
    DisconnectIsExact(states[j], u);
    UnlistedUntilJoin(states, ops, j + 1, k, u, r);
    UnlistedIsNotOffered(states[k], u, r, p, exclude, c);
  }

  /** Nothing more is taken from the queue of a stopped connection. */
  ghost predicate StaysStopped(m: Manager, m': Manager, c: ConnId)
    requires c in m.conns
  {
    c in m'.conns && !m'.conns[c].running && m.conns[c].queue <= m'.conns[c].queue
  }

  lemma StoppedStep(m: Manager, op: Op, c: ConnId)
    requires Enabled(m, op) && c in m.conns && !m.conns[c].running
    ensures StaysStopped(m, Apply(m, op), c)
  {
  }

  lemma {:induction false} StoppedForGood(states: seq<Manager>, ops: seq<Op>, j: nat, k: nat, c: ConnId)
    requires Run(states, ops) && j <= k < |states| && c in states[j].conns && !states[j].conns[c].running
    ensures StaysStopped(states[j], states[k], c)
  {
    if j < k {
      StoppedForGood(states, ops, j, k - 1, c);
      assert Took(states, ops, k - 1);
      StoppedStep(states[k - 1], ops[k - 1], c);
    }
  }
}
