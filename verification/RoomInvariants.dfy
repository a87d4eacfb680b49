/** What every reachable state of the room protocol satisfies. */
module RoomInvariants {
  import opened Options
  import opened Events
  import opened Publishing
  import opened RoomProtocol
  import CS = ConnectionState
  import MS = MessageStore

  type Logs = map<string, seq<Event>>

  // ---------------------------------------------------------------- the parts

  /** Every callback broadcasts to the room its channel is named after. */
  ghost predicate CallbacksMatch(n: Node) {
    forall ch <- n.callbacks :: ch == Channel(n.callbacks[ch])
  }

  /** Every join under way was granted, and has its callback once it is past that point. */
  ghost predicate JoinsBacked(n: Node, granted: set<(User, Room)>) {
    forall j <- n.joins ::
      && (n.joins[j].user, n.joins[j].room) in granted
      && (!n.joins[j].phase.Checked? ==> Channel(n.joins[j].room) in n.callbacks)
  }

  /** Every room of every connection has its callback. */
  ghost predicate RoomsCovered(n: Node) {
    forall c <- n.mgr.conns, r :: r in n.mgr.conns[c].rooms ==> Channel(r) in n.callbacks
  }

  /** Subscribed at Redis, or on its way there. */
  predicate Requested(n: Node, ch: string) {
    ch in n.subs || ch in n.pending
  }

  /** While the link is up, every room of every connection is subscribed or about to be. */
  ghost predicate RoomsSubscribed(n: Node) {
    n.up ==>
      && (forall c <- n.mgr.conns, r :: r in n.mgr.conns[c].rooms ==> Requested(n, Channel(r)))
      && (forall j <- n.joins :: n.joins[j].phase.Asked? ==> Requested(n, Channel(n.joins[j].room)))
  }

  /** The index lists a user for a room only if that user passed the membership check. */
  ghost predicate IndexGranted(m: CS.Manager, granted: set<(User, Room)>) {
    forall u, r :: CS.InIndex(m, u, r) ==> (u, r) in granted
  }

  predicate Genuine(p: Payload, logs: Logs) {
    p.FromRoom? ==> p.index < |Log(logs, p.channel)| && Log(logs, p.channel)[p.index] == p.event
  }

  ghost predicate Permitted(p: Payload, user: User, granted: set<(User, Room)>) {
    p.FromRoom? ==> exists r :: p.channel == Channel(r) && (user, r) in granted
  }

  /** Log positions on one channel rise along a sequence of payloads. */
  ghost predicate Rising(ps: seq<Payload>) {
    forall a, b :: 0 <= a < b < |ps| && ps[a].FromRoom? && ps[b].FromRoom? && ps[a].channel == ps[b].channel ==>
      ps[a].index < ps[b].index
  }

  /** ... and every entry still in the inbox lies after them. */
  ghost predicate Before(ps: seq<Payload>, inbox: seq<Entry>) {
    forall a, b :: 0 <= a < |ps| && 0 <= b < |inbox| && ps[a].FromRoom? && ps[a].channel == inbox[b].channel ==>
      ps[a].index < inbox[b].index
  }

  ghost predicate ConnInv(conn: CS.Conn, inbox: seq<Entry>, logs: Logs, granted: set<(User, Room)>) {
    && Rising(conn.accepted)
    && Before(conn.accepted, inbox)
    && forall p <- conn.accepted :: Genuine(p, logs) && Permitted(p, conn.user, granted)
  }

  ghost predicate ConnsInv(n: Node, logs: Logs, granted: set<(User, Room)>) {
    forall c <- n.mgr.conns :: ConnInv(n.mgr.conns[c], n.inbox, logs, granted)
  }

  ghost predicate InboxPlaced(n: Node, logs: Logs) {
    forall b :: 0 <= b < |n.inbox| ==>
      && n.inbox[b].channel in n.subs
      && n.inbox[b].channel in n.next
      && n.next[n.inbox[b].channel] <= n.inbox[b].index < |Log(logs, n.inbox[b].channel)|
  }

  ghost predicate InboxOrdered(inbox: seq<Entry>) {
    forall a, b :: 0 <= a < b < |inbox| && inbox[a].channel == inbox[b].channel ==> inbox[a].index < inbox[b].index
  }

  ghost predicate InboxGapless(n: Node, logs: Logs) {
    && (forall ch <- n.subs :: ch in n.next && n.next[ch] <= |Log(logs, ch)|)
    && (forall ch, k :: ch in n.subs && ch in n.next && n.next[ch] <= k < |Log(logs, ch)| ==> Entry(ch, k) in n.inbox)
  }

  /** The inbox holds, per subscribed channel, every log position from `next` on, in order, each once. */
  ghost predicate InboxInv(n: Node, logs: Logs) {
    InboxPlaced(n, logs) && InboxOrdered(n.inbox) && InboxGapless(n, logs)
  }

  ghost predicate NodeInv(n: Node, logs: Logs, granted: set<(User, Room)>) {
    && CS.Inv(n.mgr)
    && CallbacksMatch(n)
    && JoinsBacked(n, granted)
    && RoomsCovered(n)
    && RoomsSubscribed(n)
    && IndexGranted(n.mgr, granted)
    && ConnsInv(n, logs, granted)
    && InboxInv(n, logs)
  }

  /** A chat event comes from a handler that committed, or found committed, the row it names. */
  ghost predicate Backed(store: MS.Store, ev: Event) {
    ev.Chat? ==> exists t <- store.txns :: store.txns[t].Ready? && ev == ChatOf(store.txns[t].req, store.txns[t].id)
  }

  /** Everything in a log is on the channel of its own room and, if it is a chat message, backed by a committed row. */
  ghost predicate LogsInv(logs: Logs, store: MS.Store) {
    forall ch, k :: 0 <= k < |Log(logs, ch)| ==> ch == Channel(Log(logs, ch)[k].room) && Backed(store, Log(logs, ch)[k])
  }

  ghost predicate PubsInv(bus: Bus<Event>, store: MS.Store) {
    forall p <- bus.pubs :: bus.pubs[p].channel == Channel(bus.pubs[p].event.room) && Backed(store, bus.pubs[p].event)
  }

  ghost predicate Inv(s: System) {
    && MS.StoreInv(s.store)
    && LogsInv(s.logs, s.store)
    && PubsInv(s.bus, s.store)
    && BusInv(s.bus)
    && AllMirrored(s.logs, s.bus)
    && forall i <- s.nodes :: NodeInv(s.nodes[i], s.logs, s.granted)
  }

  // ---------------------------------------------------------------- manager steps seen from outside

  /** `ps'` is `ps` or `ps` with one more payload, a direct one or `p`. */
  predicate Grew(ps: seq<Payload>, ps': seq<Payload>, p: Option<Payload>) {
    ps' == ps || (|ps'| == |ps| + 1 && ps'[..|ps|] == ps && (ps'[|ps|].Direct? || p == Some(ps'[|ps|])))
  }

  /** What an ordinary step can do to the connections: no new room, no new index entry, direct payloads only. */
  ghost predicate Calm(m: CS.Manager, m': CS.Manager) {
    && (forall c <- m'.conns ::
          if c in m.conns then
            && m'.conns[c].user == m.conns[c].user
            && m'.conns[c].rooms <= m.conns[c].rooms
            && Grew(m.conns[c].accepted, m'.conns[c].accepted, None)
          else m'.conns[c].rooms == {} && m'.conns[c].accepted == [])
    && (forall u, r :: CS.InIndex(m', u, r) ==> CS.InIndex(m, u, r))
  }

  lemma OrdinaryIsCalm(m: CS.Manager, op: CS.Op)
    requires CS.Enabled(m, op) && Ordinary(op)
    ensures Calm(m, CS.Apply(m, op))
  {
    var m' := CS.Apply(m, op);
    forall u, r | CS.InIndex(m', u, r) ensures CS.InIndex(m, u, r) {
    }
  }

  /** `p` may come after `ps` and before `inbox`. */
  ghost predicate Fits(p: Payload, ps: seq<Payload>, inbox: seq<Entry>) {
    Rising(ps + [p]) && Before([p], inbox)
  }

  lemma DirectFits(p: Payload, ps: seq<Payload>, inbox: seq<Entry>)
    requires p.Direct? && Rising(ps)
    ensures Fits(p, ps, inbox)
  {
  }

  lemma GrewKeepsConnInv(conn: CS.Conn, conn': CS.Conn, p: Option<Payload>, inbox: seq<Entry>, logs: Logs,
                         granted: set<(User, Room)>)
    requires ConnInv(conn, inbox, logs, granted) && conn'.user == conn.user
    requires Grew(conn.accepted, conn'.accepted, p)
    requires p.Some? ==>
               Genuine(p.value, logs) && Permitted(p.value, conn.user, granted) && Fits(p.value, conn.accepted, inbox)
    ensures ConnInv(conn', inbox, logs, granted)
  {
    var was, now := conn.accepted, conn'.accepted;
    if now != was {
      var q := now[|was|];
      assert now == was + [q];
      if q.Direct? {
        DirectFits(q, was, inbox);
      }
      assert Fits(q, was, inbox);
    }
  }

  lemma CalmKeepsNodeInv(n: Node, m': CS.Manager, logs: Logs, granted: set<(User, Room)>)
    requires NodeInv(n, logs, granted) && CS.Inv(m') && Calm(n.mgr, m')
    ensures NodeInv(n.(mgr := m'), logs, granted)
  {
    var n' := n.(mgr := m');
    forall c <- m'.conns ensures ConnInv(m'.conns[c], n.inbox, logs, granted) {
      if c in n.mgr.conns {
        GrewKeepsConnInv(n.mgr.conns[c], m'.conns[c], None, n.inbox, logs, granted);
      }
    }
    assert RoomsCovered(n');
  }

  /** The node once join `j` has put its user into its room. */
  function Indexed(n: Node, j: JoinId): Node
    requires j in n.joins && CS.Enabled(n.mgr, CS.JoinOp(n.joins[j].user, n.joins[j].room))
  {
    n.(mgr := CS.JoinRoom(n.mgr, n.joins[j].user, n.joins[j].room), joins := n.joins - {j})
  }

  lemma JoinIndexKeepsTables(n: Node, j: JoinId, granted: set<(User, Room)>)
    requires JoinsBacked(n, granted) && RoomsCovered(n) && RoomsSubscribed(n) && JoinAt(n, j, Asked)
    requires CS.Enabled(n.mgr, CS.JoinOp(n.joins[j].user, n.joins[j].room))
    ensures JoinsBacked(Indexed(n, j), granted) && RoomsCovered(Indexed(n, j)) && RoomsSubscribed(Indexed(n, j))
  {
  }

  lemma JoinIndexIsGranted(m: CS.Manager, u: User, r: Room, granted: set<(User, Room)>)
    requires IndexGranted(m, granted) && (u, r) in granted && CS.Enabled(m, CS.JoinOp(u, r))
    ensures IndexGranted(CS.JoinRoom(m, u, r), granted)
  {
    var m' := CS.JoinRoom(m, u, r);
    forall v, q | CS.InIndex(m', v, q) ensures (v, q) in granted {
      assert CS.InIndex(m, v, q) || (v == u && q == r);
    }
  }

  lemma JoinIndexKeepsNodeInv(n: Node, j: JoinId, logs: Logs, granted: set<(User, Room)>)
    requires NodeInv(n, logs, granted) && JoinAt(n, j, Asked)
    requires CS.Enabled(n.mgr, CS.JoinOp(n.joins[j].user, n.joins[j].room))
    ensures NodeInv(Indexed(n, j), logs, granted)
  {
    var u, r := n.joins[j].user, n.joins[j].room;
    var m' := CS.JoinRoom(n.mgr, u, r);
    CS.StepKeepsInv(n.mgr, CS.JoinOp(u, r));
    JoinIndexKeepsTables(n, j, granted);
    JoinIndexIsGranted(n.mgr, u, r, granted);
    forall c <- m'.conns ensures ConnInv(m'.conns[c], n.inbox, logs, granted) {
      assert ConnInv(n.mgr.conns[c], n.inbox, logs, granted);
    }
  }

  // ---------------------------------------------------------------- the listener

  lemma ReadKeepsInbox(n: Node, logs: Logs)
    requires InboxInv(n, logs) && n.inbox != []
    ensures n.next[n.inbox[0].channel] == n.inbox[0].index
    ensures InboxInv(n.(inbox := n.inbox[1..], next := n.next[n.inbox[0].channel := n.inbox[0].index + 1]), logs)
  {
    var e := n.inbox[0];
    var rest := n.(inbox := n.inbox[1..], next := n.next[e.channel := e.index + 1]);
    var first := Entry(e.channel, n.next[e.channel]);
    assert first in n.inbox;
    assert n.inbox == [e] + rest.inbox;
    forall ch, k | ch in rest.subs && rest.next[ch] <= k < |Log(logs, ch)| ensures Entry(ch, k) in rest.inbox {
      assert Entry(ch, k) in n.inbox;
    }
  }

  lemma ReadKeepsConns(n: Node, logs: Logs, granted: set<(User, Room)>)
    requires ConnsInv(n, logs, granted) && n.inbox != []
    ensures var next := n.next[n.inbox[0].channel := n.inbox[0].index + 1];
            ConnsInv(n.(inbox := n.inbox[1..], next := next), logs, granted)
  {
  }

  /** Handing the head of the inbox to the room keeps every connection's order. */
  lemma HeadFits(n: Node, c: CS.ConnId, p: Payload, logs: Logs, granted: set<(User, Room)>)
    requires InboxInv(n, logs) && ConnsInv(n, logs, granted) && n.inbox != [] && c in n.mgr.conns
    requires p.FromRoom? && p.channel == n.inbox[0].channel && p.index == n.inbox[0].index
    ensures Fits(p, n.mgr.conns[c].accepted, n.inbox[1..])
  {
  }

  lemma BroadcastGrows(m: CS.Manager, r: Room, p: Payload, ex: Option<User>, c: CS.ConnId)
    requires c in m.conns
    ensures var conn' := CS.Broadcast(m, r, p, ex).conns[c];
            && conn'.user == m.conns[c].user && conn'.rooms == m.conns[c].rooms
            && Grew(m.conns[c].accepted, conn'.accepted, Some(p))
            && (conn'.accepted != m.conns[c].accepted ==> CS.InIndex(m, conn'.user, r))
  {
  }

  lemma DeliverKeepsConns(n: Node, ev: Event, logs: Logs, granted: set<(User, Room)>)
    requires NodeInv(n, logs, granted) && n.inbox != []
    requires ev == Log(logs, n.inbox[0].channel)[n.inbox[0].index]
    ensures ConnsInv(Deliver(n, ev), logs, granted)
  {
    ReadKeepsConns(n, logs, granted);
    var e := n.inbox[0];
    if e.channel in n.callbacks {
      var r, p := n.callbacks[e.channel], FromRoom(e.channel, e.index, ev);
      var m' := CS.Broadcast(n.mgr, r, p, Excluded(ev));
      forall c <- m'.conns ensures ConnInv(m'.conns[c], n.inbox[1..], logs, granted) {
        var conn := n.mgr.conns[c];
        BroadcastGrows(n.mgr, r, p, Excluded(ev), c);
        HeadFits(n, c, p, logs, granted);
        assert ConnInv(conn, n.inbox[1..], logs, granted);
        if CS.InIndex(n.mgr, conn.user, r) {
          assert p.channel == Channel(r) && (conn.user, r) in granted;
          GrewKeepsConnInv(conn, m'.conns[c], Some(p), n.inbox[1..], logs, granted);
        }
      }
    }
  }

  /** A broadcast changes neither rooms nor index. */
  lemma BroadcastKeepsTables(n: Node, m': CS.Manager, granted: set<(User, Room)>)
    requires RoomsCovered(n) && RoomsSubscribed(n) && IndexGranted(n.mgr, granted) && CS.SameTables(n.mgr, m')
    ensures RoomsCovered(n.(mgr := m')) && RoomsSubscribed(n.(mgr := m')) && IndexGranted(m', granted)
  {
    forall u, r | CS.InIndex(m', u, r) ensures (u, r) in granted {
      assert CS.InIndex(n.mgr, u, r);
    }
  }

  lemma DeliverKeepsTables(n: Node, ev: Event, granted: set<(User, Room)>)
    requires CS.Inv(n.mgr) && RoomsCovered(n) && RoomsSubscribed(n) && IndexGranted(n.mgr, granted) && n.inbox != []
    ensures var n' := Deliver(n, ev);
            CS.Inv(n'.mgr) && RoomsCovered(n') && RoomsSubscribed(n') && IndexGranted(n'.mgr, granted)
  {
    var e := n.inbox[0];
    if e.channel in n.callbacks {
      var r, p := n.callbacks[e.channel], FromRoom(e.channel, e.index, ev);
      CS.StepKeepsInv(n.mgr, CS.BroadcastOp(r, p, Excluded(ev)));
      CS.SpreadSameTables(n.mgr, CS.Members(n.mgr.index, r), p, Excluded(ev));
      BroadcastKeepsTables(n, CS.Broadcast(n.mgr, r, p, Excluded(ev)), granted);
    }
  }

  lemma DeliverKeepsInbox(n: Node, ev: Event, logs: Logs)
    requires InboxInv(n, logs) && n.inbox != []
    ensures InboxInv(Deliver(n, ev), logs)
  {
    ReadKeepsInbox(n, logs);
  }

  lemma DeliverKeepsNodeInv(n: Node, ev: Event, logs: Logs, granted: set<(User, Room)>)
    requires NodeInv(n, logs, granted) && n.inbox != []
    requires ev == Log(logs, n.inbox[0].channel)[n.inbox[0].index]
    ensures NodeInv(Deliver(n, ev), logs, granted)
  {
    DeliverKeepsConns(n, ev, logs, granted);
    DeliverKeepsTables(n, ev, granted);
    DeliverKeepsInbox(n, ev, logs);
  }

  // ---------------------------------------------------------------- Redis and the rest

  lemma ReceiveKeepsGapless(n: Node, ev: Event, ch: string, logs: Logs)
    requires InboxGapless(n, logs)
    ensures InboxGapless(Receive(n, ch, |Log(logs, ch)|), logs[ch := Log(logs, ch) + [ev]])
  {
  }

  lemma ReceiveKeepsOrdered(n: Node, ch: string, logs: Logs)
    requires InboxPlaced(n, logs) && InboxOrdered(n.inbox)
    ensures InboxOrdered(Receive(n, ch, |Log(logs, ch)|).inbox)
  {
  }

  lemma ReceiveKeepsInbox(n: Node, ev: Event, ch: string, logs: Logs)
    requires InboxInv(n, logs)
    ensures InboxInv(Receive(n, ch, |Log(logs, ch)|), logs[ch := Log(logs, ch) + [ev]])
  {
    ReceiveKeepsGapless(n, ev, ch, logs);
    ReceiveKeepsOrdered(n, ch, logs);
    var logs', n' := logs[ch := Log(logs, ch) + [ev]], Receive(n, ch, |Log(logs, ch)|);
    forall b | 0 <= b < |n'.inbox| ensures n'.inbox[b].index < |Log(logs', n'.inbox[b].channel)| {
    }
  }

  lemma ReceiveKeepsConn(conn: CS.Conn, n: Node, ev: Event, ch: string, logs: Logs, granted: set<(User, Room)>)
    requires ConnInv(conn, n.inbox, logs, granted)
    ensures ConnInv(conn, Receive(n, ch, |Log(logs, ch)|).inbox, logs[ch := Log(logs, ch) + [ev]], granted)
  {
    var logs' := logs[ch := Log(logs, ch) + [ev]];
    forall a | 0 <= a < |conn.accepted|
      ensures Genuine(conn.accepted[a], logs') && Permitted(conn.accepted[a], conn.user, granted)
      ensures conn.accepted[a].FromRoom? && conn.accepted[a].channel == ch ==> conn.accepted[a].index < |Log(logs, ch)|
    {
      assert conn.accepted[a] in conn.accepted;
      assert Genuine(conn.accepted[a], logs) && Permitted(conn.accepted[a], conn.user, granted);
    }
  }

  lemma ReceiveKeepsNodeInv(n: Node, ev: Event, ch: string, logs: Logs, granted: set<(User, Room)>)
    requires NodeInv(n, logs, granted)
    ensures NodeInv(Receive(n, ch, |Log(logs, ch)|), logs[ch := Log(logs, ch) + [ev]], granted)
  {
    ReceiveKeepsInbox(n, ev, ch, logs);
    forall c <- n.mgr.conns
      ensures ConnInv(n.mgr.conns[c], Receive(n, ch, |Log(logs, ch)|).inbox, logs[ch := Log(logs, ch) + [ev]], granted)
    {
      ReceiveKeepsConn(n.mgr.conns[c], n, ev, ch, logs, granted);
    }
  }

  lemma GrantKeepsNodeInv(n: Node, logs: Logs, granted: set<(User, Room)>, more: set<(User, Room)>)
    requires NodeInv(n, logs, granted) && granted <= more
    ensures NodeInv(n, logs, more)
  {
  }

  /** Losing entries from the inbox, or the whole link, disturbs no order. */
  lemma RelinkKeepsNodeInv(n: Node, pending: set<string>, up: bool, logs: Logs, granted: set<(User, Room)>)
    requires NodeInv(n, logs, granted) && (up ==> pending == n.callbacks.Keys)
    ensures NodeInv(n.(pending := pending, subs := {}, inbox := [], up := up), logs, granted)
  {
  }

  lemma AttachKeepsInbox(n: Node, ch: string, logs: Logs)
    requires InboxInv(n, logs)
    ensures InboxInv(Attach(n, ch, logs), logs)
  {
  }

  lemma AttachKeepsRooms(n: Node, ch: string, logs: Logs)
    requires RoomsSubscribed(n)
    ensures RoomsSubscribed(Attach(n.(pending := n.pending - {ch}), ch, logs))
  {
    var n' := Attach(n.(pending := n.pending - {ch}), ch, logs);
    assert forall q :: Requested(n, q) ==> Requested(n', q);
  }

  /** Redis processing a subscribe command: from here on the inbox misses nothing of the channel. */
  lemma AttachKeepsNodeInv(n: Node, ch: string, logs: Logs, granted: set<(User, Room)>)
    requires NodeInv(n, logs, granted)
    ensures NodeInv(Attach(n.(pending := n.pending - {ch}), ch, logs), logs, granted)
  {
    AttachKeepsInbox(n.(pending := n.pending - {ch}), ch, logs);
    AttachKeepsRooms(n, ch, logs);
  }

  /** A join moving on: the new table has its callback where it must. */
  lemma JoinsKeepNodeInv(n: Node, joins: map<JoinId, Join>, callbacks: map<string, Room>, logs: Logs,
                         granted: set<(User, Room)>)
    requires NodeInv(n, logs, granted)
    requires n.callbacks.Keys <= callbacks.Keys && forall ch <- callbacks :: ch == Channel(callbacks[ch])
    requires JoinsBacked(n.(joins := joins, callbacks := callbacks), granted)
    requires RoomsSubscribed(n.(joins := joins, callbacks := callbacks))
    ensures NodeInv(n.(joins := joins, callbacks := callbacks), logs, granted)
  {
  }

  lemma CallbackKeepsNodeInv(s: System, n: Node, i: NodeId, j: JoinId)
    requires NodeInv(n, s.logs, s.granted) && JoinAt(n, j, Checked)
    ensures NodeInv(NodeApply(s, StoreCallback(i, j), n), s.logs, s.granted)
  {
    var join := n.joins[j];
    JoinsKeepNodeInv(n, n.joins[j := join.(phase := Stored)], n.callbacks[Channel(join.room) := join.room], s.logs,
                     s.granted);
  }

  lemma SubscribeKeepsNodeInv(s: System, n: Node, i: NodeId, j: JoinId, success: bool)
    requires NodeInv(n, s.logs, s.granted) && JoinAt(n, j, Stored)
    ensures NodeInv(NodeApply(s, SubscribeSent(i, j, success), n), s.logs, s.granted)
  {
    if success {
      var asked := n.(pending := n.pending + {Channel(n.joins[j].room)});
      JoinsKeepNodeInv(asked, n.joins[j := n.joins[j].(phase := Asked)], n.callbacks, s.logs, s.granted);
    } else {
      JoinsKeepNodeInv(n, n.joins - {j}, n.callbacks, s.logs, s.granted);
    }
  }

  lemma OrdinaryKeepsNodeInv(n: Node, op: CS.Op, logs: Logs, granted: set<(User, Room)>)
    requires NodeInv(n, logs, granted) && CS.Enabled(n.mgr, op) && Ordinary(op)
    ensures NodeInv(n.(mgr := CS.Apply(n.mgr, op)), logs, granted)
  {
    CS.StepKeepsInv(n.mgr, op);
    OrdinaryIsCalm(n.mgr, op);
    CalmKeepsNodeInv(n, CS.Apply(n.mgr, op), logs, granted);
  }

  /** The steps of one instance. */
  predicate Local(step: Step) {
    || step.ManagerStep? || step.StoreCallback? || step.SubscribeSent? || step.RedisSubscribes? || step.JoinIndex?
    || step.Dispatch? || step.LinkDrop? || step.Reconnect?
  }

  lemma LocalKeepsNodeInv(s: System, step: Step)
    requires Local(step) && Enabled(s, step) && NodeInv(s.nodes[step.node], s.logs, s.granted)
    ensures NodeInv(NodeApply(s, step, s.nodes[step.node]), s.logs, s.granted)
  {
    var n := s.nodes[step.node];
    match step
    case ManagerStep(_, op) => OrdinaryKeepsNodeInv(n, op, s.logs, s.granted);
    case StoreCallback(i, j) => CallbackKeepsNodeInv(s, n, i, j);
    case SubscribeSent(i, j, success) => SubscribeKeepsNodeInv(s, n, i, j, success);
    case RedisSubscribes(_, ch) => AttachKeepsNodeInv(n, ch, s.logs, s.granted);
    case JoinIndex(_, j) => JoinIndexKeepsNodeInv(n, j, s.logs, s.granted);
    case Dispatch(_) => DeliverKeepsNodeInv(n, Log(s.logs, n.inbox[0].channel)[n.inbox[0].index], s.logs, s.granted);
    case LinkDrop(_) => RelinkKeepsNodeInv(n, {}, false, s.logs, s.granted);
    case Reconnect(_) => RelinkKeepsNodeInv(n, n.callbacks.Keys, true, s.logs, s.granted);
  }

  // ---------------------------------------------------------------- the whole system

  lemma BackedKept(store: MS.Store, store': MS.Store, ev: Event)
    requires MS.Extends(store, store') && Backed(store, ev)
    ensures Backed(store', ev)
  {
  }

  lemma StoreStepKeeps(s: System, op: MS.StoreOp)
    requires Inv(s) && MS.StoreEnabled(s.store, op)
    ensures Inv(s.(store := MS.StoreApply(s.store, op)))
  {
    var store' := MS.StoreApply(s.store, op);
    MS.StoreStepKeepsInv(s.store, op);
    MS.StoreStepExtends(s.store, op);
    forall ev | Backed(s.store, ev) ensures Backed(store', ev) {
      BackedKept(s.store, store', ev);
    }
  }

  lemma AppendKeepsLogs(logs: Logs, store: MS.Store, ev: Event)
    requires LogsInv(logs, store) && Backed(store, ev)
    ensures LogsInv(logs[Channel(ev.room) := Log(logs, Channel(ev.room)) + [ev]], store)
  {
    var ch := Channel(ev.room);
    var logs' := logs[ch := Log(logs, ch) + [ev]];
    forall q, k | 0 <= k < |Log(logs', q)|
      ensures q == Channel(Log(logs', q)[k].room) && Backed(store, Log(logs', q)[k])
    {
      if q == ch && k == |Log(logs, ch)| {
        assert Log(logs', q)[k] == ev;
      } else {
        assert k < |Log(logs, q)| && Log(logs', q)[k] == Log(logs, q)[k];
      }
    }
  }

  /** Redis receiving an event of a publication that `s.bus` has counted already. */
  lemma AppendKeepsNodes(s: System, ev: Event)
    requires forall i <- s.nodes :: NodeInv(s.nodes[i], s.logs, s.granted)
    ensures var s' := Append(s, ev); forall i <- s'.nodes :: NodeInv(s'.nodes[i], s'.logs, s'.granted)
  {
    var ch, s' := Channel(ev.room), Append(s, ev);
    forall i <- s'.nodes ensures NodeInv(s'.nodes[i], s'.logs, s'.granted) {
      ReceiveKeepsNodeInv(s.nodes[i], ev, ch, s.logs, s.granted);
    }
  }

  lemma TryKeepsPubs(bus: Bus<Event>, store: MS.Store, p: PubId, o: Outcome)
    requires PubsInv(bus, store) && Is(bus, p, Trying)
    ensures PubsInv(TryOnce(bus, p, o), store)
  {
  }

  lemma AppliedKeeps(s: System, p: PubId, o: Outcome)
    requires Inv(s) && Is(s.bus, p, Trying) && o.Applied()
    ensures Inv(Append(s.(bus := TryOnce(s.bus, p, o)), s.bus.pubs[p].event))
  {
    var ev := s.bus.pubs[p].event;
    TryKeeps(s.bus, p, o);
    TryMirrors(s.logs, s.bus, p, o);
    TryKeepsPubs(s.bus, s.store, p, o);
    AppendKeepsLogs(s.logs, s.store, ev);
    AppendKeepsNodes(s.(bus := TryOnce(s.bus, p, o)), ev);
  }

  lemma AttemptKeeps(s: System, p: PubId, o: Outcome)
    requires Inv(s) && Enabled(s, Attempt(p, o))
    ensures Inv(Apply(s, Attempt(p, o)))
  {
    if o.Applied() {
      AppliedKeeps(s, p, o);
    } else {
      TryKeeps(s.bus, p, o);
      TryMirrors(s.logs, s.bus, p, o);
      TryKeepsPubs(s.bus, s.store, p, o);
      BusKeeps(s, TryOnce(s.bus, p, o));
    }
  }

  lemma BusKeeps(s: System, bus: Bus<Event>)
    requires Inv(s) && BusInv(bus) && PubsInv(bus, s.store) && AllMirrored(s.logs, bus)
    ensures Inv(s.(bus := bus))
  {
  }

  /** The dead-letter steps change no log, and of a publication only its status. */
  ghost predicate SameEvents(b: Bus<Event>, b': Bus<Event>) {
    && b'.sources == b.sources && b'.pubs.Keys == b.pubs.Keys
    && forall p <- b.pubs :: b'.pubs[p].channel == b.pubs[p].channel && b'.pubs[p].event == b.pubs[p].event
  }

  lemma SameEventsKeep(s: System, bus: Bus<Event>)
    requires Inv(s) && BusInv(bus) && SameEvents(s.bus, bus)
    ensures Inv(s.(bus := bus))
  {
    MirrorsKept(s.logs, s.bus, bus);
    BusKeeps(s, bus);
  }

  lemma LetterStepsSameEvents(b: Bus<Event>, p: PubId, o: Outcome)
    ensures Is(b, p, Exhausted) ==> SameEvents(b, WriteLetter(b, p, o))
    ensures Is(b, p, Lettered(Due)) ==> SameEvents(b, CutLetters(b, p, o))
  {
  }

  lemma PushLetterKeeps(s: System, p: PubId, o: Outcome)
    requires Inv(s) && Is(s.bus, p, Exhausted)
    ensures Inv(s.(bus := WriteLetter(s.bus, p, o)))
  {
    WriteKeeps(s.bus, p, o);
    LetterStepsSameEvents(s.bus, p, o);
    SameEventsKeep(s, WriteLetter(s.bus, p, o));
  }

  lemma TrimLetterKeeps(s: System, p: PubId, o: Outcome)
    requires Inv(s) && Is(s.bus, p, Lettered(Due))
    ensures Inv(s.(bus := CutLetters(s.bus, p, o)))
  {
    CutKeeps(s.bus, p, o);
    LetterStepsSameEvents(s.bus, p, o);
    SameEventsKeep(s, CutLetters(s.bus, p, o));
  }

  lemma JoinStartKeepsNodeInv(n: Node, j: JoinId, u: User, r: Room, logs: Logs, granted: set<(User, Room)>)
    requires NodeInv(n, logs, granted) && (u, r) in granted && j !in n.joins
    ensures NodeInv(n.(joins := n.joins[j := Join(u, r, Checked)]), logs, granted)
  {
    JoinsKeepNodeInv(n, n.joins[j := Join(u, r, Checked)], n.callbacks, logs, granted);
  }

  lemma JoinCheckKeeps(s: System, step: Step)
    requires Inv(s) && step.JoinCheck? && Enabled(s, step)
    ensures Inv(Apply(s, step))
  {
    var granted := s.granted + {(step.user, step.room)};
    forall i <- s.nodes ensures NodeInv(s.nodes[i], s.logs, granted) {
      GrantKeepsNodeInv(s.nodes[i], s.logs, s.granted, granted);
    }
    JoinStartKeepsNodeInv(s.nodes[step.node], step.join, step.user, step.room, s.logs, granted);
  }

  lemma ReplaceNodeKeeps(s: System, s': System, i: NodeId, n: Node)
    requires Inv(s) && NodeInv(n, s.logs, s.granted) && s' == s.(nodes := s.nodes[i := n])
    ensures Inv(s')
  {
  }

  lemma LocalChangesOneNode(s: System, step: Step)
    requires Local(step) && Enabled(s, step)
    ensures Apply(s, step) == s.(nodes := s.nodes[step.node := NodeApply(s, step, s.nodes[step.node])])
  {
  }

  lemma LocalKeepsItsNode(s: System, step: Step, s': System)
    requires Local(step) && Enabled(s, step) && NodeInv(s.nodes[step.node], s.logs, s.granted) && s' == Apply(s, step)
    ensures step.node in s'.nodes && s' == s.(nodes := s.nodes[step.node := s'.nodes[step.node]])
    ensures NodeInv(s'.nodes[step.node], s.logs, s.granted)
  {
    LocalChangesOneNode(s, step);
    LocalKeepsNodeInv(s, step);
  }

  lemma LocalKeeps(s: System, step: Step)
    requires Inv(s) && Local(step) && Enabled(s, step)
    ensures Inv(Apply(s, step))
  {
    var s' := Apply(s, step);
    LocalKeepsItsNode(s, step, s');
    ReplaceNodeKeeps(s, s', step.node, s'.nodes[step.node]);
  }

  lemma FreshNodeInv(max: int, logs: Logs, granted: set<(User, Room)>)
    ensures NodeInv(FreshNode(max), logs, granted)
  {
  }

  lemma AnnounceKeepsPubs(bus: Bus<Event>, store: MS.Store, p: PubId, ev: Event)
    requires PubsInv(bus, store) && Backed(store, ev)
    ensures PubsInv(Announce(bus, p, Channel(ev.room), ev), store)
  {
  }

  lemma NewPublicationKeeps(s: System, p: PubId, ev: Event)
    requires Inv(s) && Backed(s.store, ev) && p !in s.bus.pubs
    ensures Inv(Publish(s, p, ev))
  {
    var bus := Announce(s.bus, p, Channel(ev.room), ev);
    AnnounceKeeps(s.bus, p, Channel(ev.room), ev);
    AnnounceKeepsPubs(s.bus, s.store, p, ev);
    MirrorsKept(s.logs, s.bus, bus);
    BusKeeps(s, bus);
  }

  lemma MembersKeep(s: System, members: set<(User, Room)>)
    requires Inv(s)
    ensures Inv(s.(members := members))
  {
  }

  lemma CrashKeeps(s: System, i: NodeId)
    requires Inv(s)
    ensures Inv(s.(nodes := s.nodes - {i}))
  {
  }

  lemma BootKeeps(s: System, i: NodeId, max: int)
    requires Inv(s)
    ensures Inv(s.(nodes := s.nodes[i := FreshNode(max)]))
  {
    FreshNodeInv(max, s.logs, s.granted);
    ReplaceNodeKeeps(s, s.(nodes := s.nodes[i := FreshNode(max)]), i, FreshNode(max));
  }

  /** The steps of `publish` calls. */
  predicate Publishes(step: Step) {
    step.PublishChat? || step.PublishOther? || step.Attempt? || step.PushLetter? || step.TrimLetter?
  }

  lemma PublishKeeps(s: System, step: Step)
    requires Inv(s) && Publishes(step) && Enabled(s, step)
    ensures Inv(Apply(s, step))
  {
    match step
    case PublishChat(p, t) => NewPublicationKeeps(s, p, ChatOf(s.store.txns[t].req, s.store.txns[t].id));
    case PublishOther(p, ev) => NewPublicationKeeps(s, p, ev);
    case Attempt(p, o) => AttemptKeeps(s, p, o);
    case PushLetter(p, o) => PushLetterKeeps(s, p, o);
    case TrimLetter(p, o) => TrimLetterKeeps(s, p, o);
  }

  /** The steps of the table, the membership relation and whole instances. */
  predicate Global(step: Step) {
    step.StoreStep? || step.MembersChange? || step.Boot? || step.Crash?
  }

  lemma GlobalKeeps(s: System, step: Step)
    requires Inv(s) && Global(step) && Enabled(s, step)
    ensures Inv(Apply(s, step))
  {
    match step
    case StoreStep(op) => StoreStepKeeps(s, op);
    case MembersChange(members) => MembersKeep(s, members);
    case Boot(i, max) => BootKeeps(s, i, max);
    case Crash(i) => CrashKeeps(s, i);
  }

  /** Every step of the system keeps the invariant. */
  lemma StepKeepsInv(s: System, step: Step)
    requires Inv(s) && Enabled(s, step)
    ensures Inv(Apply(s, step))
  {
    if Publishes(step) {
      PublishKeeps(s, step);
    } else if Global(step) {
      GlobalKeeps(s, step);
    } else if step.JoinCheck? {
      JoinCheckKeeps(s, step);
    } else {
      LocalKeeps(s, step);
    }
  }
}
