/** The room protocol: any number of server instances, one Redis, one message table.

    A step is one stretch of code between suspension points, or one atomic action of Redis or the database.
    Redis keeps one append-only log per channel; publishing also hands the new entry to every instance whose
    pub/sub link is subscribed, in order. */
module RoomProtocol {
  import opened Options
  import opened Events
  import opened Publishing
  import CS = ConnectionState
  import MS = MessageStore

  type NodeId = nat
  type JoinId = nat

  /** How far a `_handle_join_room` call has come: membership checked, callback stored, subscribe command sent. */
  datatype JoinPhase = Checked | Stored | Asked

  datatype Join = Join(user: User, room: Room, phase: JoinPhase)

  datatype Entry = Entry(channel: string, index: nat)

  /** One server instance. `pending` are the subscribe commands its link has sent and Redis has not processed; `subs`
      is what Redis has. `inbox` is what the link has received and the listener has not yet read; `next` is history:
      the log position each subscribed channel's listener reads next. `up` is false from a lost link to the next
      successful reconnection. */
  datatype Node = Node(
    mgr: CS.Manager,
    callbacks: map<string, Room>,
    pending: set<string>,
    subs: set<string>,
    inbox: seq<Entry>,
    joins: map<JoinId, Join>,
    next: map<string, nat>,
    up: bool)

  /** `granted` is history: every (user, room) pair that ever passed the membership check. */
  datatype System = System(
    store: MS.Store,
    logs: map<string, seq<Event>>,
    bus: Bus<Event>,
    nodes: map<NodeId, Node>,
    members: set<(User, Room)>,
    granted: set<(User, Room)>)

  function Start(members: set<(User, Room)>): System {
    System(MS.EmptyStore(), map[], Bus(map[], map[], []), map[], members, {})
  }

  function FreshNode(max: int): Node {
    Node(CS.Empty(max), map[], {}, {}, [], map[], map[], true)
  }

  function ChatOf(req: MS.Request, id: MessageId): Event {
    Chat(id, req.room, req.sender, req.content)
  }

  /** The callback leaves a typing indicator out of its author's own connection. */
  function Excluded(ev: Event): Option<User> {
    if ev.Typing? then Some(ev.user) else None
  }

  // ---------------------------------------------------------------- steps

  datatype Step =
    | StoreStep(op: MS.StoreOp)
    | MembersChange(members: set<(User, Room)>)
    | PublishChat(pub: PubId, txn: MS.Txn)        // `_handle_message` past its commit
    | PublishOther(pub: PubId, event: Event)      // presence and typing, by anyone for any room
    | Attempt(pub: PubId, outcome: Outcome)
    | PushLetter(pub: PubId, outcome: Outcome)
    | TrimLetter(pub: PubId, outcome: Outcome)
    | Boot(node: NodeId, max: int)
    | Crash(node: NodeId)
    | ManagerStep(node: NodeId, mop: CS.Op)
    | JoinCheck(node: NodeId, join: JoinId, user: User, room: Room)
    | StoreCallback(node: NodeId, join: JoinId)
    | SubscribeSent(node: NodeId, join: JoinId, success: bool)
    | RedisSubscribes(node: NodeId, channel: string)
    | JoinIndex(node: NodeId, join: JoinId)
    | Dispatch(node: NodeId)
    | LinkDrop(node: NodeId)
    | Reconnect(node: NodeId)

  /** The manager steps the handlers and tasks take on their own: everything except joining a room, which needs
      the join protocol, and broadcasting, which only the listener does. Direct sends carry no room event. */
  predicate Ordinary(op: CS.Op) {
    !op.JoinOp? && !op.BroadcastOp? && (op.SendOp? ==> op.payload.Direct?)
  }

  predicate JoinAt(n: Node, j: JoinId, phase: JoinPhase) {
    j in n.joins && n.joins[j].phase == phase
  }

  /** The head of the inbox refers to an entry of its channel's log. */
  predicate CanDispatch(s: System, n: Node) {
    n.inbox != [] && n.inbox[0].index < |Log(s.logs, n.inbox[0].channel)|
  }

  ghost predicate Enabled(s: System, step: Step) {
    match step
    case StoreStep(op) => MS.StoreEnabled(s.store, op)
    case MembersChange(_) => true
    case PublishChat(p, t) => p !in s.bus.pubs && t in s.store.txns && s.store.txns[t].Ready?
    case PublishOther(p, ev) => p !in s.bus.pubs && !ev.Chat?
    case Attempt(p, _) => Is(s.bus, p, Trying)
    case PushLetter(p, _) => Is(s.bus, p, Exhausted)
    case TrimLetter(p, _) => Is(s.bus, p, Lettered(Due))
    case Boot(i, _) => i !in s.nodes
    case Crash(i) => i in s.nodes
    case ManagerStep(i, op) => i in s.nodes && Ordinary(op) && CS.Enabled(s.nodes[i].mgr, op)
    case JoinCheck(i, j, u, r) => i in s.nodes && j !in s.nodes[i].joins && (u, r) in s.members
    case StoreCallback(i, j) => i in s.nodes && JoinAt(s.nodes[i], j, Checked)
    case SubscribeSent(i, j, _) => i in s.nodes && JoinAt(s.nodes[i], j, Stored)
    case RedisSubscribes(i, ch) => i in s.nodes && ch in s.nodes[i].pending
    case JoinIndex(i, j) =>
      && i in s.nodes && JoinAt(s.nodes[i], j, Asked)
      && CS.Enabled(s.nodes[i].mgr, CS.JoinOp(s.nodes[i].joins[j].user, s.nodes[i].joins[j].room))
    case Dispatch(i) => i in s.nodes && CanDispatch(s, s.nodes[i])
    case LinkDrop(i) => i in s.nodes
    case Reconnect(i) => i in s.nodes
  }

  /** A `publish` call on the event's room channel, its attempts still to come. */
  function Publish(s: System, p: PubId, ev: Event): System {
    s.(bus := Announce(s.bus, p, Channel(ev.room), ev))
  }

  /** Redis appends to the channel's log and to the inbox of every subscribed instance. */
  function Append(s: System, ev: Event): System {
    var ch := Channel(ev.room);
    var log := Log(s.logs, ch);
    s.(logs := s.logs[ch := log + [ev]],
       nodes := map i | i in s.nodes :: Receive(s.nodes[i], ch, |log|))
  }

  function Receive(n: Node, ch: string, index: nat): Node {
    if ch in n.subs then n.(inbox := n.inbox + [Entry(ch, index)]) else n
  }

  /** A subscribe command reaching Redis; a channel already subscribed keeps its place. */
  function Attach(n: Node, ch: string, logs: map<string, seq<Event>>): Node {
    if ch in n.subs then n else n.(subs := n.subs + {ch}, next := n.next[ch := |Log(logs, ch)|])
  }

  /** The listener hands the oldest received entry to its channel's callback, if there is one. */
  function Deliver(n: Node, ev: Event): Node
    requires n.inbox != []
  {
    var e := n.inbox[0];
    var read := n.(inbox := n.inbox[1..], next := n.next[e.channel := e.index + 1]);
    if e.channel !in n.callbacks then read
    else read.(mgr := CS.Broadcast(n.mgr, n.callbacks[e.channel], FromRoom(e.channel, e.index, ev), Excluded(ev)))
  }

  function NodeApply(s: System, step: Step, n: Node): Node
    requires step.ManagerStep? ==> CS.Enabled(n.mgr, step.mop)
    requires step.StoreCallback? || step.SubscribeSent? || step.JoinIndex? ==> step.join in n.joins
    requires step.JoinIndex? ==> CS.Enabled(n.mgr, CS.JoinOp(n.joins[step.join].user, n.joins[step.join].room))
    requires step.Dispatch? ==> CanDispatch(s, n)
  {
    match step
    case ManagerStep(_, op) => n.(mgr := CS.Apply(n.mgr, op))
    case JoinCheck(_, j, u, r) => n.(joins := n.joins[j := Join(u, r, Checked)])
    case StoreCallback(_, j) =>
      var join := n.joins[j];
      n.(callbacks := n.callbacks[Channel(join.room) := join.room], joins := n.joins[j := join.(phase := Stored)])
    case SubscribeSent(_, j, success) =>
      var join := n.joins[j];
      if success then n.(joins := n.joins[j := join.(phase := Asked)], pending := n.pending + {Channel(join.room)})
      else n.(joins := n.joins - {j})
    case RedisSubscribes(_, ch) => Attach(n.(pending := n.pending - {ch}), ch, s.logs)
    case JoinIndex(_, j) =>
      n.(mgr := CS.JoinRoom(n.mgr, n.joins[j].user, n.joins[j].room), joins := n.joins - {j})
    case Dispatch(_) => Deliver(n, Log(s.logs, n.inbox[0].channel)[n.inbox[0].index])
    case LinkDrop(_) => n.(pending := {}, subs := {}, inbox := [], up := false)
    case Reconnect(_) => n.(pending := n.callbacks.Keys, subs := {}, inbox := [], up := true)
    case _ => n
  }

  ghost function Apply(s: System, step: Step): System
    requires Enabled(s, step)
  {
    match step
    case StoreStep(op) => s.(store := MS.StoreApply(s.store, op))
    case MembersChange(members) => s.(members := members)
    case PublishChat(p, t) =>
      Publish(s, p, ChatOf(s.store.txns[t].req, s.store.txns[t].id))
    case PublishOther(p, ev) => Publish(s, p, ev)
    case Attempt(p, o) =>
      var counted := s.(bus := TryOnce(s.bus, p, o));
      if o.Applied() then Append(counted, s.bus.pubs[p].event) else counted
    case PushLetter(p, o) => s.(bus := WriteLetter(s.bus, p, o))
    case TrimLetter(p, o) => s.(bus := CutLetters(s.bus, p, o))
    case Boot(i, max) => s.(nodes := s.nodes[i := FreshNode(max)])
    case Crash(i) => s.(nodes := s.nodes - {i})
    case JoinCheck(i, _, u, r) =>
      s.(nodes := s.nodes[i := NodeApply(s, step, s.nodes[i])], granted := s.granted + {(u, r)})
    case _ => s.(nodes := s.nodes[step.node := NodeApply(s, step, s.nodes[step.node])])
  }
}
