/** What the protocol's remaining steps do, said without their definitions, and which entries never arrive. */
module RoomEffects {
  import opened Options
  import opened Events
  import opened Publishing
  import opened RoomProtocol
  import opened RoomInvariants
  import opened RoomTheorems
  import CS = ConnectionState
  import CE = ConnectionEffects
  import MS = MessageStore
  import DL = DeadLetters

  // ---------------------------------------------------------------- publishing

  /** Everything but the bus is as before, and of the bus everything but publication `p`. */
  ghost predicate OnlyAnnounced(s: System, s': System, p: PubId) {
    && s' == s.(bus := s'.bus)
    && s'.bus.sources == s.bus.sources && s'.bus.commands == s.bus.commands
    && s'.bus.pubs.Keys == s.bus.pubs.Keys + {p}
    && forall q <- s.bus.pubs :: q != p ==> s'.bus.pubs[q] == s.bus.pubs[q]
  }

  lemma OtherIsAnnounced(s: System, p: PubId, ev: Event)
    requires Enabled(s, PublishOther(p, ev))
    ensures var s' := Apply(s, PublishOther(p, ev));
            OnlyAnnounced(s, s', p) && s'.bus.pubs[p] == Publication("room:" + ev.room, ev, [], Trying)
  {
  }

  /** A handler past its commit announces its own request's fields under the id of its row, on the channel of the
      request's room, with all three attempts ahead. */
  lemma ChatIsAnnounced(s: System, p: PubId, t: MS.Txn)
    requires Enabled(s, PublishChat(p, t))
    ensures var s', ph := Apply(s, PublishChat(p, t)), s.store.txns[t];
            && OnlyAnnounced(s, s', p)
            && s'.bus.pubs[p] == Publication("room:" + ph.req.room,
                                             Chat(ph.id, ph.req.room, ph.req.sender, ph.req.content), [], Trying)
  {
  }

  /** The dead-letter list of a state. */
  function Letterbox(s: System): seq<PubId> {
    DL.Contents<PubId>(s.bus.commands)
  }

  lemma LetterboxSnoc(cmds: seq<DL.Command<PubId>>, c: DL.Command<PubId>)
    ensures var list := DL.Contents<PubId>(cmds);
            DL.Contents<PubId>(cmds + [c]) ==
              if c.Push? then [c.item] + list else if |list| <= 10000 then list else list[..10000]
  {
    assert (cmds + [c])[..|cmds|] == cmds;
  }

  /** In every run: a push that Redis applied puts its letter in front, a trim that Redis applied leaves the newest
      10000 and no more, and no other step touches the list. */
  lemma LetterboxStep(states: seq<System>, steps: seq<Step>, k: nat)
    requires Run(states, steps) && k < |steps|
    ensures var list, list' := Letterbox(states[k]), Letterbox(states[k + 1]);
            match steps[k]
            case PushLetter(p, o) => list' == (if o.FailedBefore? then list else [p] + list)
            case TrimLetter(_, o) => list' == (if o.FailedBefore? || |list| <= 10000 then list else list[..10000])
            case _ => list' == list
  {
    assert Took(states, steps, k);
    LetterboxSnoc(states[k].bus.commands, DL.Trim);
    if steps[k].PushLetter? {
      LetterboxSnoc(states[k].bus.commands, DL.Push(steps[k].pub));
    }
  }

  predicate TrimApplied(steps: seq<Step>, j: nat, p: PubId) {
    j < |steps| && steps[j].TrimLetter? && steps[j].pub == p && steps[j].outcome.Applied()
  }

  ghost predicate Pushed(steps: seq<Step>, k: nat, p: PubId) {
    exists j :: 0 <= j < k && PushApplied(steps, j, p)
  }

  ghost predicate Trimmed(steps: seq<Step>, k: nat, p: PubId) {
    exists j :: 0 <= j < k && TrimApplied(steps, j, p)
  }

  /** What the two commands of a letter leave of their call: a trim follows only a push that was acknowledged. */
  lemma LetterStatus(s: System, p: PubId, o: Outcome)
    ensures Enabled(s, PushLetter(p, o)) ==>
              var status := Apply(s, PushLetter(p, o)).bus.pubs[p].status;
              && (o.Done? ==> status == Lettered(Due))
              && (o.FailedAfter? ==> status == Lettered(Missed))
              && (o.FailedBefore? ==> status == LetterLost)
    ensures Enabled(s, TrimLetter(p, o)) ==>
              s.bus.pubs[p].status == Lettered(Due) &&
              Apply(s, TrimLetter(p, o)).bus.pubs[p].status == Lettered(if o.FailedBefore? then Missed else Made)
  {
  }

  lemma StepUncut(s: System, step: Step, p: PubId)
    requires Enabled(s, step)
    ensures p in Uncut(Apply(s, step).bus) <==>
              (p in Uncut(s.bus) || PushApplied([step], 0, p)) && !TrimApplied([step], 0, p)
  {
  }

  lemma TrimFollowsPush(states: seq<System>, steps: seq<Step>, k: nat, p: PubId)
    requires Run(states, steps) && k < |states| && Trimmed(steps, k, p)
    ensures Pushed(steps, k, p)
  {
    var j :| 0 <= j < k && TrimApplied(steps, j, p);
    assert Took(states, steps, j);
    LetterIffPushed(states, steps, j, p);
    var i :| 0 <= i < j && PushApplied(steps, i, p);
  }

  /** In every run: the letters no trim of their writer has followed are those pushed by an applied push with no applied
      trim of the same call yet. */
  lemma {:induction false} UncutIff(states: seq<System>, steps: seq<Step>, k: nat, p: PubId)
    requires Run(states, steps) && k < |states|
    ensures p in Uncut(states[k].bus) <==> Pushed(steps, k, p) && !Trimmed(steps, k, p)
  {
    if k > 0 {
      var n := k - 1;
      UncutIff(states, steps, n, p);
      assert Took(states, steps, n);
      StepUncut(states[n], steps[n], p);
      assert PushApplied([steps[n]], 0, p) <==> PushApplied(steps, n, p);
      assert TrimApplied([steps[n]], 0, p) <==> TrimApplied(steps, n, p);
      LetterIffPushed(states, steps, n, p);
      if Trimmed(steps, n, p) {
        TrimFollowsPush(states, steps, n, p);
      }
    }
  }

  /** At every moment the list exceeds 10000 by at most the letters whose writer's trim is still due or was lost. */
  lemma LetterboxBound(states: seq<System>, steps: seq<Step>, k: nat)
    requires Run(states, steps) && k < |states|
    ensures |Letterbox(states[k])| <= 10000 + |Uncut(states[k].bus)|
  {
    RunKeepsInv(states, steps, k);
    BoundedList(states[k].bus);
  }

  // ---------------------------------------------------------------- joining

  /** Node `i` alone changed. */
  ghost predicate OnlyNode(s: System, s': System, i: NodeId) {
    && i in s.nodes && s'.nodes.Keys == s.nodes.Keys && s' == s.(nodes := s'.nodes, granted := s'.granted)
    && forall j <- s.nodes :: j != i ==> s'.nodes[j] == s.nodes[j]
  }

  /** The check lets a member start to join, and nobody else. */
  lemma JoinCheckIsExact(s: System, i: NodeId, j: JoinId, u: User, r: Room)
    requires Enabled(s, JoinCheck(i, j, u, r))
    ensures var s' := Apply(s, JoinCheck(i, j, u, r));
            && (u, r) in s.members && s'.granted == s.granted + {(u, r)} && OnlyNode(s, s', i)
            && s'.nodes[i] == s.nodes[i].(joins := s'.nodes[i].joins)
            && s'.nodes[i].joins == s.nodes[i].joins[j := Join(u, r, Checked)]
  {
  }

  /** Whoever is dropped from the members can start no new join, and keeps what was granted before. */
  lemma MembersChangeIsExact(s: System, members: set<(User, Room)>, i: NodeId, j: JoinId, u: User, r: Room)
    requires i in s.nodes && j !in s.nodes[i].joins
    ensures var s' := Apply(s, MembersChange(members));
            && (Enabled(s', JoinCheck(i, j, u, r)) <==> (u, r) in members)
            && s'.granted == s.granted && s'.nodes == s.nodes && s'.logs == s.logs && s'.bus == s.bus
            && s'.store == s.store
  {
  }

  /** `subscribe` stores the room's callback; a command that was sent is on its way, one that was not ends the join. */
  lemma SubscribeIsExact(s: System, i: NodeId, j: JoinId, success: bool)
    requires Enabled(s, SubscribeSent(i, j, success))
    ensures var s', n := Apply(s, SubscribeSent(i, j, success)), s.nodes[i];
            && OnlyNode(s, s', i) && s'.granted == s.granted
            && (if success then
                  && s'.nodes[i].pending == n.pending + {"room:" + n.joins[j].room}
                  && s'.nodes[i].joins == n.joins[j := Join(n.joins[j].user, n.joins[j].room, Asked)]
                else s'.nodes[i].pending == n.pending && s'.nodes[i].joins == n.joins - {j})
            && s'.nodes[i] == n.(pending := s'.nodes[i].pending, joins := s'.nodes[i].joins)
  {
  }

  /** Redis processing the command: the channel is subscribed, from the end of its log unless it was already. */
  lemma RedisSubscribesIsExact(s: System, i: NodeId, ch: string)
    requires Enabled(s, RedisSubscribes(i, ch))
    ensures var s', n := Apply(s, RedisSubscribes(i, ch)), s.nodes[i];
            && OnlyNode(s, s', i) && s'.granted == s.granted
            && s'.nodes[i].pending == n.pending - {ch} && s'.nodes[i].subs == n.subs + {ch}
            && (if ch in n.subs then s'.nodes[i].next == n.next
                else s'.nodes[i].next == n.next[ch := |Log(s.logs, ch)|])
            && s'.nodes[i] == n.(pending := s'.nodes[i].pending, subs := s'.nodes[i].subs, next := s'.nodes[i].next)
  {
  }

  lemma JoinIndexChangesOneNode(s: System, i: NodeId, j: JoinId)
    requires Enabled(s, JoinIndex(i, j))
    ensures var s', n := Apply(s, JoinIndex(i, j)), s.nodes[i];
            && OnlyNode(s, s', i) && s'.granted == s.granted
            && s'.nodes[i] == n.(mgr := s'.nodes[i].mgr, joins := n.joins - {j})
            && s'.nodes[i].mgr == CS.JoinRoom(n.mgr, n.joins[j].user, n.joins[j].room)
  {
  }

  /** User `u`, if registered, is now in room `r` by both structures; nothing else changed. */
  ghost predicate OnlyJoined(m: CS.Manager, m': CS.Manager, u: User, r: Room) {
    && (u in m.registered ==> CS.InRoom(m', u, r) && CS.InIndex(m', u, r))
    && CE.OtherPairsKept(m, m', u, r) && CE.OnlyRoomsChanged(m, m')
  }

  /** The end of a join: its user, if still registered, is in the room by both structures, and the join is over. */
  lemma JoinIndexIsExact(s: System, i: NodeId, j: JoinId)
    requires Inv(s) && Enabled(s, JoinIndex(i, j))
    ensures var s', n := Apply(s, JoinIndex(i, j)), s.nodes[i];
            && OnlyNode(s, s', i) && s'.granted == s.granted
            && s'.nodes[i] == n.(mgr := s'.nodes[i].mgr, joins := n.joins - {j})
            && OnlyJoined(n.mgr, s'.nodes[i].mgr, n.joins[j].user, n.joins[j].room)
  {
    JoinIndexChangesOneNode(s, i, j);
    assert NodeInv(s.nodes[i], s.logs, s.granted);
    CE.JoinIsExact(s.nodes[i].mgr, s.nodes[i].joins[j].user, s.nodes[i].joins[j].room);
  }

  // ---------------------------------------------------------------- links and instances

  /** A lost link takes the subscriptions, the commands under way and everything received but unread. */
  lemma LinkDropIsExact(s: System, i: NodeId)
    requires Enabled(s, LinkDrop(i))
    ensures var s', n := Apply(s, LinkDrop(i)), s.nodes[i];
            && OnlyNode(s, s', i) && s'.granted == s.granted
            && s'.nodes[i].subs == {} && s'.nodes[i].pending == {} && s'.nodes[i].inbox == [] && !s'.nodes[i].up
            && s'.nodes[i].mgr == n.mgr && s'.nodes[i].callbacks == n.callbacks && s'.nodes[i].joins == n.joins
  {
  }

  /** A new link asks for every channel that has a callback. */
  lemma ReconnectIsExact(s: System, i: NodeId)
    requires Enabled(s, Reconnect(i))
    ensures var s', n := Apply(s, Reconnect(i)), s.nodes[i];
            && OnlyNode(s, s', i) && s'.granted == s.granted
            && s'.nodes[i].pending == n.callbacks.Keys && s'.nodes[i].inbox == [] && s'.nodes[i].up
            && s'.nodes[i].mgr == n.mgr && s'.nodes[i].callbacks == n.callbacks && s'.nodes[i].joins == n.joins
  {
  }

  /** A crash takes one instance with its connections, and nothing that is shared. */
  lemma CrashIsExact(s: System, i: NodeId)
    requires Enabled(s, Crash(i))
    ensures var s' := Apply(s, Crash(i));
            && s'.nodes.Keys == s.nodes.Keys - {i} && s' == s.(nodes := s'.nodes)
            && (forall j <- s'.nodes :: s'.nodes[j] == s.nodes[j])
  {
  }

  // ---------------------------------------------------------------- entries that never arrive

  /** Entry `x` of channel `ch` is neither waiting at this instance nor was handed to any of its connections. */
  ghost predicate Avoids(n: Node, ch: string, x: nat) {
    && Entry(ch, x) !in n.inbox
    && forall c <- n.mgr.conns, p <- n.mgr.conns[c].accepted :: !(On(p, ch) && p.index == x)
  }

  ghost predicate Unreached(s: System, i: NodeId, ch: string, x: nat) {
    x < |Log(s.logs, ch)| && (i in s.nodes ==> Avoids(s.nodes[i], ch, x))
  }

  /** Connections accepted nothing but, possibly, direct payloads and `p`. */
  ghost predicate Gave(m: CS.Manager, m': CS.Manager, p: Option<Payload>) {
    forall c <- m'.conns ::
      if c in m.conns then Grew(m.conns[c].accepted, m'.conns[c].accepted, p) else m'.conns[c].accepted == []
  }

  lemma GrewAvoids(ps: seq<Payload>, ps': seq<Payload>, p: Option<Payload>, ch: string, x: nat)
    requires Grew(ps, ps', p) && (p.Some? ==> !(On(p.value, ch) && p.value.index == x))
    requires forall q <- ps :: !(On(q, ch) && q.index == x)
    ensures forall q <- ps' :: !(On(q, ch) && q.index == x)
  {
    forall q <- ps' ensures !(On(q, ch) && q.index == x) {
      var a :| 0 <= a < |ps'| && ps'[a] == q;
      if ps' != ps && a < |ps| {
        assert ps'[..|ps|][a] == q;
      }
      assert a < |ps| ==> q in ps;
    }
  }

  lemma GaveAvoids(n: Node, m': CS.Manager, inbox: seq<Entry>, p: Option<Payload>, ch: string, x: nat)
    requires Avoids(n, ch, x) && Gave(n.mgr, m', p) && Entry(ch, x) !in inbox
    requires p.Some? ==> !(On(p.value, ch) && p.value.index == x)
    ensures forall n': Node :: n'.mgr == m' && n'.inbox == inbox ==> Avoids(n', ch, x)
  {
    forall c <- m'.conns ensures forall q <- m'.conns[c].accepted :: !(On(q, ch) && q.index == x) {
      if c in n.mgr.conns {
        GrewAvoids(n.mgr.conns[c].accepted, m'.conns[c].accepted, p, ch, x);
      }
    }
  }

  lemma OrdinaryGivesNothing(m: CS.Manager, op: CS.Op)
    requires CS.Enabled(m, op) && Ordinary(op)
    ensures Gave(m, CS.Apply(m, op), None)
  {
    OrdinaryIsCalm(m, op);
  }

  lemma DeliverAvoids(n: Node, ev: Event, ch: string, x: nat)
    requires Avoids(n, ch, x) && n.inbox != []
    ensures Avoids(Deliver(n, ev), ch, x)
  {
    var e := n.inbox[0];
    assert e in n.inbox && forall f <- n.inbox[1..] :: f in n.inbox;
    if e.channel in n.callbacks {
      var r, p := n.callbacks[e.channel], FromRoom(e.channel, e.index, ev);
      forall c <- n.mgr.conns {
        BroadcastGrows(n.mgr, r, p, Excluded(ev), c);
      }
      GaveAvoids(n, CS.Broadcast(n.mgr, r, p, Excluded(ev)), n.inbox[1..], Some(p), ch, x);
    }
  }

  lemma LocalAvoids(s: System, step: Step, ch: string, x: nat)
    requires Local(step) && Enabled(s, step) && Avoids(s.nodes[step.node], ch, x)
    ensures Avoids(NodeApply(s, step, s.nodes[step.node]), ch, x)
  {
    var n := s.nodes[step.node];
    match step
    case ManagerStep(_, op) =>
      OrdinaryGivesNothing(n.mgr, op);
      GaveAvoids(n, CS.Apply(n.mgr, op), n.inbox, None, ch, x);
    case Dispatch(_) => DeliverAvoids(n, HeadEvent(s, n), ch, x);
    case _ =>
  }

  lemma ReceiveAvoids(n: Node, ch': string, index: nat, ch: string, x: nat)
    requires Avoids(n, ch, x) && (ch' == ch ==> x < index)
    ensures Avoids(Receive(n, ch', index), ch, x)
  {
  }

  lemma UnreachedStays(s: System, step: Step, i: NodeId, ch: string, x: nat)
    requires Enabled(s, step) && Unreached(s, i, ch, x)
    ensures Unreached(Apply(s, step), i, ch, x)
  {
    LogsGrow(s, step, ch);
    if i in s.nodes {
      if Local(step) && step.node == i {
        LocalChangesOneNode(s, step);
        LocalAvoids(s, step, ch, x);
      } else if step.Attempt? {
        var ev := s.bus.pubs[step.pub].event;
        ReceiveAvoids(s.nodes[i], Channel(ev.room), |Log(s.logs, Channel(ev.room))|, ch, x);
      }
    }
  }

  lemma {:induction false} UnreachedForGood(states: seq<System>, steps: seq<Step>, j: nat, k: nat,
                                            i: NodeId, ch: string, x: nat)
    requires Run(states, steps) && j <= k < |states| && Unreached(states[j], i, ch, x)
    ensures Unreached(states[k], i, ch, x)
    decreases k
  {
    if j < k {
      UnreachedForGood(states, steps, j, k - 1, i, ch, x);
      assert Took(states, steps, k - 1);
      UnreachedStays(states[k - 1], steps[k - 1], i, ch, x);
    }
  }

  /** Only an attempt makes a log grow, and an instance that is not subscribed does not notice. */
  lemma GrowthUnnoticed(s: System, step: Step, i: NodeId, ch: string)
    requires Enabled(s, step) && |Log(Apply(s, step).logs, ch)| > |Log(s.logs, ch)|
    requires i in s.nodes ==> ch !in s.nodes[i].subs
    ensures Apply(s, step).nodes.Keys == s.nodes.Keys
    ensures i in s.nodes ==> Apply(s, step).nodes[i] == s.nodes[i]
  {
  }

  lemma NextEntryAvoided(n: Node, logs: Logs, granted: set<(User, Room)>, ch: string)
    requires NodeInv(n, logs, granted) && ch !in n.subs
    ensures Avoids(n, ch, |Log(logs, ch)|)
  {
    forall c <- n.mgr.conns, p <- n.mgr.conns[c].accepted ensures !(On(p, ch) && p.index == |Log(logs, ch)|) {
      assert Genuine(p, logs);
    }
  }

  lemma AppendPassesBy(s: System, step: Step, i: NodeId, ch: string)
    requires Inv(s) && Enabled(s, step) && |Log(Apply(s, step).logs, ch)| > |Log(s.logs, ch)|
    requires i in s.nodes ==> ch !in s.nodes[i].subs
    ensures Unreached(Apply(s, step), i, ch, |Log(s.logs, ch)|)
  {
    GrowthUnnoticed(s, step, i, ch);
    if i in s.nodes {
      NextEntryAvoided(s.nodes[i], s.logs, s.granted, ch);
    }
  }

  lemma RunAppendPassesBy(states: seq<System>, steps: seq<Step>, j: nat, i: NodeId, ch: string)
    requires Run(states, steps) && j < |steps|
    requires |Log(states[j + 1].logs, ch)| > |Log(states[j].logs, ch)|
    requires i in states[j].nodes ==> ch !in states[j].nodes[i].subs
    ensures Unreached(states[j + 1], i, ch, |Log(states[j].logs, ch)|)
  {
    RunKeepsInv(states, steps, j);
    assert Took(states, steps, j);
    AppendPassesBy(states[j], steps[j], i, ch);
  }

  /** What is published while an instance is not subscribed never reaches a connection of that instance, then or
      later. */
  lemma UnsubscribedMissesForGood(states: seq<System>, steps: seq<Step>, j: nat, k: nat, i: NodeId, ch: string)
    requires Run(states, steps) && j < k < |states|
    requires |Log(states[j + 1].logs, ch)| > |Log(states[j].logs, ch)|
    requires i in states[j].nodes ==> ch !in states[j].nodes[i].subs
    ensures Unreached(states[k], i, ch, |Log(states[j].logs, ch)|)
  {
    RunAppendPassesBy(states, steps, j, i, ch);
    UnreachedForGood(states, steps, j + 1, k, i, ch, |Log(states[j].logs, ch)|);
  }

  lemma UnreadWasNotGiven(n: Node, logs: Logs, granted: set<(User, Room)>, ch: string, x: nat)
    requires NodeInv(n, logs, granted) && ch in n.subs && n.next[ch] <= x < |Log(logs, ch)|
    ensures forall c <- n.mgr.conns, p <- n.mgr.conns[c].accepted :: !(On(p, ch) && p.index == x)
  {
    assert Entry(ch, x) in n.inbox;
    var b :| 0 <= b < |n.inbox| && n.inbox[b] == Entry(ch, x);
    forall c <- n.mgr.conns, p <- n.mgr.conns[c].accepted ensures !(On(p, ch) && p.index == x) {
      assert ConnInv(n.mgr.conns[c], n.inbox, logs, granted);
      var a :| 0 <= a < |n.mgr.conns[c].accepted| && n.mgr.conns[c].accepted[a] == p;
    }
  }

  lemma DropLosesUnread(s: System, i: NodeId, ch: string, x: nat)
    requires Inv(s) && Enabled(s, LinkDrop(i)) && ch in s.nodes[i].subs && ch in s.nodes[i].next
    requires s.nodes[i].next[ch] <= x < |Log(s.logs, ch)|
    ensures Unreached(Apply(s, LinkDrop(i)), i, ch, x)
  {
    UnreadWasNotGiven(s.nodes[i], s.logs, s.granted, ch, x);
    LinkDropIsExact(s, i);
  }

  /** What a link had received and its listener had not read when the link was lost never reaches a connection of that
      instance. */
  lemma UnreadIsLostWithTheLink(states: seq<System>, steps: seq<Step>, j: nat, k: nat, i: NodeId, ch: string, x: nat)
    requires Run(states, steps) && j < k < |states| && steps[j] == LinkDrop(i)
    requires i in states[j].nodes && ch in states[j].nodes[i].subs && ch in states[j].nodes[i].next
    requires states[j].nodes[i].next[ch] <= x < |Log(states[j].logs, ch)|
    ensures Unreached(states[k], i, ch, x)
  {
    RunKeepsInv(states, steps, j);
    assert Took(states, steps, j);
    DropLosesUnread(states[j], i, ch, x);
    UnreachedForGood(states, steps, j + 1, k, i, ch, x);
  }
}
