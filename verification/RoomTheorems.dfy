/** Safety of the room protocol over whole runs of any number of instances. */
module RoomTheorems {
  import opened Options
  import opened Events
  import opened Publishing
  import opened RoomProtocol
  import opened RoomInvariants
  import CS = ConnectionState
  import MS = MessageStore
  import DL = DeadLetters

  /** Step `k` of a run was possible and led to state `k + 1`. */
  ghost predicate Took(states: seq<System>, steps: seq<Step>, k: nat)
    requires |states| == |steps| + 1 && k < |steps|
  {
    Enabled(states[k], steps[k]) && states[k + 1] == Apply(states[k], steps[k])
  }

  ghost predicate Run(states: seq<System>, steps: seq<Step>) {
    && |states| == |steps| + 1
    && states[0] == Start(states[0].members)
    && forall k :: 0 <= k < |steps| ==> Took(states, steps, k)
  }

  lemma {:induction false} RunKeepsInv(states: seq<System>, steps: seq<Step>, k: nat)
    requires Run(states, steps) && k < |states|
    ensures Inv(states[k])
  {
    if k > 0 {
      RunKeepsInv(states, steps, k - 1);
      assert Took(states, steps, k - 1);
      StepKeepsInv(states[k - 1], steps[k - 1]);
    }
  }

  predicate Hosts(s: System, i: NodeId, c: CS.ConnId) {
    i in s.nodes && c in s.nodes[i].mgr.conns
  }

  function ConnAt(s: System, i: NodeId, c: CS.ConnId): CS.Conn
    requires Hosts(s, i, c)
  {
    s.nodes[i].mgr.conns[c]
  }

  lemma RunConnInv(states: seq<System>, steps: seq<Step>, k: nat, i: NodeId, c: CS.ConnId)
    requires Run(states, steps) && k < |states| && Hosts(states[k], i, c)
    ensures var s := states[k]; ConnInv(ConnAt(s, i, c), s.nodes[i].inbox, s.logs, s.granted)
    ensures ConnAt(states[k], i, c).written <= ConnAt(states[k], i, c).accepted
  {
    RunKeepsInv(states, steps, k);
    assert NodeInv(states[k].nodes[i], states[k].logs, states[k].granted);
    assert CS.QueueInv(ConnAt(states[k], i, c), states[k].nodes[i].mgr.max);
  }

  // ---------------------------------------------------------------- ordered delivery

  predicate On(p: Payload, ch: string) {
    p.FromRoom? && p.channel == ch
  }

  /** The events of one channel among a sequence of payloads, and their log positions. */
  function OnChannel(ch: string, ps: seq<Payload>): seq<Event> {
    if ps == [] then []
    else
      var before, last := OnChannel(ch, ps[..|ps| - 1]), ps[|ps| - 1];
      if On(last, ch) then before + [last.event] else before
  }

  function Positions(ch: string, ps: seq<Payload>): seq<nat> {
    if ps == [] then []
    else
      var before, last := Positions(ch, ps[..|ps| - 1]), ps[|ps| - 1];
      if On(last, ch) then before + [last.index] else before
  }

  predicate Picks(positions: seq<nat>, xs: seq<Event>, ys: seq<Event>) {
    && |positions| == |xs|
    && (forall a :: 0 <= a < |xs| ==> positions[a] < |ys| && ys[positions[a]] == xs[a])
    && (forall a, b :: 0 <= a < b < |xs| ==> positions[a] < positions[b])
  }

  ghost predicate Subsequence(xs: seq<Event>, ys: seq<Event>) {
    exists positions :: Picks(positions, xs, ys)
  }

  lemma {:induction false} PositionsBelow(ch: string, ps: seq<Payload>, bound: nat)
    requires forall p <- ps :: On(p, ch) ==> p.index < bound
    ensures forall a :: 0 <= a < |Positions(ch, ps)| ==> Positions(ch, ps)[a] < bound
  {
    if ps != [] {
      PositionsBelow(ch, ps[..|ps| - 1], bound);
    }
  }

  lemma {:induction false} PositionsPick(ch: string, ps: seq<Payload>, logs: Logs)
    requires Rising(ps) && forall p <- ps :: Genuine(p, logs)
    ensures Picks(Positions(ch, ps), OnChannel(ch, ps), Log(logs, ch))
  {
    if ps != [] {
      var init, last := ps[..|ps| - 1], ps[|ps| - 1];
      PositionsPick(ch, init, logs);
      if On(last, ch) {
        assert last in ps && Genuine(last, logs);
        PositionsBelow(ch, init, last.index);
      }
    }
  }

  /** What a client received from a room is a subsequence of that room's publish log, in every state of every run. */
  lemma OrderedDelivery(states: seq<System>, steps: seq<Step>, k: nat, i: NodeId, c: CS.ConnId, ch: string)
    requires Run(states, steps) && k < |states| && Hosts(states[k], i, c)
    ensures Subsequence(OnChannel(ch, ConnAt(states[k], i, c).written), Log(states[k].logs, ch))
  {
    RunConnInv(states, steps, k, i, c);
    var conn := ConnAt(states[k], i, c);
    forall p <- conn.written ensures Genuine(p, states[k].logs) {
      assert p in conn.accepted;
    }
    PositionsPick(ch, conn.written, states[k].logs);
  }

  predicate SameEntry(p: Payload, q: Payload) {
    p.FromRoom? && q.FromRoom? && p.channel == q.channel && p.index == q.index
  }

  /** Two clients on any two instances, looked at in any two states of a run, that both received two log entries of a
      room received them in the same order; and nobody is handed the same log entry twice. */
  lemma SameOrderEverywhere(states: seq<System>, steps: seq<Step>, j: nat, k: nat,
                            i1: NodeId, c1: CS.ConnId, i2: NodeId, c2: CS.ConnId, a: nat, b: nat, a': nat, b': nat)
    requires Run(states, steps) && j < |states| && k < |states| && Hosts(states[j], i1, c1) && Hosts(states[k], i2, c2)
    requires a < |ConnAt(states[j], i1, c1).written| && b < |ConnAt(states[j], i1, c1).written|
    requires a' < |ConnAt(states[k], i2, c2).written| && b' < |ConnAt(states[k], i2, c2).written|
    requires SameEntry(ConnAt(states[j], i1, c1).written[a], ConnAt(states[k], i2, c2).written[a'])
    requires SameEntry(ConnAt(states[j], i1, c1).written[b], ConnAt(states[k], i2, c2).written[b'])
    requires ConnAt(states[j], i1, c1).written[a].channel == ConnAt(states[j], i1, c1).written[b].channel
    ensures a < b <==> a' < b'
    ensures a == b <==> a' == b'
  {
    RunConnInv(states, steps, j, i1, c1);
    RunConnInv(states, steps, k, i2, c2);
    var p, q := ConnAt(states[j], i1, c1), ConnAt(states[k], i2, c2);
    assert p.accepted[a] == p.written[a] && p.accepted[b] == p.written[b];
    assert q.accepted[a'] == q.written[a'] && q.accepted[b'] == q.written[b'];
  }

  /** Single dispatch: however many local users joined the room, and however often the callback was stored again, no
      log entry is enqueued twice on one connection. */
  lemma EnqueuedAtMostOnce(states: seq<System>, steps: seq<Step>, k: nat, i: NodeId, c: CS.ConnId, a: nat, b: nat)
    requires Run(states, steps) && k < |states| && Hosts(states[k], i, c)
    requires a < b < |ConnAt(states[k], i, c).accepted|
    ensures !SameEntry(ConnAt(states[k], i, c).accepted[a], ConnAt(states[k], i, c).accepted[b])
  {
    RunConnInv(states, steps, k, i, c);
  }

  // ---------------------------------------------------------------- persist before deliver

  /** Whatever chat event sits in a channel log, a send queue or a client's hands was committed before, and if
      clients that reuse a key also repeat the message, it shows exactly the stored fields. */
  ghost predicate Persisted(store: MS.Store, ev: Event) {
    ev.Chat? ==>
      && ev.id in store.rows
      && (MS.KeysNameRequests(store) ==>
            var row := store.rows[ev.id]; ev == Chat(ev.id, row.room, row.sender, row.content))
  }

  lemma BackedIsPersisted(store: MS.Store, ev: Event)
    requires MS.StoreInv(store) && Backed(store, ev)
    ensures Persisted(store, ev)
  {
  }

  /** In the queue, on its way to the socket, or received. */
  predicate Holds(conn: CS.Conn, p: Payload) {
    p in conn.queue || p in conn.slot.Contents() || p in conn.written
  }

  lemma PersistBeforeDeliver(states: seq<System>, steps: seq<Step>, k: nat, i: NodeId, c: CS.ConnId, p: Payload)
    requires Run(states, steps) && k < |states|
    ensures forall ch, n :: 0 <= n < |Log(states[k].logs, ch)| ==>
              Persisted(states[k].store, Log(states[k].logs, ch)[n])
    ensures Hosts(states[k], i, c) && Holds(ConnAt(states[k], i, c), p) && p.FromRoom? ==>
              Persisted(states[k].store, p.event)
  {
    RunKeepsInv(states, steps, k);
    var s := states[k];
    forall ch, n | 0 <= n < |Log(s.logs, ch)| ensures Persisted(s.store, Log(s.logs, ch)[n]) {
      BackedIsPersisted(s.store, Log(s.logs, ch)[n]);
    }
    if Hosts(s, i, c) && Holds(ConnAt(s, i, c), p) && p.FromRoom? {
      RunConnInv(states, steps, k, i, c);
      assert CS.QueueInv(ConnAt(s, i, c), s.nodes[i].mgr.max);
      assert p in ConnAt(s, i, c).accepted;
      assert Genuine(p, s.logs);
    }
  }

  // ---------------------------------------------------------------- what becomes of a publication

  /** At every moment of every run, with any number of publications interleaved: one copy per attempt Redis applied, at
      most three, at least one once acknowledged; given up if and only if three attempts failed; and every log entry is
      the event of the publication it came from. */
  lemma PublicationFate(states: seq<System>, steps: seq<Step>, k: nat, p: PubId)
    requires Run(states, steps) && k < |states| && p in states[k].bus.pubs
    ensures Accounted(states[k].bus, p)
    ensures AllMirrored(states[k].logs, states[k].bus)
  {
    RunKeepsInv(states, steps, k);
    InvAccounts(states[k].bus, p);
  }

  /** ... and the dead-letter list holds the newest letters of publications that failed three times, each once. */
  lemma DeadLettersAreFailures(states: seq<System>, steps: seq<Step>, k: nat, p: PubId)
    requires Run(states, steps) && k < |states|
    ensures ListAccounted(states[k].bus, p)
  {
    RunKeepsInv(states, steps, k);
    InvAccountsList(states[k].bus, p);
  }

  predicate PushApplied(steps: seq<Step>, j: nat, p: PubId) {
    j < |steps| && steps[j].PushLetter? && steps[j].pub == p && steps[j].outcome.Applied()
  }

  predicate HasLetter(s: System, p: PubId) {
    p in s.bus.pubs && s.bus.pubs[p].status.Lettered?
  }

  lemma StepWritesLetter(s: System, step: Step, p: PubId)
    requires Enabled(s, step)
    ensures HasLetter(Apply(s, step), p) <==> HasLetter(s, p) || PushApplied([step], 0, p)
  {
  }

  /** A publication has a dead letter if and only if Redis applied its push, which only three failed attempts lead
      to. */
  lemma {:induction false} LetterIffPushed(states: seq<System>, steps: seq<Step>, k: nat, p: PubId)
    requires Run(states, steps) && k < |states|
    ensures HasLetter(states[k], p) <==> exists j :: 0 <= j < k && PushApplied(steps, j, p)
  {
    if k > 0 {
      LetterIffPushed(states, steps, k - 1, p);
      assert Took(states, steps, k - 1);
      StepWritesLetter(states[k - 1], steps[k - 1], p);
      assert PushApplied(steps, k - 1, p) <==> PushApplied([steps[k - 1]], 0, p);
    }
  }

  /** A dead letter does not mean that nobody was sent the event: of a publication with a letter no log holds a copy if
      and only if Redis applied none of its attempts. */
  lemma UnsentIffNeverApplied(states: seq<System>, steps: seq<Step>, k: nat, p: PubId)
    requires Run(states, steps) && k < |states| && HasLetter(states[k], p)
    ensures var outcomes := states[k].bus.pubs[p].outcomes;
            (forall ch :: Copies(states[k].bus, ch, p) == 0) <==>
              forall x :: 0 <= x < |outcomes| ==> outcomes[x].FailedBefore?
  {
    PublicationFate(states, steps, k, p);
    NoCopyIff(states[k].bus.pubs[p].outcomes);
  }

  /** The steps of a publication whose first attempt was applied without an answer. */
  function UnheardSteps(ev: Event): seq<Step> {
    [PublishOther(0, ev), Attempt(0, FailedAfter), Attempt(0, FailedBefore), Attempt(0, FailedBefore),
     PushLetter(0, Done)]
  }

  function UnheardBus(ev: Event, outcomes: seq<Outcome>, status: Status, cmds: seq<DL.Command<PubId>>): Bus<Event> {
    Bus(map[0 := Publication(Channel(ev.room), ev, outcomes, status)],
        if outcomes == [] then map[] else map[Channel(ev.room) := [0]], cmds)
  }

  lemma UnheardTries(ev: Event, outcomes: seq<Outcome>)
    requires outcomes != []
    ensures TryOnce(UnheardBus(ev, [], Trying, []), 0, FailedAfter) == UnheardBus(ev, [FailedAfter], Trying, [])
    ensures TryOnce(UnheardBus(ev, outcomes, Trying, []), 0, FailedBefore)
         == UnheardBus(ev, outcomes + [FailedBefore], if |outcomes| < 2 then Trying else Exhausted, [])
    ensures WriteLetter(UnheardBus(ev, outcomes, Exhausted, []), 0, Done)
         == UnheardBus(ev, outcomes, Lettered(Due), [DL.Push(0)])
  {
    var none: seq<PubId> := [];
    assert none + [0] == [0] && [] + [FailedAfter] == [FailedAfter];
  }

  lemma AppendToNothing(s: System, ev: Event)
    requires s.logs == map[] && s.nodes == map[]
    ensures Append(s, ev) == s.(logs := map[Channel(ev.room) := [ev]])
  {
    assert [] + [ev] == [ev];
  }

  lemma RunSnoc(states: seq<System>, steps: seq<Step>, step: Step)
    requires Run(states, steps) && Enabled(states[|steps|], step)
    ensures Run(states + [Apply(states[|steps|], step)], steps + [step])
  {
    var states', steps' := states + [Apply(states[|steps|], step)], steps + [step];
    forall k | 0 <= k < |steps'| ensures Took(states', steps', k) {
      assert k < |steps| ==> Took(states, steps, k);
    }
  }

  /** The publication announced, and its first attempt applied. */
  lemma UnheardStart(ev: Event, members: set<(User, Room)>) returns (states: seq<System>)
    requires !ev.Chat?
    ensures |states| == 3 && Run(states, UnheardSteps(ev)[..2])
    ensures states[2] == Start(members).(bus := UnheardBus(ev, [FailedAfter], Trying, []),
                                         logs := map[Channel(ev.room) := [ev]])
  {
    var s0 := Start(members);
    var s1 := s0.(bus := UnheardBus(ev, [], Trying, []));
    UnheardTries(ev, [FailedAfter]);
    AppendToNothing(s1.(bus := UnheardBus(ev, [FailedAfter], Trying, [])), ev);
    assert s1.bus == Announce(s0.bus, 0, Channel(ev.room), ev);
    states := [s0, s1, Apply(s1, Attempt(0, FailedAfter))];
  }

  lemma LetterDespiteACopy(ev: Event, members: set<(User, Room)>) returns (states: seq<System>)
    requires !ev.Chat?
    ensures |states| == 6 && Run(states, UnheardSteps(ev)) && HasLetter(states[5], 0)
    ensures Log(states[5].logs, Channel(ev.room)) == [ev]
  {
    var steps, tries := UnheardSteps(ev), [FailedAfter] + [FailedBefore];
    states := UnheardStart(ev, members);
    UnheardTries(ev, [FailedAfter]);
    RunSnoc(states, steps[..2], steps[2]);
    states := states + [Apply(states[2], steps[2])];
    assert states[3].bus == UnheardBus(ev, tries, Trying, []) && steps[..2] + [steps[2]] == steps[..3];
    UnheardTries(ev, tries);
    RunSnoc(states, steps[..3], steps[3]);
    states := states + [Apply(states[3], steps[3])];
    assert states[4].bus == UnheardBus(ev, tries + [FailedBefore], Exhausted, []);
    assert steps[..3] + [steps[3]] == steps[..4];
    RunSnoc(states, steps[..4], steps[4]);
    states := states + [Apply(states[4], steps[4])];
    assert steps[..4] + [steps[4]] == steps;
  }

  /** How many of the payloads are copies of publication `p` on channel `ch`. */
  function CopiesAmong(ps: seq<Payload>, ch: string, sources: seq<PubId>, p: PubId): nat {
    if ps == [] then 0
    else
      var before, last := CopiesAmong(ps[..|ps| - 1], ch, sources, p), ps[|ps| - 1];
      if On(last, ch) && last.index < |sources| && sources[last.index] == p then before + 1 else before
  }

  lemma CountUpTo(sources: seq<PubId>, x: nat, y: nat, p: PubId)
    requires x < y <= |sources|
    ensures multiset(sources[..x])[p] + (if sources[x] == p then 1 else 0) <= multiset(sources[..y])[p]
  {
    assert sources[..y] == sources[..x] + [sources[x]] + sources[x + 1..y];
  }

  lemma {:induction false} CopiesAtMostSourced(ps: seq<Payload>, ch: string, sources: seq<PubId>, p: PubId, bound: nat)
    requires Rising(ps) && bound <= |sources| && forall q <- ps :: On(q, ch) ==> q.index < bound
    ensures CopiesAmong(ps, ch, sources, p) <= multiset(sources[..bound])[p]
  {
    if ps != [] {
      var init, last := ps[..|ps| - 1], ps[|ps| - 1];
      if On(last, ch) {
        assert last in ps;
        CopiesAtMostSourced(init, ch, sources, p, last.index);
        CountUpTo(sources, last.index, bound, p);
      } else {
        CopiesAtMostSourced(init, ch, sources, p, bound);
      }
    }
  }

  /** No connection is ever handed more copies of a publication than Redis applied attempts of it: three at most, one if
      the first attempt was acknowledged. */
  lemma AtMostThreeCopies(states: seq<System>, steps: seq<Step>, k: nat, i: NodeId, c: CS.ConnId, ch: string, p: PubId)
    requires Run(states, steps) && k < |states| && Hosts(states[k], i, c) && p in states[k].bus.pubs
    ensures var bus := states[k].bus;
            CopiesAmong(ConnAt(states[k], i, c).accepted, ch, Log(bus.sources, ch), p)
              <= (if ch == bus.pubs[p].channel then AppliedCount(bus.pubs[p].outcomes) else 0) <= 3
  {
    RunConnInv(states, steps, k, i, c);
    PublicationFate(states, steps, k, p);
    var s, sources := states[k], Log(states[k].bus.sources, ch);
    assert Mirrors(s.logs, s.bus, ch);
    forall q <- ConnAt(s, i, c).accepted ensures On(q, ch) ==> q.index < |sources| {
      assert Genuine(q, s.logs);
    }
    CopiesAtMostSourced(ConnAt(s, i, c).accepted, ch, sources, p, |sources|);
    assert sources[..|sources|] == sources && multiset(sources)[p] == Copies(s.bus, ch, p);
  }

  // ---------------------------------------------------------------- callbacks and membership

  /** Subscribe before join: every room of every connection has a callback on its channel, for that same room. */
  lemma EveryRoomHasItsCallback(states: seq<System>, steps: seq<Step>, k: nat, i: NodeId, c: CS.ConnId, r: Room)
    requires Run(states, steps) && k < |states| && Hosts(states[k], i, c) && r in ConnAt(states[k], i, c).rooms
    ensures "room:" + r in states[k].nodes[i].callbacks && states[k].nodes[i].callbacks["room:" + r] == r
  {
    RunKeepsInv(states, steps, k);
    var n := states[k].nodes[i];
    assert NodeInv(n, states[k].logs, states[k].granted);
    ChannelInjective(r, n.callbacks[Channel(r)]);
  }

  /** ... and while the instance's link is up, Redis has that channel subscribed or the command is on its way, across
      lost links and reconnections. A registered connection attends the room from the moment Redis has processed it. */
  lemma EveryRoomIsSubscribed(states: seq<System>, steps: seq<Step>, k: nat, i: NodeId, c: CS.ConnId, r: Room)
    requires Run(states, steps) && k < |states| && Hosts(states[k], i, c) && r in ConnAt(states[k], i, c).rooms
    requires states[k].nodes[i].up
    ensures Channel(r) in states[k].nodes[i].subs || Channel(r) in states[k].nodes[i].pending
    ensures CS.Registers(states[k].nodes[i].mgr, ConnAt(states[k], i, c).user, c) ==>
              (Attending(states[k], i, c, r) <==> Channel(r) in states[k].nodes[i].subs)
  {
    RunKeepsInv(states, steps, k);
    assert NodeInv(states[k].nodes[i], states[k].logs, states[k].granted);
    assert Requested(states[k].nodes[i], Channel(r));
  }

  /** A user connecting and joining a room, with Redis not yet at the subscribe command. */
  function QuickJoin(u: User, r: Room, max: int): seq<Step> {
    [Boot(0, max), ManagerStep(0, CS.ConnectBeginOp(u)), ManagerStep(0, CS.ConnectFinishOp(0)),
     JoinCheck(0, 0, u, r), StoreCallback(0, 0), SubscribeSent(0, 0, true), JoinIndex(0, 0)]
  }

  /** An instance with one connection and nothing else. */
  function WithOneConn(u: User, max: int): Node {
    FreshNode(max).(mgr := CS.Manager(max, map[u := 0], map[], map[0 := CS.NewConn(u)], None))
  }

  lemma QuickBegin(u: User, r: Room, max: int) returns (states: seq<System>)
    ensures |states| == 3 && Run(states, QuickJoin(u, r, max)[..2])
    ensures states[2]
         == Start({(u, r)}).(nodes := map[0 := FreshNode(max).(mgr := CS.ConnectBegin(CS.Empty(max), u))])
  {
    var s0, n := Start({(u, r)}), FreshNode(max);
    states := [s0, s0.(nodes := map[0 := n]), s0.(nodes := map[0 := n.(mgr := CS.ConnectBegin(n.mgr, u))])];
  }

  lemma QuickConnect(u: User, r: Room, max: int) returns (states: seq<System>)
    ensures |states| == 4 && Run(states, QuickJoin(u, r, max)[..3])
    ensures states[3] == Start({(u, r)}).(nodes := map[0 := WithOneConn(u, max)])
  {
    var steps := QuickJoin(u, r, max);
    states := QuickBegin(u, r, max);
    assert CS.ConnectFinish(states[2].nodes[0].mgr, 0) == WithOneConn(u, max).mgr;
    RunSnoc(states, steps[..2], steps[2]);
    states := states + [Apply(states[2], steps[2])];
    assert steps[..2] + [steps[2]] == steps[..3];
  }

  lemma QuickCheck(u: User, r: Room, max: int) returns (states: seq<System>)
    ensures |states| == 5 && Run(states, QuickJoin(u, r, max)[..4])
    ensures 0 in states[4].nodes
    ensures states[4].nodes[0] == WithOneConn(u, max).(joins := map[0 := Join(u, r, Checked)])
  {
    var steps := QuickJoin(u, r, max);
    states := QuickConnect(u, r, max);
    RunSnoc(states, steps[..3], steps[3]);
    states := states + [Apply(states[3], steps[3])];
    assert steps[..3] + [steps[3]] == steps[..4];
  }

  lemma QuickStore(u: User, r: Room, max: int) returns (states: seq<System>)
    ensures |states| == 6 && Run(states, QuickJoin(u, r, max)[..5])
    ensures 0 in states[5].nodes
    ensures states[5].nodes[0]
         == WithOneConn(u, max).(joins := map[0 := Join(u, r, Stored)], callbacks := map[Channel(r) := r])
  {
    var steps := QuickJoin(u, r, max);
    states := QuickCheck(u, r, max);
    RunSnoc(states, steps[..4], steps[4]);
    states := states + [Apply(states[4], steps[4])];
    assert steps[..4] + [steps[4]] == steps[..5];
  }

  lemma QuickAsk(u: User, r: Room, max: int) returns (states: seq<System>)
    ensures |states| == 7 && Run(states, QuickJoin(u, r, max)[..6])
    ensures 0 in states[6].nodes && states[6].nodes[0].joins == map[0 := Join(u, r, Asked)]
    ensures states[6].nodes[0].mgr == WithOneConn(u, max).mgr && states[6].nodes[0].subs == {}
    ensures states[6].nodes[0].pending == {Channel(r)} && states[6].nodes[0].up
  {
    var steps := QuickJoin(u, r, max);
    states := QuickStore(u, r, max);
    RunSnoc(states, steps[..5], steps[5]);
    states := states + [Apply(states[5], steps[5])];
    assert steps[..5] + [steps[5]] == steps[..6];
  }

  /** So a room can be indexed before Redis has its channel: the connection is in the room and does not attend it. */
  lemma IndexedBeforeSubscribed(u: User, r: Room, max: int) returns (states: seq<System>)
    ensures |states| == 8 && Run(states, QuickJoin(u, r, max))
    ensures Hosts(states[7], 0, 0) && r in ConnAt(states[7], 0, 0).rooms && states[7].nodes[0].up
    ensures CS.Registers(states[7].nodes[0].mgr, u, 0) && CS.InIndex(states[7].nodes[0].mgr, u, r)
    ensures Channel(r) !in states[7].nodes[0].subs && !Attending(states[7], 0, 0, r)
  {
    var steps := QuickJoin(u, r, max);
    states := QuickAsk(u, r, max);
    RunSnoc(states, steps[..6], steps[6]);
    states := states + [Apply(states[6], steps[6])];
    assert steps[..6] + [steps[6]] == steps;
  }

  lemma {:induction false} GrantedWereMembers(states: seq<System>, steps: seq<Step>, k: nat, pair: (User, Room))
    requires Run(states, steps) && k < |states| && pair in states[k].granted
    ensures exists j :: 0 <= j <= k && pair in states[j].members
  {
    if k > 0 {
      assert Took(states, steps, k - 1);
      if pair in states[k - 1].granted {
        GrantedWereMembers(states, steps, k - 1, pair);
      } else {
        assert pair in states[k - 1].members;
      }
    }
  }

  /** A room's events reach nobody who was never a member, not even through dangling index entries. */
  lemma OnlyMembersReceive(states: seq<System>, steps: seq<Step>, k: nat, i: NodeId, c: CS.ConnId, r: Room, p: Payload)
    requires Run(states, steps) && k < |states| && Hosts(states[k], i, c)
    requires p in ConnAt(states[k], i, c).accepted && On(p, Channel(r))
    ensures exists j :: 0 <= j <= k && (ConnAt(states[k], i, c).user, r) in states[j].members
  {
    RunConnInv(states, steps, k, i, c);
    var u := ConnAt(states[k], i, c).user;
    assert Permitted(p, u, states[k].granted);
    var q :| p.channel == Channel(q) && (u, q) in states[k].granted;
    ChannelInjective(r, q);
    GrantedWereMembers(states, steps, k, (u, r));
  }

  // ---------------------------------------------------------------- dispatch

  function HeadEvent(s: System, n: Node): Event
    requires CanDispatch(s, n)
  {
    Log(s.logs, n.inbox[0].channel)[n.inbox[0].index]
  }

  function HeadPayload(s: System, n: Node): Payload
    requires CanDispatch(s, n)
  {
    FromRoom(n.inbox[0].channel, n.inbox[0].index, HeadEvent(s, n))
  }

  lemma DeliverOffers(n: Node, ev: Event, c: CS.ConnId, r: Room, logs: Logs, granted: set<(User, Room)>)
    requires NodeInv(n, logs, granted) && n.inbox != [] && c in n.mgr.conns && n.inbox[0].channel == Channel(r)
    requires r in n.mgr.conns[c].rooms && CS.Registers(n.mgr, n.mgr.conns[c].user, c)
    ensures c in Deliver(n, ev).mgr.conns
    ensures Deliver(n, ev).mgr.conns[c] ==
            if ev.Typing? && ev.user == n.mgr.conns[c].user then n.mgr.conns[c]
            else CS.Offer(n.mgr.conns[c], FromRoom(n.inbox[0].channel, n.inbox[0].index, ev), n.mgr.max)
  {
    ChannelInjective(r, n.callbacks[Channel(r)]);
    if Excluded(ev) != Some(n.mgr.conns[c].user) {
      CS.BroadcastMissesNobody(n.mgr, r, FromRoom(n.inbox[0].channel, n.inbox[0].index, ev), Excluded(ev), c);
    }
  }

  function Dispatched(s: System, i: NodeId): System
    requires i in s.nodes && CanDispatch(s, s.nodes[i])
  {
    s.(nodes := s.nodes[i := Deliver(s.nodes[i], HeadEvent(s, s.nodes[i]))])
  }

  lemma DispatchDelivers(s: System, i: NodeId)
    requires Enabled(s, Dispatch(i))
    ensures Apply(s, Dispatch(i)) == Dispatched(s, i)
  {
  }

  /** The entry a dispatch hands on is the first unread one of its channel, and connection `c` is offered it unless it
      is its own typing indicator. */
  ghost predicate Offered(s: System, s': System, i: NodeId, c: CS.ConnId, ch: string)
    requires Hosts(s, i, c) && CanDispatch(s, s.nodes[i])
  {
    var n := s.nodes[i];
    && Hosts(s', i, c)
    && ch in n.next && n.next[ch] == n.inbox[0].index
    && ConnAt(s', i, c) ==
         (if HeadEvent(s, n).Typing? && HeadEvent(s, n).user == ConnAt(s, i, c).user then ConnAt(s, i, c)
          else CS.Offer(ConnAt(s, i, c), HeadPayload(s, n), n.mgr.max))
    && s'.nodes[i].next == n.next[ch := n.inbox[0].index + 1]
    && s'.logs == s.logs
  }

  lemma DispatchOffers(s: System, i: NodeId, c: CS.ConnId, r: Room)
    requires Hosts(s, i, c) && CanDispatch(s, s.nodes[i]) && NodeInv(s.nodes[i], s.logs, s.granted)
    requires s.nodes[i].inbox[0].channel == Channel(r) && r in ConnAt(s, i, c).rooms
    requires CS.Registers(s.nodes[i].mgr, ConnAt(s, i, c).user, c)
    ensures Offered(s, Dispatched(s, i), i, c, Channel(r))
  {
    ReadKeepsInbox(s.nodes[i], s.logs);
    DeliverOffers(s.nodes[i], HeadEvent(s, s.nodes[i]), c, r, s.logs, s.granted);
  }

  /** In every reachable state: the listener's next entry of a channel is the first it has not read, and handing it on
      offers it to every registered connection that is in the room, the author of a typing indicator apart. */
  lemma DispatchReachesTheRoom(states: seq<System>, steps: seq<Step>, k: nat, i: NodeId, c: CS.ConnId, r: Room)
    requires Run(states, steps) && k < |states| && Enabled(states[k], Dispatch(i)) && Hosts(states[k], i, c)
    requires states[k].nodes[i].inbox[0].channel == Channel(r) && r in ConnAt(states[k], i, c).rooms
    requires CS.Registers(states[k].nodes[i].mgr, ConnAt(states[k], i, c).user, c)
    ensures Offered(states[k], Apply(states[k], Dispatch(i)), i, c, Channel(r))
  {
    RunKeepsInv(states, steps, k);
    DispatchDelivers(states[k], i);
    DispatchOffers(states[k], i, c, r);
  }

  // ---------------------------------------------------------------- no gaps

  /** What a user is meant to see of a stretch of a log: everything but their own typing indicators. */
  function Audible(u: User, log: seq<Event>): seq<Event> {
    if log == [] then []
    else
      var before, last := Audible(u, log[..|log| - 1]), log[|log| - 1];
      if last.Typing? && last.user == u then before else before + [last]
  }

  /** Connection `c` of node `i` sits in room `r`, registered, on a live subscription. */
  ghost predicate Attending(s: System, i: NodeId, c: CS.ConnId, r: Room) {
    && Hosts(s, i, c)
    && CS.Registers(s.nodes[i].mgr, ConnAt(s, i, c).user, c)
    && r in ConnAt(s, i, c).rooms
    && Channel(r) in s.nodes[i].subs
    && Channel(r) in s.nodes[i].next
  }

  /** A step that leaves the node's link up. */
  predicate KeepsLink(step: Step, i: NodeId) {
    !(step.Crash? && step.node == i) && !(step.LinkDrop? && step.node == i) && !(step.Reconnect? && step.node == i)
  }

  lemma OnChannelSnoc(ch: string, ps: seq<Payload>, p: Payload)
    ensures OnChannel(ch, ps + [p]) == if On(p, ch) then OnChannel(ch, ps) + [p.event] else OnChannel(ch, ps)
  {
  }

  /** Nothing of channel `ch` was read, and connection `c` was given nothing of it. */
  ghost predicate Silent(n: Node, n': Node, c: CS.ConnId, ch: string)
    requires c in n.mgr.conns
  {
    && c in n'.mgr.conns
    && ch in n.next && ch in n'.next && n'.next[ch] == n.next[ch]
    && n'.mgr.conns[c].user == n.mgr.conns[c].user
    && Grew(n.mgr.conns[c].accepted, n'.mgr.conns[c].accepted, None)
  }

  lemma ManagerStepSilent(n: Node, op: CS.Op, c: CS.ConnId, ch: string)
    requires CS.Enabled(n.mgr, op) && Ordinary(op) && c in n.mgr.conns && ch in n.next
    ensures Silent(n, n.(mgr := CS.Apply(n.mgr, op)), c, ch)
  {
  }

  lemma LocalStepSilent(s: System, step: Step, c: CS.ConnId, ch: string)
    requires Local(step) && Enabled(s, step) && !step.Dispatch? && KeepsLink(step, step.node)
    requires c in s.nodes[step.node].mgr.conns && ch in s.nodes[step.node].next && ch in s.nodes[step.node].subs
    ensures Silent(s.nodes[step.node], NodeApply(s, step, s.nodes[step.node]), c, ch)
  {
    if step.ManagerStep? {
      ManagerStepSilent(s.nodes[step.node], step.mop, c, ch);
    }
  }

  /** Steps elsewhere: an append hands this node more to read, anything else leaves it alone. */
  lemma ElsewhereSilent(s: System, step: Step, i: NodeId, c: CS.ConnId, ch: string)
    requires Enabled(s, step) && Hosts(s, i, c) && ch in s.nodes[i].next && KeepsLink(step, i)
    requires Local(step) || step.JoinCheck? ==> step.node != i
    ensures i in Apply(s, step).nodes && Silent(s.nodes[i], Apply(s, step).nodes[i], c, ch)
  {
  }

  /** Steps other than a dispatch on this node. */
  lemma OtherStepsSilent(s: System, step: Step, i: NodeId, c: CS.ConnId, r: Room)
    requires Enabled(s, step) && Attending(s, i, c, r) && KeepsLink(step, i)
    requires !(step.Dispatch? && step.node == i)
    ensures i in Apply(s, step).nodes && Silent(s.nodes[i], Apply(s, step).nodes[i], c, Channel(r))
  {
    if Local(step) && step.node == i {
      LocalStepSilent(s, step, c, Channel(r));
    } else if !(step.JoinCheck? && step.node == i) {
      ElsewhereSilent(s, step, i, c, Channel(r));
    }
  }

  /** The listener reading an entry of another channel. */
  lemma OtherDispatchSilent(s: System, i: NodeId, c: CS.ConnId, ch: string)
    requires Enabled(s, Dispatch(i)) && Hosts(s, i, c) && s.nodes[i].inbox[0].channel != ch && ch in s.nodes[i].next
    ensures var n, n' := s.nodes[i], Apply(s, Dispatch(i)).nodes[i];
            && c in n'.mgr.conns
            && ch in n'.next && n'.next[ch] == n.next[ch]
            && n'.mgr.conns[c].user == n.mgr.conns[c].user
            && Grew(n.mgr.conns[c].accepted, n'.mgr.conns[c].accepted, Some(HeadPayload(s, n)))
  {
  }

  lemma GrewOffChannel(ch: string, ps: seq<Payload>, ps': seq<Payload>, p: Option<Payload>)
    requires Grew(ps, ps', p) && (p.Some? ==> !On(p.value, ch))
    ensures OnChannel(ch, ps') == OnChannel(ch, ps)
  {
  }

  /** Logs only grow. */
  lemma LogsGrow(s: System, step: Step, ch: string)
    requires Enabled(s, step)
    ensures Log(s.logs, ch) <= Log(Apply(s, step).logs, ch)
  {
  }

  /** What a connection heard of a channel, how far its listener has read, and the log. */
  datatype Reading = Reading(user: User, heard: seq<Event>, next: nat, log: seq<Event>)

  function ReadingAt(s: System, i: NodeId, c: CS.ConnId, ch: string): Reading
    requires Hosts(s, i, c) && ch in s.nodes[i].next
  {
    Reading(ConnAt(s, i, c).user, OnChannel(ch, ConnAt(s, i, c).accepted), s.nodes[i].next[ch], Log(s.logs, ch))
  }

  /** From `a` to `b` the connection heard exactly the audible part of what the listener read. */
  predicate Advances(a: Reading, b: Reading) {
    && a.user == b.user
    && a.next <= b.next <= |b.log|
    && a.log <= b.log
    && b.heard == a.heard + Audible(a.user, b.log[a.next..b.next])
  }

  lemma {:induction false} AudibleSplit(u: User, xs: seq<Event>, ys: seq<Event>)
    ensures Audible(u, xs + ys) == Audible(u, xs) + Audible(u, ys)
  {
    if ys == [] {
      assert xs + ys == xs;
    } else {
      var init := ys[..|ys| - 1];
      AudibleSplit(u, xs, init);
      assert (xs + ys)[..|xs + ys| - 1] == xs + init;
    }
  }

  lemma SplitSlice(shorter: seq<Event>, longer: seq<Event>, x: nat, y: nat, z: nat)
    requires shorter <= longer && x <= y <= |shorter| && y <= z <= |longer|
    ensures shorter[x..y] == longer[x..y]
    ensures longer[x..z] == longer[x..y] + longer[y..z]
  {
  }

  lemma ConcatAssociative(xs: seq<Event>, ys: seq<Event>, zs: seq<Event>)
    ensures (xs + ys) + zs == xs + (ys + zs)
  {
  }

  lemma AdvancesTransitive(a: Reading, b: Reading, c: Reading)
    requires Advances(a, b) && Advances(b, c)
    ensures Advances(a, c)
  {
    SplitSlice(b.log, c.log, a.next, b.next, c.next);
    var xs, ys := c.log[a.next..b.next], c.log[b.next..c.next];
    AudibleSplit(a.user, xs, ys);
    ConcatAssociative(a.heard, Audible(a.user, xs), Audible(a.user, ys));
    assert a.log <= c.log;
  }

  lemma StandingStill(a: Reading, b: Reading)
    requires a.user == b.user && a.heard == b.heard && a.next == b.next <= |b.log| && a.log <= b.log
    ensures Advances(a, b)
  {
  }

  lemma ReadingOne(a: Reading, b: Reading)
    requires a.user == b.user && a.next + 1 == b.next <= |b.log| && a.log == b.log
    requires var ev := b.log[a.next];
             b.heard == if ev.Typing? && ev.user == a.user then a.heard else a.heard + [ev]
    ensures Advances(a, b)
  {
  }

  lemma OfferAdvances(s: System, s': System, i: NodeId, c: CS.ConnId, ch: string)
    requires Hosts(s, i, c) && CanDispatch(s, s.nodes[i]) && s.nodes[i].inbox[0].channel == ch
    requires Offered(s, s', i, c, ch) && ConnAt(s', i, c).doomed == ConnAt(s, i, c).doomed
    ensures ch in s'.nodes[i].next && Advances(ReadingAt(s, i, c, ch), ReadingAt(s', i, c, ch))
  {
    OnChannelSnoc(ch, ConnAt(s, i, c).accepted, HeadPayload(s, s.nodes[i]));
    ReadingOne(ReadingAt(s, i, c, ch), ReadingAt(s', i, c, ch));
  }

  lemma DispatchAdvances(s: System, s': System, i: NodeId, c: CS.ConnId, r: Room)
    requires Inv(s) && Enabled(s, Dispatch(i)) && s' == Apply(s, Dispatch(i)) && Attending(s, i, c, r)
    requires s.nodes[i].inbox[0].channel == Channel(r) && Attending(s', i, c, r)
    requires ConnAt(s', i, c).doomed == ConnAt(s, i, c).doomed
    ensures Advances(ReadingAt(s, i, c, Channel(r)), ReadingAt(s', i, c, Channel(r)))
  {
    DispatchDelivers(s, i);
    DispatchOffers(s, i, c, r);
    OfferAdvances(s, s', i, c, Channel(r));
  }

  /** Nothing of channel `ch` was read or heard on connection `c` between `s` and `s'`. */
  ghost predicate Still(s: System, s': System, i: NodeId, c: CS.ConnId, ch: string) {
    && Hosts(s, i, c) && Hosts(s', i, c)
    && ch in s.nodes[i].next && ch in s'.nodes[i].next && s'.nodes[i].next[ch] == s.nodes[i].next[ch]
    && ConnAt(s', i, c).user == ConnAt(s, i, c).user
    && OnChannel(ch, ConnAt(s', i, c).accepted) == OnChannel(ch, ConnAt(s, i, c).accepted)
  }

  lemma OtherDispatchStandsStill(s: System, i: NodeId, c: CS.ConnId, ch: string)
    requires Enabled(s, Dispatch(i)) && Hosts(s, i, c) && s.nodes[i].inbox[0].channel != ch && ch in s.nodes[i].next
    ensures Still(s, Apply(s, Dispatch(i)), i, c, ch)
  {
    OtherDispatchSilent(s, i, c, ch);
    GrewOffChannel(ch, ConnAt(s, i, c).accepted, ConnAt(Apply(s, Dispatch(i)), i, c).accepted,
                   Some(HeadPayload(s, s.nodes[i])));
  }

  lemma SilentStandsStill(s: System, s': System, i: NodeId, c: CS.ConnId, ch: string)
    requires Hosts(s, i, c) && i in s'.nodes && Silent(s.nodes[i], s'.nodes[i], c, ch)
    ensures Still(s, s', i, c, ch)
  {
    GrewOffChannel(ch, ConnAt(s, i, c).accepted, ConnAt(s', i, c).accepted, None);
  }

  lemma OtherStepStandsStill(s: System, step: Step, i: NodeId, c: CS.ConnId, r: Room)
    requires Enabled(s, step) && Attending(s, i, c, r) && KeepsLink(step, i)
    requires step == Dispatch(i) ==> s.nodes[i].inbox[0].channel != Channel(r)
    ensures Still(s, Apply(s, step), i, c, Channel(r))
  {
    if step == Dispatch(i) {
      OtherDispatchStandsStill(s, i, c, Channel(r));
    } else {
      OtherStepsSilent(s, step, i, c, r);
      SilentStandsStill(s, Apply(s, step), i, c, Channel(r));
    }
  }

  lemma StepAdvances(s: System, step: Step, i: NodeId, c: CS.ConnId, r: Room)
    requires Inv(s) && Enabled(s, step) && Attending(s, i, c, r) && KeepsLink(step, i)
    requires Attending(Apply(s, step), i, c, r) && ConnAt(Apply(s, step), i, c).doomed == ConnAt(s, i, c).doomed
    ensures Advances(ReadingAt(s, i, c, Channel(r)), ReadingAt(Apply(s, step), i, c, Channel(r)))
  {
    if step == Dispatch(i) && s.nodes[i].inbox[0].channel == Channel(r) {
      DispatchAdvances(s, Apply(s, step), i, c, r);
    } else {
      LogsGrow(s, step, Channel(r));
      OtherStepStandsStill(s, step, i, c, r);
      assert NodeInv(s.nodes[i], s.logs, s.granted);
      StandingStill(ReadingAt(s, i, c, Channel(r)), ReadingAt(Apply(s, step), i, c, Channel(r)));
    }
  }

  /** Step `k` leaves the connection in the room, its link up and its queue not overflown. */
  ghost predicate Undisturbed(states: seq<System>, steps: seq<Step>, k: nat, i: NodeId, c: CS.ConnId, r: Room)
    requires |states| == |steps| + 1 && k < |steps|
  {
    && KeepsLink(steps[k], i)
    && Attending(states[k], i, c, r) && Attending(states[k + 1], i, c, r)
    && ConnAt(states[k + 1], i, c).doomed == ConnAt(states[k], i, c).doomed
  }

  /** From state `j` to state `k` the connection attends the room on an unbroken link and never overflows. */
  ghost predicate Stretch(states: seq<System>, steps: seq<Step>, j: nat, k: nat, i: NodeId, c: CS.ConnId, r: Room)
    requires |states| == |steps| + 1 && j <= k < |states|
  {
    Attending(states[j], i, c, r) && forall x :: j <= x < k ==> Undisturbed(states, steps, x, i, c, r)
  }

  lemma RunReadingStands(states: seq<System>, steps: seq<Step>, k: nat, i: NodeId, c: CS.ConnId, r: Room)
    requires Run(states, steps) && k < |states| && Attending(states[k], i, c, r)
    ensures Advances(ReadingAt(states[k], i, c, Channel(r)), ReadingAt(states[k], i, c, Channel(r)))
  {
    RunKeepsInv(states, steps, k);
    assert NodeInv(states[k].nodes[i], states[k].logs, states[k].granted);
    StandingStill(ReadingAt(states[k], i, c, Channel(r)), ReadingAt(states[k], i, c, Channel(r)));
  }

  lemma RunStepAdvances(states: seq<System>, steps: seq<Step>, k: nat, i: NodeId, c: CS.ConnId, r: Room)
    requires Run(states, steps) && k < |steps| && Undisturbed(states, steps, k, i, c, r)
    ensures Advances(ReadingAt(states[k], i, c, Channel(r)), ReadingAt(states[k + 1], i, c, Channel(r)))
  {
    RunKeepsInv(states, steps, k);
    assert Took(states, steps, k);
    StepAdvances(states[k], steps[k], i, c, r);
  }

  ghost predicate AdvancesFrom(from: Reading, s: System, i: NodeId, c: CS.ConnId, r: Room) {
    Attending(s, i, c, r) && Advances(from, ReadingAt(s, i, c, Channel(r)))
  }

  lemma AdvanceOneMore(from: Reading, states: seq<System>, steps: seq<Step>, k: nat, i: NodeId, c: CS.ConnId, r: Room)
    requires Run(states, steps) && k < |steps| && Undisturbed(states, steps, k, i, c, r)
    requires AdvancesFrom(from, states[k], i, c, r)
    ensures AdvancesFrom(from, states[k + 1], i, c, r)
  {
    RunStepAdvances(states, steps, k, i, c, r);
    AdvancesTransitive(from, ReadingAt(states[k], i, c, Channel(r)), ReadingAt(states[k + 1], i, c, Channel(r)));
  }

  /** No gaps: over any stretch a connection attends a room without a lost link or an overflow, its queue accepts, of
      that room, exactly the log entries its instance's listener read in the stretch: all of them, once, in
      publish order, minus its own typing indicators. */
  lemma {:induction false} NothingIsMissed(states: seq<System>, steps: seq<Step>, j: nat, k: nat,
                                           i: NodeId, c: CS.ConnId, r: Room)
    requires Run(states, steps) && j <= k < |states| && Stretch(states, steps, j, k, i, c, r)
    ensures Attending(states[j], i, c, r)
    ensures AdvancesFrom(ReadingAt(states[j], i, c, Channel(r)), states[k], i, c, r)
    decreases k
  {
    if j == k {
      RunReadingStands(states, steps, k, i, c, r);
    } else {
      NothingIsMissed(states, steps, j, k - 1, i, c, r);
      AdvanceOneMore(ReadingAt(states[j], i, c, Channel(r)), states, steps, k - 1, i, c, r);
    }
  }
}
