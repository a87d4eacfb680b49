/** The broker's calls are steps of the room protocol.

    `RedisBroker` follows one call at a time through its outcomes; here the same calls are taken apart into the steps
    other instances may interleave with. */
module RoomBroker {
  import opened Events
  import opened Publishing
  import opened RoomProtocol
  import RB = RedisBroker

  /** Callbacks are named by the room they broadcast to; the broker knows what it asked for, not what Redis has. */
  function TablesOf(n: Node): RB.Tables {
    RB.Tables(n.callbacks, n.subs + n.pending)
  }

  /** `subscribe` is a `StoreCallback` step and then a `SubscribeSent` step. */
  lemma SubscribeIsTwoSteps(s: System, i: NodeId, j: JoinId, ok: bool)
    requires Enabled(s, StoreCallback(i, j))
    ensures var stored := Apply(s, StoreCallback(i, j));
            var room := s.nodes[i].joins[j].room;
            && Enabled(stored, SubscribeSent(i, j, ok))
            && TablesOf(stored.nodes[i]) == RB.WithCallback(TablesOf(s.nodes[i]), Channel(room), room)
            && TablesOf(Apply(stored, SubscribeSent(i, j, ok)).nodes[i])
            == RB.WithSubscription(TablesOf(stored.nodes[i]), Channel(room), ok)
  {
  }

  /** Redis processing a command changes nothing the broker knows. */
  lemma RedisSubscribesUnnoticed(s: System, i: NodeId, ch: string)
    requires Enabled(s, RedisSubscribes(i, ch))
    ensures TablesOf(Apply(s, RedisSubscribes(i, ch)).nodes[i]) == TablesOf(s.nodes[i])
  {
  }

  /** A successful `_reconnect` is a `Reconnect` step. */
  lemma ReconnectIsOneStep(s: System, i: NodeId)
    requires i in s.nodes
    ensures TablesOf(Apply(s, Reconnect(i)).nodes[i]) == RB.Relinked(TablesOf(s.nodes[i]))
  {
  }

  /** The attempts of one call with nobody in between. */
  ghost function TryAll(s: System, p: PubId, outcomes: seq<Outcome>): System
    requires p in s.bus.pubs
    decreases |outcomes|
  {
    if outcomes == [] || !s.bus.pubs[p].status.Trying? then s
    else TryAll(Apply(s, Attempt(p, outcomes[0])), p, outcomes[1..])
  }

  /** Between `s` and `s'` publication `p` gained `n` copies, on its channel, and no channel anything else. */
  ghost predicate Gained(s: System, s': System, p: PubId, n: nat)
    requires p in s.bus.pubs && p in s'.bus.pubs
  {
    var pub, pub' := s.bus.pubs[p], s'.bus.pubs[p];
    && pub'.channel == pub.channel && pub'.event == pub.event
    && AppliedCount(pub'.outcomes) == AppliedCount(pub.outcomes) + n
    && Log(s'.logs, pub.channel) == Log(s.logs, pub.channel) + RB.Repeated(pub.event, n)
    && forall ch :: ch != pub.channel ==> Log(s'.logs, ch) == Log(s.logs, ch)
  }

  lemma GainedTransitive(s: System, s': System, s'': System, p: PubId, m: nat, n: nat)
    requires p in s.bus.pubs && p in s'.bus.pubs && p in s''.bus.pubs && Gained(s, s', p, m) && Gained(s', s'', p, n)
    ensures Gained(s, s'', p, m + n)
  {
    var ev := s.bus.pubs[p].event;
    assert RB.Repeated(ev, m) + RB.Repeated(ev, n) == RB.Repeated(ev, m + n);
  }

  lemma AttemptAppends(s: System, p: PubId, o: Outcome)
    requires Enabled(s, Attempt(p, o)) && s.bus.pubs[p].channel == Channel(s.bus.pubs[p].event.room)
    ensures var s', pub := Apply(s, Attempt(p, o)), s.bus.pubs[p];
            && p in s'.bus.pubs && s'.bus.pubs[p] == Tried(pub, o)
            && s'.logs == if o.Applied() then s.logs[pub.channel := Log(s.logs, pub.channel) + [pub.event]] else s.logs
  {
  }

  lemma RepeatedOnce(ev: Event)
    ensures RB.Repeated(ev, 0) == [] && RB.Repeated(ev, 1) == [ev]
  {
  }

  lemma LogsGained(s: System, s': System, p: PubId, o: Outcome)
    requires p in s.bus.pubs && p in s'.bus.pubs && s'.bus.pubs[p] == Tried(s.bus.pubs[p], o)
    requires var pub := s.bus.pubs[p];
             s'.logs == if o.Applied() then s.logs[pub.channel := Log(s.logs, pub.channel) + [pub.event]] else s.logs
    ensures Gained(s, s', p, if o.Applied() then 1 else 0)
  {
    var pub := s.bus.pubs[p];
    AppliedSnoc(pub.outcomes, o);
    RepeatedOnce(pub.event);
    if !o.Applied() {
      assert Log(s.logs, pub.channel) + [] == Log(s.logs, pub.channel);
    }
  }

  lemma AttemptGains(s: System, p: PubId, o: Outcome)
    requires Enabled(s, Attempt(p, o)) && s.bus.pubs[p].channel == Channel(s.bus.pubs[p].event.room)
    ensures var s' := Apply(s, Attempt(p, o));
            && p in s'.bus.pubs && s'.bus.pubs[p] == Tried(s.bus.pubs[p], o)
            && Gained(s, s', p, if o.Applied() then 1 else 0)
  {
    AttemptAppends(s, p, o);
    LogsGained(s, Apply(s, Attempt(p, o)), p, o);
  }

  /** `s'` is where the attempts `outcomes` of `p`, made from `s` with nobody in between, lead. */
  ghost predicate Ends(s: System, s': System, p: PubId, outcomes: seq<Outcome>, n: nat)
    requires p in s.bus.pubs
  {
    p in s'.bus.pubs && s'.bus.pubs[p] == AllTried(s.bus.pubs[p], outcomes) && Gained(s, s', p, n)
  }

  lemma EndsOneEarlier(s: System, next: System, s': System, p: PubId, outcomes: seq<Outcome>, m: nat, n: nat)
    requires Is(s.bus, p, Trying) && outcomes != [] && p in next.bus.pubs
    requires next.bus.pubs[p] == Tried(s.bus.pubs[p], outcomes[0]) && Gained(s, next, p, m)
    requires Ends(next, s', p, outcomes[1..], n)
    ensures Ends(s, s', p, outcomes, m + n)
  {
    GainedTransitive(s, next, s', p, m, n);
  }

  /** `TryPublish` and iterated `Attempt` steps end the same way, with the same copies appended. */
  lemma {:induction false} CallIsAttempts(s: System, p: PubId, outcomes: seq<Outcome>) returns (n: nat)
    requires p in s.bus.pubs && s.bus.pubs[p].channel == Channel(s.bus.pubs[p].event.room)
    ensures Ends(s, TryAll(s, p, outcomes), p, outcomes, n)
    decreases |outcomes|
  {
    n := 0;
    if outcomes != [] && s.bus.pubs[p].status.Trying? {
      var o := outcomes[0];
      var next, gain := Apply(s, Attempt(p, o)), if o.Applied() then 1 else 0;
      AttemptGains(s, p, o);
      var more := CallIsAttempts(next, p, outcomes[1..]);
      n := gain + more;
      EndsOneEarlier(s, next, TryAll(s, p, outcomes), p, outcomes, gain, more);
    }
  }
}
