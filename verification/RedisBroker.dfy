/** The Redis broker: publishing with retries and dead letters, the callback table, and reconnection with backoff.

    One call at a time, with the network's outcomes as parameters; `RoomBroker` says which steps of the room protocol
    the calls are. */
module RedisBroker {
  import opened Publishing
  import Backoff
  import DL = DeadLetters

  type Callback = string
  type Message = string

  datatype DeadLetter = DeadLetter(channel: string, message: Message)

  function Repeated<E>(event: E, n: nat): seq<E> {
    seq(n, _ => event)
  }

  /** A channel's log after some attempts: one more copy for each the server applied. */
  function AfterAttempts<E>(log: seq<E>, event: E, outcomes: seq<Outcome>): seq<E> {
    if outcomes == [] then log
    else
      AfterAttempts(log, event, outcomes[..|outcomes| - 1])
      + if outcomes[|outcomes| - 1].Applied() then [event] else []
  }

  /** Nothing but copies of the message is appended, as many as attempts were applied, acknowledged or not. */
  lemma {:induction false} AttemptsAppendCopies<E>(log: seq<E>, event: E, outcomes: seq<Outcome>)
    ensures AfterAttempts(log, event, outcomes) == log + Repeated(event, AppliedCount(outcomes))
    ensures AppliedCount(outcomes) <= |outcomes|
  {
    if outcomes != [] {
      AttemptsAppendCopies(log, event, outcomes[..|outcomes| - 1]);
    }
  }

  /** From `logs` to `logs'` one channel gained the event once per applied attempt, and no other changed. */
  ghost predicate Grown<E>(logs: map<string, seq<E>>, logs': map<string, seq<E>>, channel: string, event: E,
                           outcomes: seq<Outcome>)
  {
    && Log(logs', channel) == AfterAttempts(Log(logs, channel), event, outcomes)
    && forall ch :: ch != channel ==> Log(logs', ch) == Log(logs, ch)
  }

  lemma GrownOneMore<E>(logs: map<string, seq<E>>, logs': map<string, seq<E>>, logs'': map<string, seq<E>>,
                        channel: string, event: E, outcomes: seq<Outcome>, k: nat)
    requires k < |outcomes| && Grown(logs, logs', channel, event, outcomes[..k])
    requires Log(logs'', channel) == Log(logs', channel) + if outcomes[k].Applied() then [event] else []
    requires forall ch :: ch != channel ==> Log(logs'', ch) == Log(logs', ch)
    ensures Grown(logs, logs'', channel, event, outcomes[..k + 1])
  {
    assert outcomes[..k + 1][..k] == outcomes[..k];
  }

  /** A call that stopped after `attempts` ends as its outcomes say. */
  lemma CallEnds(channel: string, message: Message, outcomes: seq<Outcome>, attempts: nat, sent: bool)
    requires |outcomes| == RETRIES && 1 <= attempts <= RETRIES && (sent <==> outcomes[attempts - 1].Done?)
    requires (!sent ==> attempts == RETRIES) && forall k :: 0 <= k < attempts - 1 ==> !outcomes[k].Done?
    ensures sent <==> !AllFailed(outcomes)
    ensures AllTried(NewPublication(channel, message), outcomes)
         == Publication(channel, message, outcomes[..attempts], if sent then Sent else Exhausted)
  {
    AllTriedStops(NewPublication(channel, message), outcomes, attempts);
    assert [] + outcomes[..attempts] == outcomes[..attempts];
  }

  const DUMMY := "system:dummy"

  /** The broker's callback table and what its pub/sub link has asked Redis for. */
  datatype Tables = Tables(callbacks: map<string, Callback>, subscribed: set<string>)

  function WithCallback(t: Tables, ch: string, callback: Callback): Tables {
    t.(callbacks := t.callbacks[ch := callback])
  }

  function WithSubscription(t: Tables, ch: string, ok: bool): Tables {
    if ok then t.(subscribed := t.subscribed + {ch}) else t
  }

  /** A new link has the channels of the callback table and nothing else. */
  function Relinked(t: Tables): Tables {
    t.(subscribed := t.callbacks.Keys)
  }

  /** The server's side: one log per channel and the dead-letter list with the commands that made it. */
  class Redis {
    var logs: map<string, seq<Message>>
    var deadLetters: seq<DeadLetter>
    ghost var commands: seq<DL.Command<DeadLetter>>

    ghost predicate Valid()
      reads this
    {
      deadLetters == DL.Contents(commands)
    }

    constructor ()
      ensures Valid() && logs == map[] && commands == []
    {
      logs, deadLetters, commands := map[], [], [];
    }

    method Append(channel: string, message: Message, outcome: Outcome)
      modifies this`logs
      ensures Log(logs, channel) == Log(old(logs), channel) + if outcome.Applied() then [message] else []
      ensures forall ch :: ch != channel ==> Log(logs, ch) == Log(old(logs), ch)
    {
      if outcome.Applied() {
        logs := logs[channel := Log(logs, channel) + [message]];
      }
    }

    method Lpush(letter: DeadLetter, outcome: Outcome)
      requires Valid()
      modifies this`deadLetters, this`commands
      ensures Valid() && commands == Extended(old(commands), DL.Push(letter), outcome)
      ensures deadLetters == if outcome.FailedBefore? then old(deadLetters) else [letter] + old(deadLetters)
    {
      if outcome.Applied() {
        deadLetters := [letter] + deadLetters;
        commands := commands + [DL.Push(letter)];
      }
    }

    /** `ltrim 0 9999`. */
    method Ltrim(outcome: Outcome)
      requires Valid()
      modifies this`deadLetters, this`commands
      ensures Valid() && commands == Extended(old(commands), DL.Trim, outcome)
      ensures deadLetters == if outcome.FailedBefore? || |old(deadLetters)| <= 10000 then old(deadLetters)
                             else old(deadLetters)[..10000]
    {
      if outcome.Applied() {
        if |deadLetters| > DL.CAPACITY {
          deadLetters := deadLetters[..DL.CAPACITY];
        }
        commands := commands + [DL.Trim];
      }
    }
  }

  class RedisBroker {
    const server: Redis
    var connected: bool
    var running: bool
    var callbacks: map<string, Callback>
    var subscribed: set<string>
    var reconnectDelay: nat

    function View(): Tables
      reads this
    {
      Tables(callbacks, subscribed)
    }

    constructor (server: Redis)
      ensures this.server == server && !connected && !running && View() == Tables(map[], {}) && reconnectDelay == 1
    {
      this.server := server;
      connected, running, callbacks, subscribed, reconnectDelay := false, false, map[], {}, 1;
    }

    /** The client objects are in place before the dummy channel is subscribed, so a broker whose `connect` failed
        still publishes and subscribes; only its listener is missing. */
    method Connect(ok: bool)
      modifies this
      ensures connected && callbacks == old(callbacks)
      ensures subscribed == if ok then {"system:dummy"} else {}
      ensures running == (ok || old(running)) && reconnectDelay == if ok then 1 else old(reconnectDelay)
    {
      connected, subscribed := true, {};
      if ok {
        subscribed := {DUMMY};
        running, reconnectDelay := true, 1;
      }
    }

    /** The push and the trim are two commands; a failure of the first skips the second, and both are swallowed. The
        letter comes first, and a trim that is applied cuts the list to 10000. */
    method PublishDeadLetter(channel: string, message: Message, push: Outcome, trim: Outcome)
      requires server.Valid()
      modifies server`deadLetters, server`commands
      ensures server.Valid()
      ensures !connected || push.FailedBefore? ==>
                server.deadLetters == old(server.deadLetters) && server.commands == old(server.commands)
      ensures connected && !push.FailedBefore? ==>
                var letters := [DeadLetter(channel, message)] + old(server.deadLetters);
                var cut := push.Done? && !trim.FailedBefore? && |letters| > 10000;
                server.deadLetters == if cut then letters[..10000] else letters
      ensures connected ==>
                var pushed := Extended(old(server.commands), DL.Push(DeadLetter(channel, message)), push);
                server.commands == if push.Done? then Extended(pushed, DL.Trim, trim) else pushed
    {
      if !connected {
        return;
      }
      server.Lpush(DeadLetter(channel, message), push);
      if push.Done? {
        server.Ltrim(trim);
      }
    }

    /** The attempts of one `publish`: at most three, stopping at the first one that is acknowledged. The channel gains
        one copy per attempt the server applied, acknowledged or not. */
    method TryPublish(channel: string, message: Message, outcomes: seq<Outcome>)
      returns (attempts: nat, waits: seq<nat>, sent: bool)
      requires |outcomes| == 3
      modifies server`logs
      ensures 1 <= attempts <= 3 && waits == [500, 1000][..attempts - 1]
      ensures sent <==> outcomes[attempts - 1].Done?
      ensures !sent ==> attempts == 3
      ensures sent <==> !AllFailed(outcomes)
      ensures forall k :: 0 <= k < attempts - 1 ==> !outcomes[k].Done?
      ensures Grown(old(server.logs), server.logs, channel, message, outcomes[..attempts])
      ensures AllTried(NewPublication(channel, message), outcomes)
           == Publication(channel, message, outcomes[..attempts], if sent then Sent else Exhausted)
    {
      attempts, waits, sent := 0, [], false;
      while attempts < RETRIES && !sent
        invariant attempts <= RETRIES && (sent ==> attempts >= 1)
        invariant forall k :: 0 <= k < attempts ==> (outcomes[k].Done? <==> sent && k == attempts - 1)
        invariant waits == [500, 1000][..if sent || attempts == RETRIES then attempts - 1 else attempts]
        invariant Grown(old(server.logs), server.logs, channel, message, outcomes[..attempts])
      {
        ghost var before := server.logs;
        server.Append(channel, message, outcomes[attempts]);
        GrownOneMore(old(server.logs), before, server.logs, channel, message, outcomes, attempts);
        sent := outcomes[attempts].Done?;
        attempts := attempts + 1;
        if !sent && attempts < RETRIES {
          waits := waits + [500 * attempts];
        }
      }
      CallEnds(channel, message, outcomes, attempts, sent);
    }

    /** A call ends in one acknowledged attempt or, when all three fail, in one dead letter; never in both. */
    method Publish(channel: string, message: Message, outcomes: seq<Outcome>, push: Outcome, trim: Outcome)
      returns (attempts: nat, waits: seq<nat>)
      requires |outcomes| == 3 && server.Valid()
      modifies server
      ensures server.Valid()
      ensures attempts <= 3 && (attempts == 0 <==> !connected)
      ensures waits == [500, 1000][..if attempts == 0 then 0 else attempts - 1]
      ensures forall k :: 0 <= k < attempts - 1 ==> !outcomes[k].Done?
      ensures connected && attempts < 3 ==> outcomes[attempts - 1].Done?
      ensures Grown(old(server.logs), server.logs, channel, message, outcomes[..attempts])
      ensures var lettered := connected && (forall k :: 0 <= k < 3 ==> !outcomes[k].Done?) && !push.FailedBefore?;
              var letters := [DeadLetter(channel, message)] + old(server.deadLetters);
              var cut := push.Done? && !trim.FailedBefore? && |letters| > 10000;
              server.deadLetters ==
                if !lettered then old(server.deadLetters) else if cut then letters[..10000] else letters
      ensures var pushed := Extended(old(server.commands), DL.Push(DeadLetter(channel, message)), push);
              server.commands ==
                if !connected || !AllFailed(outcomes) then old(server.commands)
                else if push.Done? then Extended(pushed, DL.Trim, trim)
                else pushed
    {
      attempts, waits := 0, [];
      if !connected {
        return;
      }
      var sent;
      attempts, waits, sent := TryPublish(channel, message, outcomes);
      if !sent {
        PublishDeadLetter(channel, message, push, trim);
      }
    }

    /** Stores the callback first; `ok` says whether the subscribe command was sent. */
    method Subscribe(channel: string, callback: Callback, ok: bool)
      modifies this`callbacks, this`subscribed
      ensures View() == if connected then WithSubscription(WithCallback(old(View()), channel, callback), channel, ok)
                        else old(View())
      ensures callbacks == if connected then old(callbacks)[channel := callback] else old(callbacks)
      ensures subscribed == old(subscribed) + if connected && ok then {channel} else {}
    {
      if !connected {
        return;
      }
      callbacks := callbacks[channel := callback];
      if ok {
        subscribed := subscribed + {channel};
      }
    }

    /** Drops the callback first; a command that fails leaves a subscription without its callback. */
    method Unsubscribe(channel: string, ok: bool)
      modifies this`callbacks, this`subscribed
      ensures callbacks == if connected then old(callbacks) - {channel} else old(callbacks)
      ensures subscribed == old(subscribed) - if connected && ok then {channel} else {}
    {
      if !connected {
        return;
      }
      callbacks := callbacks - {channel};
      if ok {
        subscribed := subscribed - {channel};
      }
    }

    /** Re-subscribes every channel of the callback table on a new link, stopping at the first one in `down`. With an
        empty table no command is sent, so nothing can fail. */
    method Reconnect(down: set<string>) returns (ok: bool)
      modifies this`subscribed, this`reconnectDelay
      ensures ok <==> callbacks.Keys !! down
      ensures ok ==> subscribed == callbacks.Keys && View() == Relinked(old(View())) && reconnectDelay == 1
      ensures !ok ==> subscribed <= callbacks.Keys - down && reconnectDelay == old(reconnectDelay)
    {
      subscribed := {};
      var todo := callbacks.Keys;
      while todo != {}
        invariant todo <= callbacks.Keys && subscribed == callbacks.Keys - todo
        invariant subscribed !! down && reconnectDelay == old(reconnectDelay)
      {
        var ch :| ch in todo;
        if ch in down {
          return false;
        }
        subscribed := subscribed + {ch};
        todo := todo - {ch};
      }
      reconnectDelay := 1;
      return true;
    }

    /** One round of the listener's error path: sleep, double, try to reconnect. */
    method RetryOnce(down: set<string>, ghost k: nat) returns (slept: nat, ok: bool)
      requires reconnectDelay == Backoff.BrokerDelay(k)
      modifies this`subscribed, this`reconnectDelay
      ensures slept == Backoff.BrokerDelay(k)
      ensures ok <==> callbacks.Keys !! down
      ensures reconnectDelay == if ok then 1 else Backoff.BrokerDelay(k + 1)
      ensures ok ==> subscribed == callbacks.Keys
      // With no channel to re-subscribe every try "succeeds", so the delay never grows.
      ensures callbacks == map[] ==> ok
    {
      slept := reconnectDelay;
      reconnectDelay := Backoff.Doubled(reconnectDelay);
      ok := Reconnect(down);
    }

    /** The listener after a lost link, until a reconnection succeeds. `down[k]` are the channels Redis refuses at the
        `k`-th try; the loop is followed for `|down|` tries. */
    method RecoverLink(down: seq<set<string>>) returns (waits: seq<nat>, ok: bool)
      requires reconnectDelay == 1
      modifies this`subscribed, this`reconnectDelay
      ensures |waits| <= |down| && (!ok ==> |waits| == |down|) && (ok ==> 0 < |waits|)
      ensures waits == Backoff.BrokerDelays(|waits|)
      ensures forall k :: 0 <= k < |waits| ==> (callbacks.Keys !! down[k] <==> ok && k == |waits| - 1)
      ensures reconnectDelay == if ok then 1 else Backoff.BrokerDelay(|down|)
      ensures ok ==> subscribed == callbacks.Keys
    {
      waits, ok := [], false;
      while |waits| < |down| && !ok
        invariant |waits| <= |down| && (ok ==> 0 < |waits|)
        invariant waits == Backoff.BrokerDelays(|waits|)
        invariant forall k :: 0 <= k < |waits| ==> (callbacks.Keys !! down[k] <==> ok && k == |waits| - 1)
        invariant reconnectDelay == if ok then 1 else Backoff.BrokerDelay(|waits|)
        invariant ok ==> subscribed == callbacks.Keys
      {
        var slept;
        slept, ok := RetryOnce(down[|waits|], |waits|);
        waits := waits + [slept];
      }
    }
  }
}
