/** Reconnection delays: the broker doubles a capped field, the client evaluates a capped power. */
module Backoff {
  import opened Numbers

  const MAX_DELAY_SECONDS: nat := 30
  const BASE_DELAY_MS: nat := 1000
  const MAX_DELAY_MS: nat := 30000

  function Pow2(k: nat): nat {
    if k == 0 then 1 else 2 * Pow2(k - 1)
  }

  /** One doubling of the broker's `_reconnect_delay`. */
  function Doubled(delay: nat): nat {
    Min(2 * delay, MAX_DELAY_SECONDS)
  }

  /** What the broker waits at its `k`-th consecutive failure, as its loop computes it. */
  function BrokerDelay(k: nat): nat {
    if k == 0 then 1 else Doubled(BrokerDelay(k - 1))
  }

  /** The broker's first `n` waits. */
  function BrokerDelays(n: nat): (waits: seq<nat>)
    ensures |waits| == n && forall k :: 0 <= k < n ==> waits[k] == BrokerDelay(k)
  {
    if n == 0 then [] else BrokerDelays(n - 1) + [BrokerDelay(n - 1)]
  }

  /** What the client waits at its `k`-th consecutive attempt. */
  function ClientDelay(k: nat): nat {
    Min(BASE_DELAY_MS * Pow2(k), MAX_DELAY_MS)
  }

  /** Iterated capped doubling is the capped power, for every `k`, and the two sides agree to the millisecond. */
  lemma {:induction false} BackoffsAgree(k: nat)
    ensures BrokerDelay(k) == Min(Pow2(k), 30)
    ensures ClientDelay(k) == Min(1000 * Pow2(k), 30000) == 1000 * BrokerDelay(k)
  {
    if k > 0 {
      BackoffsAgree(k - 1);
    }
  }

  /** Delays never shrink while failures go on, and stay at half a minute from the fifth on. */
  lemma {:induction false} BackoffMonotone(k: nat)
    ensures BrokerDelay(k) <= BrokerDelay(k + 1)
    ensures BrokerDelay(k) == if k < 5 then [1, 2, 4, 8, 16][k] else 30
  {
    BackoffsAgree(k);
    BackoffsAgree(k + 1);
    if k > 0 {
      BackoffMonotone(k - 1);
    }
  }
}

/** The client's reconnection state: `state.reconnectAttempts` and `state.reconnectTimer`. */
module ReconnectingClient {
  import opened Options
  import opened Backoff
  import opened Numbers

  const NORMAL_CLOSURE := 1000

  class ReconnectState {
    var attempts: nat
    var timer: Option<nat>
    /** The delays scheduled since the connection last opened. */
    ghost var scheduled: seq<nat>

    /** The `k`-th timer since the last open was set to the `k`-th delay. */
    ghost predicate Valid()
      reads this
    {
      |scheduled| == attempts && forall k :: 0 <= k < attempts ==> scheduled[k] == ClientDelay(k)
    }

    constructor ()
      ensures Valid() && attempts == 0 && timer.None?
    {
      attempts, timer, scheduled := 0, None, [];
    }

    method OnOpen()
      requires Valid()
      modifies this
      ensures Valid() && attempts == 0 && scheduled == [] && timer == old(timer)
    {
      attempts, scheduled := 0, [];
    }

    /** Does nothing while a timer is pending. */
    method ScheduleReconnect()
      requires Valid()
      modifies this
      ensures Valid()
      ensures old(timer).Some? ==> timer == old(timer) && attempts == old(attempts) && scheduled == old(scheduled)
      ensures old(timer).None? ==>
                && timer == Some(1000 * BrokerDelay(old(attempts)))
                && attempts == old(attempts) + 1
                && scheduled == old(scheduled) + [timer.value]
    {
      if timer.Some? {
        return;
      }
      var delay := Min(BASE_DELAY_MS * Pow2(attempts), MAX_DELAY_MS);
      BackoffsAgree(attempts);
      attempts := attempts + 1;
      timer, scheduled := Some(delay), scheduled + [delay];
    }

    method OnClose(code: int)
      requires Valid()
      modifies this
      ensures Valid()
      ensures code == 1000 || old(timer).Some? ==> attempts == old(attempts) && timer == old(timer)
      ensures code != 1000 && old(timer).None? ==>
                attempts == old(attempts) + 1 && timer == Some(1000 * BrokerDelay(old(attempts)))
    {
      if code != NORMAL_CLOSURE {
        ScheduleReconnect();
      }
    }

    /** The timer callback clears the timer before it connects again. */
    method OnTimer()
      requires Valid() && timer.Some?
      modifies this
      ensures Valid() && timer.None? && attempts == old(attempts) && scheduled == old(scheduled)
    {
      timer := None;
    }
  }
}
