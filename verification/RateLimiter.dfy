/** The sliding-window rate limiter: a Redis sorted set per key, pruned, counted, extended and given a new expiry in
    one pipeline.

    A request carries two readings: `now`, the caller's clock, and `at`, the Redis clock when the pipeline runs. The
    set's member is the caller's timestamp itself, so equal timestamps are one entry. */
module RateLimiter {
  import opened Options
  import opened Sets

  type Time = real

  datatype Request = Request(now: Time, at: Time)

  /** A sorted set whose members are their own scores, with the Redis time it expires at. */
  datatype Window = Window(entries: set<Time>, expiresAt: Option<Time>)

  const NO_WINDOW := Window({}, None)

  datatype Verdict = Allowed | Denied(retryAfter: nat)

  /** The key as Redis sees it at time `at`. */
  function Live(w: Window, at: Time): set<Time> {
    if w.expiresAt.Some? && w.expiresAt.value <= at then {} else w.entries
  }

  /** `zremrangebyscore key 0 upTo`. */
  function Prune(entries: set<Time>, upTo: Time): set<Time> {
    set t | t in entries && !(0.0 <= t <= upTo)
  }

  function Seconds(w: nat): Time {
    w as Time
  }

  /** The entries counted by the pipeline. */
  function Counted(w: Window, window: nat, req: Request): set<Time> {
    Prune(Live(w, req.at), req.now - Seconds(window))
  }

  /** What the pipeline leaves behind, whether or not the request is then allowed. */
  function After(w: Window, window: nat, req: Request): Window {
    Window(Counted(w, window, req) + {req.now}, Some(req.at + Seconds(window) + 1.0))
  }

  /** `int(...)` of a non-negative number. */
  function Floor(x: real): int {
    x.Floor
  }

  // ---------------------------------------------------------------- one key over a whole run

  function State(reqs: seq<Request>, window: nat): Window {
    if reqs == [] then NO_WINDOW else After(State(reqs[..|reqs| - 1], window), window, reqs[|reqs| - 1])
  }

  /** Whether the code allows the `i`-th request of a run. */
  predicate Allows(reqs: seq<Request>, window: nat, limit: int, i: nat)
    requires i < |reqs|
  {
    |Counted(State(reqs[..i], window), window, reqs[i])| < limit
  }

  /** The reference: the distinct timestamps of all earlier requests, allowed or not, in (now - window, now]. */
  function Recent(reqs: seq<Request>, window: nat, i: nat): set<Time>
    requires i < |reqs|
  {
    set k | 0 <= k < i && reqs[i].now - Seconds(window) < reqs[k].now <= reqs[i].now :: reqs[k].now
  }

  // ---------------------------------------------------------------- the limiter

  type Keys = map<string, Window>
  type History = map<string, seq<Request>>

  /** All requests of `key` came with this window, and its set is what they left behind; a key never asked for does not
      exist. */
  ghost predicate Tracks(keys: Keys, history: History, key: string, window: nat) {
    if key in keys then key in history && keys[key] == State(history[key], window) else key !in history
  }

  function RequestsFor(history: History, key: string): seq<Request> {
    if key in history then history[key] else []
  }

  /** One more request, seen from the history of its key. */
  lemma StateSnoc(past: seq<Request>, req: Request, window: nat, limit: int)
    ensures State(past + [req], window) == After(State(past, window), window, req)
    ensures Allows(past + [req], window, limit, |past|) <==> |Counted(State(past, window), window, req)| < limit
  {
    assert (past + [req])[..|past|] == past;
  }

  function StoredWindow(keys: Keys, key: string): Window {
    if key in keys then keys[key] else NO_WINDOW
  }

  lemma TracksNext(keys: Keys, history: History, key: string, window: nat, limit: int, req: Request)
    requires Tracks(keys, history, key, window)
    ensures var was, past := StoredWindow(keys, key), RequestsFor(history, key);
            && Tracks(keys[key := After(was, window, req)], history[key := past + [req]], key, window)
            && (Allows(past + [req], window, limit, |past|) <==> |Counted(was, window, req)| < limit)
  {
    StateSnoc(RequestsFor(history, key), req, window, limit);
  }

  class RateLimiter {
    var keys: Keys
    /** Every request made so far, per key. */
    ghost var history: History

    constructor ()
      ensures keys == map[] && history == map[]
    {
      keys, history := map[], map[];
    }

    /** `check_rate_limit`: other keys are untouched, a key that does not exist counts nothing, the decision compares
        the count before this request with the limit, and a refusal always says to retry after one second. For a key
        always used with one window the decision is that of its whole history. */
    method CheckRateLimit(key: string, limit: int, window: nat, req: Request) returns (verdict: Verdict)
      modifies this
      ensures var was := if key in old(keys) then old(keys)[key] else Window({}, None);
              && (verdict == if |Counted(was, window, req)| < limit then Allowed else Denied(1))
              && keys == old(keys)[key := After(was, window, req)]
      ensures var past := if key in old(history) then old(history)[key] else [];
              && history == old(history)[key := past + [req]]
              && (Tracks(old(keys), old(history), key, window) ==>
                    && Tracks(keys, history, key, window)
                    && (verdict.Allowed? <==> Allows(past + [req], window, limit, |past|)))
    {
      if Tracks(keys, history, key, window) {
        TracksNext(keys, history, key, window, limit, req);
      }
      var windowStart := req.now - Seconds(window);
      var entries := if key in keys then Live(keys[key], req.at) else {};
      entries := Prune(entries, windowStart);
      var count := |entries|;
      entries := entries + {req.now};
      keys := keys[key := Window(entries, Some(req.at + Seconds(window) + 1.0))];
      history := history[key := RequestsFor(history, key) + [req]];
      if count >= limit {
        var retryAfter := Floor(Seconds(window) - (req.now - windowStart));
        return Denied(if retryAfter < 1 then 1 else retryAfter);
      }
      return Allowed;
    }
  }

  /** A request for one of many keys. */
  datatype Call = Call(key: string, req: Request)

  /** The requests of one key among the calls, in order. */
  function RequestsOf(calls: seq<Call>, key: string): seq<Request> {
    if calls == [] then []
    else
      var before, last := RequestsOf(calls[..|calls| - 1], key), calls[|calls| - 1];
      if last.key == key then before + [last.req] else before
  }

  // ---------------------------------------------------------------- what is counted, for any clocks

  /** The key is gone when request `j` runs. */
  predicate Expires(reqs: seq<Request>, window: nat, j: nat)
    requires 0 < j < |reqs|
  {
    reqs[j].at - reqs[j - 1].at >= Seconds(window) + 1.0
  }

  /** An entry `t` that is there before request `j` is still there when it counts. */
  predicate Spares(reqs: seq<Request>, window: nat, t: Time, j: nat)
    requires 0 < j < |reqs|
  {
    !Expires(reqs, window, j) && !(0.0 <= t <= reqs[j].now - Seconds(window))
  }

  /** The timestamp of request `k` outlives every request up to and including `i`. */
  ghost predicate Survives(reqs: seq<Request>, window: nat, k: nat, i: nat)
    requires k < i < |reqs|
  {
    forall j :: k < j <= i ==> Spares(reqs, window, reqs[k].now, j)
  }

  ghost predicate SomeSurvivor(reqs: seq<Request>, window: nat, i: nat, t: Time)
    requires i < |reqs|
  {
    exists k :: 0 <= k < i && reqs[k].now == t && Survives(reqs, window, k, i)
  }

  function CountedAt(reqs: seq<Request>, window: nat, i: nat): set<Time>
    requires i < |reqs|
  {
    Counted(State(reqs[..i], window), window, reqs[i])
  }

  /** One request further: what was counted or has just been added, unless expired or pruned. */
  lemma CountedNext(reqs: seq<Request>, window: nat, i: nat, t: Time)
    requires 0 < i < |reqs|
    ensures t in CountedAt(reqs, window, i) <==>
              (t in CountedAt(reqs, window, i - 1) || t == reqs[i - 1].now) && Spares(reqs, window, t, i)
  {
    assert reqs[..i][..i - 1] == reqs[..i - 1];
  }

  lemma SurvivorNext(reqs: seq<Request>, window: nat, i: nat, t: Time)
    requires 0 < i < |reqs|
    ensures SomeSurvivor(reqs, window, i, t) <==>
              (SomeSurvivor(reqs, window, i - 1, t) || t == reqs[i - 1].now) && Spares(reqs, window, t, i)
  {
    if SomeSurvivor(reqs, window, i, t) {
      var k :| 0 <= k < i && reqs[k].now == t && Survives(reqs, window, k, i);
      assert Spares(reqs, window, t, i);
      assert k < i - 1 ==> Survives(reqs, window, k, i - 1);
    }
    if t == reqs[i - 1].now && Spares(reqs, window, t, i) {
      assert Survives(reqs, window, i - 1, i);
    }
    if SomeSurvivor(reqs, window, i - 1, t) && Spares(reqs, window, t, i) {
      var k :| 0 <= k < i - 1 && reqs[k].now == t && Survives(reqs, window, k, i - 1);
      assert Survives(reqs, window, k, i);
    }
  }

  /** Exactly what is counted, whatever the clocks do: the timestamps of earlier requests that no request since, this
      one included, pruned or found expired. Timestamps later than `now` count too. */
  lemma {:induction false} CountedIff(reqs: seq<Request>, window: nat, i: nat, t: Time)
    requires i < |reqs|
    ensures t in CountedAt(reqs, window, i) <==> SomeSurvivor(reqs, window, i, t)
  {
    if i > 0 {
      CountedIff(reqs, window, i - 1, t);
      CountedNext(reqs, window, i, t);
      SurvivorNext(reqs, window, i, t);
    }
  }

  // ---------------------------------------------------------------- against the full history

  /** The callers' clocks do not run backwards from one request to the next. */
  ghost predicate Steady(reqs: seq<Request>) {
    && (forall k :: 0 <= k < |reqs| ==> 0.0 <= reqs[k].now)
    && (forall k :: 0 < k < |reqs| ==> reqs[k - 1].now <= reqs[k].now)
  }

  /** The key never expires before the window of its last entry is over on the callers' clocks. */
  ghost predicate Outlasts(reqs: seq<Request>, window: nat) {
    forall k :: 0 < k < |reqs| && Expires(reqs, window, k) ==> reqs[k].now - reqs[k - 1].now >= Seconds(window)
  }

  ghost predicate Orderly(reqs: seq<Request>, window: nat) {
    Steady(reqs) && Outlasts(reqs, window)
  }

  /** The expiry's extra second covers a Redis clock that gains at most one second between requests. */
  lemma SmallDriftIsOrderly(reqs: seq<Request>, window: nat)
    requires Steady(reqs)
    requires forall k :: 0 < k < |reqs| ==> reqs[k].at - reqs[k - 1].at <= reqs[k].now - reqs[k - 1].now + 1.0
    ensures Orderly(reqs, window)
  {
  }

  lemma {:induction false} TimesRise(reqs: seq<Request>, a: nat, b: nat)
    requires Steady(reqs) && a <= b < |reqs|
    ensures reqs[a].now <= reqs[b].now
  {
    if a < b {
      TimesRise(reqs, a, b - 1);
      assert reqs[b - 1].now <= reqs[b].now;
    }
  }

  /** Nothing is counted that the reference does not count, early expiry or not. */
  lemma CountsOnlyRecent(reqs: seq<Request>, window: nat, i: nat)
    requires Steady(reqs) && i < |reqs|
    ensures CountedAt(reqs, window, i) <= Recent(reqs, window, i)
  {
    forall t <- CountedAt(reqs, window, i) ensures t in Recent(reqs, window, i) {
      CountedIff(reqs, window, i, t);
      var k :| 0 <= k < i && reqs[k].now == t && Survives(reqs, window, k, i);
      TimesRise(reqs, k, i);
      assert Spares(reqs, window, t, i);
    }
  }

  lemma RecentSurvives(reqs: seq<Request>, window: nat, k: nat, i: nat)
    requires Orderly(reqs, window) && k < i < |reqs| && reqs[i].now - Seconds(window) < reqs[k].now
    ensures Survives(reqs, window, k, i)
  {
    forall j | k < j <= i ensures Spares(reqs, window, reqs[k].now, j) {
      TimesRise(reqs, k, j - 1);
      TimesRise(reqs, j, i);
    }
  }

  /** Neither pruning nor expiry ever changes a decision: the entries counted are exactly the recent timestamps of the
      full history. */
  lemma CountsFullHistory(reqs: seq<Request>, window: nat, i: nat)
    requires Orderly(reqs, window) && i < |reqs|
    ensures CountedAt(reqs, window, i) == Recent(reqs, window, i)
  {
    CountsOnlyRecent(reqs, window, i);
    forall t <- Recent(reqs, window, i) ensures t in CountedAt(reqs, window, i) {
      var k :| 0 <= k < i && reqs[i].now - Seconds(window) < reqs[k].now <= reqs[i].now && reqs[k].now == t;
      RecentSurvives(reqs, window, k, i);
      CountedIff(reqs, window, i, t);
    }
  }

  /** A key that expires early counts nothing, although the last timestamp is recent. */
  lemma EarlyExpiryForgets(reqs: seq<Request>, window: nat, k: nat)
    requires Steady(reqs) && 0 < k < |reqs| && Expires(reqs, window, k)
    requires reqs[k].now - reqs[k - 1].now < Seconds(window)
    ensures CountedAt(reqs, window, k) == {} && reqs[k - 1].now in Recent(reqs, window, k)
  {
    forall t ensures t !in CountedAt(reqs, window, k) {
      CountedNext(reqs, window, k, t);
    }
    assert reqs[k - 1].now <= reqs[k].now;
  }

  ghost predicate CountsAsHistory(reqs: seq<Request>, window: nat) {
    forall i :: 0 <= i < |reqs| ==> CountedAt(reqs, window, i) == Recent(reqs, window, i)
  }

  /** The pruned, expiring set counts as the full history does throughout a run if and only if the key never expires
      early in it. */
  lemma CountsAsHistoryIff(reqs: seq<Request>, window: nat)
    requires Steady(reqs)
    ensures CountsAsHistory(reqs, window) <==> Outlasts(reqs, window)
  {
    if Outlasts(reqs, window) {
      forall i | 0 <= i < |reqs| ensures CountedAt(reqs, window, i) == Recent(reqs, window, i) {
        CountsFullHistory(reqs, window, i);
      }
    } else {
      var k :| 0 < k < |reqs| && Expires(reqs, window, k) && reqs[k].now - reqs[k - 1].now < Seconds(window);
      EarlyExpiryForgets(reqs, window, k);
      assert CountedAt(reqs, window, k) != Recent(reqs, window, k);
    }
  }

  /** The code decides as the reference does. */
  lemma DecidesAsFullHistory(reqs: seq<Request>, window: nat, limit: int, i: nat)
    requires Orderly(reqs, window) && i < |reqs|
    ensures Allows(reqs, window, limit, i) <==> |Recent(reqs, window, i)| < limit
  {
    CountsFullHistory(reqs, window, i);
  }

  ghost predicate DecidesAsHistory(reqs: seq<Request>, window: nat, limit: int) {
    forall i :: 0 <= i < |reqs| ==> (Allows(reqs, window, limit, i) <==> |Recent(reqs, window, i)| < limit)
  }

  /** ... for every limit, if the key never expires early; and for a limit of one only then. */
  lemma DecidesAsHistoryIff(reqs: seq<Request>, window: nat, limit: int)
    requires Steady(reqs)
    ensures Outlasts(reqs, window) ==> DecidesAsHistory(reqs, window, limit)
    ensures DecidesAsHistory(reqs, window, 1) ==> Outlasts(reqs, window)
  {
    if Outlasts(reqs, window) {
      forall i | 0 <= i < |reqs| ensures Allows(reqs, window, limit, i) <==> |Recent(reqs, window, i)| < limit {
        DecidesAsFullHistory(reqs, window, limit, i);
      }
    } else {
      var k :| 0 < k < |reqs| && Expires(reqs, window, k) && reqs[k].now - reqs[k - 1].now < Seconds(window);
      EarlyExpiryForgets(reqs, window, k);
      SubsetSize({reqs[k - 1].now}, Recent(reqs, window, k));
      assert Allows(reqs, window, 1, k);
    }
  }

  /** The one second the expiry adds to the window is exactly the drift it tolerates: for every larger drift there is a
      pair of requests that the expired key lets through and the full history would not. */
  lemma LargerDriftForgets(window: nat, drift: Time) returns (reqs: seq<Request>)
    requires drift > 1.0 && window >= 1
    ensures |reqs| == 2 && 0.0 <= reqs[0].now <= reqs[1].now
    ensures reqs[1].at - reqs[0].at == reqs[1].now - reqs[0].now + drift
    ensures Allows(reqs, window, 1, 1) && |Recent(reqs, window, 1)| == 1
  {
    var life := Seconds(window) + 1.0;
    reqs := [Request(0.0, 0.0), if drift <= life then Request(life - drift, life) else Request(0.0, drift)];
    assert reqs[..1] == [reqs[0]] && reqs[..1][..0] == [];
    assert State([reqs[0]], window).expiresAt == Some(life);
    assert Counted(State(reqs[..1], window), window, reqs[1]) == {};
    assert Recent(reqs, window, 1) == {0.0} by {
      assert reqs[0].now in Recent(reqs, window, 1);
    }
  }

  // ---------------------------------------------------------------- clocks that run backwards

  ghost predicate NonNegative(reqs: seq<Request>) {
    forall k :: 0 <= k < |reqs| ==> 0.0 <= reqs[k].now
  }

  /** Whenever the callers' clock steps back, the key has expired. */
  ghost predicate StepsBackOnExpiry(reqs: seq<Request>, window: nat) {
    forall j :: 0 < j < |reqs| && reqs[j].now < reqs[j - 1].now ==> Expires(reqs, window, j)
  }

  predicate InWindow(reqs: seq<Request>, window: nat, k: nat, i: nat)
    requires k < |reqs| && i < |reqs|
  {
    reqs[i].now - Seconds(window) < reqs[k].now <= reqs[i].now
  }

  /** Some request from `m` on and before `i` carries the timestamp of request `k`. */
  ghost predicate Repeated(reqs: seq<Request>, k: nat, m: nat, i: nat)
    requires k < |reqs| && i < |reqs|
  {
    exists x :: m <= x < i && reqs[x].now == reqs[k].now
  }

  /** No timestamp the expiry at `m` dropped is in the window of a later request, unless repeated in between. */
  ghost predicate DropsOnlyOld(reqs: seq<Request>, window: nat) {
    forall k, m, i :: 0 <= k < m <= i < |reqs| && Expires(reqs, window, m) && InWindow(reqs, window, k, i) ==>
      Repeated(reqs, k, m, i)
  }

  lemma {:induction false} RisesWithoutExpiry(reqs: seq<Request>, window: nat, a: nat, b: nat)
    requires StepsBackOnExpiry(reqs, window) && a <= b < |reqs|
    requires forall j :: a < j <= b ==> !Expires(reqs, window, j)
    ensures reqs[a].now <= reqs[b].now
  {
    if a < b {
      RisesWithoutExpiry(reqs, window, a, b - 1);
    }
  }

  lemma {:induction false} InWindowSurvives(reqs: seq<Request>, window: nat, k: nat, i: nat)
    requires StepsBackOnExpiry(reqs, window) && DropsOnlyOld(reqs, window)
    requires k < i < |reqs| && InWindow(reqs, window, k, i)
    ensures SomeSurvivor(reqs, window, i, reqs[k].now)
    decreases i - k
  {
    if m :| k < m <= i && Expires(reqs, window, m) {
      var x :| m <= x < i && reqs[x].now == reqs[k].now;
      InWindowSurvives(reqs, window, x, i);
    } else {
      forall j | k < j <= i ensures Spares(reqs, window, reqs[k].now, j) {
        RisesWithoutExpiry(reqs, window, j, i);
      }
      assert Survives(reqs, window, k, i);
    }
  }

  lemma SurvivorInWindow(reqs: seq<Request>, window: nat, k: nat, i: nat)
    requires NonNegative(reqs) && StepsBackOnExpiry(reqs, window) && k < i < |reqs| && Survives(reqs, window, k, i)
    ensures InWindow(reqs, window, k, i)
  {
    assert Spares(reqs, window, reqs[k].now, i);
    forall j | k < j <= i ensures !Expires(reqs, window, j) {
      assert Spares(reqs, window, reqs[k].now, j);
    }
    RisesWithoutExpiry(reqs, window, k, i);
  }

  lemma AnyClockCounts(reqs: seq<Request>, window: nat, i: nat)
    requires NonNegative(reqs) && StepsBackOnExpiry(reqs, window) && DropsOnlyOld(reqs, window) && i < |reqs|
    ensures CountedAt(reqs, window, i) == Recent(reqs, window, i)
  {
    forall t ensures t in CountedAt(reqs, window, i) <==> t in Recent(reqs, window, i) {
      CountedIff(reqs, window, i, t);
      if SomeSurvivor(reqs, window, i, t) {
        var k :| 0 <= k < i && reqs[k].now == t && Survives(reqs, window, k, i);
        SurvivorInWindow(reqs, window, k, i);
      }
      if t in Recent(reqs, window, i) {
        var k :| 0 <= k < i && InWindow(reqs, window, k, i) && reqs[k].now == t;
        InWindowSurvives(reqs, window, k, i);
      }
    }
  }

  /** A later timestamp that is still there is counted, though it is not in the window. */
  lemma StepBackCounts(reqs: seq<Request>, window: nat, j: nat)
    requires 0 < j < |reqs| && reqs[j].now < reqs[j - 1].now && !Expires(reqs, window, j)
    ensures CountedAt(reqs, window, j) != Recent(reqs, window, j)
  {
    CountedNext(reqs, window, j, reqs[j - 1].now);
  }

  lemma DroppedIsMissed(reqs: seq<Request>, window: nat, k: nat, m: nat, i: nat)
    requires k < m <= i < |reqs| && Expires(reqs, window, m) && InWindow(reqs, window, k, i)
    requires !Repeated(reqs, k, m, i)
    ensures CountedAt(reqs, window, i) != Recent(reqs, window, i)
  {
    var t := reqs[k].now;
    CountedIff(reqs, window, i, t);
    forall x | 0 <= x < i && reqs[x].now == t ensures !Survives(reqs, window, x, i) {
      assert x < m && !Spares(reqs, window, t, m);
    }
    assert t in Recent(reqs, window, i);
  }

  /** With clocks that may run backwards, as between instances: the set counts as the full history does throughout a run
      if and only if every step back meets an expired key, and no expiry drops what a later window needs. */
  lemma CountsAsHistoryAnyClockIff(reqs: seq<Request>, window: nat)
    requires NonNegative(reqs)
    ensures CountsAsHistory(reqs, window) <==> StepsBackOnExpiry(reqs, window) && DropsOnlyOld(reqs, window)
  {
    if StepsBackOnExpiry(reqs, window) && DropsOnlyOld(reqs, window) {
      forall i | 0 <= i < |reqs| ensures CountedAt(reqs, window, i) == Recent(reqs, window, i) {
        AnyClockCounts(reqs, window, i);
      }
    } else if !StepsBackOnExpiry(reqs, window) {
      var j :| 0 < j < |reqs| && reqs[j].now < reqs[j - 1].now && !Expires(reqs, window, j);
      StepBackCounts(reqs, window, j);
    } else {
      var k, m, i :| 0 <= k < m <= i < |reqs| && Expires(reqs, window, m) && InWindow(reqs, window, k, i) &&
                     !Repeated(reqs, k, m, i);
      DroppedIsMissed(reqs, window, k, m, i);
    }
  }

  // ---------------------------------------------------------------- cardinalities

  function Times(reqs: seq<Request>, ks: set<nat>): set<Time>
    requires forall k <- ks :: k < |reqs|
  {
    set k | k in ks :: reqs[k].now
  }

  predicate DistinctTimes(reqs: seq<Request>) {
    forall a, b :: 0 <= a < b < |reqs| ==> reqs[a].now != reqs[b].now
  }

  lemma {:induction false} DistinctTimesCount(reqs: seq<Request>, ks: set<nat>)
    requires DistinctTimes(reqs) && forall k <- ks :: k < |reqs|
    ensures |Times(reqs, ks)| == |ks|
  {
    if ks != {} {
      var k :| k in ks;
      DistinctTimesCount(reqs, ks - {k});
      assert Times(reqs, ks) == Times(reqs, ks - {k}) + {reqs[k].now};
      assert reqs[k].now !in Times(reqs, ks - {k});
    }
  }

  /** The indices from `a` up to but not including `b`. */
  function Range(a: nat, b: nat): (r: set<nat>)
    ensures forall k :: k in r <==> a <= k < b
  {
    if b <= a then {} else Range(a, b - 1) + {b - 1}
  }

  lemma {:induction false} RangeTimes(reqs: seq<Request>, a: nat, b: nat)
    requires a <= b <= |reqs|
    ensures |Times(reqs, Range(a, b))| <= b - a
    ensures DistinctTimes(reqs) ==> |Times(reqs, Range(a, b))| == b - a
  {
    if a == b {
      assert Times(reqs, Range(a, b)) == {};
    } else {
      RangeTimes(reqs, a, b - 1);
      assert Range(a, b) == Range(a, b - 1) + {b - 1};
      assert Times(reqs, Range(a, b)) == Times(reqs, Range(a, b - 1)) + {reqs[b - 1].now};
    }
  }

  // ---------------------------------------------------------------- the bound on every window

  /** Allowed requests that lie within less than one window of each other. */
  ghost predicate AllowedTogether(reqs: seq<Request>, window: nat, limit: int, ks: set<nat>) {
    && (forall k <- ks :: k < |reqs| && Allows(reqs, window, limit, k))
    && (forall j <- ks, k <- ks :: reqs[k].now - reqs[j].now < Seconds(window))
  }

  lemma {:induction false} LargestExists(ks: set<nat>) returns (largest: nat)
    requires ks != {}
    ensures largest in ks && forall k <- ks :: k <= largest
  {
    var first :| first in ks;
    largest := first;
    if ks != {first} {
      assert ks - {first} != {};
      var other := LargestExists(ks - {first});
      largest := if other > first then other else first;
      assert forall k <- ks :: k == first || k in ks - {first};
    }
  }

  lemma RecentOrLast(reqs: seq<Request>, window: nat, ks: set<nat>, last: nat)
    requires Steady(reqs) && last in ks && forall k <- ks :: k <= last < |reqs|
    requires forall k <- ks :: reqs[last].now - reqs[k].now < Seconds(window)
    ensures Times(reqs, ks) <= Recent(reqs, window, last) + {reqs[last].now}
  {
    forall k <- ks ensures reqs[k].now in Recent(reqs, window, last) + {reqs[last].now} {
      TimesRise(reqs, k, last);
    }
  }

  /** In no window are more than `limit` distinct timestamps allowed. */
  lemma WindowBound(reqs: seq<Request>, window: nat, limit: int, ks: set<nat>)
    requires Orderly(reqs, window) && AllowedTogether(reqs, window, limit, ks) && ks != {}
    ensures |Times(reqs, ks)| <= limit
    ensures DistinctTimes(reqs) ==> |ks| <= limit
  {
    var last := LargestExists(ks);
    DecidesAsFullHistory(reqs, window, limit, last);
    RecentOrLast(reqs, window, ks, last);
    SubsetSize(Times(reqs, ks), Recent(reqs, window, last) + {reqs[last].now});
    if DistinctTimes(reqs) {
      DistinctTimesCount(reqs, ks);
    }
  }

  /** The allowed requests of the half-open interval [from, from + window). */
  ghost function AllowedIn(reqs: seq<Request>, window: nat, limit: int, from: Time): set<nat> {
    set k | 0 <= k < |reqs| && Allows(reqs, window, limit, k) && from <= reqs[k].now < from + Seconds(window)
  }

  /** The sliding-window promise: wherever the window is placed, it holds at most `limit` allowed timestamps, and at
      most `limit` allowed requests when timestamps are distinct. */
  lemma SlidingWindowBound(reqs: seq<Request>, window: nat, limit: nat, from: Time)
    requires Orderly(reqs, window)
    ensures |Times(reqs, AllowedIn(reqs, window, limit, from))| <= limit
    ensures DistinctTimes(reqs) ==> |AllowedIn(reqs, window, limit, from)| <= limit
  {
    var ks := AllowedIn(reqs, window, limit, from);
    if ks == {} {
      assert Times(reqs, ks) == {};
    } else {
      WindowBound(reqs, window, limit, ks);
    }
  }

  /** Without distinct timestamps the bound on requests holds for a limit of one ... */
  lemma LimitOneBoundsRequests(reqs: seq<Request>, window: nat, ks: set<nat>)
    requires Orderly(reqs, window) && AllowedTogether(reqs, window, 1, ks)
    ensures |ks| <= 1
  {
    if ks != {} {
      var last := LargestExists(ks);
      DecidesAsFullHistory(reqs, window, 1, last);
      assert Recent(reqs, window, last) == {};
      forall k <- ks ensures k == last {
        TimesRise(reqs, k, last);
        assert reqs[k].now !in Recent(reqs, window, last);
      }
      assert ks == {last};
    }
  }

  /** ... and for no larger one: any number of simultaneous requests is then allowed. */
  lemma TiesEscapeTheLimit(window: nat, limit: int, n: nat) returns (reqs: seq<Request>)
    requires limit >= 2 && window >= 1
    ensures |reqs| == n && Orderly(reqs, window)
    ensures AllowedTogether(reqs, window, limit, Range(0, n))
  {
    reqs := seq(n, _ => Request(0.0, 0.0));
    forall i | 0 <= i < n ensures Allows(reqs, window, limit, i) {
      DecidesAsFullHistory(reqs, window, limit, i);
      SubsetSize(Recent(reqs, window, i), {0.0});
    }
  }

  // ---------------------------------------------------------------- sustained load and recovery

  predicate GapsAtMost(reqs: seq<Request>, g: Time) {
    forall k :: 0 <= k < |reqs| - 1 ==> reqs[k + 1].now - reqs[k].now <= g
  }

  lemma {:induction false} SpanAtMost(reqs: seq<Request>, g: Time, a: nat, b: nat)
    requires GapsAtMost(reqs, g) && a <= b < |reqs|
    ensures reqs[b].now - reqs[a].now <= (b - a) as Time * g
  {
    if a < b {
      SpanAtMost(reqs, g, a, b - 1);
      assert reqs[b - 1 + 1].now - reqs[b - 1].now <= g;
      assert (b - a) as Time * g == (b - 1 - a) as Time * g + g;
    }
  }

  lemma CrowdedIsRefused(reqs: seq<Request>, window: nat, limit: nat, i: nat)
    requires Orderly(reqs, window) && DistinctTimes(reqs) && limit <= i < |reqs|
    requires reqs[i].now - reqs[i - limit].now < Seconds(window)
    ensures !Allows(reqs, window, limit, i)
  {
    var from := i - limit;
    RangeTimes(reqs, from, i);
    forall k | from <= k < i ensures reqs[k].now in Recent(reqs, window, i) {
      TimesRise(reqs, from, k);
      TimesRise(reqs, k, i);
    }
    SubsetSize(Times(reqs, Range(from, i)), Recent(reqs, window, i));
    DecidesAsFullHistory(reqs, window, limit, i);
  }

  /** Refused requests count too: whoever keeps asking with gaps of at most `g`, `limit * g` less than the window, is
      refused from the `limit`-th request on, forever. */
  lemma SustainedLoadIsRefused(reqs: seq<Request>, window: nat, limit: nat, g: Time, i: nat)
    requires Orderly(reqs, window) && DistinctTimes(reqs) && GapsAtMost(reqs, g)
    requires limit as Time * g < Seconds(window) && limit <= i < |reqs|
    ensures !Allows(reqs, window, limit, i)
  {
    SpanAtMost(reqs, g, i - limit, i);
    CrowdedIsRefused(reqs, window, limit, i);
  }

  /** A client that does what every refusal's Retry-After tells it: one request a second. */
  predicate EverySecond(reqs: seq<Request>) {
    forall k :: 0 <= k < |reqs| - 1 ==> reqs[k + 1].now == reqs[k].now + 1.0
  }

  lemma {:induction false} SecondsApart(reqs: seq<Request>, a: nat, b: nat)
    requires EverySecond(reqs) && a <= b < |reqs|
    ensures reqs[b].now == reqs[a].now + Seconds(b - a)
  {
    if a < b {
      SecondsApart(reqs, a, b - 1);
      assert reqs[b - 1 + 1].now == reqs[b - 1].now + 1.0;
    }
  }

  lemma RecentSeconds(reqs: seq<Request>, window: nat, i: nat)
    requires EverySecond(reqs) && i < |reqs|
    ensures var n := if i < window then i else if window == 0 then 0 else window - 1;
            Recent(reqs, window, i) == Times(reqs, Range(i - n, i))
  {
    var n := if i < window then i else if window == 0 then 0 else window - 1;
    forall k | 0 <= k < i
      ensures reqs[k].now in Recent(reqs, window, i) <==> k in Range(i - n, i)
      ensures reqs[k].now <= reqs[i].now
      ensures reqs[i].now - Seconds(window) < reqs[k].now <==> k in Range(i - n, i)
    {
      SecondsApart(reqs, k, i);
      forall j | 0 <= j < i && reqs[j].now == reqs[k].now ensures j == k {
        SecondsApart(reqs, if j < k then j else k, if j < k then k else j);
      }
    }
  }

  /** Obeying the one-second Retry-After lets a client in if and only if it is among its first `limit` requests or the
      limit is at least the window's seconds. With 30 per 60, as on the socket, it is refused forever. */
  lemma ObeyingRetryAfterIff(reqs: seq<Request>, window: nat, limit: nat, i: nat)
    requires Orderly(reqs, window) && EverySecond(reqs) && limit > 0 && i < |reqs|
    ensures Allows(reqs, window, limit, i) <==> i < limit || window <= limit
  {
    var n := if i < window then i else if window == 0 then 0 else window - 1;
    forall a, b | 0 <= a < b < |reqs| ensures reqs[a].now != reqs[b].now {
      SecondsApart(reqs, a, b);
    }
    RecentSeconds(reqs, window, i);
    RangeTimes(reqs, i - n, i);
    DecidesAsFullHistory(reqs, window, limit, i);
  }

  /** After a silence of at least one window, the next `limit` requests are all allowed. */
  lemma SilenceRestoresTheLimit(reqs: seq<Request>, window: nat, limit: nat, i: nat, k: nat)
    requires Steady(reqs) && i <= k < |reqs| && k < i + limit
    requires i > 0 ==> reqs[i].now - reqs[i - 1].now >= Seconds(window)
    ensures Allows(reqs, window, limit, k)
  {
    TimesRise(reqs, i, k);
    forall j | 0 <= j < k && reqs[k].now - Seconds(window) < reqs[j].now
      ensures reqs[j].now in Times(reqs, Range(i, k))
    {
      if j < i {
        TimesRise(reqs, j, i - 1);
      } else {
        assert j in Range(i, k);
      }
    }
    CountsOnlyRecent(reqs, window, k);
    SubsetSize(CountedAt(reqs, window, k), Times(reqs, Range(i, k)));
    RangeTimes(reqs, i, k);
  }

  // ---------------------------------------------------------------- the limiter itself

  /** What the limiter must say to call `i`: the reference's word on the requests of that call's key. */
  ghost predicate Judged(calls: seq<Call>, window: nat, limit: int, i: nat, verdict: Verdict)
    requires i < |calls|
  {
    var reqs := RequestsOf(calls[..i + 1], calls[i].key);
    && reqs != []
    && verdict == (if Allows(reqs, window, limit, |reqs| - 1) then Allowed else Denied(1))
    && (Orderly(reqs, window) ==> (verdict.Allowed? <==> |Recent(reqs, window, |reqs| - 1)| < limit))
  }

  ghost predicate AllTracked(keys: Keys, history: History, window: nat) {
    forall key :: Tracks(keys, history, key, window)
  }

  ghost predicate AllHeard(history: History, calls: seq<Call>) {
    forall key :: RequestsFor(history, key) == RequestsOf(calls, key)
  }

  /** The limiter's state after these calls. */
  ghost predicate Remembers(keys: Keys, history: History, calls: seq<Call>, window: nat) {
    AllTracked(keys, history, window) && AllHeard(history, calls)
  }

  lemma RequestsSnoc(calls: seq<Call>, n: nat, key: string)
    requires n < |calls|
    ensures RequestsOf(calls[..n + 1], key)
         == if calls[n].key == key then RequestsOf(calls[..n], key) + [calls[n].req] else RequestsOf(calls[..n], key)
  {
    assert calls[..n + 1][..n] == calls[..n];
  }

  lemma HeardOneMore(history: History, calls: seq<Call>, n: nat)
    requires n < |calls| && AllHeard(history, calls[..n])
    ensures var key := calls[n].key;
            AllHeard(history[key := RequestsFor(history, key) + [calls[n].req]], calls[..n + 1])
  {
    var key := calls[n].key;
    var history' := history[key := RequestsFor(history, key) + [calls[n].req]];
    forall k ensures RequestsFor(history', k) == RequestsOf(calls[..n + 1], k) {
      assert RequestsFor(history, k) == RequestsOf(calls[..n], k);
      RequestsSnoc(calls, n, k);
    }
  }

  lemma TrackedOneMore(keys: Keys, history: History, key: string, w: Window, reqs: seq<Request>, window: nat)
    requires AllTracked(keys, history, window) && Tracks(keys[key := w], history[key := reqs], key, window)
    ensures AllTracked(keys[key := w], history[key := reqs], window)
  {
    var keys', history' := keys[key := w], history[key := reqs];
    forall k ensures Tracks(keys', history', k, window) {
      assert Tracks(keys, history, k, window);
    }
  }

  method JudgeOne(limiter: RateLimiter, calls: seq<Call>, n: nat, limit: int, window: nat) returns (verdict: Verdict)
    requires n < |calls| && Remembers(limiter.keys, limiter.history, calls[..n], window)
    modifies limiter
    ensures Remembers(limiter.keys, limiter.history, calls[..n + 1], window)
    ensures Judged(calls, window, limit, n, verdict)
  {
    var key := calls[n].key;
    ghost var keys, history, past := limiter.keys, limiter.history, RequestsFor(limiter.history, key);
    assert Tracks(keys, history, key, window);
    verdict := limiter.CheckRateLimit(key, limit, window, calls[n].req);
    HeardOneMore(history, calls, n);
    TrackedOneMore(keys, history, key, limiter.keys[key], past + [calls[n].req], window);
    assert RequestsOf(calls[..n + 1], key) == RequestsFor(limiter.history, key) == past + [calls[n].req];
    JudgedByHistory(past + [calls[n].req], window, limit);
  }

  /** Any sequence of calls for any keys: each verdict is that of the full history of its own key, and no other key's
      requests play a part. */
  method JudgeAll(calls: seq<Call>, limit: int, window: nat) returns (verdicts: seq<Verdict>)
    ensures |verdicts| == |calls|
    ensures forall i :: 0 <= i < |calls| ==> Judged(calls, window, limit, i, verdicts[i])
  {
    var limiter := new RateLimiter();
    verdicts := [];
    for n := 0 to |calls|
      invariant |verdicts| == n && Remembers(limiter.keys, limiter.history, calls[..n], window)
      invariant forall i :: 0 <= i < n ==> Judged(calls, window, limit, i, verdicts[i])
    {
      var verdict := JudgeOne(limiter, calls, n, limit, window);
      verdicts := verdicts + [verdict];
    }
  }

  lemma JudgedByHistory(reqs: seq<Request>, window: nat, limit: int)
    requires reqs != []
    ensures Orderly(reqs, window) ==>
              (Allows(reqs, window, limit, |reqs| - 1) <==> |Recent(reqs, window, |reqs| - 1)| < limit)
  {
    if Orderly(reqs, window) {
      DecidesAsFullHistory(reqs, window, limit, |reqs| - 1);
    }
  }
}
