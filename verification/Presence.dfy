/** Presence: one sorted set per room, last-seen time per user, stale entries removed lazily by readers. */
module Presence {
  import opened Options
  import Events

  type User = Events.User
  type Room = Events.Room
  type Time = real

  type SortedSet = map<User, Time>

  /** The Redis keys `presence:{room}`; an absent key is an empty set. */
  type Rooms = map<Room, SortedSet>

  function SetOf(rooms: Rooms, r: Room): SortedSet {
    if r in rooms then rooms[r] else map[]
  }

  /** `zremrangebyscore key 0 cutoff`. */
  function Purged(z: SortedSet, cutoff: Time): SortedSet {
    map u | u in z && !(0.0 <= z[u] <= cutoff) :: z[u]
  }

  /** `zrangebyscore key cutoff +inf`, as a set. */
  function Listed(z: SortedSet, cutoff: Time): set<User> {
    set u | u in z && cutoff <= z[u]
  }

  /** `is_online`. */
  predicate IsOnline(z: SortedSet, u: User, now: Time, timeout: Time) {
    u in z && now - z[u] < timeout
  }

  // ---------------------------------------------------------------- runs

  /** Every command the service sends; `remove_user_from_all_rooms` is one `Leave` per scanned key. */
  datatype Command =
    | Seen(room: Room, user: User, time: Time)     // set_online and heartbeat
    | Leave(room: Room, user: User)                // set_offline
    | Purge(room: Room, time: Time)                // the first half of get_online_users

  function Execute(rooms: Rooms, cmd: Command, timeout: Time): Rooms {
    var z := SetOf(rooms, cmd.room);
    match cmd
    case Seen(r, u, t) => rooms[r := z[u := t]]
    case Leave(r, u) => rooms[r := z - {u}]
    case Purge(r, t) => rooms[r := Purged(z, t - timeout)]
  }

  function State(cmds: seq<Command>, timeout: Time): Rooms {
    if cmds == [] then map[] else Execute(State(cmds[..|cmds| - 1], timeout), cmds[|cmds| - 1], timeout)
  }

  // ---------------------------------------------------------------- for any clocks

  predicate About(cmd: Command, r: Room, u: User) {
    !cmd.Purge? && cmd.room == r && cmd.user == u
  }

  /** The user's last event in the room, of the three kinds, is the online or heartbeat at position `k`. */
  ghost predicate LastEventAt(cmds: seq<Command>, r: Room, u: User, k: nat) {
    && k < |cmds| && cmds[k].Seen? && About(cmds[k], r, u)
    && forall j :: k < j < |cmds| ==> !About(cmds[j], r, u)
  }

  /** A purge of the room that takes an entry made at time `seen`. */
  predicate Takes(cmd: Command, r: Room, seen: Time, timeout: Time) {
    cmd.Purge? && cmd.room == r && 0.0 <= seen <= cmd.time - timeout
  }

  /** No purge since position `k` took that entry. */
  ghost predicate Spared(cmds: seq<Command>, r: Room, k: nat, timeout: Time)
    requires k < |cmds| && cmds[k].Seen?
  {
    forall j :: k < j < |cmds| ==> !Takes(cmds[j], r, cmds[k].time, timeout)
  }

  /** The set `z` holds `u` with the score of position `k`. */
  ghost predicate HoldsFrom(z: SortedSet, cmds: seq<Command>, r: Room, u: User, k: nat, timeout: Time) {
    LastEventAt(cmds, r, u, k) && (u in z <==> Spared(cmds, r, k, timeout)) && (u in z ==> z[u] == cmds[k].time)
  }

  ghost predicate NoLastEvent(cmds: seq<Command>, r: Room, u: User) {
    forall k: nat :: !LastEventAt(cmds, r, u, k)
  }

  lemma OtherCommandHolds(rooms: Rooms, init: seq<Command>, last: Command, r: Room, u: User, k: nat, timeout: Time)
    requires HoldsFrom(SetOf(rooms, r), init, r, u, k, timeout) && !About(last, r, u)
    ensures HoldsFrom(SetOf(Execute(rooms, last, timeout), r), init + [last], r, u, k, timeout)
  {
    var all := init + [last];
    assert all[|init|] == last && all[k] == init[k];
    assert forall j :: 0 <= j < |init| ==> all[j] == init[j];
  }

  lemma OtherCommandKeepsNone(init: seq<Command>, last: Command, r: Room, u: User)
    requires NoLastEvent(init, r, u) && !About(last, r, u)
    ensures NoLastEvent(init + [last], r, u)
  {
    var all := init + [last];
    assert forall j :: 0 <= j < |init| ==> all[j] == init[j];
    forall k: nat ensures LastEventAt(all, r, u, k) ==> LastEventAt(init, r, u, k) {
    }
  }

  /** What the set holds, with no assumption on anybody's clock: nothing of a user without a last event; otherwise its
      time, if and only if no purge of the room since took it. */
  lemma {:induction false} HeldIffSpared(cmds: seq<Command>, r: Room, u: User, timeout: Time) returns (k: nat)
    ensures var z := SetOf(State(cmds, timeout), r);
            HoldsFrom(z, cmds, r, u, k, timeout) || (NoLastEvent(cmds, r, u) && u !in z)
    decreases |cmds|
  {
    k := 0;
    if cmds != [] {
      var init, last := cmds[..|cmds| - 1], cmds[|cmds| - 1];
      var rooms := State(init, timeout);
      assert cmds == init + [last];
      if About(last, r, u) {
        k := |init|;
      } else {
        k := HeldIffSpared(init, r, u, timeout);
        if NoLastEvent(init, r, u) {
          OtherCommandKeepsNone(init, last, r, u);
        } else {
          OtherCommandHolds(rooms, init, last, r, u, k, timeout);
        }
      }
    }
  }

  ghost predicate OnlineBy(cmds: seq<Command>, r: Room, u: User, k: nat, now: Time, timeout: Time) {
    LastEventAt(cmds, r, u, k) && now - cmds[k].time < timeout
  }

  lemma LastEventUnique(cmds: seq<Command>, r: Room, u: User, j: nat, k: nat)
    requires LastEventAt(cmds, r, u, j) && LastEventAt(cmds, r, u, k)
    ensures j == k
  {
  }

  /** `is_online`, for any clocks: the last event was online or heartbeat less than the timeout ago, and no purge since
      took it. */
  lemma OnlineIffSpared(cmds: seq<Command>, r: Room, u: User, now: Time, timeout: Time)
    ensures IsOnline(SetOf(State(cmds, timeout), r), u, now, timeout)
       <==> exists k: nat :: OnlineBy(cmds, r, u, k, now, timeout) && Spared(cmds, r, k, timeout)
  {
    var k := HeldIffSpared(cmds, r, u, timeout);
    forall j: nat | LastEventAt(cmds, r, u, j) && LastEventAt(cmds, r, u, k) ensures j == k {
      LastEventUnique(cmds, r, u, j, k);
    }
    if IsOnline(SetOf(State(cmds, timeout), r), u, now, timeout) {
      assert OnlineBy(cmds, r, u, k, now, timeout) && Spared(cmds, r, k, timeout);
    }
  }

  /** The range read of `get_online_users`, for any clocks and whatever ran since its purge: the same, with its
      inclusive comparison. */
  lemma ListedIffSpared(cmds: seq<Command>, r: Room, u: User, now: Time, timeout: Time)
    ensures u in Listed(SetOf(State(cmds, timeout), r), now - timeout)
       <==> exists k: nat :: LastEventAt(cmds, r, u, k) && now - timeout <= cmds[k].time && Spared(cmds, r, k, timeout)
  {
    var k := HeldIffSpared(cmds, r, u, timeout);
    forall j: nat | LastEventAt(cmds, r, u, j) && LastEventAt(cmds, r, u, k) ensures j == k {
      LastEventUnique(cmds, r, u, j, k);
    }
    if u in Listed(SetOf(State(cmds, timeout), r), now - timeout) {
      assert LastEventAt(cmds, r, u, k) && Spared(cmds, r, k, timeout);
    }
  }

  /** So a purge by a reader whose clock is ahead makes `is_online` deny a user whose last event counts: it answers by
      the last event alone if and only if no purge since took an event that still counts. */
  lemma AnswersByLastEventIff(cmds: seq<Command>, r: Room, u: User, k: nat, now: Time, timeout: Time)
    requires LastEventAt(cmds, r, u, k)
    ensures (IsOnline(SetOf(State(cmds, timeout), r), u, now, timeout) <==> OnlineBy(cmds, r, u, k, now, timeout))
       <==> (now - cmds[k].time < timeout ==> Spared(cmds, r, k, timeout))
  {
    var j := HeldIffSpared(cmds, r, u, timeout);
    LastEventUnique(cmds, r, u, j, k);
  }

  lemma FastReaderHidesAUser()
    ensures var cmds := [Seen("r", "u", 0.0), Purge("r", 70.0)];
            && OnlineBy(cmds, "r", "u", 0, 50.0, 60.0)
            && !IsOnline(SetOf(State(cmds, 60.0), "r"), "u", 50.0, 60.0)
  {
    var cmds := [Seen("r", "u", 0.0), Purge("r", 70.0)];
    assert Takes(cmds[1], "r", cmds[0].time, 60.0);
    AnswersByLastEventIff(cmds, "r", "u", 0, 50.0, 60.0);
  }

  /** `remove_user_from_all_rooms` is one removal per scanned key with anything in between: a room it has visited shows
      the user again only after a later online or heartbeat there. */
  lemma RemovalHolds(cmds: seq<Command>, k: nat, r: Room, u: User, timeout: Time)
    requires k < |cmds| && cmds[k] == Leave(r, u)
    requires forall j :: k < j < |cmds| ==> !(cmds[j].Seen? && About(cmds[j], r, u))
    ensures NoLastEvent(cmds, r, u) && u !in SetOf(State(cmds, timeout), r)
  {
    forall j: nat ensures !LastEventAt(cmds, r, u, j) {
      assert About(cmds[k], r, u);
    }
    var j := HeldIffSpared(cmds, r, u, timeout);
  }

  // ---------------------------------------------------------------- for clocks that agree

  predicate Stamped(cmd: Command) {
    !cmd.Leave?
  }

  /** Clock readings are non-negative, do not run backwards, and none lies after `now`. */
  ghost predicate Timely(cmds: seq<Command>, now: Time) {
    && (forall k :: 0 <= k < |cmds| && Stamped(cmds[k]) ==> 0.0 <= cmds[k].time <= now)
    && (forall a, b :: 0 <= a < b < |cmds| && Stamped(cmds[a]) && Stamped(cmds[b]) ==> cmds[a].time <= cmds[b].time)
  }

  /** The reference: the user's last online, heartbeat or offline event in the room decides; reads do not matter. */
  function LastSeen(cmds: seq<Command>, r: Room, u: User): Option<Time> {
    if cmds == [] then None
    else
      var last := cmds[|cmds| - 1];
      if last.Seen? && last.room == r && last.user == u then Some(last.time)
      else if last.Leave? && last.room == r && last.user == u then None
      else LastSeen(cmds[..|cmds| - 1], r, u)
  }

  /** The set agrees with the reference, except that a purge may have dropped what had already timed out. */
  lemma {:induction false} SetTracksLastSeen(cmds: seq<Command>, r: Room, u: User, now: Time, timeout: Time)
    requires Timely(cmds, now)
    ensures var z, seen := SetOf(State(cmds, timeout), r), LastSeen(cmds, r, u);
            && (u in z ==> seen == Some(z[u]))
            && (seen.Some? ==> 0.0 <= seen.value <= now)
            && (seen.Some? && u !in z ==> timeout <= now - seen.value)
    decreases |cmds|
  {
    if cmds != [] {
      var init, last := cmds[..|cmds| - 1], cmds[|cmds| - 1];
      var until := if Stamped(last) then last.time else now;
      assert Timely(init, until) by {
        forall k | 0 <= k < |init| && Stamped(init[k]) ensures 0.0 <= init[k].time <= until {
          assert cmds[k] == init[k];
        }
      }
      SetTracksLastSeen(init, r, u, until, timeout);
    }
  }

  /** With clocks that agree, whatever mix of events and reads came before, a user is online exactly when their last
      event was online or heartbeat, less than the timeout ago. */
  lemma OnlineIffLastSeen(cmds: seq<Command>, r: Room, u: User, now: Time, timeout: Time)
    requires Timely(cmds, now)
    ensures IsOnline(SetOf(State(cmds, timeout), r), u, now, timeout)
       <==> LastSeen(cmds, r, u).Some? && now - LastSeen(cmds, r, u).value < timeout
  {
    SetTracksLastSeen(cmds, r, u, now, timeout);
  }

  function WithoutPurges(cmds: seq<Command>): seq<Command> {
    if cmds == [] then []
    else
      var before, last := WithoutPurges(cmds[..|cmds| - 1]), cmds[|cmds| - 1];
      if last.Purge? then before else before + [last]
  }

  lemma {:induction false} PurgesLeaveNoTrace(cmds: seq<Command>, r: Room, u: User)
    ensures LastSeen(WithoutPurges(cmds), r, u) == LastSeen(cmds, r, u)
  {
    if cmds != [] {
      var init, last := cmds[..|cmds| - 1], cmds[|cmds| - 1];
      PurgesLeaveNoTrace(init, r, u);
      if !last.Purge? {
        assert (WithoutPurges(init) + [last])[..|WithoutPurges(init)|] == WithoutPurges(init);
      }
    }
  }

  lemma {:induction false} WithoutPurgesIsTimely(cmds: seq<Command>, now: Time)
    requires Timely(cmds, now)
    ensures Timely(WithoutPurges(cmds), now)
    ensures forall x <- WithoutPurges(cmds) :: x in cmds
  {
    if cmds != [] {
      var init, last := cmds[..|cmds| - 1], cmds[|cmds| - 1];
      assert Timely(init, now);
      WithoutPurgesIsTimely(init, now);
      var before := WithoutPurges(init);
      forall k | 0 <= k < |before| && Stamped(before[k]) && Stamped(last) ensures before[k].time <= last.time {
        assert before[k] in init;
      }
    }
  }

  /** Lazy purging by readers whose clocks agree never changes an answer. */
  lemma ReadsNeverMatter(cmds: seq<Command>, r: Room, u: User, now: Time, timeout: Time)
    requires Timely(cmds, now)
    ensures IsOnline(SetOf(State(cmds, timeout), r), u, now, timeout)
       <==> IsOnline(SetOf(State(WithoutPurges(cmds), timeout), r), u, now, timeout)
  {
    WithoutPurgesIsTimely(cmds, now);
    PurgesLeaveNoTrace(cmds, r, u);
    OnlineIffLastSeen(cmds, r, u, now, timeout);
    OnlineIffLastSeen(WithoutPurges(cmds), r, u, now, timeout);
  }

  // ---------------------------------------------------------------- the online list

  predicate AllAfter(z: SortedSet, cutoff: Time) {
    forall u <- z :: cutoff < z[u]
  }

  /** Nothing recorded at or before `cutoff` enters a set except by a command stamped so. */
  lemma StepKeepsRecent(rooms: Rooms, cmd: Command, r: Room, cutoff: Time, timeout: Time)
    requires AllAfter(SetOf(rooms, r), cutoff)
    requires cmd.Seen? ==> cutoff < cmd.time
    ensures AllAfter(SetOf(Execute(rooms, cmd, timeout), r), cutoff)
  {
    var z, z' := SetOf(rooms, r), SetOf(Execute(rooms, cmd, timeout), r);
    forall u <- z' ensures cutoff < z'[u] {
      if !(cmd.Seen? && cmd.room == r && cmd.user == u) {
        assert u in z && z'[u] == z[u];
      }
    }
  }

  lemma {:induction false} AfterPurge(before: seq<Command>, r: Room, now: Time, middle: seq<Command>, timeout: Time,
                                      late: Time)
    requires Timely(before + [Purge(r, now)] + middle, late)
    requires timeout > 0.0 || middle == []
    ensures AllAfter(SetOf(State(before + [Purge(r, now)] + middle, timeout), r), now - timeout)
    decreases |middle|
  {
    var cmds := before + [Purge(r, now)] + middle;
    var init, last := cmds[..|cmds| - 1], cmds[|cmds| - 1];
    assert Timely(init, late);
    if middle == [] {
      assert init == before;
      forall u ensures u in SetOf(State(before, timeout), r) ==> 0.0 <= SetOf(State(before, timeout), r)[u] {
        SetTracksLastSeen(before, r, u, late, timeout);
      }
    } else {
      var prior := before + [Purge(r, now)] + middle[..|middle| - 1];
      assert init == prior;
      AfterPurge(before, r, now, middle[..|middle| - 1], timeout, late);
      assert cmds[|before|] == Purge(r, now) && |before| < |cmds| - 1;
      assert Stamped(last) ==> now <= last.time;
      assert State(cmds, timeout) == Execute(State(init, timeout), last, timeout);
      StepKeepsRecent(State(init, timeout), last, r, now - timeout, timeout);
    }
  }

  /** No reader's purge in the run found the time `seen` expired. */
  ghost predicate NeverPurged(cmds: seq<Command>, r: Room, seen: Time, timeout: Time) {
    forall k :: 0 <= k < |cmds| && cmds[k].Purge? && cmds[k].room == r ==> cmds[k].time - seen < timeout
  }

  lemma {:induction false} LastSeenIsLastEvent(cmds: seq<Command>, r: Room, u: User)
    ensures LastSeen(cmds, r, u).None? ==> NoLastEvent(cmds, r, u)
    ensures forall k: nat :: LastEventAt(cmds, r, u, k) ==> LastSeen(cmds, r, u) == Some(cmds[k].time)
    ensures NoLastEvent(cmds, r, u) ==> LastSeen(cmds, r, u).None?
  {
    if cmds != [] {
      var init, last := cmds[..|cmds| - 1], cmds[|cmds| - 1];
      LastSeenIsLastEvent(init, r, u);
      if About(last, r, u) {
        assert last.Seen? ==> LastEventAt(cmds, r, u, |init|);
      } else {
        forall k: nat ensures LastEventAt(cmds, r, u, k) <==> LastEventAt(init, r, u, k) {
        }
      }
    }
  }

  /** The last event was online or heartbeat, and no purge found it expired. */
  ghost predicate Held(cmds: seq<Command>, r: Room, u: User, timeout: Time) {
    LastSeen(cmds, r, u).Some? && NeverPurged(cmds, r, LastSeen(cmds, r, u).value, timeout)
  }

  /** With clocks that agree, purges from before the event need no separate mention. */
  lemma SparedIffNeverPurged(cmds: seq<Command>, r: Room, k: nat, late: Time, timeout: Time)
    requires Timely(cmds, late) && timeout > 0.0 && k < |cmds| && cmds[k].Seen?
    ensures Spared(cmds, r, k, timeout) <==> NeverPurged(cmds, r, cmds[k].time, timeout)
  {
    assert Stamped(cmds[k]);
    if Spared(cmds, r, k, timeout) {
      forall j | 0 <= j < |cmds| && cmds[j].Purge? && cmds[j].room == r ensures cmds[j].time - cmds[k].time < timeout {
        assert Stamped(cmds[j]) && (k < j ==> !Takes(cmds[j], r, cmds[k].time, timeout));
      }
    }
  }

  /** What the set holds, in terms of the commands alone: exactly the last-seen times no purge found expired. */
  lemma HeldIffNeverPurged(cmds: seq<Command>, r: Room, u: User, late: Time, timeout: Time)
    requires Timely(cmds, late) && timeout > 0.0
    ensures u in SetOf(State(cmds, timeout), r) <==> Held(cmds, r, u, timeout)
  {
    LastSeenIsLastEvent(cmds, r, u);
    var k := HeldIffSpared(cmds, r, u, timeout);
    if LastEventAt(cmds, r, u, k) {
      SparedIffNeverPurged(cmds, r, k, late, timeout);
    }
  }

  /** `get_online_users` is two commands, and anything may happen between its purge and its range read. It lists a user
      if and only if their last event by then was online or heartbeat and no purge of the room, its own or another
      reader's, found that event expired. */
  lemma ListedIffNeverPurged(before: seq<Command>, r: Room, now: Time, middle: seq<Command>, timeout: Time,
                             late: Time, u: User)
    requires Timely(before + [Purge(r, now)] + middle, late) && timeout > 0.0
    ensures var cmds := before + [Purge(r, now)] + middle;
            var seen := LastSeen(cmds, r, u);
            u in Listed(SetOf(State(cmds, timeout), r), now - timeout) <==>
              seen.Some? && NeverPurged(cmds, r, seen.value, timeout)
  {
    AfterPurge(before, r, now, middle, timeout, late);
    HeldIffNeverPurged(before + [Purge(r, now)] + middle, r, u, late, timeout);
  }

  /** So "online by the last event, at the reader's own clock reading" is not what a disturbed list shows: a second
      reader whose clock reads later may purge a user between the two commands of the first. */
  lemma OtherReaderHidesAUser()
    ensures var cmds, own := [Seen("r", "u", 0.0), Purge("r", 5.0), Purge("r", 10.0)], 5.0;
            && Timely(cmds, 10.0)
            && LastSeen(cmds, "r", "u") == Some(0.0) && own - 0.0 < 10.0
            && "u" !in Listed(SetOf(State(cmds, 10.0), "r"), own - 10.0)
  {
    var cmds := [Seen("r", "u", 0.0), Purge("r", 5.0), Purge("r", 10.0)];
    assert cmds[..2] == [Seen("r", "u", 0.0), Purge("r", 5.0)] && cmds[..2][..1] == [Seen("r", "u", 0.0)];
    assert cmds == [Seen("r", "u", 0.0)] + [Purge("r", 5.0)] + [Purge("r", 10.0)];
    assert cmds[..2][..1][..0] == [];
    ListedIffNeverPurged([Seen("r", "u", 0.0)], "r", 5.0, [Purge("r", 10.0)], 10.0, 10.0, "u");
    assert !NeverPurged(cmds, "r", 0.0, 10.0) by {
      assert cmds[2] == Purge("r", 10.0);
    }
  }

  /** A disturbed list still agrees with `is_online` asked of the same set, at the reader's clock reading. */
  lemma ListIsEveryoneOnline(before: seq<Command>, r: Room, now: Time, middle: seq<Command>, timeout: Time,
                             late: Time, u: User)
    requires Timely(before + [Purge(r, now)] + middle, late)
    requires timeout > 0.0 || middle == []
    ensures var z := SetOf(State(before + [Purge(r, now)] + middle, timeout), r);
            u in Listed(z, now - timeout) <==> IsOnline(z, u, now, timeout)
  {
    AfterPurge(before, r, now, middle, timeout, late);
  }

  /** Undisturbed, the list is exactly the users whose last event in the room was online or heartbeat less than the
      timeout ago. */
  lemma ListIsExact(before: seq<Command>, r: Room, now: Time, timeout: Time, u: User)
    requires Timely(before, now) && 0.0 <= now
    ensures u in Listed(SetOf(State(before + [Purge(r, now)], timeout), r), now - timeout)
       <==> LastSeen(before, r, u).Some? && now - LastSeen(before, r, u).value < timeout
  {
    var cmds := before + [Purge(r, now)];
    assert cmds[..|cmds| - 1] == before && cmds + [] == cmds;
    assert Timely(cmds, now);
    ListIsEveryoneOnline(before, r, now, [], timeout, now, u);
    OnlineIffLastSeen(cmds, r, u, now, timeout);
  }

  // ---------------------------------------------------------------- the service

  const UNKNOWN := "Unknown"

  /** A listed user goes by the stored name, or by "Unknown" if there is none or it is empty. */
  predicate NamedAs(usernames: map<User, string>, entry: (User, string)) {
    if entry.0 in usernames && usernames[entry.0] != "" then entry.1 == usernames[entry.0] else entry.1 == "Unknown"
  }

  ghost predicate Lists(online: seq<(User, string)>, u: User) {
    exists k :: 0 <= k < |online| && online[k].0 == u
  }

  lemma ListsOneMore(online: seq<(User, string)>, entry: (User, string))
    ensures forall u :: Lists(online + [entry], u) <==> Lists(online, u) || u == entry.0
  {
    var more := online + [entry];
    assert more[|online|] == entry;
    assert forall k :: 0 <= k < |online| ==> more[k] == online[k];
  }

  class PresenceService {
    const timeout: Time
    var rooms: Rooms
    var usernames: map<User, string>

    ghost predicate Valid()
      reads this
    {
      forall r <- rooms :: forall u <- rooms[r] :: 0.0 <= rooms[r][u]
    }

    constructor (timeout: Time)
      ensures Valid() && rooms == map[] && usernames == map[] && this.timeout == timeout
    {
      this.timeout := timeout;
      rooms, usernames := map[], map[];
    }

    method SetOnline(r: Room, u: User, name: string, now: Time)
      requires Valid() && 0.0 <= now
      modifies this
      ensures Valid() && rooms == Execute(old(rooms), Seen(r, u, now), timeout)
      ensures usernames == old(usernames)[u := name]
    {
      rooms := rooms[r := SetOf(rooms, r)[u := now]];
      usernames := usernames[u := name];
    }

    method Heartbeat(r: Room, u: User, now: Time)
      requires Valid() && 0.0 <= now
      modifies this`rooms
      ensures Valid() && rooms == Execute(old(rooms), Seen(r, u, now), timeout)
    {
      rooms := rooms[r := SetOf(rooms, r)[u := now]];
    }

    method SetOffline(r: Room, u: User)
      requires Valid()
      modifies this`rooms
      ensures Valid() && rooms == Execute(old(rooms), Leave(r, u), timeout)
    {
      rooms := rooms[r := SetOf(rooms, r) - {u}];
    }

    /** Scans the keys in whatever order; no room keeps the user and nobody else is touched. */
    method RemoveUserFromAllRooms(u: User)
      requires Valid()
      modifies this`rooms
      ensures Valid() && forall r :: SetOf(rooms, r) == SetOf(old(rooms), r) - {u}
    {
      var todo := rooms.Keys;
      while todo != {}
        invariant Valid() && rooms.Keys == old(rooms).Keys && todo <= rooms.Keys
        invariant forall r <- rooms :: rooms[r] == if r in todo then old(rooms)[r] else old(rooms)[r] - {u}
      {
        var r :| r in todo;
        rooms := rooms[r := rooms[r] - {u}];
        todo := todo - {r};
      }
    }

    /** Purge, range, then a name for each listed user: everyone online at `now`, each once. */
    method GetOnlineUsers(r: Room, now: Time) returns (online: seq<(User, string)>)
      requires Valid()
      modifies this`rooms
      ensures Valid() && rooms == Execute(old(rooms), Purge(r, now), timeout)
      ensures forall k :: 0 <= k < |online| ==> IsOnline(SetOf(old(rooms), r), online[k].0, now, timeout)
      ensures forall u :: IsOnline(SetOf(old(rooms), r), u, now, timeout) ==> Lists(online, u)
      ensures forall k :: 0 <= k < |online| ==>
                && (online[k].0 in usernames && usernames[online[k].0] != "" ==> online[k].1 == usernames[online[k].0])
                && (online[k].0 !in usernames || usernames[online[k].0] == "" ==> online[k].1 == "Unknown")
      ensures forall a, b :: 0 <= a < b < |online| ==> online[a].0 != online[b].0
    {
      var cutoff := now - timeout;
      rooms := rooms[r := Purged(SetOf(rooms, r), cutoff)];
      var listed := Listed(SetOf(rooms, r), cutoff);
      assert forall u :: u in listed <==> IsOnline(SetOf(old(rooms), r), u, now, timeout);
      online := [];
      var todo := listed;
      while todo != {}
        invariant Valid() && rooms == Execute(old(rooms), Purge(r, now), timeout) && todo <= listed
        invariant forall k :: 0 <= k < |online| ==>
                    online[k].0 in listed - todo && NamedAs(usernames, online[k])
        invariant forall u <- listed - todo :: Lists(online, u)
        invariant forall a, b :: 0 <= a < b < |online| ==> online[a].0 != online[b].0
      {
        var u :| u in todo;
        var name := if u in usernames && usernames[u] != "" then usernames[u] else UNKNOWN;
        ListsOneMore(online, (u, name));
        online := online + [(u, name)];
        todo := todo - {u};
      }
    }

    method CheckOnline(r: Room, u: User, now: Time) returns (online: bool)
      ensures online == IsOnline(SetOf(rooms, r), u, now, timeout)
    {
      var z := SetOf(rooms, r);
      if u !in z {
        return false;
      }
      return now - z[u] < timeout;
    }
  }
}
