/** Small value types shared by every component. */
module Options {
  datatype Option<+T> = None | Some(value: T)

  function Lookup<K, V>(m: map<K, V>, k: K): Option<V> {
    if k in m then Some(m[k]) else None
  }
}

module Numbers {
  function Min(a: nat, b: nat): nat {
    if a <= b then a else b
  }
}

/** Cardinalities of finite sets. */
module Sets {
  lemma {:induction false} SubsetSize<T>(a: set<T>, b: set<T>)
    requires a <= b
    ensures |a| <= |b|
  {
    if a != {} {
      var x :| x in a;
      SubsetSize(a - {x}, b - {x});
    }
  }
}

/** What travels on a room channel and what ends up in a connection's send queue. */
module Events {
  type User = string
  type Room = string
  type MessageId = nat

  datatype Event =
    | Chat(id: MessageId, room: Room, sender: User, content: string)
    | Presence(room: Room, user: User, online: bool)
    | Typing(room: Room, user: User, active: bool)

  /** A queued payload. `FromRoom` remembers which entry of which channel log it is a copy of;
      `Direct` is anything `send_to_user` enqueues (welcome, errors, pongs, online lists). */
  datatype Payload =
    | FromRoom(channel: string, index: nat, event: Event)
    | Direct(text: string)

  function Channel(room: Room): string {
    "room:" + room
  }

  lemma ChannelInjective(r: Room, q: Room)
    requires Channel(r) == Channel(q)
    ensures r == q
  {
    assert Channel(r)[5..] == r && Channel(q)[5..] == q;
  }
}
