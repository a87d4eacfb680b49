/** The life of `publish` calls: up to three attempts, then a dead letter pushed and its list trimmed, each an awaited
    command of its own, with any number of calls interleaved.

    The outcome of a command says whether the server applied it and whether the caller heard so. */
module Publishing {
  import DL = DeadLetters

  type PubId = nat

  datatype Outcome = Done | FailedBefore | FailedAfter {
    /** The server applied the command, heard or not. */
    predicate Applied() {
      !FailedBefore?
    }
  }

  const RETRIES: nat := 3

  /** The trim that follows a pushed letter: next in line, made, or never to be made. */
  datatype Cut = Due | Made | Missed

  datatype Status = Trying | Sent | Exhausted | Lettered(cut: Cut) | LetterLost {
    /** All attempts are used up; what is left concerns the dead letter. */
    predicate GaveUp() {
      !Trying? && !Sent?
    }
  }

  /** `outcomes` is one entry per attempt made so far. */
  datatype Publication<E> = Publication(channel: string, event: E, outcomes: seq<Outcome>, status: Status)

  /** `sources` is history: which publication each entry of a channel's log is a copy of. `commands` made the
      dead-letter list, whose letters are named by their publication. */
  datatype Bus<E> = Bus(
    pubs: map<PubId, Publication<E>>,
    sources: map<string, seq<PubId>>,
    commands: seq<DL.Command<PubId>>)

  function Log<E>(logs: map<string, seq<E>>, ch: string): seq<E> {
    if ch in logs then logs[ch] else []
  }

  function AppliedCount(outcomes: seq<Outcome>): nat {
    if outcomes == [] then 0
    else AppliedCount(outcomes[..|outcomes| - 1]) + if outcomes[|outcomes| - 1].Applied() then 1 else 0
  }

  // ---------------------------------------------------------------- steps

  function NewPublication<E>(channel: string, event: E): Publication<E> {
    Publication(channel, event, [], Trying)
  }

  /** One attempt: an acknowledgement ends the call, a third failure ends the attempts. */
  function Tried<E>(pub: Publication<E>, o: Outcome): Publication<E> {
    pub.(outcomes := pub.outcomes + [o],
         status := if o.Done? then Sent else if |pub.outcomes| + 1 < RETRIES then Trying else Exhausted)
  }

  /** The attempts of one call, as long as there are any to make. */
  function AllTried<E>(pub: Publication<E>, outcomes: seq<Outcome>): Publication<E>
    decreases |outcomes|
  {
    if outcomes == [] || !pub.status.Trying? then pub else AllTried(Tried(pub, outcomes[0]), outcomes[1..])
  }

  /** The list's commands after one more, if the server applied it. */
  function Extended<T>(commands: seq<DL.Command<T>>, c: DL.Command<T>, o: Outcome): seq<DL.Command<T>> {
    if o.Applied() then commands + [c] else commands
  }

  predicate Is<E>(b: Bus<E>, p: PubId, status: Status) {
    p in b.pubs && b.pubs[p].status == status
  }

  function Announce<E>(b: Bus<E>, p: PubId, channel: string, event: E): Bus<E> {
    b.(pubs := b.pubs[p := NewPublication(channel, event)])
  }

  function TryOnce<E>(b: Bus<E>, p: PubId, o: Outcome): Bus<E>
    requires Is(b, p, Trying)
  {
    var pub := b.pubs[p];
    var tried := b.(pubs := b.pubs[p := Tried(pub, o)]);
    if o.Applied() then tried.(sources := b.sources[pub.channel := Log(b.sources, pub.channel) + [p]]) else tried
  }

  /** `lpush`: a caller that hears of no failure trims next, any other is finished. */
  function WriteLetter<E>(b: Bus<E>, p: PubId, o: Outcome): Bus<E>
    requires Is(b, p, Exhausted)
  {
    var status := if o.Applied() then Lettered(if o.Done? then Due else Missed) else LetterLost;
    b.(pubs := b.pubs[p := b.pubs[p].(status := status)], commands := Extended(b.commands, DL.Push(p), o))
  }

  /** `ltrim`, whose failure is swallowed. */
  function CutLetters<E>(b: Bus<E>, p: PubId, o: Outcome): Bus<E>
    requires Is(b, p, Lettered(Due))
  {
    b.(pubs := b.pubs[p := b.pubs[p].(status := Lettered(if o.Applied() then Made else Missed))],
       commands := Extended(b.commands, DL.Trim, o))
  }

  // ---------------------------------------------------------------- invariant

  /** How many entries of channel `ch` are copies of publication `p`, and how often it was pushed as a dead letter. */
  function Copies<E>(b: Bus<E>, ch: string, p: PubId): nat {
    multiset(Log(b.sources, ch))[p]
  }

  function Letters<E>(b: Bus<E>, p: PubId): nat {
    multiset(DL.Pushed<PubId>(b.commands))[p]
  }

  predicate AllFailed(outcomes: seq<Outcome>) {
    forall k :: 0 <= k < |outcomes| ==> !outcomes[k].Done?
  }

  /** The attempts that lead to each status. */
  predicate Led(outcomes: seq<Outcome>, status: Status) {
    match status
    case Trying => |outcomes| < RETRIES && AllFailed(outcomes)
    case Sent => 0 < |outcomes| <= RETRIES && outcomes[|outcomes| - 1].Done? && AllFailed(outcomes[..|outcomes| - 1])
    case _ => |outcomes| == RETRIES && AllFailed(outcomes)
  }

  ghost predicate PubInv<E>(b: Bus<E>, p: PubId)
    requires p in b.pubs
  {
    var pub := b.pubs[p];
    && Led(pub.outcomes, pub.status)
    && Copies(b, pub.channel, p) == AppliedCount(pub.outcomes)
    && Letters(b, p) == if pub.status.Lettered? then 1 else 0
  }

  /** Log entries and letters come from publications, and on the publication's own channel. */
  ghost predicate Sourced<E>(b: Bus<E>) {
    && (forall ch, p :: Copies(b, ch, p) > 0 ==> p in b.pubs && b.pubs[p].channel == ch)
    && (forall p :: Letters(b, p) > 0 ==> p in b.pubs)
  }

  /** Letters that no trim of their own writer has followed: still due, or missed for good. */
  function Uncut<E>(b: Bus<E>): set<PubId> {
    set p | p in b.pubs && b.pubs[p].status.Lettered? && !b.pubs[p].status.cut.Made?
  }

  ghost predicate Bounded<E>(b: Bus<E>) {
    DL.Kept<PubId>(b.commands) <= 10000 + |Uncut(b)|
  }

  ghost predicate BusInv<E>(b: Bus<E>) {
    Sourced(b) && Bounded(b) && forall p <- b.pubs :: PubInv(b, p)
  }

  /** The log and its sources entry by entry. */
  ghost predicate Mirrors<E>(logs: map<string, seq<E>>, b: Bus<E>, ch: string) {
    && |Log(logs, ch)| == |Log(b.sources, ch)|
    && forall k :: 0 <= k < |Log(b.sources, ch)| ==>
         Log(b.sources, ch)[k] in b.pubs && Log(logs, ch)[k] == b.pubs[Log(b.sources, ch)[k]].event
  }

  lemma PushedAppend<T>(cmds: seq<DL.Command<T>>, c: DL.Command<T>)
    ensures DL.Pushed(cmds + [c]) == if c.Push? then [c.item] + DL.Pushed(cmds) else DL.Pushed(cmds)
  {
    assert (cmds + [c])[..|cmds|] == cmds;
  }

  lemma AppliedSnoc(outcomes: seq<Outcome>, o: Outcome)
    ensures AppliedCount(outcomes + [o]) == AppliedCount(outcomes) + if o.Applied() then 1 else 0
  {
    assert (outcomes + [o])[..|outcomes|] == outcomes;
  }

  lemma {:induction false} AppliedAtMost(outcomes: seq<Outcome>)
    ensures AppliedCount(outcomes) <= |outcomes|
    ensures outcomes != [] && outcomes[|outcomes| - 1].Done? ==> AppliedCount(outcomes) >= 1
  {
    if outcomes != [] {
      AppliedAtMost(outcomes[..|outcomes| - 1]);
    }
  }

  lemma TriedLed<E>(pub: Publication<E>, o: Outcome)
    requires pub.status.Trying? && Led(pub.outcomes, pub.status)
    ensures Led(Tried(pub, o).outcomes, Tried(pub, o).status)
  {
    assert (pub.outcomes + [o])[..|pub.outcomes|] == pub.outcomes;
  }

  /** Left alone, a call makes `n` attempts: the `n`-th is the first acknowledged one, or the last allowed. */
  lemma {:induction false} AllTriedStops<E>(pub: Publication<E>, outcomes: seq<Outcome>, n: nat)
    requires pub.status.Trying? && 1 <= n <= |outcomes| && |pub.outcomes| + n <= RETRIES
    requires AllFailed(outcomes[..n - 1]) && (outcomes[n - 1].Done? || |pub.outcomes| + n == RETRIES)
    ensures AllTried(pub, outcomes) == Publication(pub.channel, pub.event, pub.outcomes + outcomes[..n],
                                                   if outcomes[n - 1].Done? then Sent else Exhausted)
    decreases n
  {
    var next := Tried(pub, outcomes[0]);
    assert outcomes[..n] == [outcomes[0]] + outcomes[1..][..n - 1];
    assert pub.outcomes + outcomes[..n] == next.outcomes + outcomes[1..][..n - 1];
    if n > 1 {
      assert !outcomes[..n - 1][0].Done?;
      forall k | 0 <= k < n - 2 ensures !outcomes[1..][k].Done? {
        assert outcomes[1..][k] == outcomes[..n - 1][k + 1];
      }
      AllTriedStops(next, outcomes[1..], n - 1);
    }
  }

  // ---------------------------------------------------------------- how long the dead-letter list gets

  lemma KeptAppend<T>(cmds: seq<DL.Command<T>>, c: DL.Command<T>)
    ensures DL.Kept(cmds + [c]) == if c.Push? then DL.Kept(cmds) + 1
                                   else if DL.Kept(cmds) < 10000 then DL.Kept(cmds) else 10000
  {
    assert (cmds + [c])[..|cmds|] == cmds;
  }

  lemma AnnounceBounded<E>(b: Bus<E>, p: PubId, channel: string, event: E)
    requires Bounded(b) && p !in b.pubs
    ensures Bounded(Announce(b, p, channel, event))
  {
    assert Uncut(Announce(b, p, channel, event)) == Uncut(b);
  }

  lemma TryBounded<E>(b: Bus<E>, p: PubId, o: Outcome)
    requires Bounded(b) && Is(b, p, Trying)
    ensures Bounded(TryOnce(b, p, o))
  {
    assert Uncut(TryOnce(b, p, o)) == Uncut(b);
  }

  lemma WriteBounded<E>(b: Bus<E>, p: PubId, o: Outcome)
    requires Bounded(b) && Is(b, p, Exhausted)
    ensures Bounded(WriteLetter(b, p, o))
  {
    if o.Applied() {
      KeptAppend(b.commands, DL.Push(p));
      assert Uncut(WriteLetter(b, p, o)) == Uncut(b) + {p};
    } else {
      assert Uncut(WriteLetter(b, p, o)) == Uncut(b);
    }
  }

  lemma CutBounded<E>(b: Bus<E>, p: PubId, o: Outcome)
    requires Bounded(b) && Is(b, p, Lettered(Due))
    ensures Bounded(CutLetters(b, p, o))
  {
    KeptAppend(b.commands, DL.Trim);
    assert !o.Applied() ==> Uncut(CutLetters(b, p, o)) == Uncut(b);
  }

  /** At every moment the list exceeds 10000 by at most the letters no trim of their writer has followed. */
  lemma BoundedList<E>(b: Bus<E>)
    requires Bounded(b)
    ensures |DL.Contents<PubId>(b.commands)| <= 10000 + |Uncut(b)|
  {
    DL.ListIsNewestPushes<PubId>(b.commands);
  }

  /** A trim the server applied leaves the newest 10000 letters and nothing else. */
  lemma TrimLeavesNewest<E>(b: Bus<E>, p: PubId, o: Outcome)
    requires Is(b, p, Lettered(Due)) && o.Applied()
    ensures var list, list' := DL.Contents<PubId>(b.commands), DL.Contents<PubId>(CutLetters(b, p, o).commands);
            list' == if |list| <= 10000 then list else list[..10000]
  {
    assert (b.commands + [DL.Trim])[..|b.commands|] == b.commands;
  }

  // ---------------------------------------------------------------- every step keeps the account

  lemma AnnounceKeeps<E>(b: Bus<E>, p: PubId, channel: string, event: E)
    requires BusInv(b) && p !in b.pubs
    ensures BusInv(Announce(b, p, channel, event))
  {
    AnnounceBounded(b, p, channel, event);
    var b' := Announce(b, p, channel, event);
    forall q <- b'.pubs ensures PubInv(b', q) {
      assert q in b.pubs ==> PubInv(b, q);
      assert Copies(b, channel, q) == Copies(b', channel, q) && Letters(b, q) == Letters(b', q);
    }
    forall ch, q | Copies(b', ch, q) > 0 ensures q in b'.pubs && b'.pubs[q].channel == ch {
      assert Copies(b, ch, q) > 0;
    }
    forall q | Letters(b', q) > 0 ensures q in b'.pubs {
      assert Letters(b, q) > 0;
    }
  }

  lemma TryCopies<E>(b: Bus<E>, p: PubId, o: Outcome, ch: string, q: PubId)
    requires Is(b, p, Trying)
    ensures Copies(TryOnce(b, p, o), ch, q)
         == Copies(b, ch, q) + if o.Applied() && ch == b.pubs[p].channel && q == p then 1 else 0
  {
  }

  lemma TrySourced<E>(b: Bus<E>, p: PubId, o: Outcome)
    requires Sourced(b) && Is(b, p, Trying)
    ensures Sourced(TryOnce(b, p, o))
  {
    var b' := TryOnce(b, p, o);
    forall ch, q | Copies(b', ch, q) > 0 ensures q in b'.pubs && b'.pubs[q].channel == ch {
      TryCopies(b, p, o, ch, q);
      assert Copies(b, ch, q) > 0 || (ch == b.pubs[p].channel && q == p);
    }
    forall q | Letters(b', q) > 0 ensures q in b'.pubs {
      assert Letters(b, q) > 0;
    }
  }

  lemma TryKeepsPub<E>(b: Bus<E>, p: PubId, o: Outcome, q: PubId)
    requires Is(b, p, Trying) && PubInv(b, p) && q in b.pubs && PubInv(b, q)
    ensures PubInv(TryOnce(b, p, o), q)
  {
    TryCopies(b, p, o, b.pubs[q].channel, q);
    TriedLed(b.pubs[p], o);
    AppliedSnoc(b.pubs[p].outcomes, o);
  }

  lemma TryKeeps<E>(b: Bus<E>, p: PubId, o: Outcome)
    requires BusInv(b) && Is(b, p, Trying)
    ensures BusInv(TryOnce(b, p, o))
  {
    TrySourced(b, p, o);
    TryBounded(b, p, o);
    forall q <- TryOnce(b, p, o).pubs ensures PubInv(TryOnce(b, p, o), q) {
      TryKeepsPub(b, p, o, q);
    }
  }

  lemma WriteLetters<E>(b: Bus<E>, p: PubId, o: Outcome, q: PubId)
    requires Is(b, p, Exhausted)
    ensures Letters(WriteLetter(b, p, o), q) == Letters(b, q) + if o.Applied() && q == p then 1 else 0
  {
    PushedAppend(b.commands, DL.Push(p));
  }

  lemma WriteSourced<E>(b: Bus<E>, p: PubId, o: Outcome)
    requires Sourced(b) && Is(b, p, Exhausted)
    ensures Sourced(WriteLetter(b, p, o))
  {
    var b' := WriteLetter(b, p, o);
    forall ch, q | Copies(b', ch, q) > 0 ensures q in b'.pubs && b'.pubs[q].channel == ch {
      assert Copies(b, ch, q) > 0;
    }
    forall q | Letters(b', q) > 0 ensures q in b'.pubs {
      WriteLetters(b, p, o, q);
      assert q == p || Letters(b, q) > 0;
    }
  }

  lemma WriteKeepsPub<E>(b: Bus<E>, p: PubId, o: Outcome, q: PubId)
    requires Is(b, p, Exhausted) && q in b.pubs && PubInv(b, q)
    ensures PubInv(WriteLetter(b, p, o), q)
  {
    WriteLetters(b, p, o, q);
  }

  lemma WriteKeeps<E>(b: Bus<E>, p: PubId, o: Outcome)
    requires BusInv(b) && Is(b, p, Exhausted)
    ensures BusInv(WriteLetter(b, p, o))
  {
    WriteSourced(b, p, o);
    WriteBounded(b, p, o);
    forall q <- WriteLetter(b, p, o).pubs ensures PubInv(WriteLetter(b, p, o), q) {
      WriteKeepsPub(b, p, o, q);
    }
  }

  lemma CutLettersCount<E>(b: Bus<E>, p: PubId, o: Outcome, q: PubId)
    requires Is(b, p, Lettered(Due))
    ensures Letters(CutLetters(b, p, o), q) == Letters(b, q)
  {
    PushedAppend(b.commands, DL.Trim);
  }

  lemma CutKeeps<E>(b: Bus<E>, p: PubId, o: Outcome)
    requires BusInv(b) && Is(b, p, Lettered(Due))
    ensures BusInv(CutLetters(b, p, o))
  {
    CutBounded(b, p, o);
    var b' := CutLetters(b, p, o);
    forall q <- b'.pubs ensures PubInv(b', q) {
      assert PubInv(b, q) && Copies(b, b.pubs[q].channel, q) == Copies(b', b.pubs[q].channel, q);
      CutLettersCount(b, p, o, q);
    }
    forall ch, q | Copies(b', ch, q) > 0 ensures q in b'.pubs && b'.pubs[q].channel == ch {
      assert Copies(b, ch, q) > 0;
    }
    forall q | Letters(b', q) > 0 ensures q in b'.pubs {
      CutLettersCount(b, p, o, q);
    }
  }

  // ---------------------------------------------------------------- logs and sources

  ghost predicate AllMirrored<E>(logs: map<string, seq<E>>, b: Bus<E>) {
    forall ch :: Mirrors(logs, b, ch)
  }

  /** Old publications keep their event. */
  lemma MirrorsKept<E>(logs: map<string, seq<E>>, b: Bus<E>, b': Bus<E>)
    requires AllMirrored(logs, b) && b'.sources == b.sources
    requires forall p <- b.pubs :: p in b'.pubs && b'.pubs[p].event == b.pubs[p].event
    ensures AllMirrored(logs, b')
  {
    forall ch ensures Mirrors(logs, b', ch) {
      assert Mirrors(logs, b, ch);
    }
  }

  lemma TryMirrors<E>(logs: map<string, seq<E>>, b: Bus<E>, p: PubId, o: Outcome)
    requires AllMirrored(logs, b) && Is(b, p, Trying)
    ensures var pub := b.pubs[p];
            AllMirrored(if o.Applied() then logs[pub.channel := Log(logs, pub.channel) + [pub.event]] else logs,
                        TryOnce(b, p, o))
  {
    var pub := b.pubs[p];
    var logs' := if o.Applied() then logs[pub.channel := Log(logs, pub.channel) + [pub.event]] else logs;
    forall ch ensures Mirrors(logs', TryOnce(b, p, o), ch) {
      assert Mirrors(logs, b, ch);
    }
  }

  // ---------------------------------------------------------------- what becomes of a publication

  /** Its channel holds one copy per attempt the server applied, at most three, and no other channel any; once
      acknowledged it holds at least one. It gave up exactly when three attempts failed, and only then can there be a
      dead letter: one, unless the push itself was lost. */
  ghost predicate Accounted<E>(b: Bus<E>, p: PubId)
    requires p in b.pubs
  {
    var pub := b.pubs[p];
    && Copies(b, pub.channel, p) == AppliedCount(pub.outcomes) <= |pub.outcomes| <= 3
    && (forall ch :: ch != pub.channel ==> Copies(b, ch, p) == 0)
    && (pub.status.Sent? <==> !AllFailed(pub.outcomes))
    && (pub.status.Sent? ==> Copies(b, pub.channel, p) >= 1)
    && (pub.status.GaveUp() <==> |pub.outcomes| == 3 && AllFailed(pub.outcomes))
    && Letters(b, p) == if pub.status.Lettered? then 1 else 0
  }

  lemma InvAccounts<E>(b: Bus<E>, p: PubId)
    requires BusInv(b) && p in b.pubs
    ensures Accounted(b, p)
  {
    assert PubInv(b, p);
    AppliedAtMost(b.pubs[p].outcomes);
  }

  /** A dead letter says that nobody heard of success, not that nobody received the event: none did if and only if the
      server applied none of the attempts. */
  lemma {:induction false} NoCopyIff(outcomes: seq<Outcome>)
    ensures AppliedCount(outcomes) == 0 <==> forall k :: 0 <= k < |outcomes| ==> outcomes[k].FailedBefore?
  {
    if outcomes != [] {
      NoCopyIff(outcomes[..|outcomes| - 1]);
    }
  }

  /** The dead-letter list names only publications that failed three times, each once, and misses none whose letter is
      among the newest 10000. */
  ghost predicate ListAccounted<E>(b: Bus<E>, p: PubId) {
    var list, pushed := DL.Contents<PubId>(b.commands), DL.Pushed<PubId>(b.commands);
    && multiset(list)[p] <= 1
    && (p in list ==> p in b.pubs && b.pubs[p].status.Lettered?)
    && (p in b.pubs && b.pubs[p].status.Lettered? ==>
          exists k :: 0 <= k < |pushed| && pushed[k] == p && (k < 10000 ==> p in list))
  }

  lemma InvAccountsList<E>(b: Bus<E>, p: PubId)
    requires BusInv(b)
    ensures ListAccounted(b, p)
  {
    var list, pushed := DL.Contents<PubId>(b.commands), DL.Pushed<PubId>(b.commands);
    DL.TrimBounds<PubId>(b.commands);
    assert pushed == list + pushed[|list|..];
    assert p in b.pubs ==> PubInv(b, p);
    assert multiset(list)[p] <= Letters(b, p);
    if p in b.pubs && b.pubs[p].status.Lettered? {
      assert p in pushed;
      var k :| 0 <= k < |pushed| && pushed[k] == p;
      if k < 10000 {
        assert list[k] == p;
      }
    }
  }
}
