/** Cursor pagination of a room's history.

    The database answers "newest first, at most n" and is free to order messages with equal `created_at` as it likes,
    differently on every query. A walk is the client following `next_cursor` from page to page; page sizes may vary and
    messages may be inserted meanwhile. Everything is stated for every answer the database may give. */
module Pagination {
  import opened Options
  import opened Sets

  type Time = int

  datatype Message = Message(id: nat, room: string, createdAt: Time, content: string)

  datatype Page = Page(messages: seq<Message>, hasMore: bool, nextCursor: Option<Time>)

  type Table = set<Message>

  const MAX_LIMIT := 100

  predicate Older(m: Message, before: Option<Time>) {
    before.Some? ==> m.createdAt < before.value
  }

  /** The messages the query's `where` clauses let through. */
  function Eligible(table: Table, room: string, before: Option<Time>): set<Message> {
    set m | m in table && m.room == room && Older(m, before)
  }

  predicate Distinct<T(==)>(s: seq<T>) {
    forall a, b :: 0 <= a < b < |s| ==> s[a] != s[b]
  }

  predicate Descending(s: seq<Message>) {
    forall a, b :: 0 <= a < b < |s| ==> s[a].createdAt >= s[b].createdAt
  }

  predicate Ascending(s: seq<Message>) {
    forall a, b :: 0 <= a < b < |s| ==> s[a].createdAt <= s[b].createdAt
  }

  /** A possible answer to `order by created_at desc limit n` over `source`. */
  ghost predicate Answers(source: set<Message>, n: nat, rows: seq<Message>) {
    && (forall m <- rows :: m in source)
    && Distinct(rows)
    && Descending(rows)
    && |rows| <= n
    && (forall m <- source :: m !in rows ==> |rows| == n && forall x <- rows :: m.createdAt <= x.createdAt)
  }

  function Reversed(s: seq<Message>): seq<Message> {
    if s == [] then [] else Reversed(s[1..]) + [s[0]]
  }

  lemma {:induction false} ReversedAt(s: seq<Message>)
    ensures |Reversed(s)| == |s|
    ensures forall k :: 0 <= k < |s| ==> Reversed(s)[k] == s[|s| - 1 - k]
    ensures forall m :: m in Reversed(s) <==> m in s
  {
    if s != [] {
      ReversedAt(s[1..]);
      assert s == [s[0]] + s[1..];
    }
  }

  /** The response built from the database's answer to a query for one row more than a page. */
  function PageOf(rows: seq<Message>, limit: nat): Page {
    var more := |rows| > limit;
    var messages := Reversed(if more then rows[..limit] else rows);
    Page(messages, more, if more && messages != [] then Some(messages[0].createdAt) else None)
  }

  /** `get_room_messages` after its query returned `rows`: whatever the query was asked of, the page is the one its
      caller's limit stands for, capped at 100. */
  method GetRoomMessages(limit: nat, rows: seq<Message>) returns (page: Page)
    ensures page == PageOf(rows, if limit <= 100 then limit else 100)
    ensures limit <= 100 ==> forall source :: Answers(source, limit + 1, rows) ==> IsPage(source, limit, page)
    ensures limit > 100 ==> forall source :: Answers(source, 101, rows) ==> IsPage(source, 100, page)
  {
    var size := if limit <= MAX_LIMIT then limit else MAX_LIMIT;
    var hasMore := |rows| > size;
    var kept := if hasMore then rows[..size] else rows;
    var messages: seq<Message> := [];
    for k := 0 to |kept|
      invariant messages == kept[..k]
    {
      messages := messages + [kept[k]];
    }
    assert messages == kept;
    messages := Reverse(messages);
    var nextCursor := None;
    if hasMore && messages != [] {
      nextCursor := Some(messages[0].createdAt);
    }
    page := Page(messages, hasMore, nextCursor);
  }

  /** The list's `reverse`. */
  method Reverse(s: seq<Message>) returns (r: seq<Message>)
    ensures r == Reversed(s)
  {
    r := [];
    var k := |s|;
    while k > 0
      invariant 0 <= k <= |s| && |r| == |s| - k
      invariant forall a :: 0 <= a < |r| ==> r[a] == s[|s| - 1 - a]
    {
      k := k - 1;
      r := r + [s[k]];
    }
    ReversedAt(s);
    assert r == Reversed(s);
  }

  /** A possible response to one request. */
  ghost predicate IsPage(source: set<Message>, limit: nat, page: Page) {
    exists rows :: Answers(source, limit + 1, rows) && page == PageOf(rows, limit)
  }

  lemma ReversedOrder(s: seq<Message>)
    requires Distinct(s) && Descending(s)
    ensures Distinct(Reversed(s)) && Ascending(Reversed(s))
  {
    ReversedAt(s);
  }

  /** What one row more than a page leaves out is no newer than the page's last row. */
  lemma BeyondThePage(source: set<Message>, limit: nat, rows: seq<Message>, m: Message)
    requires limit >= 1 && Answers(source, limit + 1, rows) && |rows| > limit && m in source && m !in rows[..limit]
    ensures m.createdAt <= rows[limit - 1].createdAt
  {
    if m in rows {
      var a :| 0 <= a < |rows| && rows[a] == m;
      assert a == limit;
    } else {
      assert rows[limit - 1] in rows;
    }
  }

  /** What a page is, without its construction: the newest `limit` eligible messages oldest first, a cursor at the
      oldest of them, and a "more" flag that tells the truth. */
  lemma PageContents(source: set<Message>, limit: nat, page: Page)
    requires limit >= 1 && IsPage(source, limit, page)
    ensures forall m <- page.messages :: m in source
    ensures Distinct(page.messages) && Ascending(page.messages)
    ensures page.hasMore <==> exists m <- source :: m !in page.messages
    ensures page.hasMore ==> |page.messages| == limit && page.nextCursor == Some(page.messages[0].createdAt)
    ensures !page.hasMore ==> page.nextCursor.None?
    ensures forall m <- source :: m !in page.messages ==> page.hasMore && m.createdAt <= page.messages[0].createdAt
  {
    var rows :| Answers(source, limit + 1, rows) && page == PageOf(rows, limit);
    var kept := if |rows| > limit then rows[..limit] else rows;
    ReversedAt(kept);
    ReversedOrder(kept);
    if |rows| > limit {
      assert rows[limit] in rows && rows[limit] !in kept;
      forall m <- source | m !in page.messages ensures m.createdAt <= page.messages[0].createdAt {
        BeyondThePage(source, limit, rows, m);
      }
    }
  }

  // ---------------------------------------------------------------- walks

  /** The cursor the `k`-th request of a walk carries. */
  function CursorAt(start: Option<Time>, pages: seq<Page>, k: nat): Option<Time>
    requires k <= |pages|
  {
    if k == 0 then start else pages[k - 1].nextCursor
  }

  ghost predicate TurnsPage(table: Table, room: string, start: Option<Time>, limit: nat, pages: seq<Page>, k: nat)
    requires k < |pages|
  {
    && 1 <= limit <= 100
    && (k > 0 ==> CursorAt(start, pages, k).Some?)
    && IsPage(Eligible(table, room, CursorAt(start, pages, k)), limit, pages[k])
  }

  /** Each request may see another table and ask for another page size. */
  ghost predicate Walk(tables: seq<Table>, room: string, start: Option<Time>, limits: seq<nat>, pages: seq<Page>) {
    && |tables| == |limits| == |pages|
    && forall k :: 0 <= k < |pages| ==> TurnsPage(tables[k], room, start, limits[k], pages, k)
  }

  /** A walk over one unchanging table. */
  ghost predicate WalkOn(table: Table, room: string, start: Option<Time>, limits: seq<nat>, pages: seq<Page>) {
    && |limits| == |pages|
    && forall k :: 0 <= k < |pages| ==> TurnsPage(table, room, start, limits[k], pages, k)
  }

  predicate Finished(pages: seq<Page>) {
    pages != [] && !pages[|pages| - 1].hasMore
  }

  /** All pages put together, the last (oldest) one first. */
  function Chronicle(pages: seq<Page>): seq<Message> {
    if pages == [] then [] else pages[|pages| - 1].messages + Chronicle(pages[..|pages| - 1])
  }

  /** The facts about page `k` that the theorems use. */
  lemma TurnedPage(table: Table, room: string, start: Option<Time>, limit: nat, pages: seq<Page>, k: nat)
    requires k < |pages| && TurnsPage(table, room, start, limit, pages, k)
    ensures forall m <- pages[k].messages :: m in table && m.room == room && Older(m, CursorAt(start, pages, k))
    ensures Distinct(pages[k].messages) && Ascending(pages[k].messages)
    ensures pages[k].nextCursor.Some? <==> pages[k].hasMore
    ensures pages[k].hasMore ==>
              pages[k].messages != [] && pages[k].nextCursor == Some(pages[k].messages[0].createdAt)
    ensures forall m <- table ::
              m.room == room && Older(m, CursorAt(start, pages, k)) && m !in pages[k].messages ==>
                pages[k].hasMore && m.createdAt <= pages[k].nextCursor.value
  {
    PageContents(Eligible(table, room, CursorAt(start, pages, k)), limit, pages[k]);
  }

  /** A page's cursor lies strictly below the cursor that asked for it and at or below all its messages. */
  lemma CursorFalls(table: Table, room: string, start: Option<Time>, limit: nat, pages: seq<Page>, k: nat)
    requires k < |pages| && TurnsPage(table, room, start, limit, pages, k) && pages[k].nextCursor.Some?
    ensures k > 0 ==> CursorAt(start, pages, k).Some? && pages[k].nextCursor.value < CursorAt(start, pages, k).value
    ensures forall m <- pages[k].messages :: pages[k].nextCursor.value <= m.createdAt
  {
    TurnedPage(table, room, start, limit, pages, k);
    assert pages[k].messages[0] in pages[k].messages;
  }

  lemma {:induction false} CursorsFall(tables: seq<Table>, room: string, start: Option<Time>, limits: seq<nat>,
                                       pages: seq<Page>, a: nat, b: nat)
    requires Walk(tables, room, start, limits, pages) && a < b < |pages|
    ensures pages[a].nextCursor.Some? && CursorAt(start, pages, b).Some?
    ensures CursorAt(start, pages, b).value <= pages[a].nextCursor.value
  {
    assert TurnsPage(tables[b], room, start, limits[b], pages, b);
    if a + 1 < b {
      CursorsFall(tables, room, start, limits, pages, a, b - 1);
      assert TurnsPage(tables[b - 1], room, start, limits[b - 1], pages, b - 1);
      CursorFalls(tables[b - 1], room, start, limits[b - 1], pages, b - 1);
    }
  }

  /** Whatever happens to the table meanwhile, a later page is strictly older than the cursor an earlier page left. */
  lemma LaterPagesAreOlder(tables: seq<Table>, room: string, start: Option<Time>, limits: seq<nat>,
                           pages: seq<Page>, a: nat, b: nat)
    requires Walk(tables, room, start, limits, pages) && a < b < |pages|
    ensures pages[a].nextCursor.Some? && CursorAt(start, pages, b).Some?
    ensures CursorAt(start, pages, b).value <= pages[a].nextCursor.value
    ensures forall m <- pages[b].messages :: m.createdAt < pages[a].nextCursor.value
    ensures forall m <- pages[a].messages :: pages[a].nextCursor.value <= m.createdAt
  {
    CursorsFall(tables, room, start, limits, pages, a, b);
    assert TurnsPage(tables[a], room, start, limits[a], pages, a);
    CursorFalls(tables[a], room, start, limits[a], pages, a);
    assert TurnsPage(tables[b], room, start, limits[b], pages, b);
    TurnedPage(tables[b], room, start, limits[b], pages, b);
  }

  ghost predicate Shown(pages: seq<Page>, m: Message) {
    exists k :: 0 <= k < |pages| && m in pages[k].messages
  }

  lemma {:induction false} ChronicleShows(pages: seq<Page>)
    ensures forall m :: m in Chronicle(pages) <==> Shown(pages, m)
  {
    if pages != [] {
      var init, last := pages[..|pages| - 1], pages[|pages| - 1];
      ChronicleShows(init);
      forall m ensures m in Chronicle(pages) <==> Shown(pages, m) {
        if m in last.messages {
          assert m in pages[|pages| - 1].messages;
        }
        if Shown(init, m) {
          var k :| 0 <= k < |init| && m in init[k].messages;
          assert m in pages[k].messages;
        }
        if Shown(pages, m) {
          var k :| 0 <= k < |pages| && m in pages[k].messages;
          assert k < |init| ==> m in init[k].messages;
        }
      }
    }
  }

  lemma WalkPrefix(tables: seq<Table>, room: string, start: Option<Time>, limits: seq<nat>, pages: seq<Page>, n: nat)
    requires Walk(tables, room, start, limits, pages) && n <= |pages|
    ensures Walk(tables[..n], room, start, limits[..n], pages[..n])
  {
  }

  lemma OlderInFront(older: seq<Message>, newer: seq<Message>)
    requires Distinct(older) && Ascending(older) && Distinct(newer) && Ascending(newer)
    requires forall m <- older, x <- newer :: m.createdAt < x.createdAt
    ensures Distinct(older + newer) && Ascending(older + newer)
  {
  }

  /** With ties, with any page sizes and with any insertions meanwhile, a walk never repeats a message and the pages
      put together oldest first are in chronological order. */
  lemma {:induction false} WalkNeverRepeats(tables: seq<Table>, room: string, start: Option<Time>, limits: seq<nat>,
                                            pages: seq<Page>)
    requires Walk(tables, room, start, limits, pages)
    ensures Distinct(Chronicle(pages)) && Ascending(Chronicle(pages))
    decreases |pages|
  {
    if pages != [] {
      var n := |pages| - 1;
      WalkPrefix(tables, room, start, limits, pages, n);
      WalkNeverRepeats(tables[..n], room, start, limits[..n], pages[..n]);
      assert TurnsPage(tables[n], room, start, limits[n], pages, n);
      TurnedPage(tables[n], room, start, limits[n], pages, n);
      ChronicleShows(pages[..n]);
      forall m, x | m in pages[n].messages && x in Chronicle(pages[..n]) ensures m.createdAt < x.createdAt {
        var a :| 0 <= a < n && x in pages[..n][a].messages;
        LaterPagesAreOlder(tables, room, start, limits, pages, a, n);
      }
      OlderInFront(pages[n].messages, Chronicle(pages[..n]));
    }
  }

  lemma OneTableIsAWalk(table: Table, room: string, start: Option<Time>, limits: seq<nat>, pages: seq<Page>)
    requires WalkOn(table, room, start, limits, pages)
    ensures Walk(seq(|pages|, _ => table), room, start, limits, pages)
  {
  }

  // ---------------------------------------------------------------- termination

  /** Following the cursor leaves strictly fewer messages. */
  lemma CursorMakesProgress(table: Table, room: string, start: Option<Time>, limit: nat, pages: seq<Page>, k: nat)
    requires k < |pages| && TurnsPage(table, room, start, limit, pages, k) && pages[k].nextCursor.Some?
    ensures |Eligible(table, room, CursorAt(start, pages, k + 1))| < |Eligible(table, room, CursorAt(start, pages, k))|
  {
    TurnedPage(table, room, start, limit, pages, k);
    var here := Eligible(table, room, CursorAt(start, pages, k));
    var there := Eligible(table, room, CursorAt(start, pages, k + 1));
    var oldest := pages[k].messages[0];
    assert oldest in pages[k].messages && oldest in here && oldest !in there;
    assert there <= here;
    SubsetSize(there, here - {oldest});
  }

  /** A walk has at most one page per eligible message, plus one. */
  lemma {:induction false} WalkTerminates(table: Table, room: string, start: Option<Time>, limits: seq<nat>,
                                          pages: seq<Page>, k: nat)
    requires WalkOn(table, room, start, limits, pages) && k < |pages|
    ensures k + |Eligible(table, room, CursorAt(start, pages, k))| <= |Eligible(table, room, start)|
  {
    if k > 0 {
      WalkTerminates(table, room, start, limits, pages, k - 1);
      assert TurnsPage(table, room, start, limits[k], pages, k);
      assert TurnsPage(table, room, start, limits[k - 1], pages, k - 1);
      CursorMakesProgress(table, room, start, limits[k - 1], pages, k - 1);
    }
  }

  // ---------------------------------------------------------------- completeness

  /** Page `k` ended in the middle of a group of equal timestamps and left `m` out. */
  predicate CutOff(pages: seq<Page>, k: nat, m: Message)
    requires k < |pages|
  {
    pages[k].nextCursor == Some(m.createdAt) && m !in pages[k].messages
  }

  /** From page `k` on, an eligible message is shown or cut off. */
  lemma {:induction false} ShownOrCutOff(table: Table, room: string, start: Option<Time>, limits: seq<nat>,
                                         pages: seq<Page>, k: nat, m: Message)
    requires WalkOn(table, room, start, limits, pages) && Finished(pages) && k < |pages|
    requires m in table && m.room == room && Older(m, CursorAt(start, pages, k))
    ensures Shown(pages, m) || exists j :: 0 <= j < |pages| && CutOff(pages, j, m)
    decreases |pages| - k
  {
    assert TurnsPage(table, room, start, limits[k], pages, k);
    TurnedPage(table, room, start, limits[k], pages, k);
    if pages[k].nextCursor == Some(m.createdAt) && m !in pages[k].messages {
      assert CutOff(pages, k, m);
    } else if m !in pages[k].messages {
      ShownOrCutOff(table, room, start, limits, pages, k + 1, m);
    }
  }

  lemma CutOffIsNotShown(table: Table, room: string, start: Option<Time>, limits: seq<nat>, pages: seq<Page>,
                         k: nat, m: Message)
    requires WalkOn(table, room, start, limits, pages) && k < |pages| && CutOff(pages, k, m)
    ensures !Shown(pages, m)
  {
    OneTableIsAWalk(table, room, start, limits, pages);
    forall j | 0 <= j < |pages| ensures m !in pages[j].messages {
      if k < j {
        LaterPagesAreOlder(seq(|pages|, _ => table), room, start, limits, pages, k, j);
      } else if j < k {
        LaterPagesAreOlder(seq(|pages|, _ => table), room, start, limits, pages, j, k);
        assert TurnsPage(table, room, start, limits[k], pages, k);
        TurnedPage(table, room, start, limits[k], pages, k);
        assert pages[k].messages[0] in pages[k].messages;
      }
    }
  }

  /** A finished walk misses a message if and only if some page boundary cut it off from its own timestamp. */
  lemma MissedIffCutOff(table: Table, room: string, start: Option<Time>, limits: seq<nat>, pages: seq<Page>, m: Message)
    requires WalkOn(table, room, start, limits, pages) && Finished(pages)
    requires m in Eligible(table, room, start)
    ensures m !in Chronicle(pages) <==> exists k :: 0 <= k < |pages| && CutOff(pages, k, m)
  {
    ChronicleShows(pages);
    ShownOrCutOff(table, room, start, limits, pages, 0, m);
    forall k | 0 <= k < |pages| && CutOff(pages, k, m) ensures !Shown(pages, m) {
      CutOffIsNotShown(table, room, start, limits, pages, k, m);
    }
  }

  /** No two messages share a timestamp. */
  predicate Untied(source: set<Message>) {
    forall m <- source, x <- source :: m.createdAt == x.createdAt ==> m == x
  }

  lemma ShownIsEligible(table: Table, room: string, start: Option<Time>, limits: seq<nat>, pages: seq<Page>, m: Message)
    requires WalkOn(table, room, start, limits, pages) && Shown(pages, m)
    ensures m in Eligible(table, room, start)
  {
    var k :| 0 <= k < |pages| && m in pages[k].messages;
    assert TurnsPage(table, room, start, limits[k], pages, k);
    TurnedPage(table, room, start, limits[k], pages, k);
    if k > 0 {
      OneTableIsAWalk(table, room, start, limits, pages);
      LaterPagesAreOlder(seq(|pages|, _ => table), room, start, limits, pages, 0, k);
      assert TurnsPage(table, room, start, limits[0], pages, 0);
      TurnedPage(table, room, start, limits[0], pages, 0);
      assert pages[0].messages[0] in pages[0].messages;
    }
  }

  /** For distinct timestamps the pages of a finished walk, oldest first, are exactly the room's messages in
      chronological order, each once. */
  lemma WalkIsTheHistory(table: Table, room: string, start: Option<Time>, limits: seq<nat>, pages: seq<Page>)
    requires WalkOn(table, room, start, limits, pages) && Finished(pages)
    requires Untied(Eligible(table, room, start))
    ensures Distinct(Chronicle(pages)) && Ascending(Chronicle(pages))
    ensures forall m :: m in Chronicle(pages) <==> m in Eligible(table, room, start)
  {
    OneTableIsAWalk(table, room, start, limits, pages);
    WalkNeverRepeats(seq(|pages|, _ => table), room, start, limits, pages);
    ChronicleShows(pages);
    forall m | Shown(pages, m) ensures m in Eligible(table, room, start) {
      ShownIsEligible(table, room, start, limits, pages, m);
    }
    forall m | m in Eligible(table, room, start) ensures m in Chronicle(pages) {
      MissedIffCutOff(table, room, start, limits, pages, m);
      if k :| 0 <= k < |pages| && CutOff(pages, k, m) {
        assert TurnsPage(table, room, start, limits[k], pages, k);
        TurnedPage(table, room, start, limits[k], pages, k);
        assert pages[k].messages[0] in pages[k].messages;
        ShownIsEligible(table, room, start, limits, pages, pages[k].messages[0]);
        assert false;
      }
    }
  }

  /** One message per page: such a walk shows everything if and only if no two messages share a timestamp. */
  lemma SinglesCompleteIffUntied(table: Table, room: string, start: Option<Time>, limits: seq<nat>, pages: seq<Page>)
    requires WalkOn(table, room, start, limits, pages) && Finished(pages)
    requires forall k :: 0 <= k < |limits| ==> limits[k] == 1
    ensures (forall m <- Eligible(table, room, start) :: m in Chronicle(pages)) <==>
              Untied(Eligible(table, room, start))
  {
    ChronicleShows(pages);
    if Untied(Eligible(table, room, start)) {
      WalkIsTheHistory(table, room, start, limits, pages);
    } else {
      var m, x :| m in Eligible(table, room, start) && x in Eligible(table, room, start)
               && m.createdAt == x.createdAt && m != x;
      if Shown(pages, m) && Shown(pages, x) {
        SinglesNeverTie(table, room, start, limits, pages, m, x);
      }
    }
  }

  lemma SinglesNeverTie(table: Table, room: string, start: Option<Time>, limits: seq<nat>, pages: seq<Page>,
                        m: Message, x: Message)
    requires WalkOn(table, room, start, limits, pages) && forall k :: 0 <= k < |limits| ==> limits[k] == 1
    requires Shown(pages, m) && Shown(pages, x) && m != x
    ensures m.createdAt != x.createdAt
  {
    var a :| 0 <= a < |pages| && m in pages[a].messages;
    var b :| 0 <= b < |pages| && x in pages[b].messages;
    OneTableIsAWalk(table, room, start, limits, pages);
    if a < b {
      LaterPagesAreOlder(seq(|pages|, _ => table), room, start, limits, pages, a, b);
    } else if b < a {
      LaterPagesAreOlder(seq(|pages|, _ => table), room, start, limits, pages, b, a);
    } else {
      assert TurnsPage(table, room, start, limits[a], pages, a);
      ShortPage(Eligible(table, room, CursorAt(start, pages, a)), limits[a], pages[a]);
    }
  }

  lemma ShortPage(source: set<Message>, limit: nat, page: Page)
    requires IsPage(source, limit, page)
    ensures |page.messages| <= limit
  {
    var rows :| Answers(source, limit + 1, rows) && page == PageOf(rows, limit);
    ReversedAt(if |rows| > limit then rows[..limit] else rows);
  }

  // ---------------------------------------------------------------- completeness, from table and page sizes alone

  /** The messages at or after a time. */
  function AtLeast(source: set<Message>, t: Time): set<Message> {
    set m | m in source && t <= m.createdAt
  }

  /** No page boundary falls inside a group of equal timestamps: each page size either covers what is left, or is the
      exact number of messages at or after some message's time, from where the walk goes on. */
  ghost predicate Uncut(table: Table, room: string, before: Option<Time>, limits: seq<nat>)
    decreases |limits|
  {
    var e := Eligible(table, room, before);
    || limits == []
    || |e| <= limits[0]
    || exists m <- e :: BoundaryAt(e, m.createdAt, limits[0]) && Uncut(table, room, Some(m.createdAt), limits[1..])
  }

  predicate BoundaryAt(source: set<Message>, t: Time, limit: nat) {
    |AtLeast(source, t)| == limit
  }

  function ToSet(s: seq<Message>): set<Message> {
    set m | m in s
  }

  lemma {:induction false} DistinctCount(s: seq<Message>)
    requires Distinct(s)
    ensures |ToSet(s)| == |s|
  {
    if s != [] {
      var init, last := s[..|s| - 1], s[|s| - 1];
      DistinctCount(init);
      assert ToSet(s) == ToSet(init) + {last};
      assert last !in ToSet(init);
    }
  }

  lemma StrictSubsetSize(a: set<Message>, b: set<Message>, x: Message)
    requires a <= b && x in b && x !in a
    ensures |a| < |b|
  {
    SubsetSize(a, b - {x});
  }

  /** The page's cursor is the only time a boundary can be at. */
  lemma BoundaryIsTheCursor(source: set<Message>, limit: nat, page: Page, m: Message)
    requires limit >= 1 && IsPage(source, limit, page) && page.hasMore
    requires m in source && BoundaryAt(source, m.createdAt, limit)
    ensures page.nextCursor == Some(m.createdAt)
  {
    PageContents(source, limit, page);
    DistinctCount(page.messages);
    var shown, oldest := ToSet(page.messages), page.messages[0];
    assert oldest in page.messages;
    if m.createdAt < oldest.createdAt {
      assert forall x <- shown :: oldest.createdAt <= x.createdAt;
      StrictSubsetSize(shown, AtLeast(source, m.createdAt), m);
    } else if oldest.createdAt < m.createdAt {
      StrictSubsetSize(AtLeast(source, m.createdAt), shown, oldest);
    }
  }

  /** A page that leaves more behind shows everything down to its cursor's time if and only if the boundary is there. */
  lemma NothingCutIffBoundary(source: set<Message>, limit: nat, page: Page)
    requires limit >= 1 && IsPage(source, limit, page) && page.hasMore
    ensures page.nextCursor.Some?
    ensures (forall m <- source :: m.createdAt == page.nextCursor.value ==> m in page.messages)
       <==> BoundaryAt(source, page.nextCursor.value, limit)
  {
    PageContents(source, limit, page);
    DistinctCount(page.messages);
    var shown, upper := ToSet(page.messages), AtLeast(source, page.nextCursor.value);
    assert forall x <- shown :: page.messages[0].createdAt <= x.createdAt;
    assert shown <= upper;
    if m :| m in source && m.createdAt == page.nextCursor.value && m !in page.messages {
      StrictSubsetSize(shown, upper, m);
    } else {
      assert upper == shown;
    }
  }

  lemma LastPageCovers(source: set<Message>, limit: nat, page: Page)
    requires limit >= 1 && IsPage(source, limit, page)
    ensures page.hasMore <==> |source| > limit
  {
    PageContents(source, limit, page);
    ShortPage(source, limit, page);
    DistinctCount(page.messages);
    var shown := ToSet(page.messages);
    if page.hasMore {
      var m :| m in source && m !in page.messages;
      StrictSubsetSize(shown, source, m);
    } else {
      SubsetSize(source, shown);
    }
  }

  lemma WalkTail(table: Table, room: string, start: Option<Time>, limits: seq<nat>, pages: seq<Page>)
    requires WalkOn(table, room, start, limits, pages) && |pages| > 1
    ensures WalkOn(table, room, pages[0].nextCursor, limits[1..], pages[1..])
    ensures pages[0].nextCursor.Some?
  {
    var rest := pages[1..];
    assert TurnsPage(table, room, start, limits[1], pages, 1);
    forall k | 0 <= k < |rest| ensures TurnsPage(table, room, pages[0].nextCursor, limits[1..][k], rest, k) {
      assert TurnsPage(table, room, start, limits[k + 1], pages, k + 1);
      assert CursorAt(pages[0].nextCursor, rest, k) == CursorAt(start, pages, k + 1);
    }
  }

  ghost predicate ShowsAll(pages: seq<Page>, source: set<Message>) {
    forall m <- source :: Shown(pages, m)
  }

  lemma ShownSplit(pages: seq<Page>, m: Message)
    requires pages != []
    ensures Shown(pages, m) <==> m in pages[0].messages || Shown(pages[1..], m)
  {
    if m in pages[0].messages || Shown(pages[1..], m) {
      if k :| 0 <= k < |pages[1..]| && m in pages[1..][k].messages {
        assert m in pages[k + 1].messages;
      }
    }
    if k :| 0 <= k < |pages| && m in pages[k].messages {
      assert k > 0 ==> m in pages[1..][k - 1].messages;
    }
  }

  /** One page and the rest: the walk shows everything if and only if the first page cuts nothing off and the rest shows
      everything older. */
  lemma ShowsAllSplit(table: Table, room: string, start: Option<Time>, limits: seq<nat>, pages: seq<Page>)
    requires WalkOn(table, room, start, limits, pages) && |pages| > 1
    ensures pages[0].nextCursor.Some?
    ensures ShowsAll(pages, Eligible(table, room, start)) <==>
              && (forall m <- Eligible(table, room, start) ::
                    m.createdAt == pages[0].nextCursor.value ==> m in pages[0].messages)
              && ShowsAll(pages[1..], Eligible(table, room, pages[0].nextCursor))
  {
    WalkTail(table, room, start, limits, pages);
    assert TurnsPage(table, room, start, limits[0], pages, 0);
    TurnedPage(table, room, start, limits[0], pages, 0);
    CursorFalls(table, room, start, limits[0], pages, 0);
    assert pages[0].messages[0] in pages[0].messages;
    var e, older := Eligible(table, room, start), Eligible(table, room, pages[0].nextCursor);
    forall m <- e
      ensures m in older ==> (Shown(pages, m) <==> Shown(pages[1..], m))
      ensures m !in older ==> (Shown(pages, m) <==> m in pages[0].messages)
      ensures m !in older && m.createdAt != pages[0].nextCursor.value ==> m in pages[0].messages
    {
      ShownSplit(pages, m);
      if Shown(pages[1..], m) {
        ShownIsEligible(table, room, pages[0].nextCursor, limits[1..], pages[1..], m);
      }
    }
    assert older <= e;
  }

  /** Completeness on inputs alone: a finished walk shows every message if and only if no page size cuts a group of
      equal timestamps. That depends on the table and the page sizes, never on how the database orders ties. */
  lemma {:induction false} CompleteIffUncut(table: Table, room: string, start: Option<Time>, limits: seq<nat>,
                                            pages: seq<Page>)
    requires WalkOn(table, room, start, limits, pages) && Finished(pages)
    ensures ShowsAll(pages, Eligible(table, room, start)) <==> Uncut(table, room, start, limits)
    decreases |pages|
  {
    var e := Eligible(table, room, start);
    assert TurnsPage(table, room, start, limits[0], pages, 0);
    assert IsPage(Eligible(table, room, CursorAt(start, pages, 0)), limits[0], pages[0]);
    LastPageCovers(e, limits[0], pages[0]);
    PageContents(e, limits[0], pages[0]);
    if |pages| == 1 {
      assert ShowsAll(pages, e);
    } else {
      WalkTail(table, room, start, limits, pages);
      ShowsAllSplit(table, room, start, limits, pages);
      NothingCutIffBoundary(e, limits[0], pages[0]);
      CompleteIffUncut(table, room, pages[0].nextCursor, limits[1..], pages[1..]);
      UncutAtCursor(table, room, start, limits, pages[0]);
    }
  }

  lemma UncutAtCursor(table: Table, room: string, start: Option<Time>, limits: seq<nat>, page: Page)
    requires limits != [] && limits[0] >= 1 && page.hasMore && page.nextCursor.Some?
    requires IsPage(Eligible(table, room, start), limits[0], page)
    ensures Uncut(table, room, start, limits) <==>
              && BoundaryAt(Eligible(table, room, start), page.nextCursor.value, limits[0])
              && Uncut(table, room, page.nextCursor, limits[1..])
  {
    var e := Eligible(table, room, start);
    LastPageCovers(e, limits[0], page);
    PageContents(e, limits[0], page);
    assert page.messages[0] in page.messages;
    forall m <- e | BoundaryAt(e, m.createdAt, limits[0]) ensures page.nextCursor == Some(m.createdAt) {
      BoundaryIsTheCursor(e, limits[0], page, m);
    }
  }

  // ---------------------------------------------------------------- insertions during the walk

  /** Messages are only added, and those of this room at or after the cursor just handed out. */
  ghost predicate AddsBehind(before: Table, after: Table, room: string, cursor: Option<Time>) {
    before <= after &&
    forall m <- after :: m !in before && m.room == room && cursor.Some? ==> cursor.value <= m.createdAt
  }

  ghost predicate InsertsBehind(tables: seq<Table>, room: string, pages: seq<Page>)
    requires |tables| == |pages|
  {
    forall k :: 0 < k < |pages| ==> AddsBehind(tables[k - 1], tables[k], room, pages[k - 1].nextCursor)
  }

  lemma {:induction false} InsertsAreInvisible(tables: seq<Table>, room: string, start: Option<Time>, limits: seq<nat>,
                                               pages: seq<Page>, k: nat)
    requires Walk(tables, room, start, limits, pages) && InsertsBehind(tables, room, pages) && k < |pages|
    ensures tables[0] <= tables[k]
    ensures Eligible(tables[k], room, CursorAt(start, pages, k)) == Eligible(tables[0], room, CursorAt(start, pages, k))
  {
    if k > 0 {
      InsertsAreInvisible(tables, room, start, limits, pages, k - 1);
      assert TurnsPage(tables[k], room, start, limits[k], pages, k);
      assert TurnsPage(tables[k - 1], room, start, limits[k - 1], pages, k - 1);
      CursorFalls(tables[k - 1], room, start, limits[k - 1], pages, k - 1);
      TurnedPage(tables[k - 1], room, start, limits[k - 1], pages, k - 1);
      var here, prior := CursorAt(start, pages, k), CursorAt(start, pages, k - 1);
      assert AddsBehind(tables[k - 1], tables[k], room, pages[k - 1].nextCursor);
      forall m | m in Eligible(tables[k], room, here) ensures m in tables[0] {
        assert m in tables[k - 1];
        assert Older(m, prior) by {
          assert pages[k - 1].messages[0] in pages[k - 1].messages;
        }
        assert m in Eligible(tables[k - 1], room, prior);
      }
    }
  }

  /** Messages inserted during the walk at or after the current cursor change no page: the walk is a walk over the
      table as it was at the start, so all of the above holds for it. */
  lemma WalkIgnoresInsertions(tables: seq<Table>, room: string, start: Option<Time>, limits: seq<nat>, pages: seq<Page>)
    requires Walk(tables, room, start, limits, pages) && InsertsBehind(tables, room, pages) && pages != []
    ensures WalkOn(tables[0], room, start, limits, pages)
  {
    forall k | 0 <= k < |pages| ensures TurnsPage(tables[0], room, start, limits[k], pages, k) {
      assert TurnsPage(tables[k], room, start, limits[k], pages, k);
      InsertsAreInvisible(tables, room, start, limits, pages, k);
    }
  }

  // ---------------------------------------------------------------- walks exist

  lemma {:induction false} NewestExists(source: set<Message>) returns (newest: Message)
    requires source != {}
    ensures newest in source && forall m <- source :: m.createdAt <= newest.createdAt
  {
    newest :| newest in source;
    if source != {newest} {
      assert source - {newest} != {};
      var other := NewestExists(source - {newest});
      if other.createdAt > newest.createdAt {
        newest := other;
      }
    }
  }

  /** The database always has an answer. */
  lemma {:induction false} AnswerExists(source: set<Message>, n: nat) returns (rows: seq<Message>)
    ensures Answers(source, n, rows)
  {
    if source == {} || n == 0 {
      rows := [];
    } else {
      var newest := NewestExists(source);
      var rest := AnswerExists(source - {newest}, n - 1);
      rows := [newest] + rest;
      assert forall m <- rest :: m in rows;
    }
  }

  lemma PrependPage(table: Table, room: string, start: Option<Time>, limit: nat, page: Page, rest: seq<Page>)
    requires TurnsPage(table, room, start, limit, [page], 0) && page.nextCursor.Some?
    requires WalkOn(table, room, page.nextCursor, seq(|rest|, _ => limit), rest)
    ensures WalkOn(table, room, start, seq(1 + |rest|, _ => limit), [page] + rest)
  {
    var pages := [page] + rest;
    forall k | 0 <= k < |pages| ensures TurnsPage(table, room, start, limit, pages, k) {
      if k > 0 {
        assert TurnsPage(table, room, page.nextCursor, seq(|rest|, _ => limit)[k - 1], rest, k - 1);
        assert CursorAt(start, pages, k) == CursorAt(page.nextCursor, rest, k - 1);
      } else {
        assert IsPage(Eligible(table, room, CursorAt(start, [page], 0)), limit, page);
      }
    }
  }

  /** Every room can be walked to the end with every page size. */
  lemma {:induction false} WalkExists(table: Table, room: string, start: Option<Time>, limit: nat)
    returns (pages: seq<Page>)
    requires 1 <= limit <= 100
    ensures WalkOn(table, room, start, seq(|pages|, _ => limit), pages) && Finished(pages)
    decreases |Eligible(table, room, start)|
  {
    var rows := AnswerExists(Eligible(table, room, start), limit + 1);
    var page := PageOf(rows, limit);
    assert IsPage(Eligible(table, room, CursorAt(start, [page], 0)), limit, page);
    assert TurnsPage(table, room, start, limit, [page], 0);
    if !page.hasMore {
      pages := [page];
    } else {
      CursorMakesProgress(table, room, start, limit, [page], 0);
      TurnedPage(table, room, start, limit, [page], 0);
      var rest := WalkExists(table, room, page.nextCursor, limit);
      PrependPage(table, room, start, limit, page, rest);
      pages := [page] + rest;
    }
  }

  /** Two messages with one timestamp and a page size of one: the room's history can be walked to its end, and is not
      shown. */
  lemma TiedPairIsMissed(room: string, m: Message, x: Message) returns (pages: seq<Page>)
    requires m.room == room && x.room == room && m.createdAt == x.createdAt && m != x
    ensures WalkOn({m, x}, room, None, seq(|pages|, _ => 1), pages) && Finished(pages)
    ensures !Shown(pages, m) || !Shown(pages, x)
  {
    pages := WalkExists({m, x}, room, None, 1);
    if Shown(pages, m) && Shown(pages, x) {
      SinglesNeverTie({m, x}, room, None, seq(|pages|, _ => 1), pages, m, x);
    }
  }
}
