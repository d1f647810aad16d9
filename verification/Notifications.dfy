/**
 * The notification feed and its cursor. The database stamps rows to the microsecond; the cursor is read back
 * through a JavaScript date, which keeps milliseconds only.
 */
module Notifications {
  import opened Model

  /** `createdAt` is in microseconds. */
  datatype Notification = Notification(id: Uuid, userId: Uuid, isDeleted: bool, createdAt: int)

  function Millis(micros: int): Time { micros / 1000 }

  predicate OlderThan(n: Notification, cursor: Option<Time>) {
    cursor.None? || n.createdAt < cursor.value * 1000
  }

  // ---- The query ----

  predicate Descending(ns: seq<Notification>) {
    forall i, j | 0 <= i < j < |ns| :: ns[i].createdAt >= ns[j].createdAt
  }

  /** How many rows go before `n`. */
  function Place(n: Notification, ns: seq<Notification>): (i: nat)
    ensures i <= |ns|
    ensures forall k | 0 <= k < i :: ns[k].createdAt >= n.createdAt
    ensures i < |ns| ==> ns[i].createdAt < n.createdAt
  {
    if ns == [] || ns[0].createdAt < n.createdAt then 0 else 1 + Place(n, ns[1..])
  }

  function Insert(n: Notification, ns: seq<Notification>): (r: seq<Notification>)
    requires Descending(ns)
    ensures Descending(r)
  {
    var i := Place(n, ns);
    var r := ns[..i] + [n] + ns[i..];
    assert r[i] == n;
    assert forall k | 0 <= k < i :: r[k] == ns[k];
    assert forall k | i < k < |r| :: r[k] == ns[k - 1];
    r
  }

  lemma InsertAdds(n: Notification, ns: seq<Notification>)
    requires Descending(ns)
    ensures multiset(Insert(n, ns)) == multiset(ns) + multiset{n}
  {
    var i := Place(n, ns);
    assert ns == ns[..i] + ns[i..];
  }

  predicate Mine(n: Notification, userId: Uuid) { n.userId == userId && !n.isDeleted }

  /** The user's undeleted notifications, newest first; those with equal stamps in table order. */
  function Feed(rows: seq<Notification>, userId: Uuid): (feed: seq<Notification>)
    ensures Descending(feed)
  {
    if rows == [] then []
    else
      var head, last := rows[..|rows| - 1], rows[|rows| - 1];
      if Mine(last, userId) then Insert(last, Feed(head, userId)) else Feed(head, userId)
  }

  /** The feed holds what the table does of the user's undeleted rows, each as often, and nothing else. */
  lemma {:induction false} FeedHoldsTheRows(rows: seq<Notification>, userId: Uuid, n: Notification)
    ensures multiset(Feed(rows, userId))[n] == if Mine(n, userId) then multiset(rows)[n] else 0
  {
    if rows != [] {
      FeedHoldsTheRows(rows[..|rows| - 1], userId, n);
      InsertAdds(rows[|rows| - 1], Feed(rows[..|rows| - 1], userId));
      assert rows == rows[..|rows| - 1] + [rows[|rows| - 1]];
    }
  }

  /** WHERE created_at < cursor. */
  function Before(feed: seq<Notification>, cursor: Option<Time>): seq<Notification> {
    if feed == [] then []
    else if OlderThan(feed[0], cursor) then [feed[0]] + Before(feed[1..], cursor)
    else Before(feed[1..], cursor)
  }

  datatype Page = Page(data: seq<Notification>, nextCursor: Option<Time>, hasMore: bool)

  function PageOf(feed: seq<Notification>, cursor: Option<Time>, limit: nat): Page {
    var matching := Before(feed, cursor);
    if |matching| <= limit then Page(matching, None, false)
    else Page(matching[..limit], if limit == 0 then None else Some(Millis(matching[limit - 1].createdAt)), true)
  }

  class NotificationsService {
    var notifications: seq<Notification>

    constructor ()
      ensures notifications == []
    {
      notifications := [];
    }

    method FindAllForUserCursor(userId: Uuid, cursor: Option<Time>, limit: nat) returns (page: Page)
      ensures page == PageOf(Feed(notifications, userId), cursor, limit)
    {
      var matching := Before(Feed(notifications, userId), cursor);
      var data := if |matching| > limit + 1 then matching[..limit + 1] else matching;
      var hasMore := |data| > limit;
      var result := if hasMore then data[..limit] else data;
      var nextCursor := if hasMore && |result| > 0 then Some(Millis(result[|result| - 1].createdAt)) else None;
      page := Page(result, nextCursor, hasMore);
    }
  }

  // ---- Where a page starts ----

  /** How many rows of the feed the cursor shuts out. */
  function Start(feed: seq<Notification>, cursor: Option<Time>): (s: nat)
    ensures s <= |feed|
    ensures s < |feed| ==> OlderThan(feed[s], cursor)
    ensures forall k | 0 <= k < s :: !OlderThan(feed[k], cursor)
  {
    if feed == [] || OlderThan(feed[0], cursor) then 0 else 1 + Start(feed[1..], cursor)
  }

  lemma {:induction false} BeforeIsSuffix(feed: seq<Notification>, cursor: Option<Time>)
    requires Descending(feed)
    ensures Before(feed, cursor) == feed[Start(feed, cursor)..]
  {
    if feed != [] {
      BeforeIsSuffix(feed[1..], cursor);
      if OlderThan(feed[0], cursor) && |feed| > 1 { assert Start(feed[1..], cursor) == 0; }
    }
  }

  /** The rows from `s` on, and no others, are older than the cursor. */
  predicate OlderFrom(feed: seq<Notification>, cursor: Option<Time>, s: nat) {
    s <= |feed| && (forall k | 0 <= k < s :: cursor.Some? && feed[k].createdAt >= cursor.value * 1000) &&
    forall k | s <= k < |feed| :: cursor.None? || feed[k].createdAt < cursor.value * 1000
  }

  lemma OlderFromStart(feed: seq<Notification>, cursor: Option<Time>)
    requires Descending(feed)
    ensures OlderFrom(feed, cursor, Start(feed, cursor))
  {
    var s := Start(feed, cursor);
    forall k | s <= k < |feed| && cursor.Some? ensures feed[k].createdAt < cursor.value * 1000 {
      assert feed[s].createdAt >= feed[k].createdAt;
    }
  }

  /**
   * A page starts at the first row of the feed that is older than its cursor, has up to `limit` rows from there, and
   * says that there is more exactly when there is; then, unless it is empty, it ends on the cursor's millisecond.
   */
  lemma PageSpelledOut(feed: seq<Notification>, cursor: Option<Time>, limit: nat) returns (s: nat)
    requires Descending(feed)
    ensures OlderFrom(feed, cursor, s)
    ensures var page := PageOf(feed, cursor, limit);
            && page.data == feed[s..if s + limit <= |feed| then s + limit else |feed|]
            && (page.hasMore <==> s + limit < |feed|)
            && page.nextCursor == if page.hasMore && limit > 0 then Some(feed[s + limit - 1].createdAt / 1000) else None
  {
    s := Start(feed, cursor);
    OlderFromStart(feed, cursor);
    var rest := Before(feed, cursor);
    assert rest == feed[s..] by { BeforeIsSuffix(feed, cursor); }
    if s + limit < |feed| { assert rest[..limit] == feed[s..s + limit]; }
  }

  /** The start of the page after the full one that starts at `s`. */
  function NextStart(feed: seq<Notification>, limit: nat, s: nat): (t: nat)
    requires limit >= 1 && s + limit < |feed|
    ensures s + limit <= t <= |feed|
  {
    var t := Start(feed, Some(Millis(feed[s + limit - 1].createdAt)));
    if t < s + limit then s + limit else t
  }

  /** The cursor shuts out that page, and after it only rows of the same millisecond as its last. */
  lemma NextStartFacts(feed: seq<Notification>, limit: nat, s: nat)
    requires Descending(feed) && limit >= 1 && s + limit < |feed|
    ensures var last, t := feed[s + limit - 1], NextStart(feed, limit, s);
            && t == Start(feed, Some(Millis(last.createdAt)))
            && (forall k | s + limit <= k < t :: Millis(feed[k].createdAt) == Millis(last.createdAt))
            && (t == s + limit <==> Millis(feed[s + limit].createdAt) != Millis(last.createdAt))
  {
    var last := feed[s + limit - 1];
    assert forall k | 0 <= k < s + limit :: feed[k].createdAt >= last.createdAt;
    assert forall k | s + limit <= k < |feed| :: feed[k].createdAt <= last.createdAt;
  }

  // ---- Following the cursor ----

  /** The pages a reader gets from the row numbered `s` on. */
  function PagesFrom(feed: seq<Notification>, limit: nat, s: nat): seq<Page>
    requires limit >= 1 && s <= |feed|
    decreases |feed| - s
  {
    if |feed| - s <= limit then [Page(feed[s..], None, false)]
    else
      [Page(feed[s..s + limit], Some(Millis(feed[s + limit - 1].createdAt)), true)] +
      PagesFrom(feed, limit, NextStart(feed, limit, s))
  }

  /** Each page's cursor is the one that asks for the next, from none at all to the page that has no more. */
  predicate Chain(feed: seq<Notification>, limit: nat, cursor: Option<Time>, pages: seq<Page>) {
    |pages| > 0 && pages[0] == PageOf(feed, cursor, limit) &&
    (forall k | 0 <= k < |pages| - 1 :: pages[k].nextCursor.Some? && pages[k + 1] == PageOf(feed, pages[k].nextCursor, limit)) &&
    pages[|pages| - 1].nextCursor.None?
  }

  lemma PageAtStart(feed: seq<Notification>, limit: nat, cursor: Option<Time>)
    requires Descending(feed) && limit >= 1
    ensures PageOf(feed, cursor, limit) == PagesFrom(feed, limit, Start(feed, cursor))[0]
  {
    var s := Start(feed, cursor);
    BeforeIsSuffix(feed, cursor);
    if |feed| - s > limit { assert feed[s..][..limit] == feed[s..s + limit]; }
  }

  lemma ChainGrows(feed: seq<Notification>, limit: nat, cursor: Option<Time>, rest: seq<Page>)
    requires PageOf(feed, cursor, limit).nextCursor.Some?
    requires Chain(feed, limit, PageOf(feed, cursor, limit).nextCursor, rest)
    ensures Chain(feed, limit, cursor, [PageOf(feed, cursor, limit)] + rest)
  {
    var pages := [PageOf(feed, cursor, limit)] + rest;
    forall k | 0 <= k < |pages| - 1
      ensures pages[k].nextCursor.Some? && pages[k + 1] == PageOf(feed, pages[k].nextCursor, limit)
    {
      assert pages[k + 1] == rest[k];
      if k > 0 { assert pages[k] == rest[k - 1]; }
    }
  }

  lemma {:induction false} PagesFromIsChain(feed: seq<Notification>, limit: nat, cursor: Option<Time>)
    requires Descending(feed) && limit >= 1
    ensures Chain(feed, limit, cursor, PagesFrom(feed, limit, Start(feed, cursor)))
    decreases |feed| - Start(feed, cursor)
  {
    var s := Start(feed, cursor);
    PageAtStart(feed, limit, cursor);
    if |feed| - s > limit {
      var next := Some(Millis(feed[s + limit - 1].createdAt));
      NextStartFacts(feed, limit, s);
      PagesFromIsChain(feed, limit, next);
      ChainGrows(feed, limit, cursor, PagesFrom(feed, limit, Start(feed, next)));
    }
  }

  lemma {:induction false} ChainIsUnique(feed: seq<Notification>, limit: nat, cursor: Option<Time>, a: seq<Page>, b: seq<Page>)
    requires Chain(feed, limit, cursor, a) && Chain(feed, limit, cursor, b)
    ensures a == b
    decreases |a|
  {
    if |a| > 1 && |b| > 1 {
      ChainIsUnique(feed, limit, a[0].nextCursor, a[1..], b[1..]);
      assert a == [a[0]] + a[1..] && b == [b[0]] + b[1..];
    }
  }

  // ---- What a reader has seen at the end ----

  function Rows(pages: seq<Page>): seq<Notification> {
    if pages == [] then [] else pages[0].data + Rows(pages[1..])
  }

  function Range(lo: nat, hi: nat): (r: seq<nat>)
    requires lo <= hi
    ensures |r| == hi - lo
    ensures forall i | 0 <= i < |r| :: r[i] == lo + i
    decreases hi - lo
  {
    if lo == hi then [] else [lo] + Range(lo + 1, hi)
  }

  /** The feed's row numbers, in the order a reader sees them. */
  function Walk(feed: seq<Notification>, limit: nat, s: nat): (w: seq<nat>)
    requires limit >= 1 && s <= |feed|
    ensures forall i | 0 <= i < |w| :: s <= w[i] < |feed|
    decreases |feed| - s
  {
    if |feed| - s <= limit then Range(s, |feed|)
    else Range(s, s + limit) + Walk(feed, limit, NextStart(feed, limit, s))
  }

  function At(feed: seq<Notification>, w: seq<nat>): (r: seq<Notification>)
    requires forall i | 0 <= i < |w| :: w[i] < |feed|
    ensures |r| == |w| && forall i | 0 <= i < |w| :: r[i] == feed[w[i]]
  {
    if w == [] then [] else [feed[w[0]]] + At(feed, w[1..])
  }

  lemma AtRange(feed: seq<Notification>, lo: nat, hi: nat)
    requires lo <= hi <= |feed|
    ensures At(feed, Range(lo, hi)) == feed[lo..hi]
  {
  }

  lemma AtConcat(feed: seq<Notification>, v: seq<nat>, w: seq<nat>)
    requires (forall i | 0 <= i < |v| :: v[i] < |feed|) && forall i | 0 <= i < |w| :: w[i] < |feed|
    ensures At(feed, v + w) == At(feed, v) + At(feed, w)
  {
  }

  /** Where the page that starts at `s` stops. */
  function Stop(feed: seq<Notification>, limit: nat, s: nat): (t: nat)
    requires s <= |feed|
    ensures s <= t <= |feed|
  {
    if |feed| - s <= limit then |feed| else s + limit
  }

  predicate InFeed(feed: seq<Notification>, starts: seq<nat>) { forall k | 0 <= k < |starts| :: starts[k] <= |feed| }

  /** The row numbers of pages that start at these places. */
  function WalkOf(feed: seq<Notification>, limit: nat, starts: seq<nat>): (w: seq<nat>)
    requires InFeed(feed, starts)
    ensures forall i | 0 <= i < |w| :: w[i] < |feed|
  {
    if starts == [] then []
    else
      assert InFeed(feed, starts[1..]);
      Range(starts[0], Stop(feed, limit, starts[0])) + WalkOf(feed, limit, starts[1..])
  }

  /** Each page holds the rows from its start to its stop. */
  predicate PagesAt(feed: seq<Notification>, limit: nat, starts: seq<nat>, pages: seq<Page>)
    requires InFeed(feed, starts)
  {
    |pages| == |starts| && forall k | 0 <= k < |pages| :: pages[k].data == feed[starts[k]..Stop(feed, limit, starts[k])]
  }

  lemma {:induction false} RowsOfPagesAt(feed: seq<Notification>, limit: nat, starts: seq<nat>, pages: seq<Page>)
    requires InFeed(feed, starts) && PagesAt(feed, limit, starts, pages)
    ensures Rows(pages) == At(feed, WalkOf(feed, limit, starts))
  {
    if starts != [] {
      var rest, later := starts[1..], pages[1..];
      assert InFeed(feed, rest) && PagesAt(feed, limit, rest, later);
      RowsOfPagesAt(feed, limit, rest, later);
      AtRange(feed, starts[0], Stop(feed, limit, starts[0]));
      AtConcat(feed, Range(starts[0], Stop(feed, limit, starts[0])), WalkOf(feed, limit, rest));
    }
  }

  /** Where the pages from `s` on start. */
  function Starts(feed: seq<Notification>, limit: nat, s: nat): (starts: seq<nat>)
    requires limit >= 1 && s <= |feed|
    ensures InFeed(feed, starts)
    decreases |feed| - s
  {
    if |feed| - s <= limit then [s] else [s] + Starts(feed, limit, NextStart(feed, limit, s))
  }

  lemma {:induction false} PagesFromStarts(feed: seq<Notification>, limit: nat, s: nat)
    requires limit >= 1 && s <= |feed|
    ensures PagesAt(feed, limit, Starts(feed, limit, s), PagesFrom(feed, limit, s))
    decreases |feed| - s
  {
    if |feed| - s > limit { PagesFromStarts(feed, limit, NextStart(feed, limit, s)); }
  }

  lemma WalkOfFirst(feed: seq<Notification>, limit: nat, start: nat, rest: seq<nat>)
    requires start <= |feed| && InFeed(feed, [start] + rest) && InFeed(feed, rest)
    ensures WalkOf(feed, limit, [start] + rest) == Range(start, Stop(feed, limit, start)) + WalkOf(feed, limit, rest)
  {
    assert ([start] + rest)[1..] == rest;
  }

  lemma {:induction false} WalkFromStarts(feed: seq<Notification>, limit: nat, s: nat)
    requires limit >= 1 && s <= |feed|
    ensures Walk(feed, limit, s) == WalkOf(feed, limit, Starts(feed, limit, s))
    decreases |feed| - s
  {
    if |feed| - s > limit {
      var next := NextStart(feed, limit, s);
      WalkFromStarts(feed, limit, next);
      WalkOfFirst(feed, limit, s, Starts(feed, limit, next));
    } else {
      WalkOfFirst(feed, limit, s, []);
      assert [s] + [] == [s];
      assert Range(s, |feed|) + [] == Range(s, |feed|);
    }
  }

  lemma RowsAreTheWalk(feed: seq<Notification>, limit: nat, s: nat)
    requires limit >= 1 && s <= |feed|
    ensures Rows(PagesFrom(feed, limit, s)) == At(feed, Walk(feed, limit, s))
  {
    PagesFromStarts(feed, limit, s);
    WalkFromStarts(feed, limit, s);
    RowsOfPagesAt(feed, limit, Starts(feed, limit, s), PagesFrom(feed, limit, s));
  }

  lemma {:induction false} WalkGoesForward(feed: seq<Notification>, limit: nat, s: nat)
    requires limit >= 1 && s <= |feed|
    ensures forall i, j | 0 <= i < j < |Walk(feed, limit, s)| :: Walk(feed, limit, s)[i] < Walk(feed, limit, s)[j]
    decreases |feed| - s
  {
    if |feed| - s > limit { WalkGoesForward(feed, limit, NextStart(feed, limit, s)); }
  }

  /** A row left out shares the millisecond of the last row of a page that said there was more. */
  predicate CutOff(n: Notification, pages: seq<Page>) {
    exists p | p in pages :: p.hasMore && p.data != [] && Millis(p.data[|p.data| - 1].createdAt) == Millis(n.createdAt)
  }

  lemma {:induction false} OmittedAreCutOff(feed: seq<Notification>, limit: nat, s: nat, i: nat)
    requires Descending(feed) && limit >= 1 && s <= i < |feed|
    ensures i in Walk(feed, limit, s) || CutOff(feed[i], PagesFrom(feed, limit, s))
    decreases |feed| - s
  {
    var w, pages := Walk(feed, limit, s), PagesFrom(feed, limit, s);
    if |feed| - s <= limit || i < s + limit {
      assert w[i - s] == i;
    } else {
      var t := NextStart(feed, limit, s);
      NextStartFacts(feed, limit, s);
      assert pages[0] in pages;
      if i < t {
        assert pages[0].data[|pages[0].data| - 1] == feed[s + limit - 1];
      } else {
        OmittedAreCutOff(feed, limit, t, i);
        var rest := PagesFrom(feed, limit, t);
        assert forall p | p in rest :: p in pages;
      }
    }
  }

  /**
   * Following the cursor from the top reaches a last page; what it has shown is the feed's rows in feed order,
   * none of them twice, and a row it has not shown shares the millisecond of some page's last row.
   */
  lemma FollowingTheCursor(rows: seq<Notification>, userId: Uuid, limit: nat, pages: seq<Page>)
    requires limit >= 1 && Chain(Feed(rows, userId), limit, None, pages)
    ensures var feed := Feed(rows, userId);
            var w := Walk(feed, limit, 0);
            && Rows(pages) == At(feed, w)
            && (forall i, j | 0 <= i < j < |w| :: w[i] < w[j])
            && Descending(Rows(pages))
            && (forall i | 0 <= i < |feed| :: i in w || CutOff(feed[i], pages))
  {
    var feed := Feed(rows, userId);
    assert Start(feed, None) == 0;
    PagesFromIsChain(feed, limit, None);
    ChainIsUnique(feed, limit, None, pages, PagesFrom(feed, limit, 0));
    RowsAreTheWalk(feed, limit, 0);
    WalkGoesForward(feed, limit, 0);
    forall i | 0 <= i < |feed| ensures i in Walk(feed, limit, 0) || CutOff(feed[i], pages) {
      OmittedAreCutOff(feed, limit, 0, i);
    }
  }

  /** There is always such a sequence of pages to follow. */
  lemma CursorReachesTheEnd(rows: seq<Notification>, userId: Uuid, limit: nat)
    requires limit >= 1
    ensures exists pages :: Chain(Feed(rows, userId), limit, None, pages) && |pages| <= |Feed(rows, userId)| + 1
  {
    var feed := Feed(rows, userId);
    assert Start(feed, None) == 0;
    PagesFromIsChain(feed, limit, None);
    PagesAreFew(feed, limit, 0);
  }

  lemma {:induction false} PagesAreFew(feed: seq<Notification>, limit: nat, s: nat)
    requires limit >= 1 && s <= |feed|
    ensures |PagesFrom(feed, limit, s)| <= |feed| - s + 1
    decreases |feed| - s
  {
    if |feed| - s > limit { PagesAreFew(feed, limit, NextStart(feed, limit, s)); }
  }

  // ---- When nothing is left out ----

  /** No full page ends inside a millisecond. */
  ghost predicate NoSplit(feed: seq<Notification>, limit: nat) {
    forall k: nat | 0 < k * limit < |feed| :: Millis(feed[k * limit - 1].createdAt) != Millis(feed[k * limit].createdAt)
  }

  predicate NoSplitFrom(feed: seq<Notification>, limit: nat, s: nat)
    requires limit >= 1 && s <= |feed|
    decreases |feed| - s
  {
    |feed| - s <= limit ||
    (Millis(feed[s + limit - 1].createdAt) != Millis(feed[s + limit].createdAt) && NoSplitFrom(feed, limit, s + limit))
  }

  lemma {:induction false} NoSplitUnrolled(feed: seq<Notification>, limit: nat, m: nat)
    requires limit >= 1 && m * limit <= |feed|
    ensures NoSplitFrom(feed, limit, m * limit) <==>
            forall k: nat | m < k && k * limit < |feed| ::
              Millis(feed[k * limit - 1].createdAt) != Millis(feed[k * limit].createdAt)
    decreases |feed| - m * limit
  {
    var s := m * limit;
    assert (m + 1) * limit == s + limit;
    if |feed| - s <= limit {
      forall k: nat | m < k ensures k * limit >= |feed| { assert k * limit >= (m + 1) * limit; }
    } else {
      NoSplitUnrolled(feed, limit, m + 1);
    }
  }

  lemma {:induction false} WalkMissesNothing(feed: seq<Notification>, limit: nat, s: nat)
    requires Descending(feed) && limit >= 1 && s <= |feed|
    ensures |Walk(feed, limit, s)| <= |feed| - s
    ensures |Walk(feed, limit, s)| == |feed| - s <==> NoSplitFrom(feed, limit, s)
    decreases |feed| - s
  {
    if |feed| - s > limit {
      NextStartFacts(feed, limit, s);
      WalkMissesNothing(feed, limit, NextStart(feed, limit, s));
    }
  }

  /** Row numbers that go up without a gap are all of them. */
  lemma {:induction false} FullWalkIsRange(w: seq<nat>, s: nat, n: nat, k: nat)
    requires (forall i | 0 <= i < |w| :: s <= w[i] < n) && (forall i, j | 0 <= i < j < |w| :: w[i] < w[j])
    requires |w| == n - s && k < |w|
    ensures s + k <= w[k]
  {
    if k > 0 { FullWalkIsRange(w, s, n, k - 1); }
  }

  lemma {:induction false} FullWalkFromTheEnd(w: seq<nat>, s: nat, n: nat, k: nat)
    requires (forall i | 0 <= i < |w| :: s <= w[i] < n) && (forall i, j | 0 <= i < j < |w| :: w[i] < w[j])
    requires |w| == n - s && k < |w|
    ensures w[|w| - 1 - k] <= n - 1 - k
  {
    if k > 0 { FullWalkFromTheEnd(w, s, n, k - 1); }
  }

  lemma FullWalkShowsAll(feed: seq<Notification>, w: seq<nat>)
    requires (forall i | 0 <= i < |w| :: w[i] < |feed|) && (forall i, j | 0 <= i < j < |w| :: w[i] < w[j])
    requires |w| == |feed|
    ensures At(feed, w) == feed
  {
    forall k | 0 <= k < |w| ensures w[k] == k {
      FullWalkIsRange(w, 0, |feed|, k);
      FullWalkFromTheEnd(w, 0, |feed|, |w| - 1 - k);
    }
  }

  lemma NoSplitFromTheTop(feed: seq<Notification>, limit: nat)
    requires limit >= 1
    ensures NoSplitFrom(feed, limit, 0) <==> NoSplit(feed, limit)
  {
    assert 0 * limit == 0;
    NoSplitUnrolled(feed, limit, 0);
    forall k: nat ensures 0 < k <==> 0 < k * limit {
      if k > 0 { assert k * limit >= 1 * limit; }
    }
  }

  /** A reader who follows the cursor sees the whole feed exactly when no full page ends inside a millisecond. */
  lemma CompleteExactlyWhenNoSplit(rows: seq<Notification>, userId: Uuid, limit: nat, pages: seq<Page>)
    requires limit >= 1 && Chain(Feed(rows, userId), limit, None, pages)
    ensures Rows(pages) == Feed(rows, userId) <==> NoSplit(Feed(rows, userId), limit)
  {
    var feed := Feed(rows, userId);
    var w := Walk(feed, limit, 0);
    FollowingTheCursor(rows, userId, limit, pages);
    WalkMissesNothing(feed, limit, 0);
    NoSplitFromTheTop(feed, limit);
    if |w| == |feed| { FullWalkShowsAll(feed, w); }
  }

  /** In particular when no two of the user's notifications share a millisecond. */
  lemma DistinctMillisecondsAreComplete(rows: seq<Notification>, userId: Uuid, limit: nat, pages: seq<Page>)
    requires limit >= 1 && Chain(Feed(rows, userId), limit, None, pages)
    requires var feed := Feed(rows, userId);
             forall i, j | 0 <= i < j < |feed| :: Millis(feed[i].createdAt) != Millis(feed[j].createdAt)
    ensures Rows(pages) == Feed(rows, userId)
  {
    CompleteExactlyWhenNoSplit(rows, userId, limit, pages);
  }

  /** Distinct database stamps are not enough: two rows a microsecond apart, read one to a page. */
  lemma DistinctStampsCanBeLost(userId: Uuid, a: Uuid, b: Uuid)
    ensures var older, newer := Notification(a, userId, false, 1_000_000), Notification(b, userId, false, 1_000_001);
            var feed := Feed([older, newer], userId);
            var first := PageOf(feed, None, 1);
            && feed == [newer, older]
            && first == Page([newer], Some(1000), true)
            && PageOf(feed, first.nextCursor, 1) == Page([], None, false)
  {
    var older, newer := Notification(a, userId, false, 1_000_000), Notification(b, userId, false, 1_000_001);
    FeedOfTwo(older, newer, userId);
    BeforeOfTwo(newer, older, None);
    BeforeOfTwo(newer, older, Some(1000));
  }

  lemma BeforeOfTwo(newer: Notification, older: Notification, cursor: Option<Time>)
    requires OlderThan(newer, cursor) <==> OlderThan(older, cursor)
    ensures Before([newer, older], cursor) == if OlderThan(older, cursor) then [newer, older] else []
  {
    assert [newer, older][1..] == [older] && [older][1..] == [];
    assert Before([older], cursor) == if OlderThan(older, cursor) then [older] else [];
  }

  lemma FeedOfTwo(older: Notification, newer: Notification, userId: Uuid)
    requires Mine(older, userId) && Mine(newer, userId) && older.createdAt < newer.createdAt
    ensures Feed([older, newer], userId) == [newer, older]
  {
    assert [older][..0] == [] && [older, newer][..1] == [older];
    assert Feed([older], userId) == [older];
    assert Place(newer, [older]) == 0;
  }
}
