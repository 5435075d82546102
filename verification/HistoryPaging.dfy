/** Read-history paging (`history-paging.ts`): pages are cut by a timestamp cursor although timestamps repeat. */
module HistoryPaging {
  import opened Common

  const HISTORY_DEFAULT_LIMIT: nat := 50
  const HISTORY_MAX_LIMIT: nat := 200

  /** A raw query parameter after `Number(...)`. */
  datatype QueryNumber = Absent | NotFinite | Finite(value: real)

  datatype HistoryEntry = HistoryEntry(sender: string, text: string, ts: int)

  /** A page, oldest message first. `hasMore` says that older messages remain. */
  datatype HistoryPage = HistoryPage(messages: seq<HistoryEntry>, hasMore: bool)

  /** The limit actually used: the nearest admissible one at or below a finite request. */
  function ClampHistoryLimit(raw: QueryNumber): (limit: nat)
    ensures 1 <= limit <= HISTORY_MAX_LIMIT
    ensures !raw.Finite? ==> limit == HISTORY_DEFAULT_LIMIT
    ensures raw.Finite? && 1 < limit ==> limit as real <= raw.value
    ensures raw.Finite? && limit < HISTORY_MAX_LIMIT ==> raw.value < limit as real + 1.0
  {
    if !raw.Finite? then HISTORY_DEFAULT_LIMIT
    else
      var n := raw.value.Floor;
      var capped := if n < HISTORY_MAX_LIMIT then n else HISTORY_MAX_LIMIT;
      if capped < 1 then 1 else capped
  }

  /** The cursor a raw `before` stands for: the least whole timestamp not below it, so that the same whole timestamps
      lie below both. */
  function Cursor(raw: QueryNumber): (before: Option<int>)
    ensures before.None? <==> !raw.Finite?
    ensures raw.Finite? ==> before.value as real - 1.0 < raw.value <= before.value as real
  {
    if raw.Finite? then Some(-(-raw.value).Floor) else None
  }

  /** The messages strictly older than the cursor, in their stored order. */
  function Older(all: seq<HistoryEntry>, before: Option<int>): seq<HistoryEntry> {
    if before.None? || all == [] then all
    else
      var rest := Older(all[..|all| - 1], before);
      if all[|all| - 1].ts < before.value then rest + [all[|all| - 1]] else rest
  }

  predicate InOrder(h: seq<HistoryEntry>, i: nat, j: nat)
    requires i <= j < |h|
  {
    h[i].ts <= h[j].ts
  }

  predicate SameTime(h: seq<HistoryEntry>, i: nat, j: nat)
    requires i <= j < |h|
  {
    h[i].ts == h[j].ts
  }

  ghost predicate Sorted(h: seq<HistoryEntry>) {
    forall i: nat, j: nat | i <= j < |h| :: InOrder(h, i, j)
  }

  /** What a page of `older` must be: a suffix that starts where the timestamp changes, reaches the limit when
      enough messages exist, and goes beyond it only with messages sharing its oldest timestamp. */
  ghost predicate IsPage(older: seq<HistoryEntry>, limit: nat, page: HistoryPage) {
    && limit >= 1
    && |page.messages| <= |older|
    && var start := |older| - |page.messages|;
    && page.messages == older[start..]
    && (page.hasMore <==> start > 0)
    && (|page.messages| >= limit || start == 0)
    && (page.hasMore ==> !SameTime(older, start - 1, start))
    && (forall k: nat | start <= k <= |older| - limit :: SameTime(older, start, k))
  }

  predicate EndsWith(h: seq<HistoryEntry>, messages: seq<HistoryEntry>) {
    |messages| <= |h| && messages == h[|h| - |messages|..]
  }

  /** In a sorted history, the messages before the cursor are the first `n`. */
  predicate BeforeCursor(h: seq<HistoryEntry>, before: Option<int>, n: nat) {
    n <= |h| && forall i | 0 <= i < |h| :: i < n <==> before.None? || h[i].ts < before.value
  }

  /** Only messages of the history that lie before the cursor are selected, each as often as it is there. */
  lemma {:induction false} OlderSelects(all: seq<HistoryEntry>, before: Option<int>, m: HistoryEntry)
    ensures multiset(Older(all, before))[m]
         == if before.None? || m.ts < before.value then multiset(all)[m] else 0
  {
    if before.None? || all == [] {
    } else {
      OlderSelects(all[..|all| - 1], before, m);
      assert all == all[..|all| - 1] + [all[|all| - 1]];
    }
  }

  /** In stored order. */
  lemma {:induction false} OlderConcat(a: seq<HistoryEntry>, b: seq<HistoryEntry>, before: Option<int>)
    ensures Older(a + b, before) == Older(a, before) + Older(b, before)
  {
    if before.None? || b == [] {
      assert a + [] == a;
    } else {
      assert (a + b)[..|a + b| - 1] == a + b[..|b| - 1];
      OlderConcat(a, b[..|b| - 1], before);
    }
  }

  lemma SortedPrefix(a: seq<HistoryEntry>, b: seq<HistoryEntry>)
    requires Sorted(a + b)
    ensures Sorted(a)
  {
    forall i: nat, j: nat | i <= j < |a| ensures InOrder(a, i, j) {
      assert InOrder(a + b, i, j);
    }
  }

  /** Without a cursor nothing is left out. */
  lemma OlderIsAll(all: seq<HistoryEntry>)
    ensures Older(all, None) == all
  {
  }

  lemma {:induction false} OlderIsPrefix(h: seq<HistoryEntry>, before: Option<int>)
    requires Sorted(h)
    ensures Older(h, before) <= h
    ensures BeforeCursor(h, before, |Older(h, before)|)
  {
    if before.None? {
      OlderIsAll(h);
    } else if h == [] {
    } else {
      assert h == h[..|h| - 1] + [h[|h| - 1]];
      SortedPrefix(h[..|h| - 1], [h[|h| - 1]]);
      OlderIsPrefix(h[..|h| - 1], before);
      forall i: nat | i < |h| ensures h[i].ts <= h[|h| - 1].ts {
        assert InOrder(h, i, |h| - 1);
      }
    }
  }

  /** A page asked for without a cursor: the newest messages, and whether these are all. */
  predicate IsNewest(all: seq<HistoryEntry>, page: HistoryPage) {
    && EndsWith(all, page.messages) && (page.hasMore <==> |page.messages| < |all|)
    && (all != [] ==> page.messages != [])
  }

  /** A page of a sorted history: the newest of the messages before the cursor, and whether these are all. */
  ghost predicate IsNewestBefore(all: seq<HistoryEntry>, before: Option<int>, page: HistoryPage) {
    exists n: nat :: BeforeCursor(all, before, n) && IsNewest(all[..n], page)
  }

  lemma PageIsNewest(all: seq<HistoryEntry>, limit: nat, before: Option<int>, page: HistoryPage)
    requires IsPage(Older(all, before), limit, page)
    ensures before.None? ==> IsNewest(all, page)
    ensures Sorted(all) ==> IsNewestBefore(all, before, page)
  {
    OlderIsAll(all);
    if Sorted(all) {
      OlderIsPrefix(all, before);
      var n := |Older(all, before)|;
      assert all[..n] == Older(all, before);
      assert BeforeCursor(all, before, n) && IsNewest(all[..n], page);
    }
  }

  lemma PageIsSelected(all: seq<HistoryEntry>, limit: nat, before: Option<int>, page: HistoryPage, m: HistoryEntry)
    requires IsPage(Older(all, before), limit, page) && m in page.messages
    ensures m in all && (before.Some? ==> m.ts < before.value)
  {
    OlderSelects(all, before, m);
    assert multiset(Older(all, before))[m] > 0;
  }

  method PageTopicHistory(all: seq<HistoryEntry>, limit: nat, before: Option<int>) returns (page: HistoryPage)
    requires limit >= 1
    ensures IsPage(Older(all, before), limit, page)
    ensures before.None? ==> IsNewest(all, page)
    ensures Sorted(all) ==> IsNewestBefore(all, before, page)
    ensures forall m | m in page.messages :: m in all && (before.Some? ==> m.ts < before.value)
  {
    var older := Older(all, before);
    var start := if |older| > limit then |older| - limit else 0;
    while start > 0 && older[start - 1].ts == older[start].ts
      invariant 0 <= start <= |older|
      invariant start > 0 ==> start <= |older| - limit
      invariant forall k: nat | start <= k <= |older| - limit :: SameTime(older, start, k)
      invariant |older| - start >= limit || start == 0
      decreases start
    {
      start := start - 1;
      forall k: nat | start <= k <= |older| - limit ensures SameTime(older, start, k) {
        assert k > start ==> SameTime(older, start + 1, k);
      }
    }
    page := HistoryPage(older[start..], start > 0);
    PageIsNewest(all, limit, before, page);
    forall m | m in page.messages ensures m in all && (before.Some? ==> m.ts < before.value) {
      PageIsSelected(all, limit, before, page, m);
    }
  }

  lemma TimeChanges(h: seq<HistoryEntry>, i: nat, j: nat, k: nat)
    requires i <= j <= k < |h| && SameTime(h, i, j) && !SameTime(h, j, k)
    ensures !SameTime(h, i, k)
  {
  }

  lemma NoPageIsShorter(older: seq<HistoryEntry>, limit: nat, p: HistoryPage, q: HistoryPage)
    requires IsPage(older, limit, p) && IsPage(older, limit, q)
    ensures |q.messages| <= |p.messages|
  {
    var s, l: nat := |older| - |p.messages|, |older| - |q.messages|;
    if l < s {
      var t: nat := s - 1;
      assert SameTime(older, l, t) && !SameTime(older, t, s);
      TimeChanges(older, l, t, s);
    }
  }

  /** The description of a page leaves no freedom: the answer to a request is determined. */
  lemma PageIsDetermined(older: seq<HistoryEntry>, limit: nat, p: HistoryPage, q: HistoryPage)
    requires IsPage(older, limit, p) && IsPage(older, limit, q)
    ensures p == q
  {
    NoPageIsShorter(older, limit, p, q);
    NoPageIsShorter(older, limit, q, p);
  }

  // ---------------------------------------------------------------- the cursor walk

  /** One request of a walk: the history it is answered from, its cursor and limit, and the page answered. */
  datatype Request = Request(history: seq<HistoryEntry>, before: Option<int>, limit: nat, page: HistoryPage) {
    ghost predicate Answered() {
      IsPage(Older(history, before), limit, page)
    }

    /** The request after `this`: older messages remained, the cursor is the oldest timestamp of the page, and
        in between messages may have been posted. */
    predicate FollowedBy(next: Request) {
      && page.hasMore
      && page.messages != []
      && next.before == Some(page.messages[0].ts)
      && history <= next.history
    }
  }

  /** A walk over the history, newest page first. */
  datatype Walk = Stop(first: Request) | Then(first: Request, rest: Walk) {
    /** Every request is answered correctly and leads to the next, while a non-decreasing clock keeps the
        history sorted. */
    ghost predicate Valid() {
      && Sorted(first.history)
      && first.Answered()
      && (Then? ==> first.FollowedBy(rest.first) && rest.Valid())
    }

    function Requests(): nat {
      if Stop? then 1 else 1 + rest.Requests()
    }

    function LastPage(): HistoryPage {
      if Stop? then first.page else rest.LastPage()
    }

    /** The pages in reading order: the last page fetched holds the oldest messages. */
    function Gathered(): seq<HistoryEntry> {
      if Stop? then first.page.messages else rest.Gathered() + first.page.messages
    }
  }

  /** What a walk over `older` must have achieved: the newest part gathered without gap or repetition, complete
      exactly when the last page says so, at most one request per message. */
  ghost predicate ExactSoFar(older: seq<HistoryEntry>, walk: Walk) {
    var got := walk.Gathered();
    && |got| <= |older|
    && got == older[|older| - |got|..]
    && (!walk.LastPage().hasMore <==> |got| == |older|)
    && walk.Requests() <= |older| + (if older == [] then 1 else 0)
  }

  /** A cursor at a place where the timestamp changes selects what lies before it. */
  lemma CutAtChange(h: seq<HistoryEntry>, start: nat)
    requires Sorted(h) && 0 < start < |h| && h[start - 1].ts < h[start].ts
    ensures Older(h, Some(h[start].ts)) == h[..start]
  {
    OlderIsPrefix(h, Some(h[start].ts));
    var n := |Older(h, Some(h[start].ts))|;
    assert start - 1 < n;
    assert !(start < n);
  }

  /** After a page that left something behind, the next cursor selects exactly what was left behind, whatever
      was posted in between. */
  lemma NextCursorIsExact(r: Request, next: Request, older: seq<HistoryEntry>)
    requires Sorted(next.history) && r.Answered() && r.FollowedBy(next)
    requires older == Older(r.history, r.before)
    ensures Older(next.history, next.before) == older[..|older| - |r.page.messages|]
  {
    var h, all, start := r.history, next.history, |older| - |r.page.messages|;
    assert all == h + all[|h|..];
    SortedPrefix(h, all[|h|..]);
    OlderIsPrefix(h, r.before);
    assert older <= all && older[start] == r.page.messages[0];
    assert InOrder(all, start - 1, start);
    assert all[start] == older[start] && all[start - 1] == older[start - 1];
    CutAtChange(all, start);
    assert all[..start] == older[..start];
  }

  lemma ExtendWalk(older: seq<HistoryEntry>, walk: Walk)
    requires walk.Then? && IsPage(older, walk.first.limit, walk.first.page)
    requires walk.first.page.messages != [] && walk.first.page.hasMore
    requires ExactSoFar(older[..|older| - |walk.first.page.messages|], walk.rest)
    ensures ExactSoFar(older, walk)
  {
  }

  /** A walk that starts without a cursor and has been told that nothing older remains has gathered the whole
      history. */
  ghost predicate GathersAll(walk: Walk) {
    walk.first.before.None? && !walk.LastPage().hasMore ==> walk.Gathered() == walk.first.history
  }

  /** Pages never drop or repeat a message, whatever limits are chosen and whatever is posted between requests,
      and the walk comes to an end with exactly the history of its first request. */
  lemma {:induction false} WalkIsExact(walk: Walk, older: seq<HistoryEntry>)
    requires walk.Valid()
    requires older == Older(walk.first.history, walk.first.before)
    ensures ExactSoFar(older, walk)
    ensures GathersAll(walk)
    decreases walk
  {
    if walk.first.before.None? {
      OlderIsAll(walk.first.history);
    }
    if walk.Stop? {
    } else {
      NextCursorIsExact(walk.first, walk.rest.first, older);
      WalkIsExact(walk.rest, older[..|older| - |walk.first.page.messages|]);
      ExtendWalk(older, walk);
    }
  }
}
