/** Cursor pages over an ordered list: transactions, adjustments and the staff lists. */
module Pages {
  import opened Basics

  datatype Item = Item(id: nat, content: nat)

  datatype Page = Page(items: seq<Item>, nextCursor: Option<nat>)

  predicate UniqueIds(list: seq<Item>) {
    forall i, j :: 0 <= i < j < |list| ==> list[i].id != list[j].id
  }

  function IndexOf(list: seq<Item>, id: nat): (r: Option<nat>)
    ensures r.Some? ==> r.value < |list| && list[r.value].id == id
    ensures r.None? ==> forall i :: 0 <= i < |list| ==> list[i].id != id
  {
    if list == [] then None
    else if list[|list| - 1].id == id then Some(|list| - 1)
    else IndexOf(list[..|list| - 1], id)
  }

  /** What the query for a page returns: up to one row more than asked for, after the cursor's row. An unknown cursor finds nothing. */
  function Fetch(list: seq<Item>, limit: nat, cursor: Option<nat>): seq<Item> {
    if cursor.None? then Take(list, limit + 1)
    else
      var i := IndexOf(list, cursor.value);
      if i.None? then [] else Take(list[i.value + 1..], limit + 1)
  }

  /** If the extra row exists, there is another page. */
  function ToPage(rows: seq<Item>, limit: nat): Page
    requires 1 <= limit
  {
    var items := Take(rows, limit);
    Page(items, if limit < |rows| then Some(items[|items| - 1].id) else None)
  }

  function PageAt(list: seq<Item>, limit: nat, cursor: Option<nat>): Page
    requires 1 <= limit
  {
    ToPage(Fetch(list, limit, cursor), limit)
  }

  /** How much of the list lies after the cursor. */
  function Left(list: seq<Item>, cursor: Option<nat>): nat {
    if cursor.None? then |list|
    else
      var i := IndexOf(list, cursor.value);
      if i.None? then 0 else |list| - i.value - 1
  }

  /** The page after a cursor is the next stretch of the list, and its own cursor points at its end. */
  lemma {:induction false} PageIsNextStretch(list: seq<Item>, limit: nat, cursor: Option<nat>)
    requires UniqueIds(list) && 1 <= limit
    ensures var left := Left(list, cursor);
      var page := PageAt(list, limit, cursor);
      var start := |list| - left;
      && 0 <= start && page.items == list[start..if left <= limit then |list| else start + limit]
      && (left <= limit <==> page.nextCursor.None?)
      && (limit < left ==> Left(list, page.nextCursor) == left - limit)
  {
    var start := |list| - Left(list, cursor);
    FetchIsTail(list, limit, cursor);
    hide Fetch, Left, UniqueIds;
    ToPageOfTail(list, limit, start);
    if limit < |list| - start {
      LeftAfter(list, start + limit - 1);
    }
  }

  lemma FetchIsTail(list: seq<Item>, limit: nat, cursor: Option<nat>)
    ensures Left(list, cursor) <= |list|
    ensures Fetch(list, limit, cursor) == Take(list[|list| - Left(list, cursor)..], limit + 1)
  {
  }

  lemma ToPageOfTail(list: seq<Item>, limit: nat, start: nat)
    requires 1 <= limit && start <= |list|
    ensures var page := ToPage(Take(list[start..], limit + 1), limit);
      if |list| - start <= limit then page == Page(list[start..], None)
      else page == Page(list[start..start + limit], Some(list[start + limit - 1].id))
  {
    var tail := list[start..];
    if limit < |tail| {
      assert tail[..limit + 1][..limit] == list[start..start + limit];
    }
  }

  lemma LeftAfter(list: seq<Item>, i: nat)
    requires UniqueIds(list) && i < |list|
    ensures Left(list, Some(list[i].id)) == |list| - i - 1
  {
    var found := IndexOf(list, list[i].id);
    assert found == Some(i);
  }

  /** The pages a reader gets by following nextCursor to the end. */
  function Follow(list: seq<Item>, limit: nat, cursor: Option<nat>): seq<Page>
    requires UniqueIds(list) && 1 <= limit
    decreases Left(list, cursor)
  {
    var page := PageAt(list, limit, cursor);
    PageIsNextStretch(list, limit, cursor);
    if page.nextCursor.None? then [page] else [page] + Follow(list, limit, page.nextCursor)
  }

  function AllItems(pages: seq<Page>): seq<Item> {
    if pages == [] then [] else pages[0].items + AllItems(pages[1..])
  }

  /** n / limit rounded up. */
  function CeilDiv(n: nat, limit: nat): nat
    requires 1 <= limit
  {
    (n + limit - 1) / limit
  }

  lemma TimesMonotone(a: int, b: int, d: nat)
    requires a <= b
    ensures a * d <= b * d
  {
  }

  lemma QuotientIs(n: nat, d: nat, q: nat)
    requires 1 <= d && q * d <= n < (q + 1) * d
    ensures n / d == q
  {
    var p := n / d;
    assert p * d <= n < (p + 1) * d;
    if p < q { TimesMonotone(p + 1, q, d); }
    if q < p { TimesMonotone(q + 1, p, d); }
  }

  /** Exactly `k` pages of `limit` are needed for `n` rows, and one for none. */
  predicate Needed(k: nat, n: nat, limit: nat) {
    1 <= k && n <= k * limit && (1 < k ==> (k - 1) * limit < n)
  }

  lemma NeededIsCeil(k: nat, n: nat, limit: nat)
    requires 1 <= limit && Needed(k, n, limit)
    ensures k == Max(1, CeilDiv(n, limit))
  {
    if n == 0 {
      if 1 < k { TimesMonotone(1, k - 1, limit); }
      QuotientIs(limit - 1, limit, 0);
    } else {
      QuotientIs(n + limit - 1, limit, k);
    }
  }

  lemma FollowStep(list: seq<Item>, start: nat, end: nat, page: Page, pages: seq<Page>)
    requires start <= end <= |list| && page.items == list[start..end] && AllItems(pages) == list[end..]
    ensures AllItems([page] + pages) == list[start..]
  {
    hide AllItems;
    FirstThenRest(page, pages);
    Stretch(list, start, end);
  }

  lemma FirstThenRest(page: Page, pages: seq<Page>)
    ensures AllItems([page] + pages) == page.items + AllItems(pages)
  {
    assert ([page] + pages)[1..] == pages;
  }

  lemma Stretch(list: seq<Item>, a: nat, b: nat)
    requires a <= b <= |list|
    ensures list[a..b] + list[b..] == list[a..]
  {
  }

  lemma LeftBound(list: seq<Item>, cursor: Option<nat>)
    ensures Left(list, cursor) <= |list|
  {
  }

  /** `pages` are what is left of the list after `left` rows from its end, in as few full pages as possible. */
  predicate Covers(list: seq<Item>, limit: nat, left: nat, pages: seq<Page>) {
    && left <= |list| && AllItems(pages) == list[|list| - left..]
    && Needed(|pages|, left, limit)
    && forall k :: 0 <= k < |pages| - 1 ==> |pages[k].items| == limit
  }

  lemma CoversLast(list: seq<Item>, limit: nat, cursor: Option<nat>)
    requires UniqueIds(list) && 1 <= limit && Left(list, cursor) <= limit
    ensures Covers(list, limit, Left(list, cursor), [PageAt(list, limit, cursor)])
  {
    PageIsNextStretch(list, limit, cursor);
    hide PageAt, Left, UniqueIds;
    OnePage(PageAt(list, limit, cursor));
  }

  lemma CoversStep(list: seq<Item>, limit: nat, cursor: Option<nat>, rest: seq<Page>)
    requires UniqueIds(list) && 1 <= limit < Left(list, cursor)
    requires Covers(list, limit, Left(list, cursor) - limit, rest)
    ensures Covers(list, limit, Left(list, cursor), [PageAt(list, limit, cursor)] + rest)
  {
    hide PageAt, Left, UniqueIds, AllItems, Needed;
    PageIsNextStretch(list, limit, cursor);
    LeftBound(list, cursor);
    var start := |list| - Left(list, cursor);
    FollowStep(list, start, start + limit, PageAt(list, limit, cursor), rest);
    NeededStep(|rest|, Left(list, cursor), limit);
    assert |[PageAt(list, limit, cursor)] + rest| == |rest| + 1;
  }

  lemma FollowUnfolds(list: seq<Item>, limit: nat, cursor: Option<nat>)
    requires UniqueIds(list) && 1 <= limit
    ensures var page := PageAt(list, limit, cursor);
      if Left(list, cursor) <= limit then Follow(list, limit, cursor) == [page]
      else Left(list, page.nextCursor) == Left(list, cursor) - limit
           && Follow(list, limit, cursor) == [page] + Follow(list, limit, page.nextCursor)
  {
    PageIsNextStretch(list, limit, cursor);
    hide PageAt, Left, UniqueIds;
  }

  lemma {:induction false} FollowFrom(list: seq<Item>, limit: nat, cursor: Option<nat>)
    requires UniqueIds(list) && 1 <= limit
    ensures Covers(list, limit, Left(list, cursor), Follow(list, limit, cursor))
    decreases Left(list, cursor)
  {
    FollowUnfolds(list, limit, cursor);
    hide Covers, PageAt, Left, UniqueIds, Follow;
    if Left(list, cursor) <= limit {
      CoversLast(list, limit, cursor);
    } else {
      var next := PageAt(list, limit, cursor).nextCursor;
      FollowFrom(list, limit, next);
      CoversStep(list, limit, cursor, Follow(list, limit, next));
    }
  }

  lemma OnePage(page: Page)
    ensures AllItems([page]) == page.items
  {
    assert AllItems([page]) == page.items + AllItems([page][1..]);
  }

  lemma NeededStep(k: nat, n: nat, limit: nat)
    requires limit < n && Needed(k, n - limit, limit)
    ensures Needed(k + 1, n, limit)
  {
    assert (k + 1) * limit == k * limit + limit;
    assert 1 < k ==> k * limit == (k - 1) * limit + limit;
  }

  /**
   * Following nextCursor over an unchanged list, for any page size, gives every row exactly once in
   * order, in as few pages as that size allows, all but the last of them full.
   */
  lemma {:induction false} PagesCoverTheList(list: seq<Item>, limit: nat)
    requires UniqueIds(list) && 1 <= limit
    ensures var pages := Follow(list, limit, None);
      && AllItems(pages) == list
      && |pages| == Max(1, CeilDiv(|list|, limit))
      && forall k :: 0 <= k < |pages| - 1 ==> |pages[k].items| == limit
  {
    FollowFrom(list, limit, None);
    NeededIsCeil(|Follow(list, limit, None)|, |list|, limit);
  }
}
