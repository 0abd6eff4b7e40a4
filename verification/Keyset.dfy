/** Statement paging by timestamp cursor. SQL promises no order among rows with
    equal timestamps, so a query result is any sequence that ORDER BY timestamp DESC
    LIMIT k allows, and everything here holds for every such choice. */
module Keyset {
  import opened Domain
  import opened Sums

  datatype Txn = Txn(id: nat, acc: AccNo, kind: TxnType, timestamp: Time)

  /** The optional filters of a statement query. */
  datatype Query = Query(acc: Option<AccNo>, from: Option<Time>, to: Option<Time>, kind: Option<TxnType>) {
    predicate Matches(t: Txn) {
      && (acc.Some? ==> t.acc == acc.value)
      && (from.Some? ==> t.timestamp >= from.value)
      && (to.Some? ==> t.timestamp <= to.value)
      && (kind.Some? ==> t.kind == kind.value)
    }
  }

  datatype Page = Page(items: seq<Txn>, cursor: Option<Time>, hasMore: bool)

  /** The rows a query filters out of the table. */
  function Selected(table: set<Txn>, q: Query, cursor: Option<Time>): set<Txn> {
    set t | t in table && q.Matches(t) && (cursor.Some? ==> t.timestamp < cursor.value)
  }

  predicate Descending(s: seq<Txn>) {
    forall i, j :: 0 <= i < j < |s| ==> s[i].timestamp >= s[j].timestamp
  }

  predicate Distinct(s: seq<Txn>) {
    forall i, j :: 0 <= i < j < |s| ==> s[i] != s[j]
  }

  /** ORDER BY timestamp DESC LIMIT k. */
  predicate IsTop(rows: set<Txn>, k: nat, result: seq<Txn>) {
    && Distinct(result) && Descending(result)
    && (forall t :: t in result ==> t in rows)
    && (|result| == k || (|result| < k && forall t :: t in rows ==> t in result))
    && (forall t, i :: t in rows && t !in result && 0 <= i < |result| ==> t.timestamp <= result[i].timestamp)
  }

  /** get_paginated_keyset, given what the database returned for limit + 1 rows. */
  function MakePage(models: seq<Txn>, limit: nat): Page {
    var items := if |models| > limit then models[..limit] else models;
    Page(items, if items != [] then Some(items[|items| - 1].timestamp) else None, |models| > limit)
  }

  ghost predicate IsPage(table: set<Txn>, q: Query, limit: nat, cursor: Option<Time>, page: Page) {
    exists models :: IsTop(Selected(table, q, cursor), limit + 1, models) && page == MakePage(models, limit)
  }

  /** What one page guarantees about the rows it was taken from, whichever of them the
      database put first among equals. */
  ghost predicate PageOk(rows: set<Txn>, limit: nat, page: Page) {
    && Distinct(page.items) && Descending(page.items) && |page.items| <= limit
    && (forall t :: t in page.items ==> t in rows)
    && (page.items == [] <==> page.cursor == None)
    && (page.items != [] ==> page.cursor == Some(page.items[|page.items| - 1].timestamp))
    && (forall t :: t in rows && t !in page.items ==>
          page.hasMore && page.items != [] && t.timestamp <= page.cursor.value)
    && (page.hasMore ==> |page.items| == limit && exists t :: t in rows && t !in page.items)
  }

  lemma FullPage(rows: set<Txn>, limit: nat, models: seq<Txn>)
    requires limit >= 1 && |models| == limit + 1 && IsTop(rows, limit + 1, models)
    ensures PageOk(rows, limit, MakePage(models, limit))
  {
    var page := MakePage(models, limit);
    assert page.items == models[..limit] && page.cursor == Some(models[limit - 1].timestamp);
    assert models[limit] in models && models[limit] !in page.items;
    forall t | t in rows && t !in page.items
      ensures t.timestamp <= models[limit - 1].timestamp
    {
      if t in models {
        var i :| 0 <= i < |models| && models[i] == t;
        assert i == limit;
      }
    }
  }

  lemma PageMeaning(table: set<Txn>, q: Query, limit: nat, cursor: Option<Time>, page: Page)
    requires limit >= 1 && IsPage(table, q, limit, cursor, page)
    ensures PageOk(Selected(table, q, cursor), limit, page)
  {
    hide Selected;
    var models :| IsTop(Selected(table, q, cursor), limit + 1, models) && page == MakePage(models, limit);
    if |models| == limit + 1 {
      FullPage(Selected(table, q, cursor), limit, models);
    }
  }

  /** A page shows rows of the account, dates and kind asked for, and no others. */
  lemma PageShowsOnlyWhatWasAsked(table: set<Txn>, q: Query, limit: nat, cursor: Option<Time>, page: Page, t: Txn)
    requires IsPage(table, q, limit, cursor, page) && t in page.items
    ensures t in table
    ensures q.acc.Some? ==> t.acc == q.acc.value
    ensures q.kind.Some? ==> t.kind == q.kind.value
    ensures q.from.Some? ==> q.from.value <= t.timestamp
    ensures q.to.Some? ==> t.timestamp <= q.to.value
    ensures cursor.Some? ==> t.timestamp < cursor.value
  {
    var models :| IsTop(Selected(table, q, cursor), limit + 1, models) && page == MakePage(models, limit);
    assert t in models;
  }

  /** And every such row is on it, or still to come. */
  lemma PageShowsAllThatWasAsked(table: set<Txn>, q: Query, limit: nat, cursor: Option<Time>, page: Page, t: Txn)
    requires limit >= 1 && IsPage(table, q, limit, cursor, page) && t in table
    requires q.acc.Some? ==> t.acc == q.acc.value
    requires q.kind.Some? ==> t.kind == q.kind.value
    requires q.from.Some? ==> q.from.value <= t.timestamp
    requires q.to.Some? ==> t.timestamp <= q.to.value
    requires cursor.Some? ==> t.timestamp < cursor.value
    ensures t in page.items || (page.hasMore && page.cursor.Some? && t.timestamp <= page.cursor.value)
  {
    PageMeaning(table, q, limit, cursor, page);
    assert t in Selected(table, q, cursor);
  }

  // ---- following cursors while the table grows -----------------------------

  /** Between two fetches only rows at or above the cursor in hand are added. */
  predicate GrowsAbove(before: set<Txn>, after: set<Txn>, cursor: Option<Time>) {
    && before <= after
    && forall t :: t in after && t !in before ==> cursor.Some? && t.timestamp >= cursor.value
  }

  /** `pages` is a client's whole walk: page k is fetched from table k with the cursor
      of page k - 1, and the walk stops at the first page without more. */
  ghost predicate Walk(tables: seq<set<Txn>>, q: Query, limit: nat, cursor: Option<Time>, pages: seq<Page>)
    decreases |pages|
  {
    && |tables| == |pages| >= 1
    && IsPage(tables[0], q, limit, cursor, pages[0])
    && if pages[0].hasMore
       then |pages| > 1 && GrowsAbove(tables[0], tables[1], pages[0].cursor)
            && Walk(tables[1..], q, limit, pages[0].cursor, pages[1..])
       else |pages| == 1
  }

  function Items(pages: seq<Page>): seq<Txn> {
    if pages == [] then [] else pages[0].items + Items(pages[1..])
  }

  /** A row that a walk passes over: it ties with the last row of some page and fell
      beyond that page's limit. */
  predicate Skipped(pages: seq<Page>, t: Txn) {
    exists k :: 0 <= k < |pages| && pages[k].hasMore && pages[k].cursor == Some(t.timestamp) && t !in pages[k].items
  }

  /** New rows do not change what a later page can select. */
  lemma Stable(before: set<Txn>, after: set<Txn>, q: Query, cursor: Option<Time>)
    requires GrowsAbove(before, after, cursor) && cursor.Some?
    ensures Selected(after, q, cursor) == Selected(before, q, cursor)
  {
  }

  lemma JoinDescending(a: seq<Txn>, b: seq<Txn>, cursor: Time)
    requires Distinct(a) && Descending(a) && Distinct(b) && Descending(b)
    requires forall t :: t in a ==> t.timestamp >= cursor
    requires forall t :: t in b ==> t.timestamp < cursor
    ensures Distinct(a + b) && Descending(a + b)
  {
    var c := a + b;
    forall i, j | 0 <= i < j < |c|
      ensures c[i] != c[j] && c[i].timestamp >= c[j].timestamp
    {
      if i < |a| && j >= |a| {
        assert c[i] in a && c[j] in b;
      }
    }
  }

  /** Every complete walk, whatever is appended meanwhile and however ties are ordered:
      its items are rows of the listing as it stood at the first fetch, newest first,
      none twice; and a row of that listing is missing exactly when it was skipped
      as a tie at the end of a page. */
  lemma {:induction false} WalkIsExact(tables: seq<set<Txn>>, q: Query, limit: nat, cursor: Option<Time>, pages: seq<Page>)
    requires limit >= 1 && Walk(tables, q, limit, cursor, pages)
    ensures var rows := Selected(tables[0], q, cursor);
            && Distinct(Items(pages)) && Descending(Items(pages))
            && (forall t :: t in Items(pages) ==> t in rows)
            && (forall t :: t in rows ==> (t !in Items(pages) <==> Skipped(pages, t)))
    decreases |pages|
  {
    var rows, first := Selected(tables[0], q, cursor), pages[0];
    PageMeaning(tables[0], q, limit, cursor, first);
    if !first.hasMore {
      assert Items(pages[1..]) == [] && Items(pages) == first.items;
    } else {
      var rest := pages[1..];
      var later := Selected(tables[1], q, first.cursor);
      WalkIsExact(tables[1..], q, limit, first.cursor, rest);
      Stable(tables[0], tables[1], q, first.cursor);
      LastIsLeast(first.items);
      JoinDescending(first.items, Items(rest), first.cursor.value);
      forall t | t in rows
        ensures t !in Items(pages) <==> Skipped(pages, t)
      {
        SkippedLater(pages, t);
        assert t in later <==> t.timestamp < first.cursor.value;
        if t !in later {
          NotSkippedLater(tables[1..], q, limit, first.cursor, rest, t);
        } else {
          assert t !in first.items;
        }
      }
    }
  }

  /** A whole walk shows rows of the account, dates and kind asked for, and no others. */
  lemma WalkShowsOnlyWhatWasAsked(tables: seq<set<Txn>>, q: Query, limit: nat, pages: seq<Page>, t: Txn)
    requires limit >= 1 && Walk(tables, q, limit, None, pages) && t in Items(pages)
    ensures t in tables[0]
    ensures q.acc.Some? ==> t.acc == q.acc.value
    ensures q.kind.Some? ==> t.kind == q.kind.value
    ensures q.from.Some? ==> q.from.value <= t.timestamp
    ensures q.to.Some? ==> t.timestamp <= q.to.value
  {
    WalkIsExact(tables, q, limit, None, pages);
  }

  /** And every such row, unless it ties with the last row of a page that had no room for it. */
  lemma WalkShowsAllThatWasAsked(tables: seq<set<Txn>>, q: Query, limit: nat, pages: seq<Page>, t: Txn)
    requires limit >= 1 && Walk(tables, q, limit, None, pages) && t in tables[0]
    requires q.acc.Some? ==> t.acc == q.acc.value
    requires q.kind.Some? ==> t.kind == q.kind.value
    requires q.from.Some? ==> q.from.value <= t.timestamp
    requires q.to.Some? ==> t.timestamp <= q.to.value
    ensures t in Items(pages) <==> !Skipped(pages, t)
  {
    WalkIsExact(tables, q, limit, None, pages);
    assert t in Selected(tables[0], q, None);
  }

  lemma LastIsLeast(s: seq<Txn>)
    requires Descending(s) && s != []
    ensures forall t :: t in s ==> t.timestamp >= s[|s| - 1].timestamp
  {
  }

  lemma SkippedLater(pages: seq<Page>, t: Txn)
    requires pages != []
    ensures Skipped(pages, t) <==>
              (pages[0].hasMore && pages[0].cursor == Some(t.timestamp) && t !in pages[0].items) || Skipped(pages[1..], t)
  {
    if Skipped(pages[1..], t) {
      var k :| 0 <= k < |pages[1..]| && pages[1..][k].hasMore && pages[1..][k].cursor == Some(t.timestamp) && t !in pages[1..][k].items;
      assert pages[k + 1] == pages[1..][k];
    }
    if Skipped(pages, t) {
      var k :| 0 <= k < |pages| && pages[k].hasMore && pages[k].cursor == Some(t.timestamp) && t !in pages[k].items;
      if k > 0 {
        assert pages[1..][k - 1] == pages[k];
      }
    }
  }

  /** Cursors fall from page to page, so a row at or above the cursor is never skipped later. */
  lemma {:induction false} NotSkippedLater(tables: seq<set<Txn>>, q: Query, limit: nat, cursor: Option<Time>, pages: seq<Page>, t: Txn)
    requires limit >= 1 && Walk(tables, q, limit, cursor, pages) && cursor.Some? && t.timestamp >= cursor.value
    ensures !Skipped(pages, t)
    decreases |pages|
  {
    PageMeaning(tables[0], q, limit, cursor, pages[0]);
    SkippedLater(pages, t);
    if pages[0].hasMore {
      assert pages[0].items[|pages[0].items| - 1] in Selected(tables[0], q, cursor);
      NotSkippedLater(tables[1..], q, limit, pages[0].cursor, pages[1..], t);
    }
  }

  /** A client that is still being told there is more: every page so far has promised
      another, and the tables have only grown above the cursors. */
  ghost predicate Chain(tables: seq<set<Txn>>, q: Query, limit: nat, cursor: Option<Time>, pages: seq<Page>)
    decreases |pages|
  {
    && |tables| == |pages|
    && (pages != [] ==>
          && IsPage(tables[0], q, limit, cursor, pages[0]) && pages[0].hasMore
          && (|pages| > 1 ==> GrowsAbove(tables[0], tables[1], pages[0].cursor))
          && Chain(tables[1..], q, limit, pages[0].cursor, pages[1..]))
  }

  /** The rows of a page and the rows below its cursor are different rows of the listing. */
  lemma PageLeavesFewer(table: set<Txn>, q: Query, limit: nat, cursor: Option<Time>, page: Page)
    requires limit >= 1 && IsPage(table, q, limit, cursor, page) && page.hasMore
    ensures page.cursor.Some?
    ensures |Selected(table, q, cursor)| > limit
    ensures |Selected(table, q, cursor)| >= limit + |Selected(table, q, page.cursor)|
  {
    var rows, shown := Selected(table, q, cursor), Elements(page.items);
    PageMeaning(table, q, limit, cursor, page);
    LastIsLeast(page.items);
    BelowCursor(table, q, cursor, page);
    ElementCount(page.items);
    var later := Selected(table, q, page.cursor);
    ProperSubsetSize(shown, rows);
    assert shown !! later;
    SubsetSize(shown + later, rows);
  }

  /** Following cursors terminates, whatever is appended meanwhile: a client that has seen
      n pages and is promised another has at least n * limit rows behind it and one more
      to come, all of them in the listing of the first fetch. */
  lemma {:induction false} FollowingTerminates(tables: seq<set<Txn>>, q: Query, limit: nat, cursor: Option<Time>, pages: seq<Page>)
    requires limit >= 1 && pages != [] && Chain(tables, q, limit, cursor, pages)
    ensures |pages| * limit < |Selected(tables[0], q, cursor)|
    decreases |pages|
  {
    hide Selected, IsPage, GrowsAbove;
    PageLeavesFewer(tables[0], q, limit, cursor, pages[0]);
    if |pages| > 1 {
      Stable(tables[0], tables[1], q, pages[0].cursor);
      FollowingTerminates(tables[1..], q, limit, pages[0].cursor, pages[1..]);
      OneMore(|pages| - 1, limit);
    }
  }

  /** From any table and any cursor there is a complete walk. */
  lemma {:induction false} WalkExists(table: set<Txn>, q: Query, limit: nat, cursor: Option<Time>)
    returns (tables: seq<set<Txn>>, pages: seq<Page>)
    requires limit >= 1
    ensures Walk(tables, q, limit, cursor, pages) && tables[0] == table
    decreases |Selected(table, q, cursor)|
  {
    hide IsPage, Selected;
    var page := PageExists(table, q, limit, cursor);
    if page.hasMore {
      PageLeavesFewer(table, q, limit, cursor, page);
      var rest, more := WalkExists(table, q, limit, page.cursor);
      tables, pages := [table] + rest, [page] + more;
      assert tables[1..] == rest && pages[1..] == more;
    } else {
      tables, pages := [table], [page];
    }
  }

  /** Every page of a walk but the last is full. */
  lemma {:induction false} WalkLength(tables: seq<set<Txn>>, q: Query, limit: nat, cursor: Option<Time>, pages: seq<Page>)
    requires limit >= 1 && Walk(tables, q, limit, cursor, pages)
    ensures (|pages| - 1) * limit <= |Items(pages)| <= |pages| * limit
    decreases |pages|
  {
    hide Selected, IsPage;
    PageMeaning(tables[0], q, limit, cursor, pages[0]);
    if pages[0].hasMore {
      WalkLength(tables[1..], q, limit, pages[0].cursor, pages[1..]);
      OneMore(|pages| - 2, limit);
      OneMore(|pages| - 1, limit);
    } else {
      assert Items(pages[1..]) == [];
    }
  }

  lemma OneMore(n: int, limit: nat)
    ensures (n + 1) * limit == n * limit + limit
  {
  }

  // ---- the plain listing ---------------------------------------------------

  /** All rows of a query, newest first. */
  ghost predicate IsListing(rows: set<Txn>, listing: seq<Txn>) {
    Distinct(listing) && Descending(listing) && forall t :: t in listing <==> t in rows
  }

  predicate DistinctTimes(rows: set<Txn>) {
    forall a, b :: a in rows && b in rows && a.timestamp == b.timestamp ==> a == b
  }

  /** get_paginated: page number `page` of `perPage` rows, by offset. */
  function OffsetPage(listing: seq<Txn>, page: nat, perPage: nat): seq<Txn>
    requires page >= 1
  {
    var from := (page - 1) * perPage;
    if from >= |listing| then []
    else if from + perPage <= |listing| then listing[from..from + perPage]
    else listing[from..]
  }

  lemma {:induction false} ListingUnique(rows: set<Txn>, a: seq<Txn>, b: seq<Txn>)
    requires DistinctTimes(rows) && IsListing(rows, a) && IsListing(rows, b)
    ensures a == b
    decreases |a|
  {
    if a == [] {
      if b != [] { ListingHasRows(rows, b); }
    } else {
      assert a[0] in rows && a[0] in b;
      assert b[0] in rows && b[0] in a;
      assert a[0].timestamp >= b[0].timestamp >= a[0].timestamp by {
        var i :| 0 <= i < |b| && b[i] == a[0];
        var j :| 0 <= j < |a| && a[j] == b[0];
      }
      assert a[0] == b[0];
      TailListing(rows, a);
      TailListing(rows, b);
      ListingUnique(rows - {a[0]}, a[1..], b[1..]);
    }
  }

  lemma ListingHasRows(rows: set<Txn>, s: seq<Txn>)
    requires IsListing(rows, s) && s != []
    ensures rows != {}
  {
    assert s[0] in rows;
  }

  lemma TailListing(rows: set<Txn>, s: seq<Txn>)
    requires IsListing(rows, s) && s != []
    ensures IsListing(rows - {s[0]}, s[1..])
  {
    forall t
      ensures t in s[1..] <==> t in rows - {s[0]}
    {
      if t in rows - {s[0]} {
        var i :| 0 <= i < |s| && s[i] == t;
        assert s[1..][i - 1] == t;
      }
      if t in s[1..] {
        var i :| 0 <= i < |s[1..]| && s[1..][i] == t;
        assert s[i + 1] == t;
      }
    }
  }

  function Elements(s: seq<Txn>): set<Txn> {
    set t | t in s
  }

  lemma {:induction false} ElementCount(s: seq<Txn>)
    requires Distinct(s)
    ensures |Elements(s)| == |s|
  {
    if s != [] {
      ElementCount(s[1..]);
      assert Elements(s) == Elements(s[1..]) + {s[0]};
    }
  }

  /** A full page takes the listing's first rows, up to the choice among ties at its
      end; so its cursor is the listing's timestamp there. */
  lemma CursorOnListing(rows: set<Txn>, listing: seq<Txn>, limit: nat, page: Page)
    requires limit >= 1 && IsListing(rows, listing) && PageOk(rows, limit, page) && page.hasMore
    ensures |listing| > limit && page.cursor == Some(listing[limit - 1].timestamp)
  {
    ListingIsLonger(rows, listing, page.items);
    CursorNotAbove(listing, page.items, limit);
    CursorNotBelow(listing, page.items, limit);
  }

  lemma ListingIsLonger(rows: set<Txn>, listing: seq<Txn>, items: seq<Txn>)
    requires IsListing(rows, listing) && Distinct(items)
    requires (forall t :: t in items ==> t in rows) && exists t :: t in rows && t !in items
    ensures |listing| > |items|
    ensures forall t :: t in items ==> t in listing
  {
    ElementCount(items);
    ElementCount(listing);
    assert Elements(listing) == rows;
    ProperSubsetSize(Elements(items), rows);
  }

  lemma CursorNotAbove(listing: seq<Txn>, items: seq<Txn>, limit: nat)
    requires 1 <= limit <= |listing| && Distinct(listing) && Descending(listing)
    requires |items| == limit && Distinct(items) && Descending(items) && forall t :: t in items ==> t in listing
    ensures items[limit - 1].timestamp <= listing[limit - 1].timestamp
  {
    if items[limit - 1].timestamp > listing[limit - 1].timestamp {
      LastIsLeast(items);
      AboveIsEarlier(listing, items, limit);
      ElementCount(items);
      ElementCount(listing[..limit - 1]);
      SubsetSize(Elements(items), Elements(listing[..limit - 1]));
    }
  }

  lemma CursorNotBelow(listing: seq<Txn>, items: seq<Txn>, limit: nat)
    requires 1 <= limit <= |listing| && Distinct(listing) && Descending(listing)
    requires |items| == limit && Distinct(items)
    requires forall t :: t in listing && t !in items ==> t.timestamp <= items[limit - 1].timestamp
    ensures items[limit - 1].timestamp >= listing[limit - 1].timestamp
  {
    var last, head := items[limit - 1], listing[..limit];
    if last.timestamp < listing[limit - 1].timestamp {
      forall t | t in Elements(head)
        ensures t in Elements(items) - {last}
      {
        var i :| 0 <= i < limit && listing[i] == t;
        assert t in listing;
      }
      ElementCount(items);
      ElementCount(head);
      SubsetSize(Elements(head), Elements(items) - {last});
    }
  }

  lemma ProperSubsetSize(a: set<Txn>, b: set<Txn>)
    requires a < b
    ensures |a| < |b|
  {
    SubsetSize(a, b);
  }

  lemma AboveIsEarlier(listing: seq<Txn>, items: seq<Txn>, limit: nat)
    requires 1 <= limit <= |listing| && Descending(listing)
    requires forall t :: t in items ==> t in listing && t.timestamp > listing[limit - 1].timestamp
    ensures Elements(items) <= Elements(listing[..limit - 1])
  {
    forall t | t in items
      ensures t in listing[..limit - 1]
    {
      var i :| 0 <= i < |listing| && listing[i] == t;
      assert listing[..limit - 1][i] == t;
    }
  }

  /** No tie lies across the end of a page of the listing. */
  predicate CleanCuts(listing: seq<Txn>, limit: nat)
    requires limit >= 1
    decreases |listing|
  {
    |listing| <= limit
    || (listing[limit - 1].timestamp > listing[limit].timestamp && CleanCuts(listing[limit..], limit))
  }

  /** At a clean cut the page is the listing's head and the rows below the cursor are its tail. */
  lemma CleanCut(rows: set<Txn>, listing: seq<Txn>, limit: nat, page: Page, later: set<Txn>)
    requires limit >= 1 && IsListing(rows, listing) && PageOk(rows, limit, page) && page.hasMore
    requires |listing| > limit && page.cursor == Some(listing[limit - 1].timestamp)
    requires listing[limit - 1].timestamp > listing[limit].timestamp
    requires later == set t | t in rows && t.timestamp < page.cursor.value
    ensures Elements(page.items) == Elements(listing[..limit]) && IsListing(later, listing[limit..])
  {
    HeadOfListing(rows, listing, limit, page.items);
    TailOfListing(rows, listing, limit, later);
  }

  lemma HeadOfListing(rows: set<Txn>, listing: seq<Txn>, limit: nat, items: seq<Txn>)
    requires 1 <= limit < |listing| && IsListing(rows, listing)
    requires listing[limit - 1].timestamp > listing[limit].timestamp
    requires |items| == limit && Distinct(items) && Descending(items) && items[limit - 1].timestamp == listing[limit - 1].timestamp
    requires forall t :: t in items ==> t in rows
    ensures Elements(items) == Elements(listing[..limit])
  {
    var head := listing[..limit];
    LastIsLeast(items);
    forall t | t in items
      ensures t in head
    {
      assert t in listing;
      var i :| 0 <= i < |listing| && listing[i] == t;
      assert i < limit;
      assert head[i] == t;
    }
    ElementCount(items);
    ElementCount(head);
    SubsetSize(Elements(items), Elements(head));
  }

  lemma TailOfListing(rows: set<Txn>, listing: seq<Txn>, limit: nat, later: set<Txn>)
    requires 1 <= limit < |listing| && IsListing(rows, listing)
    requires listing[limit - 1].timestamp > listing[limit].timestamp
    requires later == set t | t in rows && t.timestamp < listing[limit - 1].timestamp
    ensures IsListing(later, listing[limit..])
  {
    var tail := listing[limit..];
    assert forall i :: 0 <= i < |tail| ==> tail[i] == listing[limit + i];
    forall t
      ensures t in tail <==> t in later
    {
      if t in later {
        assert t in listing;
        var i :| 0 <= i < |listing| && listing[i] == t;
        assert i >= limit;
        assert tail[i - limit] == t;
      }
      if t in tail {
        var i :| 0 <= i < |tail| && tail[i] == t;
        assert t == listing[limit + i];
      }
    }
  }

  /** At a tied cut some row is left behind: more rows reach the cursor than fit the page. */
  lemma TiedCut(rows: set<Txn>, listing: seq<Txn>, limit: nat, page: Page) returns (t: Txn)
    requires limit >= 1 && IsListing(rows, listing) && PageOk(rows, limit, page) && page.hasMore
    requires |listing| > limit && page.cursor == Some(listing[limit - 1].timestamp)
    requires listing[limit - 1].timestamp == listing[limit].timestamp
    ensures t in rows && t !in page.items && page.cursor == Some(t.timestamp)
  {
    var head := listing[..limit + 1];
    ElementCount(page.items);
    ElementCount(head);
    if Elements(head) <= Elements(page.items) {
      SubsetSize(Elements(head), Elements(page.items));
    }
    t :| t in Elements(head) && t !in Elements(page.items);
    var i :| 0 <= i <= limit && listing[i] == t;
    assert t.timestamp >= listing[limit].timestamp;
    assert t in listing;
  }

  /** Every complete walk, however ties are ordered and whatever is appended meanwhile,
      shows the whole listing of the first fetch exactly when no tie lies across the end
      of one of its pages. */
  lemma {:induction false} CompleteExactlyWhenCutsAreClean(tables: seq<set<Txn>>, q: Query, limit: nat, cursor: Option<Time>,
                                                           pages: seq<Page>, listing: seq<Txn>)
    requires limit >= 1 && Walk(tables, q, limit, cursor, pages)
    requires IsListing(Selected(tables[0], q, cursor), listing)
    ensures (forall t :: t in listing ==> t in Items(pages)) <==> CleanCuts(listing, limit)
    decreases |pages|
  {
    hide Selected, PageOk, IsListing, IsPage, GrowsAbove, CleanCuts;
    var rows, first := Selected(tables[0], q, cursor), pages[0];
    PageMeaning(tables[0], q, limit, cursor, first);
    if !first.hasMore {
      LastPageComplete(rows, listing, limit, first);
      assert Items(pages) == first.items + [];
    } else {
      CursorOnListing(rows, listing, limit, first);
      if listing[limit - 1].timestamp > listing[limit].timestamp {
        CompleteExactlyWhenCutsAreClean(tables[1..], q, limit, first.cursor, pages[1..], listing[limit..]) by {
          AfterCleanCut(tables, q, limit, cursor, pages, listing);
        }
        AfterCleanCut(tables, q, limit, cursor, pages, listing);
      } else {
        AtTiedCut(tables, q, limit, cursor, pages, listing);
      }
    }
  }

  lemma LastPageComplete(rows: set<Txn>, listing: seq<Txn>, limit: nat, page: Page)
    requires limit >= 1 && IsListing(rows, listing) && PageOk(rows, limit, page) && !page.hasMore
    ensures (forall t :: t in listing ==> t in page.items) && CleanCuts(listing, limit)
  {
    ElementCount(page.items);
    ElementCount(listing);
    assert Elements(page.items) == rows == Elements(listing);
  }

  lemma AfterCleanCut(tables: seq<set<Txn>>, q: Query, limit: nat, cursor: Option<Time>, pages: seq<Page>, listing: seq<Txn>)
    requires limit >= 1 && Walk(tables, q, limit, cursor, pages) && pages[0].hasMore
    requires IsListing(Selected(tables[0], q, cursor), listing) && PageOk(Selected(tables[0], q, cursor), limit, pages[0])
    requires |listing| > limit && pages[0].cursor == Some(listing[limit - 1].timestamp)
    requires listing[limit - 1].timestamp > listing[limit].timestamp
    ensures IsListing(Selected(tables[1], q, pages[0].cursor), listing[limit..])
    ensures CleanCuts(listing, limit) <==> CleanCuts(listing[limit..], limit)
    ensures (forall t :: t in listing ==> t in Items(pages))
            <==> (forall t :: t in listing[limit..] ==> t in Items(pages[1..]))
  {
    hide IsPage;
    var first := pages[0];
    var rows, later := Selected(tables[0], q, cursor), Selected(tables[1], q, first.cursor);
    Stable(tables[0], tables[1], q, first.cursor);
    BelowCursor(tables[0], q, cursor, first);
    CleanCut(rows, listing, limit, first, later);
    WalkIsExact(tables[1..], q, limit, first.cursor, pages[1..]);
    SplitItems(listing, limit, first.items, Items(pages[1..]));
  }

  lemma AtTiedCut(tables: seq<set<Txn>>, q: Query, limit: nat, cursor: Option<Time>, pages: seq<Page>, listing: seq<Txn>)
    requires limit >= 1 && Walk(tables, q, limit, cursor, pages) && pages[0].hasMore
    requires IsListing(Selected(tables[0], q, cursor), listing) && PageOk(Selected(tables[0], q, cursor), limit, pages[0])
    requires |listing| > limit && pages[0].cursor == Some(listing[limit - 1].timestamp)
    requires listing[limit - 1].timestamp <= listing[limit].timestamp
    ensures !CleanCuts(listing, limit) && !(forall t :: t in listing ==> t in Items(pages))
  {
    hide IsPage;
    var t := TiedCut(Selected(tables[0], q, cursor), listing, limit, pages[0]);
    WalkIsExact(tables, q, limit, cursor, pages);
    assert Skipped(pages, t);
    assert t in listing && t !in Items(pages);
  }

  lemma BelowCursor(table: set<Txn>, q: Query, cursor: Option<Time>, page: Page)
    requires page.items != [] && page.cursor == Some(page.items[|page.items| - 1].timestamp)
    requires forall t :: t in page.items ==> t in Selected(table, q, cursor)
    ensures Selected(table, q, page.cursor) == set t | t in Selected(table, q, cursor) && t.timestamp < page.cursor.value
  {
    assert page.items[|page.items| - 1] in Selected(table, q, cursor);
  }

  lemma SplitItems(listing: seq<Txn>, limit: nat, first: seq<Txn>, rest: seq<Txn>)
    requires 1 <= limit < |listing| && Distinct(listing) && Elements(first) == Elements(listing[..limit])
    requires forall t :: t in rest ==> t in listing[limit..]
    ensures (forall t :: t in listing ==> t in first + rest) <==> (forall t :: t in listing[limit..] ==> t in rest)
  {
    var head, tail := listing[..limit], listing[limit..];
    assert listing == head + tail;
    assert forall t :: t in first <==> t in Elements(first);
    assert forall t :: t in head <==> t in Elements(head);
    forall t | t in tail
      ensures t in listing && t !in first
    {
      var i :| 0 <= i < |tail| && tail[i] == t;
      assert listing[limit + i] == t;
      assert forall j :: 0 <= j < limit ==> head[j] == listing[j];
    }
  }

  lemma {:induction false} DistinctTimesCutCleanly(rows: set<Txn>, listing: seq<Txn>, limit: nat)
    requires limit >= 1 && IsListing(rows, listing) && DistinctTimes(rows)
    ensures CleanCuts(listing, limit)
    decreases |listing|
  {
    if |listing| > limit {
      assert listing[limit - 1] in rows && listing[limit] in rows;
      var tail := listing[limit..];
      assert forall i :: 0 <= i < |tail| ==> tail[i] == listing[limit + i];
      forall t | t in tail
        ensures t in rows
      {
        var i :| 0 <= i < |tail| && tail[i] == t;
        assert t in listing;
      }
      DistinctTimesCutCleanly(Elements(tail), tail, limit);
    }
  }

  /** With distinct timestamps the concatenated pages are the listing as it stood at
      the first fetch, whatever was appended meanwhile. */
  lemma WalkIsListing(tables: seq<set<Txn>>, q: Query, limit: nat, pages: seq<Page>, listing: seq<Txn>)
    requires limit >= 1 && Walk(tables, q, limit, None, pages)
    requires DistinctTimes(Selected(tables[0], q, None)) && IsListing(Selected(tables[0], q, None), listing)
    ensures Items(pages) == listing
  {
    var rows := Selected(tables[0], q, None);
    WalkIsExact(tables, q, limit, None, pages);
    DistinctTimesCutCleanly(rows, listing, limit);
    CompleteExactlyWhenCutsAreClean(tables, q, limit, None, pages, listing);
    ListingUnique(rows, Items(pages), listing);
  }

  /** The two rows of one transfer carry the same timestamp: listed together, one row
      to a page, one of them is never shown. */
  lemma TransferRowsCanBeLost(out: Txn, into: Txn, pages: seq<Page>, tables: seq<set<Txn>>)
    requires out.timestamp == into.timestamp && out.id != into.id
    requires Walk(tables, Query(None, None, None, None), 1, None, pages) && tables[0] == {out, into}
    ensures out !in Items(pages) || into !in Items(pages)
  {
    var q, listing := Query(None, None, None, None), [out, into];
    assert Selected(tables[0], q, None) == {out, into};
    assert IsListing({out, into}, listing);
    CompleteExactlyWhenCutsAreClean(tables, q, 1, None, pages, listing);
  }

  /** Page k of the walk is page k of the offset form over that listing. */
  lemma WalkMatchesOffsets(tables: seq<set<Txn>>, q: Query, limit: nat, pages: seq<Page>, listing: seq<Txn>, k: nat)
    requires limit >= 1 && Walk(tables, q, limit, None, pages) && k < |pages|
    requires DistinctTimes(Selected(tables[0], q, None)) && IsListing(Selected(tables[0], q, None), listing)
    ensures pages[k].items == OffsetPage(listing, k + 1, limit)
  {
    WalkIsListing(tables, q, limit, pages, listing);
    PageIsSlice(tables, q, limit, None, pages, k);
  }

  lemma {:induction false} PageIsSlice(tables: seq<set<Txn>>, q: Query, limit: nat, cursor: Option<Time>, pages: seq<Page>, k: nat)
    requires limit >= 1 && Walk(tables, q, limit, cursor, pages) && k < |pages|
    ensures pages[k].items == OffsetPage(Items(pages), k + 1, limit)
    decreases |pages|
  {
    PageMeaning(tables[0], q, limit, cursor, pages[0]);
    var first, rest := pages[0].items, Items(pages[1..]);
    if k == 0 {
      if !pages[0].hasMore {
        assert rest == [];
      }
      FirstOffsetPage(first, rest, limit);
    } else {
      PageIsSlice(tables[1..], q, limit, pages[0].cursor, pages[1..], k - 1);
      NextOffsetPage(first, rest, k, limit);
    }
  }

  lemma FirstOffsetPage(first: seq<Txn>, rest: seq<Txn>, limit: nat)
    requires limit >= 1 && (|first| == limit || (|first| <= limit && rest == []))
    ensures OffsetPage(first + rest, 1, limit) == first
  {
  }

  lemma NextOffsetPage(first: seq<Txn>, rest: seq<Txn>, page: nat, limit: nat)
    requires page >= 1 && |first| == limit
    ensures OffsetPage(first + rest, page + 1, limit) == OffsetPage(rest, page, limit)
  {
    var all, from := first + rest, (page - 1) * limit;
    assert page * limit == from + limit;
    assert from >= 0;
    if from + limit <= |rest| {
      assert all[from + limit..from + limit + limit] == rest[from..from + limit];
    } else if from < |rest| {
      assert all[from + limit..] == rest[from..];
    }
  }

  // ---- pages exist, and a limit of zero never gets anywhere ----------------

  lemma {:induction false} TopExists(rows: set<Txn>, k: nat) returns (result: seq<Txn>)
    ensures IsTop(rows, k, result)
    decreases k
  {
    if k == 0 || rows == {} {
      result := [];
    } else {
      var newest := Newest(rows);
      var rest := TopExists(rows - {newest}, k - 1);
      result := [newest] + rest;
      assert forall i :: 0 <= i < |rest| ==> rest[i] in rest;
    }
  }

  lemma {:induction false} Newest(rows: set<Txn>) returns (t: Txn)
    requires rows != {}
    ensures t in rows && forall u :: u in rows ==> u.timestamp <= t.timestamp
    decreases |rows|
  {
    t :| t in rows;
    if rows != {t} {
      var u := Newest(rows - {t});
      if u.timestamp > t.timestamp {
        t := u;
      }
    }
  }

  /** The next fetch always has an answer. */
  lemma PageExists(table: set<Txn>, q: Query, limit: nat, cursor: Option<Time>) returns (page: Page)
    ensures IsPage(table, q, limit, cursor, page)
  {
    var models := TopExists(Selected(table, q, cursor), limit + 1);
    page := MakePage(models, limit);
  }

  /** At a limit of zero, which the API forbids, a client with rows to see is told
      there is more and handed back no cursor: it starts over for ever. At any other
      limit a page that promises more hands on a lower cursor. */
  lemma ProgressNeedsALimit(table: set<Txn>, q: Query, limit: nat, cursor: Option<Time>, page: Page)
    requires IsPage(table, q, limit, cursor, page) && page.hasMore
    ensures limit == 0 <==> page.cursor == None
    ensures limit >= 1 && cursor.Some? ==> page.cursor.value < cursor.value
  {
    var models :| IsTop(Selected(table, q, cursor), limit + 1, models) && page == MakePage(models, limit);
    if limit >= 1 {
      assert models[limit - 1] in models;
    }
  }
}
