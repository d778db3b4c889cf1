/** Forward cursor pagination over a project's items, following the GraphQL Cursor
    Connections Specification (section 4.1, forward pagination arguments `first`/`after`;
    section 5, `PageInfo` with `hasNextPage` and `endCursor`). The server is the sequence
    of page responses it gives, in order; the loop keeps asking while the last page said
    there is a next one, and passes the last `endCursor` on. */
module Pagination {
  import opened Wrappers
  import opened JsLib

  /** One `items` connection response: its nodes and its `pageInfo`. */
  datatype Page<T> = Page(nodes: seq<T>, hasNextPage: bool, endCursor: Option<string>)

  /** A finished pagination: every node read, in order, and the `cursor` argument of each
      items query made, in order. */
  datatype Fetch<T> = Fetch(items: seq<T>, cursors: seq<Option<string>>)

  /** The nodes of the pages, page after page. */
  function Flatten<T>(pages: seq<Page<T>>): seq<T> {
    if pages == [] then [] else Flatten(pages[..|pages| - 1]) + pages[|pages| - 1].nodes
  }

  lemma {:induction false} FlattenAppend<T>(a: seq<Page<T>>, b: seq<Page<T>>)
    ensures Flatten(a + b) == Flatten(a) + Flatten(b)
    decreases |b|
  {
    if b == [] {
      assert a + b == a;
    } else {
      var b' := b[..|b| - 1];
      assert (a + b)[..|a + b| - 1] == a + b';
      FlattenAppend(a, b');
    }
  }

  lemma FlattenSnoc<T>(pages: seq<Page<T>>, p: Page<T>)
    ensures Flatten(pages + [p]) == Flatten(pages) + p.nodes
  {
    assert (pages + [p])[..|pages|] == pages;
  }

  /** The number of nodes on the pages. */
  function NodeCount<T>(pages: seq<Page<T>>): nat {
    if pages == [] then 0 else NodeCount(pages[..|pages| - 1]) + |pages[|pages| - 1].nodes|
  }

  lemma {:induction false} FlattenLength<T>(pages: seq<Page<T>>)
    ensures |Flatten(pages)| == NodeCount(pages)
  {
    if pages != [] {
      FlattenLength(pages[..|pages| - 1]);
    }
  }

  /** `!pageInfo.hasNextPage`: the page that ends the loop. */
  predicate IsFinal<T>(p: Page<T>) {
    !p.hasNextPage
  }

  /** Where the loop stops: the first page that reports no next page. */
  function FinalPage<T>(pages: seq<Page<T>>): (r: Option<nat>)
    ensures r.Some? <==> exists j :: 0 <= j < |pages| && IsFinal(pages[j])
    ensures r.Some? ==> r.value < |pages| && IsFinal(pages[r.value])
                        && forall j :: 0 <= j < r.value ==> !IsFinal(pages[j])
  {
    FindIndex(pages, IsFinal)
  }

  /** The `cursor` argument of query `j` (from 0): `null` first, then, when the loop threads
      the cursor, the `endCursor` of the page before. The loops that always pass `null`
      have `thread` false. */
  function CursorArg<T>(pages: seq<Page<T>>, j: nat, thread: bool): Option<string>
    requires j <= |pages|
  {
    if j == 0 || !thread then None else pages[j - 1].endCursor
  }

  /** The cursor arguments of the first `m` items queries. */
  function CursorLog<T>(pages: seq<Page<T>>, m: nat, thread: bool): (r: seq<Option<string>>)
    requires m <= |pages|
    ensures |r| == m
  {
    if m == 0 then [] else CursorLog(pages, m - 1, thread) + [CursorArg(pages, m - 1, thread)]
  }

  /** What the `while (hasNextPage)` loop produces: the nodes of every page up to the final
      one and one query per page read. A server that never reports a final page runs out
      of responses; the next query then yields no response and reading `node` from it
      fails with a `TypeError`. */
  function Paginate<T>(pages: seq<Page<T>>, thread: bool): Result<Fetch<T>> {
    match FinalPage(pages)
    case Some(k) => Success(Fetch(Flatten(pages[..k + 1]), CursorLog(pages, k + 1, thread)))
    case None => Failure(TypeError)
  }

  /** The loop itself: `allItems.push(...items.nodes)`, `hasNextPage = pageInfo.hasNextPage`,
      `cursor = pageInfo.endCursor`, over a server that answers query `k` with `pages[k]`. */
  method PaginateItems<T>(pages: seq<Page<T>>, thread: bool) returns (r: Result<Fetch<T>>)
    ensures r == Paginate(pages, thread)
  {
    var allItems: seq<T> := [];
    var hasNextPage := true;
    var cursor: Option<string> := None;
    var cursors: seq<Option<string>> := [];
    var k := 0;
    while hasNextPage
      invariant 0 <= k <= |pages|
      invariant hasNextPage <==> forall j :: 0 <= j < k ==> !IsFinal(pages[j])
      invariant !hasNextPage ==> k > 0 && IsFinal(pages[k - 1])
                                 && forall j :: 0 <= j < k - 1 ==> !IsFinal(pages[j])
      invariant allItems == Flatten(pages[..k])
      invariant cursors == CursorLog(pages, k, thread)
      invariant cursor == CursorArg(pages, k, thread)
      decreases |pages| - k
    {
      if k == |pages| {
        assert FinalPage(pages).None?;
        r := Failure(TypeError);
        return;
      }
      cursors := cursors + [cursor];
      var page := pages[k];
      assert pages[..k + 1][..k] == pages[..k];
      allItems := allItems + page.nodes;
      hasNextPage := page.hasNextPage;
      if thread {
        cursor := page.endCursor;
      }
      k := k + 1;
    }
    assert FinalPage(pages) == Some(k - 1);
    r := Success(Fetch(allItems, cursors));
  }

  /** The first query passes `null`; query `j > 0` passes page `j - 1`'s `endCursor` when the
      cursor is threaded, and `null` otherwise. */
  lemma {:induction false} CursorLogEntries<T>(pages: seq<Page<T>>, m: nat, thread: bool)
    requires m <= |pages|
    ensures m > 0 ==> CursorLog(pages, m, thread)[0] == None
    ensures forall j :: 0 < j < m ==>
              CursorLog(pages, m, thread)[j] == if thread then pages[j - 1].endCursor else None
  {
    if m > 0 {
      CursorLogEntries(pages, m - 1, thread);
    }
  }

  /** A server whose pages all report a next page except the last one. */
  predicate WellFormedServer<T>(pages: seq<Page<T>>) {
    pages != [] && IsFinal(pages[|pages| - 1]) && forall j :: 0 <= j < |pages| - 1 ==> !IsFinal(pages[j])
  }

  /** On a well-formed server every node is read, in server order, with one items query
      per page. */
  lemma {:induction false} PaginateComplete<T>(pages: seq<Page<T>>, thread: bool)
    requires WellFormedServer(pages)
    ensures Paginate(pages, thread) == Success(Fetch(Flatten(pages), CursorLog(pages, |pages|, thread)))
    ensures |Paginate(pages, thread).value.items| == NodeCount(pages)
    ensures |Paginate(pages, thread).value.cursors| == |pages|
  {
    assert FinalPage(pages) == Some(|pages| - 1);
    assert pages[..|pages|] == pages;
    FlattenLength(pages);
  }

  /** Only `hasNextPage` decides when to stop: pages after the first final page are never
      asked for, whatever its `endCursor` says. */
  lemma {:induction false} PaginateIgnoresLaterPages<T>(pages: seq<Page<T>>, more: seq<Page<T>>, thread: bool)
    requires WellFormedServer(pages)
    ensures Paginate(pages + more, thread) == Paginate(pages, thread)
  {
    var all := pages + more;
    var k := |pages| - 1;
    assert all[k] == pages[k];
    assert forall j :: 0 <= j < k ==> all[j] == pages[j];
    assert FinalPage(all) == Some(k);
    assert FinalPage(pages) == Some(k);
    assert all[..k + 1] == pages[..k + 1];
    CursorLogPrefix(pages, all, k + 1, thread);
  }

  /** The cursor log depends only on the pages already read. */
  lemma {:induction false} CursorLogPrefix<T>(a: seq<Page<T>>, b: seq<Page<T>>, m: nat, thread: bool)
    requires m <= |a| && m <= |b| && a[..m] == b[..m]
    ensures CursorLog(a, m, thread) == CursorLog(b, m, thread)
  {
    if m > 0 {
      assert a[..m - 1] == a[..m][..m - 1] && b[..m - 1] == b[..m][..m - 1];
      assert m >= 2 ==> a[m - 2] == a[..m][m - 2] == b[..m][m - 2] == b[m - 2];
      CursorLogPrefix(a, b, m - 1, thread);
    }
  }

  /** Two servers that report the same `hasNextPage` flags stop after the same page, or both
      run out of responses. */
  lemma {:induction false} SameFlagsSameLength<T>(a: seq<Page<T>>, b: seq<Page<T>>, thread: bool)
    requires |a| == |b| && forall j :: 0 <= j < |a| ==> a[j].hasNextPage == b[j].hasNextPage
    ensures Paginate(a, thread).Success? <==> Paginate(b, thread).Success?
    ensures Paginate(a, thread).Success? ==>
              |Paginate(a, thread).value.cursors| == |Paginate(b, thread).value.cursors|
  {
    assert forall j :: 0 <= j < |a| ==> (IsFinal(a[j]) <==> IsFinal(b[j]));
    match FinalPage(a)
    case None =>
    case Some(k) =>
      assert FinalPage(b) == Some(k);
  }

  // ---------------------------------------------------------------------------
  // The scenarios the pagination loops are exercised with
  // ---------------------------------------------------------------------------

  /** Two pages, the first with a next page: both are read, and the second query carries
      the first page's cursor. */
  lemma TwoPages<T>(a: seq<T>, b: seq<T>, c: Option<string>, last: Option<string>)
    ensures Paginate([Page(a, true, c), Page(b, false, last)], true) == Success(Fetch(a + b, [None, c]))
  {
    var pages := [Page(a, true, c), Page(b, false, last)];
    PaginateComplete(pages, true);
    FlattenSnoc([], pages[0]);
    assert [pages[0]] + [pages[1]] == pages;
    FlattenSnoc([pages[0]], pages[1]);
    assert [] + a == a;
    CursorLogEntries(pages, 2, true);
    assert Flatten(pages) == a + b;
    assert CursorLog(pages, 2, true) == [None, c];
  }

  /** A page of 100 nodes with a next page, then one of 50 without: 150 nodes, two items
      queries, and the second one carries `cursor_100`; three calls with the metadata query. */
  lemma TwoPagesExample<T>(a: seq<T>, b: seq<T>, last: Option<string>)
    requires |a| == 100 && |b| == 50
    ensures var r := Paginate([Page(a, true, Some("cursor_100")), Page(b, false, last)], true);
            r.Success? && r.value.items == a + b && |r.value.items| == 150
            && r.value.cursors == [None, Some("cursor_100")] && 1 + |r.value.cursors| == 3
  {
    TwoPages(a, b, Some("cursor_100"), last);
  }

  /** A single page of 50 nodes: two calls in all. */
  lemma SinglePageExample<T>(a: seq<T>, c: Option<string>, thread: bool)
    ensures var r := Paginate([Page(a, false, c)], thread);
            r.Success? && r.value.items == a && r.value.cursors == [None] && 1 + |r.value.cursors| == 2
  {
    var pages := [Page(a, false, c)];
    PaginateComplete(pages, thread);
    assert pages[..0] == [];
  }

  /** An empty project ends after one page, with no items and two calls in all. */
  lemma EmptyProjectExample<T>(none: seq<T>)
    requires none == []
    ensures Paginate([Page(none, false, None)], false) == Success(Fetch(none, [None]))
  {
    SinglePageExample(none, None, false);
  }

  /** Exactly 100 nodes with no next page stop after one page: a non-null `endCursor`
      (`cursor_100`) does not make the loop go on, whatever the server would answer next. */
  lemma BoundaryExample<T>(hundred: seq<T>, more: seq<Page<T>>)
    requires |hundred| == 100
    ensures Paginate([Page(hundred, false, Some("cursor_100"))] + more, false) == Success(Fetch(hundred, [None]))
  {
    SinglePageExample(hundred, Some("cursor_100"), false);
    PaginateIgnoresLaterPages([Page(hundred, false, Some("cursor_100"))], more, false);
  }

  /** 101 nodes need a second page. */
  lemma OverBoundaryExample<T>(hundred: seq<T>, one: seq<T>)
    requires |hundred| == 100 && |one| == 1
    ensures var r := Paginate([Page(hundred, true, Some("cursor_1")), Page(one, false, Some("cursor_2"))], true);
            r.Success? && |r.value.items| == 101 && |r.value.cursors| == 2
  {
    var pages := [Page(hundred, true, Some("cursor_1")), Page(one, false, Some("cursor_2"))];
    PaginateComplete(pages, true);
    FlattenSnoc([], pages[0]);
    FlattenSnoc([pages[0]], pages[1]);
    assert [] + hundred == hundred;
  }

  /** Three pages of 100, 100 and 50 nodes: 250 nodes, three items queries carrying `null`,
      the first page's cursor and the second page's cursor; four calls in all. */
  lemma ThreePagesExample<T>(a: seq<T>, b: seq<T>, c: seq<T>, ca: string, cb: string)
    requires |a| == 100 && |b| == 100 && |c| == 50
    ensures var r := Paginate([Page(a, true, Some(ca)), Page(b, true, Some(cb)), Page(c, false, None)], true);
            r.Success? && r.value.items == a + b + c && |r.value.items| == 250
            && r.value.cursors == [None, Some(ca), Some(cb)] && 1 + |r.value.cursors| == 4
  {
    var pages := [Page(a, true, Some(ca)), Page(b, true, Some(cb)), Page(c, false, None)];
    PaginateComplete(pages, true);
    FlattenSnoc([], pages[0]);
    FlattenSnoc([pages[0]], pages[1]);
    FlattenSnoc([pages[0], pages[1]], pages[2]);
    assert [] + a == a;
    assert [pages[0]] + [pages[1]] == [pages[0], pages[1]];
    assert [pages[0], pages[1]] + [pages[2]] == pages;
    CursorLogEntries(pages, 3, true);
  }

  /** Four pages of 100 nodes: 400 nodes and five calls in all. */
  lemma FourPagesExample<T>(a: seq<T>, b: seq<T>, c: seq<T>, d: seq<T>)
    requires |a| == 100 && |b| == 100 && |c| == 100 && |d| == 100
    ensures var r := Paginate([Page(a, true, Some("cursor_page1")), Page(b, true, Some("cursor_page2")),
                               Page(c, true, Some("cursor_page3")), Page(d, false, Some("cursor_page4"))], true);
            r.Success? && |r.value.items| == 400 && 1 + |r.value.cursors| == 5
  {
    var pages := [Page(a, true, Some("cursor_page1")), Page(b, true, Some("cursor_page2")),
                  Page(c, true, Some("cursor_page3")), Page(d, false, Some("cursor_page4"))];
    PaginateComplete(pages, true);
    assert NodeCount(pages[..1]) == 100 by {
      assert pages[..1][..0] == [];
    }
    assert NodeCount(pages[..2]) == 200 by {
      assert pages[..2][..1] == pages[..1];
    }
    assert NodeCount(pages[..3]) == 300 by {
      assert pages[..3][..2] == pages[..2];
    }
    assert pages[..4][..3] == pages[..3] && pages[..4] == pages;
  }

  /** A server that always reports a next page runs out of responses. */
  lemma NeverFinalFails<T>(pages: seq<Page<T>>, thread: bool)
    requires forall j :: 0 <= j < |pages| ==> pages[j].hasNextPage
    ensures Paginate(pages, thread) == Failure(TypeError)
  {
  }
}
