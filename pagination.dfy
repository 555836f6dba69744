/**
 * `get_all`: drain a paginated listing endpoint. The first call carries no
 * cursor; every later call carries the `max_id` the previous page named as
 * its successor; the loop stops at the first page that names none.
 */
module Pagination {
  import opened Wrappers

  /** The `max_id` value of a page's `_pagination_next`. */
  type Cursor = nat

  /** One page of results, with the cursor of the page after it, if any. */
  datatype Page<T> = Page(items: seq<T>, next: Option<Cursor>)

  /**
   * A paginated endpoint for fixed arguments, as the finite sequence of pages
   * it serves in order.
   */
  datatype Endpoint<T> = Endpoint(pages: seq<Page<T>>) {

    /**
     * The chain of pages ends: there is a first page, the last one names no
     * successor, and no cursor is named twice (a repeated cursor would send
     * the loop round forever).
     */
    predicate Valid()
    {
      && |pages| > 0
      && pages[|pages| - 1].next.None?
      && forall i, j :: 0 <= i < j < |pages| && pages[i].next.Some? ==> pages[j].next != pages[i].next
    }

    /** The page one call returns: the first for no cursor, else the page after the one naming it. */
    function Fetch(maxId: Option<Cursor>): Page<T>
      requires |pages| > 0
    {
      match maxId
      case None => pages[0]
      case Some(c) => After(c, 0)
    }

    /** The page after the first page from index `i` on whose cursor is `c`; an empty last page if none is. */
    function After(c: Cursor, i: nat): Page<T>
      decreases |pages| - i
    {
      if i + 1 >= |pages| then Page([], None)
      else if pages[i].next == Some(c) then pages[i + 1]
      else After(c, i + 1)
    }
  }

  /** Calling with the cursor of page `i` fetches page `i + 1`. */
  lemma FetchNext<T>(e: Endpoint<T>, i: nat)
    requires e.Valid() && i < |e.pages| && e.pages[i].next.Some?
    ensures i + 1 < |e.pages| && e.Fetch(e.pages[i].next) == e.pages[i + 1]
  {
    AfterSkips(e, e.pages[i].next.value, 0, i);
  }

  lemma {:induction false} AfterSkips<T>(e: Endpoint<T>, c: Cursor, k: nat, i: nat)
    requires e.Valid() && k <= i < |e.pages| && e.pages[i].next == Some(c)
    ensures i + 1 < |e.pages| && e.After(c, k) == e.pages[i + 1]
    decreases i - k
  {
    if k < i {
      assert e.pages[k].next != Some(c);
      AfterSkips(e, c, k + 1, i);
    }
  }

  /** The items gathered from page `i` on. */
  function DrainFrom<T>(e: Endpoint<T>, i: nat): seq<T>
    requires e.Valid() && i < |e.pages|
    decreases |e.pages| - i
  {
    e.pages[i].items + if e.pages[i].next.None? then [] else DrainFrom(e, i + 1)
  }

  /** The cursors passed after page `i` has been fetched. */
  function CursorsFrom<T>(e: Endpoint<T>, i: nat): seq<Option<Cursor>>
    requires e.Valid() && i < |e.pages|
    decreases |e.pages| - i
  {
    if e.pages[i].next.None? then [] else [e.pages[i].next] + CursorsFrom(e, i + 1)
  }

  /** What `get_all` returns. */
  function Drained<T>(e: Endpoint<T>): seq<T>
    requires e.Valid()
  {
    DrainFrom(e, 0)
  }

  /** The `max_id` argument of each call `get_all` makes, in order. */
  function Calls<T>(e: Endpoint<T>): seq<Option<Cursor>>
    requires e.Valid()
  {
    [None] + CursorsFrom(e, 0)
  }

  /** The loop of `get_all`; `calls` records the `max_id` of each call made. */
  method GetAll<T>(e: Endpoint<T>) returns (res: seq<T>, calls: seq<Option<Cursor>>)
    requires e.Valid()
    ensures res == Drained(e) && calls == Calls(e)
  {
    res := [];
    calls := [None];
    var page := e.Fetch(None);
    ghost var i := 0;
    while true
      invariant i < |e.pages| && page == e.pages[i]
      invariant res + DrainFrom(e, i) == Drained(e)
      invariant calls + CursorsFrom(e, i) == Calls(e)
      decreases |e.pages| - i
    {
      res := res + page.items;
      if page.next.None? {
        break;
      }
      calls := calls + [page.next];
      FetchNext(e, i);
      page := e.Fetch(page.next);
      i := i + 1;
    }
  }

  /** Index of the first page, from `i` on, that names no successor. */
  function StopFrom<T>(e: Endpoint<T>, i: nat): (k: nat)
    requires e.Valid() && i < |e.pages|
    ensures i <= k < |e.pages| && e.pages[k].next.None?
    ensures forall j :: i <= j < k ==> e.pages[j].next.Some?
    decreases |e.pages| - i
  {
    if e.pages[i].next.None? then i else StopFrom(e, i + 1)
  }

  /** The index of the last page fetched. */
  function Stop<T>(e: Endpoint<T>): nat
    requires e.Valid()
  {
    StopFrom(e, 0)
  }

  /** The items of a run of pages, concatenated in order. */
  function Flatten<T>(pages: seq<Page<T>>): seq<T>
  {
    if pages == [] then [] else pages[0].items + Flatten(pages[1..])
  }

  /**
   * `get_all` returns the items of every page up to and including the first
   * page without a cursor, in fetch order. Empty pages that still carry a
   * cursor do not stop it.
   */
  lemma {:induction false} DrainedIsConcatenation<T>(e: Endpoint<T>)
    requires e.Valid()
    ensures Drained(e) == Flatten(e.pages[..Stop(e) + 1])
  {
    DrainFromIsConcatenation(e, 0);
  }

  lemma {:induction false} DrainFromIsConcatenation<T>(e: Endpoint<T>, i: nat)
    requires e.Valid() && i < |e.pages|
    ensures DrainFrom(e, i) == Flatten(e.pages[i..StopFrom(e, i) + 1])
    decreases |e.pages| - i
  {
    var stop := StopFrom(e, i);
    if e.pages[i].next.Some? {
      DrainFromIsConcatenation(e, i + 1);
      assert e.pages[i..stop + 1] == [e.pages[i]] + e.pages[i + 1..stop + 1];
      FlattenCons(e.pages[i], e.pages[i + 1..stop + 1]);
    } else {
      assert e.pages[i..stop + 1] == [e.pages[i]];
      FlattenCons(e.pages[i], []);
    }
  }

  lemma FlattenCons<T>(page: Page<T>, rest: seq<Page<T>>)
    ensures Flatten([page] + rest) == page.items + Flatten(rest)
  {
    assert ([page] + rest)[1..] == rest;
  }

  /**
   * One call per fetched page: the first without a cursor, call `k` with
   * the cursor of page `k - 1`, which fetches page `k`.
   */
  lemma {:induction false} CallsFollowCursors<T>(e: Endpoint<T>)
    requires e.Valid()
    ensures |Calls(e)| == Stop(e) + 1
    ensures Calls(e)[0] == None && e.Fetch(None) == e.pages[0]
    ensures forall k {:trigger Calls(e)[k]} :: 1 <= k < |Calls(e)| ==>
      e.pages[k - 1].next.Some? && Calls(e)[k] == e.pages[k - 1].next && e.Fetch(Calls(e)[k]) == e.pages[k]
  {
    CursorsFromFollow(e, 0);
    var cs := CursorsFrom(e, 0);
    assert forall k :: 1 <= k < |Calls(e)| ==> Calls(e)[k] == cs[k - 1];
  }

  lemma {:induction false} CursorsFromFollow<T>(e: Endpoint<T>, i: nat)
    requires e.Valid() && i < |e.pages|
    ensures |CursorsFrom(e, i)| == StopFrom(e, i) - i
    ensures forall k :: 0 <= k < |CursorsFrom(e, i)| ==>
      e.pages[i + k].next.Some? && CursorsFrom(e, i)[k] == e.pages[i + k].next &&
      e.Fetch(CursorsFrom(e, i)[k]) == e.pages[i + k + 1]
    decreases |e.pages| - i
  {
    if e.pages[i].next.Some? {
      CursorsFromFollow(e, i + 1);
      FetchNext(e, i);
      forall k | 1 <= k < |CursorsFrom(e, i)|
        ensures e.Fetch(CursorsFrom(e, i)[k]) == e.pages[i + k + 1]
      {
        assert CursorsFrom(e, i)[k] == CursorsFrom(e, i + 1)[k - 1];
      }
    }
  }

  /**
   * When only the last page lacks a cursor, every page is fetched, once, and
   * `get_all` returns all their items.
   */
  lemma AllPagesDrained<T>(e: Endpoint<T>)
    requires e.Valid()
    requires forall i :: 0 <= i < |e.pages| - 1 ==> e.pages[i].next.Some?
    ensures Drained(e) == Flatten(e.pages)
    ensures |Calls(e)| == |e.pages|
  {
    StopIsLast(e, 0);
    DrainedIsConcatenation(e);
    CallsFollowCursors(e);
    assert e.pages[..|e.pages|] == e.pages;
  }

  lemma {:induction false} StopIsLast<T>(e: Endpoint<T>, i: nat)
    requires e.Valid() && i < |e.pages|
    requires forall j :: 0 <= j < |e.pages| - 1 ==> e.pages[j].next.Some?
    ensures StopFrom(e, i) == |e.pages| - 1
    decreases |e.pages| - i
  {
    if i < |e.pages| - 1 {
      StopIsLast(e, i + 1);
    }
  }

  /**
   * Three pages, the last without a cursor: the result is the three pages'
   * items in order, after three calls carrying no cursor, then the first
   * page's cursor, then the second's.
   */
  lemma ThreePages<T>(x1: seq<T>, x2: seq<T>, x3: seq<T>, c1: Cursor, c2: Cursor)
    requires c1 != c2
    ensures var e := Endpoint([Page(x1, Some(c1)), Page(x2, Some(c2)), Page(x3, None)]);
      && e.Valid()
      && Drained(e) == x1 + x2 + x3
      && Calls(e) == [None, Some(c1), Some(c2)]
  {
    var e := Endpoint([Page(x1, Some(c1)), Page(x2, Some(c2)), Page(x3, None)]);
    AllPagesDrained(e);
    CallsFollowCursors(e);
    assert Flatten(e.pages) == x1 + Flatten(e.pages[1..]);
    assert Flatten(e.pages[1..]) == x2 + Flatten(e.pages[2..]);
    assert Flatten(e.pages[2..]) == x3 + Flatten(e.pages[3..]);
  }
}
