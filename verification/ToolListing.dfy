/** The `tools/list` method of the gateway: collect, sort, filter and cut one page (src/lib.rs:3191-3360).

    `ToolsList` is the code on one request. Each request rebuilds the list from registries that iterate in an
    arbitrary order, so the theorems let every request of a walk see its own permutation of the tools. */
module ToolListing {
  import opened Options
  import opened Decimal
  import opened ToolOrder
  import opened ToolAccess

  const PAGE_SIZE: nat := 100

  /** The tenant's patterns, the client's `filter.namespace` and `filter.search`, and `str::to_lowercase`. */
  datatype Filters = Filters(tenant: Option<seq<string>>, namespace: Option<string>, search: Option<string>,
                             lower: string -> string)

  predicate FoundAt(text: string, query: string, i: nat) {
    i + |query| <= |text| && text[i..i + |query|] == query
  }

  predicate Contains(text: string, query: string) {
    exists i: nat :: i <= |text| && FoundAt(text, query, i)
  }

  predicate Keeps(f: Filters, t: Tool) {
    && Visible(f.tenant, t.name)
    && (f.namespace.Some? ==> f.namespace.value + "." <= t.name || t.name == f.namespace.value)
    && (f.search.Some? ==>
          || Contains(f.lower(t.name), f.lower(f.search.value))
          || (t.description.Some? && Contains(f.lower(t.description.value), f.lower(f.search.value))))
  }

  predicate Surrounds(text: string, before: string, query: string, after: string) {
    text == before + query + after
  }

  lemma {:induction false} ContainsExactly(text: string, query: string)
    ensures Contains(text, query) <==> exists before, after :: Surrounds(text, before, query, after)
  {
    if i: nat :| i <= |text| && FoundAt(text, query, i) {
      assert Surrounds(text, text[..i], query, text[i + |query|..]);
    }
    if before, after :| Surrounds(text, before, query, after) {
      assert FoundAt(text, query, |before|);
    }
  }

  /** What the filters let through: names the tenant may see; of a namespace, the name itself and what begins with it
      and a dot; of a search, tools whose lower-case name or description has the lower-case query in it. */
  lemma {:induction false} KeepsExactly(f: Filters, t: Tool)
    ensures Keeps(f, t) <==>
            && Visible(f.tenant, t.name)
            && (f.namespace == None || t.name == f.namespace.value ||
                exists rest :: t.name == Listed(f.namespace.value, rest))
            && (f.search == None ||
                (exists before, after :: Surrounds(f.lower(t.name), before, f.lower(f.search.value), after)) ||
                (t.description.Some? &&
                 exists before, after ::
                   Surrounds(f.lower(t.description.value), before, f.lower(f.search.value), after)))
  {
    if f.namespace.Some? && f.namespace.value + "." <= t.name {
      assert t.name == Listed(f.namespace.value, t.name[|f.namespace.value| + 1..]);
    }
    if f.search.Some? {
      ContainsExactly(f.lower(t.name), f.lower(f.search.value));
      if t.description.Some? {
        ContainsExactly(f.lower(t.description.value), f.lower(f.search.value));
      }
    }
  }

  /** `tools.retain(...)`. */
  function Retain(tools: seq<Tool>, f: Filters): seq<Tool> {
    if tools == [] then [] else (if Keeps(f, tools[0]) then [tools[0]] else []) + Retain(tools[1..], f)
  }

  /** The whole list from which pages are cut. */
  function Listing(tools: seq<Tool>, f: Filters): seq<Tool> {
    Retain(Sort(tools), f)
  }

  function Min(a: nat, b: nat): nat {
    if a < b then a else b
  }

  /** A missing or malformed cursor starts over; one past the end is brought back to the end. */
  function Offset(length: nat, cursor: Option<string>): nat {
    var asked := if cursor.None? then None else Parse(cursor.value);
    Min(if asked.Some? then asked.value else 0, length)
  }

  /** The page at an offset, and the next offset. */
  function Cut(list: seq<Tool>, offset: nat): (seq<Tool>, Option<nat>)
    requires offset <= |list|
  {
    (list[offset..Min(offset + PAGE_SIZE, |list|)],
     if offset + PAGE_SIZE < |list| then Some(offset + PAGE_SIZE) else None)
  }

  function Printed(offset: Option<nat>): Option<string> {
    if offset.None? then None else Some(Print(offset.value))
  }

  function PageOf(list: seq<Tool>, cursor: Option<string>): (seq<Tool>, Option<string>) {
    var (page, next) := Cut(list, Offset(|list|, cursor));
    (page, Printed(next))
  }

  datatype Reply = Reply(tools: seq<Tool>, nextCursor: Option<string>, available: nat, returned: nat)

  method ToolsList(local: seq<Tool>, upstream: seq<Tool>, f: Filters, cursor: Option<string>) returns (reply: Reply)
    ensures (reply.tools, reply.nextCursor) == PageOf(Listing(local + upstream, f), cursor)
    ensures reply.returned == |Listing(local + upstream, f)|
    ensures reply.available == |Listing(local + upstream, f.(namespace := None, search := None))|
  {
    var tools := local + upstream;
    tools := Sort(tools);
    var availableCount;
    tools, availableCount := FilterTools(tools, f);
    var returnedCount := |tools|;
    var page, next := CutPage(tools, cursor);
    return Reply(page, next, availableCount, returnedCount);
  }

  method FilterTools(all: seq<Tool>, f: Filters) returns (tools: seq<Tool>, available: nat)
    ensures tools == Retain(all, f)
    ensures available == |Retain(all, f.(namespace := None, search := None))|
  {
    tools := all;
    var byTenant := f.(namespace := None, search := None);
    var byNamespace := f.(tenant := None, search := None);
    var bySearch := f.(tenant := None, namespace := None);
    if f.tenant.Some? {
      tools := Retain(tools, byTenant);
    } else {
      RetainAll(tools, byTenant);
    }
    available := |tools|;
    RetainTwice(all, byTenant, byNamespace, f.(search := None));
    if f.namespace.Some? {
      tools := Retain(tools, byNamespace);
    } else {
      RetainAll(tools, byNamespace);
    }
    RetainTwice(all, f.(search := None), bySearch, f);
    if f.search.Some? {
      tools := Retain(tools, bySearch);
    } else {
      RetainAll(tools, bySearch);
    }
  }

  method CutPage(tools: seq<Tool>, cursor: Option<string>) returns (page: seq<Tool>, next: Option<string>)
    ensures (page, next) == PageOf(tools, cursor)
  {
    var offset := Offset(|tools|, cursor);
    page := tools[offset..][..Min(PAGE_SIZE, |tools| - offset)];
    assert page == tools[offset..Min(offset + PAGE_SIZE, |tools|)];
    next := None;
    if offset + PAGE_SIZE < |tools| {
      next := Some(Print(offset + PAGE_SIZE));
    }
  }

  lemma {:induction false} RetainAll(tools: seq<Tool>, f: Filters)
    requires f.tenant.None? && f.namespace.None? && f.search.None?
    ensures Retain(tools, f) == tools
  {
    if tools == [] {
    } else {
      RetainAll(tools[1..], f);
    }
  }

  lemma {:induction false} RetainTwice(tools: seq<Tool>, first: Filters, second: Filters, both: Filters)
    requires forall t :: Keeps(both, t) <==> Keeps(first, t) && Keeps(second, t)
    ensures Retain(Retain(tools, first), second) == Retain(tools, both)
  {
    if tools == [] {
    } else {
      RetainTwice(tools[1..], first, second, both);
      var rest := Retain(tools[1..], first);
      assert ([tools[0]] + rest)[1..] == rest;
      assert [] + rest == rest;
    }
  }

  // ---------------------------------------------------------------- what the list is

  lemma {:induction false} RetainKeeps(tools: seq<Tool>, f: Filters, t: Tool)
    ensures multiset(Retain(tools, f))[t] == if Keeps(f, t) then multiset(tools)[t] else 0
  {
    if tools == [] {
    } else {
      RetainKeeps(tools[1..], f, t);
      assert tools == [tools[0]] + tools[1..];
    }
  }

  lemma {:induction false} RetainSorts(tools: seq<Tool>, f: Filters)
    requires Sorted(tools)
    ensures Sorted(Retain(tools, f))
  {
    if tools == [] {
    } else {
      var rest := Retain(tools[1..], f);
      RetainSorts(tools[1..], f);
      forall t | t in rest
        ensures NameLeq(tools[0].name, t.name)
      {
        RetainKeeps(tools[1..], f, t);
        assert t in multiset(rest);
        assert t in multiset(tools[1..]);
        var j :| 0 <= j < |tools[1..]| && tools[1..][j] == t;
        assert tools[j + 1] == t;
      }
      SortedCons(tools[0], rest);
    }
  }

  /** The list is the name-sorted arrangement of exactly the tools that pass the filters. */
  lemma {:induction false} ListingIsSortedAndFiltered(tools: seq<Tool>, f: Filters)
    ensures Sorted(Listing(tools, f)) && InNameOrder(Listing(tools, f))
    ensures forall t :: multiset(Listing(tools, f))[t] == if Keeps(f, t) then multiset(tools)[t] else 0
  {
    SortSorts(tools);
    RetainSorts(Sort(tools), f);
    SortedIsInNameOrder(Listing(tools, f));
    forall t
      ensures multiset(Listing(tools, f))[t] == if Keeps(f, t) then multiset(tools)[t] else 0
    {
      RetainKeeps(Sort(tools), f, t);
    }
  }

  lemma {:induction false} RetainShortens(tools: seq<Tool>, f: Filters)
    ensures |Retain(tools, f)| <= |tools|
  {
    if tools == [] {
    } else {
      RetainShortens(tools[1..], f);
    }
  }

  lemma {:induction false} ListingFits(tools: seq<Tool>, f: Filters)
    ensures |Listing(tools, f)| <= |tools|
  {
    SortSorts(tools);
    RetainShortens(Sort(tools), f);
    assert |Sort(tools)| == |multiset(Sort(tools))| == |multiset(tools)|;
  }

  /** A malformed cursor starts over, and an oversized one gives an empty last page. */
  lemma {:induction false} OddCursors(list: seq<Tool>, cursor: string)
    ensures Parse(cursor).None? ==> PageOf(list, Some(cursor)) == PageOf(list, None)
    ensures Parse(cursor).Some? && Parse(cursor).value >= |list| ==> PageOf(list, Some(cursor)) == ([], None)
  {
    assert list[|list|..|list|] == [];
  }

  /** Any offset in the list, a multiple of the page size or not, is a cursor to the hundred tools from there on. */
  lemma {:induction false} PageAtCursor(list: seq<Tool>, n: nat)
    requires n <= |list| <= 0xFFFF_FFFF_FFFF_FFFF
    ensures PageOf(list, Some(Print(n))) ==
            if n + 100 < |list| then (list[n..n + 100], Some(Print(n + 100))) else (list[n..], None)
  {
    OffsetOfPrinted(|list|, n);
    assert list[n..|list|] == list[n..];
  }

  lemma {:induction false} OffsetOfPrinted(length: nat, n: nat)
    requires n <= length <= USIZE_MAX
    ensures Offset(length, Some(Print(n))) == n
  {
    ParsePrint(n);
  }

  // ---------------------------------------------------------------- walking the pages

  /** What a client holds after following cursors: the tools of all pages, and the cursor for the next request. */
  datatype Walk = Walk(tools: seq<Tool>, cursor: Option<string>, done: bool)

  /** The page and next cursor with which request i answers a cursor. */
  type Pages = (nat, Option<string>) -> (seq<Tool>, Option<string>)

  function WalkAfter(pages: Pages, requests: nat): Walk {
    if requests == 0 then Walk([], None, false) else
      var w := WalkAfter(pages, requests - 1);
      if w.done then w else
        var (page, next) := pages(requests - 1, w.cursor);
        Walk(w.tools + page, next, next.None?)
  }

  /** Request i finds the tools in the order `order(i)` and cuts its page from the list it builds. */
  function Serve(order: nat -> seq<Tool>, f: Filters): Pages {
    (i: nat, cursor: Option<string>) => PageOf(Listing(order(i), f), cursor)
  }

  function PagesNeeded(length: nat): nat {
    if length == 0 then 1 else (length + 99) / 100
  }

  /** Every request sees the same tools, in an order of its own. */
  ghost predicate SameTools(order: nat -> seq<Tool>, tools: seq<Tool>) {
    && |tools| <= USIZE_MAX
    && NameDetermines(tools)
    && forall i :: multiset(order(i)) == multiset(tools)
  }

  /** The cursor of request k. */
  function CursorAt(k: nat): Option<string> {
    Printed(if k == 0 then None else Some(100 * k))
  }

  lemma {:induction false} CursorIsOffset(length: nat, k: nat)
    requires length <= USIZE_MAX && 100 * k <= length
    ensures Offset(length, CursorAt(k)) == 100 * k
  {
    ParsePrint(100 * k);
  }

  lemma {:induction false} NextCut(list: seq<Tool>, k: nat)
    requires k < PagesNeeded(|list|)
    ensures 100 * k <= |list|
    ensures var (page, next) := Cut(list, 100 * k);
            && list[..Min(100 * k, |list|)] + page == list[..Min(100 * (k + 1), |list|)]
            && next == (if k + 1 == PagesNeeded(|list|) then None else Some(100 * (k + 1)))
  {
    assert 100 * k <= |list|;
    var to := Min(100 * k + 100, |list|);
    assert list[..100 * k] + list[100 * k..to] == list[..to];
  }

  lemma {:induction false} NextPage(list: seq<Tool>, k: nat)
    requires |list| <= USIZE_MAX && k < PagesNeeded(|list|)
    ensures var (page, next) := PageOf(list, CursorAt(k));
            && list[..Min(100 * k, |list|)] + page == list[..Min(100 * (k + 1), |list|)]
            && next == (if k + 1 == PagesNeeded(|list|) then None else CursorAt(k + 1))
  {
    NextCut(list, k);
    CursorIsOffset(|list|, k);
  }

  /** What the walk must hold after n requests. */
  ghost predicate WalkIs(w: Walk, list: seq<Tool>, requests: nat) {
    && w.tools == list[..Min(100 * requests, |list|)]
    && (w.done <==> requests >= PagesNeeded(|list|))
    && (!w.done ==> w.cursor == CursorAt(requests))
  }

  lemma {:induction false} WalkStep(w: Walk, list: seq<Tool>, requests: nat)
    requires |list| <= USIZE_MAX && WalkIs(w, list, requests) && !w.done
    ensures var (page, next) := PageOf(list, w.cursor);
            WalkIs(Walk(w.tools + page, next, next.None?), list, requests + 1)
  {
    NextPage(list, requests);
  }

  lemma {:induction false} WalkOverOneList(pages: Pages, list: seq<Tool>, requests: nat)
    requires |list| <= USIZE_MAX && forall i, c :: pages(i, c) == PageOf(list, c)
    ensures WalkIs(WalkAfter(pages, requests), list, requests)
  {
    if requests == 0 {
    } else {
      WalkOverOneList(pages, list, requests - 1);
      if !WalkAfter(pages, requests - 1).done {
        WalkStep(WalkAfter(pages, requests - 1), list, requests - 1);
      }
    }
  }

  /** Whatever orders the requests see, they all cut their pages from one list. */
  lemma {:induction false} OneList(order: nat -> seq<Tool>, f: Filters, tools: seq<Tool>)
    requires SameTools(order, tools)
    ensures forall i, c :: Serve(order, f)(i, c) == PageOf(Listing(tools, f), c)
    ensures |Listing(tools, f)| <= USIZE_MAX
  {
    ListingFits(tools, f);
    forall i: nat
      ensures Listing(order(i), f) == Listing(tools, f)
    {
      SortPermuted(order(i), tools);
    }
  }

  /** Following `nextCursor` through independent requests yields the sorted filtered list with no gap and no repeat:
      after n requests its first 100 n tools, and the end after exactly max(1, ceil(length / 100)) requests. */
  lemma {:induction false} PageWalkIsExact(order: nat -> seq<Tool>, f: Filters, tools: seq<Tool>, requests: nat)
    requires SameTools(order, tools)
    ensures var list := Listing(tools, f);
            var w := WalkAfter(Serve(order, f), requests);
            && w.tools == list[..Min(100 * requests, |list|)]
            && (w.done <==> requests >= PagesNeeded(|list|))
            && (w.done ==> w.tools == list)
  {
    OneList(order, f, tools);
    WalkOverOneList(Serve(order, f), Listing(tools, f), requests);
  }
}
