/** The cursor-following client of the gateway (src/lib.rs:963-1047), for any upstream and for an upstream that is
    itself this gateway. */
module Discovery {
  import opened Options
  import opened ToolOrder
  import opened ToolAccess
  import opened ToolListing

  /** A tool as an upstream describes it; one without a textual name is skipped. */
  datatype RemoteTool = RemoteTool(name: Option<string>, description: Option<string>, inputSchema: string)

  /** `Failed` is a transport error, an error status, an unreadable body or a body without a list of tools. */
  datatype Response = Failed | Page(tools: seq<RemoteTool>, nextCursor: Option<string>)

  /** `answer(i, cursor)` is how the upstream answers request number i. */
  type Upstream = (nat, Option<string>) -> Response

  function Prefixed(upstream: string, tools: seq<RemoteTool>): seq<Tool> {
    if tools == [] then [] else
      var t := tools[|tools| - 1];
      Prefixed(upstream, tools[..|tools| - 1]) +
      if t.name.None? then [] else [Tool(Listed(upstream, t.name.value), t.description, t.inputSchema)]
  }

  /** How many of the tools have a textual name. */
  function Named(tools: seq<RemoteTool>): nat {
    if tools == [] then 0 else Named(tools[..|tools| - 1]) + if tools[|tools| - 1].name.Some? then 1 else 0
  }

  /** Of any page exactly the tools with a name are kept, in their order, each under the upstream's name, a dot and its
      own. */
  lemma {:induction false} PrefixedExactly(upstream: string, tools: seq<RemoteTool>, i: nat)
    requires i < |tools|
    ensures |Prefixed(upstream, tools)| == Named(tools) && Named(tools[..i]) <= Named(tools)
    ensures tools[i].name.Some? ==>
              && Named(tools[..i]) < Named(tools)
              && Prefixed(upstream, tools)[Named(tools[..i])] ==
                 Tool(upstream + "." + tools[i].name.value, tools[i].description, tools[i].inputSchema)
  {
    var n := |tools| - 1;
    if n == 0 {
      assert tools[..0] == [];
    } else {
      PrefixedExactly(upstream, tools[..n], if i < n then i else 0);
      assert i < n ==> tools[..n][..i] == tools[..i];
    }
  }

  /** What the client holds between two turns of its loop. */
  datatype Fetch = Fetch(tools: seq<Tool>, cursor: Option<string>, finished: bool)

  function Turn(upstream: string, st: Fetch, response: Response): Fetch {
    match response
    case Failed => st.(finished := true)
    case Page(tools, next) => Fetch(st.tools + Prefixed(upstream, tools), next, next.None?)
  }

  /** The client after at most `turns` turns. */
  function FetchAfter(upstream: string, answer: Upstream, turns: nat): Fetch {
    if turns == 0 then Fetch([], None, false) else
      var st := FetchAfter(upstream, answer, turns - 1);
      if st.finished then st else Turn(upstream, st, answer(turns - 1, st.cursor))
  }

  /** The client's loop. The source puts no bound on it and an upstream may feed it cursors for ever; `turns` cuts the
      run after any number of requests. */
  method FetchUpstream(upstream: string, answer: Upstream, turns: nat) returns (all: seq<Tool>, finished: bool)
    ensures all == FetchAfter(upstream, answer, turns).tools
    ensures finished == FetchAfter(upstream, answer, turns).finished
  {
    all, finished := [], false;
    var cursor: Option<string> := None;
    for turn := 0 to turns
      invariant Fetch(all, cursor, finished) == FetchAfter(upstream, answer, turn)
    {
      if !finished {
        var response := answer(turn, cursor);
        match response
        case Failed => finished := true;
        case Page(tools, next) =>
          ghost var before := all;
          for i := 0 to |tools|
            invariant all == before + Prefixed(upstream, tools[..i])
          {
            assert tools[..i + 1][..i] == tools[..i];
            if tools[i].name.Some? {
              all := all + [Tool(Listed(upstream, tools[i].name.value), tools[i].description, tools[i].inputSchema)];
            }
          }
          assert tools[..|tools|] == tools;
          cursor := next;
          finished := cursor.None?;
      }
    }
  }

  // ---------------------------------------------------------------- any upstream

  /** An upstream that always sends one more cursor keeps the loop going for ever. */
  lemma {:induction false} EndlessUpstream(upstream: string, answer: Upstream, turns: nat)
    requires forall i, c :: answer(i, c).Page? && answer(i, c).nextCursor.Some?
    ensures !FetchAfter(upstream, answer, turns).finished
  {
    if turns == 0 {
    } else {
      EndlessUpstream(upstream, answer, turns - 1);
    }
  }

  // ---------------------------------------------------------------- a gateway as upstream

  function AsRemote(tools: seq<Tool>): seq<RemoteTool> {
    seq(|tools|, i requires 0 <= i < |tools| =>
          RemoteTool(Some(tools[i].name), tools[i].description, tools[i].inputSchema))
  }

  /** The upstream is this paging server; request i fails unless `reachable`. */
  function Gateway(pages: Pages, reachable: nat -> bool): Upstream {
    (i: nat, cursor: Option<string>) =>
      if reachable(i) then Page(AsRemote(pages(i, cursor).0), pages(i, cursor).1) else Failed
  }

  function Renamed(upstream: string, tools: seq<Tool>): seq<Tool> {
    seq(|tools|, i requires 0 <= i < |tools| => tools[i].(name := Listed(upstream, tools[i].name)))
  }

  lemma {:induction false} PrefixedIsRenamed(upstream: string, tools: seq<Tool>)
    ensures Prefixed(upstream, AsRemote(tools)) == Renamed(upstream, tools)
  {
    if tools == [] {
    } else {
      var init := tools[..|tools| - 1];
      PrefixedIsRenamed(upstream, init);
      assert AsRemote(tools)[..|tools| - 1] == AsRemote(init);
      assert Renamed(upstream, tools) == Renamed(upstream, init) + [Renamed(upstream, tools)[|tools| - 1]];
    }
  }

  lemma {:induction false} RenamedAppend(upstream: string, tools: seq<Tool>, page: seq<Tool>)
    ensures Renamed(upstream, tools + page) == Renamed(upstream, tools) + Prefixed(upstream, AsRemote(page))
  {
    PrefixedIsRenamed(upstream, page);
  }

  /** As long as no request fails the client follows the page walk step by step. */
  lemma {:induction false} ClientFollowsWalk(upstream: string, pages: Pages, reachable: nat -> bool, turns: nat)
    requires forall i | 0 <= i < turns :: reachable(i)
    ensures var w := WalkAfter(pages, turns);
            FetchAfter(upstream, Gateway(pages, reachable), turns) ==
            Fetch(Renamed(upstream, w.tools), w.cursor, w.done)
  {
    if turns == 0 {
    } else {
      ClientFollowsWalk(upstream, pages, reachable, turns - 1);
      var w := WalkAfter(pages, turns - 1);
      RenamedAppend(upstream, w.tools, pages(turns - 1, w.cursor).0);
    }
  }

  /** Discovery of a gateway by a gateway ends, after exactly the requests its pages need, with exactly the upstream's
      sorted list, each name prefixed. */
  lemma {:induction false} DiscoveryIsExact(upstream: string, order: nat -> seq<Tool>, f: Filters, tools: seq<Tool>,
                                            turns: nat)
    requires SameTools(order, tools)
    ensures var list := Listing(tools, f);
            var st := FetchAfter(upstream, Gateway(Serve(order, f), _ => true), turns);
            && (st.finished <==> turns >= PagesNeeded(|list|))
            && (st.finished ==> st.tools == Renamed(upstream, list))
  {
    ClientFollowsWalk(upstream, Serve(order, f), _ => true, turns);
    PageWalkIsExact(order, f, tools, turns);
  }

  /** Once finished, further turns change nothing. */
  lemma {:induction false} FinishedStays(upstream: string, answer: Upstream, turns: nat, later: nat)
    requires turns <= later && FetchAfter(upstream, answer, turns).finished
    ensures FetchAfter(upstream, answer, later) == FetchAfter(upstream, answer, turns)
  {
    if turns < later {
      FinishedStays(upstream, answer, turns, later - 1);
    }
  }

  lemma {:induction false} RenamedPrefix(upstream: string, tools: seq<Tool>, n: nat)
    requires n <= |tools|
    ensures Renamed(upstream, tools[..n]) == Renamed(upstream, tools)[..n]
  {
  }

  lemma {:induction false} FailedTurn(upstream: string, answer: Upstream, turn: nat)
    requires forall c :: answer(turn, c).Failed?
    ensures FetchAfter(upstream, answer, turn + 1).finished
    ensures FetchAfter(upstream, answer, turn + 1).tools == FetchAfter(upstream, answer, turn).tools
  {
  }

  /** If request `failing` is the first to fail, the client ends with the pages before it. */
  lemma {:induction false} FailureStopsWalk(upstream: string, pages: Pages, reachable: nat -> bool, failing: nat,
                                            turns: nat)
    requires turns > failing && !reachable(failing) && forall i | 0 <= i < failing :: reachable(i)
    ensures var st := FetchAfter(upstream, Gateway(pages, reachable), turns);
            st.finished && st.tools == Renamed(upstream, WalkAfter(pages, failing).tools)
  {
    ClientFollowsWalk(upstream, pages, reachable, failing);
    FailedTurn(upstream, Gateway(pages, reachable), failing);
    FinishedStays(upstream, Gateway(pages, reachable), failing + 1, turns);
  }

  /** If a page request of a gateway fails, the client ends with a prefix of the prefixed list: its first whole
      pages. */
  lemma {:induction false} FailureLeavesPrefix(upstream: string, order: nat -> seq<Tool>, f: Filters, tools: seq<Tool>,
                                               reachable: nat -> bool, failing: nat, turns: nat)
    requires SameTools(order, tools) && turns > failing
    requires !reachable(failing) && forall i | 0 <= i < failing :: reachable(i)
    ensures var list := Listing(tools, f);
            var st := FetchAfter(upstream, Gateway(Serve(order, f), reachable), turns);
            && st.finished
            && st.tools == Renamed(upstream, list)[..Min(100 * failing, |list|)]
  {
    FailureStopsWalk(upstream, Serve(order, f), reachable, failing, turns);
    PageWalkIsExact(order, f, tools, failing);
    RenamedPrefix(upstream, Listing(tools, f), Min(100 * failing, |Listing(tools, f)|));
  }
}
