/** Dotted names and tenant tool filters (src/lib.rs:242-287, 1030, 3427-3442; kurd/multitenancy.py:47-51;
    kurd/router.py:193-199). */
module ToolAccess {
  import opened Options

  // ---------------------------------------------------------------- names

  /** `split_once('.')`. */
  function SplitOnce(name: string): Option<(string, string)> {
    if name == "" then None
    else if name[0] == '.' then Some(("", name[1..]))
    else match SplitOnce(name[1..])
         case None => None
         case Some((before, after)) => Some(([name[0]] + before, after))
  }

  /** The name under which the gateway lists a remote tool. */
  function Listed(upstream: string, remote: string): string {
    upstream + "." + remote
  }

  datatype Route = ToUpstream(upstream: string, remote: string) | Local(name: string)

  /** Where `tools/call` sends a name, given the registered upstreams. */
  function RouteOf(upstreams: set<string>, name: string): Route {
    match SplitOnce(name)
    case None => Local(name)
    case Some((u, r)) => if u in upstreams then ToUpstream(u, r) else Local(name)
  }

  lemma {:induction false} SplitListed(upstream: string, remote: string)
    requires '.' !in upstream
    ensures SplitOnce(Listed(upstream, remote)) == Some((upstream, remote))
  {
    var name := Listed(upstream, remote);
    if upstream == "" {
      assert name[1..] == remote;
    } else {
      SplitListed(upstream[1..], remote);
      assert name[1..] == Listed(upstream[1..], remote);
      assert upstream == [upstream[0]] + upstream[1..];
    }
  }

  lemma {:induction false} SplitHasNoDot(name: string)
    ensures SplitOnce(name).Some? ==>
              '.' !in SplitOnce(name).value.0 && name == Listed(SplitOnce(name).value.0, SplitOnce(name).value.1)
  {
    if name != "" && name[0] != '.' {
      SplitHasNoDot(name[1..]);
    }
  }

  /** A listed name routes back to its upstream and remote name, dots in the remote name included, exactly when the
      registered upstream's own name has no dot. */
  lemma {:induction false} ListedRoutesBackExactly(upstreams: set<string>, upstream: string, remote: string)
    requires upstream in upstreams
    ensures RouteOf(upstreams, Listed(upstream, remote)) == ToUpstream(upstream, remote) <==> '.' !in upstream
  {
    if '.' !in upstream {
      SplitListed(upstream, remote);
    } else {
      SplitHasNoDot(Listed(upstream, remote));
    }
  }

  /** A tool of the gateway itself is reached under its name exactly when no registered upstream, dot-free as a split
      leaves it, is a prefix of the name: an upstream hides the dotted local tools that begin with its name. */
  lemma {:induction false} LocalToolReachedExactly(upstreams: set<string>, name: string)
    ensures RouteOf(upstreams, name) == Local(name) <==>
            forall u, r | name == Listed(u, r) && '.' !in u :: u !in upstreams
  {
    SplitHasNoDot(name);
    forall u, r | name == Listed(u, r) && '.' !in u
      ensures SplitOnce(name) == Some((u, r))
    {
      SplitListed(u, r);
    }
  }

  // ---------------------------------------------------------------- tenant filters

  predicate EndsWithWildcard(pattern: string) {
    |pattern| >= 2 && pattern[|pattern| - 2..] == ".*"
  }

  predicate MatchesPattern(name: string, pattern: string) {
    if pattern == "*" then true
    else if EndsWithWildcard(pattern) then
      var prefix := pattern[..|pattern| - 2];
      prefix + "." <= name || name == prefix
    else name == pattern
  }

  predicate MatchesFilter(name: string, patterns: seq<string>) {
    exists i :: 0 <= i < |patterns| && MatchesPattern(name, patterns[i])
  }

  /** How far a pattern reaches: `*` to every name, `p.*` to p and to what begins with p and a dot, any other to
      itself. */
  lemma {:induction false} PatternReaches(name: string, pattern: string)
    ensures MatchesPattern(name, "*")
    ensures forall p :: pattern == p + ".*" ==>
              (MatchesPattern(name, pattern) <==> name == p || exists rest :: name == Listed(p, rest))
    ensures pattern != "*" && (forall p :: pattern != p + ".*") ==> (MatchesPattern(name, pattern) <==> name == pattern)
  {
    if EndsWithWildcard(pattern) {
      var prefix := pattern[..|pattern| - 2];
      assert pattern == prefix + ".*";
      if prefix + "." <= name {
        assert name == Listed(prefix, name[|prefix| + 1..]);
      }
    }
    forall p | pattern == p + ".*"
      ensures EndsWithWildcard(pattern) && p == pattern[..|pattern| - 2]
    {
    }
  }

  /** `Tenant.can_call_tool`. */
  predicate CanCall(allowed: set<string>, name: string) {
    if "*" in allowed then true else name in allowed
  }

  /** The tenant filter of `tools/list`: no filter at all for a wildcard, otherwise the allowed names in any order. */
  function TenantFilter(allowed: set<string>, listing: seq<string>): Option<seq<string>> {
    if "*" in allowed then None else Some(listing)
  }

  predicate Visible(filter: Option<seq<string>>, name: string) {
    filter.None? || MatchesFilter(name, filter.value)
  }

  ghost predicate Enumerates(listing: seq<string>, allowed: set<string>) {
    forall p :: p in listing <==> p in allowed
  }

  /** Every tool a tenant may call survives its filter. */
  lemma {:induction false} CallableIsVisible(allowed: set<string>, listing: seq<string>, name: string)
    requires Enumerates(listing, allowed) && CanCall(allowed, name)
    ensures Visible(TenantFilter(allowed, listing), name)
  {
    if "*" !in allowed {
      var i :| 0 <= i < |listing| && listing[i] == name;
      if EndsWithWildcard(name) {
        var prefix := name[..|name| - 2];
        assert name == prefix + "." + "*";
      }
      assert MatchesPattern(name, listing[i]);
    }
  }

  function TotalLength(names: seq<string>): nat {
    if names == [] then 0 else |names[0]| + TotalLength(names[1..])
  }

  lemma {:induction false} NoLongerThanTotal(names: seq<string>, name: string)
    requires name in names
    ensures |name| <= TotalLength(names)
  {
    if name != names[0] {
      NoLongerThanTotal(names[1..], name);
    }
  }

  /** A wildcard pattern shows names that no finite set of exact names contains. */
  lemma {:induction false} WildcardShowsMore(listing: seq<string>, pattern: string) returns (name: string)
    requires pattern in listing && EndsWithWildcard(pattern)
    ensures MatchesFilter(name, listing) && name !in listing
  {
    var prefix := pattern[..|pattern| - 2];
    name := prefix + "." + seq(TotalLength(listing) + 1, _ => 'x');
    var i :| 0 <= i < |listing| && listing[i] == pattern;
    assert prefix + "." <= name;
    assert MatchesPattern(name, listing[i]);
    if name in listing {
      NoLongerThanTotal(listing, name);
    }
  }

  /** Every visible tool is callable exactly when the tenant is unrestricted or no pattern ends in ".*". */
  lemma {:induction false} VisibleIsCallableExactly(allowed: set<string>, listing: seq<string>)
    requires Enumerates(listing, allowed)
    ensures (forall name :: Visible(TenantFilter(allowed, listing), name) ==> CanCall(allowed, name)) <==>
            ("*" in allowed || forall p | p in allowed :: !EndsWithWildcard(p))
  {
    if "*" !in allowed {
      if p :| p in allowed && EndsWithWildcard(p) {
        var name := WildcardShowsMore(listing, p);
        assert Visible(TenantFilter(allowed, listing), name) && !CanCall(allowed, name);
      } else {
        forall name | MatchesFilter(name, listing)
          ensures name in allowed
        {
          var i :| 0 <= i < |listing| && MatchesPattern(name, listing[i]);
          assert listing[i] in listing;
        }
      }
    }
  }
}
