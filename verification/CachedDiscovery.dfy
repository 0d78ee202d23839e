/** Tool discovery behind its cache, in place (src/lib.rs:930-1067, 1309-1350, 1498-1508, 1561-1574).

    Each lock-guarded block is a method, which is one event of the machine of `ToolsCache`; the ghost log holds the
    events so far. Between two blocks other requests may run, so a method asks for no more than its own fetch. */
module CachedDiscovery {
  import opened Options
  import opened ToolOrder
  import opened ToolsCache

  lemma {:induction false} RunAppend(log: seq<Event>, e: Event, answers: Answers)
    ensures Run(log + [e], answers) == Step(Run(log, answers), e, answers)
  {
    assert (log + [e])[..|log|] == log;
  }

  lemma {:induction false} EmptiesCache(log: seq<Event>, e: Event, answers: Answers)
    requires e == Clear || (e == Invalidate && Run(log, answers).awaiting > 0)
    ensures var s := Run(log, answers);
            Run(log + [e], answers) == s.(cache := None, awaiting := if e == Clear then s.awaiting else s.awaiting - 1)
  {
    RunAppend(log, e, answers);
  }

  class ToolsGateway {
    var registry: Registry
    var cache: Option<Entry>
    var ttlMs: nat
    var hits: nat
    var misses: nat
    var invalidations: nat
    const answers: Answers
    ghost var log: seq<Event>

    /** The fields are those of the machine after the log. */
    ghost predicate Valid()
      reads this
    {
      var s := Run(log, answers);
      registry == s.registry && cache == EntryOf(s) && ttlMs == s.ttl
    }

    ghost function Machine(): State
      reads this
    {
      Run(log, answers)
    }

    constructor (answers: Answers)
      ensures Valid() && log == [] && this.answers == answers && hits == misses == invalidations == 0
    {
      registry, cache, ttlMs, hits, misses, invalidations := map[], None, 30_000, 0, 0, 0;
      this.answers, log := answers, [];
    }

    /** A hit taken when no fetch has overlapped a change and nothing awaits invalidation is as good as a fresh
        fetch. */
    method Lookup(ghost f: FetchId, now: nat) returns (served: Option<seq<Tool>>)
      requires Valid() && f !in Machine().fetches
      modifies this`hits, this`misses, this`log
      ensures Valid() && log == old(log) + [if served.Some? then Hit(now) else Miss(f, now)]
      ensures served == if IsLive(cache, ttlMs, now) then Some(cache.value.tools) else None
      ensures served.Some? <==> cache.Some? && now < cache.value.createdAt + ttlMs
      ensures served.Some? && NoOverlap(old(log), answers) && old(Machine()).awaiting == 0 ==>
                multiset(served.value) == Gather(registry, answers)
      ensures if served.Some? then (hits, misses) == (old(hits) + 1, old(misses))
              else (hits, misses) == (old(hits), old(misses) + 1)
      ensures served.None? ==> f in Machine().fetches && Machine().fetches[f].Missed?
    {
      if cache.Some? && now < cache.value.createdAt + ttlMs {
        RunAppend(log, Hit(now), answers);
        if NoOverlap(log, answers) && Machine().awaiting == 0 {
          HitAgreesWithFreshFetch(log, answers, now);
        }
        hits, log := hits + 1, log + [Hit(now)];
        return Some(cache.value.tools);
      }
      RunAppend(log, Miss(f, now), answers);
      misses, log := misses + 1, log + [Miss(f, now)];
      return None;
    }

    /** The upstreams to be asked. */
    method ReadRegistry(ghost f: FetchId) returns (upstreams: Registry)
      requires Valid() && f in Machine().fetches && Machine().fetches[f].Missed?
      modifies this`log
      ensures Valid() && log == old(log) + [Snapshot(f)]
      ensures upstreams == registry && f in Machine().fetches && Machine().fetches[f] == Fetching(upstreams)
    {
      RunAppend(log, Snapshot(f), answers);
      log := log + [Snapshot(f)];
      return registry;
    }

    method StoreTools(ghost f: FetchId, tools: seq<Tool>, now: nat)
      requires Valid() && f in Machine().fetches && Machine().fetches[f].Fetching?
      requires multiset(tools) == Gather(Machine().fetches[f].snapshot, answers)
      modifies this`cache, this`log
      ensures Valid() && log == old(log) + [Store(f, tools, now)]
      ensures cache == Some(Entry(tools, now))
    {
      RunAppend(log, Store(f, tools, now), answers);
      cache, log := Some(Entry(tools, now)), log + [Store(f, tools, now)];
    }

    /** `list_upstream_tools` when nothing runs in between: what it returns is as good as a fresh fetch, and after a
        miss it is one. */
    method ListUpstreamTools(ghost f: FetchId, now: nat, storedAt: nat) returns (tools: seq<Tool>, ghost hit: bool)
      requires Valid() && f !in Machine().fetches
      modifies this`cache, this`hits, this`misses, this`log
      ensures Valid() && registry == old(registry)
      ensures hit <==> IsLive(old(cache), ttlMs, now)
      ensures log == old(log) + if hit then [Hit(now)] else [Miss(f, now), Snapshot(f), Store(f, tools, storedAt)]
      ensures !hit || (NoOverlap(old(log), answers) && old(Machine()).awaiting == 0) ==>
                multiset(tools) == Gather(registry, answers)
    {
      var served := Lookup(f, now);
      if served.Some? {
        return served.value, true;
      }
      var upstreams := ReadRegistry(f);
      tools := Collect(upstreams, answers);
      StoreTools(f, tools, storedAt);
      return tools, false;
    }

    /** The first block of `register_upstream`: from here on the change awaits its invalidation. */
    method InsertUpstream(name: string, url: string)
      requires Valid()
      modifies this`registry, this`log
      ensures Valid() && log == old(log) + [Register(name, url)]
    {
      RunAppend(log, Register(name, url), answers);
      registry, log := registry[name := url], log + [Register(name, url)];
    }

    method RemoveUpstream(name: string) returns (removed: bool)
      requires Valid()
      modifies this`registry, this`log
      ensures Valid() && log == old(log) + if removed then [Unregister(name)] else []
      ensures (removed <==> name in old(registry)) && registry == old(registry) - {name}
    {
      if name !in registry {
        assert registry - {name} == registry;
        return false;
      }
      RunAppend(log, Unregister(name), answers);
      registry, log := registry - {name}, log + [Unregister(name)];
      return true;
    }

    /** Called for a change that awaits it, or for no change at all. */
    method InvalidateToolsCache(ghost owed: bool)
      requires Valid() && (owed ==> Machine().awaiting > 0)
      modifies this`cache, this`invalidations, this`log
      ensures Valid() && log == old(log) + [if owed then Invalidate else Clear]
      ensures invalidations == old(invalidations) + 1
    {
      ghost var event := if owed then Invalidate else Clear;
      EmptiesCache(log, event, answers);
      cache, invalidations, log := None, invalidations + 1, log + [event];
    }

    /** Undisturbed, a registration leaves nothing awaiting that did not await before, and nothing to serve: the next
        lookup is a miss. */
    method RegisterUpstream(name: string, url: string)
      requires Valid()
      modifies this`registry, this`cache, this`invalidations, this`log
      ensures Valid() && log == old(log) + [Register(name, url), Invalidate]
      ensures registry == old(registry)[name := url]
      ensures Machine().awaiting == old(Machine()).awaiting && forall ttl, now :: !IsLive(cache, ttl, now)
    {
      RunAppend(log, Register(name, url), answers);
      InsertUpstream(name, url);
      EmptiesCache(log, Invalidate, answers);
      InvalidateToolsCache(true);
    }

    method UnregisterUpstream(name: string) returns (removed: bool)
      requires Valid()
      modifies this`registry, this`cache, this`invalidations, this`log
      ensures Valid() && log == old(log) + if removed then [Unregister(name), Invalidate] else []
      ensures (removed <==> name in old(registry)) && registry == old(registry) - {name}
      ensures Machine().awaiting == old(Machine()).awaiting
      ensures if removed then forall ttl, now :: !IsLive(cache, ttl, now) else cache == old(cache)
    {
      RunAppend(log, Unregister(name), answers);
      removed := RemoveUpstream(name);
      if removed {
        EmptiesCache(log, Invalidate, answers);
        InvalidateToolsCache(true);
      } else {
        assert log == old(log);
      }
    }

    /** A TTL of zero is an error. */
    method SetToolsCacheTtl(ttlMs: nat) returns (ok: bool)
      requires Valid()
      modifies this`ttlMs, this`cache, this`invalidations, this`log
      ensures Valid() && log == old(log) + if ok then [SetTtl(ttlMs), Clear] else []
      ensures ok <==> ttlMs > 0
    {
      if ttlMs == 0 {
        return false;
      }
      RunAppend(log, SetTtl(ttlMs), answers);
      this.ttlMs, log := ttlMs, log + [SetTtl(ttlMs)];
      InvalidateToolsCache(false);
      return true;
    }
  }
}
