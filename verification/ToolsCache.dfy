/** The TTL cache in front of tool discovery (src/lib.rs:611-626, 930-962, 1052-1067, 1309-1350, 1498-1508,
    1561-1574).

    The machine interleaves the lock-guarded blocks: a lookup, the registry snapshot of a miss and the store that ends
    it are separate steps, and a registry change is a separate step from the invalidation that follows it. */
module ToolsCache {
  import opened Options
  import opened ToolOrder

  datatype Entry = Entry(tools: seq<Tool>, createdAt: nat)

  /** name -> URL */
  type Registry = map<string, string>

  /** What an upstream answers, already prefixed with its name; fixed while the theorems look at the cache. */
  type Answers = (string, string) -> seq<Tool>

  predicate IsLive(cache: Option<Entry>, ttl: nat, now: nat) {
    cache.Some? && now < cache.value.createdAt + ttl
  }

  // ---------------------------------------------------------------- one fetch

  /** All tools of all registered upstreams. */
  ghost function Gather(registry: Registry, answers: Answers): multiset<Tool> {
    if registry == map[] then multiset{} else
      var name :| name in registry;
      multiset(answers(name, registry[name])) + Gather(registry - {name}, answers)
  }

  lemma {:induction false} GatherSplit(registry: Registry, answers: Answers, name: string)
    requires name in registry
    ensures Gather(registry, answers) ==
            multiset(answers(name, registry[name])) + Gather(registry - {name}, answers)
    decreases |registry|
  {
    var pick :| pick in registry && Gather(registry, answers) ==
      multiset(answers(pick, registry[pick])) + Gather(registry - {pick}, answers);
    if pick != name {
      GatherSplit(registry - {pick}, answers, name);
      GatherSplit(registry - {name}, answers, pick);
      assert registry - {pick} - {name} == registry - {name} - {pick};
    }
  }

  /** The results of the spawned tasks are joined in the order in which they happen to finish. */
  method Collect(registry: Registry, answers: Answers) returns (collected: seq<Tool>)
    ensures multiset(collected) == Gather(registry, answers)
  {
    collected := [];
    var pending := registry;
    while pending != map[]
      invariant multiset(collected) + Gather(pending, answers) == Gather(registry, answers)
      decreases |pending|
    {
      var name :| name in pending;
      GatherSplit(pending, answers, name);
      collected := collected + answers(name, pending[name]);
      pending := pending - {name};
    }
  }

  // ---------------------------------------------------------------- the interleaving machine

  type FetchId = nat

  datatype Phase = Missed | Fetching(snapshot: Registry)

  /** `source` is the registry from which the cached tools were fetched: the program does not keep it. */
  datatype Cached = Cached(entry: Entry, source: Registry)

  datatype State = State(registry: Registry, cache: Option<Cached>, ttl: nat, fetches: map<FetchId, Phase>,
                         awaiting: nat)

  datatype Event =
    | Hit(now: nat)                                    // a lookup that serves the cached list
    | Miss(f: FetchId, now: nat)                       // a lookup that finds nothing live
    | Snapshot(f: FetchId)                             // reads the registry
    | Store(f: FetchId, tools: seq<Tool>, now: nat)    // the tools, in the order in which they were joined
    | Register(name: string, url: string)
    | Unregister(name: string)
    | Invalidate                                       // the step owed after a change
    | Clear                                            // clear_tools_cache, or a new TTL taking effect
    | SetTtl(ttl: nat)

  const INIT := State(map[], None, 30_000, map[], 0)

  function EntryOf(s: State): Option<Entry> {
    if s.cache.None? then None else Some(s.cache.value.entry)
  }

  ghost predicate Enabled(s: State, e: Event, answers: Answers) {
    match e
    case Hit(now) => IsLive(EntryOf(s), s.ttl, now)
    case Miss(f, now) => f !in s.fetches && !IsLive(EntryOf(s), s.ttl, now)
    case Snapshot(f) => f in s.fetches && s.fetches[f].Missed?
    case Store(f, tools, _) =>
      f in s.fetches && s.fetches[f].Fetching? && multiset(tools) == Gather(s.fetches[f].snapshot, answers)
    case Unregister(name) => name in s.registry
    case Invalidate => s.awaiting > 0
    case _ => true
  }

  ghost function Step(s: State, e: Event, answers: Answers): State {
    if !Enabled(s, e, answers) then s else
      match e
      case Hit(_) => s
      case Miss(f, _) => s.(fetches := s.fetches[f := Missed])
      case Snapshot(f) => s.(fetches := s.fetches[f := Fetching(s.registry)])
      case Store(f, tools, now) =>
        s.(cache := Some(Cached(Entry(tools, now), s.fetches[f].snapshot)), fetches := s.fetches - {f})
      case Register(name, url) => s.(registry := s.registry[name := url], awaiting := s.awaiting + 1)
      case Unregister(name) => s.(registry := s.registry - {name}, awaiting := s.awaiting + 1)
      case Invalidate => s.(cache := None, awaiting := s.awaiting - 1)
      case Clear => s.(cache := None)
      case SetTtl(ttl) => s.(ttl := ttl)
  }

  ghost function Run(events: seq<Event>, answers: Answers): State {
    if events == [] then INIT
    else Step(Run(events[..|events| - 1], answers), events[|events| - 1], answers)
  }

  /** A fetch overlaps a change when the change falls between its snapshot and its store. */
  ghost predicate Overlaps(s: State, e: Event) {
    (e.Register? || e.Unregister?) && exists f :: f in s.fetches && s.fetches[f].Fetching?
  }

  ghost predicate NoOverlap(events: seq<Event>, answers: Answers) {
    events == [] ||
    (NoOverlap(events[..|events| - 1], answers) &&
     !Overlaps(Run(events[..|events| - 1], answers), events[|events| - 1]))
  }

  // ---------------------------------------------------------------- theorems over every interleaving

  ghost predicate Current(s: State) {
    && (forall f | f in s.fetches && s.fetches[f].Fetching? :: s.fetches[f].snapshot == s.registry)
    && (s.cache.Some? && s.awaiting == 0 ==> s.cache.value.source == s.registry)
  }

  lemma {:induction false} NoOverlapKeepsCurrent(events: seq<Event>, answers: Answers)
    requires NoOverlap(events, answers)
    ensures Current(Run(events, answers))
  {
    if events == [] {
    } else {
      var n := |events| - 1;
      NoOverlapKeepsCurrent(events[..n], answers);
      StepKeepsCurrent(Run(events[..n], answers), events[n], answers);
    }
  }

  lemma {:induction false} StepKeepsCurrent(s: State, e: Event, answers: Answers)
    requires Current(s) && !Overlaps(s, e)
    ensures Current(Step(s, e, answers))
  {
  }

  lemma {:induction false} CachedIsItsSource(events: seq<Event>, answers: Answers)
    ensures var s := Run(events, answers);
            s.cache.Some? ==> multiset(s.cache.value.entry.tools) == Gather(s.cache.value.source, answers)
  {
    if events == [] {
    } else {
      CachedIsItsSource(events[..|events| - 1], answers);
    }
  }

  /** In every interleaving in which no fetch overlaps a registry change, a hit taken when no change awaits its
      invalidation returns the multiset of tools that a fresh fetch over the current registry would. */
  lemma {:induction false} HitAgreesWithFreshFetch(events: seq<Event>, answers: Answers, now: nat)
    requires NoOverlap(events, answers)
    requires var s := Run(events, answers); s.awaiting == 0 && IsLive(EntryOf(s), s.ttl, now)
    ensures var s := Run(events, answers);
            multiset(EntryOf(s).value.tools) == Gather(s.registry, answers)
  {
    NoOverlapKeepsCurrent(events, answers);
    CachedIsItsSource(events, answers);
  }

  ghost predicate FetchingSince(events: seq<Event>, answers: Answers, f: FetchId, snapshot: Registry, j: nat, i: nat) {
    && j < i <= |events| && events[j] == Snapshot(f) && Run(events[..j], answers).registry == snapshot
    && forall k | j < k <= i :: f in Run(events[..k], answers).fetches &&
                                Run(events[..k], answers).fetches[f] == Fetching(snapshot)
  }

  /** `c` was stored by event i, the end of a fetch whose snapshot of the registry was event j, and has been in the
      cache since. */
  ghost predicate StoredAt(events: seq<Event>, answers: Answers, c: Cached, j: nat, i: nat) {
    && i < |events| && events[i].Store?
    && Entry(events[i].tools, events[i].now) == c.entry
    && FetchingSince(events, answers, events[i].f, c.source, j, i)
    && forall k | i < k <= |events| :: Run(events[..k], answers).cache == Some(c)
  }

  lemma {:induction false} SnapshotsAreRegistries(events: seq<Event>, answers: Answers, f: FetchId) returns (j: nat)
    requires var s := Run(events, answers); f in s.fetches && s.fetches[f].Fetching?
    ensures FetchingSince(events, answers, f, Run(events, answers).fetches[f].snapshot, j, |events|)
  {
    var n := |events| - 1;
    var before := Run(events[..n], answers);
    assert events[..n + 1] == events;
    if events[n] == Snapshot(f) && Enabled(before, events[n], answers) {
      j := n;
    } else {
      j := SnapshotsAreRegistries(events[..n], answers, f);
      FetchingLonger(events, answers, f, Run(events, answers).fetches[f].snapshot, j, n);
    }
  }

  lemma {:induction false} FetchingLonger(events: seq<Event>, answers: Answers, f: FetchId, snapshot: Registry, j: nat,
                                          n: nat)
    requires n <= |events| && FetchingSince(events[..n], answers, f, snapshot, j, n)
    ensures FetchingSince(events, answers, f, snapshot, j, n)
  {
    forall k | j <= k <= n
      ensures events[..n][..k] == events[..k]
    {
    }
  }

  lemma {:induction false} CacheWasStored(events: seq<Event>, answers: Answers) returns (j: nat, i: nat)
    requires Run(events, answers).cache.Some?
    ensures StoredAt(events, answers, Run(events, answers).cache.value, j, i)
  {
    var n := |events| - 1;
    var before := Run(events[..n], answers);
    assert events[..n + 1] == events;
    if events[n].Store? && Enabled(before, events[n], answers) {
      i := n;
      j := SnapshotsAreRegistries(events[..n], answers, events[n].f);
      FetchingLonger(events, answers, events[n].f, before.fetches[events[n].f].snapshot, j, n);
    } else {
      j, i := CacheWasStored(events[..n], answers);
      StoredLonger(events, answers, before.cache.value, j, i);
    }
  }

  lemma {:induction false} StoredLonger(events: seq<Event>, answers: Answers, c: Cached, j: nat, i: nat)
    requires events != [] && StoredAt(events[..|events| - 1], answers, c, j, i) && Run(events, answers).cache == Some(c)
    ensures StoredAt(events, answers, c, j, i)
  {
    var n := |events| - 1;
    assert events[..n + 1] == events;
    forall k | 0 <= k <= n
      ensures events[..n][..k] == events[..k]
    {
    }
  }

  /** In every interleaving at all, what a hit serves is the list for one fetch's snapshot of the registry, stored less
      than one TTL ago. */
  lemma {:induction false} HitServesASnapshot(events: seq<Event>, answers: Answers, now: nat) returns (j: nat, i: nat)
    requires var s := Run(events, answers); IsLive(EntryOf(s), s.ttl, now)
    ensures var s := Run(events, answers);
            && StoredAt(events, answers, s.cache.value, j, i)
            && multiset(EntryOf(s).value.tools) == Gather(Run(events[..j], answers).registry, answers)
            && now < events[i].now + s.ttl
  {
    CachedIsItsSource(events, answers);
    j, i := CacheWasStored(events, answers);
  }

  /** After a store, and until something empties the cache or sets another TTL, a lookup is a hit exactly before the
      list is one TTL old; any other lookup is a miss. */
  lemma {:induction false} ServedUntilExpiry(events: seq<Event>, answers: Answers, f: FetchId, tools: seq<Tool>,
                                             storedAt: nat, g: FetchId, now: nat)
    requires Enabled(Run(events, answers), Store(f, tools, storedAt), answers)
    ensures var s := Step(Run(events, answers), Store(f, tools, storedAt), answers);
            && (Enabled(s, Hit(now), answers) <==> now < storedAt + s.ttl)
            && (Enabled(s, Hit(now), answers) ==> EntryOf(s).value.tools == tools)
            && (g !in s.fetches ==> (Enabled(s, Miss(g, now), answers) <==> now >= storedAt + s.ttl))
            && s.ttl == Run(events, answers).ttl
  {
  }

  // ---------------------------------------------------------------- when overlap is allowed

  function OnlyFrom(name: string, url: string): Answers {
    (n: string, u: string) => if n == name && u == url then [Tool(name, None, "")] else []
  }

  lemma {:induction false} GatherOnlyFrom(registry: Registry, name: string, url: string)
    ensures |Gather(registry, OnlyFrom(name, url))| == if name in registry && registry[name] == url then 1 else 0
    decreases |registry|
  {
    if registry == map[] {
    } else {
      var pick :| pick in registry;
      GatherSplit(registry, OnlyFrom(name, url), pick);
      GatherOnlyFrom(registry - {pick}, name, url);
    }
  }

  /** Fetches over two registries agree, whatever the upstreams answer, exactly when the registries are the same. */
  lemma {:induction false} StandsForExactly(source: Registry, current: Registry)
    ensures (forall answers :: Gather(source, answers) == Gather(current, answers)) <==> source == current
  {
    if source != current {
      var name: string :| (name in source) != (name in current) ||
                          (name in source && name in current && source[name] != current[name]);
      var url := if name in source then source[name] else current[name];
      GatherOnlyFrom(source, name, url);
      GatherOnlyFrom(current, name, url);
      assert Gather(source, OnlyFrom(name, url)) != Gather(current, OnlyFrom(name, url));
    }
  }

  /** While nothing awaits invalidation the registry is the one at the store of the cached list: a later change would
      still be awaiting its invalidation, or the invalidation would have emptied the cache. */
  lemma {:induction false} NothingChangedSince(events: seq<Event>, answers: Answers, c: Cached, i: nat)
    requires i < |events| && events[i].Store? && Run(events, answers).awaiting == 0
    requires forall k | i < k <= |events| :: Run(events[..k], answers).cache == Some(c)
    ensures Run(events, answers).registry == Run(events[..i], answers).registry
  {
    var n := |events| - 1;
    assert events[..n + 1] == events;
    if n == i {
    } else {
      assert Run(events[..n], answers).cache == Some(c);
      forall k | 0 <= k <= n
        ensures events[..n][..k] == events[..k]
      {
      }
      NothingChangedSince(events[..n], answers, c, i);
    }
  }

  /** In every interleaving, overlaps included, a list that is cached while nothing awaits invalidation stands for a
      fresh fetch over the current registry, whatever the upstreams answer, exactly when the registry at its store was
      the one of its snapshot: a test the program could make before it stores. */
  lemma {:induction false} CacheAgreesExactly(events: seq<Event>, answers: Answers, j: nat, i: nat)
    requires var s := Run(events, answers);
             s.cache.Some? && s.awaiting == 0 && StoredAt(events, answers, s.cache.value, j, i)
    ensures var s := Run(events, answers);
            var fetched, stored := Run(events[..j], answers).registry, Run(events[..i], answers).registry;
            && multiset(EntryOf(s).value.tools) == Gather(fetched, answers)
            && ((forall a :: Gather(fetched, a) == Gather(s.registry, a)) <==> fetched == stored)
  {
    var s := Run(events, answers);
    CachedIsItsSource(events, answers);
    NothingChangedSince(events, answers, s.cache.value, i);
    StandsForExactly(Run(events[..j], answers).registry, s.registry);
  }

  lemma {:induction false} OverlappingFetch(url: string, answers: Answers)
    ensures Run([Register("u", url), Invalidate, Miss(0, 0), Snapshot(0), Unregister("u"), Invalidate], answers) ==
            State(map[], None, 30_000, map[0 := Fetching(map["u" := url])], 0)
  {
    var es := [Register("u", url), Invalidate, Miss(0, 0), Snapshot(0), Unregister("u"), Invalidate];
    assert es[..0] == [] && es[..1][..0] == [] && es[..2][..1] == es[..1] && es[..3][..2] == es[..2];
    assert es[..4][..3] == es[..3] && es[..5][..4] == es[..4];
    assert Run(es[..1], answers) == State(map["u" := url], None, 30_000, map[], 1);
    assert Run(es[..3], answers) == State(map["u" := url], None, 30_000, map[0 := Missed], 0);
    assert Run(es[..4], answers) == State(map["u" := url], None, 30_000, map[0 := Fetching(map["u" := url])], 0);
    assert map["u" := url] - {"u"} == map[];
  }

  /** With an overlap, a list fetched before a change can be stored after that change was invalidated: nothing awaits
      invalidation, and a hit serves the tools of an upstream that is no longer registered. */
  lemma {:induction false} OverlapServesStale(url: string, tools: seq<Tool>, answers: Answers)
    requires tools != [] && multiset(tools) == multiset(answers("u", url))
    ensures var s := Run([Register("u", url), Invalidate, Miss(0, 0), Snapshot(0), Unregister("u"), Invalidate,
                          Store(0, tools, 1)], answers);
            && s.awaiting == 0 && IsLive(EntryOf(s), s.ttl, 2)
            && EntryOf(s).value.tools == tools
            && multiset(tools) != Gather(s.registry, answers)
  {
    var es := [Register("u", url), Invalidate, Miss(0, 0), Snapshot(0), Unregister("u"), Invalidate,
               Store(0, tools, 1)];
    assert es[..6] == [Register("u", url), Invalidate, Miss(0, 0), Snapshot(0), Unregister("u"), Invalidate];
    OverlappingFetch(url, answers);
    GatherSplit(map["u" := url], answers, "u");
    assert map["u" := url] - {"u"} == map[];
    assert tools[0] in multiset(tools);
  }
}
