/** The sliding-window rate limiter of the gateway (src/lib.rs:508-548).

    `Check` is one call under the lock, as a function of the stored stamps. `Limiter.CheckRateLimit`
    is the in-place code, proved against it. The theorems are about `Run`, the fold of `Check` over
    an arbitrary sequence of requests, in the order in which they take the lock. Each has read the clock
    before it took the lock, so the stamps may be out of order by as much as a request waits. */
module RateLimiter {
  import opened Sums

  type Ip = string

  const WINDOW_MS: nat := 1000
  const SWEEP_INTERVAL_MS: nat := 60_000

  datatype Limits = Limits(perIp: nat, global: nat)
  datatype Table = Table(requests: map<Ip, seq<nat>>, lastCleanup: nat)

  // A globally refused request has already been recorded when it is refused.
  datatype Verdict = Accepted | IpRefused | GlobalRefused

  function SaturatingSub(a: nat, b: nat): nat {
    if a < b then 0 else a - b
  }

  function WindowStart(now: nat): nat {
    SaturatingSub(now, WINDOW_MS)
  }

  /** `retain(|t| t > cutoff)` on a vector of stamps. */
  function Newer(stamps: seq<nat>, cutoff: int): seq<nat> {
    if stamps == [] then []
    else Newer(stamps[..|stamps| - 1], cutoff) +
         if stamps[|stamps| - 1] > cutoff then [stamps[|stamps| - 1]] else []
  }

  predicate AnyNewer(stamps: seq<nat>, cutoff: int) {
    exists i :: 0 <= i < |stamps| && stamps[i] > cutoff
  }

  /** The sweep keeps an address as long as one of its stamps is inside the window. */
  function Swept(requests: map<Ip, seq<nat>>, windowStart: nat): map<Ip, seq<nat>> {
    map ip | ip in requests && AnyNewer(requests[ip], windowStart) :: requests[ip]
  }

  function Stored(requests: map<Ip, seq<nat>>, ip: Ip): seq<nat> {
    if ip in requests then requests[ip] else []
  }

  ghost function NewerCounts(requests: map<Ip, seq<nat>>, cutoff: int): map<Ip, nat> {
    map ip | ip in requests :: |Newer(requests[ip], cutoff)|
  }

  ghost function Lengths(requests: map<Ip, seq<nat>>): map<Ip, nat> {
    map ip | ip in requests :: |requests[ip]|
  }

  ghost function TotalNewer(requests: map<Ip, seq<nat>>, cutoff: int): nat {
    Sum(NewerCounts(requests, cutoff))
  }

  ghost function TotalStored(requests: map<Ip, seq<nat>>): nat {
    Sum(Lengths(requests))
  }

  function AfterSweep(t: Table, now: nat): Table {
    if SaturatingSub(now, t.lastCleanup) > SWEEP_INTERVAL_MS
    then Table(Swept(t.requests, WindowStart(now)), now) else t
  }

  /** Prune the entry of `ip` and append the stamp unless the entry is full. */
  function Record(perIp: nat, t: Table, ip: Ip, now: nat): (Table, bool) {
    var s := AfterSweep(t, now);
    var kept := Newer(Stored(s.requests, ip), WindowStart(now));
    if |kept| >= perIp then (s.(requests := s.requests[ip := kept]), false)
    else (s.(requests := s.requests[ip := kept + [now]]), true)
  }

  /** One call of the limiter, with the limiter enabled. */
  ghost function Check(limits: Limits, t: Table, ip: Ip, now: nat): (Table, Verdict) {
    var (r, recorded) := Record(limits.perIp, t, ip, now);
    (r, if !recorded then IpRefused
        else if TotalStored(r.requests) > limits.global then GlobalRefused
        else Accepted)
  }

  /** The static counters and table of the limiter. */
  class Limiter {
    var enabled: bool
    var limits: Limits
    var table: Table

    constructor ()
      ensures !enabled && limits == Limits(1000, 10_000) && table == Table(map[], 0)
    {
      enabled, limits, table := false, Limits(1000, 10_000), Table(map[], 0);
    }

    method CheckRateLimit(clientIp: Ip, now: nat) returns (ok: bool)
      modifies this`table
      ensures !enabled ==> ok && table == old(table)
      ensures enabled ==> table == Check(limits, old(table), clientIp, now).0
      ensures enabled ==> (ok <==> Check(limits, old(table), clientIp, now).1.Accepted?)
    {
      if !enabled {
        return true;
      }
      var windowStart := SaturatingSub(now, WINDOW_MS);
      if SaturatingSub(now, table.lastCleanup) > SWEEP_INTERVAL_MS {
        table := table.(requests := Swept(table.requests, windowStart));
        table := table.(lastCleanup := now);
      }
      ghost var swept := table.requests;
      assert table == AfterSweep(old(table), now);
      if clientIp !in table.requests {
        table := table.(requests := table.requests[clientIp := []]);
      }
      var entry := Newer(table.requests[clientIp], windowStart);
      assert entry == Newer(Stored(swept, clientIp), windowStart);
      table := table.(requests := table.requests[clientIp := entry]);
      assert table.requests == swept[clientIp := entry];
      if |entry| >= limits.perIp {
        return false;
      }
      table := table.(requests := table.requests[clientIp := entry + [now]]);
      assert table.requests == swept[clientIp := entry + [now]];
      var total := SumOfLengths(table.requests);
      return total <= limits.global;
    }
  }

  /** `requests.values().map(|v| v.len()).sum()`. */
  method SumOfLengths(requests: map<Ip, seq<nat>>) returns (total: nat)
    ensures total == TotalStored(requests)
  {
    total := 0;
    var rest := requests;
    while rest != map[]
      invariant total + TotalStored(rest) == TotalStored(requests)
      decreases |rest|
    {
      var ip :| ip in rest;
      SumSplit(Lengths(rest), ip);
      assert Lengths(rest - {ip}) == Lengths(rest) - {ip};
      total := total + |rest[ip]|;
      rest := rest - {ip};
    }
  }

  // ---------------------------------------------------------------- runs

  datatype Request = Request(ip: Ip, at: nat)
  datatype History = History(table: Table, verdicts: seq<Verdict>)

  ghost function Run(limits: Limits, reqs: seq<Request>): (h: History)
    ensures |h.verdicts| == |reqs|
  {
    if reqs == [] then History(Table(map[], 0), []) else
      var n := |reqs| - 1;
      var before := Run(limits, reqs[..n]);
      var (t, v) := Check(limits, before.table, reqs[n].ip, reqs[n].at);
      History(t, before.verdicts + [v])
  }

  /** No stamp is more than `skew` behind an earlier one. */
  ghost predicate Skewed(reqs: seq<Request>, skew: nat) {
    forall i, j | 0 <= i <= j < |reqs| :: reqs[i].at <= reqs[j].at + skew
  }

  /** Request i takes the lock at `lockedAt[i]`, no earlier than it read the clock and at most `delay` later. */
  ghost predicate Delayed(reqs: seq<Request>, lockedAt: seq<nat>, delay: nat) {
    && |lockedAt| == |reqs|
    && (forall i | 0 <= i < |reqs| :: reqs[i].at <= lockedAt[i] <= reqs[i].at + delay)
    && (forall i, j | 0 <= i <= j < |reqs| :: lockedAt[i] <= lockedAt[j])
  }

  /** The skew of a run is the longest wait between reading the clock and taking the lock. */
  lemma {:induction false} SkewIsDelay(reqs: seq<Request>, delay: nat)
    ensures Skewed(reqs, delay) <==> exists lockedAt :: Delayed(reqs, lockedAt, delay)
  {
    if lockedAt :| Delayed(reqs, lockedAt, delay) {
      forall i, j | 0 <= i <= j < |reqs|
        ensures reqs[i].at <= reqs[j].at + delay
      {
        assert lockedAt[i] <= lockedAt[j];
      }
    }
    if Skewed(reqs, delay) {
      LatestIsDelayed(reqs, delay);
    }
  }

  function Latest(reqs: seq<Request>): nat {
    if reqs == [] then 0 else
      var before, last := Latest(reqs[..|reqs| - 1]), reqs[|reqs| - 1].at;
      if before < last then last else before
  }

  lemma {:induction false} LatestIs(reqs: seq<Request>)
    ensures forall i | 0 <= i < |reqs| :: reqs[i].at <= Latest(reqs)
    ensures reqs != [] ==> exists i :: 0 <= i < |reqs| && reqs[i].at == Latest(reqs)
  {
    if reqs == [] {
    } else {
      var n := |reqs| - 1;
      LatestIs(reqs[..n]);
      if n > 0 {
        var i :| 0 <= i < n && reqs[..n][i].at == Latest(reqs[..n]);
        assert reqs[i].at == Latest(reqs[..n]);
      }
    }
  }

  lemma {:induction false} LatestUpTo(reqs: seq<Request>, j: nat) returns (i: nat)
    requires j < |reqs|
    ensures i <= j && reqs[i].at == Latest(reqs[..j + 1])
    ensures forall k | 0 <= k <= j :: reqs[k].at <= Latest(reqs[..j + 1])
  {
    var first := reqs[..j + 1];
    LatestIs(first);
    i :| 0 <= i < |first| && first[i].at == Latest(first);
    forall k | 0 <= k <= j
      ensures reqs[k].at <= Latest(first)
    {
      assert first[k] == reqs[k];
    }
  }

  lemma {:induction false} LatestIsDelayed(reqs: seq<Request>, delay: nat)
    requires Skewed(reqs, delay)
    ensures Delayed(reqs, seq(|reqs|, j requires 0 <= j < |reqs| => Latest(reqs[..j + 1])), delay)
  {
    var lockedAt := seq(|reqs|, j requires 0 <= j < |reqs| => Latest(reqs[..j + 1]));
    forall j | 0 <= j < |reqs|
      ensures reqs[j].at <= lockedAt[j] <= reqs[j].at + delay
      ensures forall k | 0 <= k <= j :: lockedAt[k] <= lockedAt[j]
    {
      var i := LatestUpTo(reqs, j);
      forall k | 0 <= k <= j
        ensures lockedAt[k] <= lockedAt[j]
      {
        var i' := LatestUpTo(reqs, k);
      }
    }
  }

  datatype Who = Only(ip: Ip) | Everyone

  predicate Covers(who: Who, ip: Ip) {
    who.Everyone? || who.ip == ip
  }

  /** How many requests of `who` stamped in (lo, hi] were accepted. */
  ghost function AcceptedIn(reqs: seq<Request>, verdicts: seq<Verdict>, who: Who, lo: int, hi: int): nat
    requires |reqs| == |verdicts|
  {
    if reqs == [] then 0 else
      var n := |reqs| - 1;
      AcceptedIn(reqs[..n], verdicts[..n], who, lo, hi) +
      if verdicts[n].Accepted? && Covers(who, reqs[n].ip) && lo < reqs[n].at <= hi then 1 else 0
  }

  /** How many requests of `who` stamped after `lo` were recorded, accepted or not. */
  ghost function RecordedAfter(reqs: seq<Request>, verdicts: seq<Verdict>, who: Who, lo: int): nat
    requires |reqs| == |verdicts|
  {
    if reqs == [] then 0 else
      var n := |reqs| - 1;
      RecordedAfter(reqs[..n], verdicts[..n], who, lo) +
      if !verdicts[n].IpRefused? && Covers(who, reqs[n].ip) && lo < reqs[n].at then 1 else 0
  }

  // ---------------------------------------------------------------- stamps

  lemma {:induction false} NewerMembers(s: seq<nat>, cutoff: int)
    ensures |Newer(s, cutoff)| <= |s|
    ensures forall x :: x in Newer(s, cutoff) <==> x in s && x > cutoff
  {
    if s == [] {
    } else {
      NewerMembers(s[..|s| - 1], cutoff);
      assert s == s[..|s| - 1] + [s[|s| - 1]];
    }
  }

  lemma {:induction false} NewerTwice(s: seq<nat>, first: int, second: int)
    requires first <= second
    ensures Newer(Newer(s, first), second) == Newer(s, second)
  {
    if s == [] {
    } else {
      var init, last := s[..|s| - 1], s[|s| - 1];
      NewerTwice(init, first, second);
      if last > first {
        NewerAppend(Newer(init, first), last, second);
      } else {
        assert Newer(s, first) == Newer(init, first);
      }
    }
  }

  lemma {:induction false} NewerFewer(s: seq<nat>, first: int, second: int)
    ensures |Newer(Newer(s, first), second)| <= |Newer(s, second)|
  {
    if s == [] {
    } else {
      var init, last := s[..|s| - 1], s[|s| - 1];
      NewerFewer(init, first, second);
      if last > first {
        NewerAppend(Newer(init, first), last, second);
      } else {
        assert Newer(s, first) == Newer(init, first);
      }
    }
  }

  lemma {:induction false} NewerMonotone(s: seq<nat>, first: int, second: int)
    requires first <= second
    ensures |Newer(s, second)| <= |Newer(s, first)|
  {
    if s == [] {
    } else {
      NewerMonotone(s[..|s| - 1], first, second);
    }
  }

  lemma {:induction false} NewerAppend(s: seq<nat>, x: nat, cutoff: int)
    ensures Newer(s + [x], cutoff) == Newer(s, cutoff) + if x > cutoff then [x] else []
  {
    assert (s + [x])[..|s|] == s;
  }

  lemma {:induction false} NewerNone(s: seq<nat>, cutoff: int)
    requires forall i | 0 <= i < |s| :: s[i] <= cutoff
    ensures Newer(s, cutoff) == []
  {
    if s == [] {
    } else {
      NewerNone(s[..|s| - 1], cutoff);
    }
  }

  // ---------------------------------------------------------------- one call and the stored stamps

  /** The sweep loses no stamp that is still inside the window. */
  lemma {:induction false} SweepKeepsWindow(t: Table, now: nat, c: int)
    requires c >= WindowStart(now)
    ensures forall ip :: Newer(Stored(AfterSweep(t, now).requests, ip), c) == Newer(Stored(t.requests, ip), c)
    ensures TotalNewer(AfterSweep(t, now).requests, c) == TotalNewer(t.requests, c)
  {
    var after := AfterSweep(t, now).requests;
    forall ip | ip in t.requests && ip !in after
      ensures Newer(t.requests[ip], c) == []
    {
      NewerNone(t.requests[ip], c);
    }
    SumRestrict(NewerCounts(t.requests, c), after.Keys);
    assert NewerCounts(after, c) ==
      map ip | ip in NewerCounts(t.requests, c) && ip in after.Keys :: NewerCounts(t.requests, c)[ip];
  }

  lemma {:induction false} EntryReplaced(requests: map<Ip, seq<nat>>, ip: Ip, entry: seq<nat>, c: int)
    ensures TotalNewer(requests[ip := entry], c) + |Newer(Stored(requests, ip), c)| ==
            TotalNewer(requests, c) + |Newer(entry, c)|
  {
    SumUpdate(NewerCounts(requests, c), ip, |Newer(entry, c)|);
    assert NewerCounts(requests[ip := entry], c) == NewerCounts(requests, c)[ip := |Newer(entry, c)|];
  }

  /** What one call does to the entry it prunes, seen above a cutoff inside the window. */
  lemma {:induction false} RecordRewrites(perIp: nat, t: Table, ip: Ip, now: nat, c: int)
    requires c >= WindowStart(now)
    ensures var (r, recorded) := Record(perIp, t, ip, now);
            && r.requests == AfterSweep(t, now).requests[ip := r.requests[ip]]
            && |Newer(r.requests[ip], c)| ==
               |Newer(Stored(AfterSweep(t, now).requests, ip), c)| + if recorded && c < now then 1 else 0
  {
    var stored := Stored(AfterSweep(t, now).requests, ip);
    NewerTwice(stored, WindowStart(now), c);
    NewerAppend(Newer(stored, WindowStart(now)), now, c);
  }

  /** One call adds exactly its own stamp, if it records one, to what is stored above any cutoff in the window. */
  lemma {:induction false} RecordCounts(perIp: nat, t: Table, req: Request, ip: Ip, c: int)
    requires c >= WindowStart(req.at)
    ensures var (r, recorded) := Record(perIp, t, req.ip, req.at);
            var more := recorded && c < req.at;
            && |Newer(Stored(r.requests, ip), c)| ==
               |Newer(Stored(t.requests, ip), c)| + (if more && req.ip == ip then 1 else 0)
            && TotalNewer(r.requests, c) == TotalNewer(t.requests, c) + (if more then 1 else 0)
  {
    var r := Record(perIp, t, req.ip, req.at).0.requests;
    RecordRewrites(perIp, t, req.ip, req.at, c);
    SweepKeepsWindow(t, req.at, c);
    EntryReplaced(AfterSweep(t, req.at).requests, req.ip, r[req.ip], c);
  }

  ghost predicate StoredMatches(reqs: seq<Request>, h: History, ip: Ip, c: int)
    requires |reqs| == |h.verdicts|
  {
    && |Newer(Stored(h.table.requests, ip), c)| == RecordedAfter(reqs, h.verdicts, Only(ip), c)
    && TotalNewer(h.table.requests, c) == RecordedAfter(reqs, h.verdicts, Everyone, c)
  }

  lemma {:induction false} StoredMatchesStep(perIp: nat, reqs: seq<Request>, h: History, h': History, ip: Ip, c: int)
    requires |reqs| == |h'.verdicts| == |h.verdicts| + 1 && h'.verdicts[..|h.verdicts|] == h.verdicts
    requires var n := |h.verdicts|;
             && StoredMatches(reqs[..n], h, ip, c) && c >= WindowStart(reqs[n].at)
             && (h'.table, !h'.verdicts[n].IpRefused?) == Record(perIp, h.table, reqs[n].ip, reqs[n].at)
    ensures StoredMatches(reqs, h', ip, c)
  {
    RecordCounts(perIp, h.table, reqs[|h.verdicts|], ip, c);
  }

  /** In every run, what is stored above a cutoff that no window has started after is what was recorded there. */
  lemma {:induction false} StoredIsRecorded(limits: Limits, reqs: seq<Request>, ip: Ip, c: int)
    requires forall i | 0 <= i < |reqs| :: c >= WindowStart(reqs[i].at)
    ensures StoredMatches(reqs, Run(limits, reqs), ip, c)
  {
    if reqs == [] {
    } else {
      var n := |reqs| - 1;
      StoredIsRecorded(limits, reqs[..n], ip, c);
      StoredMatchesStep(limits.perIp, reqs, Run(limits, reqs[..n]), Run(limits, reqs), ip, c);
    }
  }

  lemma {:induction false} AcceptedAreRecorded(reqs: seq<Request>, verdicts: seq<Verdict>, who: Who, lo: int, hi: int)
    requires |reqs| == |verdicts|
    ensures AcceptedIn(reqs, verdicts, who, lo, hi) <= RecordedAfter(reqs, verdicts, who, lo)
  {
    if reqs == [] {
    } else {
      var n := |reqs| - 1;
      AcceptedAreRecorded(reqs[..n], verdicts[..n], who, lo, hi);
    }
  }

  lemma {:induction false} TotalNewerAtMostStored(requests: map<Ip, seq<nat>>, c: int)
    ensures TotalNewer(requests, c) <= TotalStored(requests)
  {
    forall ip | ip in requests
      ensures |Newer(requests[ip], c)| <= |requests[ip]|
    {
      NewerMembers(requests[ip], c);
    }
    SumMonotone(NewerCounts(requests, c), Lengths(requests));
  }

  lemma {:induction false} RunExtended(limits: Limits, reqs: seq<Request>, next: Request)
    ensures var h := Run(limits, reqs);
            var (t, v) := Check(limits, h.table, next.ip, next.at);
            Run(limits, reqs + [next]) == History(t, h.verdicts + [v])
  {
    assert (reqs + [next])[..|reqs|] == reqs;
  }

  lemma {:induction false} AcceptedExtended(reqs: seq<Request>, verdicts: seq<Verdict>, next: Request, v: Verdict,
                                            who: Who, lo: int, hi: int)
    requires |reqs| == |verdicts|
    ensures AcceptedIn(reqs + [next], verdicts + [v], who, lo, hi) ==
            AcceptedIn(reqs, verdicts, who, lo, hi) +
            if v.Accepted? && Covers(who, next.ip) && lo < next.at <= hi then 1 else 0
  {
    assert (reqs + [next])[..|reqs|] == reqs && (verdicts + [v])[..|reqs|] == verdicts;
  }

  /** No stamp is more than `skew` ahead of `now`. */
  ghost predicate Behind(reqs: seq<Request>, now: nat, skew: nat) {
    forall i | 0 <= i < |reqs| :: reqs[i].at <= now + skew
  }

  lemma {:induction false} SkewedInit(reqs: seq<Request>, next: Request, skew: nat)
    requires Skewed(reqs + [next], skew)
    ensures Skewed(reqs, skew) && Behind(reqs, next.at, skew)
  {
    var all := reqs + [next];
    assert all[|reqs|] == next && forall i | 0 <= i < |reqs| :: all[i] == reqs[i];
    forall i | 0 <= i < |reqs|
      ensures reqs[i].at <= next.at + skew
    {
      assert all[i].at <= all[|reqs|].at + skew;
    }
    forall i, j | 0 <= i <= j < |reqs|
      ensures reqs[i].at <= reqs[j].at + skew
    {
      assert all[i].at <= all[j].at + skew;
    }
  }

  lemma {:induction false} SkewedFirst(reqs: seq<Request>, skew: nat)
    requires reqs != [] && Skewed(reqs, skew)
    ensures var n := |reqs| - 1; Skewed(reqs[..n], skew) && Behind(reqs[..n], reqs[n].at, skew)
  {
  }
}
