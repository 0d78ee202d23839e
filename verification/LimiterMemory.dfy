/** The memory of the rate limiter stays small (src/lib.rs:520-534). */
module LimiterMemory {
  import opened RateLimiter

  /** No address holds more than the limit, and none is kept 61 s, and the skew, after its last stamp. */
  ghost predicate Small(limits: Limits, t: Table, now: nat, skew: nat) {
    && t.lastCleanup <= now + skew && now <= t.lastCleanup + SWEEP_INTERVAL_MS
    && EntriesSmall(limits, t, skew)
  }

  ghost predicate EntriesSmall(limits: Limits, t: Table, skew: nat) {
    forall ip | ip in t.requests ::
      && |t.requests[ip]| <= limits.perIp
      && AnyNewer(t.requests[ip], t.lastCleanup - WINDOW_MS - skew)
  }

  lemma {:induction false} StaysSmallStep(limits: Limits, t: Table, ip: Ip, now: nat, skew: nat)
    requires limits.perIp >= 1 && EntriesSmall(limits, t, skew) && t.lastCleanup <= now + skew
    ensures Small(limits, Check(limits, t, ip, now).0, now, skew)
  {
    var s := AfterSweep(t, now);
    var ws := WindowStart(now);
    var stored := Stored(s.requests, ip);
    NewerMembers(stored, ws);
    var r := Check(limits, t, ip, now).0;
    forall other | other in r.requests
      ensures |r.requests[other]| <= limits.perIp
      ensures AnyNewer(r.requests[other], r.lastCleanup - WINDOW_MS - skew)
    {
      if other == ip {
        var entry := r.requests[ip];
        var last := |entry| - 1;
        assert entry[last] in entry;
        assert entry[last] > r.lastCleanup - WINDOW_MS - skew;
      } else {
        assert other in t.requests && r.requests[other] == t.requests[other];
      }
    }
  }

  lemma {:induction false} SweptBefore(limits: Limits, reqs: seq<Request>, now: nat, skew: nat)
    requires Behind(reqs, now, skew)
    ensures Run(limits, reqs).table.lastCleanup <= now + skew
  {
    if reqs == [] {
    } else {
      SweptBefore(limits, reqs[..|reqs| - 1], now, skew);
    }
  }

  /** With a per-address limit of at least one, after every check of every run each stored address has at most the
      limit of stamps and at least one stamp newer than 61,000 ms and the skew. */
  lemma {:induction false} StaysSmall(limits: Limits, reqs: seq<Request>, skew: nat)
    requires Skewed(reqs, skew) && reqs != [] && limits.perIp >= 1
    ensures var now, stored := reqs[|reqs| - 1].at, Run(limits, reqs).table.requests;
            && Small(limits, Run(limits, reqs).table, now, skew)
            && forall ip | ip in stored ::
                 && 1 <= |stored[ip]| <= limits.perIp
                 && AnyNewer(stored[ip], now - 61_000 - skew)
  {
    var n := |reqs| - 1;
    var now: int := reqs[n].at;
    SkewedFirst(reqs, skew);
    if n > 0 {
      StaysSmall(limits, reqs[..n], skew);
    }
    SweptBefore(limits, reqs[..n], now, skew);
    StaysSmallStep(limits, Run(limits, reqs[..n]).table, reqs[n].ip, now, skew);
    var r := Run(limits, reqs).table;
    forall ip | ip in r.requests
      ensures AnyNewer(r.requests[ip], now - 61_000 - skew)
    {
      var i :| 0 <= i < |r.requests[ip]| && r.requests[ip][i] > r.lastCleanup - WINDOW_MS - skew;
    }
  }
}
