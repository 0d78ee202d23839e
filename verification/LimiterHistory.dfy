/** The verdicts of the rate limiter (src/lib.rs:508-548) from the history of requests and verdicts alone: when an
    address is refused, and when the global limit refuses. */
module LimiterHistory {
  import opened RateLimiter
  import opened Sums

  // ---------------------------------------------------------------- the naive specification

  ghost predicate NeverGloballyRefused(verdicts: seq<Verdict>) {
    forall i | 0 <= i < |verdicts| :: !verdicts[i].GlobalRefused?
  }

  lemma {:induction false} RecordedIsAccepted(reqs: seq<Request>, verdicts: seq<Verdict>, who: Who, lo: int, hi: int)
    requires |reqs| == |verdicts| && NeverGloballyRefused(verdicts)
    requires forall i | 0 <= i < |reqs| :: reqs[i].at <= hi
    ensures RecordedAfter(reqs, verdicts, who, lo) == AcceptedIn(reqs, verdicts, who, lo, hi)
  {
    if reqs == [] {
    } else {
      var n := |reqs| - 1;
      RecordedIsAccepted(reqs[..n], verdicts[..n], who, lo, hi);
    }
  }

  /** Sweeping and pruning only ever remove. */
  lemma {:induction false} RecordAddsAtMost(perIp: nat, t: Table, req: Request, ip: Ip, c: int)
    ensures var (r, recorded) := Record(perIp, t, req.ip, req.at);
            |Newer(Stored(r.requests, ip), c)| <=
            |Newer(Stored(t.requests, ip), c)| + if recorded && req.ip == ip && c < req.at then 1 else 0
  {
    var stored := Stored(AfterSweep(t, req.at).requests, req.ip);
    NewerFewer(stored, WindowStart(req.at), c);
    NewerAppend(Newer(stored, WindowStart(req.at)), req.at, c);
  }

  ghost predicate AtMostRecorded(reqs: seq<Request>, h: History, ip: Ip, c: int)
    requires |reqs| == |h.verdicts|
  {
    |Newer(Stored(h.table.requests, ip), c)| <= RecordedAfter(reqs, h.verdicts, Only(ip), c)
  }

  lemma {:induction false} AtMostRecordedStep(perIp: nat, reqs: seq<Request>, h: History, h': History, ip: Ip, c: int)
    requires |reqs| == |h'.verdicts| == |h.verdicts| + 1 && h'.verdicts[..|h.verdicts|] == h.verdicts
    requires var n := |h.verdicts|;
             && AtMostRecorded(reqs[..n], h, ip, c)
             && (h'.table, !h'.verdicts[n].IpRefused?) == Record(perIp, h.table, reqs[n].ip, reqs[n].at)
    ensures AtMostRecorded(reqs, h', ip, c)
  {
    var n := |h.verdicts|;
    RecordAddsAtMost(perIp, h.table, reqs[n], ip, c);
    LastRecorded(reqs, h'.verdicts, Only(ip), c);
  }

  lemma {:induction false} LastRecorded(reqs: seq<Request>, verdicts: seq<Verdict>, who: Who, c: int)
    requires |reqs| == |verdicts| > 0
    ensures var n := |reqs| - 1;
            RecordedAfter(reqs, verdicts, who, c) == RecordedAfter(reqs[..n], verdicts[..n], who, c) +
            if !verdicts[n].IpRefused? && Covers(who, reqs[n].ip) && c < reqs[n].at then 1 else 0
  {
  }

  lemma {:induction false} StoredAtMostRecorded(limits: Limits, reqs: seq<Request>, ip: Ip, c: int)
    ensures AtMostRecorded(reqs, Run(limits, reqs), ip, c)
  {
    if reqs == [] {
    } else {
      var n := |reqs| - 1;
      StoredAtMostRecorded(limits, reqs[..n], ip, c);
      AtMostRecordedStep(limits.perIp, reqs, Run(limits, reqs[..n]), Run(limits, reqs), ip, c);
    }
  }

  /** The stamps found in a window, between what was recorded in it and in the later part of it. */
  ghost predicate InWindow(reqs: seq<Request>, h: History, now: nat, ip: Ip, skew: nat)
    requires |reqs| == |h.verdicts|
  {
    RecordedAfter(reqs, h.verdicts, Only(ip), WindowStart(now) + skew) <=
    |Newer(Stored(h.table.requests, ip), WindowStart(now))| <=
    RecordedAfter(reqs, h.verdicts, Only(ip), WindowStart(now))
  }

  /** What a request finds stored in its window: all that was recorded there, but for what a stamp ahead of it may have
      removed, which is older than the window by less than the skew. */
  lemma {:induction false} StoredInWindow(limits: Limits, reqs: seq<Request>, now: nat, ip: Ip, skew: nat)
    requires Behind(reqs, now, skew)
    ensures InWindow(reqs, Run(limits, reqs), now, ip, skew)
  {
    StoredLater(limits, reqs, now, ip, skew);
    StoredAtMostRecorded(limits, reqs, ip, WindowStart(now));
  }

  lemma {:induction false} StoredLater(limits: Limits, reqs: seq<Request>, now: nat, ip: Ip, skew: nat)
    requires Behind(reqs, now, skew)
    ensures var h := Run(limits, reqs);
            RecordedAfter(reqs, h.verdicts, Only(ip), WindowStart(now) + skew) <=
            |Newer(Stored(h.table.requests, ip), WindowStart(now))|
  {
    NoWindowLater(reqs, now, skew);
    StoredOfAddress(limits, reqs, ip, WindowStart(now) + skew);
    NewerMonotone(Stored(Run(limits, reqs).table.requests, ip), WindowStart(now), WindowStart(now) + skew);
  }

  lemma {:induction false} StoredOfAddress(limits: Limits, reqs: seq<Request>, ip: Ip, c: int)
    requires forall i | 0 <= i < |reqs| :: c >= WindowStart(reqs[i].at)
    ensures |Newer(Stored(Run(limits, reqs).table.requests, ip), c)| ==
            RecordedAfter(reqs, Run(limits, reqs).verdicts, Only(ip), c)
  {
    StoredIsRecorded(limits, reqs, ip, c);
  }

  lemma {:induction false} NoWindowLater(reqs: seq<Request>, now: nat, skew: nat)
    requires Behind(reqs, now, skew)
    ensures forall i | 0 <= i < |reqs| :: WindowStart(now) + skew >= WindowStart(reqs[i].at)
  {
  }

  /** In every run, the next request of an address is refused for that address only if at least `perIp` of its requests
      were recorded in the last second, and it is refused if as many were in the last second less the skew. With no
      stamp ahead of it this is exact, whatever the pruning and the sweep have done. */
  lemma {:induction false} IpRefusalIsExact(limits: Limits, reqs: seq<Request>, next: Request, c: nat, skew: nat)
    requires Behind(reqs, next.at, skew) && c == if next.at < 1000 then 0 else next.at - 1000
    ensures var h := Run(limits, reqs);
            var refused := Check(limits, h.table, next.ip, next.at).1.IpRefused?;
            && (refused ==> RecordedAfter(reqs, h.verdicts, Only(next.ip), c) >= limits.perIp)
            && (RecordedAfter(reqs, h.verdicts, Only(next.ip), c + skew) >= limits.perIp ==> refused)
  {
    StoredInWindow(limits, reqs, next.at, next.ip, skew);
    RefusedWhenFull(limits, Run(limits, reqs).table, next.ip, next.at);
  }

  lemma {:induction false} RefusedWhenFull(limits: Limits, t: Table, ip: Ip, now: nat)
    ensures Check(limits, t, ip, now).1.IpRefused? <==>
            |Newer(Stored(t.requests, ip), WindowStart(now))| >= limits.perIp
  {
    SweepKeepsWindow(t, now, WindowStart(now));
  }

  /** When the global limit never refuses, a request is accepted if fewer than `perIp` requests of its address were
      accepted in the last 1000 ms, and only if fewer were in the last 1000 ms less the skew: with no stamp ahead of it,
      exactly then. */
  lemma {:induction false} RefinesNaive(limits: Limits, reqs: seq<Request>, next: Request, c: nat, skew: nat)
    requires Behind(reqs, next.at, skew) && c == if next.at < 1000 then 0 else next.at - 1000
    requires NeverGloballyRefused(Run(limits, reqs + [next]).verdicts)
    ensures var verdicts := Run(limits, reqs).verdicts;
            var accepted := Run(limits, reqs + [next]).verdicts[|reqs|].Accepted?;
            var latest := next.at + skew;
            && (AcceptedIn(reqs, verdicts, Only(next.ip), c, latest) < limits.perIp ==> accepted)
            && (accepted ==> AcceptedIn(reqs, verdicts, Only(next.ip), c + skew, latest) < limits.perIp)
  {
    LastVerdict(limits, reqs, next);
    IpRefusalIsExact(limits, reqs, next, c, skew);
    var verdicts := Run(limits, reqs).verdicts;
    RecordedIsAccepted(reqs, verdicts, Only(next.ip), c, next.at + skew);
    RecordedIsAccepted(reqs, verdicts, Only(next.ip), c + skew, next.at + skew);
  }

  lemma {:induction false} LastVerdict(limits: Limits, reqs: seq<Request>, next: Request)
    requires NeverGloballyRefused(Run(limits, reqs + [next]).verdicts)
    ensures var h := Run(limits, reqs);
            var v := Run(limits, reqs + [next]).verdicts[|reqs|];
            && NeverGloballyRefused(h.verdicts) && !v.GlobalRefused?
            && v == Check(limits, h.table, next.ip, next.at).1
  {
    RunExtended(limits, reqs, next);
    var v, v' := Run(limits, reqs).verdicts, Run(limits, reqs + [next]).verdicts;
    forall i | 0 <= i < |v|
      ensures !v[i].GlobalRefused?
    {
      assert v'[i] == v[i];
    }
    assert !v'[|reqs|].GlobalRefused?;
  }

  // ---------------------------------------------------------------- the global limit

  /** The time of the last sweep, from the clock readings alone. */
  function LastSweep(reqs: seq<Request>): nat {
    if reqs == [] then 0 else
      var init, now := reqs[..|reqs| - 1], reqs[|reqs| - 1].at;
      if SweepDue(LastSweep(init), now) then now else LastSweep(init)
  }

  predicate SweepDue(lastSweep: nat, now: nat) {
    SaturatingSub(now, lastSweep) > SWEEP_INTERVAL_MS
  }

  /** How many stamps of an address are stored after a check: those in its window and a recorded new one, if the check
      is its own, and otherwise those stored before, unless a sweep is due and finds none in its window. */
  function StoredAfter(own: bool, recorded: bool, sweeps: bool, inWindow: nat, before: nat): nat {
    if own then inWindow + if recorded then 1 else 0
    else if sweeps && inWindow == 0 then 0
    else before
  }

  lemma {:induction false} StoredAfterGrows(own: bool, recorded: bool, sweeps: bool, inWindow: nat, before: nat,
                                            inWindow': nat, before': nat)
    requires inWindow <= inWindow' && before <= before'
    ensures StoredAfter(own, recorded, sweeps, inWindow, before) <=
            StoredAfter(own, recorded, sweeps, inWindow', before')
  {
  }

  /** How many stamps of an address are stored, from the history alone: those that were in the window of the last check
      of that address, unless a sweep has since found none of them in its own window. Windows are taken to start `slack`
      later. */
  ghost function StillStored(reqs: seq<Request>, verdicts: seq<Verdict>, ip: Ip, slack: nat): nat
    requires |reqs| == |verdicts|
  {
    if reqs == [] then 0 else
      var n := |reqs| - 1;
      StoredAfter(reqs[n].ip == ip, !verdicts[n].IpRefused?, SweepDue(LastSweep(reqs[..n]), reqs[n].at),
                  RecordedAfter(reqs[..n], verdicts[..n], Only(ip), WindowStart(reqs[n].at) + slack),
                  StillStored(reqs[..n], verdicts[..n], ip, slack))
  }

  /** In every run the table is swept by the first request more than a minute after the last sweep, and by no other. */
  lemma {:induction false} SweepsOncePerMinute(limits: Limits, reqs: seq<Request>, next: Request)
    ensures var last, now := Run(limits, reqs).table.lastCleanup, Run(limits, reqs + [next]).table.lastCleanup;
            && now == (if next.at > last + 60_000 then next.at else last)
            && LastSweep(reqs + [next]) == if next.at > LastSweep(reqs) + 60_000 then next.at else LastSweep(reqs)
  {
    RunExtended(limits, reqs, next);
    assert (reqs + [next])[..|reqs|] == reqs;
  }

  /** What a request at `now` finds stored of an address after its sweep. */
  ghost function Found(reqs: seq<Request>, verdicts: seq<Verdict>, now: nat, ip: Ip, slack: nat): nat
    requires |reqs| == |verdicts|
  {
    StoredAfter(false, false, SweepDue(LastSweep(reqs), now),
                RecordedAfter(reqs, verdicts, Only(ip), WindowStart(now) + slack),
                StillStored(reqs, verdicts, ip, slack))
  }

  /** The stale stamps among them: those outside its window. */
  ghost function StaleOf(reqs: seq<Request>, verdicts: seq<Verdict>, now: nat, ip: Ip): nat
    requires |reqs| == |verdicts|
  {
    SaturatingSub(Found(reqs, verdicts, now, ip, 0), RecordedAfter(reqs, verdicts, Only(ip), WindowStart(now)))
  }

  ghost function Addresses(reqs: seq<Request>): set<Ip> {
    set i | 0 <= i < |reqs| :: reqs[i].ip
  }

  /** The stale stamps of every address but the one that is checked, whose own are pruned first. */
  ghost function StaleOthers(reqs: seq<Request>, verdicts: seq<Verdict>, next: Request): map<Ip, nat>
    requires |reqs| == |verdicts|
  {
    map ip | ip in Addresses(reqs) && ip != next.ip :: StaleOf(reqs, verdicts, next.at, ip)
  }

  ghost function FoundOthers(reqs: seq<Request>, verdicts: seq<Verdict>, next: Request, slack: nat): map<Ip, nat>
    requires |reqs| == |verdicts|
  {
    map ip | ip in Addresses(reqs) && ip != next.ip :: Found(reqs, verdicts, next.at, ip, slack)
  }

  /** The number of stamps that a recorded request compares with the global limit: its own, those of its address in its
      window, and all that it finds of the other addresses. */
  ghost function Load(reqs: seq<Request>, verdicts: seq<Verdict>, next: Request, slack: nat): nat
    requires |reqs| == |verdicts|
  {
    OwnInWindow(reqs, verdicts, next, slack) + 1 + Sum(FoundOthers(reqs, verdicts, next, slack))
  }

  ghost function OwnInWindow(reqs: seq<Request>, verdicts: seq<Verdict>, next: Request, slack: nat): nat
    requires |reqs| == |verdicts|
  {
    RecordedAfter(reqs, verdicts, Only(next.ip), WindowStart(next.at) + slack)
  }

  lemma {:induction false} AnyNewerCounts(s: seq<nat>, cutoff: int)
    ensures AnyNewer(s, cutoff) <==> |Newer(s, cutoff)| > 0
  {
    NewerMembers(s, cutoff);
    forall i | 0 <= i < |s| && s[i] > cutoff
      ensures |Newer(s, cutoff)| > 0
    {
      assert s[i] in Newer(s, cutoff);
    }
    if |Newer(s, cutoff)| > 0 {
      assert Newer(s, cutoff)[0] in s;
    }
  }

  /** What the sweep leaves of an address. */
  lemma {:induction false} SweptLength(t: Table, now: nat, ip: Ip)
    ensures |Stored(AfterSweep(t, now).requests, ip)| ==
            StoredAfter(false, false, SweepDue(t.lastCleanup, now),
                        |Newer(Stored(t.requests, ip), WindowStart(now))|, |Stored(t.requests, ip)|)
  {
    AnyNewerCounts(Stored(t.requests, ip), WindowStart(now));
  }

  lemma {:induction false} RecordLength(perIp: nat, t: Table, next: Request, ip: Ip)
    ensures var (r, recorded) := Record(perIp, t, next.ip, next.at);
            |Stored(r.requests, ip)| ==
            StoredAfter(next.ip == ip, recorded, SweepDue(t.lastCleanup, next.at),
                        |Newer(Stored(t.requests, ip), WindowStart(next.at))|, |Stored(t.requests, ip)|)
  {
    SweepKeepsWindow(t, next.at, WindowStart(next.at));
    SweptLength(t, next.at, ip);
  }

  ghost predicate FromHistory(reqs: seq<Request>, h: History, ip: Ip, skew: nat)
    requires |reqs| == |h.verdicts|
  {
    && h.table.lastCleanup == LastSweep(reqs)
    && StillStored(reqs, h.verdicts, ip, skew) <= |Stored(h.table.requests, ip)| <= StillStored(reqs, h.verdicts, ip, 0)
  }

  lemma {:induction false} FromHistoryStep(perIp: nat, reqs: seq<Request>, h: History, h': History, ip: Ip, skew: nat)
    requires |reqs| == |h'.verdicts| == |h.verdicts| + 1 && h'.verdicts[..|h.verdicts|] == h.verdicts
    requires var n := |h.verdicts|;
             && FromHistory(reqs[..n], h, ip, skew) && InWindow(reqs[..n], h, reqs[n].at, ip, skew)
             && (h'.table, !h'.verdicts[n].IpRefused?) == Record(perIp, h.table, reqs[n].ip, reqs[n].at)
    ensures FromHistory(reqs, h', ip, skew)
  {
    var n := |h.verdicts|;
    var own, recorded := reqs[n].ip == ip, !h'.verdicts[n].IpRefused?;
    var sweeps := SweepDue(LastSweep(reqs[..n]), reqs[n].at);
    var c, v := WindowStart(reqs[n].at), h.verdicts;
    var inWindow, stored := |Newer(Stored(h.table.requests, ip), c)|, |Stored(h.table.requests, ip)|;
    RecordLength(perIp, h.table, reqs[n], ip);
    StoredAfterGrows(own, recorded, sweeps, RecordedAfter(reqs[..n], v, Only(ip), c + skew),
                     StillStored(reqs[..n], v, ip, skew), inWindow, stored);
    StoredAfterGrows(own, recorded, sweeps, inWindow, stored, RecordedAfter(reqs[..n], v, Only(ip), c),
                     StillStored(reqs[..n], v, ip, 0));
  }

  /** In every run, an address has stored what was in the window of its last check, unless a sweep since has found none
      of it in its own window: exactly so when the stamps are in order, and otherwise between the counts for windows
      that start when they do and later by the skew. */
  lemma {:induction false} StoredIsFromHistory(limits: Limits, reqs: seq<Request>, ip: Ip, skew: nat)
    requires Skewed(reqs, skew)
    ensures FromHistory(reqs, Run(limits, reqs), ip, skew)
  {
    if reqs == [] {
    } else {
      var n := |reqs| - 1;
      SkewedFirst(reqs, skew);
      StoredIsFromHistory(limits, reqs[..n], ip, skew);
      StoredInWindow(limits, reqs[..n], reqs[n].at, ip, skew);
      FromHistoryStep(limits.perIp, reqs, Run(limits, reqs[..n]), Run(limits, reqs), ip, skew);
    }
  }

  lemma {:induction false} RecordAsks(perIp: nat, t: Table, ip: Ip, now: nat, addresses: set<Ip>)
    requires t.requests.Keys <= addresses
    ensures Record(perIp, t, ip, now).0.requests.Keys <= addresses + {ip}
  {
  }

  lemma {:induction false} LastAddress(reqs: seq<Request>)
    requires reqs != []
    ensures Addresses(reqs) == Addresses(reqs[..|reqs| - 1]) + {reqs[|reqs| - 1].ip}
  {
  }

  lemma {:induction false} StoredWereAsked(limits: Limits, reqs: seq<Request>)
    ensures Run(limits, reqs).table.requests.Keys <= Addresses(reqs)
  {
    if reqs == [] {
    } else {
      var n := |reqs| - 1;
      StoredWereAsked(limits, reqs[..n]);
      LastAddress(reqs);
      AskedNext(limits, Run(limits, reqs[..n]), Run(limits, reqs), reqs[n], Addresses(reqs[..n]));
    }
  }

  lemma {:induction false} AskedNext(limits: Limits, h: History, h': History, next: Request, addresses: set<Ip>)
    requires h.table.requests.Keys <= addresses && h'.table == Check(limits, h.table, next.ip, next.at).0
    ensures h'.table.requests.Keys <= addresses + {next.ip}
  {
    RecordAsks(limits.perIp, h.table, next.ip, next.at, addresses);
  }

  ghost function StaleIn(requests: map<Ip, seq<nat>>, c: int): map<Ip, nat> {
    map ip | ip in requests :: SaturatingSub(|requests[ip]|, |Newer(requests[ip], c)|)
  }

  /** The stored stamps are those above the cutoff and the stale ones. */
  lemma {:induction false} StoredSplits(requests: map<Ip, seq<nat>>, c: int)
    ensures TotalStored(requests) == TotalNewer(requests, c) + Sum(StaleIn(requests, c))
  {
    SumAdd(NewerCounts(requests, c), StaleIn(requests, c));
    forall ip | ip in requests
      ensures |Newer(requests[ip], c)| <= |requests[ip]|
    {
      NewerMembers(requests[ip], c);
    }
    assert Lengths(requests) ==
      map ip | ip in NewerCounts(requests, c) :: NewerCounts(requests, c)[ip] + StaleIn(requests, c)[ip];
  }

  /** The total that a recorded request compares with the global limit. */
  lemma {:induction false} TotalAfterRecord(s: map<Ip, seq<nat>>, ip: Ip, now: nat, c: int)
    ensures var entry := Newer(Stored(s, ip), c) + [now];
            TotalStored(s[ip := entry]) == TotalNewer(s, c) + 1 + Sum(StaleIn(s - {ip}, c))
  {
    var kept := Newer(Stored(s, ip), c);
    SumUpdate(Lengths(s), ip, |kept| + 1);
    assert Lengths(s[ip := kept + [now]]) == Lengths(s)[ip := |kept| + 1];
    assert Lengths(s) - {ip} == Lengths(s - {ip});
    StoredSplits(s - {ip}, c);
    NewerSplits(s, ip, c);
  }

  lemma {:induction false} NewerSplits(s: map<Ip, seq<nat>>, ip: Ip, c: int)
    ensures TotalNewer(s, c) == |Newer(Stored(s, ip), c)| + TotalNewer(s - {ip}, c)
  {
    assert NewerCounts(s - {ip}, c) == NewerCounts(s, c) - {ip};
    if ip in s {
      SumSplit(NewerCounts(s, c), ip);
    } else {
      assert s - {ip} == s;
    }
  }

  /** The stale stamps in the swept table are those that the history gives. */
  lemma {:induction false} StaleFromHistory(limits: Limits, reqs: seq<Request>, next: Request)
    requires Skewed(reqs + [next], 0)
    ensures var h := Run(limits, reqs);
            Sum(StaleIn(AfterSweep(h.table, next.at).requests - {next.ip}, WindowStart(next.at))) ==
            Sum(StaleOthers(reqs, h.verdicts, next))
  {
    var h := Run(limits, reqs);
    var c := WindowStart(next.at);
    var s := AfterSweep(h.table, next.at).requests - {next.ip};
    var stale := StaleOthers(reqs, h.verdicts, next);
    StoredWereAsked(limits, reqs);
    forall ip | ip in stale
      ensures stale[ip] == if ip in s then StaleIn(s, c)[ip] else 0
    {
      StaleOfIs(limits, reqs, next, ip);
    }
    SameSum(StaleIn(s, c), stale);
  }

  lemma {:induction false} SameSum(part: map<Ip, nat>, all: map<Ip, nat>)
    requires part.Keys <= all.Keys && forall ip | ip in all :: all[ip] == if ip in part then part[ip] else 0
    ensures Sum(part) == Sum(all)
  {
    SumRestrict(all, part.Keys);
    assert part == map ip | ip in all && ip in part.Keys :: all[ip];
  }

  /** What the history says a request finds of another address brackets what it finds. */
  lemma {:induction false} FoundIs(limits: Limits, reqs: seq<Request>, next: Request, ip: Ip, skew: nat)
    requires Skewed(reqs + [next], skew)
    ensures var h := Run(limits, reqs);
            Found(reqs, h.verdicts, next.at, ip, skew) <=
            |Stored(AfterSweep(h.table, next.at).requests, ip)| <=
            Found(reqs, h.verdicts, next.at, ip, 0)
  {
    var h, c := Run(limits, reqs), WindowStart(next.at);
    var sweeps := SweepDue(LastSweep(reqs), next.at);
    var inWindow, stored := |Newer(Stored(h.table.requests, ip), c)|, |Stored(h.table.requests, ip)|;
    SkewedInit(reqs, next, skew);
    StoredIsFromHistory(limits, reqs, ip, skew);
    StoredInWindow(limits, reqs, next.at, ip, skew);
    SweptLength(h.table, next.at, ip);
    StoredAfterGrows(false, false, sweeps, RecordedAfter(reqs, h.verdicts, Only(ip), c + skew),
                     StillStored(reqs, h.verdicts, ip, skew), inWindow, stored);
    StoredAfterGrows(false, false, sweeps, inWindow, stored, RecordedAfter(reqs, h.verdicts, Only(ip), c),
                     StillStored(reqs, h.verdicts, ip, 0));
  }

  lemma {:induction false} StaleOfIs(limits: Limits, reqs: seq<Request>, next: Request, ip: Ip)
    requires Skewed(reqs + [next], 0)
    ensures var h := Run(limits, reqs);
            var left := Stored(AfterSweep(h.table, next.at).requests, ip);
            StaleOf(reqs, h.verdicts, next.at, ip) == SaturatingSub(|left|, |Newer(left, WindowStart(next.at))|)
  {
    SkewedInit(reqs, next, 0);
    FoundIs(limits, reqs, next, ip, 0);
    StoredInWindow(limits, reqs, next.at, ip, 0);
    SweepKeepsWindow(Run(limits, reqs).table, next.at, WindowStart(next.at));
  }

  ghost function LengthsOf(addresses: set<Ip>, requests: map<Ip, seq<nat>>): map<Ip, nat> {
    map ip | ip in addresses :: |Stored(requests, ip)|
  }

  lemma {:induction false} TotalOthers(s: map<Ip, seq<nat>>, ip: Ip, entry: seq<nat>, others: set<Ip>)
    requires s.Keys - {ip} <= others && ip !in others
    ensures TotalStored(s[ip := entry]) == |entry| + Sum(LengthsOf(others, s))
  {
    SumUpdate(Lengths(s), ip, |entry|);
    assert Lengths(s[ip := entry]) == Lengths(s)[ip := |entry|];
    SameSum(Lengths(s) - {ip}, LengthsOf(others, s));
  }

  lemma {:induction false} OthersAre(limits: Limits, reqs: seq<Request>, next: Request, skew: nat)
    requires Skewed(reqs + [next], skew)
    ensures var h := Run(limits, reqs);
            Sum(FoundOthers(reqs, h.verdicts, next, skew)) <=
            Sum(LengthsOf(Addresses(reqs) - {next.ip}, AfterSweep(h.table, next.at).requests)) <=
            Sum(FoundOthers(reqs, h.verdicts, next, 0))
  {
    var h := Run(limits, reqs);
    var lengths := LengthsOf(Addresses(reqs) - {next.ip}, AfterSweep(h.table, next.at).requests);
    var low, high := FoundOthers(reqs, h.verdicts, next, skew), FoundOthers(reqs, h.verdicts, next, 0);
    forall ip | ip in lengths
      ensures low[ip] <= lengths[ip] <= high[ip]
    {
      FoundIs(limits, reqs, next, ip, skew);
    }
    SumMonotone(low, lengths);
    SumMonotone(lengths, high);
  }

  lemma {:induction false} OwnAre(limits: Limits, reqs: seq<Request>, next: Request, skew: nat)
    requires Skewed(reqs + [next], skew)
    ensures var h := Run(limits, reqs);
            OwnInWindow(reqs, h.verdicts, next, skew) <=
            |Newer(Stored(AfterSweep(h.table, next.at).requests, next.ip), WindowStart(next.at))| <=
            OwnInWindow(reqs, h.verdicts, next, 0)
  {
    SkewedInit(reqs, next, skew);
    StoredInWindow(limits, reqs, next.at, next.ip, skew);
    SweepKeepsWindow(Run(limits, reqs).table, next.at, WindowStart(next.at));
  }

  /** The total that a recorded request compares with the global limit lies between the loads that the history gives. */
  lemma {:induction false} LoadIs(limits: Limits, reqs: seq<Request>, next: Request, skew: nat)
    requires Skewed(reqs + [next], skew)
    ensures var h := Run(limits, reqs);
            var s := AfterSweep(h.table, next.at).requests;
            var entry := Newer(Stored(s, next.ip), WindowStart(next.at)) + [next.at];
            Load(reqs, h.verdicts, next, skew) <= TotalStored(s[next.ip := entry]) <= Load(reqs, h.verdicts, next, 0)
  {
    TotalIs(limits, reqs, next);
    OwnAre(limits, reqs, next, skew);
    OthersAre(limits, reqs, next, skew);
  }

  lemma {:induction false} TotalIs(limits: Limits, reqs: seq<Request>, next: Request)
    ensures var s := AfterSweep(Run(limits, reqs).table, next.at).requests;
            var kept := Newer(Stored(s, next.ip), WindowStart(next.at));
            TotalStored(s[next.ip := kept + [next.at]]) ==
            |kept| + 1 + Sum(LengthsOf(Addresses(reqs) - {next.ip}, s))
  {
    var s := AfterSweep(Run(limits, reqs).table, next.at).requests;
    StoredWereAsked(limits, reqs);
    TotalOthers(s, next.ip, Newer(Stored(s, next.ip), WindowStart(next.at)) + [next.at], Addresses(reqs) - {next.ip});
  }

  /** In every run, a recorded request is refused globally only if its load, by the history, exceeds the global limit,
      and accepted only if the load for windows that start later by the skew does not. When the stamps are in order this
      is exact: a request is refused globally exactly when its address has room and the stamps recorded in its window,
      its own included, and the stale stamps of the other addresses exceed the global limit. Here lazy pruning shows. */
  lemma {:induction false} GlobalRefusalIsExact(limits: Limits, reqs: seq<Request>, next: Request, c: nat, skew: nat)
    requires Skewed(reqs + [next], skew) && c == if next.at < 1000 then 0 else next.at - 1000
    ensures var h := Run(limits, reqs);
            var v := Check(limits, h.table, next.ip, next.at).1;
            && (v.GlobalRefused? ==> Load(reqs, h.verdicts, next, 0) > limits.global)
            && (v.Accepted? ==> Load(reqs, h.verdicts, next, skew) <= limits.global)
            && (skew == 0 ==>
                  (v.GlobalRefused? <==>
                   && RecordedAfter(reqs, h.verdicts, Only(next.ip), c) < limits.perIp
                   && RecordedAfter(reqs, h.verdicts, Everyone, c) + 1 + Sum(StaleOthers(reqs, h.verdicts, next)) >
                      limits.global))
  {
    LoadIs(limits, reqs, next, skew);
    if skew == 0 {
      GlobalRefusalInOrder(limits, reqs, next);
    }
  }

  lemma {:induction false} GlobalRefusalInOrder(limits: Limits, reqs: seq<Request>, next: Request)
    requires Skewed(reqs + [next], 0)
    ensures var h := Run(limits, reqs);
            var c := WindowStart(next.at);
            Check(limits, h.table, next.ip, next.at).1.GlobalRefused? <==>
            && RecordedAfter(reqs, h.verdicts, Only(next.ip), c) < limits.perIp
            && RecordedAfter(reqs, h.verdicts, Everyone, c) + 1 + Sum(StaleOthers(reqs, h.verdicts, next)) >
               limits.global
  {
    var h := Run(limits, reqs);
    var c := WindowStart(next.at);
    SkewedInit(reqs, next, 0);
    IpRefusalIsExact(limits, reqs, next, c, 0);
    StoredIsRecorded(limits, reqs, next.ip, c);
    SweepKeepsWindow(h.table, next.at, c);
    TotalAfterRecord(AfterSweep(h.table, next.at).requests, next.ip, next.at, c);
    StaleFromHistory(limits, reqs, next);
  }

  lemma {:induction false} FirstIsAccepted(limits: Limits, reqs: seq<Request>)
    requires |reqs| == 1 && limits.perIp >= 1 && limits.global >= 1
    ensures Run(limits, reqs).verdicts == [Accepted]
  {
    assert reqs[..0] == [] && [] + reqs == reqs;
    IpRefusalIsExact(limits, [], reqs[0], WindowStart(reqs[0].at), 0);
    GlobalRefusalIsExact(limits, [], reqs[0], WindowStart(reqs[0].at), 0);
    assert StaleOthers([], [], reqs[0]) == map[];
  }

  lemma {:induction false} OneStaleStamp(reqs: seq<Request>, next: Request)
    requires reqs == [Request("a", 2000)] && next == Request("b", 5000)
    ensures Sum(StaleOthers(reqs, [Accepted], next)) == 1
    ensures RecordedAfter(reqs, [Accepted], Everyone, 4000) == RecordedAfter(reqs, [Accepted], Only("b"), 4000) == 0
  {
    assert reqs[..0] == [] && [Accepted][..0] == [];
    assert StillStored(reqs, [Accepted], "a", 0) == 1;
    assert LastSweep(reqs) == 0;
    assert RecordedAfter(reqs, [Accepted], Only("a"), 4000) == 0;
    assert StaleOf(reqs, [Accepted], 5000, "a") == 1;
    assert Addresses(reqs) == {reqs[0].ip};
    assert StaleOthers(reqs, [Accepted], next) == map[]["a" := 1];
    SumUpdate(map[], "a", 1);
  }

  /** A single stamp three seconds old refuses the only request of the last second. */
  lemma {:induction false} StaleStampRefuses(limits: Limits, reqs: seq<Request>, next: Request)
    requires limits == Limits(10, 1) && reqs == [Request("a", 2000)] && next == Request("b", 5000)
    ensures var h := Run(limits, reqs);
            && Skewed(reqs + [next], 0) && h.verdicts == [Accepted]
            && RecordedAfter(reqs, h.verdicts, Everyone, 4000) == 0
            && Check(limits, h.table, "b", 5000).1.GlobalRefused?
  {
    FirstIsAccepted(limits, reqs);
    OneStaleStamp(reqs, next);
    GlobalRefusalIsExact(limits, reqs, next, 4000, 0);
  }
}
