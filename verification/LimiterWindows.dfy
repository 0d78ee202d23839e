/** The sliding windows of the rate limiter (src/lib.rs:508-548): what every window of every run admits, and which
    windows are safe. */
module LimiterWindows {
  import opened RateLimiter
  import opened Sums

  lemma {:induction false} AcceptedFits(limits: Limits, t: Table, ip: Ip, now: nat, c: int)
    requires Check(limits, t, ip, now).1.Accepted?
    ensures var stored := Check(limits, t, ip, now).0.requests;
            |Newer(Stored(stored, ip), c)| <= limits.perIp && TotalNewer(stored, c) <= limits.global
  {
    var stored := Check(limits, t, ip, now).0.requests;
    NewerMembers(stored[ip], c);
    TotalNewerAtMostStored(stored, c);
  }

  /** A window that ends with an accepted request. */
  lemma {:induction false} WindowEndingAccepted(limits: Limits, reqs: seq<Request>, lo: nat, hi: nat, skew: nat)
    requires reqs != [] && Skewed(reqs, skew) && reqs[|reqs| - 1].at <= hi && hi + skew <= lo + WINDOW_MS
    requires Run(limits, reqs).verdicts[|reqs| - 1].Accepted?
    ensures AcceptedIn(reqs, Run(limits, reqs).verdicts, Only(reqs[|reqs| - 1].ip), lo, hi) <= limits.perIp
    ensures AcceptedIn(reqs, Run(limits, reqs).verdicts, Everyone, lo, hi) <= limits.global
  {
    var last := reqs[|reqs| - 1];
    var v := Run(limits, reqs).verdicts;
    AcceptedFits(limits, Run(limits, reqs[..|reqs| - 1]).table, last.ip, last.at, lo);
    StoredIsRecorded(limits, reqs, last.ip, lo);
    AcceptedAreRecorded(reqs, v, Only(last.ip), lo, hi);
    AcceptedAreRecorded(reqs, v, Everyone, lo, hi);
  }

  /** In every run of skew `skew` and every window (lo, hi] at most 1000 - skew ms long that starts at or after the
      epoch, at most `perIp` requests of one address and at most `global` requests in all were accepted. */
  lemma {:induction false} WindowBound(limits: Limits, reqs: seq<Request>, ip: Ip, lo: nat, hi: nat, skew: nat)
    requires Skewed(reqs, skew) && hi + skew <= lo + 1000
    ensures AcceptedIn(reqs, Run(limits, reqs).verdicts, Only(ip), lo, hi) <= limits.perIp
    ensures AcceptedIn(reqs, Run(limits, reqs).verdicts, Everyone, lo, hi) <= limits.global
  {
    if reqs == [] {
    } else {
      var n := |reqs| - 1;
      var v := Run(limits, reqs).verdicts;
      WindowBound(limits, reqs[..n], ip, lo, hi, skew);
      assert v[..n] == Run(limits, reqs[..n]).verdicts;
      if v[n].Accepted? && reqs[n].at <= hi {
        WindowEndingAccepted(limits, reqs, lo, hi, skew);
      }
    }
  }

  /** The accepted requests of the window (t - length, t] respect both limits. */
  ghost predicate Respects(limits: Limits, reqs: seq<Request>, ip: Ip, t: int, length: nat) {
    var verdicts := Run(limits, reqs).verdicts;
    && AcceptedIn(reqs, verdicts, Only(ip), t - length, t) <= limits.perIp
    && AcceptedIn(reqs, verdicts, Everyone, t - length, t) <= limits.global
  }

  ghost predicate StartsAt(reqs: seq<Request>, start: nat) {
    forall i | 0 <= i < |reqs| :: reqs[i].at >= start
  }

  /** Every window of that length of every run whose clock starts at `start` or later, and whose stamps are out of order
      by at most `skew`, respects both limits. */
  ghost predicate SafeFrom(start: nat, skew: nat, length: nat) {
    forall limits, reqs: seq<Request>, ip, t ::
      Skewed(reqs, skew) && StartsAt(reqs, start) ==> Respects(limits, reqs, ip, t, length)
  }

  lemma {:induction false} NothingBeforeTheClock(reqs: seq<Request>, verdicts: seq<Verdict>, who: Who, lo: int, hi: int)
    requires |reqs| == |verdicts| && lo < 0 && forall i | 0 <= i < |reqs| :: reqs[i].at >= 1
    ensures AcceptedIn(reqs, verdicts, who, lo, hi) == AcceptedIn(reqs, verdicts, who, 0, hi)
    ensures hi < 0 ==> AcceptedIn(reqs, verdicts, who, lo, hi) == 0
  {
    if reqs == [] {
    } else {
      var n := |reqs| - 1;
      NothingBeforeTheClock(reqs[..n], verdicts[..n], who, lo, hi);
    }
  }

  lemma {:induction false} RecordedAtTheEpoch(requests: map<Ip, seq<nat>>)
    requires requests == map[] || requests == map["a" := [0]]
    ensures Record(1, Table(requests, 0), "a", 0) == (Table(map["a" := [0]], 0), true)
  {
    assert Newer([], 0) == [] && Newer([0], 0) == [];
    assert [] + [0] == [0];
    assert requests["a" := [0]] == map["a" := [0]];
  }

  lemma {:induction false} OneStampInAll()
    ensures TotalStored(map["a" := [0]]) == 1
  {
    SumUpdate(map[], "a", 1);
    assert Lengths(map["a" := [0]]) == map[]["a" := 1];
  }

  /** Two requests of one address at time zero are both accepted under a limit of one: the window start saturates
      at zero, so a stamp of zero is never inside it. */
  lemma {:induction false} TwoAtTheEpoch(limits: Limits, one: seq<Request>, two: seq<Request>)
    requires limits == Limits(1, 9) && one == [Request("a", 0)] && two == one + one
    ensures Skewed(two, 0) && AcceptedIn(two, Run(limits, two).verdicts, Only("a"), -1000, 0) == 2
  {
    RecordedAtTheEpoch(map[]);
    RecordedAtTheEpoch(map["a" := [0]]);
    OneStampInAll();
    RunExtended(limits, [], one[0]);
    assert [] + [one[0]] == one;
    RunExtended(limits, one, one[0]);
    assert one + [one[0]] == two;
    AcceptedExtended([], [], one[0], Accepted, Only("a"), -1000, 0);
    AcceptedExtended(one, [Accepted], one[0], Accepted, Only("a"), -1000, 0);
    assert [] + [Accepted] == [Accepted];
  }

  lemma {:induction false} RespectsFromOne(limits: Limits, reqs: seq<Request>, ip: Ip, t: int, skew: nat, length: nat)
    requires Skewed(reqs, skew) && StartsAt(reqs, 1) && length + skew <= WINDOW_MS
    ensures Respects(limits, reqs, ip, t, length)
  {
    var v := Run(limits, reqs).verdicts;
    if t >= length {
      WindowBound(limits, reqs, ip, t - length, t, skew);
    } else {
      NothingBeforeTheClock(reqs, v, Only(ip), t - length, t);
      NothingBeforeTheClock(reqs, v, Everyone, t - length, t);
      if t >= 0 {
        WindowBound(limits, reqs, ip, 0, t, skew);
      }
    }
  }

  lemma {:induction false} EmptyWindow(reqs: seq<Request>, verdicts: seq<Verdict>, who: Who, t: int)
    requires |reqs| == |verdicts|
    ensures AcceptedIn(reqs, verdicts, who, t, t) == 0
  {
    if reqs == [] {
    } else {
      var n := |reqs| - 1;
      EmptyWindow(reqs[..n], verdicts[..n], who, t);
    }
  }

  // ---------------------------------------------------------------- stamps out of order

  /** One call for the only stored address, long before the next sweep. */
  lemma {:induction false} OnlyAddress(entry: seq<nat>, lastCleanup: nat, now: nat)
    requires now <= lastCleanup + SWEEP_INTERVAL_MS && |Newer(entry, WindowStart(now))| < 2
    ensures var kept := Newer(entry, WindowStart(now)) + [now];
            Check(Limits(2, 9), Table(map["a" := entry], lastCleanup), "a", now) ==
            (Table(map["a" := kept], lastCleanup), Accepted)
  {
    var kept := Newer(entry, WindowStart(now)) + [now];
    assert map["a" := entry]["a" := kept] == map["a" := kept];
    OnlyLength(kept);
  }

  lemma {:induction false} OnlyLength(entry: seq<nat>)
    ensures TotalStored(map["a" := entry]) == |entry|
  {
    SumUpdate(map[], "a", |entry|);
    assert Lengths(map["a" := entry]) == map[]["a" := |entry|];
  }

  lemma {:induction false} FirstStamp(now: nat)
    requires now > SWEEP_INTERVAL_MS
    ensures Check(Limits(2, 9), Table(map[], 0), "a", now) == (Table(map["a" := [now]], now), Accepted)
  {
    assert Swept(map[], WindowStart(now)) == map[];
    assert [] + [now] == [now];
    OnlyLength([now]);
  }

  /** Two requests at `at`, one 1000 ms later, which prunes them, and one that read its clock before that third one did:
      all are accepted under a limit of two. */
  function LateStamp(at: nat, late: nat): seq<Request> {
    [Request("a", at), Request("a", at), Request("a", at + 1000), Request("a", late)]
  }

  lemma {:induction false} NextAccepted(before: seq<Request>, next: Request, h: History, entry: seq<nat>)
    requires Run(Limits(2, 9), before) == h && h.table.requests == map["a" := entry] && next.ip == "a"
    requires next.at <= h.table.lastCleanup + SWEEP_INTERVAL_MS && |Newer(entry, WindowStart(next.at))| < 2
    ensures var kept := Newer(entry, WindowStart(next.at)) + [next.at];
            Run(Limits(2, 9), before + [next]) ==
            History(Table(map["a" := kept], h.table.lastCleanup), h.verdicts + [Accepted])
  {
    OnlyAddress(entry, h.table.lastCleanup, next.at);
    RunExtended(Limits(2, 9), before, next);
  }

  lemma {:induction false} FirstAccepted(first: Request)
    requires first.ip == "a" && first.at > SWEEP_INTERVAL_MS
    ensures Run(Limits(2, 9), [first]) == History(Table(map["a" := [first.at]], first.at), [Accepted])
  {
    FirstStamp(first.at);
    RunExtended(Limits(2, 9), [], first);
    assert [] + [first] == [first];
  }

  lemma {:induction false} SecondAccepted(first: Request)
    requires first.ip == "a" && first.at > SWEEP_INTERVAL_MS
    ensures Run(Limits(2, 9), [first] + [first]) ==
            History(Table(map["a" := [first.at] + [first.at]], first.at), [Accepted] + [Accepted])
  {
    FirstAccepted(first);
    NewerOne(first.at, WindowStart(first.at));
    NextAccepted([first], first, Run(Limits(2, 9), [first]), [first.at]);
  }

  lemma {:induction false} ThreeAccepted(first: Request, third: Request)
    requires first.ip == third.ip == "a" && first.at > SWEEP_INTERVAL_MS && third.at == first.at + 1000
    ensures Run(Limits(2, 9), [first] + [first] + [third]) ==
            History(Table(map["a" := [third.at]], first.at), [Accepted] + [Accepted] + [Accepted])
  {
    SecondAccepted(first);
    NewerNone([first.at] + [first.at], WindowStart(third.at));
    NextAccepted([first] + [first], third, Run(Limits(2, 9), [first] + [first]), [first.at] + [first.at]);
    assert [] + [third.at] == [third.at];
  }

  lemma {:induction false} LateStampIsAccepted(at: nat, late: nat)
    requires at > SWEEP_INTERVAL_MS && at <= late < at + 1000
    ensures Run(Limits(2, 9), LateStamp(at, late)).verdicts == [Accepted, Accepted, Accepted, Accepted]
  {
    var first, third, fourth := Request("a", at), Request("a", at + 1000), Request("a", late);
    var three := [first] + [first] + [third];
    ThreeAccepted(first, third);
    NewerOne(at + 1000, WindowStart(late));
    NextAccepted(three, fourth, Run(Limits(2, 9), three), [at + 1000]);
    assert LateStamp(at, late) == three + [fourth];
  }

  lemma {:induction false} NewerOne(x: nat, cutoff: int)
    requires x > cutoff
    ensures Newer([x], cutoff) == [x]
  {
    NewerAppend([], x, cutoff);
    assert [] + [x] == [x];
  }

  lemma {:induction false} AllAccepted(reqs: seq<Request>, verdicts: seq<Verdict>, lo: int, hi: int)
    requires |reqs| == |verdicts| && forall i | 0 <= i < |reqs| ::
               verdicts[i].Accepted? && reqs[i].ip == "a" && lo < reqs[i].at <= hi
    ensures AcceptedIn(reqs, verdicts, Only("a"), lo, hi) == |reqs|
  {
    if reqs == [] {
    } else {
      AllAccepted(reqs[..|reqs| - 1], verdicts[..|reqs| - 1], lo, hi);
    }
  }

  /** The first two and the last of them fall into any window that holds the first and the last stamp. */
  lemma {:induction false} LateStampExceeds(at: nat, late: nat, lo: int, hi: int)
    requires at > SWEEP_INTERVAL_MS && at <= late < at + 1000 && lo < at && late <= hi
    ensures AcceptedIn(LateStamp(at, late), Run(Limits(2, 9), LateStamp(at, late)).verdicts, Only("a"), lo, hi) >= 3
  {
    var reqs, v := LateStamp(at, late), [Accepted, Accepted, Accepted, Accepted];
    LateStampIsAccepted(at, late);
    AllAccepted(reqs[..2], v[..2], lo, hi);
    assert reqs[..3][..2] == reqs[..2] && v[..3][..2] == v[..2];
    assert AcceptedIn(reqs[..3], v[..3], Only("a"), lo, hi) >= 2;
  }

  lemma {:induction false} UnsafeAtZero(skew: nat, length: nat)
    requires length > 0
    ensures !SafeFrom(0, skew, length)
  {
    var limits, one := Limits(1, 9), [Request("a", 0)];
    TwoAtTheEpoch(limits, one, one + one);
    var zero: int := 0;
    WiderAtTheEpoch(one + one, Run(limits, one + one).verdicts, -1000, zero - length);
    assert !Respects(limits, one + one, "a", 0, length);
  }

  lemma {:induction false} WiderAtTheEpoch(reqs: seq<Request>, verdicts: seq<Verdict>, lo: int, lo': int)
    requires |reqs| == |verdicts| && lo < 0 && lo' < 0
    ensures AcceptedIn(reqs, verdicts, Only("a"), lo, 0) == AcceptedIn(reqs, verdicts, Only("a"), lo', 0)
  {
    if reqs == [] {
    } else {
      var n := |reqs| - 1;
      WiderAtTheEpoch(reqs[..n], verdicts[..n], lo, lo');
    }
  }

  lemma {:induction false} Unsafe(start: nat, skew: nat, length: nat, reqs: seq<Request>, t: int)
    requires Skewed(reqs, skew) && StartsAt(reqs, start)
    requires AcceptedIn(reqs, Run(Limits(2, 9), reqs).verdicts, Only("a"), t - length, t) > 2
    ensures !SafeFrom(start, skew, length)
  {
    assert !Respects(Limits(2, 9), reqs, "a", t, length);
  }

  lemma {:induction false} UnsafeInOrder(start: nat, length: nat)
    requires length > WINDOW_MS
    ensures !SafeFrom(start, 0, length)
  {
    var at := start + SWEEP_INTERVAL_MS + 1;
    var first, third := Request("a", at), Request("a", at + 1000);
    var reqs := [first] + [first] + [third];
    ThreeAccepted(first, third);
    AllAccepted(reqs, [Accepted] + [Accepted] + [Accepted], at - 1, at - 1 + length);
    Unsafe(start, 0, length, reqs, at - 1 + length);
  }

  lemma {:induction false} UnsafeWhenSkewed(start: nat, skew: nat, length: nat)
    requires length > 0 && skew > 0 && length + skew > WINDOW_MS
    ensures !SafeFrom(start, skew, length)
  {
    var at := start + SWEEP_INTERVAL_MS + 1;
    var late := if skew >= WINDOW_MS then at else at + WINDOW_MS - skew;
    LateStampExceeds(at, late, at - 1, at - 1 + length);
    Unsafe(start, skew, length, LateStamp(at, late), at - 1 + length);
  }

  /** The sliding-window guarantee, exactly: windows of a positive length are safe if and only if the clock never reads
      zero and the length and the skew together make no more than 1000 ms. Full windows of 1000 ms are safe only as long
      as requests take the lock in the order of their stamps. */
  lemma {:induction false} SlidingWindowSafety(start: nat, skew: nat, length: nat)
    ensures SafeFrom(start, skew, length) <==> length == 0 || (start >= 1 && length + skew <= 1000)
  {
    if length == 0 {
      forall limits, reqs: seq<Request>, ip, t | Skewed(reqs, skew) && StartsAt(reqs, start)
        ensures Respects(limits, reqs, ip, t, length)
      {
        EmptyWindow(reqs, Run(limits, reqs).verdicts, Only(ip), t);
        EmptyWindow(reqs, Run(limits, reqs).verdicts, Everyone, t);
      }
    } else if start == 0 {
      UnsafeAtZero(skew, length);
    } else if length + skew > WINDOW_MS {
      if skew == 0 {
        UnsafeInOrder(start, length);
      } else {
        UnsafeWhenSkewed(start, skew, length);
      }
    } else {
      forall limits, reqs: seq<Request>, ip, t | Skewed(reqs, skew) && StartsAt(reqs, start)
        ensures Respects(limits, reqs, ip, t, length)
      {
        RespectsFromOne(limits, reqs, ip, t, skew, length);
      }
    }
  }
}
