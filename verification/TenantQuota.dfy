/** The fixed-window quota of a tenant (kurd/multitenancy.py:53-73). Times are microseconds, the resolution of the
    source's clock. */
module TenantQuota {

  const SECOND: nat := 1_000_000

  datatype Window = Window(count: nat, lastReset: int)

  function Refresh(w: Window, now: int): Window {
    if now - w.lastReset > SECOND then Window(0, now) else w
  }

  /** `check_quota`. */
  function Check(w: Window, quota: int, now: int): (Window, bool) {
    var r := Refresh(w, now);
    if r.count >= quota then (r, false) else (r.(count := r.count + 1), true)
  }

  /** `get_quota_remaining` refreshes the window too. */
  function Remaining(w: Window, quota: int, now: int): int {
    var left := quota - Refresh(w, now).count;
    if left < 0 then 0 else left
  }

  // ---------------------------------------------------------------- runs

  datatype Call = CheckAt(at: int) | RemainingAt(at: int)

  function AfterCall(w: Window, quota: int, c: Call): Window {
    if c.CheckAt? then Check(w, quota, c.at).0 else Refresh(w, c.at)
  }

  predicate Accepts(w: Window, quota: int, c: Call) {
    c.CheckAt? && Check(w, quota, c.at).1
  }

  /** The tenant is created at `start` with an empty window. */
  function Run(start: int, quota: int, calls: seq<Call>): Window {
    if calls == [] then Window(0, start)
    else AfterCall(Run(start, quota, calls[..|calls| - 1]), quota, calls[|calls| - 1])
  }

  /** The accepted calls of the closed interval [from, to]. */
  function AcceptedIn(start: int, quota: int, calls: seq<Call>, from: int, to: int): nat {
    if calls == [] then 0 else
      var init, last := calls[..|calls| - 1], calls[|calls| - 1];
      AcceptedIn(start, quota, init, from, to) +
      if Accepts(Run(start, quota, init), quota, last) && from <= last.at <= to then 1 else 0
  }

  ghost predicate Ordered(start: int, calls: seq<Call>) {
    && (forall i | 0 <= i < |calls| :: start <= calls[i].at)
    && (forall i, j | 0 <= i <= j < |calls| :: calls[i].at <= calls[j].at)
  }

  function Max(a: int, b: int): int {
    if a < b then b else a
  }

  /** How many windows can meet an interval of length d: resets are more than a second apart. */
  function WindowsIn(d: nat): nat {
    if d == 0 then 1 else 2 + (d - 1) / (SECOND + 1)
  }

  /** Up to time `now`, `full` windows that accepted calls since `from` have been closed, and the count of the current
      one bounds what was accepted in it. The first reset comes after `from`, each later one more than a second on. */
  ghost predicate Bounded(w: Window, quota: int, accepted: nat, full: nat, from: int, now: int) {
    && w.count <= Max(quota, 0)
    && w.lastReset <= now <= w.lastReset + SECOND
    && accepted <= full * Max(quota, 0) + w.count
    && (full >= 1 ==> w.lastReset >= from + 1 + (full - 1) * (SECOND + 1))
    && (accepted > 0 ==> from <= now)
  }

  lemma {:induction false} BoundedStep(w: Window, quota: int, accepted: nat, full: nat, from: int, before: int, c: Call)
      returns (full': nat)
    requires Bounded(w, quota, accepted, full, from, before) && before <= c.at
    ensures Bounded(AfterCall(w, quota, c), quota,
                    accepted + if Accepts(w, quota, c) && from <= c.at then 1 else 0, full', from, c.at)
  {
    var cap := Max(quota, 0);
    if c.at - w.lastReset > SECOND {
      full' := if accepted == 0 then 0 else full + 1;
      assert (full + 1) * cap == full * cap + cap;
    } else {
      full' := full;
    }
  }

  lemma {:induction false} RunIsBounded(start: int, quota: int, calls: seq<Call>, from: int, to: int)
      returns (full: nat)
    requires Ordered(start, calls) && forall i | 0 <= i < |calls| :: calls[i].at <= to
    ensures Bounded(Run(start, quota, calls), quota, AcceptedIn(start, quota, calls, from, to), full, from,
                    if calls == [] then start else calls[|calls| - 1].at)
  {
    full := 0;
    if calls == [] {
    } else {
      var init, last := calls[..|calls| - 1], calls[|calls| - 1];
      full := RunIsBounded(start, quota, init, from, to);
      full := BoundedStep(Run(start, quota, init), quota, AcceptedIn(start, quota, init, from, to), full, from,
                          if init == [] then start else init[|init| - 1].at, last);
    }
  }

  /** k resets take more than k - 1 seconds. */
  lemma {:induction false} ResetsFit(full: nat, d: nat)
    requires full >= 1 && 1 + (full - 1) * (SECOND + 1) <= d
    ensures full + 1 <= WindowsIn(d)
  {
    assert (d - 1) / (SECOND + 1) >= full - 1;
  }

  lemma {:induction false} WindowsFit(w: Window, quota: int, accepted: nat, full: nat, from: int, now: int, d: nat)
    requires Bounded(w, quota, accepted, full, from, now) && now <= from + d
    ensures accepted <= WindowsIn(d) * Max(quota, 0)
  {
    var cap := Max(quota, 0);
    if full >= 1 {
      ResetsFit(full, d);
    }
    AtMostTimes(full, WindowsIn(d), cap);
  }

  lemma {:induction false} AtMostTimes(a: nat, b: nat, c: nat)
    requires a < b
    ensures a * c + c <= b * c
  {
    var d := b - a - 1;
    assert b * c == (a + 1 + d) * c == a * c + c + d * c;
  }

  /** In every run with a constant quota and a clock that never goes back, any closed interval of length d holds at most
      one quota of accepted calls for each window that can meet it, however many reads of the remaining quota come in
      between. A negative quota accepts nothing. */
  lemma {:induction false} IntervalBound(start: int, quota: int, calls: seq<Call>, from: int, d: nat)
    requires Ordered(start, calls)
    ensures AcceptedIn(start, quota, calls, from, from + d) <= WindowsIn(d) * Max(quota, 0)
  {
    if calls == [] {
      assert WindowsIn(d) * Max(quota, 0) >= 0;
    } else if calls[|calls| - 1].at > from + d {
      IntervalBound(start, quota, calls[..|calls| - 1], from, d);
    } else {
      var full := RunIsBounded(start, quota, calls, from, from + d);
      WindowsFit(Run(start, quota, calls), quota, AcceptedIn(start, quota, calls, from, from + d), full, from,
                 calls[|calls| - 1].at, d);
    }
  }

  /** n whole seconds hold at most (n + 1) * quota accepted calls. */
  lemma {:induction false} QuotaBound(start: int, quota: int, calls: seq<Call>, from: int, n: nat)
    requires Ordered(start, calls)
    ensures AcceptedIn(start, quota, calls, from, from + n * SECOND) <= (n + 1) * Max(quota, 0)
  {
    IntervalBound(start, quota, calls, from, n * SECOND);
    WindowsInSeconds(n);
    if WindowsIn(n * SECOND) <= n {
      AtMostTimes(WindowsIn(n * SECOND), n + 1, Max(quota, 0));
    }
  }

  lemma {:induction false} WindowsInSeconds(n: nat)
    ensures WindowsIn(n * SECOND) <= n + 1
    ensures n <= 1_000_000 ==> WindowsIn(n * SECOND) == n + 1
  {
    if n > 0 {
      assert n * SECOND - 1 == (n - 1) * (SECOND + 1) + (SECOND - n);
    }
  }

  // ---------------------------------------------------------------- every verdict

  /** When the window was last reset: by each call, of either kind, more than a second after the reset before it. */
  function LastReset(start: int, calls: seq<Call>): int {
    if calls == [] then start else
      var init, now := calls[..|calls| - 1], calls[|calls| - 1].at;
      if now - LastReset(start, init) > 1_000_000 then now else LastReset(start, init)
  }

  /** The calls accepted since then. */
  function AcceptedSince(start: int, quota: int, calls: seq<Call>): nat {
    if calls == [] then 0 else
      var init, last := calls[..|calls| - 1], calls[|calls| - 1];
      (if last.at - LastReset(start, init) > 1_000_000 then 0 else AcceptedSince(start, quota, init)) +
      if Accepts(Run(start, quota, init), quota, last) then 1 else 0
  }

  lemma {:induction false} WindowIsHistory(start: int, quota: int, calls: seq<Call>)
    ensures Run(start, quota, calls) == Window(AcceptedSince(start, quota, calls), LastReset(start, calls))
  {
    if calls == [] {
    } else {
      WindowIsHistory(start, quota, calls[..|calls| - 1]);
    }
  }

  /** In every run, a call is accepted exactly when fewer calls than the quota have been accepted since the last
      reset, or none if that was more than a second ago, and what remains is the difference. */
  lemma {:induction false} VerdictIsExact(start: int, quota: int, calls: seq<Call>, now: int)
    ensures var used := if now - LastReset(start, calls) > 1_000_000 then 0 else AcceptedSince(start, quota, calls);
            && (Check(Run(start, quota, calls), quota, now).1 <==> used < quota)
            && Remaining(Run(start, quota, calls), quota, now) == if used < quota then quota - used else 0
  {
    WindowIsHistory(start, quota, calls);
  }

  // ---------------------------------------------------------------- the bound is attained

  function Burst(size: nat, at: int): seq<Call> {
    seq(size, _ => CheckAt(at))
  }

  /** The first burst comes at the end of a window, the second just after it, the others as soon as windows reset. */
  function BurstAt(k: nat): nat {
    if k == 0 then SECOND else k * (SECOND + 1)
  }

  function Bursts(quota: nat, k: nat): seq<Call> {
    if k == 0 then [] else Bursts(quota, k - 1) + Burst(quota, BurstAt(k - 1))
  }

  /** What a run has come to: its window, and what it accepted in [SECOND, to]. */
  ghost predicate Reaches(quota: nat, calls: seq<Call>, w: Window, accepted: nat, to: int) {
    Run(0, quota, calls) == w && AcceptedIn(0, quota, calls, SECOND, to) == accepted
  }

  lemma {:induction false} OneMoreCheck(quota: nat, calls: seq<Call>, w: Window, accepted: nat, at: int, to: int)
    requires Reaches(quota, calls, w, accepted, to) && SECOND <= at <= to && Check(w, quota, at).1
    ensures Reaches(quota, calls + [CheckAt(at)], Check(w, quota, at).0, accepted + 1, to)
  {
    assert (calls + [CheckAt(at)])[..|calls|] == calls;
  }

  lemma {:induction false} LastCheck(calls: seq<Call>, at: int, size: nat)
    requires size > 0
    ensures calls + Burst(size - 1, at) + [CheckAt(at)] == calls + Burst(size, at)
  {
  }

  /** The window within a burst. */
  function WindowIn(w: Window, at: int, size: nat): Window {
    if size == 0 then w else Window(size, Refresh(w, at).lastReset)
  }

  /** `size` calls at one moment are all accepted when they open a window or find it empty. */
  lemma {:induction false} BurstAccepted(quota: nat, calls: seq<Call>, w: Window, accepted: nat, at: int, size: nat,
                                         to: int)
    requires Reaches(quota, calls, w, accepted, to) && SECOND <= at <= to && size <= quota
    requires Refresh(w, at).count == 0 && at - Refresh(w, at).lastReset <= SECOND
    ensures Reaches(quota, calls + Burst(size, at), WindowIn(w, at, size), accepted + size, to)
  {
    if size == 0 {
      assert calls + Burst(0, at) == calls;
    } else {
      BurstAccepted(quota, calls, w, accepted, at, size - 1, to);
      OneMoreCheck(quota, calls + Burst(size - 1, at), WindowIn(w, at, size - 1), accepted + size - 1, at, to);
      LastCheck(calls, at, size);
    }
  }

  function WindowAfter(quota: nat, k: nat): Window {
    if k == 0 then Window(0, 0) else Window(quota, if k == 1 then 0 else BurstAt(k - 1))
  }

  /** Each burst finds its window empty: the first at its end, the others by resetting it. */
  lemma {:induction false} BurstOpensWindow(quota: nat, k: nat)
    requires quota > 0
    ensures var w := Refresh(WindowAfter(quota, k), BurstAt(k));
            w.count == 0 && BurstAt(k) - w.lastReset <= SECOND
            && Window(quota, w.lastReset) == WindowAfter(quota, k + 1)
  {
  }

  lemma {:induction false} BurstsAccepted(quota: nat, k: nat, to: int)
    requires quota > 0 && (k > 0 ==> BurstAt(k - 1) <= to)
    ensures Reaches(quota, Bursts(quota, k), WindowAfter(quota, k), k * quota, to)
  {
    if k == 0 {
    } else {
      BurstsAccepted(quota, k - 1, to);
      NextBurst(quota, k - 1, (k - 1) * quota, to);
      NextMultiple(k, quota);
    }
  }

  lemma {:induction false} NextMultiple(k: nat, c: nat)
    requires k > 0
    ensures (k - 1) * c + c == k * c
  {
  }

  lemma {:induction false} NextBurst(quota: nat, k: nat, accepted: nat, to: int)
    requires quota > 0 && BurstAt(k) <= to && Reaches(quota, Bursts(quota, k), WindowAfter(quota, k), accepted, to)
    ensures Reaches(quota, Bursts(quota, k + 1), WindowAfter(quota, k + 1), accepted + quota, to)
  {
    BurstOpensWindow(quota, k);
    BurstAccepted(quota, Bursts(quota, k), WindowAfter(quota, k), accepted, BurstAt(k), quota, to);
    assert Bursts(quota, k + 1) == Bursts(quota, k) + Burst(quota, BurstAt(k));
  }

  ghost predicate OrderedUpTo(calls: seq<Call>, at: int) {
    Ordered(0, calls) && forall i | 0 <= i < |calls| :: calls[i].at <= at
  }

  lemma {:induction false} BurstKeepsOrder(calls: seq<Call>, before: int, size: nat, at: nat)
    requires OrderedUpTo(calls, before) && before <= at
    ensures OrderedUpTo(calls + Burst(size, at), at)
  {
    var all := calls + Burst(size, at);
    forall i | 0 <= i < |all|
      ensures all[i] == if i < |calls| then calls[i] else CheckAt(at)
    {
    }
  }

  lemma {:induction false} BurstsOrdered(quota: nat, k: nat)
    ensures OrderedUpTo(Bursts(quota, k), if k == 0 then 0 else BurstAt(k - 1))
  {
    if k == 0 {
    } else {
      BurstsOrdered(quota, k - 1);
      BurstKeepsOrder(Bursts(quota, k - 1), if k == 1 then 0 else BurstAt(k - 2), quota, BurstAt(k - 1));
    }
  }

  /** For every length of interval some run attains the bound: two full quotas can fall within a microsecond of each
      other. */
  lemma {:induction false} BoundIsAttained(quota: nat, d: nat)
    ensures var calls := if quota == 0 then [] else Bursts(quota, WindowsIn(d));
            Ordered(0, calls) && AcceptedIn(0, quota, calls, SECOND, SECOND + d) == WindowsIn(d) * quota
  {
    if quota > 0 {
      var k := WindowsIn(d);
      BurstsOrdered(quota, k);
      assert BurstAt(k - 1) <= SECOND + d;
      BurstsAccepted(quota, k, SECOND + d);
    }
  }

  /** Every interval of length d of every run has at most this many accepted calls. */
  ghost predicate Enforces(quota: int, d: nat, bound: nat) {
    forall start, calls, from :: Ordered(start, calls) ==> AcceptedWithin(start, quota, calls, from, d) <= bound
  }

  function AcceptedWithin(start: int, quota: int, calls: seq<Call>, from: int, d: nat): nat {
    AcceptedIn(start, quota, calls, from, from + d)
  }

  /** What is enforced over d microseconds is exactly one quota for each window that can meet them. */
  lemma {:induction false} EnforcedExactly(quota: int, d: nat, bound: nat)
    ensures Enforces(quota, d, bound) <==> bound >= WindowsIn(d) * Max(quota, 0)
  {
    if bound >= WindowsIn(d) * Max(quota, 0) {
      forall start, calls, from | Ordered(start, calls)
        ensures AcceptedWithin(start, quota, calls, from, d) <= bound
      {
        IntervalBound(start, quota, calls, from, d);
      }
    } else {
      assert quota > 0 by {
        assert WindowsIn(d) * 0 == 0;
      }
      BoundIsAttained(quota, d);
      assert AcceptedWithin(0, quota, Bursts(quota, WindowsIn(d)), SECOND, d) > bound;
    }
  }

  /** One quota per interval is what is enforced only at a single moment, or when nothing is accepted. */
  lemma {:induction false} OneQuotaExactly(quota: int, d: nat)
    ensures Enforces(quota, d, Max(quota, 0)) <==> d == 0 || quota <= 0
  {
    EnforcedExactly(quota, d, Max(quota, 0));
    var cap := Max(quota, 0);
    if d == 0 || quota <= 0 {
      assert WindowsIn(d) * cap <= cap;
    } else {
      AtMostTimes(1, WindowsIn(d), cap);
    }
  }
}
