/** Request counters and the cumulative latency histogram (src/lib.rs:130-145, 2415-2438, 2747-2843, 2964-2967). */
module HttpMetrics {
  import opened Sums

  const LATENCY_BUCKETS: seq<nat> := [1, 5, 10, 25, 50, 100, 250, 500, 1000, 2500, 5000]

  /** How many of the observed latencies are at or below the bound. */
  function AtMost(observed: seq<nat>, bound: nat): nat {
    if observed == [] then 0
    else AtMost(observed[..|observed| - 1], bound) + if observed[|observed| - 1] <= bound then 1 else 0
  }

  /** The slot of a latency: the first bucket that holds it, or the last slot. */
  ghost predicate IsSlot(latency: nat, slot: nat) {
    && slot <= |LATENCY_BUCKETS|
    && (slot < |LATENCY_BUCKETS| ==> latency <= LATENCY_BUCKETS[slot])
    && (forall i | 0 <= i < slot :: latency > LATENCY_BUCKETS[i])
  }

  /** How many observed latencies fall in slots 0 to `slot`. */
  ghost function UpToSlot(observed: seq<nat>, slot: nat): nat
    requires slot <= |LATENCY_BUCKETS|
  {
    if slot < |LATENCY_BUCKETS| then AtMost(observed, LATENCY_BUCKETS[slot]) else |observed|
  }

  class Histogram {
    const counts: array<nat>
    ghost var observed: seq<nat>   // every latency recorded so far

    ghost predicate Valid()
      reads this, counts
    {
      && counts.Length == |LATENCY_BUCKETS| + 1
      && forall i | 0 <= i < counts.Length ::
           counts[i] == UpToSlot(observed, i) - if i == 0 then 0 else UpToSlot(observed, i - 1)
    }

    constructor ()
      ensures Valid() && fresh(counts) && observed == []
    {
      counts := new nat[|LATENCY_BUCKETS| + 1](_ => 0);
      observed := [];
      new;
      assert forall i | 0 <= i < counts.Length :: counts[i] == 0 && UpToSlot([], i) == 0;
    }

    method RecordLatency(latencyMs: nat)
      requires Valid()
      modifies counts, this`observed
      ensures Valid() && observed == old(observed) + [latencyMs]
    {
      var slot := 0;
      while slot < |LATENCY_BUCKETS| && latencyMs > LATENCY_BUCKETS[slot]
        invariant slot <= |LATENCY_BUCKETS|
        invariant forall i | 0 <= i < slot :: latencyMs > LATENCY_BUCKETS[i]
      {
        slot := slot + 1;
      }
      forall i: nat | i <= |LATENCY_BUCKETS|
        ensures UpToSlot(observed + [latencyMs], i) == UpToSlot(observed, i) + if i < slot then 0 else 1
      {
        OneMore(observed, latencyMs, slot, i);
      }
      counts[slot] := counts[slot] + 1;
      observed := observed + [latencyMs];
    }

    /** The `_bucket` lines of the exposition: one per bound, then `+Inf`. */
    method BucketLines() returns (lines: seq<nat>)
      requires Valid()
      ensures |lines| == |LATENCY_BUCKETS| + 1
      ensures forall i | 0 <= i < |LATENCY_BUCKETS| :: lines[i] == AtMost(observed, LATENCY_BUCKETS[i])
      ensures lines[|LATENCY_BUCKETS|] == |observed|
      ensures lines == [AtMost(observed, 1), AtMost(observed, 5), AtMost(observed, 10), AtMost(observed, 25),
                        AtMost(observed, 50), AtMost(observed, 100), AtMost(observed, 250), AtMost(observed, 500),
                        AtMost(observed, 1000), AtMost(observed, 2500), AtMost(observed, 5000), |observed|]
    {
      var cumulative: nat := 0;
      lines := [];
      for i := 0 to |LATENCY_BUCKETS|
        invariant |lines| == i
        invariant cumulative == if i == 0 then 0 else UpToSlot(observed, i - 1)
        invariant forall j | 0 <= j < i :: lines[j] == UpToSlot(observed, j)
      {
        cumulative := cumulative + counts[i];
        assert cumulative == UpToSlot(observed, i);
        lines := lines + [cumulative];
      }
      cumulative := cumulative + counts[|LATENCY_BUCKETS|];
      lines := lines + [cumulative];
    }
  }

  /** The count of a bound is the number of observations at or below it. */
  lemma {:induction false} AtMostCounts(observed: seq<nat>, bound: nat)
    ensures AtMost(observed, bound) == |set i | 0 <= i < |observed| && observed[i] <= bound|
  {
    var low := set i | 0 <= i < |observed| && observed[i] <= bound;
    if observed == [] {
      assert low == {};
    } else {
      var n := |observed| - 1;
      AtMostCounts(observed[..n], bound);
      var before := set i | 0 <= i < n && observed[..n][i] <= bound;
      assert low == if observed[n] <= bound then before + {n} else before;
    }
  }

  lemma {:induction false} BoundsIncrease(i: nat, j: nat)
    requires i <= j < |LATENCY_BUCKETS|
    ensures LATENCY_BUCKETS[i] <= LATENCY_BUCKETS[j]
  {
  }

  /** One more latency raises exactly the cumulative counts from its slot on. */
  lemma {:induction false} OneMore(observed: seq<nat>, latency: nat, slot: nat, i: nat)
    requires IsSlot(latency, slot) && i <= |LATENCY_BUCKETS|
    ensures UpToSlot(observed + [latency], i) == UpToSlot(observed, i) + if i < slot then 0 else 1
  {
    assert (observed + [latency])[..|observed|] == observed;
    if slot <= i < |LATENCY_BUCKETS| {
      BoundsIncrease(slot, i);
    }
  }

  // ---------------------------------------------------------------- the request counters

  type RequestId = nat

  datatype Phase =
    | InProgress
    | Completing(latencyMs: nat)   // counted as completed, before TOTAL_HTTP_LATENCY_MS
    | Summed(latencyMs: nat)       // in the latency sum, before record_latency

  datatype Counters = Counters(total: nat, completed: nat, rejected: nat, totalLatencyMs: nat, observed: seq<nat>,
                               requests: map<RequestId, Phase>)

  datatype Event =
    | Arrive(r: RequestId)
    | Reject(r: RequestId)                      // allowlist, rate limit or overload
    | Complete(r: RequestId, latencyMs: nat)
    | AddLatency(r: RequestId)
    | Record(r: RequestId)                      // the histogram

  const INIT := Counters(0, 0, 0, 0, [], map[])

  predicate IsInProgress(c: Counters, r: RequestId) {
    r in c.requests && c.requests[r].InProgress?
  }

  function Step(c: Counters, e: Event): Counters {
    match e
    case Arrive(r) =>
      if r in c.requests then c else c.(total := c.total + 1, requests := c.requests[r := InProgress])
    case Reject(r) =>
      if !IsInProgress(c, r) then c else c.(rejected := c.rejected + 1, requests := c.requests - {r})
    case Complete(r, ms) =>
      if !IsInProgress(c, r) then c
      else c.(completed := c.completed + 1, requests := c.requests[r := Completing(ms)])
    case AddLatency(r) =>
      if !(r in c.requests && c.requests[r].Completing?) then c else
        var ms := c.requests[r].latencyMs;
        c.(totalLatencyMs := c.totalLatencyMs + ms, requests := c.requests[r := Summed(ms)])
    case Record(r) =>
      if !(r in c.requests && c.requests[r].Summed?) then c else
        c.(observed := c.observed + [c.requests[r].latencyMs], requests := c.requests - {r})
  }

  function Run(events: seq<Event>): Counters {
    if events == [] then INIT else Step(Run(events[..|events| - 1]), events[|events| - 1])
  }

  function With(requests: map<RequestId, Phase>, inProgress: bool): set<RequestId> {
    set r | r in requests && requests[r].InProgress? == inProgress
  }

  function Total(observed: seq<nat>): nat {
    if observed == [] then 0 else Total(observed[..|observed| - 1]) + observed[|observed| - 1]
  }

  /** The latencies that are in the sum and not yet in the histogram. */
  ghost function Ahead(requests: map<RequestId, Phase>): map<RequestId, nat> {
    map r | r in requests && requests[r].Summed? :: requests[r].latencyMs
  }

  ghost predicate Balanced(c: Counters) {
    && c.total == c.completed + c.rejected + |With(c.requests, true)|
    && c.completed == |c.observed| + |With(c.requests, false)|
    && c.totalLatencyMs == Total(c.observed) + Sum(Ahead(c.requests))
  }

  lemma {:induction false} WithAfterPut(requests: map<RequestId, Phase>, r: RequestId, phase: Phase, inProgress: bool)
    ensures var before := if r in With(requests, inProgress) then 1 else 0;
            var after := if phase.InProgress? == inProgress then 1 else 0;
            |With(requests[r := phase], inProgress)| == |With(requests, inProgress)| - before + after
  {
    var all := With(requests, inProgress);
    assert With(requests[r := phase], inProgress) == if phase.InProgress? == inProgress then all + {r} else all - {r};
  }

  lemma {:induction false} WithAfterRemove(requests: map<RequestId, Phase>, r: RequestId, inProgress: bool)
    ensures var before := if r in With(requests, inProgress) then 1 else 0;
            |With(requests - {r}, inProgress)| == |With(requests, inProgress)| - before
  {
    assert With(requests - {r}, inProgress) == With(requests, inProgress) - {r};
  }

  lemma {:induction false} AheadAfterPut(requests: map<RequestId, Phase>, r: RequestId, phase: Phase)
    requires r in requests ==> !requests[r].Summed?
    ensures Sum(Ahead(requests[r := phase])) == Sum(Ahead(requests)) + if phase.Summed? then phase.latencyMs else 0
  {
    if phase.Summed? {
      SumUpdate(Ahead(requests), r, phase.latencyMs);
      assert Ahead(requests[r := phase]) == Ahead(requests)[r := phase.latencyMs];
    } else {
      assert Ahead(requests[r := phase]) == Ahead(requests);
    }
  }

  lemma {:induction false} AheadAfterRemove(requests: map<RequestId, Phase>, r: RequestId)
    requires r in requests
    ensures Sum(Ahead(requests)) ==
            Sum(Ahead(requests - {r})) + if requests[r].Summed? then requests[r].latencyMs else 0
  {
    assert Ahead(requests - {r}) == Ahead(requests) - {r};
    if requests[r].Summed? {
      SumSplit(Ahead(requests), r);
    } else {
      assert Ahead(requests) - {r} == Ahead(requests);
    }
  }

  lemma {:induction false} PutCounts(c: Counters, r: RequestId, phase: Phase)
    requires r in c.requests ==> !c.requests[r].Summed?
    ensures var requests := c.requests[r := phase];
            && |With(requests, true)| == |With(c.requests, true)| - (if IsInProgress(c, r) then 1 else 0)
                                         + (if phase.InProgress? then 1 else 0)
            && |With(requests, false)| == |With(c.requests, false)|
                                          - (if r in c.requests && !IsInProgress(c, r) then 1 else 0)
                                          + (if phase.InProgress? then 0 else 1)
            && Sum(Ahead(requests)) == Sum(Ahead(c.requests)) + if phase.Summed? then phase.latencyMs else 0
  {
    WithAfterPut(c.requests, r, phase, true);
    WithAfterPut(c.requests, r, phase, false);
    AheadAfterPut(c.requests, r, phase);
  }

  lemma {:induction false} RemovalCounts(requests: map<RequestId, Phase>, r: RequestId)
    requires r in requests
    ensures var inProgress := requests[r].InProgress?;
            && |With(requests - {r}, true)| == |With(requests, true)| - (if inProgress then 1 else 0)
            && |With(requests - {r}, false)| == |With(requests, false)| - (if inProgress then 0 else 1)
            && Sum(Ahead(requests)) ==
               Sum(Ahead(requests - {r})) + if requests[r].Summed? then requests[r].latencyMs else 0
  {
    WithAfterRemove(requests, r, true);
    WithAfterRemove(requests, r, false);
    AheadAfterRemove(requests, r);
  }

  lemma {:induction false} StepKeepsBalance(c: Counters, e: Event)
    requires Balanced(c)
    ensures Balanced(Step(c, e))
  {
    if Step(c, e) != c {
      match e
      case Arrive(r) => PutCounts(c, r, InProgress);
      case Complete(r, ms) => PutCounts(c, r, Completing(ms));
      case AddLatency(r) => PutCounts(c, r, Summed(c.requests[r].latencyMs));
      case Reject(r) => RemovalCounts(c.requests, r);
      case Record(r) =>
        RemovalCounts(c.requests, r);
        assert (c.observed + [c.requests[r].latencyMs])[..|c.observed|] == c.observed;
    }
  }

  /** In every interleaving: total = completed + rejected + in progress; completed = the `+Inf` bucket + the requests
      between their updates; and the latency sum is that of the histogram plus the latencies of the requests between
      those two updates. With no request in between, all agree. */
  lemma {:induction false} RequestAccounting(events: seq<Event>)
    ensures Balanced(Run(events))
    ensures With(Run(events).requests, false) == {} ==>
              && Run(events).completed == UpToSlot(Run(events).observed, |LATENCY_BUCKETS|)
              && Run(events).totalLatencyMs == Total(Run(events).observed)
  {
    if events == [] {
      assert With(INIT.requests, true) == {} && With(INIT.requests, false) == {};
      assert Ahead(INIT.requests) == map[];
    } else {
      var n := |events| - 1;
      RequestAccounting(events[..n]);
      StepKeepsBalance(Run(events[..n]), events[n]);
    }
    NothingAhead(Run(events).requests);
  }

  lemma {:induction false} NothingAhead(requests: map<RequestId, Phase>)
    ensures With(requests, false) == {} ==> Sum(Ahead(requests)) == 0
  {
    if With(requests, false) == {} {
      forall r | r in requests
        ensures !requests[r].Summed?
      {
        assert r !in With(requests, false);
      }
      assert Ahead(requests) == map[];
    }
  }

  /** The events of a kind that took effect, by what a step does to the requests alone. */
  function Happened(events: seq<Event>): Counters {
    if events == [] then Counters(0, 0, 0, 0, [], map[]) else
      var init, e := events[..|events| - 1], events[|events| - 1];
      var h, requests := Happened(init), Run(init).requests;
      match e
      case Arrive(r) => if r in requests then h else h.(total := h.total + 1)
      case Reject(r) => if r in requests && requests[r] == InProgress then h.(rejected := h.rejected + 1) else h
      case Complete(r, ms) =>
        if r in requests && requests[r] == InProgress then h.(completed := h.completed + 1) else h
      case AddLatency(r) =>
        if r in requests && requests[r].Completing?
        then h.(totalLatencyMs := h.totalLatencyMs + requests[r].latencyMs) else h
      case Record(r) =>
        if r in requests && requests[r].Summed? then h.(observed := h.observed + [requests[r].latencyMs]) else h
  }

  /** In every interleaving each counter is the number of its own events: arrivals, rejections and completions. */
  lemma {:induction false} CountersAreCounts(events: seq<Event>)
    ensures Run(events).(requests := map[]) == Happened(events)
  {
    if events == [] {
    } else {
      CountersAreCounts(events[..|events| - 1]);
    }
  }

  /** A request completes with one latency, and that one is summed and recorded. */
  lemma {:induction false} LatencyIsKept(events: seq<Event>, r: RequestId, ms: nat)
    requires r in Run(events).requests && Run(events).requests[r] == InProgress
    ensures var c := Step(Run(events), Complete(r, ms));
            var summed := Step(c, AddLatency(r));
            var recorded := Step(summed, Record(r));
            && c.completed == Run(events).completed + 1
            && summed.totalLatencyMs == Run(events).totalLatencyMs + ms
            && recorded.observed == Run(events).observed + [ms] && r !in recorded.requests
  {
  }

  /** The buckets are cumulative: no bucket counts more than a later one, and none more than `+Inf`. */
  lemma {:induction false} BucketsAreMonotone(observed: seq<nat>, i: nat, j: nat)
    requires i <= j <= |LATENCY_BUCKETS|
    ensures UpToSlot(observed, i) <= UpToSlot(observed, j)
  {
    if observed == [] {
    } else {
      BucketsAreMonotone(observed[..|observed| - 1], i, j);
      if j < |LATENCY_BUCKETS| {
        BoundsIncrease(i, j);
      }
    }
  }
}
