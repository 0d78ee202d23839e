/** Per-upstream concurrency permits (src/lib.rs:472-506): a map of active calls under one mutex and a map of peaks
    under a second one, taken at separate moments.

    `ActiveCalls` holds the two maps; each method is one lock-guarded block, proved against a function of the maps.
    The machine below interleaves those blocks over any number of calls. */
module UpstreamPermits {

  type CallId = nat

  function At(m: map<string, nat>, name: string): nat {
    if name in m then m[name] else 0
  }

  /** The block under the first mutex: `or_insert(0)` happens before the limit test, so a refusal leaves an entry. */
  function Entered(active: map<string, nat>, name: string, limit: nat): (map<string, nat>, bool) {
    if At(active, name) >= limit then (active[name := At(active, name)], false)
    else (active[name := At(active, name) + 1], true)
  }

  /** The block under the second mutex. */
  function Published(peaks: map<string, nat>, name: string, current: nat): map<string, nat> {
    peaks[name := if current > At(peaks, name) then current else At(peaks, name)]
  }

  /** The drop of a permit. */
  function Released(active: map<string, nat>, name: string): map<string, nat> {
    if name !in active then active
    else if active[name] <= 1 then active - {name}
    else active[name := active[name] - 1]
  }

  class ActiveCalls {
    var active: map<string, nat>
    var peaks: map<string, nat>

    constructor ()
      ensures active == map[] && peaks == map[]
    {
      active, peaks := map[], map[];
    }

    method Enter(name: string, limit: nat) returns (granted: bool, current: nat)
      modifies this`active
      ensures (active, granted) == Entered(old(active), name, limit)
      ensures var before := if name in old(active) then old(active)[name] else 0;
              && (granted <==> before < limit)
              && (granted ==> current == before + 1)
              && active == old(active)[name := if granted then before + 1 else before]
    {
      current := 0;
      if name !in active {
        active := active[name := 0];
      }
      assert active == old(active)[name := At(old(active), name)];
      if active[name] >= limit {
        return false, current;
      }
      active := active[name := active[name] + 1];
      assert active == old(active)[name := At(old(active), name) + 1];
      return true, active[name];
    }

    method PublishPeak(name: string, current: nat)
      modifies this`peaks
      ensures peaks == Published(old(peaks), name, current)
      ensures var before := if name in old(peaks) then old(peaks)[name] else 0;
              peaks == old(peaks)[name := if current < before then before else current]
    {
      if name !in peaks {
        peaks := peaks[name := 0];
      }
      if current > peaks[name] {
        peaks := peaks[name := current];
      }
    }

    method Drop(name: string)
      modifies this`active
      ensures active == Released(old(active), name)
      ensures name !in old(active) ==> active == old(active)
      ensures name in old(active) ==>
                var before := old(active)[name];
                active == if before <= 1 then old(active) - {name} else old(active)[name := before - 1]
    {
      if name in active {
        active := active[name := if active[name] >= 1 then active[name] - 1 else 0];
        if active[name] == 0 {
          active := active - {name};
        }
      }
    }
  }

  // ---------------------------------------------------------------- the interleaving machine

  datatype Phase = Pending(name: string, current: nat) | Permitted(name: string)

  /** `calls` holds the calls that have a permit; a `Pending` one has not published its peak yet. */
  datatype State = State(active: map<string, nat>, peaks: map<string, nat>, calls: map<CallId, Phase>)

  datatype Event = Acquire(call: CallId, name: string, limit: nat) | Publish(call: CallId) | Drop(call: CallId)

  function Step(s: State, e: Event): State {
    match e
    case Acquire(c, name, limit) =>
      if c in s.calls then s else
        var (active, granted) := Entered(s.active, name, limit);
        State(active, s.peaks, if granted then s.calls[c := Pending(name, active[name])] else s.calls)
    case Publish(c) =>
      if c in s.calls && s.calls[c].Pending? then
        State(s.active, Published(s.peaks, s.calls[c].name, s.calls[c].current),
              s.calls[c := Permitted(s.calls[c].name)])
      else s
    case Drop(c) =>
      if c in s.calls && s.calls[c].Permitted? then
        State(Released(s.active, s.calls[c].name), s.peaks, s.calls - {c})
      else s
  }

  function Run(events: seq<Event>): State {
    if events == [] then State(map[], map[], map[])
    else Step(Run(events[..|events| - 1]), events[|events| - 1])
  }

  function LivePermits(calls: map<CallId, Phase>, name: string): set<CallId> {
    set c | c in calls && calls[c].name == name
  }

  function Max(a: nat, b: nat): nat {
    if a < b then b else a
  }

  /** The largest number of simultaneous permits `name` has had. */
  function Highest(events: seq<Event>, name: string): nat {
    if events == [] then 0
    else Max(Highest(events[..|events| - 1], name), |LivePermits(Run(events).calls, name)|)
  }

  function LargestLimit(events: seq<Event>): nat {
    if events == [] then 0
    else Max(LargestLimit(events[..|events| - 1]),
             if events[|events| - 1].Acquire? then events[|events| - 1].limit else 0)
  }

  predicate LimitsAtLeast(events: seq<Event>, low: nat) {
    forall e | e in events && e.Acquire? :: e.limit >= low
  }

  predicate NoZeroEntry(active: map<string, nat>) {
    forall name | name in active :: active[name] != 0
  }

  // ---------------------------------------------------------------- the invariant

  ghost predicate Inv(s: State, name: string, highest: nat, largest: nat) {
    && At(s.active, name) == |LivePermits(s.calls, name)| <= largest
    && At(s.active, name) <= highest
    && At(s.peaks, name) <= highest
    && (forall c | c in s.calls && s.calls[c].Pending? && s.calls[c].name == name :: s.calls[c].current <= highest)
    && (At(s.peaks, name) < highest ==> exists c :: c in s.calls && s.calls[c] == Pending(name, highest))
  }

  lemma {:induction false} LiveAfterAdd(calls: map<CallId, Phase>, c: CallId, phase: Phase, name: string)
    requires c !in calls
    ensures |LivePermits(calls[c := phase], name)| == |LivePermits(calls, name)| + if phase.name == name then 1 else 0
  {
    var live := LivePermits(calls, name);
    assert LivePermits(calls[c := phase], name) == if phase.name == name then live + {c} else live;
  }

  lemma {:induction false} LiveAfterRemove(calls: map<CallId, Phase>, c: CallId, name: string)
    requires c in calls
    ensures |LivePermits(calls - {c}, name)| == |LivePermits(calls, name)| - if calls[c].name == name then 1 else 0
  {
    var live := LivePermits(calls, name);
    assert LivePermits(calls - {c}, name) == if calls[c].name == name then live - {c} else live;
  }

  lemma {:induction false} AcquireKeepsInv(s: State, e: Event, name: string, highest: nat, largest: nat)
    requires Inv(s, name, highest, largest) && e.Acquire?
    ensures var s' := Step(s, e);
            Inv(s', name, Max(highest, |LivePermits(s'.calls, name)|), Max(largest, e.limit))
  {
    var s' := Step(s, e);
    var highest' := Max(highest, |LivePermits(s'.calls, name)|);
    if s'.calls != s.calls {
      LiveAfterAdd(s.calls, e.call, s'.calls[e.call], name);
      if At(s'.peaks, name) < highest' {
        if highest' == highest {
          var w :| w in s.calls && s.calls[w] == Pending(name, highest);
          assert w in s'.calls && s'.calls[w] == Pending(name, highest');
        } else {
          assert s'.calls[e.call] == Pending(name, highest');
        }
      }
    }
  }

  lemma {:induction false} PublishKeepsInv(s: State, e: Event, name: string, highest: nat, largest: nat)
    requires Inv(s, name, highest, largest) && e.Publish?
    ensures Inv(Step(s, e), name, highest, largest)
    ensures LivePermits(Step(s, e).calls, name) == LivePermits(s.calls, name)
  {
    var s' := Step(s, e);
    assert LivePermits(s'.calls, name) == LivePermits(s.calls, name);
    if s' != s && At(s'.peaks, name) < highest {
      var w :| w in s.calls && s.calls[w] == Pending(name, highest);
      assert w in s'.calls && s'.calls[w] == Pending(name, highest);
    }
  }

  lemma {:induction false} DropKeepsInv(s: State, e: Event, name: string, highest: nat, largest: nat)
    requires Inv(s, name, highest, largest) && e.Drop?
    ensures Inv(Step(s, e), name, highest, largest)
    ensures |LivePermits(Step(s, e).calls, name)| <= |LivePermits(s.calls, name)|
  {
    var s' := Step(s, e);
    if s' != s {
      LiveAfterRemove(s.calls, e.call, name);
      if At(s'.peaks, name) < highest {
        var w :| w in s.calls && s.calls[w] == Pending(name, highest);
        assert w in s'.calls && s'.calls[w] == Pending(name, highest);
      }
    }
  }

  lemma {:induction false} RunKeepsInv(events: seq<Event>, name: string)
    ensures Inv(Run(events), name, Highest(events, name), LargestLimit(events))
  {
    if events == [] {
    } else {
      var n := |events| - 1;
      RunKeepsInv(events[..n], name);
      var s, e, highest, largest := Run(events[..n]), events[n], Highest(events[..n], name), LargestLimit(events[..n]);
      match e
      case Acquire(_, _, _) => AcquireKeepsInv(s, e, name, highest, largest);
      case Publish(_) => PublishKeepsInv(s, e, name, highest, largest);
      case Drop(_) => DropKeepsInv(s, e, name, highest, largest);
    }
  }

  // ---------------------------------------------------------------- theorems over every interleaving

  /** In every interleaving the active count of a name is its number of live permits, and never exceeds the largest
      limit that was passed. */
  lemma {:induction false} ActiveCountsPermits(events: seq<Event>, name: string)
    ensures At(Run(events).active, name) == |LivePermits(Run(events).calls, name)|
    ensures At(Run(events).active, name) <= LargestLimit(events)
  {
    RunKeepsInv(events, name);
  }

  /** In every run, a call gets its permit exactly when fewer calls than the limit have one for that name. */
  lemma {:induction false} AcquireIsExact(events: seq<Event>, c: CallId, name: string, limit: nat)
    requires c !in Run(events).calls
    ensures c in Step(Run(events), Acquire(c, name, limit)).calls <==> |LivePermits(Run(events).calls, name)| < limit
  {
    RunKeepsInv(events, name);
  }

  /** The recorded peak of a name never exceeds its highest number of simultaneous permits, and equals it whenever
      none of its calls stands between the two locks. */
  lemma {:induction false} PeakIsHighest(events: seq<Event>, name: string)
    ensures At(Run(events).peaks, name) <= Highest(events, name)
    ensures (forall c | c in Run(events).calls && Run(events).calls[c].Pending? ::
               Run(events).calls[c].name != name) ==>
              At(Run(events).peaks, name) == Highest(events, name)
  {
    RunKeepsInv(events, name);
  }

  lemma {:induction false} NoZeroWithoutZeroLimit(events: seq<Event>)
    requires LimitsAtLeast(events, 1)
    ensures NoZeroEntry(Run(events).active)
  {
    if events == [] {
    } else {
      var n := |events| - 1;
      assert events[n] in events;
      assert LimitsAtLeast(events[..n], 1);
      NoZeroWithoutZeroLimit(events[..n]);
    }
  }

  /** The map holds exactly the names with live permits, in every interleaving, if and only if limits are never zero:
      this is what the zero check of `set_runtime_limits` protects. */
  lemma {:induction false} NoZeroEntriesExactly(low: nat)
    ensures (forall events :: LimitsAtLeast(events, low) ==> NoZeroEntry(Run(events).active)) <==> low >= 1
  {
    if low >= 1 {
      forall events | LimitsAtLeast(events, low)
        ensures NoZeroEntry(Run(events).active)
      {
        NoZeroWithoutZeroLimit(events);
      }
    } else {
      var refused := [Acquire(0, "u", 0)];
      assert refused[..0] == [];
      assert "u" in Run(refused).active && Run(refused).active["u"] == 0;
      assert LimitsAtLeast(refused, low);
    }
  }

  /** Once every permit has been dropped, nothing is left in the map of active calls. */
  lemma {:induction false} DrainsToEmpty(events: seq<Event>)
    requires LimitsAtLeast(events, 1) && Run(events).calls == map[]
    ensures Run(events).active == map[]
  {
    NoZeroWithoutZeroLimit(events);
    forall name
      ensures name !in Run(events).active
    {
      ActiveCountsPermits(events, name);
      assert LivePermits(map[], name) == {};
    }
  }
}
