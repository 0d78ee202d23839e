/** The lock-free admission gate (src/lib.rs:416-470): a counter raised by compare-and-swap, a peak published
    afterwards by a second compare-and-swap loop, and a permit whose drop lowers the counter.

    Every atomic instruction is one event of one thread. An event that its thread cannot perform in its current
    phase changes nothing, so every sequence of events is an interleaving. A weak compare-and-swap may fail
    spuriously: the event says whether it does. */
module AtomicPermits {

  type Tid = nat

  datatype Phase =
    | Idle
    | Trying(limit: int)                  // before counter.load
    | Loaded(current: int, limit: int)    // before the counter's compare-and-swap, current < limit
    | Won(value: int)                     // before peak.load: the permit is counted
    | Publishing(value: int, seen: int)   // before the peak's compare-and-swap, seen < value
    | Holding                             // the permit has been returned

  datatype Gate = Gate(counter: int, peak: int, threads: map<Tid, Phase>)

  datatype Event =
    | Begin(t: Tid, limit: nat)
    | LoadCounter(t: Tid)
    | CasCounter(t: Tid, spurious: bool)
    | LoadPeak(t: Tid)
    | CasPeak(t: Tid, spurious: bool)
    | Drop(t: Tid)

  function PhaseOf(g: Gate, t: Tid): Phase {
    if t in g.threads then g.threads[t] else Idle
  }

  function Move(g: Gate, t: Tid, phase: Phase): Gate {
    g.(threads := g.threads[t := phase])
  }

  /** The test at the head of the loop of `update_peak`. */
  function Seen(value: int, seen: int): Phase {
    if value > seen then Publishing(value, seen) else Holding
  }

  function Step(g: Gate, e: Event): Gate {
    match (e, PhaseOf(g, e.t))
    case (Begin(t, limit), Idle) => Move(g, t, Trying(limit))
    case (LoadCounter(t), Trying(limit)) =>
      Move(g, t, if g.counter >= limit then Idle else Loaded(g.counter, limit))
    case (CasCounter(t, spurious), Loaded(current, limit)) =>
      if g.counter == current && !spurious
      then Move(g, t, Won(current + 1)).(counter := current + 1)
      else Move(g, t, Trying(limit))
    case (LoadPeak(t), Won(value)) => Move(g, t, Seen(value, g.peak))
    case (CasPeak(t, spurious), Publishing(value, seen)) =>
      if g.peak == seen && !spurious
      then Move(g, t, Holding).(peak := value)
      else Move(g, t, Seen(value, g.peak))
    case (Drop(t), Holding) => Move(g, t, Idle).(counter := g.counter - 1)
    case _ => g
  }

  function RunFrom(g: Gate, events: seq<Event>): Gate {
    if events == [] then g else Step(RunFrom(g, events[..|events| - 1]), events[|events| - 1])
  }

  function Run(events: seq<Event>): Gate {
    RunFrom(Gate(0, 0, map[]), events)
  }

  predicate Counted(p: Phase) {
    p.Won? || p.Publishing? || p.Holding?
  }

  /** The threads between `update_peak`'s first and last instruction. */
  predicate InUpdatePeak(p: Phase) {
    p.Won? || p.Publishing?
  }

  function LivePermits(g: Gate): set<Tid> {
    set t | t in g.threads && Counted(g.threads[t])
  }

  /** The largest value the counter has had. */
  function Highest(events: seq<Event>): int {
    if events == [] then 0
    else Max(Highest(events[..|events| - 1]), Run(events).counter)
  }

  /** The largest limit any acquisition was asked to respect. */
  function LargestLimit(events: seq<Event>): int {
    if events == [] then 0
    else Max(LargestLimit(events[..|events| - 1]),
             if events[|events| - 1].Begin? then events[|events| - 1].limit else 0)
  }

  function Max(a: int, b: int): int {
    if a < b then b else a
  }

  // ---------------------------------------------------------------- the invariant

  ghost predicate PhaseOk(p: Phase, peak: int, highest: int, largest: int) {
    match p
    case Idle | Holding => true
    case Trying(limit) => limit <= largest
    case Loaded(current, limit) => current < limit <= largest
    case Won(value) => value <= highest
    case Publishing(value, seen) => seen <= peak && seen < value <= highest
  }

  ghost predicate Inv(g: Gate, highest: int, largest: int) {
    && g.counter == |LivePermits(g)|
    && g.counter <= largest
    && g.counter <= highest
    && g.peak <= highest
    && (forall t | t in g.threads :: PhaseOk(g.threads[t], g.peak, highest, largest))
    && (g.peak < highest ==> exists t :: t in g.threads && InUpdatePeak(g.threads[t]) && g.threads[t].value == highest)
  }

  lemma {:induction false} LiveAfterMove(g: Gate, t: Tid, phase: Phase)
    ensures var live, after := LivePermits(g), LivePermits(Move(g, t, phase));
            |after| == |live| - (if t in live then 1 else 0) + (if Counted(phase) then 1 else 0)
  {
    var live, after := LivePermits(g), LivePermits(Move(g, t, phase));
    assert after == if Counted(phase) then live + {t} else live - {t};
  }

  lemma {:induction false} StepKeepsInv(g: Gate, e: Event, highest: int, largest: int)
    requires Inv(g, highest, largest)
    ensures var g' := Step(g, e);
            Inv(g', Max(highest, g'.counter), Max(largest, if e.Begin? then e.limit else 0))
    ensures g.peak <= Step(g, e).peak
  {
    var g' := Step(g, e);
    var highest' := Max(highest, g'.counter);
    if g' != g {
      LiveAfterMove(g, e.t, PhaseOf(g', e.t));
      assert LivePermits(g') == LivePermits(Move(g, e.t, PhaseOf(g', e.t)));
      if g'.peak < highest' {
        if highest' == highest {
          var w :| w in g.threads && InUpdatePeak(g.threads[w]) && g.threads[w].value == highest;
          assert w in g'.threads && InUpdatePeak(g'.threads[w]) && g'.threads[w].value == highest';
        } else {
          assert e.t in g'.threads && InUpdatePeak(g'.threads[e.t]) && g'.threads[e.t].value == highest';
        }
      }
    }
  }

  lemma {:induction false} RunKeepsInv(events: seq<Event>)
    ensures Inv(Run(events), Highest(events), LargestLimit(events))
  {
    if events == [] {
    } else {
      var n := |events| - 1;
      RunKeepsInv(events[..n]);
      StepKeepsInv(Run(events[..n]), events[n], Highest(events[..n]), LargestLimit(events[..n]));
    }
  }

  // ---------------------------------------------------------------- theorems over every interleaving

  /** In every interleaving the counter is the number of live permits, so it never underflows, and it never exceeds
      the largest limit that was passed. */
  lemma {:induction false} CounterCountsPermits(events: seq<Event>)
    ensures Run(events).counter == |LivePermits(Run(events))|
    ensures 0 <= Run(events).counter <= LargestLimit(events)
  {
    RunKeepsInv(events);
  }

  /** The published peak never exceeds the largest value the counter has had, never goes down, and equals that value
      whenever no thread is between its compare-and-swap and the end of `update_peak`. */
  lemma {:induction false} PeakIsHighest(events: seq<Event>)
    ensures Run(events).peak <= Highest(events)
    ensures (forall t | t in Run(events).threads :: !InUpdatePeak(Run(events).threads[t])) ==>
              Run(events).peak == Highest(events)
    ensures events != [] ==> Run(events[..|events| - 1]).peak <= Run(events).peak
  {
    RunKeepsInv(events);
    if events != [] {
      var n := |events| - 1;
      RunKeepsInv(events[..n]);
      StepKeepsInv(Run(events[..n]), events[n], Highest(events[..n]), LargestLimit(events[..n]));
    }
  }

  /** An acquisition is admitted only below its limit: the counter it raises was below the limit it was given. */
  lemma {:induction false} AdmittedBelowLimit(events: seq<Event>, t: Tid, limit: int)
    requires PhaseOf(Run(events), t).Loaded? && PhaseOf(Run(events), t).limit == limit
    ensures var g' := Step(Run(events), CasCounter(t, false));
            PhaseOf(g', t).Won? <==> PhaseOf(Run(events), t).current == Run(events).counter
    ensures var g' := Step(Run(events), CasCounter(t, false));
            PhaseOf(g', t).Won? ==> g'.counter == Run(events).counter + 1 <= limit
  {
    RunKeepsInv(events);
  }

  predicate KeepsPermit(t: Tid, events: seq<Event>) {
    forall i | 0 <= i < |events| :: events[i] != Drop(t)
  }

  /** The attempts of a thread that do not fail spuriously. */
  function PeakAttempts(t: Tid, events: seq<Event>): nat {
    if events == [] then 0
    else PeakAttempts(t, events[..|events| - 1]) + if events[|events| - 1] == CasPeak(t, false) then 1 else 0
  }

  /** Each attempt that has not ended the loop has raised what the thread has seen. */
  predicate Progressed(start: Phase, end: Phase, attempts: nat)
    requires start.Publishing?
  {
    end.Holding? || (end.Publishing? && end.value == start.value && attempts <= end.seen - start.seen)
  }

  lemma {:induction false} StepProgresses(g: Gate, t: Tid, e: Event, start: Phase, attempts: nat)
    requires start.Publishing? && Progressed(start, PhaseOf(g, t), attempts)
    requires PhaseOf(g, t).Publishing? ==> PhaseOf(g, t).seen <= g.peak
    requires e != Drop(t)
    ensures Progressed(start, PhaseOf(Step(g, e), t), attempts + if e == CasPeak(t, false) then 1 else 0)
  {
  }

  lemma {:induction false} SeenBelow(events: seq<Event>, t: Tid)
    requires PhaseOf(Run(events), t).Publishing?
    ensures var p := PhaseOf(Run(events), t); p.seen < p.value && p.seen <= Run(events).peak
  {
    RunKeepsInv(events);
  }

  /** `update_peak` ends but for spurious failures: from a point where it has seen `seen`, whatever the other threads do
      and however often its weak compare-and-swap fails spuriously, each other attempt that does not end it raises what
      it has seen. At most value - seen such attempts are made. */
  lemma {:induction false} UpdatePeakTerminates(events: seq<Event>, t: Tid, more: seq<Event>)
    requires PhaseOf(Run(events), t).Publishing? && KeepsPermit(t, more)
    ensures var start := PhaseOf(Run(events), t);
            var end := PhaseOf(RunFrom(Run(events), more), t);
            && Progressed(start, end, PeakAttempts(t, more))
            && (PeakAttempts(t, more) >= start.value - start.seen ==> end.Holding?)
  {
    if more == [] {
    } else {
      var n := |more| - 1;
      UpdatePeakTerminates(events, t, more[..n]);
      RunConcat(events, more[..n]);
      if PhaseOf(Run(events + more[..n]), t).Publishing? {
        SeenBelow(events + more[..n], t);
      }
      StepProgresses(Run(events + more[..n]), t, more[n], PhaseOf(Run(events), t), PeakAttempts(t, more[..n]));
    }
    RunConcat(events, more);
    if PhaseOf(Run(events + more), t).Publishing? {
      SeenBelow(events + more, t);
    }
  }

  lemma {:induction false} RunFromConcat(g: Gate, events: seq<Event>, more: seq<Event>)
    ensures RunFrom(g, events + more) == RunFrom(RunFrom(g, events), more)
  {
    if more == [] {
      assert events + more == events;
    } else {
      var n := |more| - 1;
      RunFromConcat(g, events, more[..n]);
      assert (events + more)[..|events + more| - 1] == events + more[..n];
    }
  }

  lemma {:induction false} RunConcat(events: seq<Event>, more: seq<Event>)
    ensures Run(events + more) == RunFrom(Run(events), more)
  {
    RunFromConcat(Run([]), events, more);
  }

  /** Nothing bounds the spurious failures themselves: there may be any number of them, and nothing changes. */
  lemma {:induction false} SpuriousFailuresNeverEnd(g: Gate, t: Tid, attempts: nat)
    requires PhaseOf(g, t) == Publishing(g.peak + 1, g.peak)
    ensures RunFrom(g, seq(attempts, i => CasPeak(t, true))) == g
  {
    var es := seq(attempts, i => CasPeak(t, true));
    if attempts == 0 {
    } else {
      SpuriousFailuresNeverEnd(g, t, attempts - 1);
      assert es[..attempts - 1] == seq(attempts - 1, i => CasPeak(t, true));
      assert g.threads[t := g.threads[t]] == g.threads;
    }
  }
}
