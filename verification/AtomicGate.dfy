/** `try_acquire_atomic` and `update_peak` as the loops they are (src/lib.rs:426-465), each run by one thread while the
    others take arbitrary steps between its atomic instructions. */
module AtomicGate {
  import opened AtomicPermits

  /** What happens at one atomic instruction: the other threads' steps just before it, and whether a weak
      compare-and-swap fails spuriously. */
  datatype Turn = Turn(others: seq<Event>, spurious: bool)

  /** `Unfinished`: the turns ran out before the loop did. */
  datatype Outcome = Granted | Refused | Unfinished

  ghost predicate Foreign(t: Tid, turn: Turn) {
    forall e | e in turn.others :: e.t != t
  }

  ghost predicate OthersOnly(t: Tid, turns: seq<Turn>) {
    forall i | 0 <= i < |turns| :: Foreign(t, turns[i])
  }

  /** The next atomic instruction of a thread. */
  function Own(g: Gate, t: Tid, spurious: bool): Event {
    match PhaseOf(g, t)
    case Loaded(_, _) => CasCounter(t, spurious)
    case Won(_) => LoadPeak(t)
    case Publishing(_, _) => CasPeak(t, spurious)
    case _ => LoadCounter(t)
  }

  /** The gate after one turn, and after several, in which thread t executes its next instruction. */
  function Taken(g: Gate, t: Tid, turn: Turn): Gate {
    var before := RunFrom(g, turn.others);
    Step(before, Own(before, t, turn.spurious))
  }

  function Woven(g: Gate, t: Tid, turns: seq<Turn>): Gate {
    if turns == [] then g else Taken(Woven(g, t, turns[..|turns| - 1]), t, turns[|turns| - 1])
  }

  lemma {:induction false} OthersLeaveMyPhase(g: Gate, t: Tid, others: seq<Event>)
    requires forall e | e in others :: e.t != t
    ensures PhaseOf(RunFrom(g, others), t) == PhaseOf(g, t)
  {
    if others == [] {
    } else {
      OthersLeaveMyPhase(g, t, others[..|others| - 1]);
    }
  }

  lemma {:induction false} OneTurn(g: Gate, t: Tid, turns: seq<Turn>, i: nat)
    requires i < |turns|
    ensures Woven(g, t, turns[..i + 1]) == Taken(Woven(g, t, turns[..i]), t, turns[i])
  {
    assert turns[..i + 1][..i] == turns[..i];
  }

  /** `path(i)` is the gate after i of the turns. */
  ghost predicate Follows(path: nat -> Gate, t: Tid, turns: seq<Turn>) {
    && OthersOnly(t, turns)
    && (forall i {:trigger turns[i]} | 0 <= i < |turns| :: path(i + 1) == Taken(path(i), t, turns[i]))
  }

  function PathOf(start: Gate, t: Tid, turns: seq<Turn>): nat -> Gate {
    (i: nat) => if i <= |turns| then Woven(start, t, turns[..i]) else start
  }

  lemma {:induction false} PathFollows(start: Gate, t: Tid, turns: seq<Turn>)
    requires OthersOnly(t, turns)
    ensures Follows(PathOf(start, t, turns), t, turns)
  {
    forall i | 0 <= i < |turns|
      ensures PathOf(start, t, turns)(i + 1) == Taken(PathOf(start, t, turns)(i), t, turns[i])
    {
      OneTurn(start, t, turns, i);
    }
  }

  class SharedGate {
    var counter: int
    var peak: int
    var threads: map<Tid, Phase>   // where every thread stands between two of its instructions

    function State(): Gate
      reads this
    {
      Gate(counter, peak, threads)
    }

    constructor ()
      ensures State() == Run([])
    {
      counter, peak, threads := 0, 0, map[];
    }

    method Become(g: Gate)
      modifies this
      ensures State() == g
    {
      counter, peak, threads := g.counter, g.peak, g.threads;
    }

    /** `counter.load` */
    method LoadCounter(t: Tid, turns: seq<Turn>, i: nat, ghost path: nat -> Gate) returns (current: int)
      requires PhaseOf(State(), t).Trying? && Follows(path, t, turns) && i < |turns| && State() == path(i)
      modifies this
      ensures State() == path(i + 1) && current == counter
      ensures var limit := PhaseOf(old(State()), t).limit;
              PhaseOf(State(), t) == if current >= limit then Idle else Loaded(current, limit)
    {
      OthersLeaveMyPhase(State(), t, turns[i].others);
      Become(Taken(State(), t, turns[i]));
      current := counter;
    }

    /** `counter.compare_exchange_weak` */
    method CompareExchangeCounter(t: Tid, current: int, turns: seq<Turn>, i: nat, ghost path: nat -> Gate)
        returns (ok: bool)
      requires PhaseOf(State(), t).Loaded? && PhaseOf(State(), t).current == current
      requires Follows(path, t, turns) && i < |turns| && State() == path(i)
      modifies this
      ensures State() == path(i + 1)
      ensures ok ==> counter == current + 1
      ensures PhaseOf(State(), t) == if ok then Won(current + 1) else Trying(PhaseOf(old(State()), t).limit)
    {
      OthersLeaveMyPhase(State(), t, turns[i].others);
      var before := RunFrom(State(), turns[i].others);
      ok := before.counter == current && !turns[i].spurious;
      Become(Step(before, CasCounter(t, turns[i].spurious)));
    }

    /** `peak.load` */
    method LoadPeak(t: Tid, turns: seq<Turn>, i: nat, ghost path: nat -> Gate) returns (seen: int)
      requires PhaseOf(State(), t).Won? && Follows(path, t, turns) && i < |turns| && State() == path(i)
      modifies this
      ensures State() == path(i + 1)
      ensures PhaseOf(State(), t) == Seen(PhaseOf(old(State()), t).value, seen) && seen == peak
    {
      OthersLeaveMyPhase(State(), t, turns[i].others);
      Become(Taken(State(), t, turns[i]));
      seen := peak;
    }

    /** `peak.compare_exchange_weak`, with the value it found */
    method CompareExchangePeak(t: Tid, seen: int, value: int, turns: seq<Turn>, i: nat, ghost path: nat -> Gate)
        returns (ok: bool, actual: int)
      requires PhaseOf(State(), t) == Publishing(value, seen)
      requires Follows(path, t, turns) && i < |turns| && State() == path(i)
      modifies this
      ensures State() == path(i + 1)
      ensures peak == if ok then value else actual
      ensures PhaseOf(State(), t) == if ok then Holding else Seen(value, actual)
    {
      OthersLeaveMyPhase(State(), t, turns[i].others);
      var before := RunFrom(State(), turns[i].others);
      ok, actual := before.peak == seen && !turns[i].spurious, before.peak;
      Become(Step(before, CasPeak(t, turns[i].spurious)));
    }

    /** The loop that publishes the peak. */
    method UpdatePeak(t: Tid, value: int, turns: seq<Turn>, from: nat, ghost path: nat -> Gate)
        returns (done: bool, used: nat)
      requires Follows(path, t, turns) && from <= |turns| && State() == path(from) && PhaseOf(State(), t) == Won(value)
      modifies this
      ensures from <= used <= |turns| && State() == path(used)
      ensures if done then PhaseOf(State(), t).Holding? && peak >= value
              else used == |turns| && (PhaseOf(State(), t).Won? || PhaseOf(State(), t).Publishing?)
    {
      used := from;
      if used == |turns| {
        return false, used;
      }
      var current := LoadPeak(t, turns, used, path);
      used := used + 1;
      while value > current
        invariant from <= used <= |turns| && State() == path(used)
        invariant PhaseOf(State(), t) == Seen(value, current)
        invariant peak == current
        decreases |turns| - used
      {
        if used == |turns| {
          return false, used;
        }
        var ok, actual := CompareExchangePeak(t, current, value, turns, used, path);
        used := used + 1;
        if ok {
          return true, used;
        }
        current := actual;
      }
      return true, used;
    }

    /** The acquisition loop. */
    method Acquire(t: Tid, limit: nat, turns: seq<Turn>, ghost path: nat -> Gate) returns (result: Outcome, used: nat)
      requires PhaseOf(State(), t) == Trying(limit) && Follows(path, t, turns) && State() == path(0)
      modifies this
      ensures used <= |turns| && State() == path(used)
      ensures match result
              case Granted => PhaseOf(State(), t).Holding?
              case Refused => PhaseOf(State(), t).Idle? && counter >= limit
              case Unfinished => used == |turns| && !PhaseOf(State(), t).Holding? && !PhaseOf(State(), t).Idle?
    {
      used := 0;
      while used < |turns|
        invariant used <= |turns| && State() == path(used)
        invariant PhaseOf(State(), t) == Trying(limit)
      {
        var current := LoadCounter(t, turns, used, path);
        used := used + 1;
        if current >= limit {
          return Refused, used;
        }
        if used == |turns| {
          return Unfinished, used;
        }
        var ok := CompareExchangeCounter(t, current, turns, used, path);
        used := used + 1;
        if ok {
          var done;
          done, used := UpdatePeak(t, current + 1, turns, used, path);
          return if done then Granted else Unfinished, used;
        }
      }
      return Unfinished, used;
    }

    /** A whole acquisition: it refuses at a moment when the counter has reached the limit, grants once the permit is
        counted and the peak has caught up with it, and is otherwise cut off between two of its instructions. */
    method TryAcquireAtomic(t: Tid, limit: nat, turns: seq<Turn>) returns (result: Outcome, used: nat)
      requires PhaseOf(State(), t).Idle? && OthersOnly(t, turns)
      modifies this
      ensures used <= |turns| && State() == Woven(Step(old(State()), Begin(t, limit)), t, turns[..used])
      ensures match result
              case Granted => PhaseOf(State(), t).Holding?
              case Refused => PhaseOf(State(), t).Idle? && counter >= limit
              case Unfinished => used == |turns| && !PhaseOf(State(), t).Holding? && !PhaseOf(State(), t).Idle?
    {
      var start := Step(State(), Begin(t, limit));
      PathFollows(start, t, turns);
      assert PathOf(start, t, turns)(0) == start;
      Become(start);
      result, used := Acquire(t, limit, turns, PathOf(start, t, turns));
    }
  }

  /** The events of the turns: the other threads' as given, each group followed by one instruction of thread t. */
  function EventsOf(g: Gate, t: Tid, turns: seq<Turn>): seq<Event> {
    if turns == [] then [] else
      var earlier, last := turns[..|turns| - 1], turns[|turns| - 1];
      var before := RunFrom(Woven(g, t, earlier), last.others);
      EventsOf(g, t, earlier) + last.others + [Own(before, t, last.spurious)]
  }

  /** What the loops do among the other threads is an interleaving of atomic steps like any other, with exactly the
      given events of the others, so everything proved of all interleavings holds of it. */
  lemma {:induction false} WovenIsARun(before: seq<Event>, t: Tid, limit: nat, turns: seq<Turn>)
    ensures var start := Step(Run(before), Begin(t, limit));
            Run(before + [Begin(t, limit)] + EventsOf(start, t, turns)) == Woven(start, t, turns)
  {
    var start := Step(Run(before), Begin(t, limit));
    var begun := before + [Begin(t, limit)];
    assert begun[..|begun| - 1] == before;
    WovenIsRunFrom(start, t, turns);
    RunConcat(begun, EventsOf(start, t, turns));
  }

  lemma {:induction false} WovenIsRunFrom(g: Gate, t: Tid, turns: seq<Turn>)
    ensures RunFrom(g, EventsOf(g, t, turns)) == Woven(g, t, turns)
  {
    if turns == [] {
    } else {
      var earlier, last := turns[..|turns| - 1], turns[|turns| - 1];
      WovenIsRunFrom(g, t, earlier);
      var others := EventsOf(g, t, earlier) + last.others;
      RunFromConcat(g, EventsOf(g, t, earlier), last.others);
      var events := EventsOf(g, t, turns);
      assert events[..|events| - 1] == others;
    }
  }

  lemma {:induction false} TakeQuietly(g: Gate, t: Tid)
    ensures Taken(g, t, Turn([], false)) == Step(g, Own(g, t, false))
  {
  }

  lemma {:induction false} FourTurns(g: Gate, t: Tid, turn: Turn)
    ensures Woven(g, t, [turn, turn, turn, turn]) == Taken(Taken(Taken(Taken(g, t, turn), t, turn), t, turn), t, turn)
  {
    var turns := [turn, turn, turn, turn];
    assert turns[..0] == [] && turns[..4] == turns;
    OneTurn(g, t, turns, 0);
    OneTurn(g, t, turns, 1);
    OneTurn(g, t, turns, 2);
    OneTurn(g, t, turns, 3);
  }

  /** Left alone, and without spurious failures, the loops take four instructions at most: a refusal at the limit that
      changes nothing, or a permit, with the peak at the highest of its old value and the new count. */
  lemma {:induction false} AloneItDecides(g: Gate, t: Tid, limit: nat)
    requires PhaseOf(g, t).Idle?
    ensures var quiet := Turn([], false);
            var g' := Woven(Step(g, Begin(t, limit)), t, [quiet, quiet, quiet, quiet]);
            if g.counter >= limit then (g'.counter, g'.peak) == (g.counter, g.peak) && PhaseOf(g', t).Idle?
            else g'.counter == g.counter + 1 && g'.peak == Max(g.peak, g.counter + 1) && PhaseOf(g', t).Holding?
  {
    var start := Step(g, Begin(t, limit));
    var g1 := Step(start, Own(start, t, false));
    var g2 := Step(g1, Own(g1, t, false));
    var g3 := Step(g2, Own(g2, t, false));
    FourTurns(start, t, Turn([], false));
    TakeQuietly(start, t);
    TakeQuietly(g1, t);
    TakeQuietly(g2, t);
    TakeQuietly(g3, t);
  }
}
