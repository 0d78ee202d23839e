/** Any number of calls to one upstream, interleaved (src/lib.rs:1070-1301, 1326-1346, 1561-1569, 1798-1842).

    The breaker and the metrics are under different locks taken at separate moments, so each block of
    `CircuitBreaker` is one event of one call. An event its call cannot perform in its current phase changes nothing:
    every sequence of events is an interleaving. `unregister_upstream` takes the name from the registry (`Unregister`)
    and then removes breaker and metrics (`ForgetBreaker`, `ForgetMetrics`); the admin deletion only does the first
    (src/lib.rs:1830-1842). */
module UpstreamCalls {
  import opened CircuitBreaker
  import opened Options
  import opened Sums

  type CallId = nat

  datatype Phase =
    | Starting                               // has its permit, before requests += 1
    | Knocking                               // before the admission block
    | Denied                                 // refused by the breaker, before failures += 1
    | Attempting(attempt: nat, slept: nat)   // attempt in flight
    | Backoff(attempt: nat, slept: nat)      // before retries += 1 and the sleep
    | Succeeded                              // before the breaker is closed
    | SuccessWritten                         // before successes += 1
    | GivenUp(attempts: nat, slept: nat)     // exhausted, before the breaker block
    | FailureWritten                         // before failures += 1

  /** `leftEarly` counts the early returns since the metrics entry was created. */
  datatype Upstream = Upstream(breaker: Option<Circuit>, metrics: Option<Metrics>, calls: map<CallId, Phase>,
                               leftEarly: nat, registration: Registration)

  /** Whether the name is in the registry, and how many unregistrations have still to remove the breaker or, after that,
      the metrics. */
  datatype Registration = Registration(registered: bool, breakersOwed: nat, metricsOwed: nat)

  datatype Event =
    | Start(call: CallId)
    | AskCounted(call: CallId)
    | Knock(call: CallId, now: nat)
    | DenialCounted(call: CallId)
    | AttemptEnds(call: CallId, outcome: Outcome)
    | Retry(call: CallId, jitter: nat)
    | WriteSuccess(call: CallId)
    | SuccessCounted(call: CallId)
    | WriteFailure(call: CallId, now: nat)
    | FailureCounted(call: CallId)
    | Register                 // register_upstream, or the admin addition
    | AdminDelete
    | Unregister
    | ForgetBreaker
    | ForgetMetrics

  const INIT := Upstream(None, None, map[], 0, Registration(false, 0, 0))

  /** Whether the event is a step of a call. */
  predicate OfCall(e: Event) {
    !e.Register? && !e.AdminDelete? && !e.Unregister? && !e.ForgetBreaker? && !e.ForgetMetrics?
  }

  function BreakerOf(u: Upstream): Circuit {
    if u.breaker.Some? then u.breaker.value else CLOSED
  }

  function CountersOf(u: Upstream): Metrics {
    if u.metrics.Some? then u.metrics.value else NO_METRICS
  }

  predicate In(u: Upstream, c: CallId, p: Phase) {
    c in u.calls && u.calls[c] == p
  }

  function Move(u: Upstream, c: CallId, p: Phase): Upstream {
    u.(calls := u.calls[c := p])
  }

  function Leave(u: Upstream, c: CallId): Upstream {
    u.(calls := u.calls - {c})
  }

  /** Whether the event finds its call in the phase it needs, or the registry in the state it needs. A call starts by
      finding its upstream in the registry. */
  predicate Enabled(u: Upstream, e: Event) {
    match e
    case Start(c) => c !in u.calls && u.registration.registered
    case AskCounted(c) => In(u, c, Starting)
    case Knock(c, _) => In(u, c, Knocking)
    case DenialCounted(c) => In(u, c, Denied)
    case AttemptEnds(c, _) => c in u.calls && u.calls[c].Attempting?
    case Retry(c, jitter) => c in u.calls && u.calls[c].Backoff? && jitter <= MAX_JITTER_MS
    case WriteSuccess(c) => In(u, c, Succeeded)
    case SuccessCounted(c) => In(u, c, SuccessWritten)
    case WriteFailure(c, _) => c in u.calls && u.calls[c].GivenUp?
    case FailureCounted(c) => In(u, c, FailureWritten)
    case Register => true
    case AdminDelete | Unregister => u.registration.registered
    case ForgetBreaker => u.registration.breakersOwed > 0
    case ForgetMetrics => u.registration.metricsOwed > 0
  }

  /** How an attempt that has ended moves its call on; an early return is handled apart. */
  function NextPhase(attempt: nat, slept: nat, outcome: Outcome): Phase {
    if outcome.Good? then Succeeded
    else if attempt + 1 < MAX_RETRIES then Backoff(attempt, slept)
    else GivenUp(attempt + 1, slept)
  }

  function Step(u: Upstream, e: Event): Upstream {
    if !Enabled(u, e) then u else
      var m := CountersOf(u);
      match e
      case Start(c) => Move(u, c, Starting)
      case AskCounted(c) => Move(u, c, Knocking).(metrics := Some(m.(requests := m.requests + 1)))
      case Knock(c, now) =>
        var (circuit, verdict) := Admit(BreakerOf(u), now);
        Move(u, c, if verdict.Admitted? then Attempting(0, 0) else Denied).(breaker := Some(circuit))
      case DenialCounted(c) => Leave(u, c).(metrics := Some(m.(failures := m.failures + 1)))
      case AttemptEnds(c, outcome) =>
        if outcome.EarlyReturn? then Leave(u, c).(leftEarly := u.leftEarly + 1)
        else Move(u, c, NextPhase(u.calls[c].attempt, u.calls[c].slept, outcome))
      case Retry(c, jitter) =>
        var p := u.calls[c];
        Move(u, c, Attempting(p.attempt + 1, p.slept + BaseBackoffMs(p.attempt) + jitter))
        .(metrics := Some(m.(retries := m.retries + 1)))
      case WriteSuccess(c) => Move(u, c, SuccessWritten).(breaker := Some(CLOSED))
      case SuccessCounted(c) => Leave(u, c).(metrics := Some(m.(successes := m.successes + 1)))
      case WriteFailure(c, now) => Move(u, c, FailureWritten).(breaker := Some(Exhaust(BreakerOf(u), now)))
      case FailureCounted(c) => Leave(u, c).(metrics := Some(m.(failures := m.failures + 1)))
      case Register => u.(registration := u.registration.(registered := true))
      case AdminDelete => u.(registration := u.registration.(registered := false))
      case Unregister =>
        u.(registration := u.registration.(registered := false, breakersOwed := u.registration.breakersOwed + 1))
      case ForgetBreaker =>
        var r := u.registration;
        u.(breaker := None,
           registration := r.(breakersOwed := r.breakersOwed - 1, metricsOwed := r.metricsOwed + 1))
      case ForgetMetrics =>
        var r := u.registration;
        u.(metrics := None, leftEarly := 0, registration := r.(metricsOwed := r.metricsOwed - 1))
  }

  function RunFrom(u: Upstream, events: seq<Event>): Upstream {
    if events == [] then u else Step(RunFrom(u, events[..|events| - 1]), events[|events| - 1])
  }

  function Run(events: seq<Event>): Upstream {
    RunFrom(INIT, events)
  }

  // ---------------------------------------------------------------- one undisturbed call

  lemma {:induction false} RunFromConcat(u: Upstream, events: seq<Event>, more: seq<Event>)
    ensures RunFrom(u, events + more) == RunFrom(RunFrom(u, events), more)
  {
    if more == [] {
      assert events + more == events;
    } else {
      var n := |more| - 1;
      RunFromConcat(u, events, more[..n]);
      assert (events + more)[..|events + more| - 1] == events + more[..n];
    }
  }

  /** The first n attempts of a call, with a counted retry and a sleep between two of them. */
  function Tries(c: CallId, outcomes: seq<Outcome>, jitter: seq<nat>, n: nat): seq<Event>
    requires 1 <= n <= |outcomes| && n <= |jitter| + 1
  {
    if n == 1 then [AttemptEnds(c, outcomes[0])]
    else Tries(c, outcomes, jitter, n - 1) + [Retry(c, jitter[n - 2])] + [AttemptEnds(c, outcomes[n - 1])]
  }

  function Ending(c: CallId, last: Outcome, endedAt: nat): seq<Event> {
    match last
    case Good => [WriteSuccess(c), SuccessCounted(c)]
    case EarlyReturn => []
    case Retryable => [WriteFailure(c, endedAt), FailureCounted(c)]
  }

  /** What follows the admission block. */
  function Remainder(admitted: bool, c: CallId, outcomes: seq<Outcome>, jitter: seq<nat>, endedAt: nat): seq<Event>
    requires |outcomes| == MAX_RETRIES && |jitter| == MAX_RETRIES - 1
  {
    var n := AttemptsOf(outcomes);
    if admitted then Tries(c, outcomes, jitter, n) + Ending(c, outcomes[n - 1], endedAt) else [DenialCounted(c)]
  }

  /** The events of one call that finds the upstream in state u and is not disturbed. */
  function CallEvents(u: Upstream, c: CallId, admittedAt: nat, outcomes: seq<Outcome>, jitter: seq<nat>, endedAt: nat):
      seq<Event>
    requires |outcomes| == MAX_RETRIES && |jitter| == MAX_RETRIES - 1
  {
    [Start(c), AskCounted(c), Knock(c, admittedAt)] +
    Remainder(Admit(BreakerOf(u), admittedAt).1.Admitted?, c, outcomes, jitter, endedAt)
  }

  lemma {:induction false} TwoEvents(u: Upstream, first: Event, second: Event)
    ensures RunFrom(u, [first, second]) == Step(Step(u, first), second)
  {
    assert [first, second][..1] == [first] && [first][..0] == [];
    assert RunFrom(u, [first]) == Step(u, first);
  }

  /** The state after the admission block of a call. */
  function Knocked(u: Upstream, c: CallId, admittedAt: nat): Upstream {
    var (circuit, verdict) := Admit(BreakerOf(u), admittedAt);
    var m := CountersOf(u);
    u.(breaker := Some(circuit), metrics := Some(m.(requests := m.requests + 1)),
       calls := u.calls[c := if verdict.Admitted? then Attempting(0, 0) else Denied])
  }

  lemma {:induction false} Approach(u: Upstream, c: CallId, admittedAt: nat)
    requires c !in u.calls && u.registration.registered
    ensures RunFrom(u, [Start(c), AskCounted(c), Knock(c, admittedAt)]) == Knocked(u, c, admittedAt)
  {
    var es := [Start(c), AskCounted(c), Knock(c, admittedAt)];
    assert es[..2] == [Start(c), AskCounted(c)];
    TwoEvents(u, Start(c), AskCounted(c));
  }

  /** The state after n attempts of a call: the retries are counted, and the call knows its attempts and its sleep. */
  function Tried(u: Upstream, c: CallId, outcomes: seq<Outcome>, jitter: seq<nat>, n: nat): Upstream
    requires 1 <= n <= |outcomes| && n <= |jitter| + 1 && u.metrics.Some?
  {
    var m := u.metrics.value;
    var counted := u.(metrics := Some(m.(retries := m.retries + n - 1)));
    if outcomes[n - 1].EarlyReturn? then Leave(counted, c).(leftEarly := u.leftEarly + 1)
    else Move(counted, c, NextPhase(n - 1, SleepMs(jitter, n - 1), outcomes[n - 1]))
  }

  lemma {:induction false} TriesEnd(u: Upstream, c: CallId, outcomes: seq<Outcome>, jitter: seq<nat>, n: nat)
    requires 1 <= n <= |outcomes| == MAX_RETRIES && |jitter| == MAX_RETRIES - 1
    requires In(u, c, Attempting(0, 0)) && u.metrics.Some?
    requires (forall i | 0 <= i < n - 1 :: outcomes[i].Retryable?) && forall j | j in jitter :: j <= MAX_JITTER_MS
    ensures RunFrom(u, Tries(c, outcomes, jitter, n)) == Tried(u, c, outcomes, jitter, n)
  {
    if n == 1 {
      assert Tries(c, outcomes, jitter, 1)[..0] == [];
    } else {
      TriesEnd(u, c, outcomes, jitter, n - 1);
      var earlier := Tries(c, outcomes, jitter, n - 1);
      var retry, end := Retry(c, jitter[n - 2]), AttemptEnds(c, outcomes[n - 1]);
      assert jitter[n - 2] in jitter;
      RunFromConcat(u, earlier, [retry, end]);
      assert earlier + [retry, end] == Tries(c, outcomes, jitter, n);
      TwoEvents(Tried(u, c, outcomes, jitter, n - 1), retry, end);
      NextTry(u, c, outcomes, jitter, n);
    }
  }

  lemma {:induction false} NextTry(u: Upstream, c: CallId, outcomes: seq<Outcome>, jitter: seq<nat>, n: nat)
    requires 2 <= n <= |outcomes| == MAX_RETRIES && |jitter| == MAX_RETRIES - 1 && u.metrics.Some?
    requires outcomes[n - 2].Retryable? && jitter[n - 2] <= MAX_JITTER_MS
    ensures var retried := Step(Tried(u, c, outcomes, jitter, n - 1), Retry(c, jitter[n - 2]));
            Step(retried, AttemptEnds(c, outcomes[n - 1])) == Tried(u, c, outcomes, jitter, n)
  {
    var u1 := Tried(u, c, outcomes, jitter, n - 1);
    var u2 := Step(u1, Retry(c, jitter[n - 2]));
    assert u2.calls[c] == Attempting(n - 1, SleepMs(jitter, n - 1));
    assert u2.calls == u.calls[c := u2.calls[c]];
  }

  lemma {:induction false} EndingWrites(u: Upstream, c: CallId, last: Outcome, attempts: nat, endedAt: nat)
    requires u.breaker.Some? && u.metrics.Some?
    requires match last
             case Good => In(u, c, Succeeded)
             case EarlyReturn => c !in u.calls
             case Retryable => c in u.calls && u.calls[c].GivenUp?
    ensures var e := Concluded(u.breaker.value, u.metrics.value, last, attempts, endedAt);
            RunFrom(u, Ending(c, last, endedAt)) ==
            u.(breaker := Some(e.circuit), metrics := Some(e.metrics), calls := u.calls - {c})
  {
    match last
    case Good => TwoEvents(u, WriteSuccess(c), SuccessCounted(c));
    case EarlyReturn => assert u.calls - {c} == u.calls;
    case Retryable => TwoEvents(u, WriteFailure(c, endedAt), FailureCounted(c));
  }

  /** The upstream with the effects of a whole call. */
  function AfterCall(u: Upstream, admittedAt: nat, outcomes: seq<Outcome>, endedAt: nat): Upstream
    requires |outcomes| == MAX_RETRIES
  {
    var e := Effects(BreakerOf(u), CountersOf(u), admittedAt, outcomes, endedAt);
    u.(breaker := Some(e.circuit), metrics := Some(e.metrics),
       leftEarly := u.leftEarly + if e.result.LeftEarly? then 1 else 0)
  }

  /** Undisturbed, the events of one call leave exactly what the whole call does to the two entries of its upstream,
      wherever the registered upstream stands. */
  lemma {:induction false} UndisturbedCall(u: Upstream, c: CallId, admittedAt: nat, outcomes: seq<Outcome>,
                                           jitter: seq<nat>, endedAt: nat)
    requires c !in u.calls && u.registration.registered
    requires |outcomes| == MAX_RETRIES && |jitter| == MAX_RETRIES - 1
    requires forall j | j in jitter :: j <= MAX_JITTER_MS
    ensures RunFrom(u, CallEvents(u, c, admittedAt, outcomes, jitter, endedAt)) ==
            AfterCall(u, admittedAt, outcomes, endedAt)
  {
    var admitted := Admit(BreakerOf(u), admittedAt).1.Admitted?;
    RunFromConcat(u, [Start(c), AskCounted(c), Knock(c, admittedAt)],
                  Remainder(admitted, c, outcomes, jitter, endedAt));
    Approach(u, c, admittedAt);
    RestOfCall(u, c, admittedAt, outcomes, jitter, endedAt);
  }

  lemma {:induction false} RestOfCall(u: Upstream, c: CallId, admittedAt: nat, outcomes: seq<Outcome>,
                                      jitter: seq<nat>, endedAt: nat)
    requires c !in u.calls && |outcomes| == MAX_RETRIES && |jitter| == MAX_RETRIES - 1
    requires forall j | j in jitter :: j <= MAX_JITTER_MS
    ensures var admitted := Admit(BreakerOf(u), admittedAt).1.Admitted?;
            RunFrom(Knocked(u, c, admittedAt), Remainder(admitted, c, outcomes, jitter, endedAt)) ==
            AfterCall(u, admittedAt, outcomes, endedAt)
  {
    var v := Knocked(u, c, admittedAt);
    assert v.calls - {c} == u.calls;
    if Admit(BreakerOf(u), admittedAt).1.Admitted? {
      AdmittedCall(v, c, outcomes, jitter, endedAt);
    } else {
      DeniedCall(v, c);
    }
  }

  lemma {:induction false} DeniedCall(v: Upstream, c: CallId)
    requires In(v, c, Denied) && v.metrics.Some?
    ensures var m := v.metrics.value;
            RunFrom(v, [DenialCounted(c)]) ==
            v.(metrics := Some(m.(failures := m.failures + 1)), calls := v.calls - {c})
  {
    assert [DenialCounted(c)][..0] == [];
  }

  lemma {:induction false} AdmittedCall(v: Upstream, c: CallId, outcomes: seq<Outcome>, jitter: seq<nat>, endedAt: nat)
    requires |outcomes| == MAX_RETRIES && |jitter| == MAX_RETRIES - 1
    requires In(v, c, Attempting(0, 0)) && v.breaker.Some? && v.metrics.Some?
    requires forall j | j in jitter :: j <= MAX_JITTER_MS
    ensures var n := AttemptsOf(outcomes);
            var m := v.metrics.value;
            var e := Concluded(v.breaker.value, m.(retries := m.retries + n - 1), outcomes[n - 1], n, endedAt);
            RunFrom(v, Tries(c, outcomes, jitter, n) + Ending(c, outcomes[n - 1], endedAt)) ==
            v.(breaker := Some(e.circuit), metrics := Some(e.metrics), calls := v.calls - {c},
               leftEarly := v.leftEarly + if e.result.LeftEarly? then 1 else 0)
  {
    var n := AttemptsOf(outcomes);
    TriesEnd(v, c, outcomes, jitter, n);
    var w := Tried(v, c, outcomes, jitter, n);
    RunFromConcat(v, Tries(c, outcomes, jitter, n), Ending(c, outcomes[n - 1], endedAt));
    EndingWrites(w, c, outcomes[n - 1], n, endedAt);
    assert w.calls - {c} == v.calls - {c};
  }

  // ---------------------------------------------------------------- the breaker refines its event log

  /** The writes to the breaker by finished calls, and its removals, in order. */
  datatype Write = Failed(at: nat) | Cleared

  function WritesOf(u: Upstream, e: Event): seq<Write> {
    if !Enabled(u, e) then []
    else match e
         case WriteFailure(_, now) => [Failed(now)]
         case WriteSuccess(_) => [Cleared]
         case ForgetBreaker => [Cleared]
         case _ => []
  }

  function Log(u: Upstream, events: seq<Event>): seq<Write> {
    if events == [] then [] else
      var n := |events| - 1;
      Log(u, events[..n]) + WritesOf(RunFrom(u, events[..n]), events[n])
  }

  /** The exhausted calls since the last success or removal. */
  function FailuresInARow(log: seq<Write>): nat {
    if log == [] || log[|log| - 1].Cleared? then 0 else 1 + FailuresInARow(log[..|log| - 1])
  }

  ghost predicate Refines(c: Circuit, log: seq<Write>) {
    && c.failures == FailuresInARow(log)
    && c.openedAt == (if FailuresInARow(log) >= 5 then Some(log[|log| - 1].at) else None)
    && (c.halfOpen ==> c.openedAt.Some?)
  }

  /** In every interleaving the failure count is the number of exhausted calls since the last success or removal;
      the breaker is open exactly when that is at least five, since the latest of them; half-open implies open. */
  lemma {:induction false} BreakerRefinesLog(events: seq<Event>)
    ensures Refines(BreakerOf(Run(events)), Log(INIT, events))
  {
    if events == [] {
    } else {
      var n := |events| - 1;
      BreakerRefinesLog(events[..n]);
      RefinesStep(Run(events[..n]), Log(INIT, events[..n]), events[n]);
    }
  }

  lemma {:induction false} RefinesStep(u: Upstream, log: seq<Write>, e: Event)
    requires Refines(BreakerOf(u), log)
    ensures Refines(BreakerOf(Step(u, e)), log + WritesOf(u, e))
  {
    if WritesOf(u, e) == [] {
      assert log + WritesOf(u, e) == log;
    } else {
      assert (log + WritesOf(u, e))[..|log|] == log;
    }
  }

  // ---------------------------------------------------------------- admission from the event log

  /** Five or more exhausted calls since the last success or removal, the latest at `log[|log| - 1].at`. */
  predicate OpenByLog(log: seq<Write>) {
    FailuresInARow(log) >= 5
  }

  /** A call has passed the open breaker since the last write to it. */
  function ProbeOut(events: seq<Event>): bool {
    if events == [] then false else
      var init, e := events[..|events| - 1], events[|events| - 1];
      if WritesOf(Run(init), e) != [] then false
      else ProbeOut(init) || (OpenByLog(Log(INIT, init)) && PassesByLog(init, ProbeOut(init), e))
  }

  /** The knock of a call that is let in, by what the log says. */
  predicate PassesByLog(events: seq<Event>, probeOut: bool, e: Event) {
    && e.Knock? && Enabled(Run(events), e)
    && var log := Log(INIT, events);
       OpenByLog(log) ==> e.now >= log[|log| - 1].at + 30_000 && !probeOut
  }

  lemma {:induction false} AdmittedByCircuit(u: Upstream, e: Event, log: seq<Write>, probeOut: bool)
    requires Refines(BreakerOf(u), log) && BreakerOf(u).halfOpen == probeOut
    ensures Admits(u, e) <==>
            e.Knock? && Enabled(u, e) &&
            (FailuresInARow(log) >= 5 ==> e.now >= log[|log| - 1].at + 30_000 && !probeOut)
  {
  }

  lemma {:induction false} HalfOpenAfter(u: Upstream, e: Event)
    ensures BreakerOf(Step(u, e)).halfOpen ==
            (WritesOf(u, e) == [] && (BreakerOf(u).halfOpen || (Admits(u, e) && BreakerOf(u).openedAt.Some?)))
  {
  }

  lemma {:induction false} ProbeOutIsHalfOpen(events: seq<Event>)
    ensures BreakerOf(Run(events)).halfOpen == ProbeOut(events)
  {
    if events == [] {
    } else {
      var n := |events| - 1;
      ProbeOutIsHalfOpen(events[..n]);
      BreakerRefinesLog(events[..n]);
      AdmittedByCircuit(Run(events[..n]), events[n], Log(INIT, events[..n]), ProbeOut(events[..n]));
      HalfOpenAfter(Run(events[..n]), events[n]);
    }
  }

  /** In every interleaving a call that knocks is let in exactly when, by the log of finished calls and admissions,
      fewer than five calls have been exhausted since the last success or removal, or the latest of them was 30 s ago
      or more and no call has been let in since: neither more calls nor fewer. */
  lemma {:induction false} AdmissionIsExact(events: seq<Event>, e: Event)
    ensures Admits(Run(events), e) <==> PassesByLog(events, ProbeOut(events), e)
  {
    ProbeOutIsHalfOpen(events);
    BreakerRefinesLog(events);
    AdmittedByCircuit(Run(events), e, Log(INIT, events), ProbeOut(events));
  }

  // ---------------------------------------------------------------- one probe per opening

  predicate IsOpen(u: Upstream) {
    BreakerOf(u).openedAt.Some?
  }

  predicate Admits(u: Upstream, e: Event) {
    e.Knock? && Enabled(u, e) && Admit(BreakerOf(u), e.now).1.Admitted?
  }

  /** How many calls are admitted. */
  function Admissions(u: Upstream, events: seq<Event>): nat {
    if events == [] then 0 else
      var n := |events| - 1;
      Admissions(u, events[..n]) + if Admits(RunFrom(u, events[..n]), events[n]) then 1 else 0
  }

  /** The calls past the admission block that have not yet written their outcome to the breaker. */
  function Running(u: Upstream): set<CallId> {
    set c | c in u.calls && IsRunning(u.calls[c])
  }

  predicate IsRunning(p: Phase) {
    p.Attempting? || p.Backoff? || p.Succeeded? || p.GivenUp?
  }

  lemma {:induction false} RunningAfter(u: Upstream, e: Event)
    ensures Running(Step(u, e)) <= Running(u) + if Admits(u, e) then {e.call} else {}
    ensures WritesOf(u, e) != [] && !e.ForgetBreaker? ==> Running(u) != {}
  {
    if WritesOf(u, e) != [] && !e.ForgetBreaker? {
      assert e.call in Running(u);
    }
  }

  /** `v` is reached from the open breaker of `u` with `admissions` admitted calls and no write. */
  ghost predicate SameOpening(u: Upstream, v: Upstream, admissions: nat) {
    && IsOpen(v) && BreakerOf(v).openedAt == BreakerOf(u).openedAt
    && admissions <= 1
    && BreakerOf(v).halfOpen == (BreakerOf(u).halfOpen || admissions == 1)
    && (BreakerOf(u).halfOpen ==> admissions == 0)
    && |Running(v) - Running(u)| <= admissions
  }

  lemma {:induction false} BreakerInOpening(v: Upstream, e: Event)
    requires IsOpen(v) && WritesOf(v, e) == []
    ensures BreakerOf(Step(v, e)) == BreakerOf(v).(halfOpen := BreakerOf(v).halfOpen || Admits(v, e))
    ensures Admits(v, e) ==> !BreakerOf(v).halfOpen
  {
  }

  lemma {:induction false} RunningInOpening(u: Upstream, v: Upstream, e: Event)
    ensures |Running(Step(v, e)) - Running(u)| <= |Running(v) - Running(u)| + if Admits(v, e) then 1 else 0
  {
    RunningAfter(v, e);
    var admitted := if Admits(v, e) then {e.call} else {};
    Shrinks(Running(Step(v, e)) - Running(u), Running(v) - Running(u) + admitted);
  }

  lemma {:induction false} SameOpeningStep(u: Upstream, v: Upstream, admissions: nat, e: Event)
    requires IsOpen(u) && SameOpening(u, v, admissions) && WritesOf(v, e) == []
    ensures SameOpening(u, Step(v, e), admissions + if Admits(v, e) then 1 else 0)
  {
    BreakerInOpening(v, e);
    RunningInOpening(u, v, e);
  }

  lemma {:induction false} SameOpeningRun(u: Upstream, events: seq<Event>)
    requires IsOpen(u) && Log(u, events) == []
    ensures SameOpening(u, RunFrom(u, events), Admissions(u, events))
  {
    if events == [] {
      assert Running(u) - Running(u) == {};
    } else {
      var n := |events| - 1;
      SameOpeningRun(u, events[..n]);
      SameOpeningStep(u, RunFrom(u, events[..n]), Admissions(u, events[..n]), events[n]);
    }
  }

  /** From any open breaker, as long as no finished call writes to it and it is not removed: at most one call is
      admitted, none if a probe was already out, and if nothing was running at the start, at most one call is ever
      running. */
  lemma {:induction false} OneProbePerOpening(u: Upstream, events: seq<Event>)
    requires IsOpen(u) && Log(u, events) == []
    ensures IsOpen(RunFrom(u, events))
    ensures Admissions(u, events) <= if BreakerOf(u).halfOpen then 0 else 1
    ensures Running(u) == {} ==> |Running(RunFrom(u, events))| <= 1
  {
    SameOpeningRun(u, events);
    if Running(u) == {} {
      assert Running(RunFrom(u, events)) - Running(u) == Running(RunFrom(u, events));
    }
  }

  lemma {:induction false} Shrinks<T>(a: set<T>, b: set<T>)
    requires a <= b
    ensures |a| <= |b|
  {
    assert b == a + (b - a);
  }

  /** In every interleaving a call passes an open breaker only 30 s or more after the latest exhausted call. */
  lemma {:induction false} ProbeWaitsForTheTimeout(events: seq<Event>, e: Event)
    requires IsOpen(Run(events)) && Admits(Run(events), e)
    ensures var log := Log(INIT, events);
            && log != [] && log[|log| - 1].Failed? && e.now >= log[|log| - 1].at + 30_000
            && FailuresInARow(log) >= 5
  {
    BreakerRefinesLog(events);
  }

  // ---------------------------------------------------------------- the stuck probe

  /** Clock readings never go back and start at `from`. */
  ghost predicate Timed(from: nat, events: seq<Event>) {
    && (forall i | 0 <= i < |events| && HasTime(events[i]) :: events[i].now >= from)
    && (forall i, j | 0 <= i < j < |events| && HasTime(events[i]) && HasTime(events[j]) ::
          events[i].now <= events[j].now)
  }

  predicate HasTime(e: Event) {
    e.Knock? || e.WriteFailure?
  }

  lemma {:induction false} StuckWhenNothingRuns(u: Upstream, events: seq<Event>)
    requires IsOpen(u) && BreakerOf(u).halfOpen && Running(u) == {} && ForgetBreaker !in events
    ensures Log(u, events) == [] && Admissions(u, events) == 0 && Running(RunFrom(u, events)) == {}
    ensures BreakerOf(RunFrom(u, events)) == BreakerOf(u)
  {
    if events == [] {
    } else {
      var n := |events| - 1;
      StuckWhenNothingRuns(u, events[..n]);
      assert events[n] in events;
      RunningAfter(RunFrom(u, events[..n]), events[n]);
    }
  }

  /** Some interleaving, in which the breaker may or may not be removed, admits a further call. Admin deletions and
      new registrations may occur in either. */
  ghost predicate Recovers(u: Upstream, from: nat, mayForget: bool) {
    exists events ::
      (mayForget || ForgetBreaker !in events) && Timed(from, events) && Admissions(u, events) >= 1
  }

  lemma {:induction false} AdmissionsCons(u: Upstream, e: Event, rest: seq<Event>)
    ensures RunFrom(u, [e] + rest) == RunFrom(Step(u, e), rest)
    ensures Admissions(u, [e] + rest) == (if Admits(u, e) then 1 else 0) + Admissions(Step(u, e), rest)
  {
    var es := [e] + rest;
    if rest == [] {
      assert es[..0] == [];
    } else {
      var n := |rest| - 1;
      AdmissionsCons(u, e, rest[..n]);
      assert es[..|es| - 1] == [e] + rest[..n];
    }
  }

  lemma {:induction false} RecoversBy(u: Upstream, e: Event, from: nat, mayForget: bool)
    requires (HasTime(e) ==> e.now == from) && Recovers(Step(u, e), from, mayForget)
    requires e.ForgetBreaker? ==> mayForget
    ensures Recovers(u, from, mayForget)
  {
    var rest :| (mayForget || ForgetBreaker !in rest) && Timed(from, rest) && Admissions(Step(u, e), rest) >= 1;
    AdmissionsCons(u, e, rest);
    TimedCons(from, e, rest);
    assert mayForget || ForgetBreaker !in [e] + rest;
  }

  lemma {:induction false} TimedCons(from: nat, e: Event, rest: seq<Event>)
    requires (HasTime(e) ==> e.now == from) && Timed(from, rest)
    ensures Timed(from, [e] + rest)
  {
    var all := [e] + rest;
    assert forall i | 1 <= i < |all| :: all[i] == rest[i - 1];
  }

  /** A new call that knocks 30 s after an open breaker's opening finds it closed or gets to be the probe. */
  lemma {:induction false} NewcomerEnters(u: Upstream, c: CallId, from: nat, mayForget: bool)
    requires c !in u.calls && !BreakerOf(u).halfOpen && (IsOpen(u) ==> BreakerOf(u).openedAt.value <= from)
    ensures Recovers(u, from, mayForget)
  {
    var registered := Step(u, Register);
    var v := Step(Step(registered, Start(c)), AskCounted(c));
    var knock := [Knock(c, from + RESET_TIMEOUT_MS)];
    assert knock[..0] == [];
    assert Timed(from, knock) && Admissions(v, knock) >= 1;
    assert ForgetBreaker !in knock;
    RecoversBy(Step(registered, Start(c)), AskCounted(c), from, mayForget);
    RecoversBy(registered, Start(c), from, mayForget);
    RecoversBy(u, Register, from, mayForget);
  }

  lemma {:induction false} RunningCallRecovers(u: Upstream, c: CallId, from: nat, mayForget: bool)
    requires c in Running(u) && IsOpen(u) && BreakerOf(u).halfOpen
    ensures Recovers(u, from, mayForget)
    decreases if u.calls[c].Backoff? then 2 else if u.calls[c].Attempting? then 1 else 0
  {
    match u.calls[c]
    case Backoff(_, _) =>
      RunningCallRecovers(Step(u, Retry(c, 0)), c, from, mayForget);
      RecoversBy(u, Retry(c, 0), from, mayForget);
    case Attempting(_, _) =>
      RunningCallRecovers(Step(u, AttemptEnds(c, Good)), c, from, mayForget);
      RecoversBy(u, AttemptEnds(c, Good), from, mayForget);
    case Succeeded =>
      var v := Step(u, WriteSuccess(c));
      NewcomerEnters(Step(v, SuccessCounted(c)), c, from, mayForget);
      RecoversBy(v, SuccessCounted(c), from, mayForget);
      RecoversBy(u, WriteSuccess(c), from, mayForget);
    case GivenUp(_, _) =>
      var v := Step(u, WriteFailure(c, from));
      NewcomerEnters(Step(v, FailureCounted(c)), c, from, mayForget);
      RecoversBy(v, FailureCounted(c), from, mayForget);
      RecoversBy(u, WriteFailure(c, from), from, mayForget);
  }

  lemma {:induction false} FreshCall(ids: set<CallId>) returns (c: CallId)
    ensures forall k | k in ids :: k < c
  {
    if ids == {} {
      c := 0;
    } else {
      var k :| k in ids;
      c := FreshCall(ids - {k});
      assert forall j | j in ids :: j == k || j in ids - {k};
      c := if k < c then c else k + 1;
    }
  }

  /** An unregistration removes the breaker, and a call to the upstream registered anew is admitted. */
  lemma {:induction false} UnregistrationRecovers(u: Upstream, from: nat)
    ensures Recovers(u, from, true)
  {
    var registered := Step(u, Register);
    var unregistered := Step(registered, Unregister);
    var forgotten := Step(unregistered, ForgetBreaker);
    var c := FreshCall(u.calls.Keys);
    NewcomerEnters(forgotten, c, from, true);
    RecoversBy(unregistered, ForgetBreaker, from, true);
    RecoversBy(registered, Unregister, from, true);
    RecoversBy(u, Register, from, true);
  }

  /** Once a probe is out, a further call can still be admitted exactly when the breaker may be removed, which only
      `unregister_upstream` does, or some admitted call is still running. If the probe was the last one and left by an
      early return, nothing else helps: no admin deletion, no new registration. */
  lemma {:induction false} ProbeRecoversExactly(u: Upstream, from: nat, mayForget: bool)
    requires IsOpen(u) && BreakerOf(u).halfOpen
    ensures Recovers(u, from, mayForget) <==> mayForget || Running(u) != {}
  {
    if mayForget {
      UnregistrationRecovers(u, from);
    } else if Running(u) == {} {
      forall events | ForgetBreaker !in events
        ensures Admissions(u, events) == 0
      {
        StuckWhenNothingRuns(u, events);
      }
    } else {
      var c :| c in Running(u);
      RunningCallRecovers(u, c, from, mayForget);
    }
  }

  /** The probe that leaves early: the breaker stays half-open, nothing runs, and no later call is admitted. */
  lemma {:induction false} EarlyProbeBlocksForever(u: Upstream, probe: CallId, events: seq<Event>)
    requires IsOpen(u) && BreakerOf(u).halfOpen
    requires Running(u) == {probe} && u.calls[probe].Attempting? && ForgetBreaker !in events
    ensures Admissions(Step(u, AttemptEnds(probe, EarlyReturn)), events) == 0
  {
    var v := Step(u, AttemptEnds(probe, EarlyReturn));
    assert Running(v) == {} by {
      RunningAfter(u, AttemptEnds(probe, EarlyReturn));
      assert probe !in v.calls;
    }
    StuckWhenNothingRuns(v, events);
  }

  const EXHAUSTING := [Retryable, Retryable, Retryable]
  const LEAVING := [EarlyReturn, EarlyReturn, EarlyReturn]

  /** A registration, and k calls, one after the other, that all exhaust their attempts, in 150 ms each. */
  function Failing(k: nat): seq<Event> {
    if k == 0 then [Register] else
      Failing(k - 1) + CallEvents(Run(Failing(k - 1)), 0, 150 * (k - 1), EXHAUSTING, [0, 0], 150 * k)
  }

  /** After five of them one more call, 30 s later, whose first attempt ends in an early return. */
  function StuckRun(): seq<Event> {
    Failing(5) + CallEvents(Run(Failing(5)), 0, 30_750, LEAVING, [0, 0], 30_750)
  }

  lemma {:induction false} OneCallLater(events: seq<Event>, at: nat, outcomes: seq<Outcome>, endedAt: nat)
    requires Run(events).calls == map[] && Run(events).registration.registered && |outcomes| == MAX_RETRIES
    ensures Run(events + CallEvents(Run(events), 0, at, outcomes, [0, 0], endedAt)) ==
            AfterCall(Run(events), at, outcomes, endedAt)
  {
    UndisturbedCall(Run(events), 0, at, outcomes, [0, 0], endedAt);
    RunFromConcat(INIT, events, CallEvents(Run(events), 0, at, outcomes, [0, 0], endedAt));
  }

  lemma {:induction false} ExhaustingEffects(k: nat, at: nat, endedAt: nat)
    requires k < 5
    ensures Effects(Circuit(k, None, false), Metrics(k, 0, k, 2 * k), at, EXHAUSTING, endedAt) ==
            Effect(Exhausted, 3, Circuit(k + 1, if k == 4 then Some(endedAt) else None, false),
                   Metrics(k + 1, 0, k + 1, 2 * (k + 1)))
  {
  }

  lemma {:induction false} LeavingEffects()
    ensures Effects(Circuit(5, Some(750), false), Metrics(5, 0, 5, 10), 30_750, LEAVING, 30_750) ==
            Effect(LeftEarly, 1, Circuit(5, Some(750), true), Metrics(6, 0, 5, 10))
  {
  }

  ghost predicate HasFailed(u: Upstream, k: nat) {
    && BreakerOf(u) == Circuit(k, if k == 5 then Some(750) else None, false)
    && CountersOf(u) == Metrics(k, 0, k, 2 * k)
    && u.calls == map[] && u.leftEarly == 0 && u.registration == Registration(true, 0, 0)
  }

  lemma {:induction false} OneMoreFailure(u: Upstream, k: nat)
    requires k < 5 && HasFailed(u, k)
    ensures HasFailed(AfterCall(u, 150 * k, EXHAUSTING, 150 * (k + 1)), k + 1)
  {
    ExhaustingEffects(k, 150 * k, 150 * (k + 1));
  }

  lemma {:induction false} FailuresAddUp(k: nat)
    requires k <= 5
    ensures HasFailed(Run(Failing(k)), k)
  {
    if k == 0 {
      assert [Register][..0] == [];
    } else {
      FailuresAddUp(k - 1);
      OneCallLater(Failing(k - 1), 150 * (k - 1), EXHAUSTING, 150 * k);
      OneMoreFailure(Run(Failing(k - 1)), k - 1);
    }
  }

  lemma {:induction false} StuckAtTheEnd()
    ensures Run(StuckRun()) == Upstream(Some(Circuit(5, Some(750), true)), Some(Metrics(6, 0, 5, 10)), map[], 1,
                                        Registration(true, 0, 0))
  {
    FailuresAddUp(5);
    OneCallLater(Failing(5), 30_750, LEAVING, 30_750);
    LeavingEffects();
  }

  /** The program can get stuck: six undisturbed calls to a newly registered upstream leave a half-open breaker that no
      continuation in which it is not removed ever lets a call pass again. */
  lemma {:induction false} SixCallsBlockForever(events: seq<Event>)
    requires ForgetBreaker !in events
    ensures IsOpen(Run(StuckRun())) && BreakerOf(Run(StuckRun())).halfOpen && Run(StuckRun()).calls == map[]
    ensures Admissions(Run(StuckRun()), events) == 0
  {
    StuckAtTheEnd();
    StuckWhenNothingRuns(Run(StuckRun()), events);
  }

  /** Deleting a registered upstream through the admin interface and adding it again changes nothing at all: not its
      breaker, not its metrics. */
  lemma {:induction false} AdminDeletionKeepsAll(u: Upstream)
    requires u.registration.registered
    ensures RunFrom(u, [AdminDelete, Register]) == u
  {
    TwoEvents(u, AdminDelete, Register);
  }

  /** The stuck upstream is therefore as stuck after that as before. */
  lemma {:induction false} AdminDeletionKeepsBlocking(events: seq<Event>)
    requires ForgetBreaker !in events
    ensures Run(StuckRun() + [AdminDelete, Register]) == Run(StuckRun())
    ensures Admissions(Run(StuckRun() + [AdminDelete, Register]), events) == 0
  {
    StuckAtTheEnd();
    SixCallsBlockForever(events);
    RunFromConcat(INIT, StuckRun(), [AdminDelete, Register]);
    AdminDeletionKeepsAll(Run(StuckRun()));
  }

  /** The clock of that run never goes back. */
  lemma {:induction false} StuckRunIsTimed()
    ensures Timed(0, StuckRun())
  {
    FailingIsTimed(5);
    CallIsTimed(Run(Failing(5)), 0, 30_750, LEAVING, [0, 0], 30_750);
    TimedConcat(0, 750, 30_750, Failing(5), CallEvents(Run(Failing(5)), 0, 30_750, LEAVING, [0, 0], 30_750));
  }

  ghost predicate TimedWithin(from: nat, to: nat, events: seq<Event>) {
    Timed(from, events) && forall i | 0 <= i < |events| && HasTime(events[i]) :: events[i].now <= to
  }

  lemma {:induction false} TimedConcat(from: nat, mid: nat, to: nat, a: seq<Event>, b: seq<Event>)
    requires TimedWithin(from, mid, a) && TimedWithin(mid, to, b) && from <= mid <= to
    ensures TimedWithin(from, to, a + b)
  {
    var all := a + b;
    assert forall i | 0 <= i < |all| :: all[i] == if i < |a| then a[i] else b[i - |a|];
  }

  lemma {:induction false} TriesAreUntimed(c: CallId, outcomes: seq<Outcome>, jitter: seq<nat>, n: nat)
    requires 1 <= n <= |outcomes| && n <= |jitter| + 1
    ensures forall e | e in Tries(c, outcomes, jitter, n) :: !HasTime(e)
  {
    if n == 1 {
    } else {
      TriesAreUntimed(c, outcomes, jitter, n - 1);
    }
  }

  lemma {:induction false} CallIsTimed(u: Upstream, c: CallId, at: nat, outcomes: seq<Outcome>, jitter: seq<nat>,
                                       endedAt: nat)
    requires |outcomes| == MAX_RETRIES && |jitter| == MAX_RETRIES - 1 && at <= endedAt
    ensures TimedWithin(at, endedAt, CallEvents(u, c, at, outcomes, jitter, endedAt))
  {
    var n := AttemptsOf(outcomes);
    var approach := [Start(c), AskCounted(c), Knock(c, at)];
    var tries, ending := Tries(c, outcomes, jitter, n), Ending(c, outcomes[n - 1], endedAt);
    TriesAreUntimed(c, outcomes, jitter, n);
    assert forall i | 0 <= i < |tries| :: tries[i] in tries;
    assert TimedWithin(at, at, approach) && TimedWithin(at, at, tries) && TimedWithin(at, endedAt, ending);
    TimedConcat(at, at, endedAt, tries, ending);
    TimedConcat(at, at, endedAt, approach, tries + ending);
    TimedConcat(at, at, endedAt, approach, [DenialCounted(c)]);
  }

  lemma {:induction false} FailingIsTimed(k: nat)
    ensures TimedWithin(0, 150 * k, Failing(k))
  {
    if k == 0 {
    } else {
      FailingIsTimed(k - 1);
      var call := CallEvents(Run(Failing(k - 1)), 0, 150 * (k - 1), EXHAUSTING, [0, 0], 150 * k);
      CallIsTimed(Run(Failing(k - 1)), 0, 150 * (k - 1), EXHAUSTING, [0, 0], 150 * k);
      TimedConcat(0, 150 * (k - 1), 150 * k, Failing(k - 1), call);
    }
  }

  // ---------------------------------------------------------------- accounting

  /** Which counter an event adds to. */
  function Count(m: Metrics, e: Event): Metrics {
    match e
    case AskCounted(_) => Metrics(m.requests + 1, m.successes, m.failures, m.retries)
    case SuccessCounted(_) => Metrics(m.requests, m.successes + 1, m.failures, m.retries)
    case DenialCounted(_) => Metrics(m.requests, m.successes, m.failures + 1, m.retries)
    case FailureCounted(_) => Metrics(m.requests, m.successes, m.failures + 1, m.retries)
    case Retry(_, _) => Metrics(m.requests, m.successes, m.failures, m.retries + 1)
    case ForgetMetrics => Metrics(0, 0, 0, 0)
    case _ => m
  }

  /** What happened since the metrics were last removed, counted event by event. */
  function Counted(events: seq<Event>): Metrics {
    if events == [] then Metrics(0, 0, 0, 0) else
      var init, e := events[..|events| - 1], events[|events| - 1];
      if Enabled(Run(init), e) then Count(Counted(init), e) else Counted(init)
  }

  lemma {:induction false} StepCounts(u: Upstream, e: Event)
    ensures CountersOf(Step(u, e)) == if Enabled(u, e) then Count(CountersOf(u), e) else CountersOf(u)
  {
  }

  /** In every interleaving each counter is the number of its own events since the metrics were last removed: requests
      of calls asked, successes of successful calls, failures of denied and of exhausted ones, retries of retries. */
  lemma {:induction false} CountersAreCounts(events: seq<Event>)
    ensures CountersOf(Run(events)) == Counted(events)
  {
    if events == [] {
    } else {
      CountersAreCounts(events[..|events| - 1]);
      StepCounts(Run(events[..|events| - 1]), events[|events| - 1]);
    }
  }

  /** The calls whose request has been counted and whose outcome has not. */
  function InFlight(u: Upstream): set<CallId> {
    set c | c in u.calls && !u.calls[c].Starting?
  }

  /** Outcomes and calls in flight, minus requests. */
  function Imbalance(u: Upstream): int {
    var m := CountersOf(u);
    m.successes + m.failures + |InFlight(u)| + u.leftEarly - m.requests
  }

  predicate ForgetsMetrics(u: Upstream, e: Event) {
    e.ForgetMetrics? && Enabled(u, e)
  }

  /** The calls that were in flight when the metrics were last removed. */
  function OrphanedCalls(events: seq<Event>): nat {
    if events == [] then 0 else
      var n := |events| - 1;
      if ForgetsMetrics(Run(events[..n]), events[n]) then |InFlight(Run(events[..n]))| else OrphanedCalls(events[..n])
  }

  /** How an event that takes effect changes the number of calls in flight. */
  function InFlightChange(e: Event): int {
    match e
    case AskCounted(_) => 1
    case DenialCounted(_) | SuccessCounted(_) | FailureCounted(_) => -1
    case AttemptEnds(_, outcome) => if outcome.EarlyReturn? then -1 else 0
    case _ => 0
  }

  lemma {:induction false} InFlightMoved(u: Upstream, v: Upstream, c: CallId)
    requires c in v.calls && v.calls == u.calls[c := v.calls[c]]
    ensures |InFlight(v)| ==
            |InFlight(u)| - (if c in InFlight(u) then 1 else 0) + if v.calls[c].Starting? then 0 else 1
  {
    assert InFlight(v) == if v.calls[c].Starting? then InFlight(u) - {c} else InFlight(u) + {c};
  }

  lemma {:induction false} InFlightGone(u: Upstream, v: Upstream, c: CallId)
    requires v.calls == u.calls - {c}
    ensures |InFlight(v)| == |InFlight(u)| - if c in InFlight(u) then 1 else 0
  {
    assert InFlight(v) == InFlight(u) - {c};
  }

  lemma {:induction false} InFlightStep(u: Upstream, e: Event)
    requires Enabled(u, e)
    ensures |InFlight(Step(u, e))| == |InFlight(u)| + InFlightChange(e)
  {
    var v := Step(u, e);
    if !OfCall(e) {
      assert InFlight(v) == InFlight(u);
    } else if e.call in v.calls {
      InFlightMoved(u, v, e.call);
    } else {
      InFlightGone(u, v, e.call);
    }
  }

  lemma {:induction false} StepKeepsImbalance(u: Upstream, e: Event)
    requires !ForgetsMetrics(u, e)
    ensures Imbalance(Step(u, e)) == Imbalance(u)
  {
    if Enabled(u, e) {
      InFlightStep(u, e);
    }
  }

  /** In every interleaving, requests fall short of successes, failures, calls in flight and early returns by exactly
      the number of calls that were in flight when the metrics were last removed. */
  lemma {:induction false} CallAccounting(events: seq<Event>)
    ensures Imbalance(Run(events)) == OrphanedCalls(events)
  {
    if events != [] {
      var n := |events| - 1;
      CallAccounting(events[..n]);
      if !ForgetsMetrics(Run(events[..n]), events[n]) {
        StepKeepsImbalance(Run(events[..n]), events[n]);
      }
    } else {
      assert InFlight(INIT) == {};
    }
  }

  /** The retries a call may still count. */
  function RetriesLeft(p: Phase): nat {
    match p
    case Knocking => 2
    case Attempting(attempt, _) => if attempt < 2 then 2 - attempt else 0
    case Backoff(attempt, _) => if attempt < 2 then 2 - attempt else 0
    case _ => 0
  }

  ghost function RetriesLeftOf(calls: map<CallId, Phase>): map<CallId, nat> {
    map c | c in calls :: RetriesLeft(calls[c])
  }

  ghost function AllRetriesLeft(calls: map<CallId, Phase>): nat {
    Sum(RetriesLeftOf(calls))
  }

  /** What a call has done when it reaches a phase. */
  predicate PhaseOk(p: Phase) {
    match p
    case Attempting(attempt, slept) =>
      attempt <= 2 && SleptOk(attempt, slept)
    case Backoff(attempt, slept) =>
      attempt <= 1 && SleptOk(attempt, slept)
    case GivenUp(attempts, slept) => attempts == 3 && SleptOk(2, slept)
    case _ => true
  }

  predicate SleptOk(sleeps: nat, slept: nat) {
    if sleeps == 0 then slept == 0 else if sleeps == 1 then 50 <= slept <= 75 else 150 <= slept <= 200
  }

  lemma {:induction false} StepKeepsPhases(u: Upstream, e: Event)
    requires forall c | c in u.calls :: PhaseOk(u.calls[c])
    ensures forall c | c in Step(u, e).calls :: PhaseOk(Step(u, e).calls[c])
  {
    assert BaseBackoffMs(0) == 50 && BaseBackoffMs(1) == 100;
  }

  /** In every interleaving, a call that gives up has made exactly three attempts and slept 150 to 200 ms. */
  lemma {:induction false} ExhaustedAfterThreeAttempts(events: seq<Event>)
    ensures forall c | c in Run(events).calls :: PhaseOk(Run(events).calls[c])
    ensures forall c | c in Run(events).calls && Run(events).calls[c].GivenUp? ::
              Run(events).calls[c].attempts == 3 && 150 <= Run(events).calls[c].slept <= 200
  {
    if events == [] {
    } else {
      var n := |events| - 1;
      ExhaustedAfterThreeAttempts(events[..n]);
      StepKeepsPhases(Run(events[..n]), events[n]);
    }
  }

  lemma {:induction false} RetriesLeftMoved(calls: map<CallId, Phase>, c: CallId, p: Phase)
    ensures AllRetriesLeft(calls[c := p]) ==
            AllRetriesLeft(calls) - (if c in calls then RetriesLeft(calls[c]) else 0) + RetriesLeft(p)
  {
    SumUpdate(RetriesLeftOf(calls), c, RetriesLeft(p));
    assert RetriesLeftOf(calls[c := p]) == RetriesLeftOf(calls)[c := RetriesLeft(p)];
  }

  lemma {:induction false} RetriesLeftGone(calls: map<CallId, Phase>, c: CallId)
    requires c in calls
    ensures AllRetriesLeft(calls - {c}) == AllRetriesLeft(calls) - RetriesLeft(calls[c])
  {
    SumSplit(RetriesLeftOf(calls), c);
    assert RetriesLeftOf(calls - {c}) == RetriesLeftOf(calls) - {c};
  }

  lemma {:induction false} RetriesLeftStep(u: Upstream, e: Event)
    requires Enabled(u, e) && OfCall(e)
    ensures var left := if e.call in u.calls then RetriesLeft(u.calls[e.call]) else 0;
            var calls := Step(u, e).calls;
            AllRetriesLeft(calls) ==
            AllRetriesLeft(u.calls) - left + if e.call in calls then RetriesLeft(calls[e.call]) else 0
  {
    var calls := Step(u, e).calls;
    if e.call in calls {
      RetriesLeftMoved(u.calls, e.call, calls[e.call]);
    } else {
      RetriesLeftGone(u.calls, e.call);
    }
  }

  /** No event gives a call more retries than the request it counts pays for. */
  lemma {:induction false} RetriesPaid(u: Upstream, e: Event)
    requires Enabled(u, e) && OfCall(e)
    requires e.call in u.calls ==> PhaseOk(u.calls[e.call])
    ensures var m, m' := CountersOf(u), CountersOf(Step(u, e));
            var left := if e.call in u.calls then RetriesLeft(u.calls[e.call]) else 0;
            var calls := Step(u, e).calls;
            m'.retries + (if e.call in calls then RetriesLeft(calls[e.call]) else 0) - 2 * m'.requests <=
            m.retries + left - 2 * m.requests
  {
  }

  lemma {:induction false} RetriesStep(u: Upstream, e: Event)
    requires !ForgetsMetrics(u, e) && forall c | c in u.calls :: PhaseOk(u.calls[c])
    ensures var m, m' := CountersOf(u), CountersOf(Step(u, e));
            m'.retries + AllRetriesLeft(Step(u, e).calls) - 2 * m'.requests <=
            m.retries + AllRetriesLeft(u.calls) - 2 * m.requests
  {
    if Enabled(u, e) && OfCall(e) {
      RetriesLeftStep(u, e);
      RetriesPaid(u, e);
    }
  }

  /** The retries that the calls in flight could still count when the metrics were last removed. */
  ghost function OrphanedRetries(events: seq<Event>): nat {
    if events == [] then 0 else
      var n := |events| - 1;
      if ForgetsMetrics(Run(events[..n]), events[n]) then AllRetriesLeft(Run(events[..n]).calls)
      else OrphanedRetries(events[..n])
  }

  /** In every interleaving retries never exceed twice the requests, even counting the retries that the calls in flight
      may still make, but for those left to the calls in flight when the metrics were last removed. */
  lemma {:induction false} RetriesAtMostTwicePerRequest(events: seq<Event>)
    ensures var m := CountersOf(Run(events));
            m.retries + AllRetriesLeft(Run(events).calls) <= 2 * m.requests + OrphanedRetries(events)
  {
    if events == [] {
      assert AllRetriesLeft(INIT.calls) == 0;
    } else {
      var n := |events| - 1;
      RetriesAtMostTwicePerRequest(events[..n]);
      ExhaustedAfterThreeAttempts(events[..n]);
      if !ForgetsMetrics(Run(events[..n]), events[n]) {
        RetriesStep(Run(events[..n]), events[n]);
      }
    }
  }
}
