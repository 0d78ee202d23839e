/** `forward_to_upstream` in place on the registry and the two maps of the program (src/lib.rs:1074-1301, 1326-1346,
    1561-1569, 1830-1842).

    Each block is a method on the entry of one name; `ForwardToUpstream` is a whole call with its retry loop, while no
    other call runs. It does what the events of one call do in the machine of `UpstreamCalls`, where calls
    interleave. */
module Forwarding {
  import opened CircuitBreaker
  import opened Options
  import opened UpstreamCalls

  lemma {:induction false} Overwrite<V>(m: map<string, V>, name: string, first: V, second: V)
    ensures m[name := first][name := second] == m[name := second]
  {
  }

  ghost predicate IsEntry(registered: set<string>, breakers: map<string, Circuit>, metrics: map<string, Metrics>,
                          name: string, u: Upstream) {
    && u.registration.registered == (name in registered)
    && u.breaker == (if name in breakers then Some(breakers[name]) else None)
    && u.metrics == (if name in metrics then Some(metrics[name]) else None)
  }

  lemma {:induction false} Unregistered(u: Upstream)
    requires u.registration.registered
    ensures var v := RunFrom(u, [Unregister, ForgetBreaker, ForgetMetrics]);
            v.breaker == None && v.metrics == None && !v.registration.registered
  {
    assert [Unregister, ForgetBreaker, ForgetMetrics][..2] == [Unregister, ForgetBreaker];
    TwoEvents(u, Unregister, ForgetBreaker);
  }

  lemma {:induction false} TwoSleeps(jitter: seq<nat>)
    requires |jitter| == MAX_RETRIES - 1 && forall j | j in jitter :: j <= MAX_JITTER_MS
    ensures 150 <= SleepMs(jitter, 2) <= 200
  {
    assert jitter[0] in jitter && jitter[1] in jitter;
    assert BaseBackoffMs(0) == 50 && BaseBackoffMs(1) == 100;
    assert SleepMs(jitter, 1) == 50 + jitter[0];
  }

  /** The entries after a call are those that its events leave in the machine. */
  lemma {:induction false} SameAsMachine(registered: set<string>, breakers: map<string, Circuit>,
                                         metrics: map<string, Metrics>, name: string,
                                         admittedAt: nat, outcomes: seq<Outcome>, jitter: seq<nat>, endedAt: nat)
    requires name in registered && |outcomes| == MAX_RETRIES && |jitter| == MAX_RETRIES - 1
    requires forall j | j in jitter :: j <= MAX_JITTER_MS
    ensures var e := Effects(CircuitOf(breakers, name), MetricsOf(metrics, name), admittedAt, outcomes, endedAt);
            forall n, u, c | IsEntry(registered, breakers, metrics, n, u) && c !in u.calls ::
              IsEntry(registered, breakers[name := e.circuit], metrics[name := e.metrics], n,
                      if n == name then RunFrom(u, CallEvents(u, c, admittedAt, outcomes, jitter, endedAt)) else u)
  {
    forall u, c | IsEntry(registered, breakers, metrics, name, u) && c !in u.calls
      ensures RunFrom(u, CallEvents(u, c, admittedAt, outcomes, jitter, endedAt)) ==
              AfterCall(u, admittedAt, outcomes, endedAt)
    {
      UndisturbedCall(u, c, admittedAt, outcomes, jitter, endedAt);
    }
  }

  class Registers {
    var registered: set<string>   // the keys of the registry
    var breakers: map<string, Circuit>
    var metrics: map<string, Metrics>

    constructor ()
      ensures registered == {} && breakers == map[] && metrics == map[]
    {
      registered, breakers, metrics := {}, map[], map[];
    }

    /** Registry, breaker and metrics have for a name what the machine's upstream has. */
    ghost predicate Holds(name: string, u: Upstream)
      reads this
    {
      IsEntry(registered, breakers, metrics, name, u)
    }

    method CountRequest(name: string)
      modifies this`metrics
      ensures var m := MetricsOf(old(metrics), name);
              metrics == old(metrics)[name := m.(requests := m.requests + 1)]
    {
      if name !in metrics {
        metrics := metrics[name := NO_METRICS];
      }
      metrics := metrics[name := metrics[name].(requests := metrics[name].requests + 1)];
    }

    method CountRetry(name: string)
      modifies this`metrics
      ensures var m := MetricsOf(old(metrics), name);
              metrics == old(metrics)[name := m.(retries := m.retries + 1)]
    {
      if name !in metrics {
        metrics := metrics[name := NO_METRICS];
      }
      metrics := metrics[name := metrics[name].(retries := metrics[name].retries + 1)];
    }

    method CountSuccess(name: string)
      modifies this`metrics
      ensures var m := MetricsOf(old(metrics), name);
              metrics == old(metrics)[name := m.(successes := m.successes + 1)]
    {
      if name !in metrics {
        metrics := metrics[name := NO_METRICS];
      }
      metrics := metrics[name := metrics[name].(successes := metrics[name].successes + 1)];
    }

    method CountFailure(name: string)
      modifies this`metrics
      ensures var m := MetricsOf(old(metrics), name);
              metrics == old(metrics)[name := m.(failures := m.failures + 1)]
    {
      if name !in metrics {
        metrics := metrics[name := NO_METRICS];
      }
      metrics := metrics[name := metrics[name].(failures := metrics[name].failures + 1)];
    }

    method AdmitCall(name: string, now: nat) returns (verdict: Verdict)
      modifies this`breakers
      ensures verdict == Admit(CircuitOf(old(breakers), name), now).1
      ensures breakers == old(breakers)[name := Admit(CircuitOf(old(breakers), name), now).0]
    {
      if name !in breakers {
        breakers := breakers[name := CLOSED];
      }
      assert breakers == old(breakers)[name := CircuitOf(old(breakers), name)];
      var state := breakers[name];
      if state.openedAt.Some? {
        if now < state.openedAt.value + RESET_TIMEOUT_MS {
          return Open;
        }
        if state.halfOpen {
          return ProbeInFlight;
        }
        breakers := breakers[name := state.(halfOpen := true)];
      }
      return Admitted;
    }

    method RecordSuccess(name: string)
      modifies this`breakers
      ensures breakers == old(breakers)[name := CLOSED]
    {
      breakers := breakers[name := Circuit(0, None, false)];
    }

    method RecordExhausted(name: string, now: nat)
      modifies this`breakers
      ensures breakers == old(breakers)[name := Exhaust(CircuitOf(old(breakers), name), now)]
    {
      if name !in breakers {
        breakers := breakers[name := CLOSED];
      }
      var state := breakers[name];
      state := state.(failures := state.failures + 1);
      if state.halfOpen || state.failures >= FAILURE_THRESHOLD {
        state := state.(openedAt := Some(now));
        state := state.(halfOpen := false);
      }
      breakers := breakers[name := state];
    }

    method RegisterUpstream(name: string)
      modifies this`registered
      ensures forall n, u | old(Holds(n, u)) :: Holds(n, if n == name then Step(u, Register) else u)
    {
      registered := registered + {name};
    }

    /** The admin deletion: the breaker and the metrics stay. */
    method AdminDeleteServer(name: string) returns (deleted: bool)
      modifies this`registered
      ensures deleted <==> name in old(registered)
      ensures forall n, u | old(Holds(n, u)) :: Holds(n, if n == name then Step(u, AdminDelete) else u)
    {
      deleted := name in registered;
      registered := registered - {name};
    }

    /** `unregister_upstream`: for a registered name the machine's three steps, and nothing for any other. */
    method UnregisterUpstream(name: string) returns (removed: bool)
      modifies this
      ensures removed <==> name in old(registered)
      ensures forall n, u | old(Holds(n, u)) ::
                Holds(n, if n == name && removed then RunFrom(u, [Unregister, ForgetBreaker, ForgetMetrics]) else u)
    {
      removed := name in registered;
      if removed {
        registered := registered - {name};
        breakers := breakers - {name};
        metrics := metrics - {name};
        forall u: Upstream | u.registration.registered
          ensures var v := RunFrom(u, [Unregister, ForgetBreaker, ForgetMetrics]);
                  v.breaker == None && v.metrics == None && !v.registration.registered
        {
          Unregistered(u);
        }
      }
    }

    /** The retry loop: up to three attempts, with a sleep and a counted retry between two of them. */
    method Attempt(name: string, outcomes: seq<Outcome>, jitter: seq<nat>)
        returns (last: Outcome, attempts: nat, sleptMs: nat)
      requires |outcomes| == MAX_RETRIES && |jitter| == MAX_RETRIES - 1 && name in metrics
      requires forall j | j in jitter :: j <= MAX_JITTER_MS
      modifies this`metrics
      ensures attempts == AttemptsOf(outcomes) && last == outcomes[attempts - 1]
      ensures var m := old(metrics[name]);
              metrics == old(metrics)[name := m.(retries := m.retries + attempts - 1)]
      ensures sleptMs == SleepMs(jitter, attempts - 1)
      ensures last.Retryable? ==> attempts == 3 && 150 <= sleptMs <= 200
    {
      attempts, sleptMs, last := 0, 0, Retryable;
      ghost var m := metrics[name];
      assert metrics == old(metrics)[name := m];
      for attempt := 0 to MAX_RETRIES
        invariant attempts == attempt <= Decisive(outcomes) && last.Retryable?
        invariant metrics == old(metrics)[name := m.(retries := m.retries + if attempt < 3 then attempt else 2)]
        invariant sleptMs == SleepMs(jitter, if attempt < 3 then attempt else 2)
      {
        attempts := attempts + 1;
        last := outcomes[attempt];
        if !last.Retryable? {
          return;
        }
        if attempt + 1 < MAX_RETRIES {
          CountRetry(name);
          sleptMs := sleptMs + BaseBackoffMs(attempt) + jitter[attempt];
        }
      }
      TwoSleeps(jitter);
    }

    method Conclude(name: string, last: Outcome, attempts: nat, endedAt: nat) returns (result: Result)
      requires name in breakers && name in metrics
      modifies this`breakers, this`metrics
      ensures var e := Concluded(old(breakers[name]), old(metrics[name]), last, attempts, endedAt);
              && result == e.result
              && breakers == old(breakers)[name := e.circuit]
              && metrics == old(metrics)[name := e.metrics]
      ensures var m := old(metrics[name]);
              match last
              case Good =>
                && result == Answer && breakers == old(breakers)[name := Circuit(0, None, false)]
                && metrics == old(metrics)[name := Metrics(m.requests, m.successes + 1, m.failures, m.retries)]
              case EarlyReturn =>
                result == LeftEarly && breakers == old(breakers) && metrics == old(metrics)
              case Retryable =>
                && result == Exhausted && breakers[name].failures == old(breakers[name]).failures + 1
                && metrics == old(metrics)[name := Metrics(m.requests, m.successes, m.failures + 1, m.retries)]
    {
      match last
      case Good =>
        RecordSuccess(name);
        CountSuccess(name);
        return Answer;
      case EarlyReturn =>
        return LeftEarly;
      case Retryable =>
        RecordExhausted(name, endedAt);
        CountFailure(name);
        return Exhausted;
    }

    /** The call to a registered upstream. */
    method CallRegistered(name: string, admittedAt: nat, outcomes: seq<Outcome>, jitter: seq<nat>, endedAt: nat)
        returns (result: Result, attempts: nat, sleptMs: nat)
      requires |outcomes| == MAX_RETRIES && |jitter| == MAX_RETRIES - 1
      requires forall j | j in jitter :: j <= MAX_JITTER_MS
      modifies this`breakers, this`metrics
      ensures var e := Effects(CircuitOf(old(breakers), name), MetricsOf(old(metrics), name), admittedAt, outcomes,
                               endedAt);
              && result == e.result && attempts == e.attempts
              && breakers == old(breakers)[name := e.circuit]
              && metrics == old(metrics)[name := e.metrics]
      ensures sleptMs == if attempts == 0 then 0 else SleepMs(jitter, attempts - 1)
      ensures result.Exhausted? ==> attempts == 3 && 150 <= sleptMs <= 200
    {
      attempts, sleptMs := 0, 0;
      CountRequest(name);
      var verdict := AdmitCall(name, admittedAt);
      ghost var circuit, asked := breakers[name], metrics[name];
      if !verdict.Admitted? {
        CountFailure(name);
        Overwrite(old(metrics), name, asked, metrics[name]);
        return Refused, attempts, sleptMs;
      }
      var last;
      last, attempts, sleptMs := Attempt(name, outcomes, jitter);
      ghost var tried := metrics[name];
      Overwrite(old(metrics), name, asked, tried);
      result := Conclude(name, last, attempts, endedAt);
      Overwrite(old(metrics), name, tried, metrics[name]);
      Overwrite(old(breakers), name, circuit, breakers[name]);
    }

    /** A whole call: `outcomes[i]` is how attempt i ends if it is made, `jitter[i]` the random part of the sleep
        after it. */
    method ForwardToUpstream(name: string, admittedAt: nat, outcomes: seq<Outcome>, jitter: seq<nat>, endedAt: nat)
        returns (result: Result, attempts: nat, sleptMs: nat)
      requires |outcomes| == MAX_RETRIES && |jitter| == MAX_RETRIES - 1
      requires forall j | j in jitter :: j <= MAX_JITTER_MS
      modifies this`breakers, this`metrics
      ensures name !in registered ==>
                result.NotFound? && attempts == 0 && breakers == old(breakers) && metrics == old(metrics)
      ensures name in registered ==>
                var e := Effects(CircuitOf(old(breakers), name), MetricsOf(old(metrics), name), admittedAt, outcomes,
                                 endedAt);
                && result == e.result && attempts == e.attempts
                && breakers == old(breakers)[name := e.circuit]
                && metrics == old(metrics)[name := e.metrics]
      ensures name in registered ==>
                var c, m := CircuitOf(old(breakers), name), MetricsOf(old(metrics), name);
                && name in breakers && name in metrics
                && CallLeaves(c, m, admittedAt, outcomes, endedAt, result, attempts, breakers[name], metrics[name])
      ensures sleptMs == if attempts == 0 then 0 else SleepMs(jitter, attempts - 1)
      ensures result.Exhausted? ==> attempts == 3 && 150 <= sleptMs <= 200
      ensures forall n, u, c | old(Holds(n, u)) && c !in u.calls ::
                Holds(n, if n == name && name in registered
                         then RunFrom(u, CallEvents(u, c, admittedAt, outcomes, jitter, endedAt)) else u)
    {
      if name !in registered {
        return NotFound, 0, 0;
      }
      SameAsMachine(registered, breakers, metrics, name, admittedAt, outcomes, jitter, endedAt);
      EffectsAre(CircuitOf(breakers, name), MetricsOf(metrics, name), admittedAt, outcomes, endedAt);
      result, attempts, sleptMs := CallRegistered(name, admittedAt, outcomes, jitter, endedAt);
    }
  }
}
