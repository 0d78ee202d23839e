/** The circuit breaker and the counters of one upstream (src/lib.rs:557-606, 1085-1301, 1339-1346).

    Each function is one lock-guarded block of `forward_to_upstream` on the entry of one name. `Effects` is a whole call
    that no other disturbs. */
module CircuitBreaker {
  import opened Options

  const FAILURE_THRESHOLD: nat := 5
  const RESET_TIMEOUT_MS: nat := 30_000
  const MAX_RETRIES: nat := 3
  const MAX_JITTER_MS: nat := 25

  datatype Circuit = Circuit(failures: nat, openedAt: Option<nat>, halfOpen: bool)
  datatype Verdict = Admitted | Open | ProbeInFlight

  const CLOSED := Circuit(0, None, false)

  /** The admission block. `now` is the reading of the monotonic clock. */
  function Admit(c: Circuit, now: nat): (Circuit, Verdict) {
    if c.openedAt.None? then (c, Admitted)
    else if now < c.openedAt.value + RESET_TIMEOUT_MS then (c, Open)
    else if c.halfOpen then (c, ProbeInFlight)
    else (c.(halfOpen := true), Admitted)
  }

  /** The block of a call whose attempts are exhausted. */
  function Exhaust(c: Circuit, now: nat): Circuit {
    var failures := c.failures + 1;
    if c.halfOpen || failures >= FAILURE_THRESHOLD
    then Circuit(failures, Some(now), false)
    else c.(failures := failures)
  }

  datatype Metrics = Metrics(requests: nat, successes: nat, failures: nat, retries: nat)

  const NO_METRICS := Metrics(0, 0, 0, 0)

  function CircuitOf(breakers: map<string, Circuit>, name: string): Circuit {
    if name in breakers then breakers[name] else CLOSED
  }

  function MetricsOf(metrics: map<string, Metrics>, name: string): Metrics {
    if name in metrics then metrics[name] else NO_METRICS
  }

  /** How one attempt ends. An early return is an oversized or unreadable body, or a status that is neither a
      success, nor a server error, nor 429. */
  datatype Outcome = Good | EarlyReturn | Retryable

  datatype Result = Answer | Refused | LeftEarly | Exhausted | NotFound

  /** The sleep after attempt number `attempt`, before jitter. */
  function BaseBackoffMs(attempt: nat): nat {
    if attempt == 0 then 50 else 2 * BaseBackoffMs(attempt - 1)
  }

  /** The first attempt that does not ask for a retry, or the number of attempts. */
  function Decisive(outcomes: seq<Outcome>): (k: nat)
    ensures k <= |outcomes|
    ensures forall i | 0 <= i < k :: outcomes[i].Retryable?
    ensures k < |outcomes| ==> !outcomes[k].Retryable?
  {
    if outcomes == [] || !outcomes[0].Retryable? then 0 else 1 + Decisive(outcomes[1..])
  }

  /** How many attempts a call makes: up to the first decisive one, at most three. */
  function AttemptsOf(outcomes: seq<Outcome>): (n: nat)
    requires |outcomes| == MAX_RETRIES
    ensures 1 <= n <= MAX_RETRIES
  {
    if Decisive(outcomes) < MAX_RETRIES then Decisive(outcomes) + 1 else MAX_RETRIES
  }

  /** The total of the first n sleeps; `jitter[i]` is the random part of the sleep after attempt i. */
  function SleepMs(jitter: seq<nat>, n: nat): nat
    requires n <= |jitter|
  {
    if n == 0 then 0 else SleepMs(jitter, n - 1) + BaseBackoffMs(n - 1) + jitter[n - 1]
  }

  datatype Effect = Effect(result: Result, attempts: nat, circuit: Circuit, metrics: Metrics)

  /** What the end of a call does to the entries of its upstream, by the outcome of its last attempt. */
  function Concluded(c: Circuit, m: Metrics, last: Outcome, attempts: nat, endedAt: nat): Effect {
    match last
    case Good => Effect(Answer, attempts, CLOSED, m.(successes := m.successes + 1))
    case EarlyReturn => Effect(LeftEarly, attempts, c, m)
    case Retryable => Effect(Exhausted, attempts, Exhaust(c, endedAt), m.(failures := m.failures + 1))
  }

  /** What a whole undisturbed call does to the two entries of its upstream. */
  function Effects(c: Circuit, m: Metrics, admittedAt: nat, outcomes: seq<Outcome>, endedAt: nat): Effect
    requires |outcomes| == MAX_RETRIES
  {
    var (admitted, verdict) := Admit(c, admittedAt);
    var n := AttemptsOf(outcomes);
    if !verdict.Admitted? then
      Effect(Refused, 0, admitted, m.(requests := m.requests + 1, failures := m.failures + 1))
    else
      Concluded(admitted, m.(requests := m.requests + 1, retries := m.retries + n - 1), outcomes[n - 1], n, endedAt)
  }

  /** A call is denied while the breaker is open and has not been for 30 s, or a probe is out. */
  predicate Denies(c: Circuit, now: nat) {
    c.openedAt.Some? && (now < c.openedAt.value + 30_000 || c.halfOpen)
  }

  /** What a whole call leaves, said outright: a denied one, and an admitted one by the outcome of its last attempt,
      which is the first that is not to be retried, or the third. */
  ghost predicate CallLeaves(c: Circuit, m: Metrics, admittedAt: nat, outcomes: seq<Outcome>, endedAt: nat,
                             result: Result, attempts: nat, c': Circuit, m': Metrics)
    requires |outcomes| == 3
  {
    if Denies(c, admittedAt) then
      && result == Refused && attempts == 0 && c' == c
      && m' == Metrics(m.requests + 1, m.successes, m.failures + 1, m.retries)
    else
      && 1 <= attempts <= 3 && (forall i | 0 <= i < attempts - 1 :: outcomes[i] == Retryable)
      && (attempts == 3 || outcomes[attempts - 1] != Retryable)
      && match outcomes[attempts - 1]
         case Good =>
           && result == Answer && c' == Circuit(0, None, false)
           && m' == Metrics(m.requests + 1, m.successes + 1, m.failures, m.retries + attempts - 1)
         case EarlyReturn =>
           && result == LeftEarly && c' == Circuit(c.failures, c.openedAt, c.halfOpen || c.openedAt.Some?)
           && m' == Metrics(m.requests + 1, m.successes, m.failures, m.retries + attempts - 1)
         case Retryable =>
           && result == Exhausted
           && c' == (if c.openedAt.Some? || c.halfOpen || c.failures >= 4
                     then Circuit(c.failures + 1, Some(endedAt), false) else Circuit(c.failures + 1, None, false))
           && m' == Metrics(m.requests + 1, m.successes, m.failures + 1, m.retries + attempts - 1)
  }

  lemma {:induction false} EffectsAre(c: Circuit, m: Metrics, admittedAt: nat, outcomes: seq<Outcome>, endedAt: nat)
    requires |outcomes| == 3
    ensures var e := Effects(c, m, admittedAt, outcomes, endedAt);
            CallLeaves(c, m, admittedAt, outcomes, endedAt, e.result, e.attempts, e.circuit, e.metrics)
  {
  }

  /** The sleeps double from 50 ms. */
  lemma {:induction false} SleepsDouble(jitter: seq<nat>)
    requires |jitter| == 2
    ensures SleepMs(jitter, 0) == 0 && SleepMs(jitter, 1) == 50 + jitter[0]
    ensures SleepMs(jitter, 2) == 50 + jitter[0] + 100 + jitter[1]
  {
    assert BaseBackoffMs(1) == 100;
  }
}
