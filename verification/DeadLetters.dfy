/** The dead-letter queue (kurd/dead_letter_queue.py:112-170, 172-262, 304-333, 385-412) as operations on a table of
    rows and a replay history. A replay handler is an oracle that succeeds or raises. */
module DeadLetters {
  import opened Sums

  datatype Status = Pending | Retrying | Failed | Successful | Archived

  datatype Row = Row(tool: string, status: Status, retryCount: nat, nextRetryAt: nat, archivedAt: nat)

  datatype Replayed = Replayed(id: string, success: bool)

  datatype Queue = Queue(rows: map<string, Row>, history: seq<Replayed>, handlers: set<string>, maxRetries: nat)

  datatype Result = NotFound | NoHandler | Exhausted | Succeeded | Raised

  function Pow2(n: nat): nat {
    if n == 0 then 1 else 2 * Pow2(n - 1)
  }

  /** Seconds until the next attempt. */
  function Delay(retryCount: nat): nat {
    if Pow2(retryCount) * 60 < 3600 then Pow2(retryCount) * 60 else 3600
  }

  lemma {:induction false} DelayDoublesToAnHour(n: nat)
    ensures Delay(n) == if n <= 5 then 60 * Pow2(n) else 3600
    ensures Delay(n) <= Delay(n + 1)
  {
    assert Pow2(5) == 32 by {
      assert Pow2(3) == 8;
    }
    if n <= 5 {
      Pow2Monotone(n, 5);
    } else {
      Pow2Monotone(6, n);
      assert Pow2(6) == 64;
    }
  }

  lemma {:induction false} Pow2Monotone(a: nat, b: nat)
    requires a <= b
    ensures 1 <= Pow2(a) <= Pow2(b)
    decreases b
  {
    if a < b {
      Pow2Monotone(a, b - 1);
    } else if a > 0 {
      Pow2Monotone(a - 1, a - 1);
    }
  }

  /** The delays in seconds, one by one. */
  function Backoff(retryCount: nat): nat {
    if retryCount <= 5 then [60, 120, 240, 480, 960, 1920][retryCount] else 3600
  }

  lemma {:induction false} BackoffIsDelay(n: nat)
    ensures Delay(n) == Backoff(n)
  {
    DelayDoublesToAnHour(n);
    assert Pow2(3) == 8;
  }

  function Set(q: Queue, id: string, row: Row): Queue {
    q.(rows := q.rows[id := row])
  }

  function Add(q: Queue, id: string, tool: string, retryCount: nat, now: nat): Queue {
    if id in q.rows then q
    else Set(q, id, Row(tool, Pending, retryCount, now + Delay(retryCount), 0))
  }

  /** `ok` says whether the handler, if it is called, returns. */
  function Replay(q: Queue, id: string, ok: bool, now: nat): (Queue, Result) {
    if id !in q.rows then (q, NotFound)
    else
      var row := q.rows[id];
      if row.tool !in q.handlers then (q, NoHandler)
      else if row.retryCount >= q.maxRetries then (Set(q, id, row.(status := Failed)), Exhausted)
      else if ok then
        (Set(q, id, row.(status := Successful)).(history := q.history + [Replayed(id, true)]), Succeeded)
      else
        var n := row.retryCount + 1;
        (Set(q, id, row.(retryCount := n, status := Retrying, nextRetryAt := now + Delay(n)))
           .(history := q.history + [Replayed(id, false)]), Raised)
  }

  /** Whether `get_pending_replays` returns the row. */
  predicate IsPending(q: Queue, id: string, now: nat) {
    id in q.rows && Replayable(q, q.rows[id]) && q.rows[id].nextRetryAt <= now
  }

  predicate Replayable(q: Queue, row: Row) {
    (row.status.Pending? || row.status.Retrying?) && row.retryCount < q.maxRetries
  }

  function Archive(q: Queue, id: string, now: nat): Queue {
    if id in q.rows then Set(q, id, q.rows[id].(status := Archived, archivedAt := now)) else q
  }

  function Cleanup(q: Queue, cutoff: nat): Queue {
    q.(rows := map id | id in q.rows && !(q.rows[id].status.Archived? && q.rows[id].archivedAt < cutoff) :: q.rows[id])
  }

  // ---------------------------------------------------------------- the queue in place

  class DeadLetterQueue {
    var rows: map<string, Row>
    var history: seq<Replayed>
    var handlers: set<string>
    const maxRetries: nat

    function State(): Queue
      reads this
    {
      Queue(rows, history, handlers, maxRetries)
    }

    constructor (maxRetries: nat)
      ensures State() == Queue(map[], [], {}, maxRetries)
    {
      rows, history, handlers, this.maxRetries := map[], [], {}, maxRetries;
    }

    method AddMessage(id: string, tool: string, retryCount: nat, now: nat)
      requires id !in rows
      modifies this`rows
      ensures State() == Add(old(State()), id, tool, retryCount, now)
      ensures rows == old(rows)[id := Row(tool, Pending, retryCount, now + Backoff(retryCount), 0)]
    {
      BackoffIsDelay(retryCount);
      var retryDelay := Delay(retryCount);
      rows := rows[id := Row(tool, Pending, retryCount, now + retryDelay, 0)];
    }

    method RegisterReplayHandler(tool: string)
      modifies this`handlers
      ensures State() == Step(old(State()), HandlerOp(tool)) && handlers == old(handlers) + {tool}
    {
      handlers := handlers + {tool};
    }

    method ReplayMessage(id: string, ok: bool, now: nat) returns (result: Result)
      modifies this`rows, this`history
      ensures (State(), result) == Replay(old(State()), id, ok, now)
      ensures id !in old(rows) ==> result == NotFound && rows == old(rows) && history == old(history)
      ensures id in old(rows) ==>
                var row := old(rows)[id];
                if row.tool !in handlers then result == NoHandler && rows == old(rows) && history == old(history)
                else if row.retryCount >= maxRetries then
                  && result == Exhausted && history == old(history)
                  && rows == old(rows)[id := row.(status := Failed)]
                else if ok then
                  && result == Succeeded && history == old(history) + [Replayed(id, true)]
                  && rows == old(rows)[id := row.(status := Successful)]
                else
                  var n := row.retryCount + 1;
                  && result == Raised && history == old(history) + [Replayed(id, false)]
                  && rows == old(rows)[id := row.(retryCount := n, status := Retrying, nextRetryAt := now + Backoff(n))]
    {
      if id !in rows {
        return NotFound;
      }
      var row := rows[id];
      if row.tool !in handlers {
        return NoHandler;
      }
      if row.retryCount >= maxRetries {
        rows := rows[id := row.(status := Failed)];
        return Exhausted;
      }
      if ok {
        rows := rows[id := row.(status := Successful)];
        history := history + [Replayed(id, true)];
        return Succeeded;
      }
      var newRetryCount := row.retryCount + 1;
      BackoffIsDelay(newRetryCount);
      var retryDelay := Delay(newRetryCount);
      rows := rows[id := row.(retryCount := newRetryCount, status := Retrying, nextRetryAt := now + retryDelay)];
      history := history + [Replayed(id, false)];
      return Raised;
    }

    method ArchiveMessage(id: string, now: nat)
      modifies this`rows
      ensures State() == Archive(old(State()), id, now)
      ensures id !in old(rows) ==> rows == old(rows)
      ensures id in old(rows) ==>
                rows == old(rows)[id := old(rows)[id].(status := Archived, archivedAt := now)]
    {
      if id in rows {
        rows := rows[id := rows[id].(status := Archived, archivedAt := now)];
      }
    }
  }

  // ---------------------------------------------------------------- replaying what is pending terminates

  function WorkOf(q: Queue, row: Row): nat {
    if Replayable(q, row) then q.maxRetries - row.retryCount else 0
  }

  ghost function Works(q: Queue): map<string, nat> {
    map id | id in q.rows :: WorkOf(q, q.rows[id])
  }

  /** The retries that the replayable rows may still use. */
  ghost function WorkLeft(q: Queue): nat {
    Sum(Works(q))
  }

  function Successes(history: seq<Replayed>, id: string): nat {
    if history == [] then 0
    else Successes(history[..|history| - 1], id) + if history[|history| - 1] == Replayed(id, true) then 1 else 0
  }

  function Failures(history: seq<Replayed>, id: string): nat {
    if history == [] then 0
    else Failures(history[..|history| - 1], id) + if history[|history| - 1] == Replayed(id, false) then 1 else 0
  }

  lemma {:induction false} SuccessesAppend(history: seq<Replayed>, r: Replayed, id: string)
    ensures Successes(history + [r], id) == Successes(history, id) + if r == Replayed(id, true) then 1 else 0
    ensures Failures(history + [r], id) == Failures(history, id) + if r == Replayed(id, false) then 1 else 0
  {
    assert (history + [r])[..|history|] == history;
  }

  /** A pending message whose tool has a handler is tried, and the trial uses up work. */
  lemma {:induction false} PendingReplayWorks(q: Queue, id: string, ok: bool, now: nat)
    requires IsPending(q, id, now) && q.rows[id].tool in q.handlers
    ensures var (q', r) := Replay(q, id, ok, now);
            && r == (if ok then Succeeded else Raised)
            && WorkLeft(q') < WorkLeft(q)
  {
    var q' := Replay(q, id, ok, now).0;
    SumUpdate(Works(q), id, WorkOf(q', q'.rows[id]));
    assert Works(q') == Works(q)[id := WorkOf(q', q'.rows[id])];
  }

  datatype Trial = Trial(id: string, ok: bool, now: nat)

  function Tried(q: Queue, trials: seq<Trial>): Queue {
    if trials == [] then q else
      var last := trials[|trials| - 1];
      Replay(Tried(q, trials[..|trials| - 1]), last.id, last.ok, last.now).0
  }

  /** Each trial replays a message that `get_pending_replays` would return at that moment. */
  ghost predicate OnlyPending(q: Queue, trials: seq<Trial>) {
    trials == [] ||
    (var init, last := trials[..|trials| - 1], trials[|trials| - 1];
     OnlyPending(q, init) && IsPending(Tried(q, init), last.id, last.now))
  }

  /** Every row that may still be replayed has a handler. */
  ghost predicate AllHandled(q: Queue) {
    forall id | id in q.rows && Replayable(q, q.rows[id]) :: q.rows[id].tool in q.handlers
  }

  /** What any number of replays of pending messages has used and recorded. A message that has succeeded among them is
      marked successful. */
  ghost predicate TrialsOk(q: Queue, trials: seq<Trial>, id: string) {
    var q' := Tried(q, trials);
    && AllHandled(q')
    && |trials| + WorkLeft(q') <= WorkLeft(q)
    && |q'.history| == |q.history| + |trials|
    && Successes(q.history, id) <= Successes(q'.history, id) <= Successes(q.history, id) + 1
    && (Successes(q'.history, id) == Successes(q.history, id) + 1 ==> id in q'.rows && q'.rows[id].status.Successful?)
  }

  lemma {:induction false} TrialStep(q: Queue, init: seq<Trial>, last: Trial, id: string)
    requires TrialsOk(q, init, id) && IsPending(Tried(q, init), last.id, last.now)
    ensures TrialsOk(q, init + [last], id)
  {
    var before := Tried(q, init);
    assert (init + [last])[..|init|] == init;
    PendingReplayWorks(before, last.id, last.ok, last.now);
    SuccessesAppend(before.history, Replayed(last.id, last.ok), id);
  }

  /** With a handler for every replayable row, replaying nothing but pending messages ends: it makes at most as many
      replays as the replayable rows have retries left, and each message succeeds at most once. */
  lemma {:induction false} ReplayingPendingTerminates(q: Queue, trials: seq<Trial>, id: string)
    requires AllHandled(q) && OnlyPending(q, trials)
    ensures |trials| <= WorkLeft(q)
    ensures Successes(Tried(q, trials).history, id) <= Successes(q.history, id) + 1
    ensures TrialsOk(q, trials, id)
  {
    if trials == [] {
    } else {
      var n := |trials| - 1;
      ReplayingPendingTerminates(q, trials[..n], id);
      TrialStep(q, trials[..n], trials[n], id);
      assert trials[..n] + [trials[n]] == trials;
    }
  }

  /** Without a handler nothing is used up: the message stays pending for ever. */
  lemma {:induction false} NoHandlerNoProgress(q: Queue, id: string, now: nat, n: nat)
    requires IsPending(q, id, now) && q.rows[id].tool !in q.handlers
    ensures var trials := seq(n, _ => Trial(id, true, now));
            OnlyPending(q, trials) && Tried(q, trials) == q
  {
    var trials := seq(n, _ => Trial(id, true, now));
    if n == 0 {
    } else {
      NoHandlerNoProgress(q, id, now, n - 1);
      assert trials[..n - 1] == seq(n - 1, _ => Trial(id, true, now));
    }
  }

  ghost predicate AtMost(q: Queue, bound: nat) {
    forall trials :: OnlyPending(q, trials) ==> |trials| <= bound
  }

  /** Replaying nothing but pending messages always ends, within a bound, exactly when every row that may still be
      replayed has a handler. */
  lemma {:induction false} ReplayingTerminatesExactly(q: Queue)
    ensures (exists bound: nat :: AtMost(q, bound)) <==> AllHandled(q)
  {
    if AllHandled(q) {
      forall trials | OnlyPending(q, trials)
        ensures |trials| <= WorkLeft(q)
      {
        ReplayingPendingTerminates(q, trials, "");
      }
      assert AtMost(q, WorkLeft(q));
    } else {
      var id :| id in q.rows && Replayable(q, q.rows[id]) && q.rows[id].tool !in q.handlers;
      forall bound: nat
        ensures !AtMost(q, bound)
      {
        NoHandlerNoProgress(q, id, q.rows[id].nextRetryAt, bound + 1);
        assert |seq(bound + 1, _ => Trial(id, true, q.rows[id].nextRetryAt))| == bound + 1;
      }
    }
  }

  // ---------------------------------------------------------------- every run

  datatype Op =
    | AddOp(id: string, tool: string, retryCount: nat, now: nat)
    | HandlerOp(tool: string)
    | ReplayOp(id: string, ok: bool, now: nat)
    | ArchiveOp(id: string, now: nat)
    | CleanupOp(cutoff: nat)

  function Step(q: Queue, op: Op): Queue {
    match op
    case AddOp(id, tool, retryCount, now) => Add(q, id, tool, retryCount, now)
    case HandlerOp(tool) => q.(handlers := q.handlers + {tool})
    case ReplayOp(id, ok, now) => Replay(q, id, ok, now).0
    case ArchiveOp(id, now) => Archive(q, id, now)
    case CleanupOp(cutoff) => Cleanup(q, cutoff)
  }

  function Run(maxRetries: nat, ops: seq<Op>): Queue {
    if ops == [] then Queue(map[], [], {}, maxRetries)
    else Step(Run(maxRetries, ops[..|ops| - 1]), ops[|ops| - 1])
  }

  function AddedIds(ops: seq<Op>): set<string> {
    if ops == [] then {}
    else AddedIds(ops[..|ops| - 1]) + if ops[|ops| - 1].AddOp? then {ops[|ops| - 1].id} else {}
  }

  /** Message ids are drawn at random and never twice. */
  ghost predicate FreshIds(ops: seq<Op>) {
    ops == [] ||
    (FreshIds(ops[..|ops| - 1]) && (ops[|ops| - 1].AddOp? ==> ops[|ops| - 1].id !in AddedIds(ops[..|ops| - 1])))
  }

  /** The retry count with which a message was added. */
  function InitialCount(ops: seq<Op>, id: string): nat {
    if ops == [] then 0
    else if ops[|ops| - 1].AddOp? && ops[|ops| - 1].id == id then ops[|ops| - 1].retryCount
    else InitialCount(ops[..|ops| - 1], id)
  }

  function Max(a: nat, b: nat): nat {
    if a < b then b else a
  }

  ghost predicate CountOk(q: Queue, added: bool, initial: nat, id: string) {
    && (!added ==> id !in q.rows && Failures(q.history, id) == 0)
    && (id in q.rows ==>
          && q.rows[id].retryCount == initial + Failures(q.history, id)
          && q.rows[id].retryCount <= Max(initial, q.maxRetries))
  }

  lemma {:induction false} ReplayKeepsCount(q: Queue, added: bool, initial: nat, op: Op, id: string)
    requires CountOk(q, added, initial, id) && op.ReplayOp?
    ensures CountOk(Step(q, op), added, initial, id)
  {
    SuccessesAppend(q.history, Replayed(op.id, op.ok), id);
  }

  lemma {:induction false} OtherKeepsCount(q: Queue, added: bool, initial: nat, op: Op, id: string)
    requires CountOk(q, added, initial, id) && !op.ReplayOp? && (op.AddOp? && op.id == id ==> !added)
    ensures var adds := op.AddOp? && op.id == id;
            CountOk(Step(q, op), added || adds, if adds then op.retryCount else initial, id)
  {
  }

  /** In every run, the retry count of a row is the one it was added with plus its failed replays in the history, and
      it never exceeds the larger of the one it was added with and the maximum. */
  lemma {:induction false} RetryCountIsHistory(maxRetries: nat, ops: seq<Op>, id: string)
    requires FreshIds(ops)
    ensures var q, initial := Run(maxRetries, ops), InitialCount(ops, id);
            && q.maxRetries == maxRetries
            && CountOk(q, id in AddedIds(ops), initial, id)
            && (id in q.rows ==>
                  && q.rows[id].retryCount == initial + Failures(q.history, id)
                  && q.rows[id].retryCount <= Max(initial, maxRetries))
  {
    if ops == [] {
    } else {
      var init, op := ops[..|ops| - 1], ops[|ops| - 1];
      RetryCountIsHistory(maxRetries, init, id);
      if op.ReplayOp? {
        ReplayKeepsCount(Run(maxRetries, init), id in AddedIds(init), InitialCount(init, id), op, id);
      } else {
        OtherKeepsCount(Run(maxRetries, init), id in AddedIds(init), InitialCount(init, id), op, id);
      }
    }
  }

  // ---------------------------------------------------------------- one message, from its own operations

  /** What has become of a message, without the table: it is not there, or it waits for a replay that is due, or it has
      been settled, by a success or by running out of retries, or archived. */
  datatype Life = Absent | Waiting(tool: string, count: nat, due: nat) | Settled(tool: string, count: nat)
                | Shelved(tool: string, count: nat, at: nat)

  function HandledTools(ops: seq<Op>): set<string> {
    if ops == [] then {}
    else HandledTools(ops[..|ops| - 1]) + if ops[|ops| - 1].HandlerOp? then {ops[|ops| - 1].tool} else {}
  }

  function NextLife(l: Life, op: Op, id: string, handled: set<string>, maxRetries: nat): Life {
    match op
    case AddOp(i, tool, count, now) =>
      if i == id && l.Absent? then Waiting(tool, count, now + Backoff(count)) else l
    case ReplayOp(i, ok, now) =>
      if i != id || l.Absent? || l.tool !in handled then l
      else if l.count >= maxRetries || ok then Settled(l.tool, l.count)
      else Waiting(l.tool, l.count + 1, now + Backoff(l.count + 1))
    case ArchiveOp(i, now) => if i == id && !l.Absent? then Shelved(l.tool, l.count, now) else l
    case CleanupOp(cutoff) => if l.Shelved? && l.at < cutoff then Absent else l
    case HandlerOp(_) => l
  }

  function LifeOf(maxRetries: nat, ops: seq<Op>, id: string): Life {
    if ops == [] then Absent else
      var init := ops[..|ops| - 1];
      NextLife(LifeOf(maxRetries, init, id), ops[|ops| - 1], id, HandledTools(init), maxRetries)
  }

  ghost predicate Lives(q: Queue, id: string, l: Life) {
    match l
    case Absent => id !in q.rows
    case Waiting(tool, count, due) =>
      && id in q.rows && q.rows[id].tool == tool && q.rows[id].retryCount == count && q.rows[id].nextRetryAt == due
      && q.rows[id].status in {Pending, Retrying}
    case Settled(tool, count) =>
      id in q.rows && q.rows[id].tool == tool && q.rows[id].retryCount == count
      && q.rows[id].status in {Successful, Failed}
    case Shelved(tool, count, at) =>
      && id in q.rows && q.rows[id].tool == tool && q.rows[id].retryCount == count && q.rows[id].archivedAt == at
      && q.rows[id].status == Archived
  }

  lemma {:induction false} NextLifeIsStep(q: Queue, id: string, l: Life, op: Op)
    requires Lives(q, id, l)
    ensures Lives(Step(q, op), id, NextLife(l, op, id, q.handlers, q.maxRetries))
  {
    match op
    case AddOp(i, tool, count, now) => BackoffIsDelay(count);
    case ReplayOp(i, ok, now) =>
      if !l.Absent? {
        BackoffIsDelay(l.count + 1);
      }
    case ArchiveOp(i, now) =>
    case CleanupOp(cutoff) =>
    case HandlerOp(tool) =>
  }

  /** In every run the row of a message is what its own operations made of it. */
  lemma {:induction false} RowIsItsLife(maxRetries: nat, ops: seq<Op>, id: string)
    ensures Lives(Run(maxRetries, ops), id, LifeOf(maxRetries, ops, id))
    ensures Run(maxRetries, ops).handlers == HandledTools(ops) && Run(maxRetries, ops).maxRetries == maxRetries
  {
    if ops == [] {
    } else {
      var init := ops[..|ops| - 1];
      RowIsItsLife(maxRetries, init, id);
      NextLifeIsStep(Run(maxRetries, init), id, LifeOf(maxRetries, init, id), ops[|ops| - 1]);
    }
  }

  /** In every run a message is pending exactly when it waits, has retries left, and its delay since it was added or
      last failed is over. */
  lemma {:induction false} PendingIsExact(maxRetries: nat, ops: seq<Op>, id: string, now: nat)
    ensures var l := LifeOf(maxRetries, ops, id);
            IsPending(Run(maxRetries, ops), id, now) <==> l.Waiting? && l.count < maxRetries && now >= l.due
  {
    RowIsItsLife(maxRetries, ops, id);
  }

  // ---------------------------------------------------------------- what a direct replay does

  /** A replay calls the handler whatever the status of the row: one that was successful or archived is run again. Only
      the messages that `get_pending_replays` returns succeed at most once. */
  lemma {:induction false} HandlerRunsExactly(q: Queue, id: string, ok: bool, now: nat)
    ensures (Replay(q, id, ok, now).0.history != q.history) <==>
            (id in q.rows && q.rows[id].tool in q.handlers && q.rows[id].retryCount < q.maxRetries)
    ensures Replay(q, id, true, now).1.Succeeded? ==>
              var q' := Replay(q, id, true, now).0;
              !IsPending(q', id, now) && Replay(q', id, true, now).1.Succeeded?
  {
    var q' := Replay(q, id, ok, now).0;
    assert q'.history == q.history || |q'.history| == |q.history| + 1;
  }

  function RunFrom(q: Queue, ops: seq<Op>): Queue {
    if ops == [] then q else Step(RunFrom(q, ops[..|ops| - 1]), ops[|ops| - 1])
  }

  /** The operations that change the status of an existing row. */
  predicate Touches(op: Op, id: string) {
    (op.ReplayOp? || op.ArchiveOp?) && op.id == id
  }

  predicate Adds(op: Op, id: string) {
    op.AddOp? && op.id == id
  }

  ghost predicate Finished(q: Queue, id: string) {
    id in q.rows ==>
      && q.rows[id].status in {Failed, Archived} && q.rows[id].retryCount >= q.maxRetries
      && q.rows[id].tool in q.handlers
  }

  lemma {:induction false} FinishedStays(q: Queue, id: string, op: Op)
    requires Finished(q, id) && !Adds(op, id)
    ensures Finished(Step(q, op), id)
  {
  }

  lemma {:induction false} ExhaustedStep(q: Queue, id: string, op: Op)
    requires id in q.rows && q.rows[id].status.Retrying? && q.rows[id].retryCount >= q.maxRetries
    requires q.rows[id].tool in q.handlers && !Adds(op, id)
    ensures var q' := Step(q, op);
            && Successes(q'.history, id) == Successes(q.history, id)
            && Failures(q'.history, id) == Failures(q.history, id)
            && q.handlers <= q'.handlers && q'.maxRetries == q.maxRetries
            && if Touches(op, id) then Finished(q', id) else id in q'.rows && q'.rows[id] == q.rows[id]
  {
    if op.ReplayOp? {
      SuccessesAppend(q.history, Replayed(op.id, op.ok), id);
    }
  }

  /** A message that has used its last retry is never pending again, in any continuation of the run, and stays marked as
      retrying exactly until it is replayed directly once more or archived. */
  lemma {:induction false} ExhaustedUntilTouched(q: Queue, id: string, ops: seq<Op>)
    requires id in q.rows && q.rows[id].status.Retrying? && q.rows[id].retryCount >= q.maxRetries
    requires q.rows[id].tool in q.handlers && forall i | 0 <= i < |ops| :: !Adds(ops[i], id)
    ensures var q' := RunFrom(q, ops);
            && (forall now :: !IsPending(q', id, now))
            && (id in q'.rows && q'.rows[id] == q.rows[id] <==> forall i | 0 <= i < |ops| :: !Touches(ops[i], id))
            && (Finished(q', id) || (id in q'.rows && q'.rows[id] == q.rows[id]))
            && q.handlers <= q'.handlers && q'.maxRetries == q.maxRetries
  {
    if ops == [] {
    } else {
      var n := |ops| - 1;
      ExhaustedUntilTouched(q, id, ops[..n]);
      var before := RunFrom(q, ops[..n]);
      if Finished(before, id) {
        FinishedStays(before, id, ops[n]);
      } else {
        ExhaustedStep(before, id, ops[n]);
      }
    }
  }

  /** The failed replay that uses the last retry leaves the message in exactly that state. */
  lemma {:induction false} LastFailureExhausts(q: Queue, id: string, now: nat)
    requires IsPending(q, id, now) && q.rows[id].tool in q.handlers
    ensures var q' := Replay(q, id, false, now).0;
            && q'.rows[id].status.Retrying? && q'.rows[id].nextRetryAt == now + Delay(q'.rows[id].retryCount)
            && (q'.rows[id].retryCount >= q'.maxRetries <==> q.rows[id].retryCount == q.maxRetries - 1)
  {
  }

  /** From the failure of its last retry on, a message is never pending again, in any continuation, and stays marked as
      retrying exactly until it is replayed directly once more or archived. */
  lemma {:induction false} LastFailureIsFinal(q: Queue, id: string, now: nat, ops: seq<Op>)
    requires IsPending(q, id, now) && q.rows[id].tool in q.handlers && q.rows[id].retryCount == q.maxRetries - 1
    requires forall i | 0 <= i < |ops| :: !Adds(ops[i], id)
    ensures var q' := Replay(q, id, false, now).0;
            var end := RunFrom(q', ops);
            && (forall later :: !IsPending(end, id, later))
            && (id in end.rows && end.rows[id] == q'.rows[id] <==> forall i | 0 <= i < |ops| :: !Touches(ops[i], id))
  {
    LastFailureExhausts(q, id, now);
    ExhaustedUntilTouched(Replay(q, id, false, now).0, id, ops);
  }

  /** For every positive maximum a run gets there: a message on its last retry whose handler raises. */
  lemma {:induction false} RunExhausts(maxRetries: nat, id: string, tool: string, at: nat)
    requires maxRetries > 0
    ensures var added := Run(maxRetries, [AddOp(id, tool, maxRetries - 1, at), HandlerOp(tool)]);
            var due := at + Delay(maxRetries - 1);
            var q := Run(maxRetries, [AddOp(id, tool, maxRetries - 1, at), HandlerOp(tool), ReplayOp(id, false, due)]);
            && IsPending(added, id, due) && q == Replay(added, id, false, due).0
            && q.rows[id].status.Retrying? && q.rows[id].retryCount == q.maxRetries && q.rows[id].tool in q.handlers
  {
    var add, handle := AddOp(id, tool, maxRetries - 1, at), HandlerOp(tool);
    var replay := ReplayOp(id, false, at + Delay(maxRetries - 1));
    assert [add][..0] == [] && [add, handle][..1] == [add] && [add, handle, replay][..2] == [add, handle];
    assert Run(maxRetries, [add]) == Add(Run(maxRetries, []), id, tool, maxRetries - 1, at);
    LastFailureExhausts(Run(maxRetries, [add, handle]), id, replay.now);
  }
}
