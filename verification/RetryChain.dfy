/** The life of one task from its first attempt to its end: attempts, retries, the terminal status, and the
    workflow edges the scheduler resolves along the way. */
module RetryChain {
  import opened StoreModel

  // ---------- Strategies ----------

  datatype Strategy =
    | LinearRetry(maxAttempts: int, delay: int)
    | ExponentialBackoff(maxAttempts: int)

  /** The delay before the next retry, or None to stop. `backoff` is the delay the exponential strategy draws. */
  function NextDelay(s: Strategy, attempt: int, backoff: int): Option<int>
  {
    if attempt >= s.maxAttempts then None
    else match s
      case LinearRetry(_, delay) => Some(delay)
      case ExponentialBackoff(_) => Some(backoff)
  }

  // ---------- One chain ----------

  /** What is fixed while a task is retried. */
  datatype Plan = Plan(id: string, typeName: string, maxRetries: int, strategy: Option<Strategy>)

  datatype Outcome = Success | Error | Timeout | Abort

  datatype Record = Record(id: string, status: TaskStatus)

  /** One task with the scheduler's counters, its history, and the edges it resolved so far. */
  datatype Chain = Chain(
    plan: Plan,
    status: TaskStatus,
    attempts: int,
    failures: int,
    successes: int,
    dead: int,
    history: seq<Record>,
    resolved: seq<Edge>)

  predicate Fails(outcome: Outcome)
  {
    outcome == Error || outcome == Timeout
  }

  predicate Ended(status: TaskStatus)
  {
    status in {Succeeded, Failed, Cancelled, Dead}
  }

  /** The status a failed attempt leads to: out of retries, another attempt, or no safety net. */
  function Judge(p: Plan, attempts: int): TaskStatus
  {
    if p.maxRetries > 0 && attempts >= p.maxRetries then Dead
    else if p.strategy.Some? && NextDelay(p.strategy.value, attempts, 0).Some? then Retrying
    else Failed
  }

  /** The edges resolved when the task reaches a status: children waiting for a failure take both Failed and Dead
      for one, and an unnamed task has no children. */
  function EdgesAt(p: Plan, status: TaskStatus): seq<Edge>
  {
    if p.typeName == "" || !Ended(status) then []
    else if status == Dead then [Edge(p.id, Failed), Edge(p.id, Dead)]
    else [Edge(p.id, status)]
  }

  /** What the scheduler does to the stored task itself at an end: a death saves and then completes it, a success
      or an abort completes it, a plain failure leaves it as it is. */
  function Closed(s: Store, body: Task, status: TaskStatus): Store
  {
    if body.typeName == "" then s
    else match status
      case Dead => Delete(Save(s, body), body.id)
      case Succeeded | Cancelled => Delete(s, body.id)
      case _ => s
  }

  /** After any end of a named task but a plain failure the store has no body, lease or processing entry of it; a plain
      failure leaves the store as it was, and so does an attempt that will be retried. Nothing else changes. */
  lemma ClosedForgets(s: Store, body: Task, status: TaskStatus)
    ensures var s' := Closed(s, body, status);
            if body.typeName != "" && status in {Succeeded, Cancelled, Dead} then
              && body.id !in s'.bodies && body.id !in s'.leases && body.id !in s'.processing
              && (forall id :: id in s.bodies && id != body.id ==> id in s'.bodies && s'.bodies[id] == s.bodies[id])
              && (forall id :: id in s.leases && id != body.id ==> id in s'.leases && s'.leases[id] == s.leases[id])
              && (forall id :: id in s.processing && id != body.id ==> id in s'.processing)
              && s'.queue == s.queue && s'.children == s.children && s'.counts == s.counts && s'.delayed == s.delayed
            else s' == s
  {
  }

  /** A strategy stops at its number of attempts; below it the linear one waits its fixed delay. */
  lemma NextDelayMeans(maxAttempts: int, delay: int, attempt: int, backoff: int)
    ensures NextDelay(LinearRetry(maxAttempts, delay), attempt, backoff)
         == if attempt < maxAttempts then Some(delay) else None
    ensures NextDelay(ExponentialBackoff(maxAttempts), attempt, backoff)
         == if attempt < maxAttempts then Some(backoff) else None
  {
  }

  /** The chain takes a status; a terminal one goes into the history and resolves its edges. */
  function Settle(c: Chain, status: TaskStatus): Chain
  {
    c.(status := status,
       history := c.history + if Ended(status) then [Record(c.plan.id, status)] else [],
       resolved := c.resolved + EdgesAt(c.plan, status))
  }

  function Fail(c: Chain): Chain
  {
    var status := Judge(c.plan, c.attempts);
    Settle(c, status).(failures := c.failures + 1, dead := if status == Dead then c.dead + 1 else c.dead)
  }

  /** The end of one attempt. */
  function Finish(c: Chain, outcome: Outcome): Chain
  {
    match outcome
    case Success => Settle(c, Succeeded).(successes := c.successes + 1)
    case Abort => Settle(c, Cancelled)
    case _ => Fail(c)
  }

  /** The parked retry comes due and is submitted. */
  function Refire(c: Chain): Chain
  {
    c.(status := Queued, attempts := c.attempts + 1)
  }

  /** Resubmission is refused unless the task is Dead or Failed. */
  predicate Resubmittable(status: TaskStatus)
  {
    status == Dead || status == Failed
  }

  function Resubmitted(c: Chain): Chain
  {
    if !Resubmittable(c.status) then c
    else c.(status := Queued, attempts := 0, dead := if c.status == Dead then c.dead - 1 else c.dead)
  }

  /** Exactly Dead and Failed tasks are resubmitted: they are queued for attempt 0 again, and a dead one leaves the dead
      counter. */
  lemma ResubmitMeans(c: Chain)
    ensures c.status in {Dead, Failed} ==>
              Resubmitted(c) == c.(status := Queued, attempts := 0,
                                   dead := c.dead - (if c.status == Dead then 1 else 0))
    ensures c.status !in {Dead, Failed} ==> Resubmitted(c) == c
  {
  }

  /** Run a queued or retrying task once per outcome until it ends. */
  function Play(c: Chain, outcomes: seq<Outcome>): Chain
    decreases |outcomes|
  {
    if outcomes == [] || Ended(c.status) then c
    else Play(Finish(if c.status == Retrying then Refire(c) else c, outcomes[0]), outcomes[1..])
  }

  // ---------- The exact budget ----------

  function Max(a: int, b: int): int
  {
    if a >= b then a else b
  }

  /** The attempt number at which the strategy stops, starting from attempt a. */
  function StrategyStop(p: Plan, a: int): int
  {
    if p.strategy.Some? then Max(a, p.strategy.value.maxAttempts) else a
  }

  /** Whether a task that always fails dies of its cap rather than of its strategy. */
  predicate CapStrikes(p: Plan, a: int)
  {
    0 < p.maxRetries <= StrategyStop(p, a)
  }

  function LastAttempt(p: Plan, a: int): (last: int)
    ensures last >= a
  {
    if CapStrikes(p, a) then Max(a, p.maxRetries) else StrategyStop(p, a)
  }

  function Fate(p: Plan, a: int): TaskStatus
  {
    if CapStrikes(p, a) then Dead else Failed
  }

  /** How often an always-failing task runs, starting from attempt a. */
  function Budget(p: Plan, a: int): nat
  {
    LastAttempt(p, a) - a + 1
  }

  lemma JudgeByBudget(p: Plan, a: int)
    ensures Judge(p, a) == if LastAttempt(p, a) > a then Retrying else Fate(p, a)
    ensures LastAttempt(p, a) > a ==> LastAttempt(p, a + 1) == LastAttempt(p, a) && Fate(p, a + 1) == Fate(p, a)
  {
  }

  ghost predicate AllFail(outcomes: seq<Outcome>)
  {
    forall i :: 0 <= i < |outcomes| ==> Fails(outcomes[i])
  }

  /** Before its budget is used up, a failing task only counts: nothing goes into the history, no edge is
      resolved, and the next retry is pending. */
  lemma {:induction false} PendingWhileBudgetLasts(c: Chain, outcomes: seq<Outcome>)
    requires c.status == Queued && AllFail(outcomes) && 0 < |outcomes| < Budget(c.plan, c.attempts)
    ensures Play(c, outcomes)
         == c.(status := Retrying, attempts := c.attempts + |outcomes| - 1, failures := c.failures + |outcomes|)
    decreases |outcomes|
  {
    JudgeByBudget(c.plan, c.attempts);
    var next := Finish(c, outcomes[0]);
    assert next == c.(status := Retrying, failures := c.failures + 1);
    if |outcomes| > 1 {
      PendingWhileBudgetLasts(Refire(next), outcomes[1..]);
      assert Play(next, outcomes[1..]) == Play(Refire(next), outcomes[1..]);
    }
  }

  /** An always-failing task runs exactly its budget, whatever mix of errors and timeouts it meets and however
      long one would let it run: it ends Dead or Failed, with one record in the history. */
  lemma {:induction false} ExactBudget(c: Chain, outcomes: seq<Outcome>)
    requires c.status == Queued && AllFail(outcomes) && |outcomes| >= Budget(c.plan, c.attempts)
    ensures var fate, spent := Fate(c.plan, c.attempts), Budget(c.plan, c.attempts);
            Play(c, outcomes) == c.(
              status := fate,
              attempts := c.attempts + spent - 1,
              failures := c.failures + spent,
              dead := c.dead + (if fate == Dead then 1 else 0),
              history := c.history + [Record(c.plan.id, fate)],
              resolved := c.resolved + EdgesAt(c.plan, fate))
    decreases |outcomes|
  {
    JudgeByBudget(c.plan, c.attempts);
    var next := Finish(c, outcomes[0]);
    if LastAttempt(c.plan, c.attempts) > c.attempts {
      assert next == c.(status := Retrying, failures := c.failures + 1);
      ExactBudget(Refire(next), outcomes[1..]);
      assert |outcomes[1..]| > 0;
      assert Play(next, outcomes[1..]) == Play(Refire(next), outcomes[1..]);
    } else {
      assert Play(next, outcomes[1..]) == next;
    }
  }

  /** The same in the terms a user configures: a cap of m and a strategy allowing n retries, from attempt 0. */
  lemma BudgetInTermsOfCapAndStrategy(p: Plan, n: nat)
    requires n == if p.strategy.Some? then Max(0, p.strategy.value.maxAttempts) else 0
    ensures 0 < p.maxRetries <= n ==> Budget(p, 0) == p.maxRetries + 1 && Fate(p, 0) == Dead
    ensures p.maxRetries <= 0 || n < p.maxRetries ==> Budget(p, 0) == n + 1 && Fate(p, 0) == Failed
  {
  }

  /** A chain that meets a success or an abort within its budget ends there, and then resolves that outcome's edge
      only: never the one for a failure. */
  lemma {:induction false} EndsAtFirstNonFailure(c: Chain, failing: seq<Outcome>, end: Outcome, rest: seq<Outcome>)
    requires c.status == Queued && AllFail(failing) && |failing| < Budget(c.plan, c.attempts) && !Fails(end)
    ensures var status := if end == Success then Succeeded else Cancelled;
            Play(c, failing + [end] + rest) == c.(
              status := status,
              attempts := c.attempts + |failing|,
              failures := c.failures + |failing|,
              successes := c.successes + (if end == Success then 1 else 0),
              history := c.history + [Record(c.plan.id, status)],
              resolved := c.resolved + EdgesAt(c.plan, status))
    decreases |failing|
  {
    var outcomes := failing + [end] + rest;
    var next := Finish(c, outcomes[0]);
    if failing == [] {
      assert outcomes[0] == end;
      assert Play(next, outcomes[1..]) == next;
    } else {
      JudgeByBudget(c.plan, c.attempts);
      assert next == c.(status := Retrying, failures := c.failures + 1);
      assert outcomes[1..] == failing[1..] + [end] + rest;
      EndsAtFirstNonFailure(Refire(next), failing[1..], end, rest);
      assert Play(next, outcomes[1..]) == Play(Refire(next), outcomes[1..]);
    }
  }

  /** Resubmitting a Dead or Failed task gives it the whole budget of attempt 0 again. */
  lemma ResubmitRestoresBudget(c: Chain, outcomes: seq<Outcome>)
    requires Resubmittable(c.status) && AllFail(outcomes) && |outcomes| >= Budget(c.plan, 0)
    ensures var again, fate := Play(Resubmitted(c), outcomes), Fate(c.plan, 0);
            && again.status == fate
            && again.failures == c.failures + Budget(c.plan, 0)
            && again.dead - c.dead == (if fate == Dead then 1 else 0) - (if c.status == Dead then 1 else 0)
            && again.history == c.history + [Record(c.plan.id, fate)]
  {
    ExactBudget(Resubmitted(c), outcomes);
  }

  /** A task rebuilt from the store carries neither cap nor strategy, so its first failure is final, however many
      attempts its plan would have allowed. */
  function RebuiltPlan(t: Task): Plan
  {
    Plan(t.id, t.typeName, 0, None)
  }

  lemma RebuiltNeverRetries(t: Task)
    ensures Budget(RebuiltPlan(t), t.attempts) == 1 && Fate(RebuiltPlan(t), t.attempts) == Failed
  {
  }

  /** For example, a cap of three with five retries allowed is four runs ending Dead; rebuilt it is one run, ending
      Failed. */
  lemma RebuildLosesRetries(t: Task)
    requires t.attempts == 0
    ensures var p := Plan(t.id, t.typeName, 3, Some(LinearRetry(5, 0)));
            && Budget(p, 0) == 4 && Fate(p, 0) == Dead
            && Budget(RebuiltPlan(t), 0) == 1 && Fate(RebuiltPlan(t), 0) == Failed
  {
  }

  /** A rebuild keeps the number of runs left and the end to come exactly when the next failure is final anyway, as a
      plain Failed. */
  lemma RebuildKeepsBudgetIff(p: Plan, t: Task)
    requires p.id == t.id && p.typeName == t.typeName
    ensures Budget(RebuiltPlan(t), t.attempts) == Budget(p, t.attempts)
            && Fate(RebuiltPlan(t), t.attempts) == Fate(p, t.attempts)
       <==> Judge(p, t.attempts) == Failed
  {
    JudgeByBudget(p, t.attempts);
    RebuiltNeverRetries(t);
  }

  // ---------- Whole lives ----------

  datatype Move = Attempt(outcome: Outcome) | Fire | Resubmit

  /** A move that does not apply changes nothing. */
  function Do(c: Chain, m: Move): Chain
  {
    match m
    case Attempt(outcome) => if c.status == Queued then Finish(c, outcome) else c
    case Fire => if c.status == Retrying then Refire(c) else c
    case Resubmit => Resubmitted(c)
  }

  function Live(c: Chain, moves: seq<Move>): Chain
    decreases |moves|
  {
    if moves == [] then c else Live(Do(c, moves[0]), moves[1..])
  }

  /** How many of the moves put the task back to attempt 0. */
  function Resubmits(c: Chain, moves: seq<Move>): nat
    decreases |moves|
  {
    if moves == [] then 0
    else (if moves[0].Resubmit? && Resubmittable(c.status) then 1 else 0) + Resubmits(Do(c, moves[0]), moves[1..])
  }

  function EdgesOfRecords(p: Plan, records: seq<Record>): seq<Edge>
  {
    if records == [] then []
    else EdgesOfRecords(p, records[..|records| - 1]) + EdgesAt(p, records[|records| - 1].status)
  }

  /** `records` are what a life added to the history after `resubmits` resubmissions of a task that began with
      chain `first`. */
  ghost predicate LifeSoFar(first: Chain, c: Chain, records: seq<Record>, resubmits: nat)
  {
    && c.plan == first.plan
    && c.status in {Queued, Retrying, Succeeded, Failed, Cancelled, Dead}
    && c.history == first.history + records
    && c.resolved == first.resolved + EdgesOfRecords(c.plan, records)
    && |records| == resubmits + (if Ended(c.status) then 1 else 0)
    && (forall i :: 0 <= i < |records| ==> Ended(records[i].status) && records[i].id == c.plan.id)
    && (forall i :: 0 <= i < |records| - 1 ==> Resubmittable(records[i].status))
    && (Ended(c.status) ==> records[|records| - 1].status == c.status)
    && (!Ended(c.status) && records != [] ==> Resubmittable(records[|records| - 1].status))
    && c.dead == first.dead + (if c.status == Dead then 1 else 0)
  }

  lemma EdgesOfMoreRecords(p: Plan, records: seq<Record>, r: Record)
    ensures EdgesOfRecords(p, records + [r]) == EdgesOfRecords(p, records) + EdgesAt(p, r.status)
  {
    assert (records + [r])[..|records|] == records;
  }

  /** Reaching an end adds the record of that end. */
  lemma EndKeepsLife(first: Chain, c: Chain, c': Chain, records: seq<Record>, resubmits: nat)
    requires LifeSoFar(first, c, records, resubmits) && c.status == Queued && Ended(c'.status)
    requires var settled := Settle(c, c'.status);
             && c' == settled.(failures := c'.failures, successes := c'.successes, dead := c'.dead)
             && c'.dead == (if c'.status == Dead then c.dead + 1 else c.dead)
    ensures LifeSoFar(first, c', records + [Record(c.plan.id, c'.status)], resubmits)
  {
    EdgesOfMoreRecords(c.plan, records, Record(c.plan.id, c'.status));
    hide EdgesOfRecords, EdgesAt;
  }

  /** Moving on without an end adds no record. */
  lemma PauseKeepsLife(first: Chain, c: Chain, c': Chain, records: seq<Record>, resubmits: nat)
    requires LifeSoFar(first, c, records, resubmits)
    requires c.status in {Queued, Retrying} && c'.status in {Queued, Retrying}
    requires c' == c.(status := c'.status, attempts := c'.attempts, failures := c'.failures)
    ensures LifeSoFar(first, c', records, resubmits)
  {
    hide EdgesOfRecords;
  }

  lemma ResubmitKeepsLife(first: Chain, c: Chain, records: seq<Record>, resubmits: nat)
    requires LifeSoFar(first, c, records, resubmits) && Resubmittable(c.status)
    ensures LifeSoFar(first, Resubmitted(c), records, resubmits + 1)
  {
    hide EdgesOfRecords;
  }

  lemma DoKeepsLife(first: Chain, c: Chain, records: seq<Record>, resubmits: nat, m: Move) returns (more: seq<Record>)
    requires LifeSoFar(first, c, records, resubmits)
    ensures LifeSoFar(first, Do(c, m), more, resubmits + if m.Resubmit? && Resubmittable(c.status) then 1 else 0)
    ensures records <= more
  {
    hide LifeSoFar, EdgesAt;
    var c' := Do(c, m);
    more := records;
    if m.Attempt? && c.status == Queued {
      if Ended(c'.status) {
        EndKeepsLife(first, c, c', records, resubmits);
        more := records + [Record(c.plan.id, c'.status)];
      } else {
        RetryingSettlesNothing(c);
        PauseKeepsLife(first, c, c', records, resubmits);
      }
    } else if m.Fire? && c.status == Retrying {
      PauseKeepsLife(first, c, c', records, resubmits);
    } else if m.Resubmit? && Resubmittable(c.status) {
      ResubmitKeepsLife(first, c, records, resubmits);
    }
  }

  lemma RetryingSettlesNothing(c: Chain)
    ensures Settle(c, Retrying) == c.(status := Retrying)
  {
  }

  lemma {:induction false} LifeGoesOn(first: Chain, c: Chain, records: seq<Record>, resubmits: nat, moves: seq<Move>)
    returns (more: seq<Record>)
    requires LifeSoFar(first, c, records, resubmits)
    ensures LifeSoFar(first, Live(c, moves), more, resubmits + Resubmits(c, moves))
    ensures records <= more
    decreases |moves|
  {
    hide LifeSoFar, Do, Resubmittable;
    more := records;
    if moves != [] {
      more := DoKeepsLife(first, c, records, resubmits, moves[0]);
      var r := if moves[0].Resubmit? && Resubmittable(c.status) then 1 else 0;
      more := LifeGoesOn(first, Do(c, moves[0]), more, resubmits + r, moves[1..]);
      assert Resubmits(c, moves) == r + Resubmits(Do(c, moves[0]), moves[1..]);
    }
  }

  /** In every life: one history record per chain, the edges resolved are those of the recorded ends and of
      nothing else, and the dead counter counts the task exactly while it is Dead. */
  lemma EveryLife(first: Chain, moves: seq<Move>) returns (records: seq<Record>)
    requires first.status == Queued
    ensures LifeSoFar(first, Live(first, moves), records, Resubmits(first, moves))
  {
    records := LifeGoesOn(first, first, [], 0, moves);
  }

  /** The failures counted so far: at most a budget per chain, so an always-failing task stops by itself. */
  ghost predicate FailuresBounded(first: Chain, c: Chain, resubmits: nat)
  {
    && c.plan == first.plan
    && c.status in {Queued, Retrying, Succeeded, Failed, Cancelled, Dead}
    && 0 <= c.attempts
    && LastAttempt(c.plan, c.attempts) == LastAttempt(c.plan, 0)
    && (c.status == Retrying ==> c.attempts < LastAttempt(c.plan, 0))
    && c.failures - first.failures
       <= resubmits * Budget(c.plan, 0) + c.attempts + (if c.status in {Retrying, Failed, Dead} then 1 else 0)
  }

  lemma DoKeepsBound(first: Chain, c: Chain, resubmits: nat, m: Move)
    requires FailuresBounded(first, c, resubmits)
    ensures FailuresBounded(first, Do(c, m), resubmits + if m.Resubmit? && Resubmittable(c.status) then 1 else 0)
  {
    JudgeByBudget(c.plan, c.attempts);
    BudgetLeft(c);
    assert (resubmits + 1) * Budget(c.plan, 0) == resubmits * Budget(c.plan, 0) + Budget(c.plan, 0);
    hide LastAttempt, Fate, Budget, Judge;
  }

  lemma BudgetLeft(c: Chain)
    requires LastAttempt(c.plan, c.attempts) == LastAttempt(c.plan, 0)
    ensures c.attempts + 1 <= Budget(c.plan, 0)
  {
  }

  lemma {:induction false} RetriesBounded(first: Chain, c: Chain, resubmits: nat, moves: seq<Move>)
    requires FailuresBounded(first, c, resubmits)
    ensures Live(c, moves).failures - first.failures <= (resubmits + Resubmits(c, moves) + 1) * Budget(first.plan, 0)
    decreases |moves|
  {
    if moves == [] {
      BudgetLeft(c);
      assert (resubmits + 1) * Budget(c.plan, 0) == resubmits * Budget(c.plan, 0) + Budget(c.plan, 0);
    } else {
      DoKeepsBound(first, c, resubmits, moves[0]);
      hide FailuresBounded, Do, Budget;
      var r := if moves[0].Resubmit? && Resubmittable(c.status) then 1 else 0;
      RetriesBounded(first, Do(c, moves[0]), resubmits + r, moves[1..]);
      assert Resubmits(c, moves) == r + Resubmits(Do(c, moves[0]), moves[1..]);
    }
  }

  /** In every life the task fails at most its budget once per chain. */
  lemma EveryLifeBounded(first: Chain, moves: seq<Move>)
    requires first.status == Queued && first.attempts == 0
    ensures Live(first, moves).failures - first.failures <= (Resubmits(first, moves) + 1) * Budget(first.plan, 0)
  {
    RetriesBounded(first, first, 0, moves);
  }
}
