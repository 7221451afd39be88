/** The scheduler's side of a task's life, as an object: submitting, running, failing, releasing children and
    resubmitting. Each operation is proved to take the step of the same kind of `RetryChain` for the task it is
    about, and its effect on the shared store is stated in the steps of `StoreModel`. */
module Schedulers {
  import opened StoreModel
  import opened RetryChain
  import opened RedisStorages
  import opened StoreInvariants
  import opened StoreLaws

  datatype SubmitError = SchedulerStopped | QueueFull | JobAlreadyRunning | NoSuchJob

  /** How the worker's wait ends: the job returned, or its context was done first. */
  datatype WorkerResult = Returned(failed: bool) | ContextDone(cancelled: bool)

  class Job {
    const id: string
    const key: string
    const typeName: string
    const priority: int
    const payload: string
    const maxRetries: int
    const dependsOn: seq<string>
    const dependencies: seq<Edge>
    /** Whether the job function is known. */
    var linked: bool
    var strategy: Option<Strategy>
    var attempts: int
    var status: TaskStatus

    /** The stored form of a task with its dependencies, its job still to be looked up when `linked` is false. */
    constructor (p: Task, linked: bool, strategy: Option<Strategy>)
      ensures Stored() == p
      ensures this.linked == linked && this.strategy == strategy && status == Queued
    {
      id, key, typeName, priority, payload := p.id, p.key, p.typeName, p.priority, p.payload;
      maxRetries, dependsOn, dependencies := p.maxRetries, p.dependsOn, p.dependencies;
      attempts, status := p.attempts, Queued;
      this.linked, this.strategy := linked, strategy;
    }

    function Stored(): Task
      reads this`attempts
    {
      Task(id, key, typeName, priority, payload, attempts, maxRetries, dependsOn, dependencies)
    }

    function PlanOf(): Plan
      reads this`strategy
    {
      Plan(id, typeName, maxRetries, strategy)
    }
  }

  /** A released child as it is submitted: it has nothing left to wait for. */
  function Freed(p: Task): Task
  {
    p.(dependsOn := [], dependencies := [])
  }

  /** A retry is a new task under the same id, without the key. */
  function RetryOf(p: Task): Task
  {
    Freed(p).(key := "", attempts := p.attempts + 1)
  }

  predicate Waits(p: Task)
  {
    p.typeName != "" && (p.dependsOn != [] || p.dependencies != [])
  }

  /** The store after a task was accepted: only a named task is stored, and a waiting one is not queued. */
  function Submitted(s: Store, p: Task): Store
  {
    if p.typeName == "" then s
    else if Waits(p) then SaveWaiting(s, p)
    else Enqueue(Save(s, p), p)
  }

  function SubmittedAll(s: Store, ps: seq<Task>): Store
  {
    if ps == [] then s else Submitted(SubmittedAll(s, ps[..|ps| - 1]), ps[|ps| - 1])
  }

  // ---------- Which submissions are accepted ----------

  /** What decides whether a submission is refused: the ids tracked and the keys reserved. */
  datatype Room = Room(open: bool, limit: int, ids: set<string>, keys: set<string>)

  predicate Fits(r: Room, p: Task)
  {
    r.open && |r.ids| < r.limit && (p.key == "" || p.key !in r.keys)
  }

  function Enter(r: Room, p: Task): Room
  {
    r.(ids := r.ids + {p.id}, keys := if p.key == "" then r.keys else r.keys + {p.key})
  }

  datatype Admission = Admission(room: Room, accepted: seq<Task>)

  /** Submit tasks in order: those of a registered type that are not refused are accepted. */
  function Admit(r: Room, ready: seq<Task>, registry: set<string>): Admission
  {
    if ready == [] then Admission(r, [])
    else
      var before, last := Admit(r, ready[..|ready| - 1], registry), ready[|ready| - 1];
      if last.typeName in registry && Fits(before.room, last) then
        Admission(Enter(before.room, last), before.accepted + [Freed(last)])
      else before
  }

  lemma AdmitOneMore(r: Room, done: seq<Task>, p: Task, registry: set<string>)
    ensures Admit(r, done + [p], registry)
         == var before := Admit(r, done, registry);
            if p.typeName in registry && Fits(before.room, p) then
              Admission(Enter(before.room, p), before.accepted + [Freed(p)])
            else before
  {
    assert (done + [p])[..|done|] == done;
  }

  /** Child n is of a known type, and its key is neither reserved nor that of an earlier child of a known type. */
  predicate Runs(keys: set<string>, ready: seq<Task>, n: nat, registry: set<string>)
    requires n < |ready|
  {
    var key := ready[n].key;
    && ready[n].typeName in registry
    && (key == "" ||
        (key !in keys && forall i :: 0 <= i < n && ready[i].typeName in registry ==> ready[i].key != key))
  }

  /** The children that run when there is room for all, as they are submitted. */
  function Runnable(keys: set<string>, ready: seq<Task>, registry: set<string>): seq<Task>
  {
    if ready == [] then []
    else
      var n := |ready| - 1;
      Runnable(keys, ready[..n], registry) + if Runs(keys, ready, n, registry) then [Freed(ready[n])] else []
  }

  /** With room for all of them exactly those are accepted that are of a known type and whose key is neither reserved
      nor that of an earlier one, and their keys are the ones reserved. */
  lemma {:induction false} RoomForAll(r: Room, ready: seq<Task>, registry: set<string>)
    requires r.open && |r.ids| + |ready| <= r.limit
    ensures Admit(r, ready, registry).accepted == Runnable(r.keys, ready, registry)
    ensures var after := Admit(r, ready, registry).room;
            && after.open && after.limit == r.limit && |after.ids| <= |r.ids| + |ready|
            && forall key :: key in after.keys <==>
                 key in r.keys || (key != "" && exists i :: 0 <= i < |ready| && ready[i].typeName in registry
                                                            && ready[i].key == key)
  {
    if ready != [] {
      var n := |ready| - 1;
      RoomForAll(r, ready[..n], registry);
      assert forall i :: 0 <= i < n ==> ready[..n][i] == ready[i];
    }
  }

  /** Once stopped or full, the scheduler accepts none of them. */
  lemma {:induction false} NoRoomForAny(r: Room, ready: seq<Task>, registry: set<string>)
    requires !r.open || |r.ids| >= r.limit
    ensures Admit(r, ready, registry) == Admission(r, [])
  {
    if ready != [] {
      NoRoomForAny(r, ready[..|ready| - 1], registry);
    }
  }

  // ---------- Resolving edges one after the other ----------

  /** The shared store, and what the scheduler goes by when tasks are submitted. */
  datatype Desk = Desk(store: Store, room: Room)

  /** ids lists the released children of the edge, each once: the order in which they are submitted is open. */
  ghost predicate Orders(s: Store, edge: Edge, ids: seq<string>)
  {
    && (set id | id in ids) == Released(s, edge)
    && forall i, j :: 0 <= i < j < |ids| ==> ids[i] != ids[j]
  }

  /** The children accepted when an edge is resolved. */
  function FreedAt(d: Desk, ids: seq<string>, registry: set<string>): seq<Task>
  {
    Admit(d.room, BodiesOf(d.store.bodies, ids), registry).accepted
  }

  function ResolveAt(d: Desk, edge: Edge, ids: seq<string>, registry: set<string>): Desk
  {
    Desk(SubmittedAll(Resolve(d.store, edge), FreedAt(d, ids, registry)),
         Admit(d.room, BodiesOf(d.store.bodies, ids), registry).room)
  }

  /** The desk after resolving the edges in order and submitting after each what it released. */
  function ResolveEach(d: Desk, edges: seq<Edge>, orders: seq<seq<string>>, registry: set<string>): Desk
    requires |edges| == |orders|
  {
    if edges == [] then d
    else
      var n := |edges| - 1;
      ResolveAt(ResolveEach(d, edges[..n], orders[..n], registry), edges[n], orders[n], registry)
  }

  ghost predicate OrdersEach(d: Desk, edges: seq<Edge>, orders: seq<seq<string>>, registry: set<string>)
  {
    && |edges| == |orders|
    && (edges == [] ||
        var n := |edges| - 1;
        && OrdersEach(d, edges[..n], orders[..n], registry)
        && Orders(ResolveEach(d, edges[..n], orders[..n], registry).store, edges[n], orders[n]))
  }

  function FreedEach(d: Desk, edges: seq<Edge>, orders: seq<seq<string>>, registry: set<string>): seq<Task>
    requires |edges| == |orders|
  {
    if edges == [] then []
    else
      var n := |edges| - 1;
      FreedEach(d, edges[..n], orders[..n], registry)
      + FreedAt(ResolveEach(d, edges[..n], orders[..n], registry), orders[n], registry)
  }

  lemma ResolveOneMore(d: Desk, edges: seq<Edge>, orders: seq<seq<string>>, registry: set<string>,
                       edge: Edge, ids: seq<string>)
    requires OrdersEach(d, edges, orders, registry)
    requires Orders(ResolveEach(d, edges, orders, registry).store, edge, ids)
    ensures OrdersEach(d, edges + [edge], orders + [ids], registry)
    ensures ResolveEach(d, edges + [edge], orders + [ids], registry)
         == ResolveAt(ResolveEach(d, edges, orders, registry), edge, ids, registry)
    ensures FreedEach(d, edges + [edge], orders + [ids], registry)
         == FreedEach(d, edges, orders, registry) + FreedAt(ResolveEach(d, edges, orders, registry), ids, registry)
  {
    assert (edges + [edge])[..|edges|] == edges && (orders + [ids])[..|edges|] == orders;
    hide ResolveAt, FreedAt, Orders;
  }

  /** The desk after a task reached a status: its stored form settled, its edges resolved. */
  function EndDesk(d: Desk, body: Task, p: Plan, status: TaskStatus, orders: seq<seq<string>>,
                   registry: set<string>): Desk
    requires |orders| == |EdgesAt(p, status)|
  {
    ResolveEach(d.(store := Closed(d.store, Freed(body), status)), EdgesAt(p, status), orders, registry)
  }

  /** The key of a finished task is free again. */
  function Unkeyed(d: Desk, key: string): Desk
  {
    d.(room := d.room.(keys := if key == "" then d.room.keys else d.room.keys - {key}))
  }

  /** A task that can no longer be retried or resubmitted is not tracked any more. */
  function Evicted(d: Desk, id: string, status: TaskStatus): Desk
  {
    if status in {Dead, Failed, Retrying} then d else d.(room := d.room.(ids := d.room.ids - {id}))
  }

  /** `orders` fits that end, and the queue grew from `line` by the children freed. */
  ghost predicate EndsWell(d: Desk, body: Task, p: Plan, status: TaskStatus, orders: seq<seq<string>>,
                           registry: set<string>, line: seq<Job>, queue: seq<Job>)
    reads queue`attempts
  {
    var closed, edges := d.(store := Closed(d.store, Freed(body), status)), EdgesAt(p, status);
    && OrdersEach(closed, edges, orders, registry)
    && Queues(line, queue, FreedEach(closed, edges, orders, registry))
  }

  lemma SubmittedNone(s: Store)
    ensures SubmittedAll(s, []) == s
  {
  }

  lemma SubmittedOneMore(s: Store, ps: seq<Task>, p: Task)
    ensures SubmittedAll(s, ps + [p]) == Submitted(SubmittedAll(s, ps), p)
  {
    assert (ps + [p])[..|ps|] == ps;
  }

  /** `after` is `before` followed by queued tasks that are stored as `ps`. */
  ghost predicate Queues(before: seq<Job>, after: seq<Job>, ps: seq<Task>)
    reads after`attempts
  {
    && |after| == |before| + |ps| && before <= after
    && forall i :: 0 <= i < |ps| ==> after[|before| + i].Stored() == ps[i]
  }

  lemma QueuesNone(queue: seq<Job>)
    ensures Queues(queue, queue, [])
  {
  }

  lemma QueuesOneMore(before: seq<Job>, after: seq<Job>, ps: seq<Task>, job: Job)
    requires Queues(before, after, ps)
    ensures Queues(before, after + [job], ps + [job.Stored()])
  {
  }

  lemma QueuesMore(before: seq<Job>, middle: seq<Job>, ps: seq<Task>, more: seq<Task>, after: seq<Job>)
    requires Queues(before, middle, ps) && Queues(middle, after, more)
    ensures Queues(before, after, ps + more)
  {
    forall i | 0 <= i < |ps + more| ensures after[|before| + i].Stored() == (ps + more)[i] {
      if i < |ps| {
        assert after[|before| + i] == middle[|before| + i];
      } else {
        assert after[|before| + i] == after[|middle| + (i - |ps|)];
      }
    }
  }

  /** Whatever happened to tracked tasks and reserved keys since the queue was `line` is the doing of tasks queued
      since: a tracked task is still tracked unless one of those took its id, and a new key is of one of those. */
  ghost predicate Newcomers(tasks: map<string, Job>, tasks': map<string, Job>, keys: set<string>, keys': set<string>,
                            line: seq<Job>, queue: seq<Job>)
  {
    && line <= queue
    && (forall id :: id in tasks ==> id in tasks' && (tasks'[id] == tasks[id] || tasks'[id] in queue[|line|..]))
    && (forall k :: k in keys' ==> k in keys || exists j :: |line| <= j < |queue| && queue[j].key == k)
  }

  lemma NoNewcomers(tasks: map<string, Job>, keys: set<string>, queue: seq<Job>)
    ensures Newcomers(tasks, tasks, keys, keys, queue, queue)
  {
  }

  lemma MoreNewcomers(t0: map<string, Job>, t1: map<string, Job>, t2: map<string, Job>,
                      k0: set<string>, k1: set<string>, k2: set<string>, q0: seq<Job>, q1: seq<Job>, q2: seq<Job>)
    requires Newcomers(t0, t1, k0, k1, q0, q1) && Newcomers(t1, t2, k1, k2, q1, q2)
    ensures Newcomers(t0, t2, k0, k2, q0, q2)
  {
    forall id | id in t0 ensures id in t2 && (t2[id] == t0[id] || t2[id] in q2[|q0|..]) {
      if t2[id] != t0[id] {
        var job := t2[id];
        if job in q2[|q1|..] {
          var j :| 0 <= j < |q2[|q1|..]| && q2[|q1|..][j] == job;
          assert q2[|q0|..][|q1| - |q0| + j] == job;
        } else {
          var j :| 0 <= j < |q1[|q0|..]| && q1[|q0|..][j] == job;
          assert q2[|q0|..][j] == job;
        }
      }
    }
    forall k | k in k2 && k !in k0 ensures exists j :: |q0| <= j < |q2| && q2[j].key == k {
      if k in k1 {
        var j :| |q0| <= j < |q1| && q1[j].key == k;
        assert q2[j].key == k;
      }
    }
  }

  lemma IdAndKey(tasks: map<string, Job>, tasks': map<string, Job>, keys: set<string>, keys': set<string>,
                 line: seq<Job>, queue: seq<Job>, id: string, key: string)
    requires Newcomers(tasks, tasks', keys, keys', line, queue)
    ensures line <= queue
    ensures id in tasks ==> id in tasks' && (tasks'[id] == tasks[id] || tasks'[id] in queue[|line|..])
    ensures key in keys' && key !in keys ==> exists j :: |line| <= j < |queue| && queue[j].key == key
  {
  }

  lemma OneNewcomer(tasks: map<string, Job>, keys: set<string>, queue: seq<Job>, job: Job)
    ensures Newcomers(tasks, tasks[job.id := job], keys, if job.key == "" then keys else keys + {job.key},
                      queue, queue + [job])
  {
    assert (queue + [job])[|queue|] == job && (queue + [job])[|queue|..] == [job];
  }

  /** The job does what the stored task says, under its id and key, and waits for nothing. */
  ghost predicate SameWork(job: Job, p: Task)
    reads job`attempts
  {
    && job.id == p.id && job.key == p.key && job.typeName == p.typeName
    && job.priority == p.priority && job.payload == p.payload
    && job.attempts == p.attempts && job.maxRetries == p.maxRetries
    && job.dependsOn == [] && job.dependencies == []
  }

  lemma {:induction false} AcceptedComeFrom(r: Room, ready: seq<Task>, registry: set<string>, p: Task)
    returns (q: Task)
    requires p in Admit(r, ready, registry).accepted
    ensures q in ready && q.typeName in registry && p == Freed(q)
  {
    var n := |ready| - 1;
    if p in Admit(r, ready[..n], registry).accepted {
      q := AcceptedComeFrom(r, ready[..n], registry, p);
    } else {
      q := ready[n];
    }
  }

  lemma {:induction false} BodiesOfComeFrom(bodies: map<string, Task>, ids: seq<string>, p: Task) returns (id: string)
    requires p in BodiesOf(bodies, ids)
    ensures id in ids && id in bodies && bodies[id] == p
  {
    var n := |ids| - 1;
    if p in BodiesOf(bodies, ids[..n]) {
      id := BodiesOfComeFrom(bodies, ids[..n], p);
    } else {
      id := ids[n];
    }
  }

  /** The job is a child the edge releases, of a known type, as it is stored. */
  ghost predicate IsReleased(job: Job, s: Store, edge: Edge, registry: set<string>)
    reads job`attempts
  {
    exists id :: id in Released(s, edge) && id in s.bodies && SameWork(job, s.bodies[id]) && job.typeName in registry
  }

  /** Each job queued when an edge was resolved is a released child. */
  lemma FreedAreChildren(d: Desk, edge: Edge, ids: seq<string>, registry: set<string>, line: seq<Job>, queue: seq<Job>)
    requires Orders(d.store, edge, ids) && Queues(line, queue, FreedAt(d, ids, registry))
    ensures forall j :: |line| <= j < |queue| ==> IsReleased(queue[j], d.store, edge, registry)
  {
    var ps := FreedAt(d, ids, registry);
    forall j | |line| <= j < |queue| ensures IsReleased(queue[j], d.store, edge, registry) {
      var p := ps[j - |line|];
      assert queue[|line| + (j - |line|)].Stored() == p;
      var q := AcceptedComeFrom(d.room, BodiesOf(d.store.bodies, ids), registry, p);
      var id := BodiesOfComeFrom(d.store.bodies, ids, q);
      assert id in (set x | x in ids);
      assert SameWork(queue[j], d.store.bodies[id]);
    }
  }

  /** What a submission means for the store: an unnamed task is not stored; a task that waits is saved, and waits for
      what it lists and counts it; any other is saved and queued with its priority. */
  lemma SubmittedMeans(s: Store, p: Task)
    ensures p.typeName == "" ==> Submitted(s, p) == s
    ensures p.typeName != "" ==> p.id in Submitted(s, p).bodies && Submitted(s, p).bodies[p.id] == p
    ensures p.typeName != "" && (p.dependsOn != [] || p.dependencies != []) ==>
              && Submitted(s, p).queue == s.queue
              && EdgesOf(Submitted(s, p).children, p.id)
                 == EdgesOf(s.children, p.id) + (set e | e in p.dependencies)
                    + (set q | q in p.dependsOn :: Edge(q, Succeeded))
              && Counter(Submitted(s, p).counts, p.id) == |p.dependencies| + |p.dependsOn|
    ensures p.typeName != "" && p.dependsOn == [] && p.dependencies == [] ==>
              && Submitted(s, p).queue == s.queue[p := p.priority]
              && Submitted(s, p).children == s.children && Submitted(s, p).counts == s.counts
  {
    SavedWaits(s, p);
    hide StoreModel.SaveWaiting, EdgesOf, Counter;
  }

  lemma UnnamedIsNotStored(s: Store, p: Task)
    ensures p.typeName == "" ==> Submitted(s, p) == s
  {
  }

  /** The chain of a task whose step would lead from c to c': when the scheduler tracks another task under the same
      id, or none, the status is set on that one, and the history shows the old status. */
  function Seen(c: Chain, c': Chain, tracked: bool): Chain
  {
    if tracked then c'
    else c'.(status := c.status, history := c.history + if Ended(c'.status) then [Record(c.plan.id, c.status)] else [])
  }

  /** The chain after a run; a task that is not the tracked one keeps its status when it fails, or takes Failed when it
      timed out. */
  function ResultChain(c: Chain, outcome: Outcome, tracked: bool): Chain
  {
    if outcome == Error then Seen(c, Fail(c), tracked)
    else if outcome == Timeout then Seen(c.(status := Failed), Fail(c), tracked)
    else RetryChain.Finish(c, outcome)
  }

  /** What a worker's result does to status, counters, history and resolved edges, given whether a cancellation was
      noted on the tracked task: a clean return succeeds, a cancelled context or a noted cancellation cancels, and
      anything else is one more failure. */
  ghost predicate Reports(c: Chain, c': Chain, result: WorkerResult, noted: bool, tracked: bool)
  {
    match result
    case Returned(false) => OneEnd(c, c', Succeeded) && c'.successes == c.successes + 1
    case Returned(true) => OneMoreFailure(c, c', tracked) && (!tracked ==> c'.status == c.status)
    case ContextDone(cancelled) =>
      if cancelled || noted then OneEnd(c, c', Cancelled) && c'.successes == c.successes
      else OneMoreFailure(c, c', tracked) && (!tracked ==> c'.status == Failed)
  }

  /** An end that is no failure: one more record, and the children waiting for just that end are released. */
  ghost predicate OneEnd(c: Chain, c': Chain, status: TaskStatus)
  {
    && c'.plan == c.plan && c'.attempts == c.attempts && c'.failures == c.failures && c'.dead == c.dead
    && c'.status == status && c'.history == c.history + [Record(c.plan.id, status)]
    && c'.resolved == c.resolved + if c.plan.typeName != "" then [Edge(c.plan.id, status)] else []
  }

  /** A failed attempt: out of retries it is Dead, with a strategy left it will be retried and nothing is resolved or
      recorded, and else it is Failed. */
  ghost predicate OneMoreFailure(c: Chain, c': Chain, tracked: bool)
  {
    var p := c.plan;
    var named, dead := p.typeName != "", p.maxRetries > 0 && c.attempts >= p.maxRetries;
    var retry := !dead && p.strategy.Some? && c.attempts < p.strategy.value.maxAttempts;
    && c'.plan == p && c'.attempts == c.attempts
    && c'.failures == c.failures + 1 && c'.successes == c.successes
    && c'.dead == c.dead + (if dead then 1 else 0)
    && (tracked ==> c'.status == if dead then Dead else if retry then Retrying else Failed)
    && c'.history == c.history + (if retry then [] else [Record(p.id, c'.status)])
    && c'.resolved == c.resolved + if !named || retry then []
                                   else if dead then [Edge(p.id, Failed), Edge(p.id, Dead)]
                                   else [Edge(p.id, Failed)]
  }

  lemma ReportsOf(c: Chain, outcome: Outcome, result: WorkerResult, noted: bool, tracked: bool)
    requires outcome == match result
               case Returned(failed) => if failed then Error else Success
               case ContextDone(cancelled) => if cancelled || noted then Abort else Timeout
    ensures Reports(c, ResultChain(c, outcome, tracked), result, noted, tracked)
  {
  }

  class Scheduler {
    const maxQueueSize: int
    const registry: set<string>
    const retryStrategy: Option<Strategy>
    const storage: RedisStorage

    var stopped: bool
    var tasks: map<string, Job>
    var queue: seq<Job>
    /** The retries parked in the timing wheel, by task id. */
    var parked: map<string, Job>
    var activeKeys: set<string>
    var failureCount: int
    var successCount: int
    var deadCount: int
    var history: seq<Record>
    ghost var resolved: seq<Edge>

    constructor (maxQueueSize: int, registry: set<string>, retryStrategy: Option<Strategy>)
      ensures tasks == map[] && queue == [] && parked == map[] && activeKeys == {} && !stopped
      ensures failureCount == successCount == deadCount == 0 && history == [] && resolved == []
      ensures fresh(storage) && storage.Value() == EMPTY_STORE
      ensures this.maxQueueSize == maxQueueSize && this.registry == registry && this.retryStrategy == retryStrategy
    {
      this.maxQueueSize, this.registry, this.retryStrategy := maxQueueSize, registry, retryStrategy;
      storage := new RedisStorage();
      stopped, tasks, queue, parked, activeKeys := false, map[], [], map[], {};
      failureCount, successCount, deadCount, history, resolved := 0, 0, 0, [], [];
    }

    /** The task as a chain, with the scheduler's counters and logs. */
    ghost function ChainOf(t: Job): Chain
      reads this, t
    {
      Chain(t.PlanOf(), t.status, t.attempts, failureCount, successCount, deadCount, history, resolved)
    }

    ghost function RoomOf(): Room
      reads this`stopped, this`tasks, this`activeKeys
    {
      Room(!stopped, maxQueueSize, tasks.Keys, activeKeys)
    }

    ghost function DeskOf(): Desk
      reads this`stopped, this`tasks, this`activeKeys, storage
    {
      Desk(storage.Value(), RoomOf())
    }

    ghost predicate Tracked(t: Job)
      reads this`tasks
    {
      t.id in tasks && tasks[t.id] == t
    }

    /** Why a submission would be refused. */
    function Refusal(t: Job): Option<SubmitError>
      reads this, t
    {
      if stopped then Some(SchedulerStopped)
      else if |tasks| >= maxQueueSize then Some(QueueFull)
      else if t.key != "" && t.key in activeKeys then Some(JobAlreadyRunning)
      else if !t.linked && t.typeName != "" && t.typeName !in registry then Some(NoSuchJob)
      else None
    }

    /** Store a named task, and queue it unless it waits. */
    method Persist(t: Job)
      requires t.typeName != ""
      modifies storage
      ensures storage.Value() == Submitted(old(storage.Value()), t.Stored())
    {
      var p := t.Stored();
      hide StoreModel.SaveWaiting, StoreModel.Save, StoreModel.Enqueue, RedisStorage.Value, Job.Stored;
      if p.dependsOn != [] || p.dependencies != [] {
        storage.SaveWaiting(p);
      } else {
        storage.Save(p);
        storage.Enqueue(p);
      }
    }

    method Submit(t: Job) returns (refused: Option<SubmitError>)
      modifies this`tasks, this`queue, this`activeKeys, t`status, t`strategy, t`linked, storage
      ensures refused == old(Refusal(t))
      ensures refused == Some(SchedulerStopped) <==> stopped
      ensures refused == Some(QueueFull) <==> !stopped && |old(tasks)| >= maxQueueSize
      ensures refused == Some(JobAlreadyRunning) <==>
                !stopped && |old(tasks)| < maxQueueSize && t.key != "" && t.key in old(activeKeys)
      ensures refused == Some(NoSuchJob) <==>
                && !stopped && |old(tasks)| < maxQueueSize && (t.key == "" || t.key !in old(activeKeys))
                && !old(t.linked) && t.typeName != "" && t.typeName !in registry
      ensures refused.Some? ==> tasks == old(tasks) && queue == old(queue) && storage.Value() == old(storage.Value())
      ensures refused == None ==>
        && tasks == old(tasks)[t.id := t]
        && queue == old(queue) + (if t.typeName != "" && (t.dependsOn != [] || t.dependencies != []) then [] else [t])
        && storage.Value() == Submitted(old(storage.Value()), t.Stored())
        && t.status == Queued
        && t.strategy == (if old(t.strategy) == None then retryStrategy else old(t.strategy))
      ensures activeKeys
           == old(activeKeys) + if t.key != "" && refused in {None, Some(NoSuchJob)} then {t.key} else {}
    {
      hide RedisStorage.Value, Submitted;
      if stopped {
        return Some(SchedulerStopped);
      }
      if |tasks| >= maxQueueSize {
        return Some(QueueFull);
      }
      if t.key != "" {
        if t.key in activeKeys {
          return Some(JobAlreadyRunning);
        }
        activeKeys := activeKeys + {t.key};
      }
      if t.strategy == None {
        t.strategy := retryStrategy;
      }
      t.status := Queued;
      if !t.linked && t.typeName != "" {
        if t.typeName !in registry {
          return Some(NoSuchJob);
        }
        t.linked := true;
      }
      Accept(t);
      return None;
    }

    /** The last part of a submission: store the task, track it, and queue it unless it waits. */
    method Accept(t: Job)
      modifies this`tasks, this`queue, storage
      ensures tasks == old(tasks)[t.id := t]
      ensures queue == old(queue) + if Waits(t.Stored()) then [] else [t]
      ensures storage.Value() == Submitted(old(storage.Value()), t.Stored())
    {
      UnnamedIsNotStored(storage.Value(), t.Stored());
      hide RedisStorage.Value, Submitted;
      if t.typeName != "" {
        Persist(t);
        if t.dependsOn != [] || t.dependencies != [] {
          tasks := tasks[t.id := t];
          return;
        }
      }
      tasks := tasks[t.id := t];
      queue := queue + [t];
    }

    /** Resolve the edges of one outcome and submit the children this releases, in the order `ids`; a refused child is
        dropped. */
    method ResolveWorkflow(t: Job, status: TaskStatus) returns (ghost ids: seq<string>)
      modifies this`tasks, this`queue, this`activeKeys, this`resolved, storage
      ensures resolved == old(resolved) + [Edge(t.id, status)]
      ensures Orders(old(storage.Value()), Edge(t.id, status), ids)
      ensures DeskOf() == ResolveAt(old(DeskOf()), Edge(t.id, status), ids, registry)
      ensures Queues(old(queue), queue, FreedAt(old(DeskOf()), ids, registry))
      ensures Newcomers(old(tasks), tasks, old(activeKeys), activeKeys, old(queue), queue)
      ensures forall j :: |old(queue)| <= j < |queue| ==>
                IsReleased(queue[j], old(storage.Value()), Edge(t.id, status), registry)
    {
      ghost var first, line := DeskOf(), queue;
      ValueHasBodies(storage);
      DeskHasStore();
      hide RedisStorage.Value, SubmittedAll, Submitted, Queues, Resolve, Released, BodiesOf, Admit, Newcomers,
           IsReleased;
      var ready: seq<Task>;
      ready, ids := storage.ResolveDependencies(t.id, status);
      resolved := resolved + [Edge(t.id, status)];
      SubmitReady(ready);
      FreedAreChildren(first, Edge(t.id, status), ids, registry, line, queue);
    }

    /** Where submitting `done`, one after the other, has led from the store, room and queue there were before. */
    ghost predicate Submitting(before: Store, room: Room, line: seq<Job>, done: seq<Task>)
      reads this`stopped, this`tasks, this`activeKeys, this`queue, storage, queue`attempts
    {
      var a := Admit(room, done, registry);
      && RoomOf() == a.room
      && storage.Value() == SubmittedAll(before, a.accepted)
      && Queues(line, queue, a.accepted)
    }

    method SubmitReady(ready: seq<Task>)
      modifies this`tasks, this`queue, this`activeKeys, storage
      ensures Submitting(old(storage.Value()), old(RoomOf()), old(queue), ready)
      ensures Newcomers(old(tasks), tasks, old(activeKeys), activeKeys, old(queue), queue)
    {
      ghost var before, room := storage.Value(), RoomOf();
      SubmittedNone(before);
      QueuesNone(queue);
      assert Submitting(before, room, queue, []);
      NoNewcomers(tasks, activeKeys, queue);
      hide RedisStorage.Value, Submitting, RoomOf, Newcomers;
      var n := 0;
      while n < |ready|
        invariant 0 <= n <= |ready|
        invariant Submitting(before, room, old(queue), ready[..n])
        invariant Newcomers(old(tasks), tasks, old(activeKeys), activeKeys, old(queue), queue)
      {
        ghost var tasks1, keys1, queue1 := tasks, activeKeys, queue;
        assert ready[..n + 1] == ready[..n] + [ready[n]];
        if ready[n].typeName in registry {
          SubmitNext(ready[n], before, room, old(queue), ready[..n]);
          MoreNewcomers(old(tasks), tasks1, tasks, old(activeKeys), keys1, activeKeys, old(queue), queue1, queue);
        } else {
          UnknownIsSkipped(ready[n], before, room, old(queue), ready[..n]);
        }
        n := n + 1;
      }
      assert ready[..n] == ready;
    }

    lemma UnknownIsSkipped(p: Task, before: Store, room: Room, line: seq<Job>, done: seq<Task>)
      requires p.typeName !in registry && Submitting(before, room, line, done)
      ensures Submitting(before, room, line, done + [p])
    {
      AdmitOneMore(room, done, p, registry);
      hide RedisStorage.Value, SubmittedAll, Queues, Admit, RoomOf;
    }

    /** Submit one released child of a known type, after those of `done`. */
    method SubmitNext(p: Task, ghost before: Store, ghost room: Room, ghost line: seq<Job>, ghost done: seq<Task>)
      requires p.typeName in registry && Submitting(before, room, line, done)
      modifies this`tasks, this`queue, this`activeKeys, storage
      ensures Newcomers(old(tasks), tasks, old(activeKeys), activeKeys, old(queue), queue)
      ensures Submitting(before, room, line, done + [p])
    {
      AdmitOneMore(room, done, p, registry);
      hide RedisStorage.Value, SubmittedAll, Queues, Admit, Newcomers;
      SubmitChild(p, before, line, Admit(room, done, registry).accepted);
    }

    /** Submit one child, after those of `accepted`. */
    method SubmitChild(p: Task, ghost before: Store, ghost line: seq<Job>, ghost accepted: seq<Task>)
      requires p.typeName in registry
      requires storage.Value() == SubmittedAll(before, accepted) && Queues(line, queue, accepted)
      modifies this`tasks, this`queue, this`activeKeys, storage
      ensures Newcomers(old(tasks), tasks, old(activeKeys), activeKeys, old(queue), queue)
      ensures var fits := Fits(old(RoomOf()), p);
              && RoomOf() == (if fits then Enter(old(RoomOf()), p) else old(RoomOf()))
              && var accepted' := if fits then accepted + [Freed(p)] else accepted;
                 storage.Value() == SubmittedAll(before, accepted') && Queues(line, queue, accepted')
    {
      hide RedisStorage.Value, SubmittedAll, Submitted, Queues;
      assert |tasks.Keys| == |tasks|;
      var child := new Job(Freed(p), true, None);
      ghost var q := queue;
      NoNewcomers(tasks, activeKeys, queue);
      OneNewcomer(tasks, activeKeys, queue, child);
      hide Newcomers;
      var refused := Submit(child);
      if refused == None {
        SubmittedOneMore(before, accepted, child.Stored());
        QueuesOneMore(line, q, accepted, child);
        assert RoomOf() == Enter(old(RoomOf()), p);
      }
    }

    /** The tracked task of that id, if any. */
    function TrackedUnder(id: string): set<Job>
      reads this`tasks
    {
      if id in tasks then {tasks[id]} else {}
    }

    method Mark(id: string, status: TaskStatus)
      modifies TrackedUnder(id)`status
      ensures id in tasks ==> tasks[id].status == status
    {
      if id in tasks {
        tasks[id].status := status;
      }
    }

    method RecordHistory(t: Job)
      modifies this`history
      ensures history == old(history) + [Record(t.id, t.status)]
    {
      history := history + [Record(t.id, t.status)];
    }

    /** Resolve one more edge, after those of `done`. */
    method ResolveNext(t: Job, status: TaskStatus, ghost first: Desk, ghost line: seq<Job>,
                       ghost done: seq<Edge>, ghost orders: seq<seq<string>>)
      returns (ghost orders': seq<seq<string>>)
      requires OrdersEach(first, done, orders, registry) && DeskOf() == ResolveEach(first, done, orders, registry)
      requires Queues(line, queue, FreedEach(first, done, orders, registry))
      modifies this`tasks, this`queue, this`activeKeys, this`resolved, storage
      ensures resolved == old(resolved) + [Edge(t.id, status)]
      ensures OrdersEach(first, done + [Edge(t.id, status)], orders', registry)
      ensures DeskOf() == ResolveEach(first, done + [Edge(t.id, status)], orders', registry)
      ensures Queues(line, queue, FreedEach(first, done + [Edge(t.id, status)], orders', registry))
      ensures Newcomers(old(tasks), tasks, old(activeKeys), activeKeys, old(queue), queue)
    {
      DeskHasStore();
      OrdersLength(first, done, orders);
      hide RedisStorage.Value, Queues, Orders, OrdersEach, FreedEach, ResolveEach, FreedAt, ResolveAt, RoomOf, DeskOf,
           Newcomers, IsReleased;
      ghost var middle, before := queue, DeskOf();
      ghost var ids := ResolveWorkflow(t, status);
      QueuesMore(line, middle, FreedEach(first, done, orders, registry), FreedAt(before, ids, registry), queue);
      ResolveOneMore(first, done, orders, registry, Edge(t.id, status), ids);
      orders' := orders + [ids];
      OrdersLength(first, done + [Edge(t.id, status)], orders');
    }

    lemma DeskHasStore()
      ensures DeskOf().store == storage.Value() && DeskOf().room == RoomOf()
    {
    }

    lemma OrdersLength(d: Desk, edges: seq<Edge>, orders: seq<seq<string>>)
      requires OrdersEach(d, edges, orders, registry)
      ensures |edges| == |orders|
    {
    }

    /** Resolve the edges of an end, and record the task in the history. */
    method Conclude(t: Job, status: TaskStatus) returns (ghost orders: seq<seq<string>>)
      requires Ended(status)
      modifies this`tasks, this`queue, this`activeKeys, this`resolved, this`history, storage
      ensures history == old(history) + [Record(t.id, t.status)]
      ensures resolved == old(resolved) + EdgesAt(t.PlanOf(), status)
      ensures OrdersEach(old(DeskOf()), EdgesAt(t.PlanOf(), status), orders, registry)
      ensures DeskOf() == ResolveEach(old(DeskOf()), EdgesAt(t.PlanOf(), status), orders, registry)
      ensures Queues(old(queue), queue, FreedEach(old(DeskOf()), EdgesAt(t.PlanOf(), status), orders, registry))
      ensures Newcomers(old(tasks), tasks, old(activeKeys), activeKeys, old(queue), queue)
    {
      ghost var first, line := DeskOf(), queue;
      orders := [];
      NothingFreed(first, line, registry);
      NoNewcomers(tasks, activeKeys, queue);
      hide RedisStorage.Value, Queues, OrdersEach, FreedEach, ResolveEach, RoomOf, DeskOf, Newcomers;
      if t.typeName != "" {
        if status == Dead {
          orders := ResolveNext(t, Failed, first, line, [], orders);
          assert [] + [Edge(t.id, Failed)] == [Edge(t.id, Failed)];
          ghost var tasks1, keys1, queue1 := tasks, activeKeys, queue;
          orders := ResolveNext(t, Dead, first, line, [Edge(t.id, Failed)], orders);
          MoreNewcomers(old(tasks), tasks1, tasks, old(activeKeys), keys1, activeKeys, line, queue1, queue);
          assert [Edge(t.id, Failed)] + [Edge(t.id, Dead)] == EdgesAt(t.PlanOf(), Dead);
        } else {
          orders := ResolveNext(t, status, first, line, [], orders);
          assert [] + [Edge(t.id, status)] == EdgesAt(t.PlanOf(), status);
        }
      }
      RecordHistory(t);
    }

    /** What reaching a status meant for the stored task, its edges, the children freed, and the room left, when the
        desk was `first` and the queue `line` before. */
    ghost predicate Effects(first: Desk, line: seq<Job>, t: Job, status: TaskStatus, orders: seq<seq<string>>)
      reads this`stopped, this`tasks, this`activeKeys, this`queue, t`attempts, t`strategy, storage, queue`attempts
    {
      && EndsWell(first, t.Stored(), t.PlanOf(), status, orders, registry, line, queue)
      && DeskOf() == EndDesk(first, t.Stored(), t.PlanOf(), status, orders, registry)
    }

    lemma ParkedEffects(t: Job)
      ensures Effects(DeskOf(), queue, t, Retrying, [])
    {
      NothingFreed(DeskOf(), queue, registry);
      RetryingChangesNothing(storage.Value(), Freed(t.Stored()), t.PlanOf());
    }

    /** What the task's end means for its stored form. */
    method Close(t: Job, status: TaskStatus)
      modifies storage
      ensures storage.Value() == Closed(old(storage.Value()), Freed(t.Stored()), status)
    {
      hide RedisStorage.Value, StoreModel.Save, StoreModel.Delete;
      if t.typeName != "" {
        if status == Dead {
          storage.Save(Freed(t.Stored()));
          storage.Delete(t.id);
        } else if status == Succeeded || status == Cancelled {
          storage.Delete(t.id);
        }
      }
    }

    /** The task reaches an end: mark the tracked task, settle the stored form, resolve the edges, record it. */
    method EndAs(t: Job, status: TaskStatus) returns (ghost orders: seq<seq<string>>)
      requires Ended(status)
      modifies this`tasks, this`queue, this`activeKeys, this`resolved, this`history
      modifies TrackedUnder(t.id)`status, storage
      ensures ChainOf(t) == Seen(old(ChainOf(t)), Settle(old(ChainOf(t)), status), old(Tracked(t)))
      ensures Effects(old(DeskOf()), old(queue), t, status, orders)
      ensures Newcomers(old(tasks), tasks, old(activeKeys), activeKeys, old(queue), queue)
    {
      hide RedisStorage.Value, ResolveEach, OrdersEach, FreedEach, Closed, EdgesAt, Queues, RoomOf, Newcomers;
      Mark(t.id, status);
      Close(t, status);
      orders := Conclude(t, status);
    }

    /** Park the next attempt in the wheel under the same id. */
    method Park(t: Job)
      modifies this`parked, TrackedUnder(t.id)`status
      ensures t.status == if Tracked(t) then Retrying else old(t.status)
      ensures t.id in parked && fresh(parked[t.id]) && parked == old(parked)[t.id := parked[t.id]]
      ensures IsRetryOf(parked[t.id], t)
    {
      Mark(t.id, Retrying);
      var retry := new Job(RetryOf(t.Stored()), t.linked, t.strategy);
      parked := parked[t.id := retry];
    }

    /** The attempt failed: bury the task, park a retry, or give up. `orders` are the children each edge released. */
    method HandleFailure(t: Job) returns (ghost orders: seq<seq<string>>)
      modifies this`failureCount, this`deadCount, this`parked
      modifies this`tasks, this`queue, this`activeKeys, this`resolved, this`history
      modifies TrackedUnder(t.id)`status, storage
      ensures ChainOf(t) == Seen(old(ChainOf(t)), Fail(old(ChainOf(t))), old(Tracked(t)))
      ensures old(Tracked(t)) ==> t.status == Judge(t.PlanOf(), t.attempts)
      ensures Effects(old(DeskOf()), old(queue), t, Judge(t.PlanOf(), t.attempts), orders)
      ensures Judge(t.PlanOf(), t.attempts) == Retrying ==>
                && tasks == old(tasks) && activeKeys == old(activeKeys) && t.id in parked && fresh(parked[t.id])
                && parked == old(parked)[t.id := parked[t.id]]
                && IsRetryOf(parked[t.id], t)
      ensures Judge(t.PlanOf(), t.attempts) != Retrying ==> parked == old(parked)
      ensures Newcomers(old(tasks), tasks, old(activeKeys), activeKeys, old(queue), queue)
    {
      NoNewcomers(tasks, activeKeys, queue);
      hide RedisStorage.Value, Effects, EdgesAt, Job.Stored, IsRetryOf, Newcomers;
      SettleRetrying(ChainOf(t));
      failureCount := failureCount + 1;
      if t.maxRetries > 0 && t.attempts >= t.maxRetries {
        deadCount := deadCount + 1;
        orders := EndAs(t, Dead);
        return;
      }
      if t.strategy.Some? {
        var delay := NextDelay(t.strategy.value, t.attempts, 0);
        if delay.Some? {
          Park(t);
          orders := [];
          ParkedEffects(t);
          return;
        }
      }
      orders := EndAs(t, Failed);
    }

    /** The start of a run by a worker: a task that is no longer tracked, or was cancelled, is skipped. */
    method Begin(t: Job) returns (runs: bool)
      modifies this`tasks, this`history, TrackedUnder(t.id)`status
      ensures runs <==> t.id in old(tasks) && old(tasks[t.id].status) != Cancelled
      ensures runs ==> tasks == old(tasks) && history == old(history) && tasks[t.id].status == Running
      ensures !runs ==> tasks == old(tasks) - {t.id}
      ensures !runs ==>
                history == old(history) + if t.id in old(tasks) then [Record(old(tasks)[t.id].id, Cancelled)] else []
    {
      if t.id !in tasks || tasks[t.id].status == Cancelled {
        if t.id in tasks {
          RecordHistory(tasks[t.id]);
          tasks := tasks - {t.id};
        }
        return false;
      }
      Mark(t.id, Running);
      return true;
    }

    /** A cancellation is noted on the tracked task. */
    ghost predicate Noted(id: string)
      reads this`tasks, TrackedUnder(id)
    {
      id in tasks && tasks[id].status == Cancelled
    }

    /** The outcome the scheduler makes of the worker's result: a cancellation already noted on the tracked task
        outranks a timeout. */
    ghost function OutcomeOf(t: Job, result: WorkerResult): Outcome
      reads this`tasks, TrackedUnder(t.id)
    {
      match result
      case Returned(failed) => if failed then Error else Success
      case ContextDone(cancelled) => if cancelled || Noted(t.id) then Abort else Timeout
    }

    /** The end of a run: release the key, settle the outcome, and evict the task unless it can still be retried
        or resubmitted. */
    method Finish(t: Job, result: WorkerResult) returns (ghost orders: seq<seq<string>>)
      modifies this, t`status, TrackedUnder(t.id)`status, storage
      ensures ChainOf(t) == ResultChain(old(ChainOf(t)), old(OutcomeOf(t, result)), old(Tracked(t)))
      ensures Reports(old(ChainOf(t)), ChainOf(t), result, old(Noted(t.id)), old(Tracked(t)))
      ensures var status := RetryChain.Finish(old(ChainOf(t)), old(OutcomeOf(t, result))).status;
              var first := Unkeyed(old(DeskOf()), t.key);
              && EndsWell(first, t.Stored(), t.PlanOf(), status, orders, registry, old(queue), queue)
              && DeskOf() == Evicted(EndDesk(first, t.Stored(), t.PlanOf(), status, orders, registry), t.id, t.status)
      ensures old(Tracked(t)) && t.status == Retrying ==>
                && tasks == old(tasks) && t.id in parked && IsRetryOf(parked[t.id], t)
      ensures t.status !in {Dead, Failed, Retrying} ==> t.id !in tasks
      ensures old(queue) <= queue
      ensures old(Tracked(t)) && t.status in {Dead, Failed} ==>
                t.id in tasks && (tasks[t.id] == t || tasks[t.id] in queue[|old(queue)|..])
      ensures t.key != "" && t.key in activeKeys ==> exists j :: |old(queue)| <= j < |queue| && queue[j].key == t.key
    {
      ReportsOf(ChainOf(t), OutcomeOf(t, result), result, Noted(t.id), Tracked(t));
      hide RedisStorage.Value, Job.Stored, Job.PlanOf, IsRetryOf, ResultChain, RetryChain.Finish, EndsWell, EndDesk,
           Reports, Newcomers;
      orders := Settled(t, result);
      if t.status !in {Dead, Failed, Retrying} {
        tasks := tasks - {t.id};
      }
    }

    /** The end of a run up to the eviction. */
    method Settled(t: Job, result: WorkerResult) returns (ghost orders: seq<seq<string>>)
      modifies this, t`status, TrackedUnder(t.id)`status, storage
      ensures ChainOf(t) == ResultChain(old(ChainOf(t)), old(OutcomeOf(t, result)), old(Tracked(t)))
      ensures var status := RetryChain.Finish(old(ChainOf(t)), old(OutcomeOf(t, result))).status;
              Effects(Unkeyed(old(DeskOf()), t.key), old(queue), t, status, orders)
      ensures old(Tracked(t)) && t.status == Retrying ==>
                && tasks == old(tasks) && t.id in parked && IsRetryOf(parked[t.id], t)
      ensures old(queue) <= queue
      ensures t.id in old(tasks) ==>
                t.id in tasks && (tasks[t.id] == old(tasks[t.id]) || tasks[t.id] in queue[|old(queue)|..])
      ensures t.key != "" && t.key in activeKeys ==> exists j :: |old(queue)| <= j < |queue| && queue[j].key == t.key
    {
      ghost var keys := if t.key == "" then activeKeys else activeKeys - {t.key};
      hide RedisStorage.Value, Job.Stored, Job.PlanOf, IsRetryOf, ResultChain, RetryChain.Finish, Effects, Newcomers;
      if t.key != "" {
        activeKeys := activeKeys - {t.key};
      }
      orders := EndRun(t, result);
      IdAndKey(old(tasks), tasks, keys, activeKeys, old(queue), queue, t.id, t.key);
    }

    method EndRun(t: Job, result: WorkerResult) returns (ghost orders: seq<seq<string>>)
      modifies this`failureCount, this`successCount, this`deadCount, this`parked
      modifies this`tasks, this`queue, this`activeKeys, this`resolved, this`history
      modifies t`status, TrackedUnder(t.id)`status, storage
      ensures ChainOf(t) == ResultChain(old(ChainOf(t)), old(OutcomeOf(t, result)), old(Tracked(t)))
      ensures var status := RetryChain.Finish(old(ChainOf(t)), old(OutcomeOf(t, result))).status;
              Effects(old(DeskOf()), old(queue), t, status, orders)
      ensures old(Tracked(t)) && t.status == Retrying ==>
                && tasks == old(tasks) && t.id in parked && IsRetryOf(parked[t.id], t)
      ensures Newcomers(old(tasks), tasks, old(activeKeys), activeKeys, old(queue), queue)
    {
      FinishStatus(ChainOf(t), OutcomeOf(t, result));
      FailIgnoresStatus(ChainOf(t), Failed);
      hide RedisStorage.Value, Effects, Job.Stored, IsRetryOf, Seen, Fail, RetryChain.Finish, Judge, DeskOf, RoomOf,
           Newcomers;
      match result {
        case Returned(failed) =>
          if failed {
            orders := HandleFailure(t);
          } else {
            orders := Succeed(t);
          }
        case ContextDone(cancelled) =>
          if cancelled || (t.id in tasks && tasks[t.id].status == Cancelled) {
            orders := Abandon(t);
          } else {
            t.status := Failed;
            orders := HandleFailure(t);
          }
      }
    }

    method Succeed(t: Job) returns (ghost orders: seq<seq<string>>)
      modifies this`tasks, this`queue, this`activeKeys, this`resolved, this`history, this`successCount
      modifies t`status, TrackedUnder(t.id)`status, storage
      ensures ChainOf(t) == RetryChain.Finish(old(ChainOf(t)), Success)
      ensures Effects(old(DeskOf()), old(queue), t, Succeeded, orders)
      ensures Newcomers(old(tasks), tasks, old(activeKeys), activeKeys, old(queue), queue)
    {
      hide RedisStorage.Value, Effects, Newcomers;
      t.status := Succeeded;
      orders := EndAs(t, Succeeded);
      successCount := successCount + 1;
    }

    method Abandon(t: Job) returns (ghost orders: seq<seq<string>>)
      modifies this`tasks, this`queue, this`activeKeys, this`resolved, this`history
      modifies t`status, TrackedUnder(t.id)`status, storage
      ensures ChainOf(t) == RetryChain.Finish(old(ChainOf(t)), Abort)
      ensures Effects(old(DeskOf()), old(queue), t, Cancelled, orders)
      ensures Newcomers(old(tasks), tasks, old(activeKeys), activeKeys, old(queue), queue)
    {
      hide RedisStorage.Value, Effects, Newcomers;
      t.status := Cancelled;
      orders := EndAs(t, Cancelled);
    }

    /** r is the next attempt of t. */
    ghost predicate IsRetryOf(r: Job, t: Job)
      reads r`attempts, r`strategy, t`attempts, t`strategy
    {
      && r.id == t.id && r.typeName == t.typeName && r.priority == t.priority && r.payload == t.payload
      && r.maxRetries == t.maxRetries && r.strategy == t.strategy && r.attempts == t.attempts + 1
      && r.key == "" && r.dependsOn == [] && r.dependencies == []
    }

    /** The wheel's callback for a parked retry: submit it, and ignore a refusal. `t` is the failed attempt. */
    method FireRetry(id: string, ghost t: Job) returns (refused: Option<SubmitError>, ghost retry: Job)
      requires id in parked
      modifies this`parked, this`tasks, this`queue, this`activeKeys, parked[id], storage
      ensures retry == old(parked)[id] && parked == old(parked) - {id}
      ensures refused == old(Refusal(parked[id]))
      ensures refused == None ==> Tracked(retry) && queue == old(queue) + if Waits(retry.Stored()) then [] else [retry]
      ensures refused == None && old(IsRetryOf(parked[id], t)) && old(t.strategy).Some? ==>
                ChainOf(retry) == Refire(old(ChainOf(t)))
    {
      hide RedisStorage.Value, Submitted;
      var r := parked[id];
      retry := r;
      parked := parked - {id};
      refused := Submit(r);
    }

    /** Refused unless the task is tracked as Dead or Failed. */
    method Resubmit(id: string) returns (ok: bool)
      modifies this`deadCount, this`queue, TrackedUnder(id)`status, TrackedUnder(id)`attempts
      ensures ok <==> id in tasks && old(tasks[id].status) in {Dead, Failed}
      ensures ok ==> tasks[id].status == Queued && tasks[id].attempts == 0
      ensures id in tasks ==> ChainOf(tasks[id]) == Resubmitted(old(ChainOf(tasks[id])))
      ensures queue == old(queue) + if ok then [tasks[id]] else []
      ensures deadCount == old(deadCount) - if ok && old(tasks[id].status) == Dead then 1 else 0
    {
      if id !in tasks {
        return false;
      }
      var t := tasks[id];
      if t.status != Dead && t.status != Failed {
        return false;
      }
      if t.status == Dead {
        deadCount := deadCount - 1;
      }
      t.attempts := 0;
      t.status := Queued;
      queue := queue + [t];
      return true;
    }
  }

  lemma FailIgnoresStatus(c: Chain, status: TaskStatus)
    ensures Fail(c.(status := status)) == Fail(c)
  {
  }

  lemma FinishStatus(c: Chain, outcome: Outcome)
    ensures RetryChain.Finish(c, outcome).status == match outcome
              case Success => Succeeded
              case Abort => Cancelled
              case _ => Judge(c.plan, c.attempts)
  {
  }

  lemma SettleRetrying(c: Chain)
    ensures Settle(c, Retrying) == c.(status := Retrying)
  {
  }

  lemma RetryingChangesNothing(s: Store, body: Task, p: Plan)
    ensures Closed(s, body, Retrying) == s && EdgesAt(p, Retrying) == []
  {
  }

  lemma NothingFreed(d: Desk, line: seq<Job>, registry: set<string>)
    ensures OrdersEach(d, [], [], registry) && ResolveEach(d, [], [], registry) == d
    ensures FreedEach(d, [], [], registry) == [] && Queues(line, line, [])
  {
  }

  lemma ValueHasBodies(storage: RedisStorage)
    ensures storage.Value().bodies == storage.bodies
  {
  }
}
