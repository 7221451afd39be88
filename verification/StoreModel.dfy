/** The shared store as a value, and each Lua script or pipeline of the storage layer as one atomic step. */
module StoreModel {

  datatype Option<T> = None | Some(value: T)

  datatype TaskStatus = Unknown | Queued | Running | Succeeded | Failed | Cancelled | Dead | Retrying

  /** An edge of the workflow graph: a parent and the outcome of the parent that resolves the edge. */
  datatype Edge = Edge(parentID: string, trigger: TaskStatus)

  /** A stored task. `payload` stands for the fields nothing here depends on. */
  datatype Task = Task(
    id: string,
    key: string,
    typeName: string,
    priority: int,
    payload: string,
    attempts: int,
    maxRetries: int,
    dependsOn: seq<string>,
    dependencies: seq<Edge>)

  /** A task of no particular type, waiting for the given edges. */
  function Waiter(id: string, dependencies: seq<Edge>): Task
  {
    Task(id, "", "", 0, "", 0, 0, [], dependencies)
  }

  /** `expiry` is None for a lease without a time to live. */
  datatype Lease = Lease(owner: string, expiry: Option<int>)

  datatype Store = Store(
    bodies: map<string, Task>,
    children: map<Edge, set<string>>,
    counts: map<string, int>,
    queue: map<Task, int>,
    processing: set<string>,
    leases: map<string, Lease>,
    delayed: map<string, int>)

  const EMPTY_STORE := Store(map[], map[], map[], map[], {}, map[], map[])

  // ---------- Bodies and workflow edges ----------

  function Save(s: Store, t: Task): Store
  {
    s.(bodies := s.bodies[t.id := t])
  }

  function LegacyEdges(ids: seq<string>): (edges: seq<Edge>)
    ensures |edges| == |ids|
  {
    seq(|ids|, i requires 0 <= i < |ids| => Edge(ids[i], Succeeded))
  }

  /** The new-style dependencies followed by the legacy ones. */
  function AllDeps(t: Task): seq<Edge>
  {
    t.dependencies + LegacyEdges(t.dependsOn)
  }

  function ChildrenOf(children: map<Edge, set<string>>, edge: Edge): set<string>
  {
    if edge in children then children[edge] else {}
  }

  function AddChild(children: map<Edge, set<string>>, edge: Edge, id: string): map<Edge, set<string>>
  {
    children[edge := ChildrenOf(children, edge) + {id}]
  }

  function AddToAll(children: map<Edge, set<string>>, edges: seq<Edge>, id: string): map<Edge, set<string>>
  {
    if edges == [] then children
    else AddChild(AddToAll(children, edges[..|edges| - 1], id), edges[|edges| - 1], id)
  }

  function SaveWaiting(s: Store, t: Task): Store
  {
    s.(bodies := s.bodies[t.id := t],
       children := AddToAll(s.children, AllDeps(t), t.id),
       counts := s.counts[t.id := |AllDeps(t)|])
  }

  /** A missing counter reads as zero. */
  function Counter(counts: map<string, int>, id: string): int
  {
    if id in counts then counts[id] else 0
  }

  /** The children whose counter an edge brings to zero and whose body is stored. */
  function Released(s: Store, edge: Edge): set<string>
  {
    set id | id in ChildrenOf(s.children, edge) && Counter(s.counts, id) == 1 && id in s.bodies
  }

  /** The counters after decrementing those of `ids` and deleting those of `gone`. */
  function Decremented(counts: map<string, int>, ids: set<string>, gone: set<string>): map<string, int>
  {
    map id | id in counts.Keys + ids && id !in gone ::
      if id in ids then Counter(counts, id) - 1 else Counter(counts, id)
  }

  function Resolve(s: Store, edge: Edge): Store
  {
    s.(counts := Decremented(s.counts, ChildrenOf(s.children, edge), Released(s, edge)),
       children := s.children - {edge})
  }

  // ---------- Queue, processing set, leases ----------

  function Enqueue(s: Store, t: Task): Store
  {
    s.(queue := s.queue[t := t.priority])
  }

  /** t has the highest score in the queue. */
  predicate IsHighest(queue: map<Task, int>, t: Task)
  {
    t in queue && forall u :: u in queue ==> queue[u] <= queue[t]
  }

  /** `int(d.Seconds())` for a duration in milliseconds. */
  function Seconds(durationMs: int): int
  {
    if durationMs >= 0 then durationMs / 1000 else -(-durationMs / 1000)
  }

  /** The dequeue script after it popped t: with a time to live below one second setting the lease is an error,
      and the script stops there with the pop already done. */
  function Dequeue(s: Store, t: Task, owner: string, durationMs: int, now: int): Store
  {
    var popped := s.(queue := s.queue - {t});
    if Seconds(durationMs) < 1 then popped
    else popped.(leases := s.leases[t.id := Lease(owner, Some(now + 1000 * Seconds(durationMs)))],
                 processing := s.processing + {t.id})
  }

  /** The lease of id is held at time `now`. */
  predicate Leased(s: Store, id: string, now: int)
  {
    id in s.leases && (s.leases[id].expiry == None || now < s.leases[id].expiry.value)
  }

  /** Set-if-absent; a non-positive duration sets no expiry. */
  function Claim(s: Store, id: string, owner: string, durationMs: int, now: int): Store
  {
    if Leased(s, id, now) then s
    else s.(leases := s.leases[id := Lease(owner, if durationMs > 0 then Some(now + durationMs) else None)])
  }

  /** Extends the owner's own lease; a non-positive time to live ends it. */
  function Heartbeat(s: Store, id: string, owner: string, durationMs: int, now: int): Store
  {
    if Leased(s, id, now) && s.leases[id].owner == owner then
      if Seconds(durationMs) < 1 then s.(leases := s.leases - {id})
      else s.(leases := s.leases[id := Lease(owner, Some(now + 1000 * Seconds(durationMs)))])
    else s
  }

  function Delete(s: Store, id: string): Store
  {
    s.(bodies := s.bodies - {id}, leases := s.leases - {id}, processing := s.processing - {id})
  }

  /** The ids the recovery scan requeues: in processing, without a lease, with a body. */
  function Orphans(s: Store, now: int): set<string>
  {
    set id | id in s.processing && !Leased(s, id, now) && id in s.bodies
  }

  function Requeued(s: Store, ids: set<string>): map<Task, int>
    requires ids <= s.bodies.Keys
  {
    s.queue + map t | t in (set id | id in ids :: s.bodies[id]) :: t.priority
  }

  function Recover(s: Store, now: int): Store
  {
    s.(queue := Requeued(s, Orphans(s, now)),
       processing := set id | id in s.processing && Leased(s, id, now))
  }

  // ---------- The delayed set ----------

  function ScheduleDelayed(s: Store, taskID: string, fireAtMs: int, body: Option<Task>): Store
  {
    if taskID == "" then s
    else
      var saved := if body.Some? then s.(bodies := s.bodies[taskID := body.value]) else s;
      saved.(delayed := s.delayed[taskID := fireAtMs])
  }

  function UnscheduleDelayed(s: Store, taskID: string): Store
  {
    if taskID == "" then s else s.(delayed := s.delayed - {taskID})
  }

  /** The script selects scores from 0 to `now`: a negative score is never due. */
  function DueIds(delayed: map<string, int>, now: int): set<string>
  {
    set id | id in delayed && 0 <= delayed[id] <= now
  }

  function BatchSize(max: int): nat
  {
    if max <= 0 then 100 else max
  }

  function Least(a: nat, b: nat): nat
  {
    if a <= b then a else b
  }

  /** A selection the range query with a limit may make: distinct due ids in order of score, as many as
      allowed, none left behind with a smaller score. */
  ghost predicate IsBatch(delayed: map<string, int>, now: int, max: int, batch: seq<string>)
  {
    && |batch| == Least(BatchSize(max), |DueIds(delayed, now)|)
    && (forall i :: 0 <= i < |batch| ==> batch[i] in DueIds(delayed, now))
    && (forall i, j :: 0 <= i < j < |batch| ==> batch[i] != batch[j] && delayed[batch[i]] <= delayed[batch[j]])
    && (forall id, i :: id in DueIds(delayed, now) && id !in batch && 0 <= i < |batch| ==>
          delayed[batch[i]] <= delayed[id])
  }

  function PopDue(s: Store, batch: seq<string>): Store
  {
    s.(delayed := s.delayed - set id | id in batch)
  }

  /** The bodies handed to the caller: ids without a stored body are dropped silently. */
  function BodiesOf(bodies: map<string, Task>, ids: seq<string>): seq<Task>
  {
    if ids == [] then []
    else
      var last := ids[|ids| - 1];
      BodiesOf(bodies, ids[..|ids| - 1]) + if last in bodies then [bodies[last]] else []
  }
}
