/** Runs of the shared store under any number of instances: every step is one script or pipeline, in any
    interleaving. History variables record what is owed and which scheduling of a delayed task was delivered. */
module StoreRuns {
  import opened StoreModel
  import opened StoreInvariants

  /** Scheduling number `serial` of task `id`, with its fire time, was handed to a caller whose clock read `at`. */
  datatype Delivery = Delivery(serial: nat, id: string, score: int, at: int)

  datatype World = World(
    store: Store,
    now: int,
    surplus: map<string, int>,
    owed: set<string>,
    armed: map<string, nat>,
    issued: nat,
    withdrawn: set<nat>,
    delivered: seq<Delivery>)

  const START := World(EMPTY_STORE, 0, map[], {}, map[], 0, {}, [])

  datatype Step =
    | SaveBody(t: Task)
    | SaveChild(t: Task)
    | ResolveEdge(edge: Edge)
    | Push(t: Task)
    | Pop(t: Task, owner: string, durationMs: int)
    | TakeLease(id: string, owner: string, durationMs: int)
    | Beat(id: string, owner: string, durationMs: int)
    | Remove(id: string)
    | Scan
    | Delay(id: string, fireAtMs: int, body: Option<Task>)
    | Undelay(id: string)
    | PopDelayed(batch: seq<string>, at: int, max: int)
    | Pass(later: int)

  /** The steps the store itself can take: a pop takes a highest entry, a batch is one the range query may return,
      and time does not run backwards. Nothing is asked of the callers. */
  ghost predicate Enabled(w: World, s: Step)
  {
    match s
    case Pop(t, _, _) => IsHighest(w.store.queue, t)
    case PopDelayed(batch, at, max) => IsBatch(w.store.delayed, at, max, batch)
    case Pass(later) => w.now <= later
    case _ => true
  }

  function SerialOf(armed: map<string, nat>, id: string): set<nat>
  {
    if id in armed then {armed[id]} else {}
  }

  function Deliveries(w: World, batch: seq<string>, at: int): seq<Delivery>
  {
    seq(|batch|, i requires 0 <= i < |batch| =>
      var id := batch[i];
      if id in w.armed && id in w.store.delayed then Delivery(w.armed[id], id, w.store.delayed[id], at)
      else Delivery(0, id, 0, at))
  }

  /** A task is owed from the time it is queued while its body is stored under its own id, until it is completed,
      its body is overwritten with that of another id, or a dequeue fails after its pop. */
  ghost function Owed(w: World, s: Step): set<string>
  {
    match s
    case Push(t) => if OwnBody(w.store, t.id) then w.owed + {t.id} else w.owed
    case Pop(t, _, durationMs) => w.owed - Lost(w.store, t, durationMs)
    case Remove(id) => w.owed - {id}
    case Delay(id, _, body) => if body.Some? && body.value.id != id then w.owed - {id} else w.owed
    case _ => w.owed
  }

  function StoreAfter(w: World, s: Step): Store
  {
    var st := w.store;
    match s
    case SaveBody(t) => Save(st, t)
    case SaveChild(t) => SaveWaiting(st, t)
    case ResolveEdge(edge) => Resolve(st, edge)
    case Push(t) => Enqueue(st, t)
    case Pop(t, owner, durationMs) => Dequeue(st, t, owner, durationMs, w.now)
    case TakeLease(id, owner, durationMs) => Claim(st, id, owner, durationMs, w.now)
    case Beat(id, owner, durationMs) => Heartbeat(st, id, owner, durationMs, w.now)
    case Remove(id) => Delete(st, id)
    case Scan => Recover(st, w.now)
    case Delay(id, fireAtMs, body) => ScheduleDelayed(st, id, fireAtMs, body)
    case Undelay(id) => UnscheduleDelayed(st, id)
    case PopDelayed(batch, at, max) => PopDue(st, batch)
    case Pass(later) => st
  }

  predicate ConcernsQueue(s: Step)
  {
    s.Push? || s.Pop? || s.TakeLease? || s.Beat? || s.Scan?
  }

  predicate ConcernsDelayed(s: Step)
  {
    s.Delay? || s.Undelay? || s.PopDelayed? || s.Pass?
  }

  /** The steps of the queue and of leases leave bodies and workflow alone. */
  lemma QueueStep(w: World, s: Step)
    requires ConcernsQueue(s)
    ensures var s' := StoreAfter(w, s);
            s'.bodies == w.store.bodies && s'.children == w.store.children && s'.counts == w.store.counts
  {
    match s
    case Push(_) =>
    case Scan =>
      hide Requeued, Orphans, Leased;
    case Pop(_, _, _) =>
      hide Seconds;
    case TakeLease(id, owner, durationMs) =>
      LeasesAlone(w.store, id, owner, durationMs, w.now);
      hide Claim;
    case Beat(id, owner, durationMs) =>
      LeasesAlone(w.store, id, owner, durationMs, w.now);
      hide Heartbeat;
  }

  /** A claim and a heartbeat change leases only. */
  lemma LeasesAlone(s: Store, id: string, owner: string, durationMs: int, now: int)
    ensures Claim(s, id, owner, durationMs, now) == s.(leases := Claim(s, id, owner, durationMs, now).leases)
    ensures Heartbeat(s, id, owner, durationMs, now) == s.(leases := Heartbeat(s, id, owner, durationMs, now).leases)
  {
    hide Seconds, Leased;
  }

  /** The steps of the delayed set leave everything but bodies alone. */
  lemma DelayedStep(w: World, s: Step)
    requires ConcernsDelayed(s)
    ensures var s' := StoreAfter(w, s);
            s' == w.store.(delayed := s'.delayed, bodies := s'.bodies)
    ensures StoreAfter(w, s).bodies
         == if s.Delay? && s.id != "" && s.body.Some? then w.store.bodies[s.id := s.body.value] else w.store.bodies
  {
  }

  /** The remaining steps leave queue and delayed set alone; all but a completion leave leases alone. */
  lemma BodyStep(w: World, s: Step)
    requires !ConcernsQueue(s) && !ConcernsDelayed(s)
    ensures var s' := StoreAfter(w, s);
            && s'.queue == w.store.queue && s'.delayed == w.store.delayed
            && (!s.Remove? ==> s'.leases == w.store.leases && s'.processing == w.store.processing)
            && (s.Remove? ==> s'.leases == w.store.leases - {s.id} && s'.processing == w.store.processing - {s.id})
            && (!s.SaveChild? && !s.ResolveEdge? ==> s'.children == w.store.children && s'.counts == w.store.counts)
            && (s.ResolveEdge? ==> s'.bodies == w.store.bodies)
            && (s.SaveBody? || s.SaveChild? ==> s'.bodies == w.store.bodies[s.t.id := s.t])
            && (s.Remove? ==> s'.bodies == w.store.bodies - {s.id})
  {
    hide AddToAll, Decremented;
  }

  /** Which of the three a step is, with what it leaves alone. */
  lemma StepFrame(w: World, s: Step)
    ensures var s' := StoreAfter(w, s);
            && (!s.SaveChild? && !s.ResolveEdge? ==> s'.children == w.store.children && s'.counts == w.store.counts)
            && s'.bodies == BodiesAfter(w.store.bodies, s)
            && (!ConcernsQueue(s) && !s.Remove? ==>
                  s'.queue == w.store.queue && s'.leases == w.store.leases && s'.processing == w.store.processing)
            && (s.Remove? ==>
                  && s'.queue == w.store.queue
                  && s'.leases == w.store.leases - {s.id} && s'.processing == w.store.processing - {s.id})
  {
    hide StoreAfter;
    if ConcernsQueue(s) {
      QueueStep(w, s);
    } else if ConcernsDelayed(s) {
      DelayedStep(w, s);
    } else {
      BodyStep(w, s);
    }
  }

  /** The bodies after a step: a save, waiting or not, stores a task under its own id. */
  function BodiesAfter(bodies: map<string, Task>, s: Step): map<string, Task>
  {
    match s
    case SaveBody(t) => bodies[t.id := t]
    case SaveChild(t) => bodies[t.id := t]
    case Remove(id) => bodies - {id}
    case Delay(id, _, body) => if id != "" && body.Some? then bodies[id := body.value] else bodies
    case _ => bodies
  }

  /** The history of the delayed set. */
  function LogAfter(w: World, s: Step): World
  {
    match s
    case Delay(id, fireAtMs, body) =>
      if id == "" then w
      else w.(armed := w.armed[id := w.issued], issued := w.issued + 1,
              withdrawn := w.withdrawn + SerialOf(w.armed, id))
    case Undelay(id) =>
      if id == "" then w
      else w.(armed := w.armed - {id}, withdrawn := w.withdrawn + SerialOf(w.armed, id))
    case PopDelayed(batch, at, max) =>
      w.(armed := w.armed - (set id | id in batch), delivered := w.delivered + Deliveries(w, batch, at))
    case _ => w
  }

  function SurplusAfter(w: World, s: Step): map<string, int>
  {
    if s.SaveChild? then w.surplus[s.t.id := Excess(w.store.children, s.t)] else w.surplus
  }

  ghost function Apply(w: World, s: Step): World
  {
    LogAfter(w, s).(store := StoreAfter(w, s), now := if s.Pass? then s.later else w.now,
                    surplus := SurplusAfter(w, s), owed := Owed(w, s))
  }

  // ---------- The delayed set ----------

  /** Only the three steps of the delayed set touch it. */
  lemma DelayedAfter(w: World, s: Step)
    ensures StoreAfter(w, s).delayed == match s
              case Delay(id, fireAtMs, _) => if id == "" then w.store.delayed else w.store.delayed[id := fireAtMs]
              case Undelay(id) => if id == "" then w.store.delayed else w.store.delayed - {id}
              case PopDelayed(batch, _, _) => w.store.delayed - set id | id in batch
              case _ => w.store.delayed
  {
    hide AddToAll, Decremented, Requeued, Seconds, Leased;
  }

  /** Each scheduling issued so far is exactly one of armed, withdrawn (unscheduled or superseded) and
      delivered; it is delivered at most once, when its fire time has come. */
  ghost predicate DeliveredOnce(w: World)
  {
    && w.armed.Keys == w.store.delayed.Keys
    && (forall id :: id in w.armed ==> w.armed[id] < w.issued && w.armed[id] !in w.withdrawn)
    && (forall a, b :: a in w.armed && b in w.armed && a != b ==> w.armed[a] != w.armed[b])
    && (forall n :: n in w.withdrawn ==> n < w.issued)
    && (forall d :: d in w.delivered ==>
          d.serial < w.issued && d.serial !in w.withdrawn && 0 <= d.score <= d.at)
    && (forall d, id :: d in w.delivered && id in w.armed ==> d.serial != w.armed[id])
    && DistinctSerials(w.delivered)
  }

  lemma DelayDelivers(w: World, id: string, fireAtMs: int, body: Option<Task>)
    requires DeliveredOnce(w)
    ensures DeliveredOnce(Apply(w, Delay(id, fireAtMs, body)))
  {
    DelayedAfter(w, Delay(id, fireAtMs, body));
    hide StoreAfter, SurplusAfter, Owed, DistinctSerials;
  }

  lemma UndelayDelivers(w: World, id: string)
    requires DeliveredOnce(w)
    ensures DeliveredOnce(Apply(w, Undelay(id)))
  {
    DelayedAfter(w, Undelay(id));
    hide StoreAfter, SurplusAfter, Owed, DistinctSerials;
  }

  /** The deliveries of a batch: each is of an armed scheduling that is due, no two of the same. */
  lemma DeliveriesAreArmed(w: World, batch: seq<string>, at: int, max: int)
    requires DeliveredOnce(w) && IsBatch(w.store.delayed, at, max, batch)
    ensures forall d :: d in Deliveries(w, batch, at) ==>
              d.id in batch && d.id in w.armed && d.serial == w.armed[d.id] && 0 <= d.score <= d.at
    ensures DistinctSerials(Deliveries(w, batch, at))
  {
    forall i | 0 <= i < |batch| ensures batch[i] in w.armed && 0 <= w.store.delayed[batch[i]] <= at {
      assert batch[i] in DueIds(w.store.delayed, at);
    }
  }

  ghost predicate DistinctSerials(ds: seq<Delivery>)
  {
    forall i, j :: 0 <= i < j < |ds| ==> ds[i].serial != ds[j].serial
  }

  lemma DistinctTogether(ds: seq<Delivery>, more: seq<Delivery>)
    requires DistinctSerials(ds) && DistinctSerials(more)
    requires forall d, e :: d in ds && e in more ==> d.serial != e.serial
    ensures DistinctSerials(ds + more)
  {
    forall i, j | 0 <= i < j < |ds + more| ensures (ds + more)[i].serial != (ds + more)[j].serial {
      if i < |ds| <= j {
        assert ds[i] in ds && more[j - |ds|] in more;
      }
    }
  }

  lemma PopDelivers(w: World, batch: seq<string>, at: int, max: int)
    requires DeliveredOnce(w) && IsBatch(w.store.delayed, at, max, batch)
    ensures DeliveredOnce(Apply(w, PopDelayed(batch, at, max)))
  {
    var w' := Apply(w, PopDelayed(batch, at, max));
    var more := Deliveries(w, batch, at);
    DeliveriesAreArmed(w, batch, at, max);
    DelayedAfter(w, PopDelayed(batch, at, max));
    hide StoreAfter, SurplusAfter, Owed;
    var popped := set id | id in batch;
    assert w'.armed == w.armed - popped && w'.store.delayed == w.store.delayed - popped;
    assert w'.delivered == w.delivered + more && w'.issued == w.issued && w'.withdrawn == w.withdrawn;
    hide Apply, PopDue, Deliveries, IsBatch;
    DistinctTogether(w.delivered, more);
    hide DistinctSerials;
  }

  /** No scheduling is forgotten: number n is still armed, was withdrawn, or was delivered. */
  ghost predicate Placed(w: World, n: nat)
  {
    || n in w.withdrawn
    || (exists id :: id in w.armed && w.armed[id] == n)
    || (exists d :: d in w.delivered && d.serial == n)
  }

  ghost predicate NoneForgotten(w: World)
  {
    forall n: nat :: n < w.issued ==> Placed(w, n)
  }

  lemma StepForgetsNone(w: World, s: Step)
    requires DeliveredOnce(w) && NoneForgotten(w) && Enabled(w, s)
    ensures NoneForgotten(Apply(w, s))
  {
    var w' := Apply(w, s);
    forall n: nat | n < w'.issued ensures Placed(w', n) {
      if s.Delay? && n == w.issued {
        assert w'.armed[s.id] == n;
      } else {
        StaysPlaced(w, s, n);
      }
    }
  }

  lemma StaysPlaced(w: World, s: Step, n: nat)
    requires DeliveredOnce(w) && Placed(w, n) && Enabled(w, s)
    ensures Placed(Apply(w, s), n)
  {
    hide DeliveredOnce;
    var w' := Apply(w, s);
    assert forall d :: d in w.delivered ==> d in w'.delivered;
    assert w.withdrawn <= w'.withdrawn;
    if id :| id in w.armed && w.armed[id] == n {
      if id !in w'.armed || w'.armed[id] != n {
        if s.PopDelayed? {
          PoppedIsDelivered(w, s, id);
        } else {
          assert n in w'.withdrawn;
        }
      }
    }
  }

  lemma PoppedIsDelivered(w: World, s: Step, id: string)
    requires DeliveredOnce(w) && s.PopDelayed? && Enabled(w, s)
    requires id in w.armed && id in s.batch
    ensures exists d :: d in Apply(w, s).delivered && d.serial == w.armed[id]
  {
    var i :| 0 <= i < |s.batch| && s.batch[i] == id;
    var d := Deliveries(w, s.batch, s.at)[i];
    assert d == Delivery(w.armed[id], id, w.store.delayed[id], s.at);
    assert d in Apply(w, s).delivered;
  }

  // ---------- All of it, in every run ----------

  ghost predicate WorldOk(w: World)
  {
    Counted(w.store, w.surplus) && Accounted(w.store, w.owed) && DeliveredOnce(w) && NoneForgotten(w)
  }

  lemma StartOk()
    ensures WorldOk(START)
  {
    forall id
      ensures Counter(START.store.counts, id) == |EdgesOf(START.store.children, id)| + SurplusOf(START.surplus, id)
    {
      assert EdgesOf(START.store.children, id) == {};
    }
  }

  lemma StepKeepsCounts(w: World, s: Step)
    requires Counted(w.store, w.surplus) && Enabled(w, s)
    ensures Counted(Apply(w, s).store, Apply(w, s).surplus)
  {
    hide LogAfter, Owed, Counted, Resolve, SaveWaiting, Excess;
    match s
    case SaveChild(t) =>
      SavedCounts(w.store, w.surplus, t);
    case ResolveEdge(edge) =>
      ResolveCounts(w.store, w.surplus, edge);
    case _ =>
      StepFrame(w, s);
      hide StoreAfter;
      SameCounts(w.store, Apply(w, s).store, w.surplus);
  }

  lemma SameCounts(s: Store, s': Store, surplus: map<string, int>)
    requires Counted(s, surplus) && s'.counts == s.counts && s'.children == s.children
    ensures Counted(s', surplus)
  {
    forall id ensures Counter(s'.counts, id) == |EdgesOf(s'.children, id)| + SurplusOf(surplus, id) {
      assert Counter(s.counts, id) == |EdgesOf(s.children, id)| + SurplusOf(surplus, id);
    }
  }

  lemma StepKeepsAccounts(w: World, s: Step)
    requires Accounted(w.store, w.owed) && Enabled(w, s)
    ensures Accounted(Apply(w, s).store, Apply(w, s).owed)
  {
    hide LogAfter, SurplusAfter, IsBatch;
    match s
    case Push(t) =>
      EnqueueAccounts(w.store, w.owed, t);
    case Pop(t, owner, durationMs) =>
      hide Accounted, Lost, IsHighest;
      DequeueKeepsTheRest(w.store, w.owed, t, owner, durationMs, w.now);
    case Remove(id) =>
      DeleteAccounts(w.store, w.owed, id);
    case Scan =>
      RecoverAccounts(w.store, w.owed, w.now);
    case _ =>
      BodiesStayOwn(w, s);
      StepFrame(w, s);
      hide StoreAfter, Lost, OwnBody;
      assert Accounted(w.store, Owed(w, s));
      UntouchedAccounts(w.store, Apply(w, s).store, Owed(w, s));
  }

  lemma BodiesStayOwn(w: World, s: Step)
    requires Accounted(w.store, w.owed) && !s.Pop? && !s.Remove? && !s.Push?
    ensures Owed(w, s) <= w.owed
    ensures forall id :: id in Owed(w, s) ==> OwnBody(Apply(w, s).store, id)
  {
    StepFrame(w, s);
    hide InQueue, StoreAfter, LogAfter, Lost;
  }

  lemma StepKeepsDeliveries(w: World, s: Step)
    requires DeliveredOnce(w) && Enabled(w, s)
    ensures DeliveredOnce(Apply(w, s))
  {
    DelayedAfter(w, s);
    hide DeliveredOnce, IsBatch, IsHighest, StoreAfter, SurplusAfter, Owed;
    match s
    case Delay(id, fireAtMs, body) => DelayDelivers(w, id, fireAtMs, body);
    case Undelay(id) => UndelayDelivers(w, id);
    case PopDelayed(batch, at, max) => PopDelivers(w, batch, at, max);
    case _ => SameDeliveries(w, Apply(w, s));
  }

  lemma SameDeliveries(w: World, w': World)
    requires DeliveredOnce(w) && w'.store.delayed == w.store.delayed && w'.armed == w.armed
    requires w'.issued == w.issued && w'.withdrawn == w.withdrawn && w'.delivered == w.delivered
    ensures DeliveredOnce(w')
  {
  }

  ghost function After(w: World, steps: seq<Step>): World
    decreases |steps|
  {
    if steps == [] then w else After(Apply(w, steps[0]), steps[1..])
  }

  ghost predicate CanRun(w: World, steps: seq<Step>)
    decreases |steps|
  {
    steps == [] || (Enabled(w, steps[0]) && CanRun(Apply(w, steps[0]), steps[1..]))
  }

  /** In every run of the store, under every interleaving: counters are exact, no owed task is lost, and every
      scheduling of a delayed task is delivered at most once and never after it was withdrawn. */
  lemma {:induction false} EveryRunOk(w: World, steps: seq<Step>)
    requires WorldOk(w) && CanRun(w, steps)
    ensures WorldOk(After(w, steps))
    decreases |steps|
  {
    hide Counted, Accounted, Keyed, DeliveredOnce, NoneForgotten, Enabled, Apply;
    if steps != [] {
      StepKeepsCounts(w, steps[0]);
      StepKeepsAccounts(w, steps[0]);
      StepKeepsDeliveries(w, steps[0]);
      StepForgetsNone(w, steps[0]);
      EveryRunOk(Apply(w, steps[0]), steps[1..]);
    }
  }

  /** From the empty store on. */
  lemma EveryRunFromStart(steps: seq<Step>)
    requires CanRun(START, steps)
    ensures WorldOk(After(START, steps))
  {
    StartOk();
    EveryRunOk(START, steps);
  }

  // ---------- Recovery after a crash ----------

  /** The task is being processed under a lease that ends at `expiry`, and its body is stored. */
  predicate Taken(w: World, id: string, expiry: int)
  {
    && id in w.store.processing && id in w.store.bodies
    && id in w.store.leases && w.store.leases[id].expiry == Some(expiry)
  }

  /** The step neither takes, claims, renews nor completes the task. */
  predicate Ignores(s: Step, id: string)
  {
    match s
    case Pop(t, _, _) => t.id != id
    case TakeLease(x, _, _) => x != id
    case Beat(x, _, _) => x != id
    case Remove(x) => x != id
    case _ => true
  }

  lemma PopTakes(w: World, t: Task, owner: string, durationMs: int)
    requires Seconds(durationMs) >= 1 && t.id in w.store.bodies
    ensures Taken(Apply(w, Pop(t, owner, durationMs)), t.id, w.now + 1000 * Seconds(durationMs))
  {
  }

  lemma StaysTaken(w: World, s: Step, id: string, expiry: int)
    requires Taken(w, id, expiry) && Ignores(s, id) && (s.Scan? ==> w.now < expiry)
    ensures Taken(Apply(w, s), id, expiry)
  {
    hide LogAfter, SurplusAfter, Owed;
    if ConcernsQueue(s) {
      hide Requeued, Seconds;
    } else {
      StepFrame(w, s);
      hide StoreAfter;
    }
  }

  /** A scan leaves a taken task alone before the end of its lease, and queues it from then on. */
  lemma ScanRequeues(w: World, id: string, expiry: int)
    requires Taken(w, id, expiry)
    ensures var after := Apply(w, Scan).store;
            if w.now < expiry then Taken(Apply(w, Scan), id, expiry)
            else id !in after.processing && w.store.bodies[id] in after.queue
  {
    assert w.now >= expiry ==> id in Orphans(w.store, w.now);
  }

  /** No scan of the run comes at or after the time. */
  ghost predicate ScansBefore(w: World, steps: seq<Step>, time: int)
    decreases |steps|
  {
    steps == [] ||
    ((steps[0].Scan? ==> w.now < time) && ScansBefore(Apply(w, steps[0]), steps[1..], time))
  }

  lemma {:induction false} TakenUntilScanned(w: World, steps: seq<Step>, id: string, expiry: int)
    requires Taken(w, id, expiry) && ScansBefore(w, steps, expiry)
    requires forall n :: 0 <= n < |steps| ==> Ignores(steps[n], id)
    ensures Taken(After(w, steps), id, expiry)
    decreases |steps|
  {
    hide Apply, Taken, Ignores;
    if steps != [] {
      StaysTaken(w, steps[0], id, expiry);
      TakenUntilScanned(Apply(w, steps[0]), steps[1..], id, expiry);
    }
  }

  /** Whatever other steps any instance takes after a dequeue whose owner then falls silent, the task stays in the
      processing set until the first scan at or after the end of the lease, and that scan queues it again. */
  lemma CrashedTaskRequeued(w: World, t: Task, owner: string, durationMs: int, steps: seq<Step>)
    requires Seconds(durationMs) >= 1 && t.id in w.store.bodies
    requires forall n :: 0 <= n < |steps| ==> Ignores(steps[n], t.id)
    requires ScansBefore(Apply(w, Pop(t, owner, durationMs)), steps, w.now + 1000 * Seconds(durationMs))
    ensures var expiry := w.now + 1000 * Seconds(durationMs);
            var before := After(Apply(w, Pop(t, owner, durationMs)), steps);
            var after := Apply(before, Scan).store;
            && Taken(before, t.id, expiry)
            && (t.id in after.processing <==> before.now < expiry)
            && (before.now >= expiry ==>
                  && before.store.bodies[t.id] in after.queue
                  && (OwnBody(before.store, t.id) ==> InQueue(after, t.id)))
  {
    hide Seconds, Ignores, ScansBefore, Apply;
    var expiry := w.now + 1000 * Seconds(durationMs);
    var taken := Apply(w, Pop(t, owner, durationMs));
    PopTakes(w, t, owner, durationMs);
    TakenUntilScanned(taken, steps, t.id, expiry);
    ScanRequeues(After(taken, steps), t.id, expiry);
  }

  // ---------- Leases ----------

  /** The step neither takes the task from the queue, nor completes it, nor renews the lease for its owner. */
  predicate SparesLease(s: Step, id: string, owner: string)
  {
    match s
    case Pop(t, _, _) => t.id != id
    case Remove(x) => x != id
    case Beat(x, o, _) => x != id || o != owner
    case _ => true
  }

  /** A claim leaves a held lease as it is, and a heartbeat leaves every lease of another owner. */
  lemma LeaseSpared(s: Store, id: string, x: string, owner: string, durationMs: int, now: int)
    requires Leased(s, id, now)
    ensures var leases := Claim(s, x, owner, durationMs, now).leases; id in leases && leases[id] == s.leases[id]
    ensures x != id || owner != s.leases[id].owner ==>
              var leases := Heartbeat(s, x, owner, durationMs, now).leases; id in leases && leases[id] == s.leases[id]
  {
    hide Seconds;
  }

  lemma LeaseStays(w: World, s: Step, id: string)
    requires Leased(w.store, id, w.now) && SparesLease(s, id, w.store.leases[id].owner)
    ensures var leases := Apply(w, s).store.leases; id in leases && leases[id] == w.store.leases[id]
  {
    hide LogAfter, SurplusAfter, Owed;
    match s
    case TakeLease(x, owner, durationMs) =>
      LeaseSpared(w.store, id, x, owner, durationMs, w.now);
      hide Claim, Leased;
    case Beat(x, owner, durationMs) =>
      LeaseSpared(w.store, id, x, owner, durationMs, w.now);
      hide Heartbeat, Leased;
    case Push(_) =>
    case Pop(_, _, _) =>
      hide Seconds;
    case Scan =>
      hide Requeued;
    case _ =>
      StepFrame(w, s);
      hide StoreAfter;
  }

  lemma {:induction false} TimePasses(w: World, steps: seq<Step>)
    requires CanRun(w, steps)
    ensures w.now <= After(w, steps).now
    decreases |steps|
  {
    if steps != [] {
      NowAfter(w, steps[0]);
      hide Apply, Enabled;
      TimePasses(Apply(w, steps[0]), steps[1..]);
    }
  }

  lemma NowAfter(w: World, s: Step)
    requires Enabled(w, s)
    ensures Apply(w, s).now == if s.Pass? then s.later else w.now
    ensures w.now <= Apply(w, s).now
  {
    hide LogAfter, StoreAfter, SurplusAfter, Owed, IsBatch, IsHighest;
  }

  /** Until it expires a lease excludes everyone else, whatever any instance does short of taking the task from
      the queue, completing it, or renewing as the owner: claims are refused and recovery passes the task over. */
  lemma {:induction false} LeaseExcludes(w: World, steps: seq<Step>, id: string, other: string, durationMs: int)
    requires CanRun(w, steps) && Leased(w.store, id, w.now)
    requires forall n :: 0 <= n < |steps| ==> SparesLease(steps[n], id, w.store.leases[id].owner)
    requires w.store.leases[id].expiry == None || After(w, steps).now < w.store.leases[id].expiry.value
    ensures var w' := After(w, steps);
            && Leased(w'.store, id, w'.now) && w'.store.leases[id] == w.store.leases[id]
            && Claim(w'.store, id, other, durationMs, w'.now) == w'.store
            && id !in Orphans(w'.store, w'.now)
            && (id in w'.store.processing ==> id in Recover(w'.store, w'.now).processing)
    decreases |steps|
  {
    if steps != [] {
      LeaseStays(w, steps[0], id);
      NowAfter(w, steps[0]);
      hide Apply, Enabled, Claim, Recover, Orphans, SparesLease;
      TimePasses(Apply(w, steps[0]), steps[1..]);
      LeaseExcludes(Apply(w, steps[0]), steps[1..], id, other, durationMs);
    }
  }

  // ---------- How often, and when, a child is released ----------

  /** The step releases the child: its body is returned as ready. */
  predicate Releases(w: World, s: Step, id: string)
  {
    s.ResolveEdge? && id in Released(w.store, s.edge)
  }

  ghost function ReleaseCount(w: World, steps: seq<Step>, id: string): nat
    decreases |steps|
  {
    if steps == [] then 0
    else (if Releases(w, steps[0], id) then 1 else 0) + ReleaseCount(Apply(w, steps[0]), steps[1..], id)
  }

  predicate Resaves(s: Step, id: string)
  {
    s.SaveChild? && s.t.id == id
  }

  ghost predicate NeverResaved(steps: seq<Step>, id: string)
  {
    forall n :: 0 <= n < |steps| ==> !Resaves(steps[n], id)
  }

  /** The step brings the counter of the child to zero. */
  predicate Zeroes(w: World, s: Step, id: string)
  {
    s.ResolveEdge? && s.edge in EdgesOf(w.store.children, id) && Counter(w.store.counts, id) == 1
  }

  /** Whenever a step of the run brings the counter of the child to zero, its body is stored. */
  ghost predicate StoredAtZero(w: World, steps: seq<Step>, id: string)
    decreases |steps|
  {
    steps == [] ||
    ((Zeroes(w, steps[0], id) ==> id in w.store.bodies) && StoredAtZero(Apply(w, steps[0]), steps[1..], id))
  }

  /** The child is not completed or deleted while its counter is above zero; once released it may be. */
  ghost predicate KeptWhileWaiting(w: World, steps: seq<Step>, id: string)
    decreases |steps|
  {
    steps == [] ||
    ((steps[0] == Remove(id) ==> Counter(w.store.counts, id) <= 0)
     && KeptWhileWaiting(Apply(w, steps[0]), steps[1..], id))
  }

  /** What a step does to the edges and the counter of a child it does not save again, and when it releases it. */
  ghost predicate EdgesMove(w: World, s: Step, id: string)
  {
    var w' := Apply(w, s);
    var hit := if s.ResolveEdge? && s.edge in EdgesOf(w.store.children, id) then 1 else 0;
    && EdgesOf(w'.store.children, id) == EdgesOf(w.store.children, id) - ResolvedBy(s)
    && |EdgesOf(w'.store.children, id)| == |EdgesOf(w.store.children, id)| - hit
    && Counter(w'.store.counts, id) == Counter(w.store.counts, id) - hit
    && (Releases(w, s, id) <==> hit == 1 && Counter(w.store.counts, id) == 1 && id in w.store.bodies)
  }

  lemma ResolveMoves(w: World, edge: Edge, id: string)
    ensures EdgesMove(w, ResolveEdge(edge), id)
  {
    hide LogAfter, SurplusAfter, Owed, Resolve, EdgesOf, Counter;
    ResolveCountsOne(w.store, edge, id);
    ResolvedEdge(w.store.children, edge, id);
    ReleasedMeans(w.store, edge, id);
  }

  lemma ResolvedEdge(children: map<Edge, set<string>>, edge: Edge, id: string)
    ensures edge in EdgesOf(children, id) <==> id in ChildrenOf(children, edge)
  {
  }

  lemma ReleasedMeans(s: Store, edge: Edge, id: string)
    ensures id in Released(s, edge)
       <==> id in ChildrenOf(s.children, edge) && Counter(s.counts, id) == 1 && id in s.bodies
  {
  }

  lemma SaveMoves(w: World, t: Task, id: string)
    requires t.id != id
    ensures EdgesMove(w, SaveChild(t), id)
  {
    AddToAllEdges(w.store.children, AllDeps(t), t.id, id);
    hide LogAfter, SurplusAfter, Owed, AddToAll, EdgesOf;
  }

  /** Counter and number of edges of a child move together: each resolved edge takes one off both. */
  lemma EdgeStep(w: World, s: Step, id: string)
    requires !Resaves(s, id)
    ensures EdgesMove(w, s, id)
  {
    match s
    case SaveChild(t) =>
      hide EdgesMove;
      SaveMoves(w, t, id);
    case ResolveEdge(edge) =>
      hide EdgesMove;
      ResolveMoves(w, edge, id);
    case _ =>
      hide EdgesMove;
      QuietMoves(w, s, id);
  }

  lemma QuietMoves(w: World, s: Step, id: string)
    requires !s.SaveChild? && !s.ResolveEdge?
    ensures EdgesMove(w, s, id)
  {
    StepFrame(w, s);
    hide StoreAfter, LogAfter, SurplusAfter, Owed, EdgesOf, Counter;
  }

  function ResolvedBy(s: Step): set<Edge>
  {
    if s.ResolveEdge? then {s.edge} else {}
  }

  /** The edges resolved by some step of a run. */
  function ResolvedIn(steps: seq<Step>): set<Edge>
  {
    set n | 0 <= n < |steps| && steps[n].ResolveEdge? :: steps[n].edge
  }

  lemma ResolvedInFirst(steps: seq<Step>)
    requires steps != []
    ensures ResolvedIn(steps) == ResolvedBy(steps[0]) + ResolvedIn(steps[1..])
  {
    forall e | e in ResolvedIn(steps) ensures e in ResolvedBy(steps[0]) + ResolvedIn(steps[1..]) {
      var n :| 0 <= n < |steps| && steps[n].ResolveEdge? && steps[n].edge == e;
      if n > 0 {
        assert steps[1..][n - 1] == steps[n];
      }
    }
    forall e | e in ResolvedIn(steps[1..]) ensures e in ResolvedIn(steps) {
      var n :| 0 <= n < |steps[1..]| && steps[1..][n].ResolveEdge? && steps[1..][n].edge == e;
      assert steps[n + 1] == steps[1..][n];
    }
  }

  /** Over any run a child that is not saved again waits for exactly its edges that no step resolved. */
  lemma {:induction false} EdgesAfter(w: World, steps: seq<Step>, id: string)
    requires NeverResaved(steps, id)
    ensures EdgesOf(After(w, steps).store.children, id) == EdgesOf(w.store.children, id) - ResolvedIn(steps)
    decreases |steps|
  {
    hide EdgesOf, Apply, ResolvedIn, ResolvedBy, Resaves;
    if steps == [] {
      NothingResolved();
    } else {
      EdgeStep(w, steps[0], id);
      EdgesAfter(Apply(w, steps[0]), steps[1..], id);
      ResolvedInFirst(steps);
    }
  }

  lemma NothingResolved()
    ensures ResolvedIn([]) == {}
  {
  }

  /** Over any run in which a child is not saved as waiting again it is released exactly once if as many of its edges
      are resolved as its counter says and its body is stored when the last of those is, and not at all otherwise. */
  lemma {:induction false} ReleaseCountExact(w: World, steps: seq<Step>, id: string)
    requires NeverResaved(steps, id)
    ensures var done := |EdgesOf(w.store.children, id)| - |EdgesOf(After(w, steps).store.children, id)|;
            && done >= 0
            && ReleaseCount(w, steps, id)
               == if 1 <= Counter(w.store.counts, id) <= done && StoredAtZero(w, steps, id) then 1 else 0
    decreases |steps|
  {
    hide EdgesOf, Counter, Apply, Releases, Resaves;
    if steps != [] {
      EdgeStep(w, steps[0], id);
      ReleaseCountExact(Apply(w, steps[0]), steps[1..], id);
      if Zeroes(w, steps[0], id) {
        ZeroOnce(Apply(w, steps[0]), steps[1..], id);
      }
    }
  }

  /** A counter at zero or below is not brought to zero again. */
  lemma {:induction false} ZeroOnce(w: World, steps: seq<Step>, id: string)
    requires Counter(w.store.counts, id) <= 0 && NeverResaved(steps, id)
    ensures StoredAtZero(w, steps, id)
    decreases |steps|
  {
    hide EdgesOf, Counter, Apply, Releases, Resaves;
    if steps != [] {
      EdgeStep(w, steps[0], id);
      ZeroOnce(Apply(w, steps[0]), steps[1..], id);
    }
  }

  /** It is enough that the body is stored and the task not completed or deleted while it waits. */
  lemma {:induction false} KeptMeansStored(w: World, steps: seq<Step>, id: string)
    requires id in w.store.bodies && NeverResaved(steps, id) && KeptWhileWaiting(w, steps, id)
    ensures StoredAtZero(w, steps, id)
    decreases |steps|
  {
    hide EdgesOf, Counter, Apply, Releases, Resaves;
    if steps != [] {
      if steps[0] == Remove(id) {
        ZeroOnce(w, steps, id);
      } else {
        BodyStays(w, steps[0], id);
        KeptMeansStored(Apply(w, steps[0]), steps[1..], id);
      }
    }
  }

  lemma BodyStays(w: World, s: Step, id: string)
    requires id in w.store.bodies && s != Remove(id)
    ensures id in Apply(w, s).store.bodies
  {
    StepFrame(w, s);
    hide StoreAfter, LogAfter, SurplusAfter, Owed;
  }

  /** A fresh waiting task none of whose parents is left: it was released, and once, if and only if it listed some
      dependency and none of them twice, and its body was stored when the last edge was resolved. */
  lemma DuplicateNeverReleased(w: World, t: Task, steps: seq<Step>)
    requires EdgesOf(w.store.children, t.id) == {} && NeverResaved(steps, t.id)
    requires EdgesOf(After(Apply(w, SaveChild(t)), steps).store.children, t.id) == {}
    ensures var w' := Apply(w, SaveChild(t));
            && ReleaseCount(w', steps, t.id)
               == (if AllDeps(t) != [] && Distinct(AllDeps(t)) && StoredAtZero(w', steps, t.id) then 1 else 0)
            && (KeptWhileWaiting(w', steps, t.id) ==> StoredAtZero(w', steps, t.id))
  {
    SavedChild(w, t);
    EdgeSetSize(AllDeps(t));
    hide Apply, EdgesOf, StoredAtZero, KeptWhileWaiting;
    var w' := Apply(w, SaveChild(t));
    ReleaseCountExact(w', steps, t.id);
    if KeptWhileWaiting(w', steps, t.id) {
      KeptMeansStored(w', steps, t.id);
    }
  }

  /** The shortest case: a dependency listed twice leaves no edge, a counter of one, and no release. */
  lemma ListedTwiceStaysWaiting()
    ensures var a := Edge("A", Succeeded);
            var s := SaveWaiting(EMPTY_STORE, Waiter("c", [a, a]));
            && EdgesOf(s.children, "c") == {a} && "c" !in Released(s, a)
            && EdgesOf(Resolve(s, a).children, "c") == {} && Counter(Resolve(s, a).counts, "c") == 1
  {
    var a := Edge("A", Succeeded);
    var t := Waiter("c", [a, a]);
    assert AllDeps(t) == [a, a];
    var s := SaveWaiting(EMPTY_STORE, t);
    AddToAllEdges(EMPTY_STORE.children, [a, a], "c", "c");
    assert EdgesOf(EMPTY_STORE.children, "c") == {} && EdgeSet([a, a]) == {a};
    assert s.counts["c"] == 2;
    hide AddToAll, EdgesOf;
    ResolvedEdge(s.children, a, "c");
    ResolveCountsOne(s, a, "c");
  }

  lemma SavedChild(w: World, t: Task)
    ensures var w' := Apply(w, SaveChild(t));
            && t.id in w'.store.bodies && Counter(w'.store.counts, t.id) == |AllDeps(t)|
            && EdgesOf(w'.store.children, t.id) == EdgesOf(w.store.children, t.id) + EdgeSet(AllDeps(t))
  {
    AddToAllEdges(w.store.children, AllDeps(t), t.id, t.id);
  }

  lemma {:induction false} SlackKept(w: World, steps: seq<Step>, id: string)
    requires NeverResaved(steps, id)
    ensures var w' := After(w, steps);
            Counter(w'.store.counts, id) - |EdgesOf(w'.store.children, id)|
            == Counter(w.store.counts, id) - |EdgesOf(w.store.children, id)|
    decreases |steps|
  {
    hide EdgesOf, Counter, Apply, Releases, Resaves;
    if steps != [] {
      EdgeStep(w, steps[0], id);
      SlackKept(Apply(w, steps[0]), steps[1..], id);
    }
  }

  /** When a task saved as waiting is released, edges of it are still unresolved if and only if it listed fewer
      dependencies than the edges it waits for; with none listed twice, if and only if it already waited for an
      edge that it does not list now. */
  lemma ReleasedEarlyIff(w: World, t: Task, steps: seq<Step>, edge: Edge)
    requires NeverResaved(steps, t.id)
    requires Releases(After(Apply(w, SaveChild(t)), steps), ResolveEdge(edge), t.id)
    ensures var before, listed := EdgesOf(w.store.children, t.id), EdgeSet(AllDeps(t));
            var after := Apply(After(Apply(w, SaveChild(t)), steps), ResolveEdge(edge));
            && (EdgesOf(after.store.children, t.id) != {} <==> |AllDeps(t)| < |before + listed|)
            && (Distinct(AllDeps(t)) ==> (EdgesOf(after.store.children, t.id) != {} <==> !(before <= listed)))
  {
    hide EdgesOf, EdgeSet, Counter, Apply, Releases, AllDeps, Distinct;
    var w1 := Apply(w, SaveChild(t));
    SavedChild(w, t);
    SlackKept(w1, steps, t.id);
    EdgeStep(After(w1, steps), ResolveEdge(edge), t.id);
    UnionSize(EdgesOf(w.store.children, t.id), EdgeSet(AllDeps(t)));
    EdgeSetSize(AllDeps(t));
  }

  lemma {:induction false} NotReleasedAgain(w: World, steps: seq<Step>, id: string)
    requires Counter(w.store.counts, id) <= 0 && NeverResaved(steps, id)
    ensures Counter(After(w, steps).store.counts, id) <= 0
    decreases |steps|
  {
    hide EdgesOf, Counter, Apply, Releases, Resaves;
    if steps != [] {
      EdgeStep(w, steps[0], id);
      NotReleasedAgain(Apply(w, steps[0]), steps[1..], id);
    }
  }

  /** Between two releases of the same child it was saved as waiting again. */
  lemma ReleasedOnce(w: World, first: Step, between: seq<Step>, second: Step, id: string)
    requires Releases(w, first, id) && Releases(After(Apply(w, first), between), second, id)
    ensures exists m :: 0 <= m < |between| && Resaves(between[m], id)
  {
    hide Apply;
    if NeverResaved(between, id) {
      EdgeStep(w, first, id);
      NotReleasedAgain(Apply(w, first), between, id);
      EdgeStep(After(Apply(w, first), between), second, id);
      assert false;
    }
  }

  // ---------- Draining the due part in batches ----------

  /** The delayed set after popping the batches one after another at a fixed time. */
  ghost predicate PopsTo(s: Store, batches: seq<seq<string>>, now: int, max: int, s': Store)
    decreases |batches|
  {
    if batches == [] then s' == s
    else IsBatch(s.delayed, now, max, batches[0]) && PopsTo(PopDue(s, batches[0]), batches[1..], now, max, s')
  }

  lemma BatchShrinks(s: Store, batch: seq<string>, now: int, max: int)
    requires IsBatch(s.delayed, now, max, batch)
    ensures DueIds(PopDue(s, batch).delayed, now) == DueIds(s.delayed, now) - set id | id in batch
    ensures |DueIds(PopDue(s, batch).delayed, now)| == |DueIds(s.delayed, now)| - |batch|
  {
    var due := DueIds(s.delayed, now);
    var taken := set id | id in batch;
    assert DueIds(PopDue(s, batch).delayed, now) == due - taken;
    DistinctSize(batch);
    assert taken <= due;
    assert |due - taken| == |due| - |taken| by {
      assert due == taken + (due - taken);
    }
  }

  lemma {:induction false} DistinctSize(ids: seq<string>)
    requires forall i, j :: 0 <= i < j < |ids| ==> ids[i] != ids[j]
    ensures |set id | id in ids| == |ids|
  {
    if ids != [] {
      var n := |ids| - 1;
      DistinctSize(ids[..n]);
      var front := set id | id in ids[..n];
      assert (set id | id in ids) == front + {ids[n]};
      assert ids[n] !in front;
    }
  }

  /** What is left of n after taking up to `size` away k times. */
  function LeftOver(n: nat, k: nat, size: nat): int
  {
    if n <= k * size then 0 else n - k * size
  }

  lemma LeftOverStep(n: nat, k: nat, size: nat)
    requires k > 0
    ensures LeftOver(n, k, size) == LeftOver(n - Least(size, n), k - 1, size)
  {
    assert k * size == (k - 1) * size + size;
    assert (k - 1) * size >= 0;
  }

  /** Popping k batches at a fixed time leaves `n - k * size` of the n due tasks, or none: with size max the due
      part is empty after the ceiling of n / max calls. */
  lemma {:induction false} BatchesDrain(s: Store, batches: seq<seq<string>>, now: int, max: int, s': Store)
    requires PopsTo(s, batches, now, max, s')
    ensures |DueIds(s'.delayed, now)| == LeftOver(|DueIds(s.delayed, now)|, |batches|, BatchSize(max))
    decreases |batches|
  {
    if batches != [] {
      hide IsBatch, DueIds, LeftOver, BatchSize;
      BatchShrinks(s, batches[0], now, max);
      BatchLength(s, batches[0], now, max);
      BatchesDrain(PopDue(s, batches[0]), batches[1..], now, max, s');
      LeftOverStep(|DueIds(s.delayed, now)|, |batches|, BatchSize(max));
    }
  }

  lemma BatchLength(s: Store, batch: seq<string>, now: int, max: int)
    requires IsBatch(s.delayed, now, max, batch)
    ensures |batch| == Least(BatchSize(max), |DueIds(s.delayed, now)|) && BatchSize(max) > 0
  {
  }

  // ---------- Scores below zero ----------

  /** The members a caller would call due: those with a score up to `now`. */
  function PastIds(delayed: map<string, int>, now: int): set<string>
  {
    set id | id in delayed && delayed[id] <= now
  }

  /** A batch takes no member with a score below zero. */
  lemma BatchSparesNegative(s: Store, batch: seq<string>, now: int, max: int)
    requires IsBatch(s.delayed, now, max, batch)
    ensures var after := PopDue(s, batch).delayed;
            && (forall id :: id in after ==> id in s.delayed && after[id] == s.delayed[id])
            && (forall id :: id in s.delayed && s.delayed[id] < 0 ==> id in after)
  {
  }

  lemma {:induction false} NegativeStays(s: Store, batches: seq<seq<string>>, now: int, max: int, s': Store)
    requires PopsTo(s, batches, now, max, s')
    ensures forall id :: id in s'.delayed ==> id in s.delayed && s'.delayed[id] == s.delayed[id]
    ensures forall id :: id in s.delayed && s.delayed[id] < 0 ==> id in s'.delayed
    decreases |batches|
  {
    hide IsBatch, PopDue;
    if batches != [] {
      BatchSparesNegative(s, batches[0], now, max);
      NegativeStays(PopDue(s, batches[0]), batches[1..], now, max, s');
    }
  }

  /** Once enough batches are popped at a fixed time, what is left of the members with a score up to that time are
      exactly those with a score below zero. */
  lemma LeftAreNegative(s: Store, batches: seq<seq<string>>, now: int, max: int, s': Store)
    requires PopsTo(s, batches, now, max, s') && |DueIds(s.delayed, now)| <= |batches| * BatchSize(max)
    ensures PastIds(s'.delayed, now) == set id | id in PastIds(s.delayed, now) && s.delayed[id] < 0
  {
    NegativeStays(s, batches, now, max, s');
    BatchesDrain(s, batches, now, max, s');
    assert DueIds(s'.delayed, now) == {};
    hide PopsTo, LeftOver;
    forall id | id in PastIds(s'.delayed, now) ensures s.delayed[id] < 0 {
      assert id !in DueIds(s'.delayed, now);
    }
  }

  /** So every member with a score up to `now` is delivered if and only if no score is below zero. */
  lemma AllPastPoppedIff(s: Store, batches: seq<seq<string>>, now: int, max: int, s': Store)
    requires now >= 0
    requires PopsTo(s, batches, now, max, s') && |DueIds(s.delayed, now)| <= |batches| * BatchSize(max)
    ensures PastIds(s'.delayed, now) == {} <==> forall id :: id in s.delayed ==> s.delayed[id] >= 0
  {
    LeftAreNegative(s, batches, now, max, s');
    hide PopsTo;
    if id :| id in s.delayed && s.delayed[id] < 0 {
      assert id in PastIds(s.delayed, now);
      assert id in PastIds(s'.delayed, now);
    }
  }

  /** A task delayed to one millisecond before the epoch stays in the set for ever. */
  lemma NegativeScoreNeverDue(now: int, max: int, batch: seq<string>)
    requires IsBatch(ScheduleDelayed(EMPTY_STORE, "x", -1, None).delayed, now, max, batch)
    ensures batch == []
    ensures PopDue(ScheduleDelayed(EMPTY_STORE, "x", -1, None), batch)
         == ScheduleDelayed(EMPTY_STORE, "x", -1, None)
  {
    var s := ScheduleDelayed(EMPTY_STORE, "x", -1, None);
    assert DueIds(s.delayed, now) == {};
    assert batch == [];
    assert PopDue(s, batch).delayed == s.delayed;
  }
}
