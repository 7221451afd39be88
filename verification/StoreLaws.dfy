/** What each operation of the store means for a caller, in the fields of the task and plain times, and what follows
    over runs for priorities and leases. */
module StoreLaws {
  import opened StoreModel
  import opened StoreInvariants
  import opened StoreRuns

  // ---------- Saving ----------

  lemma SaveStores(s: Store, t: Task)
    ensures var s' := Save(s, t);
            && t.id in s'.bodies && s'.bodies[t.id] == t
            && (forall id :: id != t.id ==> (id in s'.bodies <==> id in s.bodies))
            && (forall id :: id in s.bodies && id != t.id ==> s'.bodies[id] == s.bodies[id])
            && s' == s.(bodies := s'.bodies)
  {
  }

  /** A saved waiting task waits for what it waited for before, for its dependencies, and for the success of each task
      it depends on; its counter is the number it lists. No other child is concerned. */
  lemma SavedWaits(s: Store, t: Task)
    ensures var s' := SaveWaiting(s, t);
            && EdgesOf(s'.children, t.id)
               == EdgesOf(s.children, t.id) + (set e | e in t.dependencies)
                  + (set p | p in t.dependsOn :: Edge(p, Succeeded))
            && Counter(s'.counts, t.id) == |t.dependencies| + |t.dependsOn|
            && t.id in s'.bodies && s'.bodies[t.id] == t
            && s' == s.(bodies := s'.bodies, children := s'.children, counts := s'.counts)
    ensures forall id :: id != t.id ==>
              && EdgesOf(SaveWaiting(s, t).children, id) == EdgesOf(s.children, id)
              && Counter(SaveWaiting(s, t).counts, id) == Counter(s.counts, id)
  {
    AddToAllEdges(s.children, AllDeps(t), t.id, t.id);
    forall id | id != t.id
      ensures EdgesOf(SaveWaiting(s, t).children, id) == EdgesOf(s.children, id)
    {
      AddToAllEdges(s.children, AllDeps(t), t.id, id);
    }
    DepsAre(t);
  }

  lemma DepsAre(t: Task)
    ensures EdgeSet(AllDeps(t)) == (set e | e in t.dependencies) + (set p | p in t.dependsOn :: Edge(p, Succeeded))
  {
    var legacy := LegacyEdges(t.dependsOn);
    assert forall e :: e in AllDeps(t) <==> e in t.dependencies || e in legacy;
    forall p | p in t.dependsOn ensures Edge(p, Succeeded) in legacy {
      var i :| 0 <= i < |t.dependsOn| && t.dependsOn[i] == p;
      assert legacy[i] == Edge(p, Succeeded);
    }
  }

  /** Resolving an edge drops it and no other, and forgets the counter of whoever it releases. */
  lemma ResolveDrops(s: Store, edge: Edge)
    ensures var s' := Resolve(s, edge);
            && edge !in s'.children
            && (forall e :: e != edge ==> ChildrenOf(s'.children, e) == ChildrenOf(s.children, e))
            && (forall id :: id in Released(s, edge) ==> id !in s'.counts)
            && s' == s.(children := s'.children, counts := s'.counts)
  {
  }

  // ---------- Bodies handed out ----------

  /** The bodies of a list of ids come in its order, each stored one once. */
  lemma BodiesOfNext(bodies: map<string, Task>, ids: seq<string>, id: string)
    ensures BodiesOf(bodies, []) == []
    ensures BodiesOf(bodies, ids + [id]) == BodiesOf(bodies, ids) + if id in bodies then [bodies[id]] else []
  {
    assert (ids + [id])[..|ids|] == ids;
  }

  // ---------- Deleting and recovering ----------

  lemma DeleteForgets(s: Store, id: string)
    ensures var s' := Delete(s, id);
            && id !in s'.bodies && id !in s'.leases && id !in s'.processing
            && (forall x :: x != id ==> (x in s'.processing <==> x in s.processing))
            && (forall x :: x in s.bodies && x != id ==> x in s'.bodies && s'.bodies[x] == s.bodies[x])
            && (forall x :: x in s.leases && x != id ==> x in s'.leases && s'.leases[x] == s.leases[x])
            && s' == s.(bodies := s'.bodies, leases := s'.leases, processing := s'.processing)
  {
  }

  /** A scan leaves exactly the leased tasks in processing, and adds to the queue exactly the bodies of those that
      lost their lease, with their priorities. */
  lemma RecoverMeans(s: Store, now: int)
    ensures var s' := Recover(s, now);
            && (forall id :: id in s'.processing <==> id in s.processing && Leased(s, id, now))
            && (forall t :: t in s'.queue <==>
                  || t in s.queue
                  || exists id :: id in s.processing && !Leased(s, id, now) && id in s.bodies && s.bodies[id] == t)
            && (forall id :: id in s.processing && !Leased(s, id, now) && id in s.bodies ==>
                  s.bodies[id] in s'.queue && s'.queue[s.bodies[id]] == s.bodies[id].priority)
            && s' == s.(queue := s'.queue, processing := s'.processing)
  {
    hide Leased;
    var orphans := Orphans(s, now);
    assert forall id :: id in orphans <==> id in s.processing && !Leased(s, id, now) && id in s.bodies;
    var more := set id | id in orphans :: s.bodies[id];
    assert forall t :: t in more <==> exists id :: id in orphans && s.bodies[id] == t;
  }

  // ---------- Priorities ----------

  ghost predicate Scored(s: Store)
  {
    forall t :: t in s.queue ==> s.queue[t] == t.priority
  }

  /** A push and a scan add entries scored by priority, a pop removes one, and no other step touches the queue. */
  lemma QueueAfterStep(w: World, s: Step)
    ensures var queue, queue' := w.store.queue, StoreAfter(w, s).queue;
            && (s.Push? ==> queue' == queue[s.t := s.t.priority])
            && (s.Pop? ==> queue' == queue - {s.t})
            && (s.Scan? ==>
                  && (forall t :: t in queue ==> t in queue')
                  && (forall t :: t in queue' ==> queue'[t] == t.priority || (t in queue && queue'[t] == queue[t])))
            && (!s.Push? && !s.Pop? && !s.Scan? ==> queue' == queue)
  {
    match s
    case Push(_) =>
    case Pop(_, _, _) =>
      hide Seconds;
    case Scan =>
      hide Orphans, Leased;
    case TakeLease(id, owner, durationMs) =>
      LeasesAlone(w.store, id, owner, durationMs, w.now);
      hide Claim;
    case Beat(id, owner, durationMs) =>
      LeasesAlone(w.store, id, owner, durationMs, w.now);
      hide Heartbeat;
    case _ =>
      StepFrame(w, s);
      hide StoreAfter;
  }

  lemma StepKeepsScores(w: World, s: Step)
    requires Scored(w.store)
    ensures Scored(Apply(w, s).store)
  {
    QueueAfterStep(w, s);
    hide LogAfter, SurplusAfter, Owed, StoreAfter;
  }

  lemma {:induction false} ScoresArePriorities(w: World, steps: seq<Step>)
    requires Scored(w.store)
    ensures Scored(After(w, steps).store)
    decreases |steps|
  {
    hide Apply;
    if steps != [] {
      StepKeepsScores(w, steps[0]);
      ScoresArePriorities(Apply(w, steps[0]), steps[1..]);
    }
  }

  /** In every run from the empty store each dequeue takes a task of the highest priority in the queue. */
  lemma HighestPriorityFirst(steps: seq<Step>, t: Task, owner: string, durationMs: int)
    requires Enabled(After(START, steps), Pop(t, owner, durationMs))
    ensures t in After(START, steps).store.queue
    ensures forall u :: u in After(START, steps).store.queue ==> u.priority <= t.priority
  {
    ScoresArePriorities(START, steps);
  }

  /** What is queued stays queued until it is popped: a push adds its task, and only a pop takes one away. */
  lemma QueueChanges(w: World, s: Step)
    ensures s.Push? ==> s.t in Apply(w, s).store.queue
    ensures forall t :: t in w.store.queue && !(s.Pop? && s.t == t) ==> t in Apply(w, s).store.queue
    ensures s.Pop? ==> s.t !in Apply(w, s).store.queue
  {
    QueueAfterStep(w, s);
    hide LogAfter, SurplusAfter, Owed, StoreAfter;
  }

  // ---------- Leases ----------

  /** Held by the owner at exactly the times before `expiry`, or at all times. */
  ghost predicate HeldUntil(s: Store, id: string, owner: string, expiry: Option<int>)
  {
    && id in s.leases && s.leases[id].owner == owner
    && forall at :: Leased(s, id, at) <==> expiry == None || at < expiry.value
  }

  /** A dequeue gives its caller a lease that ends after the whole seconds of its duration. */
  lemma DequeueLeases(s: Store, t: Task, owner: string, durationMs: int, now: int)
    requires durationMs >= 1000
    ensures var s' := Dequeue(s, t, owner, durationMs, now);
            && HeldUntil(s', t.id, owner, Some(now + 1000 * (durationMs / 1000)))
            && t.id in s'.processing && t !in s'.queue
  {
  }

  /** A granted claim gives its caller a lease for the duration, or for good when that is not positive. */
  lemma ClaimGrants(s: Store, id: string, owner: string, durationMs: int, now: int)
    requires !Leased(s, id, now)
    ensures HeldUntil(Claim(s, id, owner, durationMs, now), id, owner,
                      if durationMs > 0 then Some(now + durationMs) else None)
  {
  }

  /** A heartbeat of the holder moves the end of the lease; with less than a second it ends the lease. Nobody else's
      heartbeat changes anything. */
  lemma HeartbeatRenews(s: Store, id: string, owner: string, durationMs: int, now: int)
    ensures var s' := Heartbeat(s, id, owner, durationMs, now);
            if Leased(s, id, now) && s.leases[id].owner == owner then
              if durationMs >= 1000 then HeldUntil(s', id, owner, Some(now + 1000 * (durationMs / 1000)))
              else forall at :: !Leased(s', id, at)
            else s' == s
  {
  }

  /** A claimer can renew the lease it was granted at any time before its end. */
  lemma ClaimerRenews(s: Store, id: string, owner: string, durationMs: int, now: int, renewMs: int, at: int)
    requires !Leased(s, id, now) && renewMs >= 1000 && (durationMs > 0 ==> at < now + durationMs)
    ensures HeldUntil(Heartbeat(Claim(s, id, owner, durationMs, now), id, owner, renewMs, at), id, owner,
                      Some(at + 1000 * (renewMs / 1000)))
  {
    var s' := Claim(s, id, owner, durationMs, now);
    ClaimGrants(s, id, owner, durationMs, now);
    HeartbeatRenews(s', id, owner, renewMs, at);
    hide Claim, Heartbeat;
    assert Leased(s', id, at);
  }

  /** In this state the owner holds the task: a scan passes it over, and every claim is refused. */
  ghost predicate Holds(w: World, id: string, owner: string)
  {
    && Leased(w.store, id, w.now) && w.store.leases[id].owner == owner
    && (id in w.store.processing ==> id in Recover(w.store, w.now).processing)
    && id !in Orphans(w.store, w.now)
    && forall other, durationMs :: Claim(w.store, id, other, durationMs, w.now) == w.store
  }

  ghost predicate HoldsThroughout(w: World, steps: seq<Step>, id: string, owner: string)
    decreases |steps|
  {
    Holds(w, id, owner) && (steps == [] || HoldsThroughout(Apply(w, steps[0]), steps[1..], id, owner))
  }

  /** The owner of a lease that ends at `expiry` beats again before each end; otherwise nobody takes the task from the
      queue or completes it. */
  predicate BeatsInTime(now: int, expiry: int, steps: seq<Step>, id: string, owner: string)
    decreases |steps|
  {
    steps == [] ||
    var s, rest := steps[0], steps[1..];
    if s.Pass? then s.later < expiry && BeatsInTime(s.later, expiry, rest, id, owner)
    else if s.Beat? && s.id == id && s.owner == owner then
      s.durationMs >= 1000 && BeatsInTime(now, now + 1000 * (s.durationMs / 1000), rest, id, owner)
    else SparesLease(s, id, owner) && BeatsInTime(now, expiry, rest, id, owner)
  }

  lemma LeaseMeansHolds(w: World, id: string, owner: string, expiry: int)
    requires id in w.store.leases && w.store.leases[id] == Lease(owner, Some(expiry)) && w.now < expiry
    ensures Holds(w, id, owner)
  {
    hide Requeued;
  }

  lemma BeatStep(w: World, id: string, owner: string, expiry: int, durationMs: int)
    requires id in w.store.leases && w.store.leases[id] == Lease(owner, Some(expiry)) && w.now < expiry
    requires durationMs >= 1000
    ensures var w' := Apply(w, Beat(id, owner, durationMs));
            && w'.now == w.now && id in w'.store.leases
            && w'.store.leases[id] == Lease(owner, Some(w.now + 1000 * (durationMs / 1000)))
  {
    hide LogAfter, SurplusAfter, Owed;
  }

  /** An owner that beats again before each end of its lease holds the task in every state of the run. */
  lemma {:induction false} BeatingHolds(w: World, steps: seq<Step>, id: string, owner: string, expiry: int)
    requires id in w.store.leases && w.store.leases[id] == Lease(owner, Some(expiry)) && w.now < expiry
    requires CanRun(w, steps) && BeatsInTime(w.now, expiry, steps, id, owner)
    ensures HoldsThroughout(w, steps, id, owner)
    decreases |steps|
  {
    LeaseMeansHolds(w, id, owner, expiry);
    hide Holds;
    if steps != [] {
      var s := steps[0];
      NowAfter(w, s);
      if s.Beat? && s.id == id && s.owner == owner {
        BeatStep(w, id, owner, expiry, s.durationMs);
        hide Apply, Enabled, SparesLease;
        BeatingHolds(Apply(w, s), steps[1..], id, owner, w.now + 1000 * (s.durationMs / 1000));
      } else {
        LeaseStays(w, s, id);
        hide Apply, Enabled, SparesLease;
        BeatingHolds(Apply(w, s), steps[1..], id, owner, expiry);
      }
    }
  }

  // ---------- The delayed set ----------

  /** A scheduling sets the score to the fire time; unscheduling removes it; other ids are not concerned. */
  lemma DelayedMeans(s: Store, id: string, fireAtMs: int, body: Option<Task>)
    requires id != ""
    ensures var s' := ScheduleDelayed(s, id, fireAtMs, body);
            && id in s'.delayed && s'.delayed[id] == fireAtMs
            && (forall x :: x != id ==> (x in s'.delayed <==> x in s.delayed))
            && (forall x :: x in s.delayed && x != id ==> s'.delayed[x] == s.delayed[x])
            && (body.Some? ==> id in s'.bodies && s'.bodies[id] == body.value)
            && (body == None ==> s'.bodies == s.bodies)
            && s' == s.(delayed := s'.delayed, bodies := s'.bodies)
    ensures var s' := UnscheduleDelayed(s, id);
            && id !in s'.delayed
            && (forall x :: x in s.delayed && x != id ==> x in s'.delayed && s'.delayed[x] == s.delayed[x])
            && s' == s.(delayed := s'.delayed)
    ensures ScheduleDelayed(s, "", fireAtMs, body) == s && UnscheduleDelayed(s, "") == s
  {
  }

  /** A batch has as many ids as there are due, up to max, or up to a hundred when max is not positive. */
  lemma BatchSizes(delayed: map<string, int>, now: int, max: int, batch: seq<string>)
    requires IsBatch(delayed, now, max, batch)
    ensures var n := |set id | id in delayed && 0 <= delayed[id] <= now|;
            |batch| == if max > 0 then (if n <= max then n else max) else if n <= 100 then n else 100
    ensures forall id :: id in batch ==> id in delayed && 0 <= delayed[id] <= now
  {
    assert DueIds(delayed, now) == set id | id in delayed && 0 <= delayed[id] <= now;
  }

  /** With a positive max, k calls at a fixed time leave nothing due if and only if `k * max` reaches the number due. */
  lemma CallsNeeded(s: Store, batches: seq<seq<string>>, now: int, max: int, s': Store)
    requires PopsTo(s, batches, now, max, s') && max > 0
    ensures var n := |set id | id in s.delayed && 0 <= s.delayed[id] <= now|;
            (forall id :: id in s'.delayed ==> !(0 <= s'.delayed[id] <= now)) <==> n <= |batches| * max
  {
    BatchesDrain(s, batches, now, max, s');
    assert DueIds(s.delayed, now) == set id | id in s.delayed && 0 <= s.delayed[id] <= now;
    var left := DueIds(s'.delayed, now);
    assert |left| == 0 <==> left == {};
    hide PopsTo;
    if id :| id in s'.delayed && 0 <= s'.delayed[id] <= now {
      assert id in left;
    }
  }

  function Concat(batches: seq<seq<string>>): seq<string>
    decreases |batches|
  {
    if batches == [] then [] else batches[0] + Concat(batches[1..])
  }

  /** `ids` are distinct, past, and in order of fire time. */
  ghost predicate InOrder(delayed: map<string, int>, now: int, ids: seq<string>)
  {
    && (forall i :: 0 <= i < |ids| ==> ids[i] in delayed && 0 <= delayed[ids[i]] <= now)
    && (forall i, j :: 0 <= i < j < |ids| ==> ids[i] != ids[j] && delayed[ids[i]] <= delayed[ids[j]])
  }

  lemma PrependBatch(s: Store, batch: seq<string>, rest: seq<string>, now: int, max: int)
    requires IsBatch(s.delayed, now, max, batch) && InOrder(PopDue(s, batch).delayed, now, rest)
    ensures InOrder(s.delayed, now, batch + rest)
  {
    forall id | id in rest ensures id in DueIds(s.delayed, now) && id !in batch {
    }
  }

  /** Calls at a fixed time hand out each due id at most once and in order of fire time, across the calls as well as
      within one; they remove what they hand out, and what they leave due fires no earlier than anything they took. */
  lemma {:induction false} PopsInOrder(s: Store, batches: seq<seq<string>>, now: int, max: int, s': Store)
    requires PopsTo(s, batches, now, max, s')
    ensures InOrder(s.delayed, now, Concat(batches))
    ensures forall id :: id in s'.delayed <==> id in s.delayed && id !in Concat(batches)
    ensures forall id :: id in s'.delayed ==> s'.delayed[id] == s.delayed[id]
    ensures forall id, popped :: id in s'.delayed && 0 <= s'.delayed[id] <= now && popped in Concat(batches) ==>
              s.delayed[popped] <= s.delayed[id]
    decreases |batches|
  {
    if batches != [] {
      PopsInOrder(PopDue(s, batches[0]), batches[1..], now, max, s');
      PrependBatch(s, batches[0], Concat(batches[1..]), now, max);
      hide InOrder;
      forall id, popped | id in s'.delayed && 0 <= s'.delayed[id] <= now && popped in Concat(batches)
        ensures popped in s.delayed && s.delayed[popped] <= s.delayed[id]
      {
        assert id in DueIds(s.delayed, now);
      }
    }
  }
}
