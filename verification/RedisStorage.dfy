/** The storage layer as an object over the keys of one Redis database. Every method is one script or pipeline
    and is proved to take the step of the same name of `StoreModel`. */
module RedisStorages {
  import opened StoreModel
  import opened StoreInvariants

  datatype DequeueResult = Nothing | Got(task: Task) | DequeueFailed

  /** The sorted-set range query with a limit: repeatedly take a due id of least score. */
  method RangeByScore(delayed: map<string, int>, now: int, max: int) returns (batch: seq<string>)
    ensures IsBatch(delayed, now, max, batch)
  {
    var due := set id | id in delayed && 0 <= delayed[id] <= now;
    var left := due;
    batch := [];
    while left != {} && |batch| < BatchSize(max)
      invariant left <= due == DueIds(delayed, now)
      invariant |batch| <= BatchSize(max) && |batch| + |left| == |due|
      invariant forall i :: 0 <= i < |batch| ==> batch[i] in due && batch[i] !in left
      invariant forall id :: id in due ==> id in left || id in batch
      invariant forall i, j :: 0 <= i < j < |batch| ==> batch[i] != batch[j] && delayed[batch[i]] <= delayed[batch[j]]
      invariant forall id, i :: id in left && 0 <= i < |batch| ==> delayed[batch[i]] <= delayed[id]
      decreases left
    {
      var next :| next in left;
      next := LeastScore(delayed, left, next);
      left := left - {next};
      batch := batch + [next];
    }
  }

  method LeastScore(delayed: map<string, int>, ids: set<string>, start: string) returns (least: string)
    requires start in ids && ids <= delayed.Keys
    ensures least in ids && forall id :: id in ids ==> delayed[least] <= delayed[id]
  {
    least := start;
    var rest := ids - {start};
    while rest != {}
      invariant rest <= ids && least in ids
      invariant forall id :: id in ids && id !in rest ==> delayed[least] <= delayed[id]
      decreases rest
    {
      var id :| id in rest;
      rest := rest - {id};
      if delayed[id] < delayed[least] {
        least := id;
      }
    }
  }

  /** What handling one more child of the edge does to the counters and to the children handed out so far. */
  lemma ReleaseOne(s: Store, edge: Edge, todo: set<string>, id: string)
    requires id in todo && todo <= ChildrenOf(s.children, edge)
    ensures var members, released := ChildrenOf(s.children, edge), Released(s, edge);
            var counts := Decremented(s.counts, members - todo, released - todo);
            var left := todo - {id};
            && Counter(counts, id) == Counter(s.counts, id)
            && (id in released <==> Counter(s.counts, id) - 1 == 0 && id in s.bodies)
            && released - left == (released - todo) + (if id in released then {id} else {})
            && id !in released - todo
            && Decremented(s.counts, members - left, released - left)
               == if id in released then counts - {id} else counts[id := Counter(s.counts, id) - 1]
  {
    var members, released := ChildrenOf(s.children, edge), Released(s, edge);
    var left := todo - {id};
    assert members - left == (members - todo) + {id};
    assert released - left == (released - todo) + (if id in released then {id} else {});
  }

  lemma HandOut(bodies: map<string, Task>, ids: seq<string>, id: string)
    requires id in bodies
    ensures BodiesOf(bodies, ids + [id]) == BodiesOf(bodies, ids) + [bodies[id]]
    ensures (set x | x in ids + [id]) == (set x | x in ids) + {id}
  {
    assert (ids + [id])[..|ids|] == ids;
  }

  lemma RequeueNone(s: Store, none: set<string>)
    requires none == {}
    ensures Requeued(s, none) == s.queue
  {
  }

  /** The processing set while the ids of `todo` have not been looked at yet. */
  function Kept(s: Store, todo: set<string>, now: int): set<string>
  {
    todo + set id | id in s.processing - todo && Leased(s, id, now)
  }

  lemma KeptAll(s: Store, now: int)
    ensures Kept(s, s.processing, now) == s.processing
    ensures Kept(s, {}, now) == Recover(s, now).processing
  {
  }

  lemma SameRecovery(s: Store, s': Store, now: int)
    requires Orphans(s, now) <= s.bodies.Keys
    requires s' == s.(queue := Requeued(s, Orphans(s, now)), processing := Recover(s, now).processing)
    ensures s' == Recover(s, now)
  {
  }

  lemma OrphansHaveBodies(s: Store, now: int)
    ensures Orphans(s, now) <= s.bodies.Keys
  {
  }

  lemma SameLease(s: Store, s': Store, id: string, now: int)
    requires s'.leases == s.leases
    ensures Leased(s', id, now) == Leased(s, id, now)
  {
  }

  /** What looking at one more id of the processing set changes. */
  lemma ScanOne(s: Store, todo: set<string>, id: string, now: int)
    requires id in todo && todo <= s.processing
    ensures Orphans(s, now) <= s.bodies.Keys
    ensures var orphans, left := Orphans(s, now), todo - {id};
            if id in orphans then
              && Requeued(s, orphans - left) == Requeued(s, orphans - todo)[s.bodies[id] := s.bodies[id].priority]
              && |orphans - left| == |orphans - todo| + 1
            else
              orphans - left == orphans - todo
  {
    OrphansHaveBodies(s, now);
    hide Requeued, Orphans, Leased;
    var orphans, left := Orphans(s, now), todo - {id};
    if id in orphans {
      assert orphans - left == (orphans - todo) + {id};
      RequeueOne(s, orphans - todo, id);
    } else {
      assert orphans - left == orphans - todo;
    }
  }

  lemma ScanKept(s: Store, todo: set<string>, id: string, now: int)
    requires id in todo && todo <= s.processing
    ensures id in Orphans(s, now) <==> !Leased(s, id, now) && id in s.bodies
    ensures Kept(s, todo - {id}, now) == if Leased(s, id, now) then Kept(s, todo, now) else Kept(s, todo, now) - {id}
  {
    hide Leased;
  }

  lemma RequeueOne(s: Store, ids: set<string>, id: string)
    requires ids <= s.bodies.Keys && id in s.bodies
    ensures Requeued(s, ids + {id}) == Requeued(s, ids)[s.bodies[id] := s.bodies[id].priority]
  {
    assert (set x | x in ids + {id} :: s.bodies[x]) == (set x | x in ids :: s.bodies[x]) + {s.bodies[id]};
  }

  class RedisStorage {
    var bodies: map<string, Task>
    var children: map<Edge, set<string>>
    var counts: map<string, int>
    var queue: map<Task, int>
    var processing: set<string>
    var leases: map<string, Lease>
    var delayed: map<string, int>

    ghost function Value(): Store
      reads this
    {
      Store(bodies, children, counts, queue, processing, leases, delayed)
    }

    constructor ()
      ensures bodies == map[] && children == map[] && counts == map[] && queue == map[]
      ensures processing == {} && leases == map[] && delayed == map[]
      ensures Value() == EMPTY_STORE
    {
      bodies, children, counts, queue := map[], map[], map[], map[];
      processing, leases, delayed := {}, map[], map[];
    }

    method Save(t: Task)
      modifies this`bodies
      ensures Value() == StoreModel.Save(old(Value()), t)
    {
      bodies := bodies[t.id := t];
    }

    /** Register the task under each of its edges, then set its counter to the number of edges listed. */
    method SaveWaiting(t: Task)
      modifies this`bodies, this`children, this`counts
      ensures Value() == StoreModel.SaveWaiting(old(Value()), t)
    {
      bodies := bodies[t.id := t];
      var deps := AllDeps(t);
      var n := 0;
      while n < |deps|
        invariant 0 <= n <= |deps|
        invariant children == AddToAll(old(children), deps[..n], t.id)
        invariant counts == old(counts) && bodies == old(bodies)[t.id := t]
      {
        assert deps[..n + 1][..n] == deps[..n];
        children := children[deps[n] := (if deps[n] in children then children[deps[n]] else {}) + {t.id}];
        n := n + 1;
      }
      assert deps[..n] == deps;
      counts := counts[t.id := |deps|];
    }

    /** How far the resolve script has come when the children of `todo` are left: those handled are decremented, and
        the released among them handed out. */
    ghost predicate Resolving(before: Store, edge: Edge, todo: set<string>, ready: seq<Task>, ids: seq<string>)
      reads this
    {
      var members, released := ChildrenOf(before.children, edge), Released(before, edge);
      && Value() == before.(counts := Decremented(before.counts, members - todo, released - todo))
      && ready == BodiesOf(before.bodies, ids)
      && (set id | id in ids) == released - todo
      && forall i, j :: 0 <= i < j < |ids| ==> ids[i] != ids[j]
    }

    /** The resolve script: decrement each child of the edge, hand out the bodies of those that reach zero, and
        drop the edge. `ids` names the released children in the order of `ready`. */
    method ResolveDependencies(parentID: string, status: TaskStatus) returns (ready: seq<Task>, ghost ids: seq<string>)
      modifies this`counts, this`children
      ensures Value() == Resolve(old(Value()), Edge(parentID, status))
      ensures ready == BodiesOf(bodies, ids)
      ensures (set id | id in ids) == Released(old(Value()), Edge(parentID, status))
      ensures forall i, j :: 0 <= i < j < |ids| ==> ids[i] != ids[j]
    {
      var edge := Edge(parentID, status);
      var members := if edge in children then children[edge] else {};
      ghost var before := Value();
      ResolveStart(before, edge);
      var todo := members;
      ready, ids := [], [];
      while todo != {}
        invariant todo <= members == ChildrenOf(before.children, edge)
        invariant Resolving(before, edge, todo, ready, ids)
        decreases todo
      {
        hide Resolving, Released, Decremented, BodiesOf;
        var id :| id in todo;
        ready, ids := ResolveChild(before, edge, todo, id, ready, ids);
        todo := todo - {id};
      }
      ResolveEnd(before, edge, ready, ids);
      hide Released, Decremented, BodiesOf;
      children := children - {edge};
    }

    /** Decrement one child; at zero its body, if stored, is handed out and its counter deleted. */
    method ResolveChild(ghost before: Store, ghost edge: Edge, ghost todo: set<string>, id: string,
                        ready: seq<Task>, ghost ids: seq<string>)
      returns (ready': seq<Task>, ghost ids': seq<string>)
      requires id in todo && todo <= ChildrenOf(before.children, edge)
      requires Resolving(before, edge, todo, ready, ids)
      modifies this`counts
      ensures Resolving(before, edge, todo - {id}, ready', ids')
    {
      ReleaseOne(before, edge, todo, id);
      hide Released, Decremented, ChildrenOf;
      ready', ids' := ready, ids;
      var rem := (if id in counts then counts[id] else 0) - 1;
      counts := counts[id := rem];
      if rem == 0 && id in bodies {
        counts := counts - {id};
        HandOut(before.bodies, ids, id);
        ready', ids' := ready + [bodies[id]], ids + [id];
      }
    }

    lemma ResolveStart(before: Store, edge: Edge)
      requires before == Value()
      ensures Resolving(before, edge, ChildrenOf(before.children, edge), [], [])
    {
      assert Decremented(before.counts, {}, {}) == before.counts;
      var members, released := ChildrenOf(before.children, edge), Released(before, edge);
      assert members - members == {} && released - members == {};
    }

    lemma ResolveEnd(before: Store, edge: Edge, ready: seq<Task>, ids: seq<string>)
      requires Resolving(before, edge, {}, ready, ids)
      ensures bodies == before.bodies && children == before.children
      ensures before.(counts := counts, children := children - {edge}) == Resolve(before, edge)
      ensures ready == BodiesOf(bodies, ids)
      ensures (set id | id in ids) == Released(before, edge)
      ensures forall i, j :: 0 <= i < j < |ids| ==> ids[i] != ids[j]
    {
      var members, released := ChildrenOf(before.children, edge), Released(before, edge);
      assert members - {} == members && released - {} == released;
      hide Released, Decremented, BodiesOf;
    }

    method Enqueue(t: Task)
      modifies this`queue
      ensures Value() == StoreModel.Enqueue(old(Value()), t)
    {
      queue := queue[t := t.priority];
    }

    /** The dequeue script. It fails, after the pop, when the lease duration is shorter than a second. */
    method Dequeue(owner: string, durationMs: int, now: int) returns (result: DequeueResult, ghost popped: Option<Task>)
      modifies this`queue, this`processing, this`leases
      ensures old(queue) == map[] ==> result == Nothing && Value() == old(Value())
      ensures old(queue) != map[] ==>
        && popped.Some? && IsHighest(old(queue), popped.value)
        && Value() == StoreModel.Dequeue(old(Value()), popped.value, owner, durationMs, now)
        && result == if Seconds(durationMs) < 1 then DequeueFailed else Got(popped.value)
    {
      popped := None;
      if queue == map[] {
        return Nothing, None;
      }
      ghost var u :| u in queue;
      ghost var top := HighestExists(queue, u);
      var t :| IsHighest(queue, t);
      popped := Some(t);
      queue := queue - {t};
      if Seconds(durationMs) < 1 {
        return DequeueFailed, popped;
      }
      leases := leases[t.id := Lease(owner, Some(now + 1000 * Seconds(durationMs)))];
      processing := processing + {t.id};
      return Got(t), popped;
    }

    /** Whether the lease key of the task exists. */
    method HasLease(id: string, now: int) returns (leased: bool)
      ensures leased == Leased(Value(), id, now)
    {
      leased := id in leases && (leases[id].expiry == None || now < leases[id].expiry.value);
    }

    method Claim(id: string, owner: string, durationMs: int, now: int) returns (claimed: bool)
      modifies this`leases
      ensures Value() == StoreModel.Claim(old(Value()), id, owner, durationMs, now)
      ensures claimed <==> !Leased(old(Value()), id, now)
    {
      if id in leases && (leases[id].expiry == None || now < leases[id].expiry.value) {
        return false;
      }
      leases := leases[id := Lease(owner, if durationMs > 0 then Some(now + durationMs) else None)];
      return true;
    }

    /** True when the owner still held the lease. */
    method Heartbeat(id: string, owner: string, durationMs: int, now: int) returns (held: bool)
      modifies this`leases
      ensures Value() == StoreModel.Heartbeat(old(Value()), id, owner, durationMs, now)
      ensures held <==> Leased(old(Value()), id, now) && old(leases)[id].owner == owner
    {
      if id in leases && (leases[id].expiry == None || now < leases[id].expiry.value) && leases[id].owner == owner {
        if Seconds(durationMs) < 1 {
          leases := leases - {id};
        } else {
          leases := leases[id := Lease(owner, Some(now + 1000 * Seconds(durationMs)))];
        }
        return true;
      }
      return false;
    }

    method Delete(id: string)
      modifies this`bodies, this`leases, this`processing
      ensures Value() == StoreModel.Delete(old(Value()), id)
    {
      bodies := bodies - {id};
      leases := leases - {id};
      processing := processing - {id};
    }

    /** The recovery script's treatment of one id: leave it when leased, requeue it when it has a body, else drop
        it. */
    method RecoverOne(id: string, now: int) returns (requeued: bool)
      modifies this`queue, this`processing
      ensures requeued <==> !Leased(old(Value()), id, now) && id in bodies
      ensures queue == if requeued then old(queue)[bodies[id] := bodies[id].priority] else old(queue)
      ensures processing == if Leased(old(Value()), id, now) then old(processing) else old(processing) - {id}
    {
      var leased := HasLease(id, now);
      requeued := !leased && id in bodies;
      if requeued {
        queue := queue[bodies[id] := bodies[id].priority];
      }
      if !leased {
        processing := processing - {id};
      }
    }

    /** How far a recovery scan of `before` has come when the ids of `todo` are left. */
    ghost predicate Scanned(before: Store, todo: set<string>, now: int, recovered: nat)
      reads this
    {
      && Orphans(before, now) <= before.bodies.Keys
      && Value() == before.(queue := Requeued(before, Orphans(before, now) - todo),
                            processing := Kept(before, todo, now))
      && recovered == |Orphans(before, now) - todo|
    }

    /** The recovery script: scan the processing set, requeue what has lost its lease but still has a body, drop
        what has neither, and count the requeued ones. */
    method RecoverOrphaned(now: int) returns (recovered: nat)
      modifies this`queue, this`processing
      ensures Value() == Recover(old(Value()), now)
      ensures recovered == |Orphans(old(Value()), now)|
    {
      ghost var before := Value();
      ScanStart(before, now);
      hide Scanned;
      var todo := processing;
      recovered := 0;
      while todo != {}
        invariant todo <= before.processing
        invariant Scanned(before, todo, now, recovered)
        decreases todo
      {
        var id :| id in todo;
        recovered := ScanNext(before, todo, id, now, recovered);
        todo := todo - {id};
      }
      ScanEnd(before, now, recovered);
    }

    method ScanNext(ghost before: Store, ghost todo: set<string>, id: string, now: int, done: nat)
      returns (recovered: nat)
      requires id in todo && todo <= before.processing
      requires Scanned(before, todo, now, done)
      modifies this`queue, this`processing
      ensures Scanned(before, todo - {id}, now, recovered)
    {
      hide Requeued, Kept, Orphans, Leased;
      ScanOne(before, todo, id, now);
      ScanKept(before, todo, id, now);
      SameLease(before, Value(), id, now);
      var requeued := RecoverOne(id, now);
      recovered := if requeued then done + 1 else done;
    }

    lemma ScanStart(before: Store, now: int)
      requires before == Value()
      ensures Scanned(before, processing, now, 0)
    {
      OrphansHaveBodies(before, now);
      KeptAll(before, now);
      assert Orphans(before, now) - processing == {};
      RequeueNone(before, Orphans(before, now) - processing);
      hide Requeued, Kept, Orphans, Leased;
    }

    lemma ScanEnd(before: Store, now: int, recovered: nat)
      requires Scanned(before, {}, now, recovered)
      ensures Value() == Recover(before, now)
      ensures recovered == |Orphans(before, now)|
    {
      hide Requeued, Kept, Orphans, Leased, Recover;
      KeptAll(before, now);
      OrphansHaveBodies(before, now);
      assert Orphans(before, now) - {} == Orphans(before, now);
      SameRecovery(before, Value(), now);
    }

    /** False for an empty task id. */
    method ScheduleDelayed(taskID: string, fireAtMs: int, body: Option<Task>) returns (ok: bool)
      modifies this`bodies, this`delayed
      ensures Value() == StoreModel.ScheduleDelayed(old(Value()), taskID, fireAtMs, body)
      ensures ok <==> taskID != ""
    {
      if taskID == "" {
        return false;
      }
      if body.Some? {
        bodies := bodies[taskID := body.value];
      }
      delayed := delayed[taskID := fireAtMs];
      return true;
    }

    method UnscheduleDelayed(taskID: string)
      modifies this`delayed
      ensures Value() == StoreModel.UnscheduleDelayed(old(Value()), taskID)
    {
      if taskID != "" {
        delayed := delayed - {taskID};
      }
    }

    /** The pop script: select a batch, remove it, and read the bodies that exist. */
    method PopDueDelayed(now: int, max: int) returns (tasks: seq<Task>, ghost batch: seq<string>)
      modifies this`delayed
      ensures IsBatch(old(delayed), now, max, batch)
      ensures Value() == PopDue(old(Value()), batch)
      ensures tasks == BodiesOf(bodies, batch)
    {
      var due := RangeByScore(delayed, now, max);
      batch := due;
      delayed := delayed - set id | id in due;
      tasks := [];
      var n := 0;
      while n < |due|
        invariant 0 <= n <= |due|
        invariant tasks == BodiesOf(bodies, due[..n])
      {
        assert due[..n + 1][..n] == due[..n];
        if due[n] in bodies {
          tasks := tasks + [bodies[due[n]]];
        }
        n := n + 1;
      }
      assert due[..n] == due;
    }
  }
}
