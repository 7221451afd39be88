/** When a task is never handed to two instances at once. The store itself does not prevent it: a dequeue overwrites
    a live lease. It depends on when callers queue a task and when they claim one. */
module SoleDelivery {
  import opened StoreModel
  import opened StoreInvariants
  import opened StoreRuns

  /** A queued task has one entry, is not being processed, and nobody holds its lease. */
  ghost predicate Sole(w: World)
  {
    && Keyed(w.store)
    && (forall t, u :: t in w.store.queue && u in w.store.queue && t.id == u.id ==> t == u)
    && (forall t :: t in w.store.queue ==> Idle(w, t.id))
  }

  predicate Idle(w: World, id: string)
  {
    id !in w.store.processing && !Leased(w.store, id, w.now)
  }

  /** Queue a task only when it is idle and not queued in another version, claim a lease only of a task that is not
      queued, and store a delayed body under its own id. */
  ghost predicate Guarded(w: World, s: Step)
  {
    match s
    case Push(t) => Idle(w, t.id) && forall u :: u in w.store.queue && u.id == t.id ==> u == t
    case TakeLease(id, _, _) => !InQueue(w.store, id)
    case Delay(id, _, body) => body.Some? ==> body.value.id == id
    case _ => true
  }

  ghost predicate GuardedRun(w: World, steps: seq<Step>)
    decreases |steps|
  {
    steps == [] || (Guarded(w, steps[0]) && GuardedRun(Apply(w, steps[0]), steps[1..]))
  }

  /** Some dequeue of the run hands out a task whose lease is still held. */
  ghost predicate Collides(w: World, steps: seq<Step>)
    decreases |steps|
  {
    steps != [] &&
    ((steps[0].Pop? && Leased(w.store, steps[0].t.id, w.now)) || Collides(Apply(w, steps[0]), steps[1..]))
  }

  ghost predicate CanCollide(w: World)
  {
    exists steps :: CanRun(w, steps) && GuardedRun(w, steps) && Collides(w, steps)
  }

  // ---------- Guarded steps keep it ----------

  lemma PushKeepsSole(w: World, t: Task)
    requires Sole(w) && Guarded(w, Push(t))
    ensures Sole(Apply(w, Push(t)))
  {
    hide LogAfter, SurplusAfter, Owed, Leased;
    LeasesOnly(w, Apply(w, Push(t)));
  }

  /** With the same bodies and no new entry, it is enough that what stays queued stays idle. */
  lemma StillSole(w: World, w': World)
    requires Sole(w) && w'.store.bodies == w.store.bodies
    requires forall t :: t in w'.store.queue ==> t in w.store.queue
    requires forall t :: t in w'.store.queue && Idle(w, t.id) ==> Idle(w', t.id)
    ensures Sole(w')
  {
    hide Idle;
  }

  lemma PopKeepsSole(w: World, t: Task, owner: string, durationMs: int)
    requires Sole(w) && t in w.store.queue
    ensures Sole(Apply(w, Pop(t, owner, durationMs)))
  {
    var w' := Apply(w, Pop(t, owner, durationMs));
    PopSparesOthers(w, t, owner, durationMs);
    QueueStep(w, Pop(t, owner, durationMs));
    hide LogAfter, SurplusAfter, Owed, Seconds, Idle, Keyed, Dequeue;
    StillSole(w, w');
  }

  lemma PopSparesOthers(w: World, t: Task, owner: string, durationMs: int)
    ensures var w' := Apply(w, Pop(t, owner, durationMs));
            && w'.store.queue == w.store.queue - {t}
            && forall id :: id != t.id && Idle(w, id) ==> Idle(w', id)
  {
    hide LogAfter, SurplusAfter, Owed, Seconds;
  }

  lemma TakeLeaseKeepsSole(w: World, id: string, owner: string, durationMs: int)
    requires Sole(w) && !InQueue(w.store, id)
    ensures Sole(Apply(w, TakeLease(id, owner, durationMs)))
  {
    hide LogAfter, SurplusAfter, Owed;
    forall t | t in w.store.queue ensures t.id != id {
    }
  }

  lemma BeatKeepsSole(w: World, id: string, owner: string, durationMs: int)
    requires Sole(w)
    ensures Sole(Apply(w, Beat(id, owner, durationMs)))
  {
    BeatSparesIdle(w, id, owner, durationMs);
    hide LogAfter, SurplusAfter, Owed, Seconds, Idle, Keyed, Heartbeat, StoreAfter, Sole;
    StillSole(w, Apply(w, Beat(id, owner, durationMs)));
  }

  lemma BeatSparesIdle(w: World, id: string, owner: string, durationMs: int)
    ensures var w' := Apply(w, Beat(id, owner, durationMs));
            && w'.store.queue == w.store.queue && w'.store.bodies == w.store.bodies
            && forall x :: Idle(w, x) ==> Idle(w', x)
  {
    HeartbeatSpares(w.store, id, owner, durationMs, w.now);
    hide LogAfter, SurplusAfter, Owed, Heartbeat, Leased;
  }

  /** A heartbeat gives no task a lease that had none. */
  lemma HeartbeatSpares(s: Store, id: string, owner: string, durationMs: int, now: int)
    ensures var s' := Heartbeat(s, id, owner, durationMs, now);
            && s' == s.(leases := s'.leases)
            && forall x :: Leased(s', x, now) ==> Leased(s, x, now)
  {
    hide Seconds;
  }

  /** Whether a task is leased depends on the leases and the clock only. */
  lemma LeasesOnly(w: World, w': World)
    requires w'.store.leases == w.store.leases && w'.now == w.now
    ensures forall id :: Leased(w'.store, id, w'.now) <==> Leased(w.store, id, w.now)
  {
  }

  lemma ScanKeepsSole(w: World)
    requires Sole(w)
    ensures Sole(Apply(w, Scan))
  {
    var w' := Apply(w, Scan);
    var orphans := Orphans(w.store, w.now);
    assert w'.store.processing == set id | id in w.store.processing && Leased(w.store, id, w.now);
    LeasesOnly(w, w');
    hide LogAfter, SurplusAfter, Owed, Leased, StoreAfter;
    forall t | t in w'.store.queue
      ensures t in w.store.queue || (t.id in orphans && t == w.store.bodies[t.id])
    {
    }
    forall t | t in w'.store.queue ensures Idle(w', t.id) {
      if t in w.store.queue {
        assert Idle(w, t.id);
      }
    }
    forall t, u | t in w'.store.queue && u in w'.store.queue && t.id == u.id ensures t == u {
      if t in w.store.queue {
        assert Idle(w, t.id);
      }
      if u in w.store.queue {
        assert Idle(w, u.id);
      }
    }
  }

  lemma OtherStepKeepsSole(w: World, s: Step)
    requires Sole(w) && Enabled(w, s) && Guarded(w, s) && !ConcernsQueue(s)
    ensures Sole(Apply(w, s))
  {
    StepFrame(w, s);
    hide StoreAfter, LogAfter, SurplusAfter, Owed, IsBatch, IsHighest;
  }

  lemma StepKeepsSole(w: World, s: Step)
    requires Sole(w) && Enabled(w, s) && Guarded(w, s)
    ensures Sole(Apply(w, s))
  {
    hide Sole, Apply;
    match s
    case Push(t) => PushKeepsSole(w, t);
    case Pop(t, owner, durationMs) => PopKeepsSole(w, t, owner, durationMs);
    case TakeLease(id, owner, durationMs) => TakeLeaseKeepsSole(w, id, owner, durationMs);
    case Beat(id, owner, durationMs) => BeatKeepsSole(w, id, owner, durationMs);
    case Scan => ScanKeepsSole(w);
    case _ => OtherStepKeepsSole(w, s);
  }

  /** Along guarded steps no dequeue ever finds a live lease. */
  lemma {:induction false} NeverTwice(w: World, steps: seq<Step>)
    requires Sole(w) && CanRun(w, steps) && GuardedRun(w, steps)
    ensures Sole(After(w, steps)) && !Collides(w, steps)
    decreases |steps|
  {
    hide Apply, Guarded;
    if steps != [] {
      StepKeepsSole(w, steps[0]);
      NeverTwice(Apply(w, steps[0]), steps[1..]);
    }
  }

  // ---------- Otherwise a collision is reachable ----------

  lemma RunStep(w: World, s: Step, rest: seq<Step>)
    requires Enabled(w, s) && Guarded(w, s)
    requires CanRun(Apply(w, s), rest) && GuardedRun(Apply(w, s), rest) && Collides(Apply(w, s), rest)
    ensures CanRun(w, [s] + rest) && GuardedRun(w, [s] + rest) && Collides(w, [s] + rest)
  {
    hide Apply, Enabled, Guarded;
    assert ([s] + rest)[1..] == rest;
  }

  /** What popping the task with a lease of one second does. */
  lemma PopOne(w: World, t: Task)
    ensures var w' := Apply(w, Pop(t, "", 1000));
            && w'.now == w.now && w'.store.queue == w.store.queue - {t}
            && Leased(w'.store, t.id, w.now)
            && (forall id :: id != t.id ==> (Leased(w'.store, id, w.now) <==> Leased(w.store, id, w.now)))
  {
    assert Seconds(1000) == 1;
    hide LogAfter, SurplusAfter, Owed;
  }

  /** A queued task whose lease is held: pop until it is its turn. */
  lemma {:induction false} LeasedCollides(w: World, t: Task) returns (steps: seq<Step>)
    requires t in w.store.queue && Leased(w.store, t.id, w.now)
    ensures CanRun(w, steps) && GuardedRun(w, steps) && Collides(w, steps)
    decreases |w.store.queue|
  {
    hide Apply, Leased, IsHighest;
    var top := HighestExists(w.store.queue, t);
    HighestIsQueued(w.store.queue, top);
    var pop := Pop(top, "", 1000);
    PopOne(w, top);
    if top.id == t.id {
      steps := [pop];
      assert steps[1..] == [];
    } else {
      assert |w.store.queue - {top}| < |w.store.queue|;
      steps := LeasedCollides(Apply(w, pop), t);
      RunStep(w, pop, steps);
      steps := [pop] + steps;
    }
  }

  lemma HighestIsQueued(queue: map<Task, int>, t: Task)
    requires IsHighest(queue, t)
    ensures t in queue
  {
  }

  /** A task queued in two versions: pop until one of them is leased. */
  lemma {:induction false} TwoVersionsCollide(w: World, t: Task, u: Task) returns (steps: seq<Step>)
    requires t in w.store.queue && u in w.store.queue && t != u && t.id == u.id
    ensures CanRun(w, steps) && GuardedRun(w, steps) && Collides(w, steps)
    decreases |w.store.queue|
  {
    hide Apply, Leased, IsHighest;
    var top := HighestExists(w.store.queue, t);
    HighestIsQueued(w.store.queue, top);
    var pop := Pop(top, "", 1000);
    PopOne(w, top);
    if top.id == t.id {
      steps := LeasedCollides(Apply(w, pop), if top == t then u else t);
    } else {
      assert |w.store.queue - {top}| < |w.store.queue|;
      steps := TwoVersionsCollide(Apply(w, pop), t, u);
    }
    RunStep(w, pop, steps);
    steps := [pop] + steps;
  }

  /** What storing a newer version of a task in processing and then scanning does. */
  lemma ScanQueuesVersion(w: World, t: Task, newer: Task)
    requires t in w.store.queue && t.id in w.store.processing && !Leased(w.store, t.id, w.now) && newer.id == t.id
    ensures var w' := Apply(Apply(w, SaveBody(newer)), Scan);
            t in w'.store.queue && newer in w'.store.queue
  {
    hide LogAfter, SurplusAfter, Owed;
    var w1 := Apply(w, SaveBody(newer));
    assert w1.store == Save(w.store, newer) && w1.now == w.now;
    assert newer.id in Orphans(w1.store, w.now) && w1.store.bodies[newer.id] == newer;
  }

  /** A task both queued and processing, its lease gone: a newer version is stored, and a scan queues it too. */
  lemma ProcessingCollides(w: World, t: Task) returns (steps: seq<Step>)
    requires t in w.store.queue && t.id in w.store.processing && !Leased(w.store, t.id, w.now)
    ensures CanRun(w, steps) && GuardedRun(w, steps) && Collides(w, steps)
  {
    var newer := t.(attempts := t.attempts + 1);
    var save := SaveBody(newer);
    ScanQueuesVersion(w, t, newer);
    hide Apply;
    steps := TwoVersionsCollide(Apply(Apply(w, save), Scan), t, newer);
    RunStep(Apply(w, save), Scan, steps);
    RunStep(w, save, [Scan] + steps);
    steps := [save] + ([Scan] + steps);
  }

  /** No instance can ever be handed a task another one holds, as long as the guards are kept, exactly when every
      queued task has one entry, is not processing and is not leased. */
  lemma SoleIff(w: World)
    requires Keyed(w.store)
    ensures Sole(w) <==> !CanCollide(w)
  {
    hide Leased, Keyed, Apply, Guarded;
    if Sole(w) {
      forall steps | CanRun(w, steps) && GuardedRun(w, steps) ensures !Collides(w, steps) {
        NeverTwice(w, steps);
      }
    } else {
      var steps: seq<Step>;
      if t, u :| t in w.store.queue && u in w.store.queue && t.id == u.id && t != u {
        steps := TwoVersionsCollide(w, t, u);
      } else {
        var t :| t in w.store.queue && !Idle(w, t.id);
        if Leased(w.store, t.id, w.now) {
          steps := LeasedCollides(w, t);
        } else {
          steps := ProcessingCollides(w, t);
        }
      }
    }
  }

  /** The guards are exact: queuing or claiming a task keeps every later dequeue free of collisions if and only if
      the guard of the step holds. */
  lemma GuardIsExact(w: World, s: Step)
    requires Sole(w) && (s.Push? || s.TakeLease?)
    ensures Guarded(w, s) <==> !CanCollide(Apply(w, s))
  {
    KeyedStays(w, s);
    if Guarded(w, s) {
      StepKeepsSole(w, s);
    } else {
      UnguardedBreaks(w, s);
    }
    SoleIff(Apply(w, s));
  }

  lemma KeyedStays(w: World, s: Step)
    requires Keyed(w.store) && (s.Push? || s.TakeLease?)
    ensures Keyed(Apply(w, s).store)
  {
    StepFrame(w, s);
    hide StoreAfter, LogAfter, SurplusAfter, Owed;
  }

  lemma UnguardedBreaks(w: World, s: Step)
    requires Sole(w) && (s.Push? || s.TakeLease?) && !Guarded(w, s)
    ensures !Sole(Apply(w, s))
  {
    hide LogAfter, SurplusAfter, Owed, Keyed;
    var w' := Apply(w, s);
    match s
    case Push(t) =>
      assert t in w'.store.queue;
      if u :| u in w.store.queue && u.id == t.id && u != t {
        assert u in w'.store.queue;
      } else {
        assert !Idle(w', t.id);
      }
    case TakeLease(id, _, _) =>
      var t :| t in w.store.queue && t.id == id;
      assert t in w'.store.queue && Leased(w'.store, id, w'.now);
      assert !Idle(w', t.id);
  }

  /** The step neither completes the task nor renews the lease for its owner. */
  predicate KeepsHold(s: Step, id: string, owner: string)
  {
    s.Pop? || SparesLease(s, id, owner)
  }

  lemma {:induction false} HeldIsNotPopped(w: World, steps: seq<Step>, id: string)
    requires Sole(w) && CanRun(w, steps) && GuardedRun(w, steps) && Leased(w.store, id, w.now)
    requires forall n :: 0 <= n < |steps| ==> KeepsHold(steps[n], id, w.store.leases[id].owner)
    requires w.store.leases[id].expiry == None || After(w, steps).now < w.store.leases[id].expiry.value
    ensures forall n :: 0 <= n < |steps| ==> SparesLease(steps[n], id, w.store.leases[id].owner)
    decreases |steps|
  {
    if steps != [] {
      QueuedIsNotHeld(w, steps[0], id);
      StepKeepsSole(w, steps[0]);
      hide SparesLease, Sole;
      LeaseStays(w, steps[0], id);
      NowAfter(w, steps[0]);
      hide Apply, Enabled, Guarded;
      var w1 := Apply(w, steps[0]);
      TimePasses(w1, steps[1..]);
      HeldIsNotPopped(w1, steps[1..], id);
      forall n | 0 <= n < |steps| ensures SparesLease(steps[n], id, w.store.leases[id].owner) {
        assert n > 0 ==> steps[n] == steps[1..][n - 1];
      }
    }
  }

  lemma QueuedIsNotHeld(w: World, s: Step, id: string)
    requires Sole(w) && Enabled(w, s) && Leased(w.store, id, w.now)
    requires KeepsHold(s, id, w.store.leases[id].owner)
    ensures SparesLease(s, id, w.store.leases[id].owner)
  {
    hide Keyed;
  }

  /** With the guards kept, a lease excludes everyone else until it expires, dequeues included. */
  lemma GuardedLeaseExcludes(w: World, steps: seq<Step>, id: string, other: string, durationMs: int)
    requires Sole(w) && CanRun(w, steps) && GuardedRun(w, steps) && Leased(w.store, id, w.now)
    requires forall n :: 0 <= n < |steps| ==> KeepsHold(steps[n], id, w.store.leases[id].owner)
    requires w.store.leases[id].expiry == None || After(w, steps).now < w.store.leases[id].expiry.value
    ensures var w' := After(w, steps);
            && Leased(w'.store, id, w'.now) && w'.store.leases[id] == w.store.leases[id]
            && Claim(w'.store, id, other, durationMs, w'.now) == w'.store
            && id !in Orphans(w'.store, w'.now)
            && !InQueue(w'.store, id)
  {
    HeldIsNotPopped(w, steps, id);
    LeaseExcludes(w, steps, id, other, durationMs);
    NeverTwice(w, steps);
    hide LogAfter, Apply;
    assert forall t :: t in After(w, steps).store.queue ==> Idle(After(w, steps), t.id);
  }

  lemma StartIsSole()
    ensures Sole(START)
  {
  }

  /** From the empty store on, no dequeue meets a live lease as long as callers keep the guards. */
  lemma NeverTwiceFromStart(steps: seq<Step>)
    requires CanRun(START, steps) && GuardedRun(START, steps)
    ensures !Collides(START, steps)
  {
    StartIsSole();
    NeverTwice(START, steps);
  }

  /** Queuing a task on an empty queue and popping it leaves its lease held. */
  lemma PushAndPop(w: World, t: Task, owner: string)
    requires w.store.queue == map[]
    ensures var pop := Pop(t, owner, 30000);
            var w1 := Apply(w, Push(t));
            var w2 := Apply(w1, pop);
            && Enabled(w1, pop)
            && (Leased(w.store, t.id, w.now) ==> Leased(w1.store, t.id, w1.now))
            && w2.store.queue == map[] && Leased(w2.store, t.id, w2.now)
  {
    assert Seconds(30000) == 30;
    hide LogAfter, SurplusAfter, Owed;
    assert Apply(w, Push(t)).store.queue == map[t := t.priority];
  }

  /** Without the guards it can: the retry of a task is queued while the first attempt is still held. */
  lemma UnguardedRetryCollides()
    ensures var first := Waiter("x", []);
            var retry := first.(attempts := 1);
            var steps := [Push(first), Pop(first, "me", 30000), Push(retry), Pop(retry, "you", 30000)];
            Sole(START) && CanRun(START, steps) && Collides(START, steps)
  {
    var first := Waiter("x", []);
    var retry := first.(attempts := 1);
    var steps := [Push(first), Pop(first, "me", 30000), Push(retry), Pop(retry, "you", 30000)];
    StartIsSole();
    PushAndPop(START, first, "me");
    var w1 := Apply(START, steps[0]);
    var w2 := Apply(w1, steps[1]);
    var w3 := Apply(w2, steps[2]);
    PushAndPop(w2, retry, "you");
    hide Apply, Leased, IsHighest, Sole;
    var last := [steps[3]];
    assert last[1..] == [];
    assert CanRun(w3, last) && Collides(w3, last);
    CollideLater(w2, steps[2], last);
    CollideLater(w1, steps[1], [steps[2]] + last);
    CollideLater(START, steps[0], [steps[1]] + ([steps[2]] + last));
    assert steps == [steps[0]] + ([steps[1]] + ([steps[2]] + last));
  }

  lemma CollideLater(w: World, s: Step, rest: seq<Step>)
    requires Enabled(w, s) && CanRun(Apply(w, s), rest) && Collides(Apply(w, s), rest)
    ensures CanRun(w, [s] + rest) && Collides(w, [s] + rest)
  {
    hide Apply, Enabled;
    assert ([s] + rest)[1..] == rest;
  }
}
