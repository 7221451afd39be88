/** What the end of a task does to the tasks waiting for it: the chain of attempts and the shared store together,
    with any other steps of any instance in between. */
module WorkflowRelease {
  import opened StoreModel
  import opened StoreInvariants
  import opened StoreLaws
  import opened StoreRuns
  import RetryChain

  type Chain = RetryChain.Chain

  /** A step of the store by anyone, or a move of the task. When a move resolves two edges, `between` is what happens
      after the first: the submission of the children it released, and whatever other instances do. */
  datatype Act = Other(step: Step) | Own(move: RetryChain.Move, between: seq<Step>)

  datatype System = System(world: World, chain: Chain)

  /** The edges a move resolves. */
  function NewEdges(c: Chain, m: RetryChain.Move): seq<Edge>
  {
    if m.Attempt? && c.status == Queued then RetryChain.EdgesAt(c.plan, RetryChain.Finish(c, m.outcome).status) else []
  }

  function Weave(edges: seq<Edge>, between: seq<Step>): seq<Step>
  {
    if |edges| == 2 then [ResolveEdge(edges[0])] + between + [ResolveEdge(edges[1])]
    else if |edges| == 1 then [ResolveEdge(edges[0])]
    else []
  }

  function StepsOf(c: Chain, a: Act): seq<Step>
  {
    match a
    case Other(step) => [step]
    case Own(m, between) => Weave(NewEdges(c, m), between)
  }

  function ChainAfter(c: Chain, a: Act): Chain
  {
    match a
    case Other(_) => c
    case Own(m, _) => RetryChain.Do(c, m)
  }

  ghost function Acts(y: System, acts: seq<Act>): System
    decreases |acts|
  {
    if acts == [] then y
    else Acts(System(After(y.world, StepsOf(y.chain, acts[0])), ChainAfter(y.chain, acts[0])), acts[1..])
  }

  /** All store steps of the acts, in order. */
  function AllSteps(c: Chain, acts: seq<Act>): seq<Step>
    decreases |acts|
  {
    if acts == [] then [] else StepsOf(c, acts[0]) + AllSteps(ChainAfter(c, acts[0]), acts[1..])
  }

  lemma {:induction false} AfterConcat(w: World, a: seq<Step>, b: seq<Step>)
    ensures After(w, a + b) == After(After(w, a), b)
    decreases |a|
  {
    hide Apply;
    if a == [] {
      assert a + b == b;
    } else {
      assert (a + b)[1..] == a[1..] + b;
      AfterConcat(Apply(w, a[0]), a[1..], b);
    }
  }

  /** Acts are runs of the store. */
  lemma {:induction false} ActsAreSteps(y: System, acts: seq<Act>)
    ensures Acts(y, acts).world == After(y.world, AllSteps(y.chain, acts))
    decreases |acts|
  {
    hide Apply, StepsOf, ChainAfter;
    if acts != [] {
      var y1 := System(After(y.world, StepsOf(y.chain, acts[0])), ChainAfter(y.chain, acts[0]));
      ActsAreSteps(y1, acts[1..]);
      AfterConcat(y.world, StepsOf(y.chain, acts[0]), AllSteps(y1.chain, acts[1..]));
    }
  }

  /** So whatever every run of the store keeps, the acts keep. */
  lemma ActsKeepWorld(y: System, acts: seq<Act>)
    requires WorldOk(y.world) && CanRun(y.world, AllSteps(y.chain, acts))
    ensures WorldOk(Acts(y, acts).world)
  {
    ActsAreSteps(y, acts);
    EveryRunOk(y.world, AllSteps(y.chain, acts));
  }

  // ---------- Which edges are resolved ----------

  /** The edges that someone else resolves. */
  function OthersResolve(c: Chain, acts: seq<Act>): set<Edge>
    decreases |acts|
  {
    if acts == [] then {}
    else
      (match acts[0]
       case Other(step) => ResolvedBy(step)
       case Own(m, between) => if |NewEdges(c, m)| == 2 then ResolvedIn(between) else {})
      + OthersResolve(ChainAfter(c, acts[0]), acts[1..])
  }

  lemma {:induction false} ResolvedInConcat(a: seq<Step>, b: seq<Step>)
    ensures ResolvedIn(a + b) == ResolvedIn(a) + ResolvedIn(b)
    decreases |a|
  {
    hide ResolvedIn, ResolvedBy;
    if a == [] {
      NothingResolved();
      assert a + b == b;
    } else {
      ResolvedInFirst(a);
      ResolvedInFirst(a + b);
      assert (a + b)[1..] == a[1..] + b;
      ResolvedInConcat(a[1..], b);
    }
  }

  lemma ResolvedInOne(s: Step)
    ensures ResolvedIn([s]) == ResolvedBy(s)
  {
    ResolvedInFirst([s]);
    NothingResolved();
    assert [s][1..] == [];
    hide ResolvedIn;
  }

  lemma WeaveResolves(edges: seq<Edge>, between: seq<Step>)
    requires |edges| <= 2
    ensures ResolvedIn(Weave(edges, between))
         == EdgeSet(edges) + if |edges| == 2 then ResolvedIn(between) else {}
  {
    NothingResolved();
    if |edges| >= 1 {
      ResolvedInOne(ResolveEdge(edges[0]));
    }
    if |edges| == 2 {
      ResolvedInOne(ResolveEdge(edges[1]));
      ResolvedInConcat([ResolveEdge(edges[0])], between);
      ResolvedInConcat([ResolveEdge(edges[0])] + between, [ResolveEdge(edges[1])]);
    }
    hide ResolvedIn;
  }

  lemma AtMostTwo(c: Chain, m: RetryChain.Move)
    ensures |NewEdges(c, m)| <= 2
    ensures RetryChain.Do(c, m).resolved == c.resolved + NewEdges(c, m)
    ensures RetryChain.Do(c, m).plan == c.plan
  {
  }

  /** The edges resolved are those the chain logs and those others resolve. */
  lemma {:induction false} OnlyEndsResolve(c: Chain, acts: seq<Act>) returns (own: seq<Edge>)
    ensures var c' := RetryChain.Live(c, Moves(acts));
            && c'.plan == c.plan && c'.resolved == c.resolved + own
            && ResolvedIn(AllSteps(c, acts)) == EdgeSet(own) + OthersResolve(c, acts)
    decreases |acts|
  {
    hide NewEdges, RetryChain.Do, ResolvedIn, ResolvedBy, Weave;
    own := [];
    if acts == [] {
      NothingResolved();
    } else {
      var c1 := ChainAfter(c, acts[0]);
      var later := OnlyEndsResolve(c1, acts[1..]);
      ResolvedInConcat(StepsOf(c, acts[0]), AllSteps(c1, acts[1..]));
      match acts[0] {
        case Other(step) =>
          ResolvedInOne(step);
          own := later;
          assert Moves(acts) == Moves(acts[1..]);
        case Own(m, between) =>
          AtMostTwo(c, m);
          WeaveResolves(NewEdges(c, m), between);
          own := NewEdges(c, m) + later;
          assert EdgeSet(own) == EdgeSet(NewEdges(c, m)) + EdgeSet(later);
          assert Moves(acts)[0] == m && Moves(acts)[1..] == Moves(acts[1..]);
      }
    }
  }

  function Moves(acts: seq<Act>): seq<RetryChain.Move>
    decreases |acts|
  {
    if acts == [] then [] else (if acts[0].Own? then [acts[0].move] else []) + Moves(acts[1..])
  }

  lemma {:induction false} ChainLives(y: System, acts: seq<Act>)
    ensures Acts(y, acts).chain == RetryChain.Live(y.chain, Moves(acts))
    decreases |acts|
  {
    hide After, StepsOf, RetryChain.Do;
    if acts != [] {
      ChainLives(System(After(y.world, StepsOf(y.chain, acts[0])), ChainAfter(y.chain, acts[0])), acts[1..]);
      if acts[0].Own? {
        assert Moves(acts)[0] == acts[0].move && Moves(acts)[1..] == Moves(acts[1..]);
      } else {
        assert Moves(acts) == Moves(acts[1..]);
      }
    }
  }

  // ---------- In terms of the recorded ends ----------

  /** A recorded end resolves the edges waiting for it; one waiting for a failure is also resolved by a death. */
  predicate Triggers(status: TaskStatus, trigger: TaskStatus)
  {
    RetryChain.Ended(status) && (status == trigger || (status == Dead && trigger == Failed))
  }

  lemma {:induction false} EdgesOfRecordsHas(p: RetryChain.Plan, records: seq<RetryChain.Record>, trigger: TaskStatus)
    requires p.typeName != ""
    ensures Edge(p.id, trigger) in RetryChain.EdgesOfRecords(p, records)
       <==> exists i :: 0 <= i < |records| && Triggers(records[i].status, trigger)
  {
    if records != [] {
      var n := |records| - 1;
      EdgesOfRecordsHas(p, records[..n], trigger);
      assert Edge(p.id, trigger) in RetryChain.EdgesAt(p, records[n].status) <==> Triggers(records[n].status, trigger);
      hide RetryChain.EdgesAt, Triggers;
      assert forall i :: 0 <= i < n ==> records[..n][i] == records[i];
      if i :| 0 <= i < |records| && Triggers(records[i].status, trigger) {
        if i < n {
          assert Triggers(records[..n][i].status, trigger);
        }
      }
    }
  }

  /** The trigger of the task is resolved by one of its own recorded ends, or by someone else. */
  ghost predicate TriggerMet(c: Chain, acts: seq<Act>, records: seq<RetryChain.Record>, trigger: TaskStatus)
  {
    || (exists i :: 0 <= i < |records| && Triggers(records[i].status, trigger))
    || Edge(c.plan.id, trigger) in OthersResolve(c, acts)
  }

  /** The records a life adds to the history: one per chain. */
  ghost predicate RecordsOf(y: System, acts: seq<Act>, records: seq<RetryChain.Record>)
  {
    var c := Acts(y, acts).chain;
    && c.history == y.chain.history + records
    && |records| == RetryChain.Resubmits(y.chain, Moves(acts)) + (if RetryChain.Ended(c.status) then 1 else 0)
  }

  lemma ResolvedMeansTriggerMet(y: System, acts: seq<Act>, trigger: TaskStatus)
    returns (records: seq<RetryChain.Record>)
    requires y.chain.status == Queued && y.chain.plan.typeName != ""
    ensures RecordsOf(y, acts, records)
    ensures Edge(y.chain.plan.id, trigger) in ResolvedIn(AllSteps(y.chain, acts))
       <==> TriggerMet(y.chain, acts, records, trigger)
  {
    var own := OnlyEndsResolve(y.chain, acts);
    ChainLives(y, acts);
    records := RetryChain.EveryLife(y.chain, Moves(acts));
    EdgesOfRecordsHas(y.chain.plan, records, trigger);
    hide Acts, Triggers, ResolvedIn, AllSteps, OthersResolve, RetryChain.EdgesOfRecords, RetryChain.Live;
    SameTail(y.chain.resolved, own, RetryChain.EdgesOfRecords(y.chain.plan, records));
  }

  lemma SameTail(s: seq<Edge>, a: seq<Edge>, b: seq<Edge>)
    ensures s + a == s + b ==> a == b
  {
    assert a == (s + a)[|s|..] && b == (s + b)[|s|..];
  }

  /** Over a whole life with any resubmissions, and anything other instances do meanwhile: a child still waits for a
      trigger of the task exactly as long as no recorded end matches it and nobody else resolved it. So while a
      retry is coming nothing is resolved, a success leaves the edges of a failure alone, and Failed followed by
      Dead, or a later resubmission, finds nothing left to resolve. */
  lemma WaitsUntilRecordedEnd(y: System, acts: seq<Act>, child: string, trigger: TaskStatus)
    returns (records: seq<RetryChain.Record>)
    requires y.chain.status == Queued && y.chain.plan.typeName != ""
    requires NeverResaved(AllSteps(y.chain, acts), child)
    requires Edge(y.chain.plan.id, trigger) in EdgesOf(y.world.store.children, child)
    ensures RecordsOf(y, acts, records)
    ensures Edge(y.chain.plan.id, trigger) in EdgesOf(Acts(y, acts).world.store.children, child)
       <==> !TriggerMet(y.chain, acts, records, trigger)
  {
    records := ResolvedMeansTriggerMet(y, acts, trigger);
    hide *;
    ActsAreSteps(y, acts);
    EdgesAfter(y.world, AllSteps(y.chain, acts), child);
  }

  /** Over such a life a child that waits only for one trigger of the task is released exactly once if some recorded
      end matches it, or someone else resolved that edge, and never otherwise, though it may have run and completed by
      then. All it takes is that its body is stored when the edge is resolved. */
  lemma TriggerReleasesOnce(y: System, acts: seq<Act>, child: string, trigger: TaskStatus)
    returns (records: seq<RetryChain.Record>)
    requires y.chain.status == Queued && y.chain.plan.typeName != ""
    requires WorldOk(y.world) && SurplusOf(y.world.surplus, child) == 0
    requires NeverResaved(AllSteps(y.chain, acts), child)
    requires EdgesOf(y.world.store.children, child) == {Edge(y.chain.plan.id, trigger)}
    ensures RecordsOf(y, acts, records)
    ensures var steps := AllSteps(y.chain, acts);
            && ReleaseCount(y.world, steps, child)
               == (if TriggerMet(y.chain, acts, records, trigger) && StoredAtZero(y.world, steps, child) then 1 else 0)
            && (child in y.world.store.bodies && KeptWhileWaiting(y.world, steps, child) ==>
                  StoredAtZero(y.world, steps, child))
  {
    records := ResolvedMeansTriggerMet(y, acts, trigger);
    OkMeansCounted(y.world);
    CountedAt(y.world.store, y.world.surplus, child);
    hide *;
    OnlyEdgeReleases(y.world, AllSteps(y.chain, acts), Edge(y.chain.plan.id, trigger), child);
  }

  ghost predicate SomeEnd(records: seq<RetryChain.Record>, statuses: set<TaskStatus>)
  {
    exists i :: 0 <= i < |records| && records[i].status in statuses
  }

  lemma TriggerMetBy(c: Chain, acts: seq<Act>, records: seq<RetryChain.Record>)
    ensures TriggerMet(c, acts, records, Failed)
       <==> SomeEnd(records, {Failed, Dead}) || Edge(c.plan.id, Failed) in OthersResolve(c, acts)
    ensures TriggerMet(c, acts, records, Succeeded)
       <==> SomeEnd(records, {Succeeded}) || Edge(c.plan.id, Succeeded) in OthersResolve(c, acts)
  {
    hide OthersResolve;
    forall i, trigger | 0 <= i < |records| && trigger in {Failed, Succeeded}
      ensures Triggers(records[i].status, trigger)
         <==> records[i].status in (if trigger == Failed then {Failed, Dead} else {Succeeded})
    {
    }
  }

  /** A child waiting only for the failure of the task is released by an end that is Failed or Dead. The second edge of
      a death and the ends after a resubmission release it no second time. */
  lemma FailureReleasesOnce(y: System, acts: seq<Act>, child: string) returns (records: seq<RetryChain.Record>)
    requires y.chain.status == Queued && y.chain.plan.typeName != ""
    requires WorldOk(y.world) && SurplusOf(y.world.surplus, child) == 0
    requires NeverResaved(AllSteps(y.chain, acts), child)
    requires EdgesOf(y.world.store.children, child) == {Edge(y.chain.plan.id, Failed)}
    ensures RecordsOf(y, acts, records)
    ensures var steps := AllSteps(y.chain, acts);
            var met := || SomeEnd(records, {Failed, Dead})
                       || Edge(y.chain.plan.id, Failed) in OthersResolve(y.chain, acts);
            && ReleaseCount(y.world, steps, child) == (if met && StoredAtZero(y.world, steps, child) then 1 else 0)
            && (child in y.world.store.bodies && KeptWhileWaiting(y.world, steps, child) ==>
                  StoredAtZero(y.world, steps, child))
  {
    records := TriggerReleasesOnce(y, acts, child, Failed);
    TriggerMetBy(y.chain, acts, records);
  }

  lemma FreshDependent(w: World, t: Task, p: string)
    requires WorldOk(w) && EdgesOf(w.store.children, t.id) == {}
    requires t.dependsOn == [p] && t.dependencies == []
    ensures var w' := Apply(w, SaveChild(t));
            && WorldOk(w') && SurplusOf(w'.surplus, t.id) == 0 && t.id in w'.store.bodies
            && EdgesOf(w'.store.children, t.id) == {Edge(p, Succeeded)}
  {
    var save := SaveChild(t);
    SavedWaits(w.store, t);
    assert (set q | q in t.dependsOn :: Edge(q, Succeeded)) == {Edge(p, Succeeded)};
    DepsAre(t);
    assert EdgesOf(w.store.children, t.id) + EdgeSet(AllDeps(t)) == {Edge(p, Succeeded)};
    StepKeepsCounts(w, save);
    StepKeepsAccounts(w, save);
    StepKeepsDeliveries(w, save);
    StepForgetsNone(w, save);
    hide LogAfter, Owed, EdgesOf, Counted, Accounted, DeliveredOnce, NoneForgotten, SaveWaiting;
  }

  /** A fresh task that depends on one other is released by a recorded success of that one and by no other end. */
  lemma SuccessReleasesDependent(w: World, t: Task, c: Chain, acts: seq<Act>) returns (records: seq<RetryChain.Record>)
    requires WorldOk(w) && EdgesOf(w.store.children, t.id) == {}
    requires t.dependsOn == [c.plan.id] && t.dependencies == []
    requires c.status == Queued && c.plan.typeName != "" && NeverResaved(AllSteps(c, acts), t.id)
    ensures RecordsOf(System(Apply(w, SaveChild(t)), c), acts, records)
    ensures var w', steps := Apply(w, SaveChild(t)), AllSteps(c, acts);
            var met := SomeEnd(records, {Succeeded}) || Edge(c.plan.id, Succeeded) in OthersResolve(c, acts);
            && ReleaseCount(w', steps, t.id) == (if met && StoredAtZero(w', steps, t.id) then 1 else 0)
            && (KeptWhileWaiting(w', steps, t.id) ==> StoredAtZero(w', steps, t.id))
  {
    FreshDependent(w, t, c.plan.id);
    hide *;
    var y := System(Apply(w, SaveChild(t)), c);
    records := TriggerReleasesOnce(y, acts, t.id, Succeeded);
    TriggerMetBy(c, acts, records);
  }

  /** A child that waits for a single edge is released exactly once if some step resolves it while the body of the
      child is stored, else never. */
  lemma OnlyEdgeReleases(w: World, steps: seq<Step>, edge: Edge, child: string)
    requires EdgesOf(w.store.children, child) == {edge} && Counter(w.store.counts, child) == 1
    requires NeverResaved(steps, child)
    ensures ReleaseCount(w, steps, child)
         == if edge in ResolvedIn(steps) && StoredAtZero(w, steps, child) then 1 else 0
    ensures child in w.store.bodies && KeptWhileWaiting(w, steps, child) ==> StoredAtZero(w, steps, child)
  {
    hide *;
    EdgesAfter(w, steps, child);
    ReleaseCountExact(w, steps, child);
    if child in w.store.bodies && KeptWhileWaiting(w, steps, child) {
      KeptMeansStored(w, steps, child);
    }
    var left := EdgesOf(After(w, steps).store.children, child);
    assert left == if edge in ResolvedIn(steps) then {} else {edge};
  }

  lemma OkMeansCounted(w: World)
    requires WorldOk(w)
    ensures Counted(w.store, w.surplus)
  {
  }

  /** In one attempt: such a child is released by the failure after which no retry comes, both edges of a death
      included, and by no other outcome. Between the two edges it may run and complete. */
  lemma ReleasedByFinalFailure(y: System, outcome: RetryChain.Outcome, between: seq<Step>, child: string)
    requires y.chain.status == Queued && y.chain.plan.typeName != ""
    requires WorldOk(y.world) && SurplusOf(y.world.surplus, child) == 0 && child in y.world.store.bodies
    requires NeverResaved(between, child)
    requires EdgesOf(y.world.store.children, child) == {Edge(y.chain.plan.id, Failed)}
    ensures ReleaseCount(y.world, StepsOf(y.chain, Own(RetryChain.Attempt(outcome), between)), child)
         == if RetryChain.Fails(outcome) && RetryChain.Judge(y.chain.plan, y.chain.attempts) != Retrying then 1 else 0
  {
    var edges := NewEdges(y.chain, RetryChain.Attempt(outcome));
    AtMostTwo(y.chain, RetryChain.Attempt(outcome));
    AttemptEdges(y.chain, outcome);
    OkMeansCounted(y.world);
    CountedAt(y.world.store, y.world.surplus, child);
    hide NewEdges, Weave, ResolvedIn, EdgesOf, Counter, WorldOk, SurplusOf, ReleaseCount, NeverResaved, StoredAtZero,
         RetryChain.Judge, RetryChain.Fails, EdgeSet, KeptWhileWaiting;
    WeaveResolves(edges, between);
    WeaveNeverResaves(edges, between, child);
    OnlyEdgeReleases(y.world, Weave(edges, between), Edge(y.chain.plan.id, Failed), child);
    if Edge(y.chain.plan.id, Failed) in EdgeSet(edges) {
      FirstEdgeZeroes(y.world, edges, between, child);
    }
  }

  /** Which attempts resolve the edge for a failure; only a death resolves two edges. */
  lemma AttemptEdges(c: Chain, outcome: RetryChain.Outcome)
    requires c.status == Queued && c.plan.typeName != ""
    ensures var edges := NewEdges(c, RetryChain.Attempt(outcome));
            && (Edge(c.plan.id, Failed) in EdgeSet(edges)
                <==> RetryChain.Fails(outcome) && RetryChain.Judge(c.plan, c.attempts) != Retrying)
            && (Edge(c.plan.id, Failed) in EdgeSet(edges) ==> edges[0] == Edge(c.plan.id, Failed))
            && (|edges| == 2 ==> Edge(c.plan.id, Failed) in EdgeSet(edges))
  {
  }

  lemma WeaveNeverResaves(edges: seq<Edge>, between: seq<Step>, child: string)
    requires |edges| <= 2 && NeverResaved(between, child)
    ensures NeverResaved(Weave(edges, between), child)
  {
  }

  /** When the first edge woven in is the only one of a stored child, its body is there when the counter gets to zero,
      whatever happens later. */
  lemma FirstEdgeZeroes(w: World, edges: seq<Edge>, between: seq<Step>, child: string)
    requires 1 <= |edges| <= 2 && NeverResaved(Weave(edges, between), child)
    requires EdgesOf(w.store.children, child) == {edges[0]} && Counter(w.store.counts, child) == 1
    requires child in w.store.bodies
    ensures StoredAtZero(w, Weave(edges, between), child)
  {
    var steps := Weave(edges, between);
    assert steps[0] == ResolveEdge(edges[0]);
    hide Apply, EdgesOf, Counter, Weave, Resaves;
    EdgeStep(w, steps[0], child);
    assert NeverResaved(steps[1..], child);
    ZeroOnce(Apply(w, steps[0]), steps[1..], child);
  }

  // ---------- What the store remembers of an ended task ----------

  /** Of the ends of a named task only Failed is not final for the store. It keeps its body and its place in the
      processing set, so once its lease lapses the next recovery scan queues it again. */
  lemma FailedIsRecovered(s: Store, body: Task, status: TaskStatus, now: int)
    requires RetryChain.Ended(status) && body.typeName != ""
    requires body.id in s.processing && body.id in s.bodies && !Leased(s, body.id, now)
    ensures body.id in Orphans(RetryChain.Closed(s, body, status), now) <==> status == Failed
  {
  }

  /** A task of which one attempt failed for good, in processing, its lease run out: the next scan queues it again. */
  lemma FailedRunsAgain()
    ensures var t := Waiter("x", []).(typeName := "job");
            var s := Dequeue(Enqueue(Save(EMPTY_STORE, t), t), t, "me", 30000, 0);
            var failed := RetryChain.Closed(s, t, Failed);
            && RetryChain.Judge(RetryChain.RebuiltPlan(t), t.attempts) == Failed
            && failed.queue == map[] && t in Recover(failed, 30000).queue
  {
    var t := Waiter("x", []).(typeName := "job");
    var s := Dequeue(Enqueue(Save(EMPTY_STORE, t), t), t, "me", 30000, 0);
    assert Seconds(30000) == 30;
    assert s.leases["x"] == Lease("me", Some(30000)) && s.processing == {"x"} && s.queue == map[];
    assert "x" in Orphans(s, 30000) && s.bodies["x"] == t;
  }
}
