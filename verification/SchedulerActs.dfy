/** The scheduler's treatment of a finished attempt is one of the acts that `WorkflowRelease` reasons about, so its
    theorems hold of what the scheduler does. */
module SchedulerActs {
  import opened StoreModel
  import opened StoreRuns
  import opened RedisStorages
  import opened RetryChain
  import opened Schedulers
  import opened WorkflowRelease

  /** Submitting tasks that wait for nothing: each named one is saved and queued. */
  function SubmitSteps(ps: seq<Task>): seq<Step>
  {
    if ps == [] then []
    else
      var last := ps[|ps| - 1];
      SubmitSteps(ps[..|ps| - 1]) + if last.typeName == "" then [] else [SaveBody(last), Push(last)]
  }

  ghost predicate NoneWaits(ps: seq<Task>)
  {
    forall p :: p in ps ==> !Waits(p)
  }

  lemma {:induction false} AcceptedDoNotWait(r: Room, ready: seq<Task>, registry: set<string>)
    ensures NoneWaits(Admit(r, ready, registry).accepted)
  {
    if ready != [] {
      AcceptedDoNotWait(r, ready[..|ready| - 1], registry);
    }
  }

  lemma OneSubmission(w: World, p: Task)
    requires !Waits(p) && p.typeName != ""
    ensures After(w, [SaveBody(p), Push(p)]).store == Submitted(w.store, p)
  {
    var w1 := Apply(w, SaveBody(p));
    assert [SaveBody(p), Push(p)][1..] == [Push(p)] && [Push(p)][1..] == [];
    assert After(w, [SaveBody(p), Push(p)]) == After(w1, [Push(p)]) == Apply(w1, Push(p));
    hide LogAfter, SurplusAfter, Owed;
  }

  lemma {:induction false} SubmitStepsDo(w: World, ps: seq<Task>)
    requires NoneWaits(ps)
    ensures After(w, SubmitSteps(ps)).store == SubmittedAll(w.store, ps)
  {
    hide Submitted, Apply, Waits;
    if ps != [] {
      var front, last := ps[..|ps| - 1], ps[|ps| - 1];
      SubmitStepsDo(w, front);
      UnnamedIsNotStored(SubmittedAll(w.store, front), last);
      if last.typeName == "" {
        assert SubmitSteps(ps) == SubmitSteps(front);
      } else {
        AfterConcat(w, SubmitSteps(front), [SaveBody(last), Push(last)]);
        OneSubmission(After(w, SubmitSteps(front)), last);
      }
    }
  }

  /** Settling the stored form of a task at an end. */
  function CloseSteps(body: Task, status: TaskStatus): seq<Step>
  {
    if body.typeName == "" then []
    else match status
      case Dead => [SaveBody(body), Remove(body.id)]
      case Succeeded | Cancelled => [Remove(body.id)]
      case _ => []
  }

  lemma CloseStepsDo(w: World, body: Task, status: TaskStatus)
    ensures After(w, CloseSteps(body, status)).store == Closed(w.store, body, status)
  {
    var save, remove := SaveBody(body), Remove(body.id);
    assert [save, remove][1..] == [remove] && [remove][1..] == [];
    assert After(w, [remove]) == Apply(w, remove);
    assert After(w, [save, remove]) == After(Apply(w, save), [remove]) == Apply(Apply(w, save), remove);
    hide LogAfter, SurplusAfter, Owed;
  }

  lemma ResolveDoes(w: World, edge: Edge)
    ensures After(w, [ResolveEdge(edge)]).store == Resolve(w.store, edge)
  {
    assert [ResolveEdge(edge)][1..] == [];
    assert After(w, [ResolveEdge(edge)]) == Apply(w, ResolveEdge(edge));
    hide LogAfter, SurplusAfter, Owed, Resolve;
  }

  /** Resolving one edge and submitting the children it released. */
  function EdgeSteps(d: Desk, edge: Edge, ids: seq<string>, registry: set<string>): seq<Step>
  {
    [ResolveEdge(edge)] + SubmitSteps(FreedAt(d, ids, registry))
  }

  lemma EdgeStepsDo(w: World, d: Desk, edge: Edge, ids: seq<string>, registry: set<string>)
    requires w.store == d.store
    ensures After(w, EdgeSteps(d, edge, ids, registry)).store == ResolveAt(d, edge, ids, registry).store
  {
    AcceptedDoNotWait(d.room, BodiesOf(d.store.bodies, ids), registry);
    hide NoneWaits, SubmittedAll, Resolve, Admit, Apply;
    AfterConcat(w, [ResolveEdge(edge)], SubmitSteps(FreedAt(d, ids, registry)));
    ResolveDoes(w, edge);
    SubmitStepsDo(After(w, [ResolveEdge(edge)]), FreedAt(d, ids, registry));
  }

  /** The steps taken between the two edges of a death, and after the last edge of an end. */
  function Between(d: Desk, edges: seq<Edge>, orders: seq<seq<string>>, registry: set<string>): seq<Step>
    requires |edges| == |orders|
  {
    if |edges| == 2 then SubmitSteps(FreedAt(d, orders[0], registry)) else []
  }

  function AfterLast(d: Desk, edges: seq<Edge>, orders: seq<seq<string>>, registry: set<string>): seq<Step>
    requires |edges| == |orders|
  {
    if |edges| == 0 then []
    else if |edges| == 1 then SubmitSteps(FreedAt(d, orders[0], registry))
    else SubmitSteps(FreedAt(ResolveAt(d, edges[0], orders[0], registry), orders[1], registry))
  }

  lemma WovenSteps(w: World, d: Desk, edges: seq<Edge>, orders: seq<seq<string>>, registry: set<string>)
    requires |edges| == |orders| <= 2 && w.store == d.store
    ensures After(w, Weave(edges, Between(d, edges, orders, registry)) + AfterLast(d, edges, orders, registry)).store
         == ResolveEach(d, edges, orders, registry).store
  {
    hide FreedAt, ResolveAt, SubmitSteps, Apply;
    var all := Weave(edges, Between(d, edges, orders, registry)) + AfterLast(d, edges, orders, registry);
    if |edges| == 0 {
      assert all == [];
    } else {
      EdgeStepsDo(w, d, edges[0], orders[0], registry);
      EachOne(d, edges[..1], orders[..1], registry);
      var w1 := After(w, EdgeSteps(d, edges[0], orders[0], registry));
      if |edges| == 1 {
        assert edges[..1] == edges && orders[..1] == orders;
        assert all == EdgeSteps(d, edges[0], orders[0], registry);
      } else {
        var d1 := ResolveAt(d, edges[0], orders[0], registry);
        EdgeStepsDo(w1, d1, edges[1], orders[1], registry);
        assert all == EdgeSteps(d, edges[0], orders[0], registry) + EdgeSteps(d1, edges[1], orders[1], registry);
        AfterConcat(w, EdgeSteps(d, edges[0], orders[0], registry), EdgeSteps(d1, edges[1], orders[1], registry));
      }
    }
  }

  lemma EachOne(d: Desk, edges: seq<Edge>, orders: seq<seq<string>>, registry: set<string>)
    requires |edges| == |orders| == 1
    ensures ResolveEach(d, edges, orders, registry) == ResolveAt(d, edges[0], orders[0], registry)
  {
    assert ResolveEach(d, edges[..0], orders[..0], registry) == d;
  }

  // ---------- As acts ----------

  function Others(steps: seq<Step>): seq<Act>
  {
    seq(|steps|, n requires 0 <= n < |steps| => Other(steps[n]))
  }

  lemma {:induction false} OthersAct(c: Chain, steps: seq<Step>, rest: seq<Act>)
    ensures AllSteps(c, Others(steps) + rest) == steps + AllSteps(c, rest)
    ensures Moves(Others(steps) + rest) == Moves(rest)
    ensures OthersResolve(c, Others(steps) + rest) == ResolvedIn(steps) + OthersResolve(c, rest)
    decreases |steps|
  {
    hide ResolvedIn, ResolvedBy;
    if steps == [] {
      NothingResolved();
      assert Others(steps) + rest == rest;
    } else {
      var acts := Others(steps) + rest;
      assert acts[0] == Other(steps[0]) && acts[1..] == Others(steps[1..]) + rest;
      OthersAct(c, steps[1..], rest);
      ResolvedInFirst(steps);
    }
  }

  /** What the scheduler does when an attempt ends: settle the stored form, make the move with the submissions that
      come between its edges, and submit the children of the last edge. */
  function EndActs(d: Desk, body: Task, c: Chain, outcome: Outcome, orders: seq<seq<string>>, registry: set<string>):
    seq<Act>
    requires |orders| == |EdgesAt(c.plan, RetryChain.Finish(c, outcome).status)|
  {
    var status := RetryChain.Finish(c, outcome).status;
    var closed, edges := d.(store := Closed(d.store, Freed(body), status)), EdgesAt(c.plan, status);
    Others(CloseSteps(Freed(body), status))
    + ([Own(Attempt(outcome), Between(closed, edges, orders, registry))]
       + Others(AfterLast(closed, edges, orders, registry)))
  }

  /** A step that resolves no edge and saves no waiting task. */
  predicate Plain(s: Step)
  {
    s.SaveBody? || s.Push? || s.Remove?
  }

  ghost predicate AllPlain(steps: seq<Step>)
  {
    forall n :: 0 <= n < |steps| ==> Plain(steps[n])
  }

  lemma {:induction false} SubmitStepsArePlain(ps: seq<Task>)
    ensures AllPlain(SubmitSteps(ps))
  {
    if ps != [] {
      SubmitStepsArePlain(ps[..|ps| - 1]);
    }
  }

  lemma PlainResolvesNothing(steps: seq<Step>)
    requires AllPlain(steps)
    ensures ResolvedIn(steps) == {}
  {
  }

  /** The chain of a task at the start of an attempt, whether a worker has marked it running or not. */
  function Started(c: Chain): Chain
  {
    c.(status := Queued)
  }

  /** The desk the scheduler is left with after an attempt ended is the one those acts lead to, the chain is the one
      the move leads to, and nobody else resolved an edge. */
  lemma EndIsActs(w: World, d: Desk, body: Task, c: Chain, outcome: Outcome, orders: seq<seq<string>>,
                  registry: set<string>)
    requires w.store == d.store
    requires |orders| == |EdgesAt(c.plan, RetryChain.Finish(c, outcome).status)|
    ensures var y := Acts(System(w, Started(c)), EndActs(d, body, c, outcome, orders, registry));
            && y.chain == RetryChain.Finish(c, outcome)
            && y.world.store == EndDesk(d, body, c.plan, y.chain.status, orders, registry).store
    ensures OthersResolve(Started(c), EndActs(d, body, c, outcome, orders, registry)) == {}
  {
    var status := RetryChain.Finish(c, outcome).status;
    var closed, edges := d.(store := Closed(d.store, Freed(body), status)), EdgesAt(c.plan, status);
    var close, between := CloseSteps(Freed(body), status), Between(closed, edges, orders, registry);
    var last := AfterLast(closed, edges, orders, registry);
    FinishIgnoresStatus(c, outcome);
    FinishedEdges(Started(c), outcome);
    PlainParts(closed, Freed(body), status, edges, orders, registry);
    WovenSteps(After(w, close), closed, edges, orders, registry) by {
      CloseStepsDo(w, Freed(body), status);
    }
    ActsAreSteps(System(w, Started(c)), EndActs(d, body, c, outcome, orders, registry));
    ChainLives(System(w, Started(c)), EndActs(d, body, c, outcome, orders, registry));
    EndActsParts(Started(c), outcome, close, between, last);
    hide Apply, Closed, CloseSteps, Between, AfterLast, Weave, ResolveEach, ResolvedIn, EdgesAt, RetryChain.Finish,
         NewEdges, Acts, AllSteps, Moves, OthersResolve, Others, Live;
    AfterConcat(w, close, Weave(edges, between) + last);
  }

  lemma FinishIgnoresStatus(c: Chain, outcome: Outcome)
    ensures RetryChain.Finish(Started(c), outcome) == RetryChain.Finish(c, outcome)
  {
  }

  /** What `Finish` does to the scheduler and the store, for any world whose store it works on: it leaves the store,
      and for a tracked task the chain, that the acts of this end lead to. So the release theorems, which are about
      acts, are about the scheduler. */
  method FinishActs(s: Scheduler, t: Job, result: WorkerResult, ghost w: World) returns (ghost acts: seq<Act>)
    requires w.store == s.storage.Value()
    modifies s, t`status, s.TrackedUnder(t.id)`status, s.storage
    ensures var c := old(s.ChainOf(t));
            && s.storage.Value() == Acts(System(w, Started(c)), acts).world.store
            && Acts(System(w, Started(c)), acts).chain == RetryChain.Finish(c, old(s.OutcomeOf(t, result)))
            && (old(s.Tracked(t)) ==> s.ChainOf(t) == Acts(System(w, Started(c)), acts).chain)
            && OthersResolve(Started(c), acts) == {}
    ensures var noted := t.id in old(s.tasks) && old(s.tasks[t.id].status) == Cancelled;
            Moves(acts) == [Attempt(match result
                                    case Returned(failed) => if failed then Error else Success
                                    case ContextDone(cancelled) => if cancelled || noted then Abort else Timeout)]
  {
    ghost var c, outcome := s.ChainOf(t), s.OutcomeOf(t, result);
    ghost var first, body, p := Unkeyed(s.DeskOf(), t.key), t.Stored(), t.PlanOf();
    ghost var orders := s.Finish(t, result);
    ghost var status := RetryChain.Finish(c, outcome).status;
    OrdersFit(first, body, p, status, orders, s.registry, old(s.queue), s.queue);
    acts := EndActs(first, body, c, outcome, orders, s.registry);
    EndIsActs(w, first, body, c, outcome, orders, s.registry);
    EndMoves(first, body, c, outcome, orders, s.registry);
    TrackedResult(c, outcome);
    assert t.Stored() == body && t.PlanOf() == p;
    hide EndActs, Acts, EndDesk, EndsWell, Moves, OthersResolve, RetryChain.Finish, ResultChain, RedisStorage.Value,
         Reports, Scheduler.OutcomeOf;
  }

  lemma OrdersFit(d: Desk, body: Task, p: Plan, status: TaskStatus, orders: seq<seq<string>>, registry: set<string>,
                  line: seq<Job>, queue: seq<Job>)
    requires EndsWell(d, body, p, status, orders, registry, line, queue)
    ensures |orders| == |EdgesAt(p, status)|
  {
  }

  lemma EndMoves(d: Desk, body: Task, c: Chain, outcome: Outcome, orders: seq<seq<string>>, registry: set<string>)
    requires |orders| == |EdgesAt(c.plan, RetryChain.Finish(c, outcome).status)|
    ensures Moves(EndActs(d, body, c, outcome, orders, registry)) == [Attempt(outcome)]
  {
    var status := RetryChain.Finish(c, outcome).status;
    var closed, edges := d.(store := Closed(d.store, Freed(body), status)), EdgesAt(c.plan, status);
    var own := Own(Attempt(outcome), Between(closed, edges, orders, registry));
    var last := AfterLast(closed, edges, orders, registry);
    var rest := [own] + Others(last);
    hide Between, AfterLast, Closed, CloseSteps, EdgesAt, RetryChain.Finish;
    OthersAct(c, CloseSteps(Freed(body), status), rest);
    OthersAct(c, last, []);
    assert Others(last) + [] == Others(last);
    assert rest[0] == own && rest[1..] == Others(last);
  }

  /** A submitted task that waits is saved as a waiting child, so what the run theorems say of one holds of it. */
  lemma WaitingIsSavedChild(w: World, p: Task)
    requires p.typeName != "" && (p.dependsOn != [] || p.dependencies != [])
    ensures Submitted(w.store, p) == Apply(w, SaveChild(p)).store
  {
    hide LogAfter, SurplusAfter, Owed, SaveWaiting;
  }

  lemma TrackedResult(c: Chain, outcome: Outcome)
    ensures ResultChain(c, outcome, true) == RetryChain.Finish(c, outcome)
  {
  }

  lemma FinishedEdges(c: Chain, outcome: Outcome)
    requires c.status == Queued
    ensures |EdgesAt(c.plan, RetryChain.Finish(c, outcome).status)| <= 2
    ensures NewEdges(c, Attempt(outcome)) == EdgesAt(c.plan, RetryChain.Finish(c, outcome).status)
  {
  }

  lemma PlainParts(d: Desk, body: Task, status: TaskStatus, edges: seq<Edge>, orders: seq<seq<string>>,
                   registry: set<string>)
    requires |edges| == |orders| <= 2
    ensures ResolvedIn(CloseSteps(body, status)) == {}
    ensures ResolvedIn(Between(d, edges, orders, registry)) == {}
    ensures ResolvedIn(AfterLast(d, edges, orders, registry)) == {}
  {
    PlainResolvesNothing(CloseSteps(body, status));
    PlainResolvesNothing([]);
    if |edges| > 0 {
      var freed := FreedAt(d, orders[0], registry);
      SubmitStepsArePlain(freed);
      PlainResolvesNothing(SubmitSteps(freed));
    }
    if |edges| == 2 {
      var freed := FreedAt(ResolveAt(d, edges[0], orders[0], registry), orders[1], registry);
      SubmitStepsArePlain(freed);
      PlainResolvesNothing(SubmitSteps(freed));
    }
    hide ResolvedIn, SubmitSteps, FreedAt, ResolveAt;
  }

  /** Steps, moves and foreign resolutions of the three parts of an end. */
  lemma EndActsParts(c: Chain, outcome: Outcome, close: seq<Step>, between: seq<Step>, last: seq<Step>)
    requires c.status == Queued
    requires ResolvedIn(close) == {} && ResolvedIn(between) == {} && ResolvedIn(last) == {}
    ensures var acts := Others(close) + ([Own(Attempt(outcome), between)] + Others(last));
            && AllSteps(c, acts) == close + (Weave(NewEdges(c, Attempt(outcome)), between) + last)
            && Live(c, Moves(acts)) == RetryChain.Finish(c, outcome)
            && OthersResolve(c, acts) == {}
  {
    hide ResolvedIn, Weave, NewEdges, RetryChain.Finish;
    var own := Own(Attempt(outcome), between);
    var rest := [own] + Others(last);
    OthersAct(c, close, rest);
    assert rest[0] == own && rest[1..] == Others(last);
    var c1 := ChainAfter(c, own);
    OthersAct(c1, last, []);
    assert Others(last) + [] == Others(last);
    assert AllSteps(c1, []) == [] && Moves([]) == [] && OthersResolve(c1, []) == {};
    assert last + [] == last;
    assert Moves(rest) == [Attempt(outcome)];
    assert [Attempt(outcome)][1..] == [];
  }
}
