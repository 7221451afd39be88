/** What every interleaving of store steps keeps: exact dependency counters, no task lost, and at most one
    delivery per scheduling of a delayed task. */
module StoreInvariants {
  import opened StoreModel

  // ---------- Dependency counters ----------

  function EdgesOf(children: map<Edge, set<string>>, id: string): set<Edge>
  {
    set edge | edge in children && id in children[edge]
  }

  function EdgeSet(edges: seq<Edge>): set<Edge>
  {
    set edge | edge in edges
  }

  lemma {:induction false} AddToAllEdges(children: map<Edge, set<string>>, edges: seq<Edge>, id: string, x: string)
    ensures EdgesOf(AddToAll(children, edges, id), x)
         == EdgesOf(children, x) + if x == id then EdgeSet(edges) else {}
  {
    if edges != [] {
      var n := |edges| - 1;
      var before := AddToAll(children, edges[..n], id);
      AddToAllEdges(children, edges[..n], id, x);
      assert EdgesOf(AddChild(before, edges[n], id), x) == EdgesOf(before, x) + if x == id then {edges[n]} else {};
      assert EdgeSet(edges) == EdgeSet(edges[..n]) + {edges[n]};
    }
  }

  lemma {:induction false} EdgeSetSize(edges: seq<Edge>)
    ensures |EdgeSet(edges)| <= |edges|
    ensures |EdgeSet(edges)| == |edges| <==> Distinct(edges)
  {
    if edges != [] {
      hide EdgeSet, Distinct;
      EdgeSetSize(edges[..|edges| - 1]);
      EdgeSetGrows(edges);
      DistinctGrows(edges);
    }
  }

  lemma EdgeSetGrows(edges: seq<Edge>)
    requires edges != []
    ensures var n := |edges| - 1;
            |EdgeSet(edges)| == |EdgeSet(edges[..n])| + if edges[n] in edges[..n] then 0 else 1
  {
    var n := |edges| - 1;
    var front, last := edges[..n], edges[n];
    assert edges == front + [last];
    assert EdgeSet(edges) == EdgeSet(front) + {last};
    if last in front {
      assert EdgeSet(edges) == EdgeSet(front);
    }
  }

  lemma DistinctGrows(edges: seq<Edge>)
    requires edges != []
    ensures var n := |edges| - 1;
            Distinct(edges) <==> Distinct(edges[..n]) && edges[n] !in edges[..n]
  {
    var n := |edges| - 1;
    var front := edges[..n];
    assert forall i :: 0 <= i < n ==> front[i] == edges[i];
    if edges[n] in front {
      var i :| 0 <= i < n && front[i] == edges[n];
      assert edges[i] == edges[n];
    }
  }

  ghost predicate Distinct(edges: seq<Edge>)
  {
    forall i, j :: 0 <= i < j < |edges| ==> edges[i] != edges[j]
  }

  /** How many dependencies of a waiting task are listed again. */
  function Surplus(edges: seq<Edge>): nat
  {
    EdgeSetSize(edges);
    |edges| - |EdgeSet(edges)|
  }

  function SurplusOf(surplus: map<string, int>, id: string): int
  {
    if id in surplus then surplus[id] else 0
  }

  /** Every counter is the number of children sets that still hold the child, plus the child's surplus: positive
      for dependencies listed more than once, negative for older edges it was not counted for. */
  ghost predicate Counted(s: Store, surplus: map<string, int>)
  {
    forall id :: Counter(s.counts, id) == |EdgesOf(s.children, id)| + SurplusOf(surplus, id)
  }

  /** By how much the counter set for t exceeds the number of children sets that then hold it. */
  function Excess(children: map<Edge, set<string>>, t: Task): int
  {
    |AllDeps(t)| - |EdgesOf(children, t.id) + EdgeSet(AllDeps(t))|
  }

  lemma SavedCounts(s: Store, surplus: map<string, int>, t: Task)
    requires Counted(s, surplus)
    ensures Counted(SaveWaiting(s, t), surplus[t.id := Excess(s.children, t)])
  {
    var s' := SaveWaiting(s, t);
    var surplus' := surplus[t.id := Excess(s.children, t)];
    forall id ensures Counter(s'.counts, id) == |EdgesOf(s'.children, id)| + SurplusOf(surplus', id) {
      AddToAllEdges(s.children, AllDeps(t), t.id, id);
      assert Counter(s.counts, id) == |EdgesOf(s.children, id)| + SurplusOf(surplus, id);
    }
  }

  /** Saving a waiting task makes its counter exact, up to dependencies listed again, if and only if every edge it
      was already waiting for is among the dependencies it lists now. */
  lemma SaveWaitingCounts(s: Store, surplus: map<string, int>, t: Task)
    requires Counted(s, surplus)
    ensures Counted(SaveWaiting(s, t), surplus[t.id := Surplus(AllDeps(t))])
       <==> EdgesOf(s.children, t.id) <= EdgeSet(AllDeps(t))
  {
    hide Counted, SaveWaiting, Excess, Surplus, EdgesOf, EdgeSet, AllDeps;
    var s' := SaveWaiting(s, t);
    var exact, saved := surplus[t.id := Surplus(AllDeps(t))], surplus[t.id := Excess(s.children, t)];
    SavedCounts(s, surplus, t);
    ExcessIsSurplus(s.children, t);
    CountedAt(s', saved, t.id);
    if Counted(s', exact) {
      CountedAt(s', exact, t.id);
    }
  }

  lemma ExcessIsSurplus(children: map<Edge, set<string>>, t: Task)
    ensures Excess(children, t) == Surplus(AllDeps(t)) <==> EdgesOf(children, t.id) <= EdgeSet(AllDeps(t))
  {
    UnionSize(EdgesOf(children, t.id), EdgeSet(AllDeps(t)));
  }

  lemma CountedAt(s: Store, surplus: map<string, int>, id: string)
    requires Counted(s, surplus)
    ensures Counter(s.counts, id) == |EdgesOf(s.children, id)| + SurplusOf(surplus, id)
  {
  }

  lemma UnionSize<T>(a: set<T>, b: set<T>)
    ensures |a + b| >= |b|
    ensures |a + b| == |b| <==> a <= b
  {
    assert a + b == b + (a - b);
    if a <= b {
      assert a + b == b;
    } else {
      var x :| x in a - b;
    }
  }

  lemma ResolveCounts(s: Store, surplus: map<string, int>, edge: Edge)
    requires Counted(s, surplus)
    ensures Counted(Resolve(s, edge), surplus)
  {
    var s' := Resolve(s, edge);
    forall id ensures Counter(s'.counts, id) == |EdgesOf(s'.children, id)| + SurplusOf(surplus, id) {
      assert Counter(s.counts, id) == |EdgesOf(s.children, id)| + SurplusOf(surplus, id);
      ResolveCountsOne(s, edge, id);
    }
  }

  lemma ResolveCountsOne(s: Store, edge: Edge, id: string)
    ensures Counter(Resolve(s, edge).counts, id)
         == Counter(s.counts, id) - if id in ChildrenOf(s.children, edge) then 1 else 0
    ensures |EdgesOf(Resolve(s, edge).children, id)|
         == |EdgesOf(s.children, id)| - if id in ChildrenOf(s.children, edge) then 1 else 0
    ensures EdgesOf(Resolve(s, edge).children, id) == EdgesOf(s.children, id) - {edge}
  {
    DecrementedOne(s.counts, ChildrenOf(s.children, edge), Released(s, edge), id);
    EdgesWithout(s.children, edge, id);
  }

  lemma DecrementedOne(counts: map<string, int>, ids: set<string>, gone: set<string>, id: string)
    requires forall x :: x in gone ==> x in ids && Counter(counts, x) == 1
    ensures Counter(Decremented(counts, ids, gone), id) == Counter(counts, id) - if id in ids then 1 else 0
  {
  }

  lemma EdgesWithout(children: map<Edge, set<string>>, edge: Edge, id: string)
    ensures EdgesOf(children - {edge}, id) == EdgesOf(children, id) - {edge}
    ensures |EdgesOf(children - {edge}, id)|
         == |EdgesOf(children, id)| - if id in ChildrenOf(children, edge) then 1 else 0
  {
    var before := EdgesOf(children, id);
    assert EdgesOf(children - {edge}, id) == before - {edge};
    assert edge in before <==> id in ChildrenOf(children, edge);
    if edge !in before {
      assert before - {edge} == before;
    }
  }

  /** A child is released by exactly the step that resolves its last edge, give or take its surplus, provided its
      body is still stored. */
  lemma ReleasedExactly(s: Store, surplus: map<string, int>, edge: Edge, id: string)
    requires Counted(s, surplus)
    ensures id in Released(s, edge) <==>
              && edge in EdgesOf(s.children, id)
              && |EdgesOf(s.children, id)| == 1 - SurplusOf(surplus, id)
              && id in s.bodies
    ensures SurplusOf(surplus, id) == 0 ==>
              (id in Released(s, edge) <==> EdgesOf(s.children, id) == {edge} && id in s.bodies)
    ensures edge !in Resolve(s, edge).children
    ensures EdgesOf(Resolve(s, edge).children, id) == EdgesOf(s.children, id) - {edge}
  {
    ResolveCountsOne(s, edge, id);
    var edges := EdgesOf(s.children, id);
    assert Counter(s.counts, id) == |edges| + SurplusOf(surplus, id);
    assert edge in edges <==> id in ChildrenOf(s.children, edge);
    if edge in edges {
      OnlyElement(edges, edge);
    }
  }

  lemma OnlyElement<T>(s: set<T>, x: T)
    requires x in s
    ensures |s| == 1 <==> s == {x}
  {
    assert s == {x} + (s - {x});
  }

  /** Re-saving an id that still waits can release it early: here the new parent B is still unresolved. */
  lemma ResavingReleasesEarly()
    ensures var a, b := Edge("A", Succeeded), Edge("B", Succeeded);
            var s := SaveWaiting(SaveWaiting(EMPTY_STORE, Waiter("c", [a])), Waiter("c", [b]));
            "c" in Released(s, a) && "c" in ChildrenOf(Resolve(s, a).children, b)
  {
    var a, b := Edge("A", Succeeded), Edge("B", Succeeded);
    var t1, t2 := Waiter("c", [a]), Waiter("c", [b]);
    assert AllDeps(t1) == [a] && AllDeps(t2) == [b];
    var s1 := SaveWaiting(EMPTY_STORE, t1);
    AddToAllEdges(EMPTY_STORE.children, [a], "c", "c");
    AddToAllEdges(s1.children, [b], "c", "c");
    var s := SaveWaiting(s1, t2);
    assert a in EdgesOf(s.children, "c") && b in EdgesOf(s.children, "c");
  }

  // ---------- No task lost ----------

  ghost predicate InQueue(s: Store, id: string)
  {
    exists t :: t in s.queue && t.id == id
  }

  /** Every owed id has a body stored under its own id, and is in the queue or being processed. */
  ghost predicate Accounted(s: Store, owed: set<string>)
  {
    forall id :: id in owed ==> OwnBody(s, id) && (InQueue(s, id) || id in s.processing)
  }

  predicate OwnBody(s: Store, id: string)
  {
    id in s.bodies && s.bodies[id].id == id
  }

  ghost predicate Keyed(s: Store)
  {
    forall id :: id in s.bodies ==> s.bodies[id].id == id
  }

  lemma EnqueueAccounts(s: Store, owed: set<string>, t: Task)
    requires Accounted(s, owed)
    ensures Accounted(Enqueue(s, t), if OwnBody(s, t.id) then owed + {t.id} else owed)
  {
    var s' := Enqueue(s, t);
    assert t in s'.queue;
    forall id | InQueue(s, id) ensures InQueue(s', id) {
      var u :| u in s.queue && u.id == id;
      assert u in s'.queue;
    }
  }

  /** A dequeue loses an owed task exactly when the lease is shorter than a second and nothing else accounts
      for the popped id. */
  lemma DequeueAccounts(s: Store, owed: set<string>, t: Task, owner: string, durationMs: int, now: int)
    requires Accounted(s, owed) && IsHighest(s.queue, t)
    ensures var s' := Dequeue(s, t, owner, durationMs, now);
            Accounted(s', owed) <==>
              || Seconds(durationMs) >= 1
              || t.id !in owed || t.id in s.processing
              || AlsoQueued(s, t)
  {
    var s' := Dequeue(s, t, owner, durationMs, now);
    assert s'.queue == s.queue - {t} && s'.bodies == s.bodies;
    assert s'.processing == s.processing + if Seconds(durationMs) >= 1 then {t.id} else {};
    OthersStillQueued(s, t, s');
    PoppedStillQueued(s, t, s');
    hide IsHighest, InQueue, AlsoQueued, Seconds, Dequeue;
    if Accounted(s', owed) && t.id in owed {
      assert InQueue(s', t.id) || t.id in s'.processing;
    }
  }

  /** What a dequeue loses: the popped id, when no lease can be set and nothing else accounts for it. */
  ghost function Lost(s: Store, t: Task, durationMs: int): set<string>
  {
    if Seconds(durationMs) >= 1 || t.id in s.processing || AlsoQueued(s, t) then {} else {t.id}
  }

  lemma DequeueKeepsTheRest(s: Store, owed: set<string>, t: Task, owner: string, durationMs: int, now: int)
    requires Accounted(s, owed) && IsHighest(s.queue, t)
    ensures Accounted(Dequeue(s, t, owner, durationMs, now), owed - Lost(s, t, durationMs))
  {
    assert Accounted(s, owed - Lost(s, t, durationMs));
    DequeueAccounts(s, owed - Lost(s, t, durationMs), t, owner, durationMs, now);
  }

  lemma OthersStillQueued(s: Store, t: Task, s': Store)
    requires s'.queue == s.queue - {t}
    ensures forall id :: id != t.id && InQueue(s, id) ==> InQueue(s', id)
  {
    forall id | id != t.id && InQueue(s, id) ensures InQueue(s', id) {
      var u :| u in s.queue && u.id == id;
      assert u in s'.queue;
    }
  }

  /** Another queue entry carries the same id. */
  ghost predicate AlsoQueued(s: Store, t: Task)
  {
    exists u :: u in s.queue && u != t && u.id == t.id
  }

  /** After a pop the same id can be handed out again exactly when another entry carries it. */
  lemma PoppedStillQueued(s: Store, t: Task, s': Store)
    requires s'.queue == s.queue - {t}
    ensures InQueue(s', t.id) <==> AlsoQueued(s, t)
  {
    if AlsoQueued(s, t) {
      var u :| u in s.queue && u != t && u.id == t.id;
      assert u in s'.queue;
    }
  }

  /** Two stored versions of one task are two queue entries, so two instances can be handed the same id, the
      second taking over the live lease of the first. */
  lemma SameTaskDeliveredTwice()
    ensures var first := Waiter("x", []);
            var retry := first.(attempts := 1);
            var s := Enqueue(Enqueue(Save(EMPTY_STORE, first), first), retry);
            var s1 := Dequeue(s, first, "me", 30000, 0);
            var s2 := Dequeue(s1, retry, "you", 30000, 1);
            && IsHighest(s.queue, first) && AlsoQueued(s, first) && IsHighest(s1.queue, retry)
            && Leased(s1, "x", 1) && s1.leases["x"].owner == "me"
            && Leased(s2, "x", 1) && s2.leases["x"].owner == "you"
  {
    var first := Waiter("x", []);
    var retry := first.(attempts := 1);
    var s := Enqueue(Enqueue(Save(EMPTY_STORE, first), first), retry);
    assert first != retry && retry in s.queue && retry.id == first.id;
  }

  lemma SubSecondLeaseLosesTask()
    ensures var t := Waiter("x", []);
            var s := Enqueue(Save(EMPTY_STORE, t), t);
            && IsHighest(s.queue, t) && Accounted(s, {"x"})
            && !Accounted(Dequeue(s, t, "me", 999, 0), {"x"})
  {
    var t := Waiter("x", []);
    var s := Enqueue(Save(EMPTY_STORE, t), t);
    assert t in s.queue;
    assert InQueue(s, "x");
    var s' := Dequeue(s, t, "me", 999, 0);
    assert s'.queue == map[];
    assert "x" in s'.bodies && !InQueue(s', "x");
  }

  lemma DeleteAccounts(s: Store, owed: set<string>, id: string)
    requires Accounted(s, owed)
    ensures Accounted(Delete(s, id), owed - {id})
  {
    forall x | InQueue(s, x) ensures InQueue(Delete(s, id), x) {
      var u :| u in s.queue && u.id == x;
      assert u in Delete(s, id).queue;
    }
  }

  lemma RecoverAccounts(s: Store, owed: set<string>, now: int)
    requires Accounted(s, owed)
    ensures Accounted(Recover(s, now), owed)
  {
    var s' := Recover(s, now);
    forall id | id in owed ensures InQueue(s', id) || id in s'.processing {
      if InQueue(s, id) {
        var u :| u in s.queue && u.id == id;
        assert u in s'.queue;
      } else if !Leased(s, id, now) {
        assert id in Orphans(s, now);
        assert s.bodies[id] in s'.queue && s.bodies[id].id == id;
      }
    }
  }

  /** Steps that leave queue and processing alone and keep each owed body under its own id. */
  lemma UntouchedAccounts(s: Store, s': Store, owed: set<string>)
    requires Accounted(s, owed)
    requires s'.queue == s.queue && s'.processing == s.processing
    requires forall id :: id in owed ==> OwnBody(s', id)
    ensures Accounted(s', owed)
  {
    forall id | InQueue(s, id) ensures InQueue(s', id) {
    }
  }

  /** The highest entry exists in every non-empty queue. */
  lemma {:induction false} HighestExists(queue: map<Task, int>, u: Task) returns (t: Task)
    requires u in queue
    ensures IsHighest(queue, t) && queue[u] <= queue[t]
    decreases |queue|
  {
    if IsHighest(queue, u) {
      t := u;
    } else {
      var v :| v in queue && queue[v] > queue[u];
      var rest := queue - {u};
      assert v in rest && |rest| < |queue|;
      t := HighestExists(rest, v);
      assert forall x :: x in queue ==> x == u || x in rest;
    }
  }
}
