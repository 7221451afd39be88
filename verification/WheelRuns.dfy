/** Whole runs of the wheel, with time moving forward: what every reachable state keeps, and agreement of
    every run with the flat timers. */
module WheelRuns {
  import opened Quantum
  import opened Buckets
  import opened WheelModel
  import opened WheelMachine
  import opened FlatTimers

  function NewWheel(tickMs: int, size: int, startMs: int): Wheel
    requires tickMs > 0 && size >= 2
  {
    Wheel(size, [NewLevel(tickMs, size, startMs)], map[], {}, {}, [])
  }

  lemma NewWheelOk(tickMs: int, size: int, startMs: int)
    requires tickMs > 0 && size >= 2 && startMs >= 0
    ensures Inv(NewWheel(tickMs, size, startMs), multiset{}, startMs)
    ensures BaseTick(NewWheel(tickMs, size, startMs)) == tickMs
    ensures View(NewWheel(tickMs, size, startMs)) == Flat({}, {})
  {
    var l := NewLevel(tickMs, size, startMs);
    MultipleBelowFloor(0, startMs, tickMs);
    EmptyRingBag(l.ring);
    assert [l][..0] == [];
    assert Bag([l]) == multiset{};
  }

  /** One step of a run at wall-clock time `at`. */
  datatype Step =
    | Arm(entry: WheelEntry, at: int)
    | Disarm(taskID: string, at: int)
    | Process(level: int, slot: int, at: int)
    | Block(at: int)

  ghost predicate Takes(w: Wheel, s: Step, w': Wheel)
    requires WheelOk(w.levels, w.size)
  {
    match s
    case Arm(e, at) => e !in w.accepted && w' == Schedule(w, e, at)
    case Disarm(id, at) => w' == Cancel(w, id)
    case Process(k, i, at) => CanPop(w, k, i, at) && w' == Tick(w, k, i, at)
    case Block(at) => Blocked(w, at) && w' == w
  }

  /** The same step on the flat timers: arming fires at most the timer armed, processing fires due timers only, and a
      block must find nothing due. */
  ghost predicate FlatTakes(f: Flat, s: Step, f': Flat, tickMs: int)
    requires tickMs > 0
  {
    match s
    case Arm(e, at) => OnlyFires(FlatSchedule(f, e), f', e, tickMs, at)
    case Disarm(id, at) => f' == FlatCancel(f, id)
    case Process(_, _, at) => SomeFire(f, f', tickMs, at)
    case Block(at) => f' == f && Quiet(f, tickMs, at)
  }

  lemma InvLater(w: Wheel, hand: multiset<WheelEntry>, now: int, later: int)
    requires Inv(w, hand, now) && now <= later
    ensures Inv(w, hand, later)
  {
  }

  /** One step: the invariant survives and the flat timers can take the same step. */
  lemma StepSimulates(w: Wheel, s: Step, w': Wheel, now: int)
    requires Inv(w, multiset{}, now) && now <= s.at && Takes(w, s, w')
    ensures Inv(w', multiset{}, s.at)
    ensures BaseTick(w') == BaseTick(w)
    ensures FlatTakes(View(w), s, View(w'), BaseTick(w))
    ensures w.cancelled <= w'.cancelled
  {
    InvLater(w, multiset{}, now, s.at);
    hide Inv, View, SomeFire, OnlyFires, RingOk, Tower, WheelOk, Schedule, Cancel, Tick, BaseTick, Quiet, Blocked,
         FlatSchedule, FlatCancel;
    match s
    case Arm(e, at) =>
      ScheduleView(w, e, at);
      ScheduleCancelled(w, e, at);
    case Disarm(id, at) =>
      CancelView(w, id, at);
      CancelCancelled(w, id);
    case Process(k, i, at) =>
      TickView(w, k, i, at);
      TickCancelled(w, k, i, at);
    case Block(at) =>
      BlockedIsQuiet(w, at);
  }

  lemma ScheduleCancelled(w: Wheel, e: WheelEntry, now: int)
    requires Tower(w.levels, w.size)
    ensures w.cancelled <= Schedule(w, e, now).cancelled
  {
    hide Tower, Route;
  }

  lemma CancelCancelled(w: Wheel, taskID: string)
    ensures w.cancelled <= Cancel(w, taskID).cancelled
  {
  }

  lemma TickCancelled(w: Wheel, k: int, i: int, now: int)
    requires WheelOk(w.levels, w.size) && Earliest(w.levels, k, i)
    ensures Tick(w, k, i, now).cancelled == w.cancelled
  {
    ReinsertCancelled(Detached(w, k, i), w.levels[k].ring[i].items, now);
  }

  lemma {:induction false} ReinsertCancelled(w: Wheel, items: seq<WheelEntry>, now: int)
    requires WheelOk(w.levels, w.size)
    ensures Reinsert(w, items, now).cancelled == w.cancelled
    decreases |items|
  {
    if items != [] {
      InsertOk(w, items[0], now);
      ReinsertCancelled(Insert(w, items[0], now), items[1..], now);
    }
  }

  // ---------- Runs ----------

  /** A run from `states[0]` at time `now`: one state after each step, times never decreasing. */
  ghost predicate Run(states: seq<Wheel>, steps: seq<Step>, now: int)
    decreases |steps|
  {
    && |states| == |steps| + 1
    && WheelOk(states[0].levels, states[0].size)
    && (steps == [] ||
        (now <= steps[0].at && Takes(states[0], steps[0], states[1]) && Run(states[1..], steps[1..], steps[0].at)))
  }

  /** In every run, every state keeps the invariant and every step is a step of the flat timers; and
      whatever was cancelled stays cancelled. */
  lemma {:induction false} EveryStepAgrees(states: seq<Wheel>, steps: seq<Step>, now: int, j: int)
    requires Run(states, steps, now) && Inv(states[0], multiset{}, now) && 0 <= j <= |steps|
    ensures Inv(states[j], multiset{}, if j == 0 then now else steps[j - 1].at)
    ensures BaseTick(states[j]) == BaseTick(states[0])
    ensures j < |steps| ==> FlatTakes(View(states[j]), steps[j], View(states[j + 1]), BaseTick(states[0]))
    ensures states[0].cancelled <= states[j].cancelled
    decreases |steps|
  {
    hide View, SomeFire, RingOk, Tower, WheelOk, FlatTakes, Takes, Inv, BaseTick;
    if j == 0 {
      if steps != [] {
        StepSimulates(states[0], steps[0], states[1], now);
      }
    } else {
      StepSimulates(states[0], steps[0], states[1], now);
      EveryStepAgrees(states[1..], steps[1..], steps[0].at, j - 1);
    }
  }

  lemma {:induction false} CancelledStays(states: seq<Wheel>, steps: seq<Step>, now: int, i: int, j: int)
    requires Run(states, steps, now) && Inv(states[0], multiset{}, now) && 0 <= i <= j <= |steps|
    ensures states[i].cancelled <= states[j].cancelled
    decreases |steps|
  {
    hide Inv, Takes, View, FlatTakes, BaseTick, WheelOk;
    if i == 0 {
      EveryStepAgrees(states, steps, now, j);
    } else {
      StepSimulates(states[0], steps[0], states[1], now);
      CancelledStays(states[1..], steps[1..], steps[0].at, i - 1, j - 1);
    }
  }

  /** In every run: no entry fires before its tick has begun, none fires twice, and an entry cancelled at
      any state i has not fired in any later state j. */
  lemma RunSafety(states: seq<Wheel>, steps: seq<Step>, now: int, i: int, j: int)
    requires Run(states, steps, now) && Inv(states[0], multiset{}, now) && 0 <= i <= j <= |steps|
    ensures forall f :: f in states[j].fired ==> Due(f.entry, BaseTick(states[0]), f.at)
    ensures forall e :: FiredBag(states[j].fired)[e] <= 1
    ensures forall e :: e in states[i].cancelled ==> e !in FiredBag(states[j].fired)
  {
    CancelledStays(states, steps, now, i, j);
    EveryStepAgrees(states, steps, now, j);
    StateSafety(states[j], if j == 0 then now else steps[j - 1].at);
    hide *;
  }

  lemma StateSafety(w: Wheel, now: int)
    requires Inv(w, multiset{}, now)
    ensures forall f :: f in w.fired ==> Due(f.entry, BaseTick(w), f.at)
    ensures forall e :: FiredBag(w.fired)[e] <= 1
    ensures forall e :: e in w.cancelled ==> e !in FiredBag(w.fired)
  {
    hide RingOk, FiredBag, Bag, Due;
    forall e ensures FiredBag(w.fired)[e] <= 1 {
      if e in FiredBag(w.fired) {
        var held := Bag(w.levels) + multiset{};
        assert held[e] + FiredBag(w.fired)[e] <= 1;
      }
    }
  }

  // ---------- Settled runs: agreement with a function ----------

  /** A request followed by the tick loop running until it blocks, all at the request's time. */
  datatype Request = Add(entry: WheelEntry, at: int) | Remove(taskID: string, at: int) | Wait(at: int)

  function Ask(w: Wheel, r: Request): Wheel
    requires Tower(w.levels, w.size)
  {
    match r
    case Add(e, at) => Schedule(w, e, at)
    case Remove(id, at) => Cancel(w, id)
    case Wait(at) => w
  }

  ghost predicate Serves(w: Wheel, r: Request, w': Wheel)
    requires WheelOk(w.levels, w.size)
  {
    && (r.Add? ==> r.entry !in w.accepted)
    && WheelOk(Ask(w, r).levels, Ask(w, r).size)
    && exists picks: seq<(int, int)> :: Drains(Ask(w, r), picks, r.at, w')
  }

  function FlatServe(f: Flat, r: Request, tickMs: int): Flat
    requires tickMs > 0
  {
    match r
    case Add(e, at) => FlatSettle(FlatSchedule(f, e), tickMs, at)
    case Remove(id, at) => FlatSettle(FlatCancel(f, id), tickMs, at)
    case Wait(at) => FlatSettle(f, tickMs, at)
  }

  function FlatRun(f: Flat, requests: seq<Request>, tickMs: int): Flat
    requires tickMs > 0
    decreases |requests|
  {
    if requests == [] then f else FlatRun(FlatServe(f, requests[0], tickMs), requests[1..], tickMs)
  }

  ghost predicate SettledRun(states: seq<Wheel>, requests: seq<Request>, now: int)
    decreases |requests|
  {
    && |states| == |requests| + 1
    && WheelOk(states[0].levels, states[0].size)
    && (requests == [] ||
        (now <= requests[0].at && Serves(states[0], requests[0], states[1]) &&
         SettledRun(states[1..], requests[1..], requests[0].at)))
  }

  lemma ServeAgrees(w: Wheel, r: Request, w': Wheel, now: int)
    requires Inv(w, multiset{}, now) && now <= r.at && Serves(w, r, w')
    ensures Inv(w', multiset{}, r.at)
    ensures BaseTick(w') == BaseTick(w)
    ensures View(w') == FlatServe(View(w), r, BaseTick(w))
  {
    InvLater(w, multiset{}, now, r.at);
    var mid := Ask(w, r);
    var picks: seq<(int, int)> :| Drains(mid, picks, r.at, w');
    hide Inv, View, SomeFire, OnlyFires, RingOk, Tower, Drains;
    match r
    case Add(e, at) =>
      ScheduleView(w, e, at);
      OnlyFiresSome(FlatSchedule(View(w), e), View(mid), e, BaseTick(w), at);
      DrainFires(mid, picks, at, w');
      SomeFireChain(FlatSchedule(View(w), e), View(mid), View(w'), BaseTick(w), at);
      BlockedIsQuiet(w', at);
      SomeFireUntilQuiet(FlatSchedule(View(w), e), View(w'), BaseTick(w), at);
    case Remove(id, at) =>
      CancelView(w, id, at);
      DrainSettles(mid, picks, at, w');
    case Wait(at) =>
      DrainSettles(mid, picks, at, w');
  }

  /** The wheel is a fast form of the flat timers: whatever the ticks, the ring size, the levels allocated
      and the order in which ties are popped, after any sequence of requests it has fired exactly the
      timers, at exactly the times, that the flat set fires, and has the same timers pending. */
  lemma {:induction false} WheelIsFlatTimers(states: seq<Wheel>, requests: seq<Request>, now: int)
    requires SettledRun(states, requests, now) && Inv(states[0], multiset{}, now)
    ensures View(states[|requests|]) == FlatRun(View(states[0]), requests, BaseTick(states[0]))
    decreases |requests|
  {
    hide Inv, View, SomeFire, RingOk, Tower, WheelOk, BaseTick, Serves, FlatServe;
    if requests != [] {
      ServeAgrees(states[0], requests[0], states[1], now);
      WheelIsFlatTimers(states[1..], requests[1..], requests[0].at);
    }
  }

  // ---------- Slots never mix quanta ----------

  /** Every slot that was live keeps its expiration and its entries, in order. */
  ghost predicate LiveSlotsKept(before: seq<Level>, after: seq<Level>)
  {
    |before| <= |after| &&
    forall k, i :: Live(before, k, i) ==>
      Live(after, k, i) &&
      after[k].ring[i].expiration == before[k].ring[i].expiration &&
      before[k].ring[i].items <= after[k].ring[i].items
  }

  /** Routing never moves the expiration of a bucket that is on the heap. */
  lemma {:induction false} RouteKeepsSlots(levels: seq<Level>, size: int, k: int, e: WheelEntry)
    requires WheelOk(levels, size) && 0 <= k < |levels|
    requires k > 0 ==> levels[k - 1].currentTime + levels[k - 1].interval <= e.expirationMs
    ensures LiveSlotsKept(levels, Route(levels, size, k, e).levels)
    decreases e.expirationMs - (levels[k].currentTime + levels[k].interval)
  {
    hide RingOk, Shape, StackedAt, Put, Grow, LiveSlotsKept;
    var l := levels[k];
    if e.expirationMs < l.currentTime + l.tickMs {
      LiveSlotsKeptReflexive(levels);
    } else if e.expirationMs < l.currentTime + l.interval {
      PutKeepsSlots(levels, size, k, e);
    } else {
      var taller := Grow(levels, size, k);
      GrowKeeps(levels, size, k);
      SpanGrows(taller, size, k);
      RouteKeepsSlots(taller, size, k + 1, e);
      GrowKeepsSlots(levels, size, k);
      LiveSlotsKeptTransitive(levels, taller, Route(taller, size, k + 1, e).levels);
    }
  }

  lemma GrowKeepsSlots(levels: seq<Level>, size: int, k: int)
    requires Tower(levels, size) && 0 <= k < |levels|
    ensures LiveSlotsKept(levels, Grow(levels, size, k))
  {
    hide Shape, StackedAt;
  }

  lemma LiveSlotsKeptReflexive(a: seq<Level>)
    ensures LiveSlotsKept(a, a)
  {
  }

  lemma LiveSlotsKeptTransitive(a: seq<Level>, b: seq<Level>, c: seq<Level>)
    requires LiveSlotsKept(a, b) && LiveSlotsKept(b, c)
    ensures LiveSlotsKept(a, c)
  {
    forall k, i | Live(a, k, i)
      ensures Live(c, k, i) && c[k].ring[i].expiration == a[k].ring[i].expiration
      ensures a[k].ring[i].items <= c[k].ring[i].items
    {
      assert Live(b, k, i);
    }
  }

  lemma PutKeepsSlots(levels: seq<Level>, size: int, k: int, e: WheelEntry)
    requires WheelOk(levels, size) && 0 <= k < |levels|
    requires levels[k].currentTime + levels[k].tickMs <= e.expirationMs < levels[k].currentTime + levels[k].interval
    ensures LiveSlotsKept(levels, levels[k := Put(levels[k], e)])
  {
    OneClock(levels, size, k);
    var i, boundary := PutSlot(levels[k], size, levels[0].currentTime, e);
    hide RingOk, Tower, Put;
    var after := levels[k := Put(levels[k], e)];
    forall a, b | Live(levels, a, b)
      ensures Live(after, a, b) && after[a].ring[b].expiration == levels[a].ring[b].expiration
      ensures levels[a].ring[b].items <= after[a].ring[b].items
    {
    }
  }
}
