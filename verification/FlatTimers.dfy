/** The reference the wheel must agree with: a flat set of pending timers. A timer may fire at time t
    once it is due at t, and settling at t fires everything that is due. */
module FlatTimers {
  import opened Quantum
  import opened Buckets
  import opened WheelModel
  import opened WheelMachine

  datatype Flat = Flat(pending: set<WheelEntry>, fired: set<Firing>)

  /** Pending timers that share a non-empty id with a request are the ones it replaces or cancels. */
  function Named(f: Flat, taskID: string): set<WheelEntry>
  {
    if taskID == "" then {} else set p | p in f.pending && p.taskID == taskID
  }

  function FlatCancel(f: Flat, taskID: string): Flat
  {
    f.(pending := f.pending - Named(f, taskID))
  }

  function FlatSchedule(f: Flat, e: WheelEntry): Flat
  {
    FlatCancel(f, e.taskID).(pending := FlatCancel(f, e.taskID).pending + {e})
  }

  function DueAt(f: Flat, tickMs: int, t: int): set<WheelEntry>
    requires tickMs > 0
  {
    set e | e in f.pending && Due(e, tickMs, t)
  }

  function FireSet(f: Flat, batch: set<WheelEntry>, t: int): Flat
  {
    Flat(f.pending - batch, f.fired + set e | e in batch :: Firing(e, t))
  }

  /** Everything due at t fires at t. */
  function FlatSettle(f: Flat, tickMs: int, t: int): Flat
    requires tickMs > 0
  {
    FireSet(f, DueAt(f, tickMs, t), t)
  }

  /** f' is f after some of the timers due at t fired at t. */
  ghost predicate SomeFire(f: Flat, f': Flat, tickMs: int, t: int)
    requires tickMs > 0
  {
    exists batch: set<WheelEntry> :: batch <= DueAt(f, tickMs, t) && f' == FireSet(f, batch, t)
  }

  /** f' is f, possibly with the one timer e fired at t, which is due then. */
  ghost predicate OnlyFires(f: Flat, f': Flat, e: WheelEntry, tickMs: int, t: int)
    requires tickMs > 0
  {
    f' == f || (e in DueAt(f, tickMs, t) && f' == FireSet(f, {e}, t))
  }

  lemma OnlyFiresSome(f: Flat, f': Flat, e: WheelEntry, tickMs: int, t: int)
    requires tickMs > 0 && OnlyFires(f, f', e, tickMs, t)
    ensures SomeFire(f, f', tickMs, t)
  {
    if f' == f {
      NoneFire(f, tickMs, t);
    } else {
      hide DueAt, FireSet;
      assert {e} <= DueAt(f, tickMs, t);
    }
  }

  ghost predicate Quiet(f: Flat, tickMs: int, t: int)
    requires tickMs > 0
  {
    DueAt(f, tickMs, t) == {}
  }

  lemma SomeFireChain(f: Flat, g: Flat, h: Flat, tickMs: int, t: int)
    requires tickMs > 0 && SomeFire(f, g, tickMs, t) && SomeFire(g, h, tickMs, t)
    ensures SomeFire(f, h, tickMs, t)
  {
    hide Due;
    var a: set<WheelEntry> :| a <= DueAt(f, tickMs, t) && g == FireSet(f, a, t);
    var b: set<WheelEntry> :| b <= DueAt(g, tickMs, t) && h == FireSet(g, b, t);
    assert a + b <= DueAt(f, tickMs, t);
    assert h.fired == FireSet(f, a + b, t).fired;
    assert h.pending == FireSet(f, a + b, t).pending;
    assert h == FireSet(f, a + b, t);
  }

  lemma NoneFire(f: Flat, tickMs: int, t: int)
    requires tickMs > 0
    ensures SomeFire(f, f, tickMs, t)
  {
    assert f == FireSet(f, {}, t);
  }

  /** Firing some due timers until none is due is exactly settling. */
  lemma SomeFireUntilQuiet(f: Flat, g: Flat, tickMs: int, t: int)
    requires tickMs > 0 && SomeFire(f, g, tickMs, t) && Quiet(g, tickMs, t)
    ensures g == FlatSettle(f, tickMs, t)
  {
    hide Due;
    var a: set<WheelEntry> :| a <= DueAt(f, tickMs, t) && g == FireSet(f, a, t);
    var due := DueAt(f, tickMs, t);
    assert due - a <= DueAt(g, tickMs, t);
    assert due <= a by {
      assert forall e :: e in due ==> e in a || e in due - a;
    }
    assert a == DueAt(f, tickMs, t);
  }

  // ---------- The wheel, seen flat ----------

  function BaseTick(w: Wheel): (t: int)
    requires Tower(w.levels, w.size)
    ensures t > 0
  {
    assert Shape(w.levels[0], w.size);
    w.levels[0].tickMs
  }

  function View(w: Wheel): Flat
  {
    Flat(set e | e in w.accepted && e !in w.cancelled && e !in FiredBag(w.fired), set f | f in w.fired)
  }

  /** Inserting a held entry fires it only if it is due, and changes nothing else that can be seen. */
  lemma InsertView(w: Wheel, e: WheelEntry, hand: multiset<WheelEntry>, now: int)
    requires Inv(w, hand + multiset{e}, now)
    ensures Inv(Insert(w, e, now), hand, now)
    ensures BaseTick(Insert(w, e, now)) == BaseTick(w)
    ensures OnlyFires(View(w), View(Insert(w, e, now)), e, BaseTick(w), now)
  {
    InsertKeeps(w, e, hand, now);
    InsertOk(w, e, now);
    RouteKeeps(w.levels, w.size, 0, e);
    var w' := Insert(w, e, now);
    BaseClockKept(w, w', now);
    hide RingOk, Tower, Bag, Due, Route, SameClocks, FiredBag, IndexExact, Conserved, View, DueAt, FireSet;
    var held := Bag(w.levels) + (hand + multiset{e});
    if w'.fired == w.fired {
      SameBooksSameView(w, w');
    } else {
      DueAtBase(w, e, now);
      assert e in held;
      FireView(w, held, e, w', BaseTick(w), now);
    }
  }

  lemma SameBooksSameView(w: Wheel, w': Wheel)
    requires w'.accepted == w.accepted && w'.cancelled == w.cancelled && w'.fired == w.fired
    ensures View(w') == View(w)
  {
  }

  lemma FireView(w: Wheel, held: multiset<WheelEntry>, e: WheelEntry, w': Wheel, tickMs: int, now: int)
    requires tickMs > 0 && Due(e, tickMs, now)
    requires Conserved(w, held) && e in held && e !in w.cancelled
    requires w'.accepted == w.accepted && w'.cancelled == w.cancelled && w'.fired == w.fired + [Firing(e, now)]
    ensures OnlyFires(View(w), View(w'), e, tickMs, now)
  {
    hide Due, FiredBag;
    FiredBagAppend(w.fired, Firing(e, now));
    var batch := {e};
    assert held[e] >= 1 && FiredBag(w.fired)[e] == 0;
    assert View(w').pending == View(w).pending - batch;
    assert View(w').fired == FireSet(View(w), batch, now).fired;
    assert View(w') == FireSet(View(w), batch, now);
  }

  lemma {:induction false} ReinsertView(w: Wheel, items: seq<WheelEntry>, now: int)
    requires Inv(w, multiset(items), now)
    ensures Inv(Reinsert(w, items, now), multiset{}, now)
    ensures BaseTick(Reinsert(w, items, now)) == BaseTick(w)
    ensures SomeFire(View(w), View(Reinsert(w, items, now)), BaseTick(w), now)
    decreases |items|
  {
    ReinsertKeeps(w, items, now);
    hide Conserved, IndexExact, FiredDue, Insert, View, SomeFire, OnlyFires;
    if items == [] {
      NoneFire(View(w), BaseTick(w), now);
    } else {
      assert items == [items[0]] + items[1..];
      assert multiset(items) == multiset(items[1..]) + multiset{items[0]};
      InsertView(w, items[0], multiset(items[1..]), now);
      var w' := Insert(w, items[0], now);
      OnlyFiresSome(View(w), View(w'), items[0], BaseTick(w), now);
      ReinsertView(w', items[1..], now);
      SomeFireChain(View(w), View(w'), View(Reinsert(w', items[1..], now)), BaseTick(w), now);
    }
  }

  /** Processing one due bucket fires only due timers. */
  lemma TickView(w: Wheel, k: int, i: int, now: int)
    requires Inv(w, multiset{}, now) && Earliest(w.levels, k, i) && w.levels[k].ring[i].expiration <= now
    ensures Inv(Tick(w, k, i, now), multiset{}, now)
    ensures BaseTick(Tick(w, k, i, now)) == BaseTick(w)
    ensures SomeFire(View(w), View(Tick(w, k, i, now)), BaseTick(w), now)
  {
    DetachedKeeps(w, k, i, now);
    DetachedFacts(w, k, i);
    var d := Detached(w, k, i);
    assert View(d) == View(w);
    ReinsertView(d, w.levels[k].ring[i].items, now);
  }

  /** `Schedule` accepts the timer in place of its namesake; it may fire that one timer at once, if it is due. */
  lemma ScheduleView(w: Wheel, e: WheelEntry, now: int)
    requires Inv(w, multiset{}, now) && e !in w.accepted
    ensures Inv(Schedule(w, e, now), multiset{}, now)
    ensures BaseTick(Schedule(w, e, now)) == BaseTick(w)
    ensures OnlyFires(FlatSchedule(View(w), e), View(Schedule(w, e, now)), e, BaseTick(w), now)
  {
    RegisterKeeps(w, e, now);
    RegisterView(w, e, now);
    assert multiset{} + multiset{e} == multiset{e};
    InsertView(Register(w, e), e, multiset{}, now);
  }

  /** The id index names exactly the pending timer of that id. */
  lemma NamedIsIndexed(w: Wheel, taskID: string, now: int)
    requires Inv(w, multiset{}, now) && taskID != ""
    ensures Named(View(w), taskID) == if taskID in w.entries then {w.entries[taskID]} else {}
  {
    hide RingOk, Tower, Bag, Due, FiredBag;
    var held := Bag(w.levels) + multiset{};
    forall p | p in Named(View(w), taskID) ensures taskID in w.entries && w.entries[taskID] == p {
      assert p in held;
    }
    if taskID in w.entries {
      var e := w.entries[taskID];
      assert e in held && held[e] >= 1;
      assert e in w.accepted && FiredBag(w.fired)[e] == 0;
    }
  }

  lemma RegisterView(w: Wheel, e: WheelEntry, now: int)
    requires Inv(w, multiset{}, now) && e !in w.accepted
    ensures View(Register(w, e)) == FlatSchedule(View(w), e)
  {
    if e.taskID != "" {
      NamedIsIndexed(w, e.taskID, now);
    }
    FreshUnseen(w, e, now);
    hide Inv, Due, FiredBag, Named;
    if e.taskID == "" {
      assert Named(View(w), e.taskID) == {} by {
        NamelessNone(View(w));
      }
    }
    assert View(Register(w, e)).pending == FlatSchedule(View(w), e).pending;
  }

  lemma FreshUnseen(w: Wheel, e: WheelEntry, now: int)
    requires Inv(w, multiset{}, now) && e !in w.accepted
    ensures e !in FiredBag(w.fired) && e !in w.cancelled
  {
  }

  lemma NamelessNone(f: Flat)
    ensures Named(f, "") == {}
  {
  }

  /** Cancelling in the wheel is cancelling in the flat set. */
  lemma CancelView(w: Wheel, taskID: string, now: int)
    requires Inv(w, multiset{}, now)
    ensures Inv(Cancel(w, taskID), multiset{}, now)
    ensures BaseTick(Cancel(w, taskID)) == BaseTick(w)
    ensures View(Cancel(w, taskID)) == FlatCancel(View(w), taskID)
  {
    CancelKeeps(w, taskID, now);
    CancelFlat(w, taskID, now);
    hide Inv, View, FlatCancel;
  }

  lemma CancelFlat(w: Wheel, taskID: string, now: int)
    requires Inv(w, multiset{}, now)
    ensures View(Cancel(w, taskID)) == FlatCancel(View(w), taskID)
  {
    if taskID != "" {
      NamedIsIndexed(w, taskID, now);
      hide Inv, Due, FiredBag, Named;
      assert View(Cancel(w, taskID)).pending == FlatCancel(View(w), taskID).pending;
    }
  }

  // ---------- Nothing due is missed ----------

  /** The tick loop blocks at t when no live bucket expires by t. */
  ghost predicate Blocked(w: Wheel, t: int)
  {
    forall k, i :: Live(w.levels, k, i) ==> t < w.levels[k].ring[i].expiration
  }

  lemma BlockedIsQuiet(w: Wheel, t: int)
    requires Inv(w, multiset{}, t) && Blocked(w, t)
    ensures Quiet(View(w), BaseTick(w), t)
  {
    forall e | e in View(w).pending ensures !Due(e, BaseTick(w), t) {
      assert e in Bag(w.levels) + multiset{};
      var k, i := BagWhere(w.levels, e);
      assert Live(w.levels, k, i);
      PendingAfter(w.levels, w.size, k, i, e);
    }
  }

  /** An entry linked under boundary b is not due before b. */
  lemma PendingAfter(levels: seq<Level>, size: int, k: int, i: int, e: WheelEntry)
    requires WheelOk(levels, size) && Live(levels, k, i) && e in levels[k].ring[i].items
    ensures levels[0].tickMs > 0
    ensures levels[k].ring[i].expiration <= Floor(e.expirationMs, levels[0].tickMs)
  {
    OneClock(levels, size, k);
    assert Shape(levels[0], size);
    assert RingOk(levels[k], levels[0].currentTime) && SlotOk(levels[k], levels[0].currentTime, i);
    TickMultiple(levels[k].ring[i].expiration, levels[k].tickMs, levels[0].tickMs);
    MultipleBelowFloor(levels[k].ring[i].expiration, e.expirationMs, levels[0].tickMs);
  }

  // ---------- Draining ----------

  /** A slot the heap could offer next: the earliest live one, expired by t. */
  ghost predicate CanPop(w: Wheel, k: int, i: int, t: int)
  {
    Earliest(w.levels, k, i) && w.levels[k].ring[i].expiration <= t
  }

  /** The tick loop at a fixed time t, with `picks` naming the bucket popped in each iteration. */
  ghost predicate Drains(w: Wheel, picks: seq<(int, int)>, t: int, w': Wheel)
    requires WheelOk(w.levels, w.size)
    decreases |picks|
  {
    if picks == [] then w' == w && Blocked(w, t)
    else
      && CanPop(w, picks[0].0, picks[0].1, t)
      && WheelOk(Tick(w, picks[0].0, picks[0].1, t).levels, w.size)
      && Tick(w, picks[0].0, picks[0].1, t).size == w.size
      && Drains(Tick(w, picks[0].0, picks[0].1, t), picks[1..], t, w')
  }

  /** Whatever order the heap breaks ties in, draining at t ends in the settled state of the flat timers:
      every pending timer due at t has fired at t, none other has. */
  lemma {:induction false} DrainSettles(w: Wheel, picks: seq<(int, int)>, t: int, w': Wheel)
    requires Inv(w, multiset{}, t) && Drains(w, picks, t, w')
    ensures Inv(w', multiset{}, t)
    ensures BaseTick(w') == BaseTick(w)
    ensures Blocked(w', t)
    ensures View(w') == FlatSettle(View(w), BaseTick(w), t)
    ensures |picks| <= Weight(w.levels)
    decreases |picks|
  {
    DrainFires(w, picks, t, w');
    BlockedIsQuiet(w', t);
    SomeFireUntilQuiet(View(w), View(w'), BaseTick(w), t);
  }

  lemma {:induction false} DrainFires(w: Wheel, picks: seq<(int, int)>, t: int, w': Wheel)
    requires Inv(w, multiset{}, t) && Drains(w, picks, t, w')
    ensures Inv(w', multiset{}, t)
    ensures BaseTick(w') == BaseTick(w)
    ensures Blocked(w', t)
    ensures SomeFire(View(w), View(w'), BaseTick(w), t)
    ensures |picks| <= Weight(w.levels)
    decreases |picks|
  {
    hide Conserved, IndexExact, FiredDue, View, SomeFire, Weight, Tick, RingOk;
    if picks == [] {
      NoneFire(View(w), BaseTick(w), t);
    } else {
      var k, i := picks[0].0, picks[0].1;
      var w1 := Tick(w, k, i, t);
      TickView(w, k, i, t);
      TickDemotes(w, k, i, t);
      DrainFires(w1, picks[1..], t, w');
      SomeFireChain(View(w), View(w1), View(w'), BaseTick(w), t);
    }
  }

  lemma {:induction false} FindEarliest(levels: seq<Level>, size: int, k: int, i: int) returns (k': int, i': int)
    requires WheelOk(levels, size) && Live(levels, k, i)
    ensures Earliest(levels, k', i') && levels[k'].ring[i'].expiration <= levels[k].ring[i].expiration
    decreases levels[k].ring[i].expiration
  {
    if Earliest(levels, k, i) {
      k', i' := k, i;
    } else {
      var a, b :| Live(levels, a, b) && levels[a].ring[b].expiration < levels[k].ring[i].expiration;
      assert RingOk(levels[k], levels[0].currentTime) && SlotOk(levels[k], levels[0].currentTime, i);
      k', i' := FindEarliest(levels, size, a, b);
    }
  }

  /** Draining terminates: from every reachable state the loop reaches a state in which it blocks. */
  lemma {:induction false} DrainTerminates(w: Wheel, t: int) returns (picks: seq<(int, int)>, w': Wheel)
    requires Inv(w, multiset{}, t)
    ensures Drains(w, picks, t, w')
    decreases Weight(w.levels)
  {
    hide Conserved, IndexExact, FiredDue, Weight, Tick, RingOk;
    if Blocked(w, t) {
      picks, w' := [], w;
    } else {
      var a, b :| Live(w.levels, a, b) && w.levels[a].ring[b].expiration <= t;
      var k, i := FindEarliest(w.levels, w.size, a, b);
      TickKeeps(w, k, i, t);
      TickDemotes(w, k, i, t);
      TickSize(w, k, i, t);
      var rest: seq<(int, int)>;
      rest, w' := DrainTerminates(Tick(w, k, i, t), t);
      picks := [(k, i)] + rest;
      assert picks[1..] == rest;
    }
  }

  lemma {:induction false} ReinsertSize(w: Wheel, items: seq<WheelEntry>, now: int)
    requires WheelOk(w.levels, w.size)
    ensures Reinsert(w, items, now).size == w.size
    decreases |items|
  {
    if items != [] {
      InsertOk(w, items[0], now);
      ReinsertSize(Insert(w, items[0], now), items[1..], now);
    }
  }

  lemma TickSize(w: Wheel, k: int, i: int, now: int)
    requires WheelOk(w.levels, w.size) && Earliest(w.levels, k, i)
    ensures Tick(w, k, i, now).size == w.size
  {
    ReinsertSize(Detached(w, k, i), w.levels[k].ring[i].items, now);
  }
}
