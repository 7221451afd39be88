/** The whole wheel as a state machine: scheduling, cancelling, and processing one due bucket. */
module WheelMachine {
  import opened Quantum
  import opened Buckets
  import opened WheelModel

  /** A callback started for `entry` at wall-clock time `at`. */
  datatype Firing = Firing(entry: WheelEntry, at: int)

  datatype Wheel = Wheel(
    size: int,
    levels: seq<Level>,
    entries: map<string, WheelEntry>,
    accepted: set<WheelEntry>,
    cancelled: set<WheelEntry>,
    fired: seq<Firing>)

  // ---------- The operations ----------

  /** `removeFromIndex`: only the very entry that is indexed is removed. */
  function Unindex(entries: map<string, WheelEntry>, e: WheelEntry): map<string, WheelEntry>
  {
    if e.taskID != "" && e.taskID in entries && entries[e.taskID] == e then entries - {e.taskID} else entries
  }

  /** `insert`: route the entry, or start its callback when the base level reports it due. */
  function Insert(w: Wheel, e: WheelEntry, now: int): (w': Wheel)
    requires Tower(w.levels, w.size)
  {
    if e in w.cancelled then w
    else
      var r := Route(w.levels, w.size, 0, e);
      if r.ok then w.(levels := r.levels)
      else w.(levels := r.levels, entries := Unindex(w.entries, e), fired := w.fired + [Firing(e, now)])
  }

  /** `Schedule` for a started, unstopped wheel: index the new entry, superseding the old one. */
  function Schedule(w: Wheel, e: WheelEntry, now: int): Wheel
    requires Tower(w.levels, w.size)
  {
    Insert(Register(w, e), e, now)
  }

  function Register(w: Wheel, e: WheelEntry): Wheel
  {
    var w1 := w.(accepted := w.accepted + {e});
    if e.taskID == "" then w1
    else
      var superseded := if e.taskID in w.entries then {w.entries[e.taskID]} else {};
      w1.(cancelled := w.cancelled + superseded, entries := w.entries[e.taskID := e])
  }

  function Cancel(w: Wheel, taskID: string): Wheel
  {
    if taskID == "" || taskID !in w.entries then w
    else w.(entries := w.entries - {taskID}, cancelled := w.cancelled + {w.entries[taskID]})
  }

  /** The tick loop's walk over the flushed list. */
  function Reinsert(w: Wheel, items: seq<WheelEntry>, now: int): Wheel
    requires WheelOk(w.levels, w.size)
    decreases |items|
  {
    if items == [] then w
    else
      InsertOk(w, items[0], now);
      Reinsert(Insert(w, items[0], now), items[1..], now)
  }

  lemma InsertOk(w: Wheel, e: WheelEntry, now: int)
    requires WheelOk(w.levels, w.size)
    ensures WheelOk(Insert(w, e, now).levels, w.size)
    ensures Insert(w, e, now).size == w.size
    ensures SameClocks(w.levels, Insert(w, e, now).levels)
  {
    RouteKeeps(w.levels, w.size, 0, e);
  }

  /** The wheel after the clocks advanced to bucket (k, i) and the bucket was detached. */
  function Detached(w: Wheel, k: int, i: int): Wheel
    requires WheelOk(w.levels, w.size) && Earliest(w.levels, k, i)
    ensures WheelOk(Detached(w, k, i).levels, w.size)
    ensures Detached(w, k, i).size == w.size
  {
    AdvanceToEarliest(w.levels, w.size, k, i);
    var advanced := Advance(w.levels, 0, w.levels[k].ring[i].expiration);
    DetachKeeps(advanced, w.size, k, i);
    w.(levels := Emptied(advanced, k, i))
  }

  /** One iteration of the tick loop on the popped bucket (k, i). */
  function Tick(w: Wheel, k: int, i: int, now: int): Wheel
    requires WheelOk(w.levels, w.size) && Earliest(w.levels, k, i)
  {
    Reinsert(Detached(w, k, i), w.levels[k].ring[i].items, now)
  }

  // ---------- The invariant ----------

  function FiredBag(fired: seq<Firing>): multiset<WheelEntry>
  {
    if fired == [] then multiset{}
    else FiredBag(fired[..|fired| - 1]) + multiset{fired[|fired| - 1].entry}
  }

  /** An entry is due at time t when the base tick its deadline falls in has begun. */
  predicate Due(e: WheelEntry, tickMs: int, t: int)
    requires tickMs > 0
  {
    Floor(e.expirationMs, tickMs) <= t
  }

  /** Each accepted entry is held (linked, or in the walker's hand) once, fired once, or cancelled; a
      cancelled entry has not fired. */
  ghost predicate Conserved(w: Wheel, held: multiset<WheelEntry>)
  {
    var fired := FiredBag(w.fired);
    && w.cancelled <= w.accepted
    && (forall e :: e in held ==> e in w.accepted)
    && (forall e :: e in fired ==> e in w.accepted && e !in w.cancelled)
    && (forall e :: e in w.accepted ==> held[e] + fired[e] <= 1)
    && (forall e :: e in w.accepted && e !in held && e !in fired ==> e in w.cancelled)
  }

  /** `entries` is a bijection between ids and the live entries that carry an id. */
  ghost predicate IndexExact(w: Wheel, held: multiset<WheelEntry>)
  {
    && (forall id :: id in w.entries ==>
          id != "" && w.entries[id].taskID == id && w.entries[id] in held && w.entries[id] !in w.cancelled)
    && (forall e :: e in held && e !in w.cancelled && e.taskID != "" ==>
          e.taskID in w.entries && w.entries[e.taskID] == e)
  }

  ghost predicate FiredDue(w: Wheel)
    requires Tower(w.levels, w.size)
  {
    assert Shape(w.levels[0], w.size);
    forall f :: f in w.fired ==> Due(f.entry, w.levels[0].tickMs, f.at)
  }

  ghost predicate Inv(w: Wheel, hand: multiset<WheelEntry>, now: int)
  {
    && WheelOk(w.levels, w.size)
    && w.levels[0].currentTime <= now
    && Conserved(w, Bag(w.levels) + hand)
    && IndexExact(w, Bag(w.levels) + hand)
    && FiredDue(w)
  }

  // ---------- One insertion ----------

  lemma FiredBagAppend(fired: seq<Firing>, f: Firing)
    ensures FiredBag(fired + [f]) == FiredBag(fired) + multiset{f.entry}
  {
    assert (fired + [f])[..|fired|] == fired;
  }

  lemma DueAtBase(w: Wheel, e: WheelEntry, now: int)
    requires WheelOk(w.levels, w.size) && w.levels[0].currentTime <= now
    requires e.expirationMs < w.levels[0].currentTime + w.levels[0].tickMs
    ensures w.levels[0].tickMs > 0 && Due(e, w.levels[0].tickMs, now)
  {
    assert Shape(w.levels[0], w.size);
    var t, c := w.levels[0].tickMs, w.levels[0].currentTime;
    if c < Floor(e.expirationMs, t) {
      MultiplesApart(c, Floor(e.expirationMs, t), t);
    }
  }

  /** A cancelled entry may be dropped from the held entries. */
  lemma DropCancelled(w: Wheel, held: multiset<WheelEntry>, e: WheelEntry)
    requires Conserved(w, held + multiset{e}) && IndexExact(w, held + multiset{e})
    requires e in w.cancelled
    ensures Conserved(w, held) && IndexExact(w, held)
  {
    hide FiredBag;
    var all := held + multiset{e};
    forall x | x in all && x != e ensures x in held && held[x] == all[x] {
    }
    assert forall x :: x in held ==> x in all && held[x] <= all[x];
  }

  /** A held entry that is not cancelled may move to the fired log and leave the index. */
  lemma FireHeld(w: Wheel, held: multiset<WheelEntry>, e: WheelEntry, f: Firing)
    requires Conserved(w, held + multiset{e}) && IndexExact(w, held + multiset{e})
    requires e !in w.cancelled && f.entry == e
    ensures var w' := w.(entries := Unindex(w.entries, e), fired := w.fired + [f]);
            Conserved(w', held) && IndexExact(w', held)
  {
    hide FiredBag;
    var all := held + multiset{e};
    FiredBagAppend(w.fired, f);
    var fired, fired' := FiredBag(w.fired), FiredBag(w.fired + [f]);
    assert all[e] >= 1 && all[e] == held[e] + 1 && fired'[e] == fired[e] + 1;
    assert forall x :: x != e ==> held[x] == all[x] && fired'[x] == fired[x];
    assert e !in held && e in all && e in fired';
  }

  lemma InsertKeeps(w: Wheel, e: WheelEntry, hand: multiset<WheelEntry>, now: int)
    requires Inv(w, hand + multiset{e}, now)
    ensures Inv(Insert(w, e, now), hand, now)
  {
    InsertOk(w, e, now);
    InsertBooks(w, e, hand, now);
    InsertFiredDue(w, e, now);
    BaseClockKept(w, Insert(w, e, now), now);
    hide Insert, WheelOk, Conserved, IndexExact, FiredDue, Bag;
  }

  lemma InsertFiredDue(w: Wheel, e: WheelEntry, now: int)
    requires WheelOk(w.levels, w.size) && w.levels[0].currentTime <= now && FiredDue(w)
    ensures WheelOk(Insert(w, e, now).levels, w.size) && FiredDue(Insert(w, e, now))
  {
    InsertOk(w, e, now);
    RouteKeeps(w.levels, w.size, 0, e);
    BaseClockKept(w, Insert(w, e, now), now);
    hide Route, RingOk, Bag, Due;
    if Insert(w, e, now).fired != w.fired {
      DueAtBase(w, e, now);
    }
  }

  lemma InsertBooks(w: Wheel, e: WheelEntry, hand: multiset<WheelEntry>, now: int)
    requires WheelOk(w.levels, w.size)
    requires Conserved(w, Bag(w.levels) + (hand + multiset{e})) && IndexExact(w, Bag(w.levels) + (hand + multiset{e}))
    ensures var w' := Insert(w, e, now);
            Conserved(w', Bag(w'.levels) + hand) && IndexExact(w', Bag(w'.levels) + hand)
  {
    RouteKeeps(w.levels, w.size, 0, e);
    var r := Route(w.levels, w.size, 0, e);
    var w' := Insert(w, e, now);
    var held := Bag(w.levels) + hand;
    hide Route, Tower, RingOk, Bag, SameClocks, FiredBag, Conserved, IndexExact;
    assert Bag(w.levels) + (hand + multiset{e}) == held + multiset{e};
    if e in w.cancelled {
      DropCancelled(w, held, e);
    } else if r.ok {
      assert Bag(w'.levels) + hand == held + multiset{e};
      SameBooks(w, w', held + multiset{e});
    } else {
      var f := Firing(e, now);
      FireHeld(w, held, e, f);
      SameBooks(w.(entries := Unindex(w.entries, e), fired := w.fired + [f]), w', held);
    }
  }

  /** Conservation and the index depend on the books only, not on where entries are linked. */
  lemma SameBooks(w: Wheel, w': Wheel, held: multiset<WheelEntry>)
    requires w' == w.(levels := w'.levels)
    requires Conserved(w, held) && IndexExact(w, held)
    ensures Conserved(w', held) && IndexExact(w', held)
  {
  }

  lemma BaseClockKept(w: Wheel, w': Wheel, now: int)
    requires WheelOk(w.levels, w.size) && WheelOk(w'.levels, w'.size) && SameClocks(w.levels, w'.levels)
    ensures w'.levels[0].currentTime == w.levels[0].currentTime
    ensures w'.levels[0].tickMs == w.levels[0].tickMs
  {
  }

  // ---------- Every operation keeps the invariant ----------

  lemma {:induction false} ReinsertKeeps(w: Wheel, items: seq<WheelEntry>, now: int)
    requires Inv(w, multiset(items), now)
    ensures Inv(Reinsert(w, items, now), multiset{}, now)
    decreases |items|
  {
    hide Conserved, IndexExact, FiredDue, Insert;
    if items != [] {
      assert items == [items[0]] + items[1..];
      assert multiset(items) == multiset(items[1..]) + multiset{items[0]};
      InsertKeeps(w, items[0], multiset(items[1..]), now);
      InsertOk(w, items[0], now);
      ReinsertKeeps(Insert(w, items[0], now), items[1..], now);
    } else {
      assert multiset(items) == multiset{};
    }
  }

  lemma DetachedKeeps(w: Wheel, k: int, i: int, now: int)
    requires Inv(w, multiset{}, now) && Earliest(w.levels, k, i)
    requires w.levels[k].ring[i].expiration <= now
    ensures Inv(Detached(w, k, i), multiset(w.levels[k].ring[i].items), now)
  {
    var d := Detached(w, k, i);
    DetachedFacts(w, k, i);
    var held := Bag(w.levels) + multiset{};
    assert held == Bag(d.levels) + multiset(w.levels[k].ring[i].items);
    hide RingOk, Earliest, Due, FiredBag, Bag, Detached, Conserved, IndexExact;
    SameBooks(w, d, held);
    assert FiredDue(d);
  }

  /** What advancing to the earliest bucket and detaching it does to the wheel. */
  lemma DetachedFacts(w: Wheel, k: int, i: int)
    requires WheelOk(w.levels, w.size) && Earliest(w.levels, k, i)
    ensures var d := Detached(w, k, i);
            var slot := w.levels[k].ring[i];
            && d == w.(levels := d.levels)
            && |d.levels| == |w.levels|
            && d.levels[0].tickMs == w.levels[0].tickMs
            && d.levels[0].currentTime == d.levels[k].currentTime == slot.expiration
            && Bag(d.levels) + multiset(slot.items) == Bag(w.levels)
            && Weight(d.levels) == Weight(w.levels) - (k + 1) * |slot.items|
            && (forall e :: e in slot.items ==>
                  slot.expiration <= e.expirationMs < slot.expiration + d.levels[k].tickMs)
  {
    var b := w.levels[k].ring[i].expiration;
    AdvanceToEarliest(w.levels, w.size, k, i);
    var advanced := Advance(w.levels, 0, b);
    assert advanced[k].ring == w.levels[k].ring;
    DetachKeeps(advanced, w.size, k, i);
    SameRingsSameBag(w.levels, advanced);
  }

  lemma {:induction false} SameRingsSameBag(before: seq<Level>, after: seq<Level>)
    requires SameRings(before, after)
    ensures Bag(after) == Bag(before) && Weight(after) == Weight(before)
  {
    if before != [] {
      var n := |before| - 1;
      assert SameRings(before[..n], after[..n]);
      SameRingsSameBag(before[..n], after[..n]);
      assert after[n] == before[n].(currentTime := after[n].currentTime);
    }
  }

  lemma TickKeeps(w: Wheel, k: int, i: int, now: int)
    requires Inv(w, multiset{}, now) && Earliest(w.levels, k, i)
    requires w.levels[k].ring[i].expiration <= now
    ensures Inv(Tick(w, k, i, now), multiset{}, now)
  {
    DetachedKeeps(w, k, i, now);
    ReinsertKeeps(Detached(w, k, i), w.levels[k].ring[i].items, now);
  }

  /** Registering a fresh entry supersedes exactly the entry its id pointed to. */
  lemma RegisterConserves(w: Wheel, e: WheelEntry, held: multiset<WheelEntry>)
    requires Conserved(w, held) && IndexExact(w, held) && e !in w.accepted
    ensures Conserved(Register(w, e), held + multiset{e})
  {
    hide FiredBag;
    var w' := Register(w, e);
    var held' := held + multiset{e};
    assert e !in held && e !in FiredBag(w.fired);
    assert held'[e] == 1 && forall x :: x != e ==> held'[x] == held[x];
    assert forall id :: id in w.entries ==> held[w.entries[id]] >= 1 && w.entries[id] in w.accepted;
  }

  lemma RegisterIndexes(w: Wheel, e: WheelEntry, held: multiset<WheelEntry>)
    requires Conserved(w, held) && IndexExact(w, held) && e !in w.accepted
    ensures IndexExact(Register(w, e), held + multiset{e})
  {
    hide FiredBag;
    var w' := Register(w, e);
    var held' := held + multiset{e};
    assert e !in held && e !in w.cancelled;
    forall id | id in w'.entries
      ensures id != "" && w'.entries[id].taskID == id && w'.entries[id] in held' && w'.entries[id] !in w'.cancelled
    {
      if w'.entries[id] != e {
        assert id in w.entries && w'.entries[id] == w.entries[id] && w.entries[id] in held;
      }
    }
  }

  lemma RegisterKeeps(w: Wheel, e: WheelEntry, now: int)
    requires Inv(w, multiset{}, now) && e !in w.accepted
    ensures Inv(Register(w, e), multiset{e}, now)
  {
    var w1 := Register(w, e);
    RegisterConserves(w, e, Bag(w.levels) + multiset{});
    RegisterIndexes(w, e, Bag(w.levels) + multiset{});
    SameFiredDue(w, w1);
    hide WheelOk, Tower, Bag, FiredBag, Due, Conserved, IndexExact, FiredDue;
    assert Bag(w.levels) + multiset{} + multiset{e} == Bag(w1.levels) + multiset{e};
  }

  lemma ScheduleKeeps(w: Wheel, e: WheelEntry, now: int)
    requires Inv(w, multiset{}, now) && e !in w.accepted
    ensures Inv(Schedule(w, e, now), multiset{}, now)
  {
    RegisterKeeps(w, e, now);
    assert multiset{} + multiset{e} == multiset{e};
    InsertKeeps(Register(w, e), e, multiset{}, now);
  }

  /** Scheduling an entry dispatches it at once if its deadline is before the end of the current base tick, and only
      then; it fires nothing else, and moves no clock. What is not dispatched stays indexed under its id. */
  lemma ScheduleDispatches(w: Wheel, e: WheelEntry, now: int)
    requires Inv(w, multiset{}, now) && e !in w.accepted
    ensures var w', due := Schedule(w, e, now), e.expirationMs < w.levels[0].currentTime + w.levels[0].tickMs;
            && w'.fired == (if due then w.fired + [Firing(e, now)] else w.fired)
            && (e.taskID != "" && !due ==> e.taskID in w'.entries && w'.entries[e.taskID] == e)
            && (e.taskID != "" && due ==> e.taskID !in w'.entries)
            && e in w'.accepted && e !in w'.cancelled
  {
    NewIsUncancelled(w, e, now);
    InsertDispatches(Register(w, e), e, now);
    hide Inv, Insert, WheelOk, Tower;
  }

  lemma InsertDispatches(w: Wheel, e: WheelEntry, now: int)
    requires WheelOk(w.levels, w.size) && e !in w.cancelled
    ensures var w', due := Insert(w, e, now), e.expirationMs < w.levels[0].currentTime + w.levels[0].tickMs;
            && w'.fired == (if due then w.fired + [Firing(e, now)] else w.fired)
            && w'.entries == (if due then Unindex(w.entries, e) else w.entries)
            && w'.accepted == w.accepted && w'.cancelled == w.cancelled
  {
    RouteKeeps(w.levels, w.size, 0, e);
    hide Route, RingOk, Tower, Bag, SameClocks;
  }

  lemma NewIsUncancelled(w: Wheel, e: WheelEntry, now: int)
    requires Inv(w, multiset{}, now) && e !in w.accepted
    ensures WheelOk(w.levels, w.size) && e !in Register(w, e).cancelled
  {
    hide RingOk, Tower, Bag, FiredBag, FiredDue;
    var held := Bag(w.levels) + multiset{};
    assert forall id :: id in w.entries ==> w.entries[id] in held && w.entries[id] in w.accepted;
  }

  lemma CancelBooks(w: Wheel, taskID: string, held: multiset<WheelEntry>)
    requires Conserved(w, held) && IndexExact(w, held)
    ensures Conserved(Cancel(w, taskID), held) && IndexExact(Cancel(w, taskID), held)
  {
    hide FiredBag;
    if taskID != "" && taskID in w.entries {
      var e := w.entries[taskID];
      assert held[e] >= 1 && e in w.accepted;
    }
  }

  lemma CancelKeeps(w: Wheel, taskID: string, now: int)
    requires Inv(w, multiset{}, now)
    ensures Inv(Cancel(w, taskID), multiset{}, now)
  {
    hide WheelOk, Tower, Bag, FiredBag, Due, Conserved, IndexExact, FiredDue;
    CancelBooks(w, taskID, Bag(w.levels) + multiset{});
    SameFiredDue(w, Cancel(w, taskID));
  }

  lemma SameFiredDue(w: Wheel, w': Wheel)
    requires WheelOk(w.levels, w.size) && FiredDue(w)
    requires w'.levels == w.levels && w'.size == w.size && w'.fired == w.fired
    ensures WheelOk(w'.levels, w'.size) && FiredDue(w')
  {
  }

  // ---------- Strict demotion: draining terminates ----------

  lemma {:induction false} ReinsertWeight(w: Wheel, items: seq<WheelEntry>, k: int, now: int)
    requires WheelOk(w.levels, w.size) && 0 <= k < |w.levels|
    requires w.levels[0].currentTime == w.levels[k].currentTime
    requires forall e :: e in items ==> e.expirationMs < w.levels[k].currentTime + w.levels[k].tickMs
    ensures Weight(Reinsert(w, items, now).levels) <= Weight(w.levels) + k * |items|
    ensures |Reinsert(w, items, now).levels| == |w.levels|
    ensures forall j :: k <= j < |w.levels| ==> Reinsert(w, items, now).levels[j] == w.levels[j]
    decreases |items|
  {
    hide Weight, Route, RingOk;
    if items != [] {
      var e := items[0];
      var w' := Insert(w, e, now);
      InsertOk(w, e, now);
      InsertBelow(w, e, k, now);
      assert w'.levels[0].currentTime == w'.levels[k].currentTime;
      ReinsertWeight(w', items[1..], k, now);
      assert k * |items| == k * |items[1..]| + k;
    }
  }

  /** An entry within one tick of level k, all clocks up to k agreeing, is linked strictly below k. */
  lemma InsertBelow(w: Wheel, e: WheelEntry, k: int, now: int)
    requires WheelOk(w.levels, w.size) && 0 <= k < |w.levels|
    requires w.levels[0].currentTime == w.levels[k].currentTime
    requires e.expirationMs < w.levels[k].currentTime + w.levels[k].tickMs
    ensures var w' := Insert(w, e, now);
            && Weight(w'.levels) <= Weight(w.levels) + k
            && |w'.levels| == |w.levels|
            && forall j :: k <= j < |w.levels| ==> w'.levels[j] == w.levels[j]
  {
    RouteBelow(w.levels, w.size, k, e);
    hide WheelOk, Tower, Route, Weight;
  }

  lemma RouteBelow(levels: seq<Level>, size: int, k: int, e: WheelEntry)
    requires WheelOk(levels, size) && 0 <= k < |levels|
    requires levels[0].currentTime == levels[k].currentTime
    requires e.expirationMs < levels[k].currentTime + levels[k].tickMs
    ensures var after := Route(levels, size, 0, e).levels;
            && Weight(after) <= Weight(levels) + k
            && |after| == |levels|
            && forall j :: k <= j < |levels| ==> after[j] == levels[j]
  {
    hide Weight, Route, RingOk, Shape, StackedAt, Bag, SameClocks;
    RouteKeeps(levels, size, 0, e);
    if k > 0 {
      WithinLevelBelow(levels, size, k, e);
      RouteStaysBelow(levels, size, 0, k - 1, e);
    }
  }

  lemma WithinLevelBelow(levels: seq<Level>, size: int, k: int, e: WheelEntry)
    requires Tower(levels, size) && 1 <= k < |levels|
    requires levels[0].currentTime == levels[k].currentTime
    requires e.expirationMs < levels[k].currentTime + levels[k].tickMs
    ensures e.expirationMs < levels[k - 1].currentTime + levels[k - 1].interval
  {
    OneClock(levels, size, k - 1);
    assert StackedAt(levels, k);
  }

  /** Each bucket processed lowers the sum of (level + 1) over the linked entries by at least the number of
      entries it held: every one of them fires, is dropped as cancelled, or moves strictly down. */
  lemma TickDemotes(w: Wheel, k: int, i: int, now: int)
    requires WheelOk(w.levels, w.size) && Earliest(w.levels, k, i)
    ensures var w' := Tick(w, k, i, now);
            var n := |w.levels[k].ring[i].items|;
            && n >= 1
            && Weight(w'.levels) + n <= Weight(w.levels)
            && |w'.levels| == |w.levels|
            && w'.levels[k].ring == w.levels[k].ring[i := EMPTY]
            && forall j :: k < j < |w.levels| ==> w'.levels[j].ring == w.levels[j].ring
  {
    DetachedFacts(w, k, i);
    DetachedRings(w, k, i);
    var d := Detached(w, k, i);
    var items := w.levels[k].ring[i].items;
    ReinsertWeight(d, items, k, now);
    assert (k + 1) * |items| == k * |items| + |items|;
  }

  lemma DetachedRings(w: Wheel, k: int, i: int)
    requires WheelOk(w.levels, w.size) && Earliest(w.levels, k, i)
    ensures var d := Detached(w, k, i);
            && |d.levels| == |w.levels|
            && d.levels[k].ring == w.levels[k].ring[i := EMPTY]
            && forall j :: 0 <= j < |w.levels| && j != k ==> d.levels[j].ring == w.levels[j].ring
  {
    AdvanceToEarliest(w.levels, w.size, k, i);
    var advanced := Advance(w.levels, 0, w.levels[k].ring[i].expiration);
    assert forall j :: 0 <= j < |w.levels| ==> advanced[j].ring == w.levels[j].ring;
  }
}
