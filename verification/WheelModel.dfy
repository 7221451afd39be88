/** The hierarchical wheel as a value: a tower of rings of slots, and the functions that route an
    entry, move the clocks and re-insert a flushed bucket, branch by branch as the program does. */
module WheelModel {
  import opened Quantum
  import opened Buckets

  /** One slot of a ring; `expiration` is -1 exactly when the slot is empty. */
  datatype Slot = Slot(expiration: int, items: seq<WheelEntry>)

  const EMPTY := Slot(-1, [])

  datatype Level = Level(tickMs: int, interval: int, currentTime: int, ring: seq<Slot>)

  function NewLevel(tickMs: int, wheelSize: int, startMs: int): Level
    requires tickMs > 0 && wheelSize >= 2
  {
    Level(tickMs, tickMs * wheelSize, Floor(startMs, tickMs), seq(wheelSize, _ => EMPTY))
  }

  // ---------- What every reachable tower satisfies ----------

  ghost predicate Shape(l: Level, size: int)
  {
    l.tickMs > 0 && |l.ring| == size && l.interval == l.tickMs * size
  }

  /** Level k is one turn of level k-1 per slot, and its clock is the floor of the clock below. */
  ghost predicate StackedAt(levels: seq<Level>, k: int)
    requires 1 <= k < |levels| && levels[k].tickMs > 0
  {
    levels[k].tickMs == levels[k - 1].interval &&
    levels[k].currentTime == Floor(levels[k - 1].currentTime, levels[k].tickMs)
  }

  ghost predicate Tower(levels: seq<Level>, size: int)
  {
    && size >= 2
    && |levels| >= 1
    && (forall k :: 0 <= k < |levels| ==> Shape(levels[k], size))
    && (forall k :: 1 <= k < |levels| ==> StackedAt(levels, k))
    && levels[0].currentTime >= 0
    && levels[0].currentTime % levels[0].tickMs == 0
  }

  /** A non-empty slot i holds the entries of one quantum: its expiration is a boundary of the level,
      not before the base clock, less than one turn ahead, and congruent to i. */
  ghost predicate SlotOk(l: Level, base: int, i: int)
    requires 0 <= i < |l.ring| && l.tickMs > 0
  {
    var s := l.ring[i];
    if s.items == [] then s.expiration == -1
    else
      && s.expiration % l.tickMs == 0
      && base <= s.expiration < l.currentTime + l.interval
      && (s.expiration / l.tickMs) % |l.ring| == i
      && forall e :: e in s.items ==> s.expiration <= e.expirationMs < s.expiration + l.tickMs
  }

  ghost predicate RingOk(l: Level, base: int)
    requires l.tickMs > 0
  {
    forall i :: 0 <= i < |l.ring| ==> SlotOk(l, base, i)
  }

  ghost predicate WheelOk(levels: seq<Level>, size: int)
  {
    Tower(levels, size) &&
    forall k :: 0 <= k < |levels| ==> RingOk(levels[k], levels[0].currentTime)
  }

  // ---------- One clock ----------

  /** Every level's clock is the base clock floored to that level's tick. */
  lemma {:induction false} OneClock(levels: seq<Level>, size: int, k: int)
    requires Tower(levels, size) && 0 <= k < |levels|
    ensures levels[k].currentTime == Floor(levels[0].currentTime, levels[k].tickMs)
    ensures 0 <= levels[k].currentTime <= levels[0].currentTime < levels[k].currentTime + levels[k].tickMs
    ensures levels[k].currentTime % levels[k].tickMs == 0
    ensures levels[k].tickMs % levels[0].tickMs == 0
    ensures levels[k].interval > levels[k].tickMs
  {
    var base := levels[0].currentTime;
    assert Shape(levels[k], size);
    IntervalGrows(levels[k].tickMs, size);
    if k == 0 {
      FloorUnique(base, levels[0].tickMs, base);
      MultipleFromFactor(1, levels[0].tickMs);
    } else {
      OneClock(levels, size, k - 1);
      assert StackedAt(levels, k) && Shape(levels[k - 1], size);
      FloorOfFloor(base, levels[k - 1].tickMs, size);
      MultipleBelowFloor(0, base, levels[k].tickMs);
      MultipleFromFactor(1, levels[k].tickMs);
      CoarseMultiple(levels[k].tickMs, levels[k - 1].tickMs, size);
      TickMultiple(levels[k].tickMs, levels[k - 1].tickMs, levels[0].tickMs);
    }
  }

  lemma IntervalGrows(tick: int, size: int)
    requires tick > 0 && size >= 2
    ensures tick * size >= 2 * tick
  {
    ScaleOrder(1, size, tick);
  }

  lemma TickMultiple(c: int, b: int, a: int)
    requires a > 0 && b > 0 && b % a == 0 && c % b == 0
    ensures c % a == 0
  {
    assert c == (c / b) * b && b == (b / a) * a;
    assert c == ((c / b) * (b / a)) * a;
    MultipleFromFactor((c / b) * (b / a), a);
  }

  // ---------- Routing ----------

  /** The "fits in this level" branch: append to the slot of the entry's quantum. */
  function Put(l: Level, e: WheelEntry): Level
    requires l.tickMs > 0 && |l.ring| > 0
  {
    var virtualId := e.expirationMs / l.tickMs;
    var i := virtualId % |l.ring|;
    l.(ring := l.ring[i := Slot(virtualId * l.tickMs, l.ring[i].items + [e])])
  }

  /** The tower with its next overflow level allocated if level k is the top one. */
  function Grow(levels: seq<Level>, size: int, k: int): seq<Level>
    requires Tower(levels, size) && 0 <= k < |levels|
    ensures Tower(Grow(levels, size, k), size)
    ensures k + 1 < |Grow(levels, size, k)|
    ensures levels <= Grow(levels, size, k)
  {
    if k + 1 < |levels| then levels
    else
      GrowTower(levels, size);
      levels + [NewLevel(levels[k].interval, size, levels[k].currentTime)]
  }

  lemma GrowTower(levels: seq<Level>, size: int)
    requires Tower(levels, size)
    ensures var k := |levels| - 1; levels[k].interval > 0
    ensures var k := |levels| - 1;
            Tower(levels + [NewLevel(levels[k].interval, size, levels[k].currentTime)], size)
  {
    var k := |levels| - 1;
    assert Shape(levels[k], size);
    IntervalGrows(levels[k].tickMs, size);
    var top := NewLevel(levels[k].interval, size, levels[k].currentTime);
    var taller := levels + [top];
    forall j | 1 <= j < |taller| ensures StackedAt(taller, j) {
      if j < |levels| {
        assert StackedAt(levels, j);
      }
    }
  }

  datatype Routed = Routed(ok: bool, levels: seq<Level>)

  /** `timingWheel.add` from level k up, for an entry that is not cancelled: `ok` is false when the
      entry is already due at the level reached. */
  function Route(levels: seq<Level>, size: int, k: int, e: WheelEntry): Routed
    requires Tower(levels, size) && 0 <= k < |levels|
    decreases e.expirationMs - (levels[k].currentTime + levels[k].interval)
  {
    var l := levels[k];
    if e.expirationMs < l.currentTime + l.tickMs then Routed(false, levels)
    else if e.expirationMs < l.currentTime + l.interval then
      Routed(true, levels[k := Put(l, e)])
    else
      var taller := Grow(levels, size, k);
      SpanGrows(taller, size, k);
      Route(taller, size, k + 1, e)
  }

  /** The horizon `currentTime + interval` strictly grows from a level to its overflow level. */
  lemma SpanGrows(levels: seq<Level>, size: int, k: int)
    requires Tower(levels, size) && 0 <= k && k + 1 < |levels|
    ensures levels[k].currentTime + levels[k].interval < levels[k + 1].currentTime + levels[k + 1].interval
    ensures levels[k + 1].currentTime + levels[k + 1].tickMs <= levels[k].currentTime + levels[k].interval
  {
    assert StackedAt(levels, k + 1) && Shape(levels[k], size) && Shape(levels[k + 1], size);
    IntervalGrows(levels[k + 1].tickMs, size);
  }

  // ---------- What is linked, and at what height ----------

  function RingBag(ring: seq<Slot>): multiset<WheelEntry>
  {
    if ring == [] then multiset{}
    else RingBag(ring[..|ring| - 1]) + multiset(ring[|ring| - 1].items)
  }

  /** Every linked entry, with how often it is linked. */
  function Bag(levels: seq<Level>): multiset<WheelEntry>
  {
    if levels == [] then multiset{}
    else Bag(levels[..|levels| - 1]) + RingBag(levels[|levels| - 1].ring)
  }

  /** Sum of (level + 1) over the linked entries. */
  function Weight(levels: seq<Level>): nat
  {
    if levels == [] then 0
    else Weight(levels[..|levels| - 1]) + |levels| * |RingBag(levels[|levels| - 1].ring)|
  }

  lemma {:induction false} RingBagUpdate(ring: seq<Slot>, i: int, s: Slot)
    requires 0 <= i < |ring|
    ensures RingBag(ring[i := s]) + multiset(ring[i].items) == RingBag(ring) + multiset(s.items)
  {
    var n := |ring| - 1;
    var ring' := ring[i := s];
    if i == n {
      assert ring'[..n] == ring[..n];
    } else {
      assert ring'[..n] == ring[..n][i := s] && ring'[n] == ring[n];
      RingBagUpdate(ring[..n], i, s);
      Carry(RingBag(ring'[..n]), multiset(ring[i].items), RingBag(ring[..n]), multiset(s.items),
            multiset(ring[n].items));
    }
  }

  lemma Carry<T>(x': multiset<T>, a: multiset<T>, x: multiset<T>, b: multiset<T>, m: multiset<T>)
    requires x' + a == x + b
    ensures (x' + m) + a == (x + m) + b
  {
    assert (x' + m) + a == (x' + a) + m;
    assert (x + m) + b == (x + b) + m;
  }

  lemma {:induction false} RingBagHas(ring: seq<Slot>, i: int, e: WheelEntry)
    requires 0 <= i < |ring| && e in ring[i].items
    ensures e in RingBag(ring)
  {
    var n := |ring| - 1;
    if i < n {
      RingBagHas(ring[..n], i, e);
    }
  }

  lemma {:induction false} RingBagWhere(ring: seq<Slot>, e: WheelEntry) returns (i: int)
    requires e in RingBag(ring)
    ensures 0 <= i < |ring| && e in ring[i].items
  {
    var n := |ring| - 1;
    if e in ring[n].items {
      i := n;
    } else {
      i := RingBagWhere(ring[..n], e);
    }
  }

  lemma {:induction false} EmptyRingBag(ring: seq<Slot>)
    requires forall i :: 0 <= i < |ring| ==> ring[i] == EMPTY
    ensures RingBag(ring) == multiset{}
  {
    if ring != [] {
      EmptyRingBag(ring[..|ring| - 1]);
    }
  }

  lemma {:induction false} BagUpdate(levels: seq<Level>, k: int, l: Level)
    requires 0 <= k < |levels|
    ensures Bag(levels[k := l]) + RingBag(levels[k].ring) == Bag(levels) + RingBag(l.ring)
  {
    hide RingBag;
    var n := |levels| - 1;
    var levels' := levels[k := l];
    if k == n {
      assert levels'[..n] == levels[..n];
      Swap(Bag(levels[..n]), RingBag(l.ring), RingBag(levels[k].ring));
    } else {
      assert levels'[..n] == levels[..n][k := l] && levels'[n] == levels[n];
      BagUpdate(levels[..n], k, l);
      Carry(Bag(levels'[..n]), RingBag(levels[k].ring), Bag(levels[..n]), RingBag(l.ring), RingBag(levels[n].ring));
    }
  }

  lemma Swap<T>(a: multiset<T>, b: multiset<T>, c: multiset<T>)
    ensures (a + b) + c == (a + c) + b
  {
  }

  lemma {:induction false} WeightUpdate(levels: seq<Level>, k: int, l: Level)
    requires 0 <= k < |levels|
    ensures Weight(levels[k := l]) + (k + 1) * |RingBag(levels[k].ring)| == Weight(levels) + (k + 1) * |RingBag(l.ring)|
  {
    var n := |levels| - 1;
    var levels' := levels[k := l];
    if k == n {
      assert levels'[..n] == levels[..n];
    } else {
      assert levels'[..n] == levels[..n][k := l] && levels'[n] == levels[n];
      WeightUpdate(levels[..n], k, l);
    }
  }

  lemma {:induction false} BagHas(levels: seq<Level>, k: int, i: int, e: WheelEntry)
    requires 0 <= k < |levels| && 0 <= i < |levels[k].ring| && e in levels[k].ring[i].items
    ensures e in Bag(levels)
  {
    var n := |levels| - 1;
    if k == n {
      RingBagHas(levels[k].ring, i, e);
    } else {
      BagHas(levels[..n], k, i, e);
    }
  }

  lemma {:induction false} BagWhere(levels: seq<Level>, e: WheelEntry) returns (k: int, i: int)
    requires e in Bag(levels)
    ensures 0 <= k < |levels| && 0 <= i < |levels[k].ring| && e in levels[k].ring[i].items
  {
    var n := |levels| - 1;
    if e in RingBag(levels[n].ring) {
      k := n;
      i := RingBagWhere(levels[n].ring, e);
    } else {
      k, i := BagWhere(levels[..n], e);
    }
  }

  /** Replacing one slot exchanges exactly that slot's entries. */
  lemma SlotUpdate(levels: seq<Level>, k: int, i: int, s: Slot, levels': seq<Level>)
    requires 0 <= k < |levels| && 0 <= i < |levels[k].ring|
    requires levels' == levels[k := levels[k].(ring := levels[k].ring[i := s])]
    ensures Bag(levels') + multiset(levels[k].ring[i].items) == Bag(levels) + multiset(s.items)
  {
    var ring := levels[k].ring;
    RingBagUpdate(ring, i, s);
    BagUpdate(levels, k, levels[k].(ring := ring[i := s]));
    ExchangeTwice(Bag(levels'), Bag(levels), RingBag(ring[i := s]), RingBag(ring),
                  multiset(ring[i].items), multiset(s.items));
  }

  lemma ExchangeTwice<T>(a': multiset<T>, a: multiset<T>, b': multiset<T>, b: multiset<T>,
                         c: multiset<T>, c': multiset<T>)
    requires a' + b == a + b' && b' + c == b + c'
    ensures a' + c == a + c'
  {
    forall x: T | x in a' + c || x in a + c' ensures (a' + c)[x] == (a + c')[x] {
      assert (a' + b)[x] == (a + b')[x] && (b' + c)[x] == (b + c')[x];
    }
  }

  lemma SlotWeight(levels: seq<Level>, k: int, i: int, s: Slot, levels': seq<Level>)
    requires 0 <= k < |levels| && 0 <= i < |levels[k].ring|
    requires levels' == levels[k := levels[k].(ring := levels[k].ring[i := s])]
    ensures Weight(levels') == Weight(levels) + (k + 1) * (|s.items| - |levels[k].ring[i].items|)
  {
    var ring := levels[k].ring;
    RingBagUpdate(ring, i, s);
    WeightUpdate(levels, k, levels[k].(ring := ring[i := s]));
    var a, b, c, d := |RingBag(ring[i := s])|, |ring[i].items|, |RingBag(ring)|, |s.items|;
    assert a + b == c + d by {
      assert |RingBag(ring[i := s]) + multiset(ring[i].items)| == |RingBag(ring) + multiset(s.items)|;
    }
    Distribute(k + 1, a, c, d - b);
  }

  lemma Distribute(n: int, a: int, c: int, x: int)
    requires a == c + x
    ensures n * a == n * c + n * x
  {
  }

  // ---------- Routing keeps the wheel ----------

  /** Where an entry that fits lands: the slot it shares with its own quantum only. */
  lemma PutSlot(l: Level, size: int, base: int, e: WheelEntry) returns (i: int, boundary: int)
    requires Shape(l, size) && size >= 2 && RingOk(l, base)
    requires l.currentTime % l.tickMs == 0
    requires 0 <= l.currentTime <= base < l.currentTime + l.tickMs
    requires l.currentTime + l.tickMs <= e.expirationMs < l.currentTime + l.interval
    ensures 0 <= i < |l.ring|
    ensures i == (e.expirationMs / l.tickMs) % |l.ring|
    ensures boundary == (e.expirationMs / l.tickMs) * l.tickMs == Floor(e.expirationMs, l.tickMs)
    ensures l.ring[i].items == [] || l.ring[i].expiration == boundary
    ensures Put(l, e) == l.(ring := l.ring[i := Slot(boundary, l.ring[i].items + [e])])
    ensures base < boundary
    ensures RingOk(Put(l, e), base)
  {
    var virtualId := e.expirationMs / l.tickMs;
    i := virtualId % |l.ring|;
    boundary := virtualId * l.tickMs;
    FloorIsMultiple(e.expirationMs, l.tickMs);
    MultipleFromFactor(virtualId, l.tickMs);
    MultipleShift(l.currentTime, l.tickMs);
    MultipleBelowFloor(l.currentTime + l.tickMs, e.expirationMs, l.tickMs);
    assert SlotOk(l, base, i);
    if l.ring[i].items != [] {
      SlotHoldsOneBoundary(l.ring[i].expiration, boundary, l.currentTime, l.tickMs, size);
    }
    var l' := Put(l, e);
    forall j | 0 <= j < |l'.ring| ensures SlotOk(l', base, j) {
      assert SlotOk(l, base, j);
    }
  }

  lemma GrowKeeps(levels: seq<Level>, size: int, k: int)
    requires WheelOk(levels, size) && 0 <= k < |levels|
    ensures WheelOk(Grow(levels, size, k), size)
    ensures SameClocks(levels, Grow(levels, size, k))
    ensures Bag(Grow(levels, size, k)) == Bag(levels)
    ensures Weight(Grow(levels, size, k)) == Weight(levels)
  {
    var taller := Grow(levels, size, k);
    var n := |levels|;
    if k + 1 == n {
      assert taller[..n] == levels;
      EmptyRingBag(taller[n].ring);
      hide Shape, StackedAt, RingBag;
      forall j | 0 <= j < |taller| ensures RingOk(taller[j], taller[0].currentTime) {
        if j < n {
          assert RingOk(levels[j], levels[0].currentTime);
        }
      }
    }
  }

  /** Routing an entry that level k-1 could not hold: the wheel stays well formed, no clock moves, the
      entry becomes linked exactly once more or is reported due, and only the bottom level reports due. */
  lemma {:induction false} RouteKeeps(levels: seq<Level>, size: int, k: int, e: WheelEntry)
    requires WheelOk(levels, size) && 0 <= k < |levels|
    requires k > 0 ==> levels[k - 1].currentTime + levels[k - 1].interval <= e.expirationMs
    ensures var r := Route(levels, size, k, e);
            && WheelOk(r.levels, size)
            && SameClocks(levels, r.levels)
            && (r.ok <==> k > 0 || levels[0].currentTime + levels[0].tickMs <= e.expirationMs)
            && (!r.ok ==> r.levels == levels)
            && Bag(r.levels) == Bag(levels) + (if r.ok then multiset{e} else multiset{})
    decreases e.expirationMs - (levels[k].currentTime + levels[k].interval)
  {
    hide Put, RingOk, Shape, StackedAt, Bag, Grow, SameClocks;
    var l := levels[k];
    OneClock(levels, size, k);
    if k > 0 {
      SpanGrows(levels, size, k - 1);
    }
    if e.expirationMs < l.currentTime + l.tickMs {
      SameClocksReflexive(levels);
    } else if e.expirationMs < l.currentTime + l.interval {
      PutKeeps(levels, size, k, e);
    } else {
      var taller := Grow(levels, size, k);
      GrowKeeps(levels, size, k);
      SpanGrows(taller, size, k);
      RouteKeeps(taller, size, k + 1, e);
      SameClocksTransitive(levels, taller, Route(taller, size, k + 1, e).levels);
    }
  }

  ghost predicate SameClocks(before: seq<Level>, after: seq<Level>)
  {
    |before| <= |after| &&
    forall k :: 0 <= k < |before| ==>
      before[k].tickMs == after[k].tickMs && before[k].interval == after[k].interval &&
      before[k].currentTime == after[k].currentTime
  }

  lemma SameClocksReflexive(a: seq<Level>)
    ensures SameClocks(a, a)
  {
  }

  lemma SameClocksTransitive(a: seq<Level>, b: seq<Level>, c: seq<Level>)
    requires SameClocks(a, b) && SameClocks(b, c)
    ensures SameClocks(a, c)
  {
  }

  lemma PutKeeps(levels: seq<Level>, size: int, k: int, e: WheelEntry)
    requires WheelOk(levels, size) && 0 <= k < |levels|
    requires levels[k].currentTime + levels[k].tickMs <= e.expirationMs < levels[k].currentTime + levels[k].interval
    ensures var levels' := levels[k := Put(levels[k], e)];
            && WheelOk(levels', size)
            && SameClocks(levels, levels')
            && Bag(levels') == Bag(levels) + multiset{e}
            && Weight(levels') == Weight(levels) + k + 1
  {
    OneClock(levels, size, k);
    var l := levels[k];
    var i, boundary := PutSlot(l, size, levels[0].currentTime, e);
    var put := Put(l, e);
    hide Put, Bag, Weight, RingOk, StackedAt;
    assert Shape(l, size);
    AppendToSlot(levels, k, i, boundary, e, levels[k := put]);
    TowerUpdate(levels, size, k, put);
  }

  lemma AppendToSlot(levels: seq<Level>, k: int, i: int, boundary: int, e: WheelEntry, levels': seq<Level>)
    requires 0 <= k < |levels| && 0 <= i < |levels[k].ring|
    requires var ring := levels[k].ring;
             levels' == levels[k := levels[k].(ring := ring[i := Slot(boundary, ring[i].items + [e])])]
    ensures Bag(levels') == Bag(levels) + multiset{e}
    ensures Weight(levels') == Weight(levels) + k + 1
  {
    hide *;
    var items := levels[k].ring[i].items;
    var s := Slot(boundary, items + [e]);
    SlotUpdate(levels, k, i, s, levels');
    OneMore(Bag(levels'), Bag(levels), items, e);
    AppendWeight(levels, k, i, s, levels');
  }

  lemma AppendWeight(levels: seq<Level>, k: int, i: int, s: Slot, levels': seq<Level>)
    requires 0 <= k < |levels| && 0 <= i < |levels[k].ring|
    requires levels' == levels[k := levels[k].(ring := levels[k].ring[i := s])]
    requires |s.items| == |levels[k].ring[i].items| + 1
    ensures Weight(levels') == Weight(levels) + k + 1
  {
    hide *;
    SlotWeight(levels, k, i, s, levels');
  }

  lemma OneMore<T>(a': multiset<T>, a: multiset<T>, items: seq<T>, e: T)
    requires a' + multiset(items) == a + multiset(items + [e])
    ensures a' == a + multiset{e}
  {
    assert a' + multiset(items) == (a + multiset{e}) + multiset(items);
    forall x: T | x in a' || x in a + multiset{e} ensures a'[x] == (a + multiset{e})[x] {
      assert (a' + multiset(items))[x] == ((a + multiset{e}) + multiset(items))[x];
    }
  }

  /** A level may change its ring without disturbing the rest of the tower. */
  lemma TowerUpdate(levels: seq<Level>, size: int, k: int, l: Level)
    requires WheelOk(levels, size) && 0 <= k < |levels|
    requires l == levels[k].(ring := l.ring) && |l.ring| == size
    requires RingOk(l, levels[0].currentTime)
    ensures WheelOk(levels[k := l], size)
  {
    var levels' := levels[k := l];
    forall j | 0 <= j < |levels'| ensures Shape(levels'[j], size) {
      assert Shape(levels[j], size);
    }
    forall j | 1 <= j < |levels'| ensures StackedAt(levels', j) {
      assert StackedAt(levels, j);
    }
  }

  // ---------- Moving the clocks ----------

  /** `advanceClock` from level k up: it stops at the first level whose boundary is not crossed. */
  function Advance(levels: seq<Level>, k: int, timeMs: int): seq<Level>
    requires 0 <= k < |levels|
    requires forall j :: 0 <= j < |levels| ==> levels[j].tickMs > 0
    decreases |levels| - k
  {
    var l := levels[k];
    if timeMs >= l.currentTime + l.tickMs then
      var newCurr := Floor(timeMs, l.tickMs);
      var moved := levels[k := l.(currentTime := newCurr)];
      if k + 1 < |moved| then Advance(moved, k + 1, newCurr) else moved
    else levels
  }

  /** Same geometry and same slots; clocks may have moved forward. */
  ghost predicate SameRings(before: seq<Level>, after: seq<Level>)
  {
    |before| == |after| &&
    forall k :: 0 <= k < |before| ==>
      after[k] == before[k].(currentTime := after[k].currentTime) && before[k].currentTime <= after[k].currentTime
  }

  /** A tower whose clocks below level k already show the time `timeMs`, those from k on not yet. */
  ghost predicate HalfAdvanced(levels: seq<Level>, size: int, k: int, timeMs: int)
    requires 0 <= k < |levels|
  {
    && size >= 2
    && (forall j :: 0 <= j < |levels| ==> Shape(levels[j], size))
    && (forall j :: 1 <= j < |levels| && j != k ==> StackedAt(levels, j))
    && levels[0].currentTime >= 0
    && levels[0].currentTime % levels[0].tickMs == 0
    && levels[k].currentTime % levels[k].tickMs == 0
    && levels[k].currentTime <= timeMs
    && if k == 0 then timeMs % levels[0].tickMs == 0
       else levels[k].tickMs == levels[k - 1].interval && levels[k - 1].currentTime == timeMs
  }

  /** Although the advance may stop part-way, all clocks end as floors of the same time. */
  lemma {:induction false} AdvanceKeeps(levels: seq<Level>, size: int, k: int, timeMs: int)
    requires 0 <= k < |levels| && HalfAdvanced(levels, size, k, timeMs)
    ensures forall j :: 0 <= j < |levels| ==> levels[j].tickMs > 0
    ensures var after := Advance(levels, k, timeMs);
            && Tower(after, size)
            && SameRings(levels, after)
            && (forall j :: 0 <= j < k ==> after[j] == levels[j])
            && (k == 0 ==> after[0].currentTime == timeMs)
    decreases |levels| - k
  {
    forall j | 0 <= j < |levels| ensures levels[j].tickMs > 0 {
      assert Shape(levels[j], size);
    }
    var l := levels[k];
    if timeMs >= l.currentTime + l.tickMs {
      var newCurr := Floor(timeMs, l.tickMs);
      MultipleBelowFloor(l.currentTime, timeMs, l.tickMs);
      var moved := levels[k := l.(currentTime := newCurr)];
      MoveOne(levels, size, k, timeMs, moved);
      if k + 1 < |moved| {
        AdvanceKeeps(moved, size, k + 1, newCurr);
        SameRingsTransitive(levels, moved, Advance(moved, k + 1, newCurr));
      }
    } else {
      FloorUnique(timeMs, l.tickMs, l.currentTime);
      if k > 0 {
        assert StackedAt(levels, k);
      } else {
        FloorUnique(timeMs, l.tickMs, timeMs);
      }
    }
  }

  lemma SameRingsTransitive(a: seq<Level>, b: seq<Level>, c: seq<Level>)
    requires SameRings(a, b) && SameRings(b, c)
    ensures SameRings(a, c)
  {
    forall k | 0 <= k < |a|
      ensures c[k] == a[k].(currentTime := c[k].currentTime) && a[k].currentTime <= c[k].currentTime
    {
      assert b[k] == a[k].(currentTime := b[k].currentTime);
      assert c[k] == b[k].(currentTime := c[k].currentTime);
    }
  }

  lemma MoveOne(levels: seq<Level>, size: int, k: int, timeMs: int, moved: seq<Level>)
    requires 0 <= k < |levels| && HalfAdvanced(levels, size, k, timeMs)
    requires levels[k].tickMs > 0 && levels[k].currentTime <= Floor(timeMs, levels[k].tickMs)
    requires moved == levels[k := levels[k].(currentTime := Floor(timeMs, levels[k].tickMs))]
    ensures SameRings(levels, moved)
    ensures k == 0 ==> moved[0].currentTime == timeMs
    ensures if k + 1 < |moved| then HalfAdvanced(moved, size, k + 1, moved[k].currentTime) else Tower(moved, size)
  {
    if k == 0 {
      FloorUnique(timeMs, levels[0].tickMs, timeMs);
    }
    forall j | 0 <= j < |moved| ensures Shape(moved[j], size) {
      assert Shape(levels[j], size);
    }
    forall j | 1 <= j < |moved| && j != k + 1 ensures StackedAt(moved, j) {
      assert j != k ==> StackedAt(levels, j);
    }
    if k + 1 < |moved| {
      assert StackedAt(levels, k + 1);
    }
  }

  // ---------- Taking the earliest bucket ----------

  ghost predicate Live(levels: seq<Level>, k: int, i: int)
  {
    0 <= k < |levels| && 0 <= i < |levels[k].ring| && levels[k].ring[i].items != []
  }

  /** Slot i of level k is live and no live slot of any level expires before it. */
  ghost predicate Earliest(levels: seq<Level>, k: int, i: int)
  {
    Live(levels, k, i) &&
    forall k', i' :: Live(levels, k', i') ==> levels[k].ring[i].expiration <= levels[k'].ring[i'].expiration
  }

  function Emptied(levels: seq<Level>, k: int, i: int): seq<Level>
    requires 0 <= k < |levels| && 0 <= i < |levels[k].ring|
  {
    levels[k := levels[k].(ring := levels[k].ring[i := EMPTY])]
  }

  lemma AdvanceToEarliest(levels: seq<Level>, size: int, k: int, i: int)
    requires WheelOk(levels, size) && Earliest(levels, k, i)
    ensures forall j :: 0 <= j < |levels| ==> levels[j].tickMs > 0
    ensures levels[0].currentTime <= levels[k].ring[i].expiration
    ensures var after := Advance(levels, 0, levels[k].ring[i].expiration);
            && WheelOk(after, size)
            && SameRings(levels, after)
            && after[0].currentTime == levels[k].ring[i].expiration
            && after[k].currentTime == levels[k].ring[i].expiration
  {
    var b := levels[k].ring[i].expiration;
    OneClock(levels, size, k);
    assert RingOk(levels[k], levels[0].currentTime) && SlotOk(levels[k], levels[0].currentTime, i);
    TickMultiple(b, levels[k].tickMs, levels[0].tickMs);
    AdvanceKeeps(levels, size, 0, b);
    var after := Advance(levels, 0, b);
    forall j | 0 <= j < |after| ensures RingOk(after[j], b) {
      assert RingOk(levels[j], levels[0].currentTime);
      forall m | 0 <= m < |after[j].ring| ensures SlotOk(after[j], b, m) {
        assert SlotOk(levels[j], levels[0].currentTime, m);
        if levels[j].ring[m].items != [] {
          assert Live(levels, j, m);
        }
      }
    }
    OneClock(after, size, k);
    FloorUnique(b, after[k].tickMs, b);
  }

  /** Advancing to the earliest bucket and detaching it: every detached entry now lies within the first
      tick of the bucket's own level, so a level below can hold it or it is due. */
  lemma DetachKeeps(levels: seq<Level>, size: int, k: int, i: int)
    requires WheelOk(levels, size) && Live(levels, k, i)
    requires levels[0].currentTime == levels[k].currentTime == levels[k].ring[i].expiration
    ensures var out := Emptied(levels, k, i);
            && WheelOk(out, size)
            && SameClocks(levels, out)
            && |out| == |levels|
            && Bag(out) + multiset(levels[k].ring[i].items) == Bag(levels)
            && Weight(out) == Weight(levels) - (k + 1) * |levels[k].ring[i].items|
            && (forall e :: e in levels[k].ring[i].items ==>
                  levels[0].currentTime <= e.expirationMs < levels[k].currentTime + levels[k].tickMs)
  {
    var base := levels[0].currentTime;
    assert RingOk(levels[k], base) && SlotOk(levels[k], base, i);
    var l := levels[k].(ring := levels[k].ring[i := EMPTY]);
    forall j | 0 <= j < |l.ring| ensures SlotOk(l, base, j) {
      assert SlotOk(levels[k], base, j);
    }
    assert Shape(levels[k], size);
    TowerUpdate(levels, size, k, l);
    EmptyOneSlot(levels, k, i);
  }

  lemma EmptyOneSlot(levels: seq<Level>, k: int, i: int)
    requires 0 <= k < |levels| && 0 <= i < |levels[k].ring|
    ensures Bag(Emptied(levels, k, i)) + multiset(levels[k].ring[i].items) == Bag(levels)
    ensures Weight(Emptied(levels, k, i)) == Weight(levels) - (k + 1) * |levels[k].ring[i].items|
  {
    hide Bag, Weight, RingBag;
    var items := levels[k].ring[i].items;
    SlotUpdate(levels, k, i, EMPTY, Emptied(levels, k, i));
    SlotWeight(levels, k, i, EMPTY, Emptied(levels, k, i));
    assert (k + 1) * (0 - |items|) == -((k + 1) * |items|);
  }

  // ---------- Strict demotion ----------

  /** An entry below the horizon of level m is placed at level m or below: no level is allocated and
      its weight is at most m + 1. */
  lemma {:induction false} RouteStaysBelow(levels: seq<Level>, size: int, k: int, m: int, e: WheelEntry)
    requires WheelOk(levels, size) && 0 <= k <= m < |levels|
    requires k > 0 ==> levels[k - 1].currentTime + levels[k - 1].interval <= e.expirationMs
    requires e.expirationMs < levels[m].currentTime + levels[m].interval
    ensures var r := Route(levels, size, k, e);
            && |r.levels| == |levels|
            && Weight(r.levels) <= Weight(levels) + m + 1
            && forall j :: m < j < |levels| ==> r.levels[j] == levels[j]
    decreases m - k
  {
    hide Put, RingOk, Shape, StackedAt, Weight, SameClocks;
    var l := levels[k];
    if e.expirationMs < l.currentTime + l.tickMs {
    } else if e.expirationMs < l.currentTime + l.interval {
      PutKeeps(levels, size, k, e);
    } else {
      HorizonMonotone(levels, size, k, m);
      SpanGrows(levels, size, k);
      RouteStaysBelow(levels, size, k + 1, m, e);
    }
  }

  lemma {:induction false} HorizonMonotone(levels: seq<Level>, size: int, k: int, m: int)
    requires Tower(levels, size) && 0 <= k <= m < |levels|
    ensures levels[k].currentTime + levels[k].interval <= levels[m].currentTime + levels[m].interval
    ensures k == m || levels[k].currentTime + levels[k].interval < levels[m].currentTime + levels[m].interval
    decreases m - k
  {
    if k < m {
      SpanGrows(levels, size, k);
      HorizonMonotone(levels, size, k + 1, m);
    }
  }
}
