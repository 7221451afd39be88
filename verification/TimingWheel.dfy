/** The public timing wheel as an object: it mirrors a `WheelMachine.Wheel` value, and each operation is
    proved to take the value's step. */
module TimingWheels {
  import opened Quantum
  import opened Buckets
  import opened DelayQueues
  import opened WheelModel
  import opened TimingLevels
  import opened WheelMachine
  import opened FlatTimers
  import opened WheelRuns

  const MILLISECOND := 1_000_000

  datatype ScheduleError = NoError | ErrWheelNotStarted | ErrWheelStopped | ErrNilCallback

  class TimingWheel {
    const base: TimingLevel
    const queue: DelayQueue
    const tickMs: int
    const size: int
    var started: bool
    var stopped: bool
    var entries: map<string, WheelEntry>
    /** The callbacks started so far, in order, each with the time of its start. */
    var fired: seq<Firing>
    ghost var tower: seq<TimingLevel>
    ghost var model: Wheel

    /** A wheel with the tick clamped to at least a millisecond and the ring to at least two slots. */
    constructor (tickNs: int, wheelSize: int, nowMs: int)
      requires nowMs >= 0
      ensures Valid(nowMs) && !started && !stopped
      ensures tickMs == base.tickMs == (if tickNs < 1_000_000 then 1 else tickNs / 1_000_000)
      ensures base.currentTime == nowMs - nowMs % tickMs && fired == [] && entries == map[]
      ensures size == (if wheelSize < 2 then 2 else wheelSize)
      ensures model == NewWheel(tickMs, size, nowMs)
    {
      var tick := if tickNs < MILLISECOND then MILLISECOND else tickNs;
      var n := if wheelSize < 2 then 2 else wheelSize;
      var q := new DelayQueue();
      var level := new TimingLevel(tick / MILLISECOND, n, nowMs, q, 0);
      tickMs, size := tick / MILLISECOND, n;
      base, queue := level, q;
      started, stopped := false, false;
      entries, fired := map[], [];
      tower := [level];
      model := NewWheel(tick / MILLISECOND, n, nowMs);
      new;
      hide Inv, BucketShows, WheelOk, Tower, Bag, Shows, Floor, Valid, Mirrors, Structure, LooseEnds, FlagsShow;
      StartsOk(tickMs, size, nowMs);
      SingleLevel(level, q, model.levels[0], size);
      EmptyIsValid(nowMs);
    }

    lemma EmptyIsValid(now: int)
      requires tower == [base] && base.queue == queue && base.height == 0 && size == model.size
      requires Shows(tower, queue, model.levels, size) && WheelOk(model.levels, size) && Inv(model, multiset{}, now)
      requires entries == model.entries && fired == model.fired && model.accepted == {}
      ensures Valid(now)
    {
    }

    static lemma StartsOk(tickMs: int, size: int, nowMs: int)
      requires tickMs > 0 && size >= 2 && nowMs >= 0
      ensures var w := NewWheel(tickMs, size, nowMs);
              Inv(w, multiset{}, nowMs) && WheelOk(w.levels, size) && Bag(w.levels) == multiset{}
    {
      NewWheelOk(tickMs, size, nowMs);
      NothingLinked(NewLevel(tickMs, size, nowMs));
    }

    static lemma SingleLevel(level: TimingLevel, q: DelayQueue, l: Level, size: int)
      requires q.h == [] && q.Valid() && level.overflow == null
      requires LevelShows(level, q, l, size, 0)
      requires forall i :: 0 <= i < |l.ring| ==> l.ring[i] == EMPTY
      requires forall i {:trigger level.buckets[i]} :: 0 <= i < |level.buckets| ==>
                 level.buckets[i].heapIdx == -1 && BucketShows(level.buckets[i], EMPTY, 0, i)
      ensures Shows([level], q, [l], size)
    {
      var tower, m := [level], [l];
      forall k, i {:trigger tower[k].buckets[i]} | 0 <= k < |tower| && 0 <= i < |tower[k].buckets|
        ensures BucketShows(tower[k].buckets[i], m[k].ring[i], k, i) && HeapMember(tower[k].buckets[i], q)
      {
        assert tower[k].buckets[i] == level.buckets[i];
      }
    }

    static lemma NothingLinked(l: Level)
      requires forall i :: 0 <= i < |l.ring| ==> l.ring[i] == EMPTY
      ensures Bag([l]) == multiset{}
    {
      EmptyRingBag(l.ring);
      assert [l][..0] == [];
    }

    /** The objects mirror `model`. The entries of `hand` have been detached by the tick loop and not been
        re-inserted yet: they are chained by `next` only. Every other accepted entry that is not in a bucket
        has no links at all. */
    ghost predicate Mirrors(hand: seq<WheelEntry>)
      reads *
    {
      && Structure(model.levels)
      && size == model.size
      && entries == model.entries && fired == model.fired
      && FlagsShow(model)
      && LooseEnds(model.accepted, Bag(model.levels), hand)
    }

    /** The levels, buckets and heap spell out the value tower m. */
    ghost predicate Structure(m: seq<Level>)
      reads this`tower, tower`currentTime, tower`overflow, queue`h, queue.h`heapIdx, queue.h`expiration
      reads AllBuckets(tower)`head, AllBuckets(tower)`tail, AllBuckets(tower)`items, AllBuckets(tower)`expiration
      reads AllBuckets(tower)`heapIdx, AllEntries(tower)`bucket, AllEntries(tower)`prev, AllEntries(tower)`next
    {
      && tower != [] && tower[0] == base && base.queue == queue && base.height == 0
      && WheelOk(m, size) && Shows(tower, queue, m, size)
    }

    static ghost predicate FlagsShow(w: Wheel)
      reads w.accepted`cancelled
    {
      forall e :: e in w.accepted ==> (e.cancelled <==> e in w.cancelled)
    }

    static ghost predicate LooseEnds(accepted: set<WheelEntry>, linked: multiset<WheelEntry>, hand: seq<WheelEntry>)
      reads accepted`bucket, accepted`prev, accepted`next, hand`bucket, hand`prev, hand`next
    {
      && Chained(hand)
      && (forall e :: e in hand ==> e.bucket == null && e.prev == null)
      && (forall e :: e in accepted && e !in linked && e !in hand ==> e.Unlinked())
    }

    ghost predicate Valid(now: int)
      reads *
    {
      Mirrors([]) && Inv(model, multiset{}, now)
    }

    /** `removeFromIndex`: only if the indexed entry is this very one. */
    method RemoveFromIndex(e: WheelEntry, ghost levels: seq<Level>)
      requires Structure(levels)
      modifies this`entries
      ensures entries == Unindex(old(entries), e)
      ensures Structure(levels)
    {
      hide Structure;
      if e.taskID == "" {
        return;
      }
      if e.taskID in entries && entries[e.taskID] == e {
        entries := entries - {e.taskID};
      }
    }

    /** Route through the base level. */
    method RouteFromBase(e: WheelEntry) returns (ok: bool, ghost levels: seq<Level>)
      requires Structure(model.levels) && e.Unlinked()
      modifies this`tower
      modifies queue`h, AllBuckets(tower), AllLevels(tower)`overflow, e`bucket, e`prev, AllEntries(tower)`next
      ensures ok == (e.cancelled || Route(model.levels, size, 0, e).ok)
      ensures levels == if e.cancelled then model.levels else Route(model.levels, size, 0, e).levels
      ensures Structure(levels)
      ensures e.cancelled || !ok ==> e.Unlinked()
      ensures NewOnly(old(tower), tower)
    {
      hide Structure, WheelOk, Shows, AllEntries, AllBuckets, AllLevels, Route, SameClocks, Bag, BucketsShow, Tower;
      ghost var m := model.levels;
      OpenStructure(m);
      RouteStaysOk(m, size, e);
      levels := if e.cancelled then m else Route(m, size, 0, e).levels;
      ghost var taller;
      ok, taller := base.Add(e, tower, m, size);
      assert taller[0] == tower[0];
      tower := taller;
      CloseStructure(levels);
    }

    lemma OpenStructure(m: seq<Level>)
      requires Structure(m)
      ensures tower != [] && tower[0] == base && base.queue == queue && base.height == 0
      ensures WheelOk(m, size) && Tower(m, size) && Shows(tower, queue, m, size)
    {
    }

    lemma CloseStructure(m: seq<Level>)
      requires tower != [] && tower[0] == base && base.queue == queue && base.height == 0
      requires WheelOk(m, size) && Shows(tower, queue, m, size)
      ensures Structure(m)
    {
    }

    static lemma RouteStaysOk(m: seq<Level>, size: int, e: WheelEntry)
      requires WheelOk(m, size)
      ensures WheelOk(Route(m, size, 0, e).levels, size)
    {
      RouteKeeps(m, size, 0, e);
    }

    method AddToBase(e: WheelEntry, ghost rest: seq<WheelEntry>) returns (ok: bool, ghost levels: seq<Level>)
      requires Structure(model.levels) && LooseEnds(model.accepted, Bag(model.levels), rest)
      requires e in model.accepted && e.Unlinked() && e !in rest
      requires forall x :: x in rest ==> x !in Bag(model.levels)
      modifies this`tower
      modifies queue`h, AllBuckets(tower), AllLevels(tower)`overflow, e`bucket, e`prev, AllEntries(tower)`next
      ensures ok == (e.cancelled || Route(model.levels, size, 0, e).ok)
      ensures levels == if e.cancelled then model.levels else Route(model.levels, size, 0, e).levels
      ensures Structure(levels) && LooseEnds(model.accepted, Bag(levels), rest)
      ensures NewOnly(old(tower), tower)
    {
      hide Structure, LooseEnds, AllEntries, AllBuckets, AllLevels, Route, Bag, NewOnly, WheelOk, Tower;
      ghost var linked := AllEntries(tower);
      NotLinked(model.levels, e, rest);
      RouteBag(e);
      ok, levels := RouteFromBase(e);
      LooseKept(model.accepted, Bag(model.levels), Bag(levels), rest, linked, e);
    }

    lemma RouteBag(e: WheelEntry)
      requires Structure(model.levels)
      ensures Tower(model.levels, size)
      ensures var r := Route(model.levels, size, 0, e);
              Bag(r.levels) == Bag(model.levels) + (if r.ok then multiset{e} else multiset{})
    {
      RouteKeeps(model.levels, size, 0, e);
    }

    lemma NotLinked(m: seq<Level>, e: WheelEntry, rest: seq<WheelEntry>)
      requires Structure(m) && e.Unlinked()
      requires forall x :: x in rest ==> x !in Bag(m)
      ensures e !in AllEntries(tower) && forall x :: x in rest ==> x !in AllEntries(tower)
      ensures forall x :: x in model.accepted && x !in Bag(m) ==> x !in AllEntries(tower)
    {
      EntriesInBag(tower, m);
    }

    /** Entries that were in no bucket and are not the one being linked keep their links. */
    static twostate lemma LooseKept(new accepted: set<WheelEntry>, new bag: multiset<WheelEntry>,
                                    new bag': multiset<WheelEntry>, new rest: seq<WheelEntry>,
                                    new linked: set<WheelEntry>, new e: WheelEntry)
      requires old(allocated(accepted)) && old(allocated(bag)) && old(allocated(rest))
      requires old(LooseEnds(accepted, bag, rest)) && bag <= bag'
      requires forall x :: x in rest ==> x !in linked && x != e
      requires forall x :: x in accepted && x !in bag ==> x !in linked
      requires forall x :: (x in accepted || x in rest) && x !in linked && x != e ==> unchanged(x)
      requires e !in bag' ==> e.Unlinked()
      ensures LooseEnds(accepted, bag', rest)
    {
      forall x | x in accepted && x !in bag' && x !in rest ensures x.Unlinked() {
        if x != e {
          assert old(x.Unlinked());
        }
      }
      forall j {:trigger rest[j].next} | 0 <= j < |rest|
        ensures rest[j].next == if j + 1 < |rest| then rest[j + 1] else null
      {
        assert rest[j] in rest;
        assert old(rest[j].next) == if j + 1 < |rest| then rest[j + 1] else null;
      }
    }

    method Insert(e: WheelEntry, now: int, ghost rest: seq<WheelEntry>)
      requires Mirrors(rest)
      requires e in model.accepted && e.Unlinked() && e !in rest
      requires forall x :: x in rest ==> x !in Bag(model.levels)
      modifies this`entries, this`fired, this`tower, this`model
      modifies queue`h, AllBuckets(tower), AllLevels(tower)`overflow, e`bucket, e`prev, AllEntries(tower)`next
      ensures model == WheelMachine.Insert(old(model), e, now)
      ensures Mirrors(rest)
      ensures NewOnly(old(tower), tower)
    {
      hide Structure, LooseEnds, FlagsShow, Bag, AllLevels, Route, WheelOk, Tower, Unindex;
      assert e.cancelled <==> e in model.cancelled by {
        FlagOf(model, e);
      }
      assert Tower(model.levels, model.size) by {
        TowerOk();
      }
      ghost var w := WheelMachine.Insert(model, e, now);
      var ok;
      ghost var levels;
      ok, levels := AddToBase(e, rest);
      assert Structure(w.levels);
      if !ok {
        if !e.cancelled {
          RemoveFromIndex(e, w.levels);
          fired := fired + [Firing(e, now)];
        }
      }
      SameFlags(model, w);
      assert Structure(w.levels);
      assert entries == w.entries && fired == w.fired;
      assert LooseEnds(w.accepted, Bag(w.levels), rest);
      assert FlagsShow(w);
      model := w;
    }

    static lemma FlagOf(w: Wheel, e: WheelEntry)
      requires FlagsShow(w) && e in w.accepted
      ensures e.cancelled <==> e in w.cancelled
    {
    }

    static lemma SameFlags(w: Wheel, w': Wheel)
      requires FlagsShow(w) && w'.accepted == w.accepted && w'.cancelled == w.cancelled
      ensures FlagsShow(w')
    {
    }

    lemma TowerOk()
      requires Structure(model.levels) && size == model.size
      ensures Tower(model.levels, model.size)
    {
    }

    /** Starting makes the wheel accept; it is idempotent. */
    method Start()
      modifies this`started
      ensures started
    {
      started := true;
    }

    method Stop()
      modifies this`stopped
      ensures stopped
    {
      stopped := true;
    }

    /** `Schedule`: the entry made for the request comes back as a ghost. */
    method Schedule(taskID: string, fireAtMs: int, hasCallback: bool, now: int)
      returns (error: ScheduleError, ghost e: WheelEntry?)
      requires Valid(now)
      modifies this`entries, this`fired, this`tower, this`model, entries.Values`cancelled
      modifies queue`h, AllBuckets(tower), AllLevels(tower)`overflow, AllEntries(tower)`next
      ensures Valid(now)
      ensures error == if !started then ErrWheelNotStarted
                       else if stopped then ErrWheelStopped
                       else if !hasCallback then ErrNilCallback
                       else NoError
      ensures error != NoError ==> model == old(model)
      ensures error == NoError ==>
        && e != null && fresh(e) && e.taskID == taskID && e.expirationMs == fireAtMs
        && e !in old(model).accepted
        && model == WheelMachine.Schedule(old(model), e, now)
      ensures base.currentTime == old(base.currentTime)
      ensures error == NoError ==>
        var due := fireAtMs < base.currentTime + base.tickMs;
        && fired == old(fired) + (if due then [Firing(e, now)] else [])
        && (taskID != "" && !due ==> taskID in entries && entries[taskID] == e)
        && (taskID != "" && due ==> taskID !in entries)
    {
      hide Structure, LooseEnds, FlagsShow, Inv, Bag, AllLevels, WheelOk, Tower, Register, WheelMachine.Insert;
      e := null;
      if !started {
        return ErrWheelNotStarted, null;
      }
      if stopped {
        return ErrWheelStopped, null;
      }
      if !hasCallback {
        return ErrNilCallback, null;
      }
      BaseShows(now);
      ghost var w := model;
      e := Arm(taskID, fireAtMs, now);
      ScheduleDispatches(w, e, now);
      return NoError, e;
    }

    /** The base level and the books are those of the model. */
    lemma BaseShows(now: int)
      requires Valid(now)
      ensures Inv(model, multiset{}, now) && model.levels != []
      ensures base.currentTime == model.levels[0].currentTime && base.tickMs == model.levels[0].tickMs
      ensures fired == model.fired && entries == model.entries
    {
      hide Inv, LooseEnds, FlagsShow;
      assert LevelShows(tower[0], queue, model.levels[0], size, 0);
    }

    method Arm(taskID: string, fireAtMs: int, now: int) returns (ghost e: WheelEntry)
      requires Valid(now)
      modifies this`entries, this`fired, this`tower, this`model, entries.Values`cancelled
      modifies queue`h, AllBuckets(tower), AllLevels(tower)`overflow, AllEntries(tower)`next
      ensures Valid(now)
      ensures fresh(e) && e.taskID == taskID && e.expirationMs == fireAtMs && e !in old(model).accepted
      ensures model == WheelMachine.Schedule(old(model), e, now)
    {
      hide Structure, LooseEnds, FlagsShow, Inv, Bag, AllLevels, WheelOk, Tower, Register, WheelMachine.Insert;
      var entry := new WheelEntry(fireAtMs, taskID);
      e := entry;
      ghost var w := model;
      ScheduleKeeps(w, entry, now);
      Admit(taskID, entry, now);
      Insert(entry, now, []);
    }

    /** Index a fresh entry, flagging the one it supersedes. */
    method Admit(taskID: string, entry: WheelEntry, now: int)
      requires Valid(now) && entry !in model.accepted && entry.taskID == taskID
      requires entry.Unlinked() && !entry.cancelled
      modifies this`entries, this`model, entries.Values`cancelled
      ensures model == Register(old(model), entry)
      ensures Mirrors([])
      ensures entry in model.accepted && entry !in Bag(model.levels) && entry.Unlinked()
    {
      ghost var w := model;
      hide Structure, LooseEnds, FlagsShow, Inv, Bag, AllLevels, WheelOk, Tower;
      NotAccepted(entry, now);
      IndexedAccepted(taskID, now);
      ghost var w' := Register(w, entry);
      if taskID != "" {
        if taskID in entries {
          assert entries[taskID] in entries.Values;
          entries[taskID].cancelled := true;
        }
        entries := entries[taskID := entry];
      }
      FlagsAfter(w, w', if taskID != "" && taskID in w.entries then {w.entries[taskID]} else {}, {entry});
      MoreLoose(w.accepted, Bag(w.levels), entry);
      model := w';
    }

    lemma OkParts(now: int)
      requires Valid(now)
      ensures WheelOk(model.levels, size) && Inv(model, multiset{}, now)
      ensures LevelsShow(tower, queue, model.levels, size) && BucketsShow(tower, model.levels)
      ensures HeapShows(tower, queue)
      ensures AllEntries(tower) <= model.accepted
    {
      hide Tower, FiredBag;
      EntriesInBag(tower, model.levels);
      forall e | e in AllEntries(tower) ensures e in model.accepted {
        assert e in Bag(model.levels) + multiset{};
      }
    }

    static lemma EarliestIsLive(m: seq<Level>, k: int, i: int)
      requires Earliest(m, k, i)
      ensures Live(m, k, i)
    {
    }

    static lemma LiveStays(m: seq<Level>, m': seq<Level>, k: int, i: int)
      requires SameRings(m, m') && Live(m, k, i)
      ensures Live(m', k, i) && m'[k].ring == m[k].ring
    {
      assert m'[k] == m[k].(currentTime := m'[k].currentTime);
    }

    static lemma BaseNotNegative(m: seq<Level>, size: int)
      requires WheelOk(m, size)
      ensures m[0].currentTime >= 0
    {
    }

    lemma NotAccepted(entry: WheelEntry, now: int)
      requires Valid(now) && entry !in model.accepted
      ensures entry !in Bag(model.levels) && entry !in model.cancelled
    {
      hide WheelOk, Tower, Bag, FiredBag, Structure, LooseEnds;
      assert entry !in Bag(model.levels) + multiset{};
    }

    lemma IndexedAccepted(taskID: string, now: int)
      requires Valid(now)
      ensures taskID in entries ==> entries[taskID] in model.accepted
    {
      hide WheelOk, Tower, Bag, FiredBag, Structure, LooseEnds;
      if taskID in entries {
        assert entries[taskID] in Bag(model.levels) + multiset{};
      }
    }

    /** Setting the flags of `flagged`, and no others, matches the value's cancelled set. */
    static twostate lemma FlagsAfter(new w: Wheel, new w': Wheel,
                                     new flagged: set<WheelEntry>, new added: set<WheelEntry>)
      requires old(allocated(w))
      requires old(FlagsShow(w)) && flagged <= w.accepted
      requires w'.accepted == w.accepted + added && w'.cancelled == w.cancelled + flagged
      requires forall x :: x in flagged ==> x.cancelled
      requires forall x :: x in w.accepted && x !in flagged ==> x.cancelled == old(x.cancelled)
      requires forall x :: x in added ==> !x.cancelled && x !in w'.cancelled
      ensures FlagsShow(w')
    {
    }

    static lemma MoreLoose(accepted: set<WheelEntry>, linked: multiset<WheelEntry>, e: WheelEntry)
      requires LooseEnds(accepted, linked, []) && e.Unlinked()
      ensures LooseEnds(accepted + {e}, linked, [])
    {
    }

    method Cancel(taskID: string, now: int)
      requires Valid(now)
      modifies this`entries, this`model, entries.Values`cancelled
      ensures Valid(now)
      ensures model == WheelMachine.Cancel(old(model), taskID)
    {
      hide Structure, LooseEnds, FlagsShow, Inv, Bag, AllLevels, WheelOk, Tower;
      CancelKeeps(model, taskID, now);
      IndexedAccepted(taskID, now);
      if taskID == "" {
        return;
      }
      ghost var w := model;
      if taskID in entries {
        var e := entries[taskID];
        assert e in entries.Values;
        entries := entries - {taskID};
        e.cancelled := true;
        FlagsAfter(w, WheelMachine.Cancel(w, taskID), {e}, {});
      }
      model := WheelMachine.Cancel(w, taskID);
    }

    /** Flush the bucket that was polled: its entries are in the walker's hand. */
    method FlushPolled(bucket: WheelBucket, ghost m: seq<Level>)
      returns (first: WheelEntry?, ghost list: seq<WheelEntry>)
      requires tower != [] && tower[0] == base && base.queue == queue && base.height == 0
      requires LevelsShow(tower, queue, m, size) && BucketsShow(tower, m)
      requires InTower(tower, bucket) && Polled(tower, queue, bucket)
      requires AllEntries(tower) <= model.accepted && LooseEnds(model.accepted, Bag(m), [])
      requires bucket.level < |m| && bucket.slot < |m[bucket.level].ring|
      requires WheelOk(Emptied(m, bucket.level, bucket.slot), size)
      requires Bag(Emptied(m, bucket.level, bucket.slot)) + multiset(m[bucket.level].ring[bucket.slot].items) == Bag(m)
      modifies bucket`expiration, bucket`head, bucket`tail, bucket`items, model.accepted`bucket, model.accepted`prev
      ensures list == m[bucket.level].ring[bucket.slot].items
      ensures first == (if list == [] then null else list[0])
      ensures Structure(Emptied(m, bucket.level, bucket.slot))
      ensures LooseEnds(model.accepted, Bag(Emptied(m, bucket.level, bucket.slot)), list)
    {
      hide LooseEnds, Bag, WheelOk, BucketsShow, HeapShows, LevelsShow, AllEntries;
      InTowerBucket(tower, m, bucket);
      EntriesOf(tower, bucket.level, bucket.slot);
      list := bucket.items;
      first := Detach(queue, bucket, tower, m);
      ghost var k := bucket.level;
      LevelFacts(Emptied(m, k, bucket.slot), size, k);
      NewRing(tower, queue, m, size, k, Emptied(m, k, bucket.slot)[k]);
      LooseAfterFlush(model.accepted, Bag(m), Bag(Emptied(m, k, bucket.slot)), list);
    }

    static twostate lemma LooseAfterFlush(new accepted: set<WheelEntry>, new bag: multiset<WheelEntry>,
                                          new bag': multiset<WheelEntry>, new list: seq<WheelEntry>)
      requires old(allocated(accepted)) && old(allocated(bag))
      requires old(LooseEnds(accepted, bag, [])) && bag' + multiset(list) == bag
      requires Chained(list) && forall x :: x in list ==> x.bucket == null && x.prev == null
      requires forall x :: x in accepted && x !in list ==> unchanged(x)
      ensures LooseEnds(accepted, bag', list)
    {
      forall x | x in accepted && x !in bag' && x !in list ensures x.Unlinked() {
        assert x in bag <==> x in bag' + multiset(list);
        assert old(x.Unlinked());
      }
    }

    /** Everything but the heap still shows the value; bucket was just polled. */
    ghost predicate AfterPoll(bucket: WheelBucket)
      reads *
    {
      var m := model.levels;
      && tower != [] && tower[0] == base && base.queue == queue && base.height == 0
      && size == model.size && WheelOk(m, size)
      && LevelsShow(tower, queue, m, size) && BucketsShow(tower, m)
      && InTower(tower, bucket) && Polled(tower, queue, bucket)
      && Earliest(m, bucket.level, bucket.slot)
      && m[bucket.level].ring[bucket.slot] == Slot(bucket.expiration, bucket.items)
      && entries == model.entries && fired == model.fired
      && FlagsShow(model) && LooseEnds(model.accepted, Bag(m), [])
      && AllEntries(tower) <= model.accepted
    }

    /** Advance every clock to the polled bucket's boundary and flush it. */
    method AdvanceAndFlush(bucket: WheelBucket) returns (first: WheelEntry?, ghost list: seq<WheelEntry>)
      requires AfterPoll(bucket)
      modifies this`model, AllLevels(tower)`currentTime
      modifies bucket`expiration, bucket`head, bucket`tail, bucket`items, model.accepted`bucket, model.accepted`prev
      ensures list == old(model).levels[bucket.level].ring[bucket.slot].items
      ensures first == (if list == [] then null else list[0])
      ensures model == Detached(old(model), bucket.level, bucket.slot)
      ensures Mirrors(list)
    {
      hide LooseEnds, FlagsShow, Bag, AllLevels, WheelOk, BucketsShow, HeapShows, LevelsShow, Structure, Weight,
           AllBuckets, AllEntries, Earliest, SameRings, Detached, Advance;
      ghost var w := model;
      ghost var k, i := bucket.level, bucket.slot;
      PolledIsEarliest(bucket);
      ghost var m1 := AdvanceTo(bucket);
      DetachedIs(w, k, i, m1);
      first, list := FlushPolled(bucket, m1);
      SameFlags(w, Detached(w, k, i));
      model := Detached(w, k, i);
    }

    lemma PolledIsEarliest(bucket: WheelBucket)
      requires AfterPoll(bucket)
      ensures WheelOk(model.levels, model.size) && Earliest(model.levels, bucket.level, bucket.slot)
      ensures bucket.level < |model.levels| && bucket.slot < |model.levels[bucket.level].ring|
      ensures model.levels[bucket.level].ring[bucket.slot].expiration == bucket.expiration
    {
    }

    static lemma DetachedIs(w: Wheel, k: int, i: int, advanced: seq<Level>)
      requires WheelOk(w.levels, w.size) && Earliest(w.levels, k, i)
      requires forall j :: 0 <= j < |w.levels| ==> w.levels[j].tickMs > 0
      requires advanced == Advance(w.levels, 0, w.levels[k].ring[i].expiration)
      requires k < |advanced| && i < |advanced[k].ring|
      ensures Detached(w, k, i) == w.(levels := Emptied(advanced, k, i))
    {
      hide WheelOk, Bag, Weight, Emptied;
    }

    /** The clocks show the polled bucket's boundary; the slots are as they were. */
    method AdvanceTo(bucket: WheelBucket) returns (ghost m1: seq<Level>)
      requires AfterPoll(bucket)
      modifies AllLevels(tower)`currentTime
      ensures (forall j :: 0 <= j < |model.levels| ==> model.levels[j].tickMs > 0) && |model.levels| > 0
      ensures m1 == Advance(model.levels, 0, bucket.expiration)
      ensures LevelsShow(tower, queue, m1, size) && BucketsShow(tower, m1) && Polled(tower, queue, bucket)
      ensures LooseEnds(model.accepted, Bag(m1), []) && FlagsShow(model) && AllEntries(tower) <= model.accepted
      ensures bucket.level < |m1| && bucket.slot < |m1[bucket.level].ring|
      ensures m1[bucket.level].ring == model.levels[bucket.level].ring
      ensures WheelOk(Emptied(m1, bucket.level, bucket.slot), size)
      ensures Bag(Emptied(m1, bucket.level, bucket.slot)) + multiset(m1[bucket.level].ring[bucket.slot].items)
           == Bag(m1)
    {
      hide LooseEnds, FlagsShow, Bag, AllLevels, WheelOk, BucketsShow, HeapShows, LevelsShow, Structure, Weight,
           AllBuckets, AllEntries, Earliest, SameRings;
      Reachable(tower);
      ghost var m := model.levels;
      ghost var k, i := bucket.level, bucket.slot;
      EarliestIsLive(m, k, i);
      AdvanceToEarliest(m, size, k, i);
      m1 := Advance(m, 0, bucket.expiration);
      BaseNotNegative(m, size);
      LiveStays(m, m1, k, i);
      DetachKeeps(m1, size, k, i);
      SameRingsSameBag(m, m1);
      var exp := bucket.expiration;
      if exp >= 0 {
        base.AdvanceClock(exp, tower, m, size);
      }
      SameRingsShow(tower, m, m1);
    }

    /** Poll, advance every clock to the polled bucket's boundary, and flush it. */
    method TakeEarliest(now: int) returns (bucket: WheelBucket?, first: WheelEntry?, ghost list: seq<WheelEntry>)
      requires Valid(now)
      modifies this`model
      modifies queue`h, AllBuckets(tower), AllLevels(tower)`currentTime
      modifies model.accepted`bucket, model.accepted`prev
      ensures bucket == null ==> Valid(now) && model == old(model) && Blocked(model, now)
      ensures bucket != null ==>
        && CanPop(old(model), bucket.level, bucket.slot, now)
        && list == old(model).levels[bucket.level].ring[bucket.slot].items
        && first == (if list == [] then null else list[0])
        && model == Detached(old(model), bucket.level, bucket.slot)
        && Mirrors(list)
    {
      hide LooseEnds, FlagsShow, Bag, AllLevels, WheelOk, Tower, BucketsShow, HeapShows, LevelsShow, Inv, AllEntries;
      first, list := null, [];
      OkParts(now);
      bucket := PollTower(queue, now, tower, model.levels);
      if bucket != null {
        assert AfterPoll(bucket);
        first, list := AdvanceAndFlush(bucket);
      }
    }

    /** The body of the tick loop's walk: remember the next entry, unchain this one, and insert it. */
    method ReinsertHead(e: WheelEntry, ghost hand: seq<WheelEntry>, now: int) returns (next: WheelEntry?)
      requires hand != [] && e == hand[0]
      requires Mirrors(hand) && Inv(model, multiset(hand), now)
      modifies this`entries, this`fired, this`tower, this`model
      modifies queue`h, AllBuckets(tower), AllLevels(tower)`overflow
      modifies model.accepted`bucket, model.accepted`prev, model.accepted`next
      ensures next == if |hand| > 1 then hand[1] else null
      ensures model == WheelMachine.Insert(old(model), e, now)
      ensures Mirrors(hand[1..]) && Inv(model, multiset(hand[1..]), now)
      ensures model.accepted == old(model).accepted
      ensures NewOnly(old(tower), tower)
    {
      hide LooseEnds, FlagsShow, Bag, AllLevels, AllBuckets, AllEntries, WheelOk, Tower, Inv, Structure,
           WheelMachine.Insert;
      ghost var rest := hand[1..];
      HandParts(hand, now);
      Reachable(tower);
      InsertKeeps(model, e, multiset(rest), now);
      InsertAccepts(model, e, now);
      next := e.next;
      e.next := null;
      LooseTail(model.accepted, Bag(model.levels), hand);
      Insert(e, now, rest);
    }

    static lemma InsertAccepts(w: Wheel, e: WheelEntry, now: int)
      requires Inv(w, multiset{}, now) || Tower(w.levels, w.size)
      ensures Tower(w.levels, w.size) && WheelMachine.Insert(w, e, now).accepted == w.accepted
    {
      hide Route, RingOk, Conserved, IndexExact, FiredDue;
    }

    /** The entries in hand are accepted, not linked, and distinct. */
    lemma HandParts(hand: seq<WheelEntry>, now: int)
      requires hand != [] && Mirrors(hand) && Inv(model, multiset(hand), now)
      ensures multiset(hand) == multiset(hand[1..]) + multiset{hand[0]}
      ensures forall x :: x in hand ==> x in model.accepted && x !in Bag(model.levels)
      ensures hand[0] !in hand[1..] && hand[0] !in AllEntries(tower)
      ensures AllEntries(tower) <= model.accepted
      ensures Tower(model.levels, model.size)
      ensures hand[0].next == if |hand| > 1 then hand[1] else null
    {
      hide RingOk, FiredBag, Tower, FlagsShow;
      assert hand == [hand[0]] + hand[1..];
      var held := Bag(model.levels) + multiset(hand);
      forall x | x in hand ensures x in model.accepted && x !in Bag(model.levels) {
        assert x in multiset(hand) && x in held;
        assert held[x] + FiredBag(model.fired)[x] <= 1;
      }
      assert hand[0] !in hand[1..] by {
        assert held[hand[0]] <= 1 && multiset(hand)[hand[0]] <= 1;
        assert hand[0] in hand[1..] <==> hand[0] in multiset(hand[1..]);
      }
      EntriesInBag(tower, model.levels);
      forall x | x in AllEntries(tower) ensures x in model.accepted {
        assert x in held;
      }
    }

    static twostate lemma LooseTail(new accepted: set<WheelEntry>, new linked: multiset<WheelEntry>,
                                    new hand: seq<WheelEntry>)
      requires old(allocated(accepted)) && old(allocated(linked)) && old(allocated(hand))
      requires hand != [] && hand[0] !in hand[1..] && old(LooseEnds(accepted, linked, hand))
      requires hand[0].next == null && hand[0].bucket == old(hand[0].bucket) && hand[0].prev == old(hand[0].prev)
      requires forall x :: (x in accepted || x in hand) && x != hand[0] ==> unchanged(x)
      ensures LooseEnds(accepted, linked, hand[1..]) && hand[0].Unlinked()
    {
      var rest := hand[1..];
      assert hand[0] in hand;
      forall x | x in rest
        ensures x in hand && x != hand[0] && x.bucket == null && x.prev == null && x.next == old(x.next)
      {
        var j :| 0 <= j < |rest| && rest[j] == x;
        assert x == hand[j + 1] && x in hand;
        assert unchanged(x);
        assert old(x.bucket) == null && old(x.prev) == null;
      }
      forall j {:trigger rest[j].next} | 0 <= j < |rest|
        ensures rest[j].next == if j + 1 < |rest| then rest[j + 1] else null
      {
        assert rest[j] == hand[j + 1] && rest[j] in rest;
        assert old(hand[j + 1].next) == if j + 2 < |hand| then hand[j + 2] else null;
      }
      forall x | x in accepted && x !in linked && x !in rest ensures x.Unlinked() {
        if x != hand[0] {
          assert x !in hand;
          assert old(x.Unlinked());
        }
      }
    }

    /** One turn of the tick loop: take the earliest bucket if it has expired by `now`, move the clocks to it,
        flush it and re-insert its entries one by one. (k, i) is the slot it was made for. */
    method TickOnce(now: int) returns (progressed: bool, ghost k: int, ghost i: int)
      requires Valid(now)
      modifies this`entries, this`fired, this`tower, this`model
      modifies queue`h, AllBuckets(tower), AllLevels(tower)`overflow, AllLevels(tower)`currentTime
      modifies model.accepted`bucket, model.accepted`prev, model.accepted`next
      ensures Valid(now)
      ensures !progressed ==> model == old(model) && Blocked(model, now)
      ensures progressed ==> CanPop(old(model), k, i, now) && model == Tick(old(model), k, i, now)
      ensures model.accepted == old(model).accepted
      ensures NewOnly(old(tower), tower)
    {
      hide LooseEnds, FlagsShow, Bag, AllLevels, AllBuckets, AllEntries, WheelOk, Tower, Inv, Structure,
           WheelMachine.Insert, Detached, Tick, Reinsert, Blocked;
      ghost var w := model;
      k, i := 0, 0;
      var bucket, first;
      ghost var list;
      bucket, first, list := TakeEarliest(now);
      progressed := bucket != null;
      if bucket == null {
        return;
      }
      k, i := bucket.level, bucket.slot;
      DetachedKeeps(w, k, i, now);
      DetachedBooks(w, k, i, now);
      var e := first;
      ghost var n := 0;
      assert list[0..] == list;
      while e != null
        invariant 0 <= n <= |list|
        invariant e == if n < |list| then list[n] else null
        invariant Mirrors(list[n..]) && Inv(model, multiset(list[n..]), now)
        invariant WheelOk(model.levels, model.size) && Reinsert(model, list[n..], now) == Tick(w, k, i, now)
        invariant model.accepted == w.accepted
        invariant NewOnly(old(tower), tower)
        decreases |list| - n
      {
        ghost var hand := list[n..];
        assert hand[0] == e && hand[1..] == list[n + 1..];
        ReinsertStep(model, hand, now);
        e := ReinsertHead(e, hand, now);
        n := n + 1;
      }
      assert list[n..] == [];
      ReinsertNone(model, now);
    }

    static lemma DetachedBooks(w: Wheel, k: int, i: int, now: int)
      requires Inv(w, multiset{}, now) && Earliest(w.levels, k, i)
      ensures WheelOk(w.levels, w.size)
      ensures Detached(w, k, i).accepted == w.accepted
      ensures Reinsert(Detached(w, k, i), w.levels[k].ring[i].items, now) == Tick(w, k, i, now)
    {
    }

    static lemma ReinsertStep(w: Wheel, hand: seq<WheelEntry>, now: int)
      requires WheelOk(w.levels, w.size) && hand != []
      ensures var w' := WheelMachine.Insert(w, hand[0], now);
              WheelOk(w'.levels, w'.size) && Reinsert(w, hand, now) == Reinsert(w', hand[1..], now)
    {
      InsertOk(w, hand[0], now);
    }

    static lemma ReinsertNone(w: Wheel, now: int)
      requires WheelOk(w.levels, w.size)
      ensures Reinsert(w, [], now) == w
    {
    }

    /** What can be seen of w' is what the flat timers show after settling at `now` from w. */
    static ghost predicate Settled(w: Wheel, w': Wheel, now: int)
    {
      Tower(w.levels, w.size) && View(w') == FlatSettle(View(w), BaseTick(w), now)
    }

    static ghost predicate DrainsTo(w: Wheel, picks: seq<(int, int)>, now: int, w': Wheel)
    {
      WheelOk(w.levels, w.size) && Drains(w, picks, now, w')
    }

    /** The tick loop with the clock at `now`, run until it would block: every timer due at `now` has fired. */
    method Drain(now: int) returns (ghost picks: seq<(int, int)>)
      requires Valid(now)
      modifies this`entries, this`fired, this`tower, this`model
      modifies queue`h, AllBuckets(tower), AllLevels(tower)`overflow, AllLevels(tower)`currentTime
      modifies model.accepted`bucket, model.accepted`prev, model.accepted`next
      ensures Valid(now) && Blocked(model, now)
      ensures DrainsTo(old(model), picks, now, model)
      ensures Settled(old(model), model, now)
    {
      hide LooseEnds, FlagsShow, Bag, AllLevels, AllBuckets, WheelOk, Tower, Inv, Structure, Tick, Weight, Blocked;
      ghost var w := model;
      OkParts(now);
      picks := [];
      var progressed := true;
      while progressed
        invariant Valid(now) && model.accepted == w.accepted
        invariant NewOnly(old(tower), tower)
        invariant Ticks(w, picks, now, model)
        invariant !progressed ==> Blocked(model, now)
        decreases Weight(model.levels), progressed
      {
        ghost var before := model;
        OkParts(now);
        ghost var k, i;
        progressed, k, i := TickOnce(now);
        if progressed {
          OkParts(now);
          TicksOneMore(w, picks, now, before, k, i);
          picks := picks + [(k, i)];
        }
      }
      TicksDrain(w, picks, now, model);
      SettledNow(w, picks, now, model);
    }

    /** w' is w after processing the buckets `picks`, each the earliest and expired at `now`. */
    static ghost predicate Ticks(w: Wheel, picks: seq<(int, int)>, now: int, w': Wheel)
      decreases |picks|
    {
      WheelOk(w.levels, w.size) &&
      if picks == [] then w' == w
      else CanPop(w, picks[0].0, picks[0].1, now) && Ticks(Tick(w, picks[0].0, picks[0].1, now), picks[1..], now, w')
    }

    static lemma {:induction false} TicksOneMore(w: Wheel, picks: seq<(int, int)>, now: int, w': Wheel, k: int, i: int)
      requires Ticks(w, picks, now, w') && CanPop(w', k, i, now) && WheelOk(w'.levels, w'.size)
      requires WheelOk(Tick(w', k, i, now).levels, Tick(w', k, i, now).size)
      ensures Ticks(w, picks + [(k, i)], now, Tick(w', k, i, now))
      ensures Weight(Tick(w', k, i, now).levels) < Weight(w'.levels)
      decreases |picks|
    {
      hide Tick, WheelOk, Weight, Earliest;
      if picks == [] {
        assert Ticks(Tick(w', k, i, now), [], now, Tick(w', k, i, now));
        assert ([] + [(k, i)])[1..] == [];
        TickLighter(w', k, i, now);
      } else {
        TicksOneMore(Tick(w, picks[0].0, picks[0].1, now), picks[1..], now, w', k, i);
        assert (picks + [(k, i)])[1..] == picks[1..] + [(k, i)];
      }
    }

    static lemma TickLighter(w: Wheel, k: int, i: int, now: int)
      requires WheelOk(w.levels, w.size) && CanPop(w, k, i, now)
      ensures Weight(Tick(w, k, i, now).levels) < Weight(w.levels)
    {
      hide Tick, Weight;
      TickDemotes(w, k, i, now);
    }

    static lemma {:induction false} TicksDrain(w: Wheel, picks: seq<(int, int)>, now: int, w': Wheel)
      requires Ticks(w, picks, now, w') && Blocked(w', now)
      ensures DrainsTo(w, picks, now, w')
      decreases |picks|
    {
      hide Tick, WheelOk, Blocked;
      if picks != [] {
        TicksDrain(Tick(w, picks[0].0, picks[0].1, now), picks[1..], now, w');
        TickSizeHere(w, picks[0].0, picks[0].1, now);
      }
    }

    static lemma TickSizeHere(w: Wheel, k: int, i: int, now: int)
      requires WheelOk(w.levels, w.size) && CanPop(w, k, i, now)
      ensures Tick(w, k, i, now).size == w.size
    {
      TickSize(w, k, i, now);
    }

    static lemma SettledNow(w: Wheel, picks: seq<(int, int)>, now: int, w': Wheel)
      requires Inv(w, multiset{}, now) && DrainsTo(w, picks, now, w')
      ensures Settled(w, w', now)
    {
      DrainSettles(w, picks, now, w');
    }
  }
}
