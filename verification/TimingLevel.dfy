/** The levels of the hierarchy as linked objects. A ghost sequence `tower` lists them from the base up; the
    value tower `m` of WheelModel says what they hold. */
module TimingLevels {
  import opened Quantum
  import opened Buckets
  import opened DelayQueues
  import opened WheelModel

  /** Bucket b, made for slot i of level k, holds slot s. */
  ghost predicate BucketShows(b: WheelBucket, s: Slot, k: int, i: int)
    reads b`head, b`tail, b`items, b`expiration, b.items`bucket, b.items`prev, b.items`next
  {
    b.level == k && b.slot == i && b.Linked() && s == Slot(b.expiration, b.items)
  }

  ghost predicate LevelShows(l: TimingLevel, q: DelayQueue, m: Level, size: int, k: int)
    reads l`currentTime
  {
    && l.tickMs == m.tickMs && l.interval == m.interval && l.wheelSize == size
    && l.currentTime == m.currentTime
    && |l.buckets| == |m.ring| == size
    && l.queue == q && l.height == k
  }

  ghost predicate LevelsShow(tower: seq<TimingLevel>, q: DelayQueue, m: seq<Level>, size: int)
    reads tower`currentTime, tower`overflow
  {
    && |tower| == |m|
    && (forall k :: 0 <= k < |tower| ==> LevelShows(tower[k], q, m[k], size, k))
    && (forall k {:trigger tower[k].overflow} :: 0 <= k < |tower| ==>
          tower[k].overflow == if k + 1 < |tower| then tower[k + 1] else null)
  }

  ghost predicate BucketsShow(tower: seq<TimingLevel>, m: seq<Level>)
    reads AllBuckets(tower)`head, AllBuckets(tower)`tail, AllBuckets(tower)`items, AllBuckets(tower)`expiration
    reads AllEntries(tower)`bucket, AllEntries(tower)`prev, AllEntries(tower)`next
  {
    && |tower| == |m|
    && (forall k :: 0 <= k < |tower| ==> |tower[k].buckets| == |m[k].ring|)
    && forall k, i {:trigger tower[k].buckets[i]} ::
         0 <= k < |tower| && 0 <= i < |tower[k].buckets| ==>
           (EntriesOf(tower, k, i); BucketShows(tower[k].buckets[i], m[k].ring[i], k, i))
  }

  /** Everything a tower reaches is allocated, so a method call frames it. */
  lemma Reachable(tower: seq<TimingLevel>)
    ensures forall b :: b in AllBuckets(tower) ==> allocated(b)
    ensures forall e :: e in AllEntries(tower) ==> allocated(e)
  {
  }

  lemma EntriesOf(tower: seq<TimingLevel>, k: int, i: int)
    requires 0 <= k < |tower| && 0 <= i < |tower[k].buckets|
    ensures tower[k].buckets[i] in AllBuckets(tower)
    ensures forall e :: e in tower[k].buckets[i].items ==> e in AllEntries(tower)
  {
    assert tower[k].buckets[i] in AllBuckets(tower);
  }

  /** The heap is in order and holds exactly the non-empty buckets of the tower. */
  ghost predicate HeapShows(tower: seq<TimingLevel>, q: DelayQueue)
    reads q`h, q.h`heapIdx, q.h`expiration, AllBuckets(tower)`items, AllBuckets(tower)`heapIdx
  {
    && q.Valid()
    && (forall b :: b in q.h ==> InTower(tower, b))
    && (forall k, i {:trigger tower[k].buckets[i]} :: 0 <= k < |tower| && 0 <= i < |tower[k].buckets| ==>
          HeapMember(tower[k].buckets[i], q))
  }

  ghost predicate HeapMember(b: WheelBucket, q: DelayQueue)
    reads b`items, b`heapIdx, q`h
  {
    (b in q.h <==> b.items != []) && (b !in q.h ==> b.heapIdx == -1)
  }

  ghost predicate InTower(tower: seq<TimingLevel>, b: WheelBucket)
  {
    b.level < |tower| && b.slot < |tower[b.level].buckets| && tower[b.level].buckets[b.slot] == b
  }

  /** The objects spell out the value tower m. */
  ghost predicate Shows(tower: seq<TimingLevel>, q: DelayQueue, m: seq<Level>, size: int)
    reads tower`currentTime, tower`overflow, q`h, q.h`heapIdx, q.h`expiration
    reads AllBuckets(tower)`head, AllBuckets(tower)`tail, AllBuckets(tower)`items, AllBuckets(tower)`expiration
    reads AllBuckets(tower)`heapIdx, AllEntries(tower)`bucket, AllEntries(tower)`prev, AllEntries(tower)`next
  {
    LevelsShow(tower, q, m, size) && BucketsShow(tower, m) && HeapShows(tower, q)
  }

  ghost function AllBuckets(tower: seq<TimingLevel>): set<WheelBucket>
  {
    set k, i | 0 <= k < |tower| && 0 <= i < |tower[k].buckets| :: tower[k].buckets[i]
  }

  ghost function AllLevels(tower: seq<TimingLevel>): set<TimingLevel>
  {
    set l | l in tower
  }

  ghost function AllEntries(tower: seq<TimingLevel>): set<WheelEntry>
    reads AllBuckets(tower)`items
  {
    set b, e | b in AllBuckets(tower) && e in b.items :: e
  }

  /** Levels and buckets of the taller tower that the lower one lacks are newly allocated. */
  twostate predicate NewOnly(before: seq<TimingLevel>, new after: seq<TimingLevel>)
  {
    && (forall l :: l in AllLevels(after) ==> l in AllLevels(before) || !old(allocated(l)))
    && (forall b :: b in AllBuckets(after) ==> b in AllBuckets(before) || !old(allocated(b)))
  }

  class TimingLevel {
    const tickMs: int
    const wheelSize: int
    const interval: int
    const buckets: seq<WheelBucket>
    const queue: DelayQueue
    var currentTime: int
    var overflow: TimingLevel?
    /** Position in the tower, the base level being 0. */
    ghost const height: nat

    constructor (tickMs: int, wheelSize: int, startMs: int, q: DelayQueue, ghost height: nat)
      requires tickMs > 0 && wheelSize >= 2
      ensures this.tickMs == tickMs && this.wheelSize == wheelSize && interval == tickMs * wheelSize
      ensures currentTime == Floor(startMs, tickMs) && overflow == null
      ensures queue == q && this.height == height
      ensures |buckets| == wheelSize
      ensures forall i :: 0 <= i < |buckets| ==>
                fresh(buckets[i]) && buckets[i].heapIdx == -1 && BucketShows(buckets[i], EMPTY, height, i)
    {
      this.tickMs, this.wheelSize, this.interval := tickMs, wheelSize, tickMs * wheelSize;
      this.height, queue := height, q;
      currentTime := Floor(startMs, tickMs);
      overflow := null;
      var ring: seq<WheelBucket> := [];
      while |ring| < wheelSize
        invariant |ring| <= wheelSize
        invariant forall i :: 0 <= i < |ring| ==>
                    fresh(ring[i]) && ring[i].heapIdx == -1 && BucketShows(ring[i], EMPTY, height, i)
      {
        var b := new WheelBucket(height, |ring|);
        ring := ring + [b];
      }
      buckets := ring;
    }

    /** Append an entry to a bucket of the tower; the heap is not touched. */
    static method Link(bucket: WheelBucket, e: WheelEntry, bucketExp: int,
                       ghost tower: seq<TimingLevel>, ghost m: seq<Level>) returns (changed: bool)
      requires BucketsShow(tower, m) && InTower(tower, bucket)
      requires e.Unlinked()
      modifies bucket`expiration, bucket`head, bucket`tail, bucket`items
      modifies e`bucket, e`prev, AllEntries(tower)`next
      ensures var k, i := bucket.level, bucket.slot;
              && bucket.items == old(bucket.items) + [e] && bucket.expiration == bucketExp
              && k < |m| && i < |m[k].ring|
              && BucketsShow(tower, m[k := m[k].(ring := m[k].ring[i := Slot(bucketExp, m[k].ring[i].items + [e])])])
      ensures changed <==> old(bucket.expiration) != bucketExp
    {
      ghost var k, i := bucket.level, bucket.slot;
      assert BucketShows(bucket, m[k].ring[i], k, i);
      ghost var m' := m[k := m[k].(ring := m[k].ring[i := Slot(bucketExp, m[k].ring[i].items + [e])])];
      assert bucket.tail != null ==> bucket.tail.bucket == bucket;
      assert forall a, c {:trigger tower[a].buckets[c]} :: 0 <= a < |tower| && 0 <= c < |tower[a].buckets| ==>
        tower[a].buckets[c].Linked() && tower[a].buckets[c].level == a && tower[a].buckets[c].slot == c;
      if bucket.tail != null {
        assert bucket.tail == bucket.items[|bucket.items| - 1] && bucket in AllBuckets(tower);
        assert bucket.tail in bucket.items;
        assert bucket.tail in AllEntries(tower);
      }
      changed := bucket.Add(e, bucketExp);
      forall a, c {:trigger tower[a].buckets[c]} | 0 <= a < |tower| && 0 <= c < |tower[a].buckets|
        ensures BucketShows(tower[a].buckets[c], m'[a].ring[c], a, c)
      {
        var b := tower[a].buckets[c];
        assert old(BucketShows(b, m[a].ring[c], a, c));
        if b != bucket {
          assert forall x :: x in b.items ==> old(x.bucket) == b;
        }
      }
      assert BucketsShow(tower, m');
    }
  
    /** Offer a bucket that just became non-empty. */
    static method Register(q: DelayQueue, bucket: WheelBucket, ghost tower: seq<TimingLevel>)
      requires q.Valid() && (forall b :: b in q.h ==> InTower(tower, b)) && InTower(tower, bucket)
      requires bucket !in q.h && bucket.heapIdx == -1 && bucket.items != []
      requires forall k, i {:trigger tower[k].buckets[i]} :: 0 <= k < |tower| && 0 <= i < |tower[k].buckets| ==>
                 tower[k].buckets[i] == bucket || HeapMember(tower[k].buckets[i], q)
      modifies q`h, q.Members()`heapIdx, bucket`heapIdx
      ensures HeapShows(tower, q)
    {
      q.Offer(bucket);
      forall x ensures x in q.h <==> x in old(q.h) || x == bucket {
        assert x in q.h <==> x in multiset(q.h);
        assert x in old(q.h) <==> x in multiset(old(q.h));
      }
    }

    /** Append an entry to a bucket and put the bucket on the heap if it was empty. */
    static method Place(q: DelayQueue, bucket: WheelBucket, e: WheelEntry, bucketExp: int,
                        ghost tower: seq<TimingLevel>, ghost m: seq<Level>)
      requires BucketsShow(tower, m) && HeapShows(tower, q) && InTower(tower, bucket)
      requires e.Unlinked()
      requires bucket.items != [] ==> bucket.expiration == bucketExp
      requires bucket.items == [] ==> bucket.expiration == -1 != bucketExp
      modifies q`h, AllBuckets(tower), e`bucket, e`prev, AllEntries(tower)`next
      ensures var k, i := bucket.level, bucket.slot;
              && k < |m| && i < |m[k].ring| && m[k].ring[i].items == old(bucket.items)
              && BucketsShow(tower, m[k := m[k].(ring := m[k].ring[i := Slot(bucketExp, m[k].ring[i].items + [e])])])
              && HeapShows(tower, q)
    {
      hide AllEntries, BucketShows;
      MembersInTower(tower, q);
      assert BucketShows(tower[bucket.level].buckets[bucket.slot], m[bucket.level].ring[bucket.slot],
                         bucket.level, bucket.slot);
      assert HeapMember(tower[bucket.level].buckets[bucket.slot], q);
      SlotItems(bucket, m[bucket.level].ring[bucket.slot], bucket.level, bucket.slot);
      var changed := Link(bucket, e, bucketExp, tower, m);
      if changed {
        Register(q, bucket, tower);
      }
    }

    /** The bucket and boundary an entry that fits in this level goes to. */
    method Target(e: WheelEntry, ghost l: Level, ghost base: int, ghost size: int)
      returns (bucket: WheelBucket, bucketExp: int, ghost i: int)
      requires tickMs == l.tickMs && wheelSize == size == |l.ring| == |buckets|
      requires Shape(l, size) && size >= 2 && RingOk(l, base)
      requires l.currentTime % l.tickMs == 0
      requires 0 <= l.currentTime <= base < l.currentTime + l.tickMs
      requires l.currentTime + l.tickMs <= e.expirationMs < l.currentTime + l.interval
      ensures 0 <= i < size && bucket == buckets[i] && bucketExp > base
      ensures l.ring[i].items == [] || l.ring[i].expiration == bucketExp
      ensures l.ring[i].items == [] ==> l.ring[i].expiration == -1
      ensures Put(l, e) == l.(ring := l.ring[i := Slot(bucketExp, l.ring[i].items + [e])])
    {
      ghost var boundary;
      i, boundary := PutSlot(l, size, base, e);
      assert SlotOk(l, base, i);
      var virtualId := e.expirationMs / tickMs;
      bucket := buckets[virtualId % wheelSize];
      bucketExp := virtualId * tickMs;
    }

    /** The branch of `add` in which the entry fits in this level. */
    method AddHere(e: WheelEntry, ghost tower: seq<TimingLevel>, ghost m: seq<Level>, ghost size: int)
      requires Shows(tower, queue, m, size) && WheelOk(m, size)
      requires height < |tower| && tower[height] == this
      requires e.Unlinked()
      requires currentTime + tickMs <= e.expirationMs < currentTime + interval
      modifies queue`h, AllBuckets(tower), e`bucket, e`prev, AllEntries(tower)`next
      ensures Shows(tower, queue, m[height := Put(m[height], e)], size)
    {
      hide Put, WheelOk, Tower, RingOk, Shape, AllEntries, AllBuckets, BucketsShow, HeapShows, LevelsShow, InTower;
      LevelOf(tower, queue, m, size, height);
      LevelFacts(m, size, height);
      Reachable(tower);
      ghost var l := m[height];
      var bucket, bucketExp, i := Target(e, l, m[0].currentTime, size);
      BucketOf(tower, m, height, i);
      Place(queue, bucket, e, bucketExp, tower, m);
      NewRing(tower, queue, m, size, height, Put(l, e));
    }
  
    /** The overflow level, allocated on first use one full turn per slot. */
    method Overflow(ghost tower: seq<TimingLevel>, ghost m: seq<Level>, ghost size: int)
      returns (ov: TimingLevel, ghost tower': seq<TimingLevel>, ghost m': seq<Level>)
      requires Shows(tower, queue, m, size) && WheelOk(m, size)
      requires height < |tower| && tower[height] == this
      modifies AllLevels(tower)`overflow
      ensures Shows(tower', queue, m', size) && WheelOk(m', size) && m' == Grow(m, size, height)
      ensures height + 1 < |tower'| && tower'[height + 1] == ov && tower <= tower'
      ensures ov.height == height + 1 && ov.queue == queue
      ensures AllEntries(tower') == old(AllEntries(tower))
      ensures NewOnly(tower, tower')
    {
      assert LevelShows(this, queue, m[height], size, height);
      LevelFacts(m, size, height);
      GrowKeeps(m, size, height);
      m' := Grow(m, size, height);
      if overflow == null {
        assert height + 1 == |tower| && Shape(m[height], size);
        ov, tower' := AddTop(tower, m, m', size);
      } else {
        ov, tower' := overflow, tower;
      }
    }

    method AddTop(ghost tower: seq<TimingLevel>, ghost m: seq<Level>, ghost m': seq<Level>, ghost size: int)
      returns (ov: TimingLevel, ghost tower': seq<TimingLevel>)
      requires Shows(tower, queue, m, size) && size >= 2 && wheelSize == size
      requires tower != [] && tower[|tower| - 1] == this && height == |tower| - 1
      requires tickMs > 0 && interval == tickMs * size && m' == m + [NewLevel(interval, size, currentTime)]
      modifies this`overflow
      ensures Shows(tower', queue, m', size)
      ensures fresh(ov) && tower' == tower + [ov] && ov.height == height + 1 && ov.queue == queue
      ensures NewOnly(tower, tower')
      ensures AllEntries(tower') == old(AllEntries(tower))
    {
      hide BucketsShow, HeapShows, AllEntries, BucketShows;
      IntervalGrows(tickMs, size);
      Reachable(tower);
      ov := new TimingLevel(interval, wheelSize, currentTime, queue, height + 1);
      tower' := tower + [ov];
      TallerBuckets(tower, ov, queue, m, m'[height + 1], size);
      SameEntries(tower, ov);
      overflow := ov;
      assert LevelsShow(tower', queue, m', size);
    }

    /** `advanceClock`: move this level's clock to the boundary of `timeMs`, then the overflow level's. */
    method AdvanceClock(timeMs: int, ghost tower: seq<TimingLevel>, ghost m: seq<Level>, ghost size: int)
      requires LevelsShow(tower, queue, m, size)
      requires height < |tower| && tower[height] == this
      requires forall j :: 0 <= j < |m| ==> m[j].tickMs > 0
      modifies AllLevels(tower)`currentTime
      ensures LevelsShow(tower, queue, Advance(m, height, timeMs), size)
      decreases |tower| - height
    {
      assert LevelShows(this, queue, m[height], size, height);
      if timeMs >= currentTime + tickMs {
        var newCurr := Floor(timeMs, tickMs);
        currentTime := newCurr;
        ghost var moved := m[height := m[height].(currentTime := newCurr)];
        assert overflow == if height + 1 < |tower| then tower[height + 1] else null;
        forall k | 0 <= k < |tower| ensures LevelShows(tower[k], queue, moved[k], size, k) {
          assert old(LevelShows(tower[k], queue, m[k], size, k));
        }
        if overflow != null {
          assert LevelShows(overflow, queue, moved[height + 1], size, height + 1);
          overflow.AdvanceClock(newCurr, tower, moved, size);
        }
      }
    }

    /** `add`: false means the entry is already due and nothing was linked. */
    method Add(e: WheelEntry, ghost tower: seq<TimingLevel>, ghost m: seq<Level>, ghost size: int)
      returns (ok: bool, ghost tower': seq<TimingLevel>)
      requires Shows(tower, queue, m, size) && WheelOk(m, size)
      requires height < |tower| && tower[height] == this
      requires height > 0 ==> m[height - 1].currentTime + m[height - 1].interval <= e.expirationMs
      requires e.Unlinked()
      modifies queue`h, AllBuckets(tower), AllLevels(tower)`overflow, e`bucket, e`prev, AllEntries(tower)`next
      ensures e.cancelled ==> ok && tower' == tower && Shows(tower, queue, m, size) && e.Unlinked()
      ensures !e.cancelled ==>
        && ok == Route(m, size, height, e).ok
        && Shows(tower', queue, Route(m, size, height, e).levels, size)
        && (!ok ==> e.Unlinked())
      ensures tower <= tower'
      ensures NewOnly(tower, tower')
      decreases e.expirationMs - (m[height].currentTime + m[height].interval), 1
    {
      tower' := tower;
      LevelOf(tower, queue, m, size, height);
      if e.cancelled {
        return true, tower;
      }
      if e.expirationMs < currentTime + tickMs {
        return false, tower;
      }
      if e.expirationMs < currentTime + interval {
        AddHere(e, tower, m, size);
        return true, tower;
      }
      ok, tower' := Escalate(e, tower, m, size);
    }

    /** The branch of `add` beyond this level's span: hand the entry to the overflow level. */
    method Escalate(e: WheelEntry, ghost tower: seq<TimingLevel>, ghost m: seq<Level>, ghost size: int)
      returns (ok: bool, ghost tower': seq<TimingLevel>)
      requires Shows(tower, queue, m, size) && WheelOk(m, size)
      requires height < |tower| && tower[height] == this
      requires m[height].currentTime + m[height].interval <= e.expirationMs
      requires e.Unlinked() && !e.cancelled
      modifies queue`h, AllBuckets(tower), AllLevels(tower)`overflow, e`bucket, e`prev, AllEntries(tower)`next
      ensures ok == Route(m, size, height, e).ok
      ensures Shows(tower', queue, Route(m, size, height, e).levels, size)
      ensures !ok ==> e.Unlinked()
      ensures tower <= tower'
      ensures NewOnly(tower, tower')
      decreases e.expirationMs - (m[height].currentTime + m[height].interval), 0
    {
      hide RingOk, Shape, AllEntries, AllBuckets, BucketsShow, HeapShows, LevelsShow, InTower, StackedAt, Put;
      LevelOf(tower, queue, m, size, height);
      LevelFacts(m, size, height);
      PositiveTick(m, size, height);
      var ov;
      ghost var taller;
      ov, tower', taller := Overflow(tower, m, size);
      SpanGrows(taller, size, height);
      ok, tower' := ov.Add(e, tower', taller, size);
    }
  }

  lemma PositiveTick(m: seq<Level>, size: int, k: int)
    requires WheelOk(m, size) && 0 <= k < |m|
    ensures 0 < m[k].tickMs <= m[k].interval
  {
    assert Shape(m[k], size);
    IntervalGrows(m[k].tickMs, size);
  }

  lemma TallerBuckets(tower: seq<TimingLevel>, top: TimingLevel, q: DelayQueue, m: seq<Level>, l: Level, size: int)
    requires BucketsShow(tower, m) && HeapShows(tower, q)
    requires |top.buckets| == |l.ring|
    requires forall i :: 0 <= i < |l.ring| ==> l.ring[i] == EMPTY
    requires forall i {:trigger top.buckets[i]} :: 0 <= i < |top.buckets| ==>
               top.buckets[i] !in q.h && top.buckets[i].heapIdx == -1 && BucketShows(top.buckets[i], EMPTY, |tower|, i)
    ensures BucketsShow(tower + [top], m + [l]) && HeapShows(tower + [top], q)
  {
    var tower', m' := tower + [top], m + [l];
    forall k, i {:trigger tower'[k].buckets[i]} | 0 <= k < |tower'| && 0 <= i < |tower'[k].buckets|
      ensures BucketShows(tower'[k].buckets[i], m'[k].ring[i], k, i) && HeapMember(tower'[k].buckets[i], q)
    {
      if k < |tower| {
        assert BucketShows(tower[k].buckets[i], m[k].ring[i], k, i) && HeapMember(tower[k].buckets[i], q);
      }
    }
  }

  lemma SameEntries(tower: seq<TimingLevel>, top: TimingLevel)
    requires forall i {:trigger top.buckets[i]} :: 0 <= i < |top.buckets| ==>
               BucketShows(top.buckets[i], EMPTY, |tower|, i)
    ensures AllEntries(tower + [top]) == AllEntries(tower)
    ensures AllBuckets(tower + [top]) == AllBuckets(tower) + set b | b in top.buckets
  {
    var taller := tower + [top];
    forall b | b in AllBuckets(taller) ensures b in AllBuckets(tower) || b in top.buckets {
      var k, i :| 0 <= k < |taller| && 0 <= i < |taller[k].buckets| && taller[k].buckets[i] == b;
      if k < |tower| {
        assert tower[k].buckets[i] == b;
      } else {
        assert top.buckets[i] == b;
      }
    }
    forall b | b in AllBuckets(tower) ensures b in AllBuckets(taller) {
      var k, i :| 0 <= k < |tower| && 0 <= i < |tower[k].buckets| && tower[k].buckets[i] == b;
      assert taller[k].buckets[i] == b;
    }
    forall b | b in top.buckets ensures b in AllBuckets(taller) {
      var i :| 0 <= i < |top.buckets| && top.buckets[i] == b;
      assert taller[|tower|].buckets[i] == b;
    }
  }

  lemma LevelOf(tower: seq<TimingLevel>, q: DelayQueue, m: seq<Level>, size: int, k: int)
    requires LevelsShow(tower, q, m, size) && 0 <= k < |tower|
    ensures |tower| == |m| && LevelShows(tower[k], q, m[k], size, k)
    ensures tower[k].overflow == if k + 1 < |tower| then tower[k + 1] else null
  {
  }

  lemma LevelFacts(m: seq<Level>, size: int, k: int)
    requires WheelOk(m, size) && 0 <= k < |m|
    ensures size >= 2 && Shape(m[k], size) && RingOk(m[k], m[0].currentTime)
    ensures 0 <= m[k].currentTime <= m[0].currentTime < m[k].currentTime + m[k].tickMs
    ensures m[k].currentTime % m[k].tickMs == 0
  {
    OneClock(m, size, k);
  }

  lemma BucketOf(tower: seq<TimingLevel>, m: seq<Level>, k: int, i: int)
    requires BucketsShow(tower, m) && 0 <= k < |tower| && 0 <= i < |m[k].ring|
    ensures i < |tower[k].buckets|
    ensures var b := tower[k].buckets[i];
            InTower(tower, b) && m[k].ring[i] == Slot(b.expiration, b.items) && b.level == k && b.slot == i
  {
    assert BucketShows(tower[k].buckets[i], m[k].ring[i], k, i);
  }

  lemma NewRing(tower: seq<TimingLevel>, q: DelayQueue, m: seq<Level>, size: int, k: int, l: Level)
    requires LevelsShow(tower, q, m, size) && 0 <= k < |m|
    requires l == m[k].(ring := l.ring) && |l.ring| == size
    ensures LevelsShow(tower, q, m[k := l], size)
  {
  }

  lemma SlotItems(b: WheelBucket, s: Slot, k: int, i: int)
    requires BucketShows(b, s, k, i)
    ensures s.items == b.items && s.expiration == b.expiration && b.level == k && b.slot == i
  {
  }

  lemma MembersInTower(tower: seq<TimingLevel>, q: DelayQueue)
    requires HeapShows(tower, q)
    ensures q.Members() <= AllBuckets(tower)
  {
  }

  // ---------- The heap and the tower ----------

  /** One turn of the poller over the tower: the bucket of the earliest live slot of any level, taken off the
      heap, or null when every live slot expires after `now`. */
  method PollTower(q: DelayQueue, now: int, ghost tower: seq<TimingLevel>, ghost m: seq<Level>)
    returns (got: WheelBucket?)
    requires BucketsShow(tower, m) && HeapShows(tower, q)
    modifies q`h, AllBuckets(tower)`heapIdx
    ensures BucketsShow(tower, m)
    ensures got == null ==> HeapShows(tower, q)
    ensures got == null ==> forall k, i :: Live(m, k, i) ==> now < m[k].ring[i].expiration
    ensures got != null ==>
      && InTower(tower, got) && Polled(tower, q, got)
      && Earliest(m, got.level, got.slot)
      && m[got.level].ring[got.slot] == Slot(got.expiration, got.items)
      && got.expiration <= now
  {
    LiveOnHeap(tower, q, m);
    Reachable(tower);
    hide BucketsShow, HeapShows, Live, Earliest, InTower, AllBuckets, AllEntries, Polled;
    ghost var before := q.h;
    got := PollHeap(q, now, tower);
    if got != null {
      InTowerBucket(tower, m, got);
      LeastIsEarliest(tower, before, m, got);
    }
  }

  method PollHeap(q: DelayQueue, now: int, ghost tower: seq<TimingLevel>) returns (got: WheelBucket?)
    requires HeapShows(tower, q)
    modifies q`h, AllBuckets(tower)`heapIdx
    ensures got == null ==> HeapShows(tower, q) && forall x :: x in old(q.h) ==> now < x.expiration
    ensures got != null ==>
      && got in old(q.h) && got.expiration <= now
      && InTower(tower, got) && Polled(tower, q, got)
      && forall x :: x in old(q.h) ==> got.expiration <= x.expiration
  {
    MembersInTower(tower, q);
    HeapParts(tower, q);
    hide HeapShows, InTower, AllBuckets;
    got := q.Poll(now);
    if got == null {
      SameHeap(tower, q);
    }
  }

  lemma LeastIsEarliest(tower: seq<TimingLevel>, h: seq<WheelBucket>, m: seq<Level>, b: WheelBucket)
    requires BucketsShow(tower, m) && b in h && InTower(tower, b)
    requires forall x :: x in h ==> b.expiration <= x.expiration
    requires forall k, i :: Live(m, k, i) ==> |tower| > k && |tower[k].buckets| > i && tower[k].buckets[i] in h
    requires forall x :: x in h ==> Live(m, x.level, x.slot)
    ensures Earliest(m, b.level, b.slot)
  {
    InTowerBucket(tower, m, b);
    forall k, i | Live(m, k, i) ensures m[b.level].ring[b.slot].expiration <= m[k].ring[i].expiration {
      assert BucketShows(tower[k].buckets[i], m[k].ring[i], k, i);
    }
  }

  lemma HeapParts(tower: seq<TimingLevel>, q: DelayQueue)
    requires HeapShows(tower, q)
    ensures q.Valid()
    ensures forall b :: b in q.h ==> InTower(tower, b)
    ensures forall k, i {:trigger tower[k].buckets[i]} :: 0 <= k < |tower| && 0 <= i < |tower[k].buckets| ==>
              HeapMember(tower[k].buckets[i], q)
  {
  }

  lemma SameHeap(tower: seq<TimingLevel>, q: DelayQueue)
    requires q.Valid()
    requires forall b :: b in q.h ==> InTower(tower, b)
    requires forall k, i {:trigger tower[k].buckets[i]} :: 0 <= k < |tower| && 0 <= i < |tower[k].buckets| ==>
               HeapMember(tower[k].buckets[i], q)
    ensures HeapShows(tower, q)
  {
  }

  lemma InTowerBucket(tower: seq<TimingLevel>, m: seq<Level>, b: WheelBucket)
    requires BucketsShow(tower, m) && InTower(tower, b)
    ensures b.level < |m| && b.slot < |m[b.level].ring| && m[b.level].ring[b.slot] == Slot(b.expiration, b.items)
  {
    assert BucketShows(tower[b.level].buckets[b.slot], m[b.level].ring[b.slot], b.level, b.slot);
  }

  /** The heap shows the tower except that non-empty bucket b was taken off it. */
  ghost predicate Polled(tower: seq<TimingLevel>, q: DelayQueue, b: WheelBucket)
    reads q`h, q.h`heapIdx, q.h`expiration, AllBuckets(tower)`items, AllBuckets(tower)`heapIdx, b`heapIdx
  {
    && q.Valid() && b !in q.h && b.heapIdx == -1
    && (forall x :: x in q.h ==> InTower(tower, x))
    && (forall k, i {:trigger tower[k].buckets[i]} :: 0 <= k < |tower| && 0 <= i < |tower[k].buckets| ==>
          tower[k].buckets[i] == b || HeapMember(tower[k].buckets[i], q))
  }

  lemma LiveOnHeap(tower: seq<TimingLevel>, q: DelayQueue, m: seq<Level>)
    requires BucketsShow(tower, m) && HeapShows(tower, q)
    ensures forall k, i :: Live(m, k, i) ==>
              && |tower| > k && |tower[k].buckets| > i
              && tower[k].buckets[i] in q.h && tower[k].buckets[i].expiration == m[k].ring[i].expiration
    ensures forall b :: b in q.h ==> Live(m, b.level, b.slot)
  {
    forall k, i | Live(m, k, i)
      ensures |tower| > k && |tower[k].buckets| > i
      ensures tower[k].buckets[i] in q.h && tower[k].buckets[i].expiration == m[k].ring[i].expiration
    {
      assert BucketShows(tower[k].buckets[i], m[k].ring[i], k, i) && HeapMember(tower[k].buckets[i], q);
    }
    forall b | b in q.h ensures Live(m, b.level, b.slot) {
      assert InTower(tower, b);
      assert BucketShows(tower[b.level].buckets[b.slot], m[b.level].ring[b.slot], b.level, b.slot)
          && HeapMember(tower[b.level].buckets[b.slot], q);
    }
  }

  /** Flush a polled bucket: its slot is empty, and its entries come back in order, chained by `next`. */
  method Detach(q: DelayQueue, bucket: WheelBucket, ghost tower: seq<TimingLevel>, ghost m: seq<Level>)
    returns (first: WheelEntry?)
    requires BucketsShow(tower, m) && InTower(tower, bucket) && Polled(tower, q, bucket)
    modifies bucket`expiration, bucket`head, bucket`tail, bucket`items, bucket.items`bucket, bucket.items`prev
    ensures HeapShows(tower, q)
    ensures var k, i, list := bucket.level, bucket.slot, old(bucket.items);
            && k < |m| && i < |m[k].ring|
            && BucketsShow(tower, Emptied(m, k, i))
            && first == (if list == [] then null else list[0])
            && Chained(list)
            && forall e :: e in list ==> e.bucket == null && e.prev == null
  {
    hide AllEntries, Chained, BackChained;
    ghost var k, i := bucket.level, bucket.slot;
    assert BucketShows(bucket, m[k].ring[i], k, i);
    ghost var m' := Emptied(m, k, i);
    assert forall a, c {:trigger tower[a].buckets[c]} :: 0 <= a < |tower| && 0 <= c < |tower[a].buckets| ==>
      tower[a].buckets[c].Linked() && tower[a].buckets[c].level == a && tower[a].buckets[c].slot == c;
    assert forall x :: x in bucket.items ==> x.bucket == bucket;
    first := bucket.Flush();
    forall a, c {:trigger tower[a].buckets[c]} | 0 <= a < |tower| && 0 <= c < |tower[a].buckets|
      ensures BucketShows(tower[a].buckets[c], m'[a].ring[c], a, c)
    {
      var b := tower[a].buckets[c];
      assert old(BucketShows(b, m[a].ring[c], a, c));
      if b != bucket {
        assert forall x :: x in b.items ==> old(x.bucket) == b;
      }
    }
    assert BucketsShow(tower, m');
  }

  lemma SameRingsShow(tower: seq<TimingLevel>, m: seq<Level>, m': seq<Level>)
    requires BucketsShow(tower, m) && SameRings(m, m')
    ensures BucketsShow(tower, m')
  {
    forall k | 0 <= k < |m| ensures m'[k].ring == m[k].ring {
      assert m'[k] == m[k].(currentTime := m'[k].currentTime);
    }
    forall k, i {:trigger tower[k].buckets[i]} | 0 <= k < |tower| && 0 <= i < |tower[k].buckets|
      ensures BucketShows(tower[k].buckets[i], m'[k].ring[i], k, i)
    {
      assert BucketShows(tower[k].buckets[i], m[k].ring[i], k, i);
    }
  }

  /** Whatever is linked in the tower is linked in the value, and points back to its bucket. */
  lemma EntriesInBag(tower: seq<TimingLevel>, m: seq<Level>)
    requires BucketsShow(tower, m)
    ensures forall e :: e in AllEntries(tower) ==> e in Bag(m) && e.bucket != null
  {
    forall e | e in AllEntries(tower) ensures e in Bag(m) && e.bucket != null {
      var b :| b in AllBuckets(tower) && e in b.items;
      var k, i :| 0 <= k < |tower| && 0 <= i < |tower[k].buckets| && tower[k].buckets[i] == b;
      assert BucketShows(b, m[k].ring[i], k, i);
      BagHas(m, k, i, e);
    }
  }
}
