/** Timer entries and the intrusive doubly linked list of one wheel slot. */
module Buckets {

  class WheelEntry {
    const expirationMs: int
    const taskID: string
    var bucket: WheelBucket?
    var prev: WheelEntry?
    var next: WheelEntry?
    var cancelled: bool

    constructor (expirationMs: int, taskID: string)
      ensures this.expirationMs == expirationMs && this.taskID == taskID
      ensures Unlinked() && !cancelled
    {
      this.expirationMs := expirationMs;
      this.taskID := taskID;
      bucket, prev, next, cancelled := null, null, null, false;
    }

    ghost predicate Unlinked()
      reads this`bucket, this`prev, this`next
    {
      bucket == null && prev == null && next == null
    }
  }

  class WheelBucket {
    var expiration: int
    var head: WheelEntry?
    var tail: WheelEntry?
    var heapIdx: int

    /** Which ring position the bucket was made for. */
    ghost const level: nat
    ghost const slot: nat
    /** The entries in list order. */
    ghost var items: seq<WheelEntry>

    constructor (ghost level: nat, ghost slot: nat)
      ensures this.level == level && this.slot == slot
      ensures Linked() && items == [] && expiration == -1 && heapIdx == -1
    {
      this.level, this.slot := level, slot;
      expiration, heapIdx := -1, -1;
      head, tail, items := null, null, [];
    }

    /** head, tail, prev, next and the entries' back-pointers spell out exactly `items`. */
    ghost predicate Linked()
      reads this`head, this`tail, this`items, items`bucket, items`prev, items`next
    {
      && head == (if items == [] then null else items[0])
      && tail == (if items == [] then null else items[|items| - 1])
      && (forall j :: 0 <= j < |items| ==> items[j].bucket == this)
      && Chained(items)
      && BackChained(items)
      && (forall i, j :: 0 <= i < j < |items| ==> items[i] != items[j])
    }

    /** Append at the tail; the result says whether the bucket must be offered to the delay queue. */
    method Add(e: WheelEntry, bucketExp: int) returns (changed: bool)
      requires Linked() && e.Unlinked()
      modifies this`expiration, this`head, this`tail, this`items, e`bucket, e`prev
      modifies (if tail == null then {} else {tail})`next
      ensures Linked()
      ensures items == old(items) + [e]
      ensures expiration == bucketExp
      ensures changed <==> old(expiration) != bucketExp
    {
      assert e !in items;
      e.bucket := this;
      if tail == null {
        head := e;
      } else {
        e.prev := tail;
        tail.next := e;
      }
      tail := e;
      var previous := expiration;
      expiration := bucketExp;
      items := items + [e];
      return previous != bucketExp;
    }

    /** Detach the whole list: it comes back in order, chained by `next` only, and the bucket is empty. */
    method Flush() returns (first: WheelEntry?)
      requires Linked()
      modifies this`expiration, this`head, this`tail, this`items, items`bucket, items`prev
      ensures Linked() && items == [] && expiration == -1
      ensures first == if old(items) == [] then null else old(items)[0]
      ensures Chained(old(items))
      ensures forall j :: 0 <= j < |old(items)| ==> old(items)[j].bucket == null && old(items)[j].prev == null
    {
      first := head;
      ghost var list := items;
      head, tail, expiration, items := null, null, -1, [];
      var e := first;
      ghost var n := 0;
      while e != null
        invariant 0 <= n <= |list|
        invariant head == null && tail == null && expiration == -1 && items == []
        invariant e == if n < |list| then list[n] else null
        invariant Chained(list)
        invariant forall j :: 0 <= j < n ==> list[j].bucket == null && list[j].prev == null
        decreases |list| - n
      {
        assert list[n].next == if n + 1 < |list| then list[n + 1] else null;
        e.bucket := null;
        e.prev := null;
        e := e.next;
        n := n + 1;
      }
    }
  }

  /** Each entry's `next` is the following entry of the sequence. */
  ghost predicate Chained(list: seq<WheelEntry>)
    reads list`next
  {
    forall j {:trigger list[j].next} :: 0 <= j < |list| ==> list[j].next == if j + 1 < |list| then list[j + 1] else null
  }

  /** Each entry's `prev` is the entry before it. */
  ghost predicate BackChained(list: seq<WheelEntry>)
    reads list`prev
  {
    && (list != [] ==> list[0].prev == null)
    && forall j {:trigger list[j].prev} :: 1 <= j < |list| ==> list[j].prev == list[j - 1]
  }
}
