/** The order of a binary min-heap laid out in a sequence of keys. */
module HeapOrder {

  function Parent(j: int): int
  {
    if j <= 0 then 0 else (j - 1) / 2
  }

  /** Heap order on the first n positions. */
  ghost predicate OrderedTo(k: seq<int>, n: int)
    requires n <= |k|
  {
    forall j :: 1 <= j < n ==> k[Parent(j)] <= k[j]
  }

  /** Heap order except between position i and its parent and children, which are still in order with each
      other. */
  ghost predicate OrderedExcept(k: seq<int>, i: int, n: int)
    requires n <= |k|
  {
    && (forall j :: 1 <= j < n && j != i && Parent(j) != i ==> k[Parent(j)] <= k[j])
    && (forall j :: 1 <= j < n && Parent(j) == i && 1 <= i ==> k[Parent(i)] <= k[j])
  }

  ghost predicate AboveChildren(k: seq<int>, i: int, n: int)
    requires 0 <= i && n <= |k|
  {
    forall j :: 1 <= j < n && Parent(j) == i ==> k[i] <= k[j]
  }

  function Swapped<T>(s: seq<T>, i: int, j: int): seq<T>
    requires 0 <= i < |s| && 0 <= j < |s|
  {
    s[i := s[j]][j := s[i]]
  }

  lemma {:induction false} RootIsLeast(k: seq<int>, j: int)
    requires OrderedTo(k, |k|) && 0 <= j < |k|
    ensures k[0] <= k[j]
    decreases j
  {
    if j > 0 {
      RootIsLeast(k, Parent(j));
    }
  }

  /** j is the child of i with the smaller key. */
  ghost predicate LeastChild(k: seq<int>, i: int, j: int, n: int)
    requires 0 <= i && n <= |k|
  {
    (j == 2 * i + 1 || j == 2 * i + 2) && j < n && k[j] <= k[2 * i + 1] && (2 * i + 2 < n ==> k[j] <= k[2 * i + 2])
  }

  lemma ChildStep(k: seq<int>, i: int, j: int, n: int)
    requires 0 <= i && 2 * i + 1 < n <= |k|
    requires j == if 2 * i + 2 < n && k[2 * i + 2] < k[2 * i + 1] then 2 * i + 2 else 2 * i + 1
    ensures LeastChild(k, i, j, n)
  {
  }

  /** Swapping with the smaller child moves the disorder down to the child. */
  lemma SiftDownStep(k: seq<int>, i: int, j: int, n: int)
    requires 0 <= i && n <= |k| && LeastChild(k, i, j, n)
    requires OrderedExcept(k, i, n) && k[j] <= k[i]
    ensures Parent(j) == i && i < j < n
    ensures OrderedExcept(Swapped(k, i, j), j, n)
    ensures Swapped(k, i, j)[i] <= Swapped(k, i, j)[j]
  {
    var k' := Swapped(k, i, j);
    forall m | 1 <= m < n && m != j && Parent(m) != j ensures k'[Parent(m)] <= k'[m] {
      assert m != i && Parent(m) != i ==> k[Parent(m)] <= k[m];
    }
  }

  lemma NoSmallerChild(k: seq<int>, i: int, j: int, n: int)
    requires 0 <= i < n <= |k|
    requires 2 * i + 1 < n ==> LeastChild(k, i, j, n) && k[i] <= k[j]
    ensures AboveChildren(k, i, n)
  {
  }

  lemma NoChildren(k: seq<int>, i: int, n: int)
    requires 0 <= i && n <= |k| && 2 * i + 1 >= n
    ensures AboveChildren(k, i, n)
  {
  }

  lemma SwapKeepsElements<T>(s: seq<T>, i: int, j: int)
    requires 0 <= i < |s| && 0 <= j < |s|
    ensures multiset(Swapped(s, i, j)) == multiset(s)
    ensures (set x | x in Swapped(s, i, j)) == (set x | x in s)
  {
    SameElements(Swapped(s, i, j), s);
  }

  /** After moving the first element to the end and rearranging the others, the end is still the first. */
  lemma LastOfRearranged<T>(s: seq<T>, t: seq<T>)
    requires s != [] && Rearranged(t, Swapped(s, 0, |s| - 1), |s| - 1)
    ensures |t| == |s| && t[|s| - 1] == s[0]
    ensures multiset(t[..|s| - 1]) + multiset{s[0]} == multiset(s)
  {
    var n := |s| - 1;
    assert t[n..][0] == Swapped(s, 0, n)[n..][0];
    SwapKeepsElements(s, 0, n);
    assert t == t[..n] + [t[n]];
  }

  lemma OneRemoved<T>(after: seq<T>, x: T, before: seq<T>)
    requires multiset(after) + multiset{x} == multiset(before)
    ensures forall y :: y in before <==> y in after || y == x
  {
    forall y ensures y in before <==> y in after || y == x {
      assert y in before <==> y in multiset(before);
      assert y in after <==> y in multiset(after);
      assert y in multiset(before) <==> y in multiset(after) + multiset{x};
    }
  }

  /** s is t rearranged within the first n positions. */
  ghost predicate Rearranged<T>(s: seq<T>, t: seq<T>, n: int)
  {
    |s| == |t| && multiset(s) == multiset(t) && 0 <= n <= |s| && s[n..] == t[n..]
  }

  lemma RearrangedStep<T>(s: seq<T>, t: seq<T>, i: int, j: int, n: int)
    requires Rearranged(s, t, n) && 0 <= i < n && 0 <= j < n
    ensures Rearranged(Swapped(s, i, j), t, n)
  {
    assert Swapped(s, i, j)[n..] == s[n..];
  }

  /** Moving the root to the end leaves disorder at the root only. */
  lemma PopStart(k: seq<int>)
    requires k != [] && OrderedTo(k, |k|)
    ensures OrderedExcept(Swapped(k, 0, |k| - 1), 0, |k| - 1)
  {
  }

  lemma OrderedPrefix(k: seq<int>, n: int)
    requires 0 <= n <= |k| && OrderedTo(k, n)
    ensures OrderedTo(k[..n], n)
  {
  }

  lemma AppendStart(k: seq<int>, key: int)
    requires OrderedTo(k, |k|)
    ensures OrderedExcept(k + [key], |k|, |k| + 1) && AboveChildren(k + [key], |k|, |k| + 1)
  {
  }

  /** Swapping with a larger parent moves the disorder up to the parent. */
  lemma SiftUpStep(k: seq<int>, j: int)
    requires 1 <= j < |k|
    requires OrderedExcept(k, j, |k|) && AboveChildren(k, j, |k|) && k[j] <= k[Parent(j)]
    ensures var k' := Swapped(k, Parent(j), j);
            OrderedExcept(k', Parent(j), |k|) && AboveChildren(k', Parent(j), |k|)
  {
    var i := Parent(j);
    var k' := Swapped(k, i, j);
    forall m | 1 <= m < |k| && Parent(m) == i ensures k'[i] <= k'[m] {
      assert m != j ==> (i == 0 || i != j) && k[i] <= k[m];
    }
    forall m | 1 <= m < |k| && m != i && Parent(m) != i ensures k'[Parent(m)] <= k'[m] {
      assert Parent(m) == j ==> k[i] <= k[m];
    }
    forall m | 1 <= m < |k| && Parent(m) == i && 1 <= i ensures k'[Parent(i)] <= k'[m] {
      assert k[Parent(i)] <= k[i];
      assert m != j ==> k[i] <= k[m];
    }
  }

  /** With its parent and its children in order, position i is no exception any more. */
  lemma NoException(k: seq<int>, i: int, n: int)
    requires 0 <= i && n <= |k| && OrderedExcept(k, i, n) && AboveChildren(k, i, n)
    requires 1 <= i < n ==> k[Parent(i)] <= k[i]
    ensures OrderedTo(k, n)
  {
  }

  lemma SameElements<T>(a: seq<T>, b: seq<T>)
    requires multiset(a) == multiset(b)
    ensures (set x | x in a) == (set x | x in b)
  {
    forall x ensures x in a <==> x in b {
      assert x in a <==> x in multiset(a);
      assert x in b <==> x in multiset(b);
    }
  }
}

/** The delay queue: a binary min-heap of buckets ordered by expiration, each bucket carrying its own
    position. `Up`, `Down`, `Push`, `Pop` and `Fix` are Go's container/heap algorithms over the queue's own
    `Less`, `Swap`, `Append` and `RemoveLast`. */
module DelayQueues {
  import opened Buckets
  import opened HeapOrder

  ghost function KeysOf(s: seq<WheelBucket>): (k: seq<int>)
    reads s`expiration
    ensures |k| == |s| && forall i :: 0 <= i < |s| ==> k[i] == s[i].expiration
  {
    if s == [] then [] else KeysOf(s[..|s| - 1]) + [s[|s| - 1].expiration]
  }

  class DelayQueue {
    var h: seq<WheelBucket>

    constructor ()
      ensures h == []
    {
      h := [];
    }

    ghost function Members(): set<WheelBucket>
      reads this`h
    {
      set b | b in h
    }

    ghost function Keys(): (k: seq<int>)
      reads this`h, h`expiration
      ensures |k| == |h| && forall i :: 0 <= i < |h| ==> k[i] == h[i].expiration
    {
      KeysOf(h)
    }

    ghost predicate Indexed()
      reads this`h, h`heapIdx
    {
      forall i :: 0 <= i < |h| ==> h[i].heapIdx == i
    }

    ghost predicate Valid()
      reads this`h, h`heapIdx, h`expiration
    {
      Indexed() && OrderedTo(Keys(), |h|)
    }

    predicate Less(i: int, j: int)
      requires 0 <= i < |h| && 0 <= j < |h|
      reads this`h, h`expiration
    {
      h[i].expiration < h[j].expiration
    }

    method Swap(i: int, j: int)
      requires 0 <= i < |h| && 0 <= j < |h| && Indexed()
      modifies this`h, Members()`heapIdx
      ensures h == Swapped(old(h), i, j) && Indexed()
      ensures Keys() == Swapped(old(Keys()), i, j)
      ensures multiset(h) == multiset(old(h)) && Members() == old(Members())
    {
      SwapKeepsElements(h, i, j);
      h := h[i := h[j]][j := h[i]];
      h[i].heapIdx := i;
      h[j].heapIdx := j;
      assert Keys() == Swapped(old(Keys()), i, j);
    }

    method Append(b: WheelBucket)
      requires Indexed() && b !in h
      modifies this`h, b`heapIdx
      ensures Indexed() && h == old(h) + [b] && Keys() == old(Keys()) + [b.expiration]
    {
      b.heapIdx := |h|;
      h := h + [b];
    }

    method RemoveLast() returns (b: WheelBucket)
      requires Indexed() && h != []
      modifies this`h, Members()`heapIdx
      ensures b == old(h)[|old(h)| - 1] && b.heapIdx == -1 && b !in h
      ensures h == old(h)[..|old(h)| - 1] && Indexed() && Keys() == old(Keys())[..|old(h)| - 1]
    {
      var n := |h|;
      b := h[n - 1];
      assert forall i :: 0 <= i < n - 1 ==> h[i] != b;
      b.heapIdx := -1;
      h := h[..n - 1];
    }

    method Up(start: int)
      requires 0 <= start < |h| && Indexed()
      requires OrderedExcept(Keys(), start, |h|) && AboveChildren(Keys(), start, |h|)
      modifies this`h, Members()`heapIdx
      ensures Valid() && multiset(h) == multiset(old(h)) && Members() == old(Members())
    {
      hide OrderedExcept, AboveChildren, OrderedTo, Keys, KeysOf;
      var j := start;
      while true
        invariant 0 <= j < |h|
        invariant Indexed() && multiset(h) == multiset(old(h)) && Members() == old(Members())
        invariant OrderedExcept(Keys(), j, |h|) && AboveChildren(Keys(), j, |h|)
        decreases j
      {
        var i := Parent(j);
        if i == j || !Less(j, i) {
          NoException(Keys(), j, |h|);
          break;
        }
        SiftUpStep(Keys(), j);
        Swap(i, j);
        j := i;
      }
    }

    /** The child of i to swap with, or -1 when i is not above a smaller child. */
    method SmallerChild(i: int, n: int) returns (j: int)
      requires 0 <= i && n <= |h| && (i < n || n == 0)
      ensures j < 0 ==> AboveChildren(Keys(), i, n)
      ensures j >= 0 ==> LeastChild(Keys(), i, j, n) && Keys()[j] <= Keys()[i] && i < j < n
    {
      hide KeysOf;
      var j1 := 2 * i + 1;
      if j1 >= n {
        NoChildren(Keys(), i, n);
        return -1;
      }
      j := j1;
      var j2 := j1 + 1;
      if j2 < n && Less(j2, j1) {
        j := j2;
      }
      ChildStep(Keys(), i, j, n);
      if !Less(j, i) {
        NoSmallerChild(Keys(), i, j, n);
        return -1;
      }
    }

    /** Sift down within the first n positions; the result says whether position `start` changed. */
    method Down(start: int, n: int) returns (moved: bool)
      requires 0 <= start && n <= |h| && Indexed() && (start < n || n == 0)
      requires OrderedExcept(Keys(), start, n)
      modifies this`h, Members()`heapIdx
      ensures Indexed() && Members() == old(Members())
      ensures Rearranged(h, old(h), n) && |h| == |old(h)|
      ensures moved ==> OrderedTo(Keys(), n)
      ensures !moved ==> h == old(h) && Keys() == old(Keys()) && AboveChildren(Keys(), start, n)
    {
      assert Rearranged(h, old(h), n);
      hide OrderedExcept, OrderedTo, AboveChildren, Indexed, Swapped, Rearranged, LeastChild, Members, Keys, KeysOf;
      var i := start;
      while true
        invariant start <= i && (i < n || n == 0) && |h| == |old(h)|
        invariant Indexed() && Members() == old(Members())
        invariant Rearranged(h, old(h), n)
        invariant i == start ==> h == old(h) && Keys() == old(Keys())
        invariant OrderedExcept(Keys(), i, n)
        invariant i > start ==> 0 < i < n && Keys()[Parent(i)] <= Keys()[i]
        decreases n - i
      {
        var j := SmallerChild(i, n);
        if j < 0 {
          break;
        }
        SiftDownStep(Keys(), i, j, n);
        RearrangedStep(h, old(h), i, j, n);
        Swap(i, j);
        i := j;
      }
      if i > start {
        NoException(Keys(), i, n);
      }
      return i > start;
    }

    method Push(b: WheelBucket)
      requires Valid() && b !in h
      modifies this`h, Members()`heapIdx, b`heapIdx
      ensures Valid() && multiset(h) == multiset(old(h)) + multiset{b}
    {
      AppendStart(Keys(), b.expiration);
      Append(b);
      Up(|h| - 1);
    }

    lemma HeadIsLeast()
      requires Valid() && h != []
      ensures forall x :: x in h ==> h[0].expiration <= x.expiration
    {
      forall x | x in h ensures h[0].expiration <= x.expiration {
        var j :| 0 <= j < |h| && h[j] == x;
        RootIsLeast(Keys(), j);
      }
    }

    method Pop() returns (b: WheelBucket)
      requires Valid() && h != []
      modifies this`h, Members()`heapIdx
      ensures Valid() && b == old(h)[0] && b.heapIdx == -1 && b !in h
      ensures multiset(h) + multiset{b} == multiset(old(h))
    {
      hide OrderedExcept, OrderedTo, AboveChildren, Indexed, Keys, KeysOf, Swapped, Rearranged, Members;
      var n := |h| - 1;
      PopStart(Keys());
      Swap(0, n);
      SiftRoot(n);
      OrderedPrefix(Keys(), n);
      LastOfRearranged(old(h), h);
      b := RemoveLast();
    }

    /** Restore the order of the first n positions when only the root may be out of place. */
    method SiftRoot(n: int)
      requires 0 <= n <= |h| && Indexed() && OrderedExcept(Keys(), 0, n)
      modifies this`h, Members()`heapIdx
      ensures Indexed() && Members() == old(Members()) && Rearranged(h, old(h), n)
      ensures n <= |h| && OrderedTo(Keys(), n)
    {
      assert Rearranged(h, old(h), n);
      hide OrderedExcept, OrderedTo, AboveChildren, Indexed, Keys, KeysOf, Rearranged, Members;
      var moved := Down(0, n);
      if !moved {
        NoException(Keys(), 0, n);
      }
    }

    /** Restore the order after the expiration at position i changed either way. */
    method Fix(i: int)
      requires 0 <= i < |h| && Indexed() && OrderedExcept(Keys(), i, |h|)
      modifies this`h, Members()`heapIdx
      ensures Valid() && multiset(h) == multiset(old(h))
    {
      var moved := Down(i, |h|);
      if !moved {
        Up(i);
      }
    }

    /** Insert a bucket that is off the heap, or repair the position of one whose expiration moved. */
    method Offer(b: WheelBucket)
      requires Indexed()
      requires b.heapIdx >= 0 ==> b.heapIdx < |h| && h[b.heapIdx] == b && OrderedExcept(Keys(), b.heapIdx, |h|)
      requires b.heapIdx < 0 ==> OrderedTo(Keys(), |h|)
      modifies this`h, Members()`heapIdx, b`heapIdx
      ensures Valid()
      ensures multiset(h) == multiset(old(h)) + (if old(b.heapIdx) >= 0 then multiset{} else multiset{b})
    {
      if b.heapIdx >= 0 {
        Fix(b.heapIdx);
      } else {
        Push(b);
      }
    }

    /** One turn of the poller at time `now`: the bucket of least expiration if it has arrived, else null
        and the caller would block. */
    method Poll(now: int) returns (got: WheelBucket?)
      requires Valid()
      modifies this`h, Members()`heapIdx
      ensures Valid()
      ensures got == null ==> h == old(h) && forall x :: x in h ==> now < x.expiration
      ensures got != null ==>
        && got in old(h) && got.expiration <= now && got.heapIdx == -1 && got !in h
        && multiset(h) + multiset{got} == multiset(old(h))
        && (forall x :: x in old(h) <==> x in h || x == got)
        && forall x :: x in old(h) ==> got.expiration <= x.expiration
    {
      got := null;
      if |h| > 0 {
        HeadIsLeast();
        var top := h[0];
        if top.expiration <= now {
          got := Pop();
          OneRemoved(h, got, old(h));
        }
      }
    }
  }
}
