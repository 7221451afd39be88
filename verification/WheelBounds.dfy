/** How deep and how far routing can go: the tower's geometry as powers of the ring size, and a bound
    on every number the routing computes. */
module WheelBounds {
  import opened Buckets
  import Quantum
  import opened WheelModel

  function Power(b: int, n: nat): int
  {
    if n == 0 then 1 else Power(b, n - 1) * b
  }

  /** Level k's tick is `tickMs * wheelSize^k`. */
  lemma {:induction false} TickIsPower(levels: seq<Level>, size: int, k: nat)
    requires Tower(levels, size) && k < |levels|
    ensures levels[k].tickMs == levels[0].tickMs * Power(size, k)
    ensures levels[k].interval == levels[0].tickMs * Power(size, k + 1)
  {
    assert Shape(levels[k], size);
    if k > 0 {
      TickIsPower(levels, size, k - 1);
      assert StackedAt(levels, k);
    }
    var t, p := levels[0].tickMs, Power(size, k);
    assert (t * p) * size == t * (p * size);
  }

  /** The levels whose tests `add` evaluates for an entry, from level k up. */
  function Visited(levels: seq<Level>, size: int, k: int, e: WheelEntry): seq<Level>
    requires Tower(levels, size) && 0 <= k < |levels|
    decreases e.expirationMs - (levels[k].currentTime + levels[k].interval)
  {
    var l := levels[k];
    if e.expirationMs < l.currentTime + l.interval then [l]
    else
      var taller := Grow(levels, size, k);
      SpanGrows(taller, size, k);
      [l] + Visited(taller, size, k + 1, e)
  }

  /** Every number computed at an overflow level stays within `(wheelSize + 1)` deadlines. */
  ghost predicate WithinReach(l: Level, size: int, e: WheelEntry)
  {
    && 0 <= l.currentTime
    && l.tickMs <= e.expirationMs
    && l.currentTime + l.tickMs <= e.expirationMs
    && l.currentTime + l.interval <= (size + 1) * e.expirationMs
  }

  lemma OverflowWithinReach(levels: seq<Level>, size: int, k: int, e: WheelEntry)
    requires Tower(levels, size) && 1 <= k < |levels|
    requires levels[k - 1].currentTime + levels[k - 1].interval <= e.expirationMs
    ensures WithinReach(levels[k], size, e)
  {
    var exp, l := e.expirationMs, levels[k];
    OneClock(levels, size, k - 1);
    OneClock(levels, size, k);
    assert StackedAt(levels, k) && Shape(l, size);
    ProductMonotone(l.tickMs, exp, size);
    assert (size + 1) * exp == exp * size + exp;
  }

  lemma {:induction false} ProductMonotone(a: int, b: int, n: int)
    requires a <= b && n >= 0
    ensures a * n <= b * n
  {
    if n > 0 {
      ProductMonotone(a, b, n - 1);
      assert a * n == a * (n - 1) + a && b * n == b * (n - 1) + b;
    }
  }

  /** Routing tests only overflow levels within reach, and allocates a level only when that level's tick
      `tickMs * wheelSize^(height - 1)` is not beyond the deadline. */
  lemma {:induction false} RouteBounded(levels: seq<Level>, size: int, k: int, e: WheelEntry)
    requires Tower(levels, size) && 0 <= k < |levels|
    requires k > 0 ==> levels[k - 1].currentTime + levels[k - 1].interval <= e.expirationMs
    ensures var v := Visited(levels, size, k, e);
            && |v| >= 1 && v[0] == levels[k]
            && forall j :: 0 <= j < |v| && (j > 0 || k > 0) ==> WithinReach(v[j], size, e)
    ensures var height := |Route(levels, size, k, e).levels|;
            && height >= |levels|
            && (height > |levels| ==> levels[0].tickMs * Power(size, height - 1) <= e.expirationMs)
    decreases e.expirationMs - (levels[k].currentTime + levels[k].interval)
  {
    hide Put, Shape, StackedAt, WithinReach, Power;
    var l := levels[k];
    if k > 0 {
      OverflowWithinReach(levels, size, k, e);
      SpanGrows(levels, size, k - 1);
    }
    if e.expirationMs >= l.currentTime + l.interval {
      var taller := Grow(levels, size, k);
      SpanGrows(taller, size, k);
      RouteBounded(taller, size, k + 1, e);
      OneClock(levels, size, k);
      if |taller| > |levels| {
        TickIsPower(taller, size, k + 1);
        NewTickReached(taller, size, k + 1, e);
      }
    }
  }

  lemma NewTickReached(levels: seq<Level>, size: int, k: int, e: WheelEntry)
    requires Tower(levels, size) && 1 <= k < |levels|
    requires levels[k - 1].currentTime + levels[k - 1].interval <= e.expirationMs
    ensures levels[k].tickMs <= e.expirationMs
  {
    OverflowWithinReach(levels, size, k, e);
  }

  /** Depth is logarithmic in the deadline: a tower of height h >= 2 grown for a deadline needs
      `2^(h - 1)` milliseconds of deadline. */
  lemma {:induction false} PowerAtLeastTwo(size: int, n: nat)
    requires size >= 2
    ensures Power(size, n) >= Power(2, n) >= 1
  {
    if n > 0 {
      PowerAtLeastTwo(size, n - 1);
      ProductMonotone(2, size, Power(size, n - 1));
      ProductMonotone(Power(2, n - 1), Power(size, n - 1), 2);
    }
  }

  lemma DepthBound(levels: seq<Level>, size: int, e: WheelEntry)
    requires Tower(levels, size)
    ensures var height := |Route(levels, size, 0, e).levels|;
            height > |levels| ==> Power(2, height - 1) <= e.expirationMs
  {
    hide Put, Route;
    RouteBounded(levels, size, 0, e);
    var height := |Route(levels, size, 0, e).levels|;
    if height > |levels| {
      PowerAtLeastTwo(size, height - 1);
      assert Shape(levels[0], size);
      ProductMonotone(1, levels[0].tickMs, Power(size, height - 1));
    }
  }

  // ---------- Deadlines before the epoch ----------

  /** The program's division and remainder, which truncate toward zero. */
  function TruncDiv(a: int, b: int): int
    requires b > 0
  {
    if a >= 0 then a / b else -(-a / b)
  }

  function TruncRem(a: int, b: int): int
    requires b > 0
  {
    a - b * TruncDiv(a, b)
  }

  /** The slot computed for a deadline lies in the ring exactly when the deadline is less than one tick before the
      epoch, or its quantum happens to be a multiple of the ring size; otherwise it is negative. */
  lemma SlotInRingIff(exp: int, tick: int, size: int)
    requires tick > 0 && size >= 2
    ensures 0 <= TruncRem(TruncDiv(exp, tick), size) < size
       <==> exp > -tick || TruncDiv(exp, tick) % size == 0
  {
    var q := TruncDiv(exp, tick);
    QuantumSign(exp, tick);
    if q >= 0 {
      assert q == size * (q / size) + q % size;
    } else {
      var n := -q;
      assert n == size * (n / size) + n % size;
      NegatedMultiple(n, size);
    }
  }

  /** For example, 15 ms before the epoch with a tick of 10 ms the index is -1. */
  lemma SlotBelowRing()
    ensures TruncRem(TruncDiv(-15, 10), 256) == -1
  {
    assert TruncDiv(-15, 10) == -1;
    assert TruncDiv(-1, 256) == 0;
  }

  lemma QuantumSign(exp: int, tick: int)
    requires tick > 0
    ensures TruncDiv(exp, tick) >= 0 <==> exp > -tick
  {
    if exp < 0 {
      var d := -exp;
      assert d == tick * (d / tick) + d % tick;
      if d >= tick {
        assert d / tick >= 1;
      } else {
        assert d / tick == 0;
      }
    }
  }

  lemma NegatedMultiple(n: int, size: int)
    requires size >= 2
    ensures n % size == 0 <==> (-n) % size == 0
  {
    if n % size == 0 {
      Quantum.MultipleFromFactor(-(n / size), size);
      assert -n == -(n / size) * size;
    }
    if (-n) % size == 0 {
      Quantum.MultipleFromFactor(-(-n / size), size);
      assert n == -(-n / size) * size;
    }
  }
}
