/** Integer arithmetic behind a ring of time quanta: flooring a time to a quantum, multiples of a
    quantum, and the slots of a ring of `n` quanta. */
module Quantum {

  /** The largest multiple of q that is not after t: the boundary `t - t % q` of the quantum t is in. */
  function Floor(t: int, q: int): (r: int)
    requires q > 0
    ensures r <= t < r + q
    ensures r % q == 0
  {
    FloorIsMultiple(t, q);
    t - t % q
  }

  lemma FloorIsMultiple(t: int, q: int)
    requires q > 0
    ensures (t - t % q) % q == 0
    ensures t - t % q == (t / q) * q
  {
    assert t == (t / q) * q + t % q;
    MultipleFromFactor(t / q, q);
  }

  /** Scaling by q keeps a strict order, with a gap of at least q. */
  lemma {:induction false} ScaleOrder(i: int, j: int, q: int)
    requires q > 0
    ensures i < j ==> i * q + q <= j * q
    decreases j - i
  {
    assert (j - 1) * q == j * q - q;
    if i + 1 < j {
      ScaleOrder(i, j - 1, q);
    }
  }

  lemma MultipleFromFactor(a: int, q: int)
    requires q > 0
    ensures (a * q) % q == 0
    ensures (a * q) / q == a
  {
    var d, r := (a * q) / q, (a * q) % q;
    assert a * q == d * q + r;
    ScaleOrder(a, d, q);
    ScaleOrder(d, a, q);
  }

  /** Distinct multiples of q are at least q apart. */
  lemma MultiplesApart(a: int, b: int, q: int)
    requires q > 0 && a % q == 0 && b % q == 0 && a < b
    ensures a + q <= b
  {
    var i, j := a / q, b / q;
    assert a == i * q && b == j * q;
    ScaleOrder(i, j, q);
    ScaleOrder(j, i, q);
  }

  /** Adding or removing one quantum keeps a multiple a multiple. */
  lemma MultipleShift(a: int, q: int)
    requires q > 0 && a % q == 0
    ensures (a + q) % q == 0
  {
    MultipleFromFactor(a / q + 1, q);
  }

  lemma FloorUnique(t: int, q: int, m: int)
    requires q > 0 && m % q == 0 && m <= t < m + q
    ensures Floor(t, q) == m
  {
    var f := Floor(t, q);
    if f < m {
      MultiplesApart(f, m, q);
    } else if m < f {
      MultiplesApart(m, f, q);
    }
  }

  /** Any multiple at or before t is at or before the floor of t. */
  lemma MultipleBelowFloor(m: int, t: int, q: int)
    requires q > 0 && m % q == 0 && m <= t
    ensures m <= Floor(t, q)
  {
    if Floor(t, q) < m {
      MultiplesApart(Floor(t, q), m, q);
    }
  }

  /** A multiple of a coarse quantum is a multiple of the fine quantum it is made of. */
  lemma CoarseMultiple(m: int, q: int, n: int)
    requires q > 0 && n > 0 && q * n > 0 && m % (q * n) == 0
    ensures m % q == 0
  {
    var j := m / (q * n);
    assert m == j * (q * n);
    assert j * (q * n) == (j * n) * q;
    MultipleFromFactor(j * n, q);
  }

  /** Flooring finely and then coarsely is flooring coarsely. */
  lemma FloorOfFloor(t: int, q: int, n: int)
    requires q > 0 && n > 0 && q * n > 0
    ensures Floor(Floor(t, q), q * n) == Floor(t, q * n)
  {
    var f := Floor(t, q * n);
    CoarseMultiple(f, q, n);
    MultipleBelowFloor(f, t, q);
    FloorUnique(Floor(t, q), q * n, f);
  }

  /** Within one turn of a ring of n slots, equal slots mean equal quanta. */
  lemma RingIndexInjective(a: int, b: int, c: int, n: int)
    requires n > 0 && c <= a < c + n && c <= b < c + n && a % n == b % n
    ensures a == b
  {
    var i, j := a / n, b / n;
    assert a == i * n + a % n && b == j * n + b % n;
    ScaleOrder(i, j, n);
    ScaleOrder(j, i, n);
  }

  /** Two multiples of q within one turn of the ring that share a slot are the same boundary. */
  lemma SlotHoldsOneBoundary(a: int, b: int, c: int, q: int, n: int)
    requires q > 0 && n > 0 && a % q == 0 && b % q == 0 && c % q == 0
    requires c <= a < c + q * n && c <= b < c + q * n
    requires (a / q) % n == (b / q) % n
    ensures a == b
  {
    BoundaryQuantum(a, c, q, n);
    BoundaryQuantum(b, c, q, n);
    RingIndexInjective(a / q, b / q, c / q, n);
  }

  lemma BoundaryQuantum(a: int, c: int, q: int, n: int)
    requires q > 0 && n > 0 && a % q == 0 && c % q == 0 && c <= a < c + q * n
    ensures c / q <= a / q < c / q + n
    ensures a == (a / q) * q
  {
    var i, j := a / q, c / q;
    assert a == i * q && c == j * q;
    assert (j + n) * q == c + q * n;
    ScaleOrder(i, j, q);
    ScaleOrder(i, j + n, q);
    ScaleOrder(j + n, i, q);
  }
}
