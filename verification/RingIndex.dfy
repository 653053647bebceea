/** Slot indices of the ring buffers: `pos & (Capacity - 1)`, the remainder of `pos` by a power of two. */
module RingIndex {

  function Index(pos: nat, capacity: nat): (r: nat)
    requires capacity > 0
    ensures r < capacity
  {
    if pos < capacity then pos else Index(pos - capacity, capacity)
  }

  lemma MulGap(c: int, k: int)
    requires c > 0
    ensures k >= 1 ==> c * k >= c
    ensures k <= -1 ==> c * k <= -c
  {
  }

  /** Euclidean division is unique: `x == c * q + r` with `r` a remainder pins `x % c`. */
  lemma ModUnique(x: nat, c: nat, q: int, r: nat)
    requires r < c && x == c * q + r
    ensures x % c == r
  {
    var k := q - x / c;
    assert x == c * (x / c) + x % c;
    assert c * k == c * q - c * (x / c);
    MulGap(c, k);
  }

  lemma {:induction false} IndexIsRemainder(pos: nat, c: nat)
    requires c > 0
    ensures Index(pos, c) == pos % c
    decreases pos
  {
    if pos < c {
      ModUnique(pos, c, 0, pos);
    } else {
      IndexIsRemainder(pos - c, c);
      ModUnique(pos, c, (pos - c) / c + 1, (pos - c) % c);
    }
  }

  lemma {:induction false} IndexNear(a: nat, b: nat, c: nat)
    requires a < b < a + c
    ensures Index(a, c) != Index(b, c)
    decreases a
  {
    if a >= c {
      IndexNear(a - c, b - c, c);
    }
  }

  lemma WindowIndices(h: nat, c: nat)
    requires c > 0
    ensures forall i, j :: h <= i < h + c && h <= j < h + c && i != j ==> Index(i, c) != Index(j, c)
    ensures Index(h + c, c) == Index(h, c)
  {
    forall i: nat, j: nat | h <= i < h + c && h <= j < h + c && i != j
      ensures Index(i, c) != Index(j, c)
    {
      if i < j { IndexNear(i, j, c); } else { IndexNear(j, i, c); }
    }
  }

  /** The position of the window [h, h + c) that shares the slot of `pos`. */
  lemma {:induction false} Representative(h: nat, pos: nat, c: nat) returns (i: nat)
    requires c > 0 && h + c <= pos
    ensures h <= i < h + c && i + c <= pos && Index(i, c) == Index(pos, c)
    decreases pos
  {
    i := pos - c;
    if h + c <= i {
      i := Representative(h, i, c);
    }
  }

  // ---- Counters that wrap ----

  /** Moving by whole laps keeps the slot. */
  lemma {:induction false} IndexLaps(pos: nat, c: nat, laps: nat)
    requires c > 0
    ensures Index(pos + c * laps, c) == Index(pos, c)
    decreases laps
  {
    if laps > 0 {
      assert c * laps == c * (laps - 1) + c;
      assert c * (laps - 1) >= 0;
      IndexLaps(pos, c, laps - 1);
    } else {
      assert c * laps == 0;
    }
  }

  /** A counter taken modulo a multiple of the capacity selects the same slot as the unbounded one. */
  lemma {:induction false} IndexNested(pos: nat, c: nat, laps: nat, m: nat)
    requires c > 0 && m == c * laps && m > 0
    ensures Index(Index(pos, m), c) == Index(pos, c)
    decreases pos
  {
    if pos >= m {
      IndexNested(pos - m, c, laps, m);
      IndexLaps(pos - m, c, laps);
    }
  }

  lemma {:induction false} IndexNext(pos: nat, m: nat)
    requires m > 0
    ensures Index(pos + 1, m) == if Index(pos, m) + 1 == m then 0 else Index(pos, m) + 1
    decreases pos
  {
    if pos >= m {
      IndexNext(pos - m, m);
    } else if pos + 1 == m {
      assert Index(m, m) == Index(0, m);
    }
  }

  /** Subtraction of wrapped counters. */
  function WrapSub(a: nat, b: nat, m: nat): nat
    requires a < m && b < m
  {
    if a >= b then a - b else a + m - b
  }

  lemma {:induction false} WrapSubIndex(a: nat, b: nat, m: nat)
    requires m > 0 && b <= a < b + m
    ensures WrapSub(Index(a, m), Index(b, m), m) == a - b
    decreases b
  {
    if b >= m {
      WrapSubIndex(a - m, b - m, m);
    } else if a >= m {
      assert Index(a, m) == a - m;
    }
  }

  function Pow2(k: nat): (r: nat)
    ensures r > 0
  {
    if k == 0 then 1 else 2 * Pow2(k - 1)
  }

  lemma {:induction false} Pow2Sum(a: nat, b: nat)
    ensures Pow2(a) * Pow2(b) == Pow2(a + b)
    decreases a
  {
    if a > 0 {
      Pow2Sum(a - 1, b);
      assert Pow2(a) * Pow2(b) == 2 * (Pow2(a - 1) * Pow2(b));
    } else {
      assert 1 * Pow2(b) == Pow2(b);
    }
  }
}
