/** Positions of an unbounded sequence in a ring of fixed size. */
module Ring {
  import opened Bits

  function Wrap(i: int, size: int): int {
    if i + 1 == size then 0 else i + 1
  }

  function Slot(j: int, size: int): int
    requires size > 0
  {
    j % size
  }

  lemma SlotStep(j: int, size: int)
    requires size > 0 && j >= 0
    ensures 0 <= Slot(j, size) < size
    ensures Slot(j + 1, size) == Wrap(Slot(j, size), size)
    ensures Slot(j + size, size) == Slot(j, size)
  {
    var q, r := j / size, j % size;
    assert j == q * size + r;
    if r + 1 == size {
      DivModIs(j + 1, size, q + 1, 0);
    } else {
      DivModIs(j + 1, size, q, r + 1);
    }
    DivModIs(j + size, size, q + 1, r);
  }

  lemma DivModIs(x: int, size: int, q: int, r: int)
    requires size > 0 && 0 <= r < size && x == q * size + r
    ensures x / size == q && x % size == r
  {
    DivIs(x, size, q);
  }

  /** Positions less than a ring apart are in different slots. */
  lemma SlotsDiffer(i: int, j: int, size: int)
    requires size > 0 && 0 <= i < j < i + size
    ensures Slot(i, size) != Slot(j, size)
  {
    var q, r := i / size, i % size;
    assert i == q * size + r;
    if r + (j - i) < size {
      DivModIs(j, size, q, r + (j - i));
    } else {
      DivModIs(j, size, q + 1, r + (j - i) - size);
    }
  }

  lemma SmallSlot(k: int, n: int)
    requires 0 <= k < n
    ensures Slot(k, n) == k
  {
    DivModIs(k, n, 0, k);
  }

  function Element<T>(ring: seq<T>, k: int): T
    requires |ring| > 0 && k >= 0
  {
    SlotStep(k, |ring|);
    ring[Slot(k, |ring|)]
  }

  /** The `n` elements of a ring from position `tail` on. */
  function Stored<T>(ring: seq<T>, tail: int, n: nat): (r: seq<T>)
    requires |ring| > 0 && tail >= 0
    ensures |r| == n
  {
    if n == 0 then [] else Stored(ring, tail, n - 1) + [Element(ring, tail + n - 1)]
  }

  /** Only the position decides, not how often it went round. */
  lemma {:induction false} StoredWraps<T>(ring: seq<T>, tail: int, n: nat)
    requires |ring| > 0 && tail >= 0
    ensures Stored(ring, tail + |ring|, n) == Stored(ring, tail, n)
  {
    if n > 0 {
      StoredWraps(ring, tail, n - 1);
      SlotStep(tail + n - 1, |ring|);
    }
  }

  /** Writing the slot after the last element changes none of the elements. */
  lemma {:induction false} StoredUpdate<T>(ring: seq<T>, tail: int, n: nat, m: nat, x: T)
    requires |ring| > 0 && tail >= 0 && n <= m < |ring|
    ensures 0 <= Slot(tail + m, |ring|) < |ring|
    ensures Stored(ring[Slot(tail + m, |ring|) := x], tail, n) == Stored(ring, tail, n)
  {
    SlotStep(tail + m, |ring|);
    if n > 0 {
      StoredUpdate(ring, tail, n - 1, m, x);
      SlotsDiffer(tail + n - 1, tail + m, |ring|);
      SlotStep(tail + n - 1, |ring|);
    }
  }

  lemma StoredPush<T>(ring: seq<T>, tail: int, n: nat, x: T)
    requires |ring| > 0 && tail >= 0 && n < |ring|
    ensures 0 <= Slot(tail + n, |ring|) < |ring|
    ensures Stored(ring[Slot(tail + n, |ring|) := x], tail, n + 1) == Stored(ring, tail, n) + [x]
  {
    StoredUpdate(ring, tail, n, n, x);
  }

  lemma {:induction false} StoredRest<T>(ring: seq<T>, tail: int, n: nat)
    requires |ring| > 0 && tail >= 0 && n > 0
    ensures Stored(ring, tail, n) == [Element(ring, tail)] + Stored(ring, tail + 1, n - 1)
  {
    if n > 1 {
      StoredRest(ring, tail, n - 1);
    }
  }

  /** Moving the tail on removes the first element. */
  lemma StoredPop<T>(ring: seq<T>, tail: int, n: nat)
    requires 0 <= tail < |ring| && 0 < n <= |ring|
    ensures Stored(ring, tail, n) == [ring[tail]] + Stored(ring, Wrap(tail, |ring|), n - 1)
    ensures Slot(Wrap(tail, |ring|) + n - 1, |ring|) == Slot(tail + n, |ring|)
  {
    SmallSlot(tail, |ring|);
    StoredRest(ring, tail, n);
    if tail + 1 == |ring| {
      StoredWraps(ring, 0, n - 1);
      SlotStep(n - 1, |ring|);
    }
  }
}
