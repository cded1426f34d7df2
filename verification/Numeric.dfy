/** Ring positions, the wrap-around arithmetic on them, and counting facts the proofs share. */
module Numeric {

  /** The slot of an absolute position in a ring of the given size. */
  ghost function Slot(i: nat, size: nat): (slot: nat)
    requires 0 < size
    ensures slot < size
  {
    if i < size then i else Slot(i - size, size)
  }

  /** Whether an absolute position lies on an even lap around the ring. */
  ghost predicate EvenLap(i: nat, size: nat)
    requires 0 < size
  {
    i < size || !EvenLap(i - size, size)
  }

  /** The index after i, as ring code computes it. */
  function NextIndex(i: nat, size: nat): nat
  {
    if i + 1 == size then 0 else i + 1
  }

  /** One step of a wrap-around index and its lap follows one step of the absolute position. */
  lemma {:induction false} SlotStep(i: nat, size: nat)
    requires 0 < size
    ensures Slot(i + 1, size) == NextIndex(Slot(i, size), size)
    ensures EvenLap(i + 1, size) == (EvenLap(i, size) == (Slot(i, size) + 1 != size))
  {
    if i >= size {
      SlotStep(i - size, size);
    }
  }

  /** Two absolute positions less than a lap apart never share a slot. */
  lemma {:induction false} SlotDistinct(i: nat, j: nat, size: nat)
    requires i < j < i + size
    ensures Slot(i, size) != Slot(j, size)
  {
    if i >= size {
      SlotDistinct(i - size, j - size, size);
    }
  }

  /** The distance between two positions, read off their slots alone. */
  lemma {:induction false} SlotDifference(i: nat, j: nat, size: nat)
    requires i <= j < i + size
    ensures var d := Slot(j, size) - Slot(i, size);
            j - i == if 0 <= d then d else d + size
  {
    if i >= size {
      SlotDifference(i - size, j - size, size);
    } else {
      assert size <= j ==> Slot(j - size, size) == j - size;
    }
  }

  /** The same distance as ring code computes it, with one addition and one remainder. */
  lemma SlotDistance(i: nat, j: nat, size: nat)
    requires i <= j < i + size
    ensures (Slot(j, size) + size - Slot(i, size)) % size == j - i
  {
    SlotDifference(i, j, size);
    ModOnce(Slot(j, size) + size - Slot(i, size), size);
  }

  lemma ModOnce(x: nat, m: nat)
    requires x < m + m
    ensures 0 < m ==> x % m == if x < m then x else x - m
  {
  }

  /** A positive multiple of m is at least m. */
  lemma MulAtLeast(m: nat, k: nat)
    requires 1 <= k
    ensures m <= m * k
  {
    assert m * k == m + m * (k - 1);
    assert 0 <= m * (k - 1);
  }

  /** Integer division, known to callers by its defining inequality. */
  function Quot(x: nat, m: nat): (q: nat)
    requires 0 < m
    ensures m * q <= x < m * q + m
  {
    x / m
  }

  /** A number within m of a multiple of m has that multiple's quotient. */
  lemma QuotIs(x: nat, m: nat, q: nat)
    requires 0 < m && m * q <= x < m * q + m
    ensures Quot(x, m) == q
  {
    hide Quot;
    var q0 := Quot(x, m);
    if q0 < q {
      assert m * (q - q0) == m * q - m * q0;
      MulAtLeast(m, q - q0);
    } else if q < q0 {
      assert m * (q0 - q) == m * q0 - m * q;
      MulAtLeast(m, q0 - q);
    }
  }

  lemma QuotMonotone(a: nat, b: nat, m: nat)
    requires 0 < m && a <= b
    ensures Quot(a, m) <= Quot(b, m)
  {
    hide Quot;
    var qa, qb := Quot(a, m), Quot(b, m);
    if qb < qa {
      assert m * (qa - qb) == m * qa - m * qb;
      MulAtLeast(m, qa - qb);
    }
  }

  /** Every element is below n, and none repeats. */
  ghost predicate DistinctBelow(ms: multiset<nat>, n: nat)
  {
    forall t :: t in ms ==> t < n && ms[t] == 1
  }

  lemma DistinctBelowPart(part: multiset<nat>, rest: multiset<nat>, n: nat)
    requires DistinctBelow(part + rest, n)
    ensures DistinctBelow(part, n)
  {
    forall t | t in part ensures t < n && part[t] == 1 {
      assert t in part + rest;
    }
  }

  /** A multiset of numbers below n in which nothing repeats has at most n elements. */
  lemma {:induction false} Pigeonhole(ms: multiset<nat>, n: nat)
    requires DistinctBelow(ms, n)
    ensures |ms| <= n
    decreases n
  {
    if n == 0 {
      assert ms == multiset{};
    } else {
      var rest := ms[n - 1 := 0];
      Pigeonhole(rest, n - 1);
      assert |ms| == |rest| + ms[n - 1];
    }
  }
}
