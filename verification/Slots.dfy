/**
  Arithmetic of the circular buffer. Positions count the bytes that ever went
  through the pipe; a cursor, as the shared area stores it, is the slot of a position.
 */
module Slots {

  /** The cell that holds the byte at position p of a buffer of n cells, found by stepping the way the cursors do. */
  function Slot(p: nat, n: nat): (s: nat)
    requires n > 0
    ensures s < n
  {
    if p == 0 then 0 else
      var q := Slot(p - 1, n);
      if q + 1 == n then 0 else q + 1
  }

  /** Stepping and rewinding is counting modulo the buffer size. */
  lemma {:induction false} SlotIsModulo(p: nat, n: nat)
    requires n > 0
    ensures Slot(p, n) == p % n
  {
    if p > 0 {
      SlotIsModulo(p - 1, n);
      var k, q := (p - 1) / n, (p - 1) % n;
      assert p - 1 == k * n + q;
      if q + 1 == n {
        assert p == (k + 1) * n;
        ModuloUnique(p, k + 1, 0, n);
      } else {
        ModuloUnique(p, k, q + 1, n);
      }
    }
  }

  lemma ModuloUnique(p: nat, k: nat, q: nat, n: nat)
    requires n > 0 && q < n && p == k * n + q
    ensures p % n == q
  {
    var d := p / n - k;
    assert d * n == (p / n) * n - k * n;
    assert d * n == q - p % n;
    BetweenMultiples(d, n);
  }

  lemma BetweenMultiples(d: int, n: nat)
    requires 0 - n < d * n < n
    ensures d == 0
  {
    assert d >= 1 ==> (d - 1) * n >= 0;
    assert d <= -1 ==> (-1 - d) * n >= 0;
  }

  /** Two positions at most one lap apart: how their slots differ. */
  lemma {:induction false} SlotDistance(a: nat, b: nat, n: nat)
    requires n > 0 && a <= b <= a + n
    ensures Slot(b, n) == if Slot(a, n) + (b - a) < n then Slot(a, n) + (b - a) else Slot(a, n) + (b - a) - n
    decreases b - a
  {
    if a < b {
      SlotDistance(a, b - 1, n);
    }
  }

  /** The reader's test "read == write" (xen_shm_pipe.c:351) means empty and nothing else. */
  lemma EmptyTest(r: nat, w: nat, n: nat)
    requires n > 0 && r <= w < r + n
    ensures Slot(r, n) == Slot(w, n) <==> r == w
  {
    SlotDistance(r, w, n);
  }

  /** The writer's test "write + 1 == read", rewound at the end of the buffer, means full and nothing else. */
  lemma FullTest(r: nat, w: nat, n: nat)
    requires n > 1 && r <= w < r + n
    ensures (if Slot(w, n) + 1 == n then 0 else Slot(w, n) + 1) == Slot(r, n) <==> w == r + n - 1
  {
    SlotDistance(r, w, n);
  }

  /** read_pos_reduced is the cell of the last position the writer may reach. */
  lemma ReducedCursor(r: nat, n: nat)
    requires n > 0
    ensures Slot(r + n - 1, n) == if Slot(r, n) == 0 then n - 1 else Slot(r, n) - 1
  {
    SlotDistance(r, r + n - 1, n);
  }
}
