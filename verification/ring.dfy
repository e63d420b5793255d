/** Cursor arithmetic of the link's circular ring (src/core/link.h).
    Cursors are slot indices in [0, RING_SIZE) that move forward one slot at
    a time and wrap back to slot 0 after the last slot. */
module Ring {

  /** LINK_RING_SIZE: the number of slots in the ring. */
  const RING_SIZE: int := 1024

  /** LINK_MAX_PACKETS: one slot always stays empty, so that a full ring
      (write just behind read) differs from an empty one (write == read). */
  const MAX_PACKETS: int := RING_SIZE - 1

  /** A valid cursor value: an index of the `packets` array. */
  predicate InRing(i: int) {
    0 <= i < RING_SIZE
  }

  /** The cursor one slot after `i`, wrapping from the last slot to slot 0. */
  function Next(i: int): (j: int)
    requires InRing(i)
    ensures InRing(j)
    ensures j != i
    ensures j == 0 <==> i == MAX_PACKETS
  {
    (i + 1) % RING_SIZE
  }

  /** The number of forward steps from cursor `from` to cursor `to`.
      Dafny's `%` is Euclidean, so this is `(to - from + RING_SIZE) mod RING_SIZE`. */
  function Dist(from: int, to: int): (d: int)
    requires InRing(from) && InRing(to)
    ensures 0 <= d <= MAX_PACKETS
    ensures d == 0 <==> from == to
    ensures from + d == to || from + d == to + RING_SIZE
  {
    (to - from) % RING_SIZE
  }

  /** The slot `i` steps after cursor `start`. */
  function Slot(start: int, i: int): (s: int)
    requires InRing(start) && 0 <= i < RING_SIZE
    ensures InRing(s)
    ensures Dist(start, s) == i
  {
    (start + i) % RING_SIZE
  }

  /** Taking one more step to the target adds one to the distance, unless
      the step lands back on the origin. */
  lemma StepTo(a: int, b: int)
    requires InRing(a) && InRing(b)
    requires Next(b) != a
    ensures Dist(a, Next(b)) == Dist(a, b) + 1
  {
  }

  /** Moving the origin one step towards a different target removes one step. */
  lemma StepFrom(a: int, b: int)
    requires InRing(a) && InRing(b)
    requires a != b
    ensures Dist(Next(a), b) == Dist(a, b) - 1
  {
  }

  /** The target is one step behind the origin exactly when it is as far
      ahead of it as the ring allows. */
  lemma BehindIsFarthest(a: int, b: int)
    requires InRing(a) && InRing(b)
    ensures Next(b) == a <==> Dist(a, b) == MAX_PACKETS
  {
  }

  /** A cursor `b` that lies on the forward path from `a` to `c` splits
      that path in two. */
  lemma OnPath(a: int, b: int, c: int)
    requires InRing(a) && InRing(b) && InRing(c)
    requires Dist(a, b) <= Dist(a, c)
    ensures Dist(a, c) == Dist(a, b) + Dist(b, c)
  {
  }

  /** Counting `Dist(from, to)` steps from `from` lands on `to`. */
  lemma SlotAtDist(from: int, to: int)
    requires InRing(from) && InRing(to)
    ensures Slot(from, Dist(from, to)) == to
  {
  }
}
