/** The link's statistics counters are C `unsigned long`, 64 bits wide on the
    LP64 platforms the link runs on; they wrap around modulo 2^64. */
module Counters {

  const ULONG_LIMIT: int := 0x1_0000_0000_0000_0000

  type ULong = x: int | 0 <= x < ULONG_LIMIT

  /** `c += k` on an unsigned long. */
  function Add(c: ULong, k: nat): (r: ULong)
    ensures r == c + k || r + ULONG_LIMIT <= c + k
    ensures (r - c) % ULONG_LIMIT == k % ULONG_LIMIT
  {
    (c + k) % ULONG_LIMIT
  }

  /** How far counter `b` has got ahead of counter `a`, as an unsigned
      long subtraction `b - a` computes it. */
  function Ahead(a: ULong, b: ULong): (d: ULong)
    ensures (a + d) % ULONG_LIMIT == b
  {
    (b - a) % ULONG_LIMIT
  }

  /** Whole multiples of 2^64 vanish modulo 2^64. */
  lemma Wraps(x: int, q: int)
    ensures (x + q * ULONG_LIMIT) % ULONG_LIMIT == x % ULONG_LIMIT
  {
  }

  /** Raising the later counter by `k` puts it `k` further ahead. */
  lemma AheadAdd(a: ULong, b: ULong, k: nat)
    ensures Ahead(a, Add(b, k)) == (Ahead(a, b) + k) % ULONG_LIMIT
  {
    Wraps(b + k - a, -((b + k) / ULONG_LIMIT));
    Wraps(b - a + k, -((b - a) / ULONG_LIMIT));
  }

  /** Raising the earlier counter by `k` takes `k` off the lead. */
  lemma AddAhead(a: ULong, b: ULong, k: nat)
    ensures Ahead(Add(a, k), b) == (Ahead(a, b) - k) % ULONG_LIMIT
  {
    Wraps(b - a - k, (a + k) / ULONG_LIMIT);
    Wraps(b - a - k, -((b - a) / ULONG_LIMIT));
  }

  /** A counter `y` that is `b` ahead of `x` (modulo 2^64) is `b + k` ahead
      once it is raised by `k`. */
  lemma GainAhead(x: ULong, y: ULong, b: nat, k: nat)
    requires Ahead(x, y) == b % ULONG_LIMIT
    ensures Ahead(x, Add(y, k)) == (b + k) % ULONG_LIMIT
  {
    AheadAdd(x, y, k);
    Wraps(b + k, -(b / ULONG_LIMIT));
  }

  /** A counter `y` that is `b + k` ahead of `x` (modulo 2^64) is `b` ahead
      once `x` is raised by `k`. */
  lemma LoseAhead(x: ULong, y: ULong, b: nat, k: nat)
    requires Ahead(x, y) == (b + k) % ULONG_LIMIT
    ensures Ahead(Add(x, k), y) == b % ULONG_LIMIT
  {
    AddAhead(x, y, k);
    Wraps(b, -((b + k) / ULONG_LIMIT));
  }
}
