/** The page's source of randomness. Each Math.random() result the
    script consumes is handed to the model as a real number in [0, 1). */
module RandomDraws {

  /** A possible Math.random() result. */
  predicate Unit(r: real) { 0.0 <= r < 1.0 }

  /** Scaling a unit draw by a positive count and rounding down lands in
      [0, n). */
  lemma ScaleBelow(r: real, n: int)
    requires Unit(r) && n >= 1
    ensures 0 <= (r * n as real).Floor < n
  {
  }

  /** Math.floor(r * (hi - lo + 1)) + lo: an integer of [lo, hi]. */
  function Pick(r: real, lo: int, hi: int): (v: int)
    requires Unit(r) && lo <= hi
    ensures lo <= v <= hi
  {
    ScaleBelow(r, hi - lo + 1);
    (r * (hi - lo + 1) as real).Floor + lo
  }

  /** Every integer of [lo, hi] is picked by some draw, so the range is
      covered and not just respected. */
  lemma PickReaches(v: int, lo: int, hi: int)
    requires lo <= v <= hi
    ensures Unit((v - lo) as real / (hi - lo + 1) as real)
    ensures Pick((v - lo) as real / (hi - lo + 1) as real, lo, hi) == v
  {
  }
}
