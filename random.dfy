/**
 * Unity's integer `Random.Range(lo, hi)` as an oracle: the engine's random draw is the
 * argument `pick`, and any draw yields a value in the half-open range `[lo, hi)`, or `lo`
 * itself when the range is empty (`lo == hi`).
 */
module UnityRandom {
  function Range(lo: int, hi: int, pick: nat): (r: int)
    requires lo <= hi
    ensures lo < hi ==> lo <= r < hi
    ensures lo == hi ==> r == lo
  {
    if lo == hi then lo else lo + pick % (hi - lo)
  }

  /** Every value of a non-empty range is drawn by some pick, so the oracle leaves nothing out. */
  lemma RangeCoversAll(lo: int, hi: int, v: int)
    requires lo <= v < hi
    ensures Range(lo, hi, (v - lo) as nat) == v
  {
    assert (v - lo) % (hi - lo) == v - lo;
  }
}
