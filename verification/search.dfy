/**
 * Leftmost search over a range of positions: the order in which a
 * non-global regular-expression match tries start positions, and in which a
 * `for … of` loop with `break` visits elements.
 */
module Search {
  import opened Wrappers

  /** The least `k` in `[lo, hi)` that satisfies `p`, if there is one. */
  function First(lo: nat, hi: nat, p: nat -> bool): (r: Option<nat>)
    requires lo <= hi
    ensures r.Some? ==> lo <= r.value < hi && p(r.value)
    ensures forall k: nat :: lo <= k < hi && (r.None? || k < r.value) ==> !p(k)
    decreases hi - lo
  {
    if lo == hi then None
    else if p(lo) then Some(lo)
    else First(lo + 1, hi, p)
  }
}
