/** Leftmost search: the first position, in increasing order, at which a
    matcher succeeds. This is how `re.search` reports a match, how
    BeautifulSoup's `find` picks an element, and how a `for` loop with an
    early `return` picks a row. */
module Scan {
  import opened Wrappers

  datatype Hit<T> = Hit(at: nat, value: T)

  /** The first `k` in `[from, bound)` with `matcher(k) == Some(v)`. */
  function FirstFrom<T>(from: nat, bound: nat, matcher: nat -> Option<T>): (r: Option<Hit<T>>)
    ensures r.Some? ==> from <= r.value.at < bound && matcher(r.value.at) == Some(r.value.value)
    ensures r.Some? ==> forall k :: from <= k < r.value.at ==> matcher(k).None?
    ensures r.None? ==> forall k :: from <= k < bound ==> matcher(k).None?
    decreases bound - from
  {
    if from >= bound then None
    else match matcher(from)
      case Some(v) => Some(Hit(from, v))
      case None => FirstFrom(from + 1, bound, matcher)
  }

  /** The leftmost hit is determined by the matcher alone: any position that
      matches, with no match before it, is the one reported. */
  lemma FirstFromUnique<T>(from: nat, bound: nat, matcher: nat -> Option<T>, k: nat)
    requires from <= k < bound && matcher(k).Some?
    requires forall j :: from <= j < k ==> matcher(j).None?
    ensures FirstFrom(from, bound, matcher) == Some(Hit(k, matcher(k).value))
  {
  }
}
