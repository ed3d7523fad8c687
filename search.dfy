/**
 * Python's `next(x for x in xs if p(x))` taken as a position: the handler's `except` chains,
 * its search for an incomplete-read record and the image sniffer's table all pick the first
 * element that passes a test.
 */
module Search {
  import opened Wrappers

  /** The index of the first element of `xs` satisfying `p`; `None` when no element does. */
  function FirstIndex<T>(xs: seq<T>, p: T -> bool): (r: Option<nat>)
    ensures r.Some? ==> r.value < |xs| && p(xs[r.value])
    ensures r.Some? ==> forall j :: 0 <= j < r.value ==> !p(xs[j])
    ensures r.None? <==> forall j :: 0 <= j < |xs| ==> !p(xs[j])
    decreases |xs|
  {
    if xs == [] then None
    else if p(xs[0]) then Some(0)
    else match FirstIndex(xs[1..], p)
      case None => None
      case Some(i) => Some(i + 1)
  }
}
