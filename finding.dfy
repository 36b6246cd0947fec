/** First-match search over an ordered sequence, as JavaScript's Array.prototype.find and Map.find do it. */
module Finding {
  import opened Options

  /** The index of the first element satisfying p, or None when none does. */
  function Find<T>(xs: seq<T>, p: T -> bool): (r: Option<nat>)
    ensures r.Some? ==> r.value < |xs| && p(xs[r.value])
    ensures r.Some? ==> forall j :: 0 <= j < r.value ==> !p(xs[j])
    ensures r.None? <==> forall j :: 0 <= j < |xs| ==> !p(xs[j])
    decreases |xs|
  {
    if |xs| == 0 then None
    else if p(xs[0]) then Some(0)
    else match Find(xs[1..], p)
      case None => None
      case Some(k) => Some(k + 1)
  }
}
