/** The first element of a sequence that a predicate picks. */
module Search {
  import opened Wrappers

  function FirstIndex<T>(xs: seq<T>, picks: T -> bool): (r: Option<nat>)
    ensures r.Some? ==> r.value < |xs| && picks(xs[r.value]) && forall j | 0 <= j < r.value :: !picks(xs[j])
    ensures r.None? ==> forall j | 0 <= j < |xs| :: !picks(xs[j])
  {
    if xs == [] then None
    else
      var n := |xs| - 1;
      var i := FirstIndex(xs[..n], picks);
      if i.Some? then i else if picks(xs[n]) then Some(n) else None
  }
}
