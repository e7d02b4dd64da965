/**
 Rewriting the last element of a sequence that a predicate hits, and how that commutes with
 looking at a part of the sequence only.
 */
module BackwardScan {
  import opened Wrappers

  /** Rewrite the last element that is hit, if there is one. */
  function RewriteLast<X>(t: seq<X>, hits: X -> bool, rewrite: X -> X): (r: Option<seq<X>>)
    ensures r.Some? ==> |r.value| == |t|
    ensures r.None? <==> forall x | x in t :: !hits(x)
  {
    if t == [] then None
    else
      var n := |t| - 1;
      if hits(t[n]) then Some(t[..n] + [rewrite(t[n])])
      else
        match RewriteLast(t[..n], hits, rewrite)
        case None => None
        case Some(u) => Some(u + [t[n]])
  }

  /** It rewrites position i, the last one hit, and nothing else. */
  lemma {:induction false} RewriteLastAt<X>(t: seq<X>, hits: X -> bool, rewrite: X -> X, i: nat)
    requires i < |t| && hits(t[i]) && forall j | i < j < |t| :: !hits(t[j])
    ensures RewriteLast(t, hits, rewrite) == Some(t[i := rewrite(t[i])])
  {
    var n := |t| - 1;
    if i < n {
      RewriteLastAt(t[..n], hits, rewrite, i);
      assert t[..n][i := rewrite(t[i])] + [t[n]] == t[i := rewrite(t[i])];
    } else {
      assert t[..n] + [rewrite(t[n])] == t[i := rewrite(t[i])];
    }
  }

  /** The position it stops at. */
  lemma {:induction false} LastHitAt<X>(t: seq<X>, hits: X -> bool, rewrite: X -> X) returns (i: nat)
    requires RewriteLast(t, hits, rewrite).Some?
    ensures i < |t| && hits(t[i]) && forall j | i < j < |t| :: !hits(t[j])
  {
    var n := |t| - 1;
    if hits(t[n]) {
      i := n;
    } else {
      i := LastHitAt(t[..n], hits, rewrite);
    }
  }

  function Filter<X(!new)>(t: seq<X>, keep: X -> bool): (r: seq<X>)
    ensures forall x :: x in r <==> x in t && keep(x)
  {
    if t == [] then []
    else Filter(t[..|t| - 1], keep) + if keep(t[|t| - 1]) then [t[|t| - 1]] else []
  }

  lemma FilterSnoc<X(!new)>(t: seq<X>, x: X, keep: X -> bool)
    ensures Filter(t + [x], keep) == Filter(t, keep) + if keep(x) then [x] else []
  {
  }

  lemma {:induction false} FilterAppend<X(!new)>(a: seq<X>, b: seq<X>, keep: X -> bool)
    ensures Filter(a + b, keep) == Filter(a, keep) + Filter(b, keep)
  {
    if b == [] {
      assert a + b == a;
    } else {
      var n := |b| - 1;
      assert a + b == (a + b[..n]) + [b[n]];
      FilterSnoc(a + b[..n], b[n], keep);
      FilterAppend(a, b[..n], keep);
    }
  }

  /** A part that is kept throughout, or not at all. */
  lemma {:induction false} FilterUniform<X(!new)>(t: seq<X>, keep: X -> bool)
    ensures (forall x | x in t :: keep(x)) ==> Filter(t, keep) == t
    ensures (forall x | x in t :: !keep(x)) ==> Filter(t, keep) == []
  {
    if t != [] {
      var n := |t| - 1;
      FilterUniform(t[..n], keep);
      assert t == t[..n] + [t[n]];
      assert forall x | x in t[..n] :: x in t;
      assert t[n] in t;
    }
  }

  /** One more element at the end: hit and rewritten, or left alone. */
  lemma ScanSnoc<X>(t: seq<X>, x: X, hits: X -> bool, rewrite: X -> X)
    ensures RewriteLast(t + [x], hits, rewrite) ==
      if hits(x) then Some(t + [rewrite(x)])
      else match RewriteLast(t, hits, rewrite) case None => None case Some(u) => Some(u + [x])
  {
  }

  /** If only kept elements are hit, scanning and then filtering is filtering and then scanning. */
  lemma {:induction false} ScanCommutes<X(!new)>(t: seq<X>, hits: X -> bool, rewrite: X -> X, keep: X -> bool)
    requires forall x | x in t && hits(x) :: keep(x) && keep(rewrite(x))
    ensures RewriteLast(Filter(t, keep), hits, rewrite) ==
      match RewriteLast(t, hits, rewrite) case None => None case Some(u) => Some(Filter(u, keep))
  {
    if t != [] {
      var x, front := t[|t| - 1], t[..|t| - 1];
      assert t == front + [x] && x in t && forall y | y in front :: y in t;
      ScanSnoc(front, x, hits, rewrite);
      FilterSnoc(front, x, keep);
      if hits(x) {
        ScanSnoc(Filter(front, keep), x, hits, rewrite);
        FilterSnoc(front, rewrite(x), keep);
      } else {
        ScanCommutes(front, hits, rewrite, keep);
        ScanCommutesPast(front, x, hits, rewrite, keep);
      }
    }
  }

  lemma ScanCommutesPast<X(!new)>(front: seq<X>, x: X, hits: X -> bool, rewrite: X -> X, keep: X -> bool)
    requires !hits(x)
    requires RewriteLast(Filter(front, keep), hits, rewrite) ==
      match RewriteLast(front, hits, rewrite) case None => None case Some(u) => Some(Filter(u, keep))
    ensures RewriteLast(Filter(front + [x], keep), hits, rewrite) ==
      match RewriteLast(front, hits, rewrite) case None => None case Some(u) => Some(Filter(u + [x], keep))
  {
    FilterSnoc(front, x, keep);
    var u := RewriteLast(front, hits, rewrite);
    if u.Some? { FilterSnoc(u.value, x, keep); }
    if keep(x) {
      ScanSnoc(Filter(front, keep), x, hits, rewrite);
    } else {
      assert Filter(front, keep) + [] == Filter(front, keep);
      if u.Some? { assert Filter(u.value, keep) + [] == Filter(u.value, keep); }
    }
  }

  /** If no kept element is hit or results, the scan cannot be seen through the filter. */
  lemma {:induction false} ScanInvisible<X(!new)>(t: seq<X>, hits: X -> bool, rewrite: X -> X, keep: X -> bool)
    requires forall x | x in t && hits(x) :: !keep(x) && !keep(rewrite(x))
    requires RewriteLast(t, hits, rewrite).Some?
    ensures Filter(RewriteLast(t, hits, rewrite).value, keep) == Filter(t, keep)
  {
    var n := |t| - 1;
    if hits(t[n]) {
      FilterSnoc(t[..n], rewrite(t[n]), keep);
    } else {
      ScanInvisible(t[..n], hits, rewrite, keep);
      FilterSnoc(RewriteLast(t[..n], hits, rewrite).value, t[n], keep);
    }
  }

  /** The scan keeps what holds of every element, if the rewriting does. */
  lemma ScanPreserves<X>(t: seq<X>, hits: X -> bool, rewrite: X -> X, p: X -> bool)
    requires forall x | x in t :: p(x)
    requires forall x | x in t && hits(x) :: p(rewrite(x))
    requires RewriteLast(t, hits, rewrite).Some?
    ensures forall x | x in RewriteLast(t, hits, rewrite).value :: p(x)
  {
  }
}
