/** How many elements of a sequence have a property. */
module Places {
  import opened Prelude

  /** The places of the elements with a property. */
  function Where<T>(xs: seq<T>, p: T -> bool): set<nat> {
    set i: nat | i < |xs| && p(xs[i])
  }

  lemma WhereWithout<T>(xs: seq<T>, i: nat, p: T -> bool)
    requires i < |xs|
    ensures |Where(xs, p)| == |Where(xs, p) - {i}| + Unit(p(xs[i]))
  {
    if p(xs[i]) {
      assert Where(xs, p) == (Where(xs, p) - {i}) + {i};
    } else {
      assert Where(xs, p) == Where(xs, p) - {i};
    }
  }

  lemma WhereElsewhere<T>(xs: seq<T>, i: nat, r: T, p: T -> bool)
    requires i < |xs|
    ensures Where(xs[i := r], p) - {i} == Where(xs, p) - {i}
  {
    var xs' := xs[i := r];
    forall j: nat | j != i
      ensures j in Where(xs', p) <==> j in Where(xs, p)
    {
      assert j < |xs| ==> xs'[j] == xs[j];
    }
  }

  lemma WhereUpdate<T>(xs: seq<T>, i: nat, r: T, p: T -> bool)
    requires i < |xs|
    ensures |Where(xs[i := r], p)| == |Where(xs, p)| - Unit(p(xs[i])) + Unit(p(r))
  {
    WhereElsewhere(xs, i, r, p);
    WhereWithout(xs, i, p);
    WhereWithout(xs[i := r], i, p);
  }

  lemma WhereAppend<T>(xs: seq<T>, r: T, p: T -> bool)
    ensures |Where(xs + [r], p)| == |Where(xs, p)| + Unit(p(r))
  {
    if p(r) {
      assert Where(xs + [r], p) == Where(xs, p) + {|xs|};
    } else {
      assert Where(xs + [r], p) == Where(xs, p);
    }
  }

  lemma WhereWeaker<T>(xs: seq<T>, p: T -> bool, q: T -> bool)
    requires forall i | 0 <= i < |xs| :: p(xs[i]) ==> q(xs[i])
    ensures |Where(xs, p)| <= |Where(xs, q)|
  {
    SubsetCard(Where(xs, p), Where(xs, q));
  }

  lemma WhereApart<T>(xs: seq<T>, p: T -> bool, q: T -> bool, r: T -> bool)
    requires forall i | 0 <= i < |xs| :: !(p(xs[i]) && q(xs[i])) && (p(xs[i]) || q(xs[i]) ==> r(xs[i]))
    ensures |Where(xs, p)| + |Where(xs, q)| <= |Where(xs, r)|
  {
    assert Where(xs, p) !! Where(xs, q);
    SubsetCard(Where(xs, p) + Where(xs, q), Where(xs, r));
  }

  lemma WhereSplit<T>(xs: seq<T>, p: T -> bool, q: T -> bool, r: T -> bool)
    requires forall i | 0 <= i < |xs| :: !(p(xs[i]) && q(xs[i])) && (p(xs[i]) || q(xs[i]) <==> r(xs[i]))
    ensures |Where(xs, p)| + |Where(xs, q)| == |Where(xs, r)|
  {
    assert Where(xs, p) !! Where(xs, q);
    assert Where(xs, p) + Where(xs, q) == Where(xs, r);
  }

  function Span(a: nat, b: nat): set<nat>
    decreases b
  {
    if b <= a then {} else Span(a, b - 1) + {b - 1}
  }

  lemma {:induction false} SpanIs(a: nat, b: nat)
    requires a <= b
    ensures |Span(a, b)| == b - a && forall i: nat :: i in Span(a, b) <==> a <= i < b
    decreases b
  {
    if a < b {
      SpanIs(a, b - 1);
    }
  }
}
