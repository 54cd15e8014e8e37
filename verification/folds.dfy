/** Running minimum, maximum and sum as the reduction keeps them, and the
    facts about folding them that make the merge independent of how the
    work was split and in which order the workers finished. */
module Folds {

  /** A running minimum: the initial sentinel DBL_MAX, which lies above
      every distance, or a distance that has been seen. */
  datatype Bound = DblMax | Value(v: real)

  /** The comparison `a > b` the reduction uses to decide whether to
      replace its running minimum. */
  predicate Above(a: Bound, b: Bound) {
    match a
    case DblMax => b.Value?
    case Value(x) => b.Value? && x > b.v
  }

  /** `if (a > b) a = b;`: the smaller of the two. */
  function Meet(a: Bound, b: Bound): (r: Bound)
    ensures !Above(r, a) && !Above(r, b)
    ensures r == a || r == b
  {
    if Above(a, b) then b else a
  }

  /** `if (a < b) a = b;`: the larger of the two. */
  function Join(a: real, b: real): (r: real)
    ensures a <= r && b <= r
    ensures r == a || r == b
  {
    if a < b then b else a
  }

  /** The running minimum after folding `ds` in order, starting at DblMax. */
  function MinOf(ds: seq<real>): Bound
  {
    if |ds| == 0 then DblMax else Meet(MinOf(ds[..|ds| - 1]), Value(ds[|ds| - 1]))
  }

  /** The running maximum after folding `ds` in order, starting at `init`. */
  function MaxFrom(init: real, ds: seq<real>): real
  {
    if |ds| == 0 then init else Join(MaxFrom(init, ds[..|ds| - 1]), ds[|ds| - 1])
  }

  /** The running sum after adding up `ds` in order, starting at 0. */
  function Sum(ds: seq<real>): real
  {
    if |ds| == 0 then 0.0 else Sum(ds[..|ds| - 1]) + ds[|ds| - 1]
  }

  /** The shared minimum after merging the bounds `bs` in order into `init`. */
  function MeetAll(init: Bound, bs: seq<Bound>): Bound
  {
    if |bs| == 0 then init else Meet(MeetAll(init, bs[..|bs| - 1]), bs[|bs| - 1])
  }

  /** `order` lists each index of `[0, t)` exactly once. */
  predicate IsOrder(order: seq<nat>, t: nat) {
    && |order| == t
    && (forall m :: 0 <= m < |order| ==> order[m] < t)
    && (forall k :: 0 <= k < t ==> k in order)
    && (forall a, b :: 0 <= a < b < |order| ==> order[a] != order[b])
  }

  /** The elements of `xs` in the order `order` names them. */
  function Reorder<T>(xs: seq<T>, order: seq<nat>): (r: seq<T>)
    requires IsOrder(order, |xs|)
    ensures |r| == |xs|
  {
    seq(|order|, m requires 0 <= m < |order| => xs[order[m]])
  }

  /** The running minimum stays DBL_MAX exactly when nothing was folded,
      is at most every folded distance, and is one of them otherwise. */
  lemma {:induction false} MinOfIsLeast(ds: seq<real>)
    ensures MinOf(ds) == DblMax <==> |ds| == 0
    ensures forall m :: 0 <= m < |ds| ==> !Above(MinOf(ds), Value(ds[m]))
    ensures MinOf(ds).Value? ==> MinOf(ds).v in ds
    decreases |ds|
  {
    if |ds| > 0 {
      MinOfIsLeast(ds[..|ds| - 1]);
    }
  }

  /** The running maximum is at least its start and every folded
      distance, and is its start or one of them. */
  lemma {:induction false} MaxFromIsGreatest(init: real, ds: seq<real>)
    ensures init <= MaxFrom(init, ds)
    ensures forall m :: 0 <= m < |ds| ==> ds[m] <= MaxFrom(init, ds)
    ensures MaxFrom(init, ds) == init || MaxFrom(init, ds) in ds
    decreases |ds|
  {
    if |ds| > 0 {
      MaxFromIsGreatest(init, ds[..|ds| - 1]);
    }
  }

  /** The merged minimum is at most the start and every merged bound, and
      is the start or one of them. */
  lemma {:induction false} MeetAllIsLeast(init: Bound, bs: seq<Bound>)
    ensures !Above(MeetAll(init, bs), init)
    ensures forall m :: 0 <= m < |bs| ==> !Above(MeetAll(init, bs), bs[m])
    ensures MeetAll(init, bs) == init || MeetAll(init, bs) in bs
    decreases |bs|
  {
    if |bs| > 0 {
      MeetAllIsLeast(init, bs[..|bs| - 1]);
    }
  }

  /** Merging one more bound into a merged prefix. */
  lemma MeetAllStep(init: Bound, bs: seq<Bound>, m: nat)
    requires m < |bs|
    ensures MeetAll(init, bs[..m + 1]) == Meet(MeetAll(init, bs[..m]), bs[m])
  {
    assert bs[..m + 1][..m] == bs[..m];
  }

  /** Folding one more value into the maximum of a prefix. */
  lemma MaxFromStep(init: real, xs: seq<real>, m: nat)
    requires m < |xs|
    ensures MaxFrom(init, xs[..m + 1]) == Join(MaxFrom(init, xs[..m]), xs[m])
  {
    assert xs[..m + 1][..m] == xs[..m];
  }

  lemma MeetAssociative(a: Bound, b: Bound, c: Bound)
    ensures Meet(Meet(a, b), c) == Meet(a, Meet(b, c))
  {
  }

  /** Folding the minimum over a concatenation is meeting the two folds. */
  lemma {:induction false} MinOfAppend(xs: seq<real>, ys: seq<real>)
    ensures MinOf(xs + ys) == Meet(MinOf(xs), MinOf(ys))
    decreases |ys|
  {
    if |ys| == 0 {
      assert xs + ys == xs;
    } else {
      var init := ys[..|ys| - 1];
      assert (xs + ys)[..|xs + ys| - 1] == xs + init;
      MinOfAppend(xs, init);
      MeetAssociative(MinOf(xs), MinOf(init), Value(ys[|ys| - 1]));
    }
  }

  /** Folding the maximum over a concatenation folds the second part
      starting where the first part left off. */
  lemma {:induction false} MaxFromAppend(init: real, xs: seq<real>, ys: seq<real>)
    ensures MaxFrom(init, xs + ys) == MaxFrom(MaxFrom(init, xs), ys)
    decreases |ys|
  {
    if |ys| == 0 {
      assert xs + ys == xs;
    } else {
      var front := ys[..|ys| - 1];
      assert (xs + ys)[..|xs + ys| - 1] == xs + front;
      MaxFromAppend(init, xs, front);
    }
  }

  /** A non-negative starting maximum can be joined in afterwards. */
  lemma {:induction false} MaxFromNonNegative(init: real, ds: seq<real>)
    requires 0.0 <= init
    ensures MaxFrom(init, ds) == Join(init, MaxFrom(0.0, ds))
    decreases |ds|
  {
    if |ds| > 0 {
      MaxFromNonNegative(init, ds[..|ds| - 1]);
    }
  }

  lemma {:induction false} SumAppend(xs: seq<real>, ys: seq<real>)
    ensures Sum(xs + ys) == Sum(xs) + Sum(ys)
    decreases |ys|
  {
    if |ys| == 0 {
      assert xs + ys == xs;
    } else {
      var front := ys[..|ys| - 1];
      assert (xs + ys)[..|xs + ys| - 1] == xs + front;
      SumAppend(xs, front);
    }
  }

  /** Every folded distance lies between the running minimum and the
      running maximum. */
  lemma MinMaxBracket(ds: seq<real>)
    requires |ds| > 0
    ensures MinOf(ds).Value?
    ensures forall m :: 0 <= m < |ds| ==> MinOf(ds).v <= ds[m] <= MaxFrom(0.0, ds)
  {
    MinOfIsLeast(ds);
    MaxFromIsGreatest(0.0, ds);
  }

  /** The sum of `ds` lies between |ds| times its minimum and |ds| times
      its maximum. */
  lemma {:induction false} SumBetween(ds: seq<real>, lo: real, hi: real)
    requires forall m :: 0 <= m < |ds| ==> lo <= ds[m] <= hi
    ensures (|ds| as real) * lo <= Sum(ds) <= (|ds| as real) * hi
    decreases |ds|
  {
    if |ds| > 0 {
      SumBetween(ds[..|ds| - 1], lo, hi);
      assert (|ds| as real) * lo == ((|ds| - 1) as real) * lo + lo;
      assert (|ds| as real) * hi == ((|ds| - 1) as real) * hi + hi;
    }
  }

  /** The average of a non-empty run of distances lies between its
      running minimum and its running maximum. */
  lemma AverageWithinBounds(ds: seq<real>)
    requires |ds| > 0
    ensures MinOf(ds).Value?
    ensures MinOf(ds).v <= Sum(ds) / (|ds| as real) <= MaxFrom(0.0, ds)
  {
    var c, total, lo, hi := |ds| as real, Sum(ds), MinOf(ds).v, MaxFrom(0.0, ds);
    MinMaxBracket(ds);
    SumBetween(ds, lo, hi);
    QuotientBetween(total, c, total / c, lo, hi);
  }

  /** A quotient of a total that lies between c * lo and c * hi lies
      between lo and hi. */
  lemma QuotientBetween(total: real, c: real, q: real, lo: real, hi: real)
    requires 0.0 < c && q == total / c && c * lo <= total <= c * hi
    ensures lo <= q <= hi
  {
    assert q * c == total;
    assert (q - lo) * c == total - c * lo;
    assert (hi - q) * c == c * hi - total;
  }

  /** Two folds of the minimum over the same elements agree, whatever
      the order and multiplicity of those elements. */
  lemma MeetAllSameElements(init: Bound, bs: seq<Bound>, cs: seq<Bound>)
    requires forall b :: b in bs <==> b in cs
    ensures MeetAll(init, bs) == MeetAll(init, cs)
  {
    var r, s := MeetAll(init, bs), MeetAll(init, cs);
    MeetAllIsLeast(init, bs);
    MeetAllIsLeast(init, cs);
    assert !Above(r, s) by {
      if s != init {
        var m :| 0 <= m < |bs| && bs[m] == s;
      }
    }
    assert !Above(s, r) by {
      if r != init {
        var m :| 0 <= m < |cs| && cs[m] == r;
      }
    }
  }

  /** Two folds of the maximum over the same elements agree. */
  lemma MaxFromSameElements(init: real, xs: seq<real>, ys: seq<real>)
    requires forall x :: x in xs <==> x in ys
    ensures MaxFrom(init, xs) == MaxFrom(init, ys)
  {
    var r, s := MaxFrom(init, xs), MaxFrom(init, ys);
    MaxFromIsGreatest(init, xs);
    MaxFromIsGreatest(init, ys);
    assert s <= r by {
      if s != init {
        var m :| 0 <= m < |xs| && xs[m] == s;
      }
    }
    assert r <= s by {
      if r != init {
        var m :| 0 <= m < |ys| && ys[m] == r;
      }
    }
  }

  lemma ReorderSameElements<T>(xs: seq<T>, order: seq<nat>)
    requires IsOrder(order, |xs|)
    ensures forall x :: x in Reorder(xs, order) <==> x in xs
  {
    var r := Reorder(xs, order);
    forall x | x in xs ensures x in r {
      var k :| 0 <= k < |xs| && xs[k] == x;
      assert k in order;
      var m :| 0 <= m < |order| && order[m] == k;
      assert r[m] == x;
    }
  }

  /** Merging local minima into a shared minimum gives the same result
      whatever order the merges happen in. */
  lemma MeetAllReorder(init: Bound, bs: seq<Bound>, order: seq<nat>)
    requires IsOrder(order, |bs|)
    ensures MeetAll(init, Reorder(bs, order)) == MeetAll(init, bs)
  {
    ReorderSameElements(bs, order);
    MeetAllSameElements(init, Reorder(bs, order), bs);
  }

  /** Merging local maxima into a shared maximum gives the same result
      whatever order the merges happen in. */
  lemma MaxFromReorder(init: real, xs: seq<real>, order: seq<nat>)
    requires IsOrder(order, |xs|)
    ensures MaxFrom(init, Reorder(xs, order)) == MaxFrom(init, xs)
  {
    ReorderSameElements(xs, order);
    MaxFromSameElements(init, Reorder(xs, order), xs);
  }
}
