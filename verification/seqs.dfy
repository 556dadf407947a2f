/** Sequence combinators shared by the row-by-row passes of the scheduler. */
module Seqs {
  import opened Options

  /** The values `f` produces for the elements of `xs`, in order, skipping
      the elements it produces nothing for. */
  function FilterMap<A, B(!new)>(xs: seq<A>, f: A -> Option<B>): (r: seq<B>)
    ensures |r| <= |xs|
    ensures forall y :: y in r <==> exists i :: 0 <= i < |xs| && f(xs[i]) == Some(y)
  {
    if |xs| == 0 then []
    else
      var rest := FilterMap(xs[1..], f);
      assert forall i :: 0 < i < |xs| ==> xs[i] == xs[1..][i - 1];
      assert forall i :: 0 <= i < |xs| - 1 ==> xs[1..][i] == xs[i + 1];
      match f(xs[0])
      case Some(y) => [y] + rest
      case None => rest
  }

  /** The pass works element by element: two batches give the values of
      each, in order. */
  lemma {:induction false} FilterMapAppend<A, B(!new)>(xs: seq<A>, ys: seq<A>, f: A -> Option<B>)
    ensures FilterMap(xs + ys, f) == FilterMap(xs, f) + FilterMap(ys, f)
    decreases |xs|
  {
    if |xs| == 0 {
      assert xs + ys == ys;
    } else {
      assert (xs + ys)[1..] == xs[1..] + ys;
      FilterMapAppend(xs[1..], ys, f);
    }
  }

  /** The elements of `xs` that satisfy `p`, in order. */
  function Filter<A(!new)>(xs: seq<A>, p: A -> bool): (r: seq<A>)
    ensures |r| <= |xs|
    ensures forall x :: x in r <==> x in xs && p(x)
  {
    if |xs| == 0 then []
    else
      assert forall x :: x in xs <==> x == xs[0] || x in xs[1..];
      (if p(xs[0]) then [xs[0]] else []) + Filter(xs[1..], p)
  }

  /** The selection works element by element: two batches give the
      selected elements of each, in order. */
  lemma {:induction false} FilterAppend<A(!new)>(xs: seq<A>, ys: seq<A>, p: A -> bool)
    ensures Filter(xs + ys, p) == Filter(xs, p) + Filter(ys, p)
    decreases |xs|
  {
    if |xs| == 0 {
      assert xs + ys == ys;
    } else {
      assert (xs + ys)[1..] == xs[1..] + ys;
      FilterAppend(xs[1..], ys, p);
    }
  }

  /** The distinct values of `xs` in order of first appearance. */
  function Distinct<A(==, !new)>(xs: seq<A>): (r: seq<A>)
    ensures forall x :: x in r <==> x in xs
    ensures forall i, j :: 0 <= i < j < |r| ==> r[i] != r[j]
  {
    if |xs| == 0 then []
    else
      var prev := Distinct(xs[..|xs| - 1]);
      var x := xs[|xs| - 1];
      assert xs == xs[..|xs| - 1] + [x];
      if x in prev then prev else prev + [x]
  }

  /** The values keep the order in which they first occur: a value listed
      before another occurs in `xs` before every occurrence of the other. */
  lemma {:induction false} DistinctFirstAppearance<A(!new)>(xs: seq<A>, i: nat, j: nat, k: nat)
    requires i < j < |Distinct(xs)| && k < |xs| && xs[k] == Distinct(xs)[j]
    ensures Distinct(xs)[i] in xs[..k]
    decreases |xs|
  {
    var init := xs[..|xs| - 1];
    var x := xs[|xs| - 1];
    var prev := Distinct(init);
    assert xs == init + [x];
    if j < |prev| {
      assert Distinct(xs)[i] == prev[i] && Distinct(xs)[j] == prev[j];
      if k < |xs| - 1 {
        assert init[k] == xs[k];
        DistinctFirstAppearance(init, i, j, k);
        assert init[..k] == xs[..k];
      } else {
        assert prev[j] in init;
        var k' :| 0 <= k' < |init| && init[k'] == prev[j];
        DistinctFirstAppearance(init, i, j, k');
        var m :| 0 <= m < k' && init[..k'][m] == prev[i];
        assert xs[..k][m] == prev[i];
      }
    } else {
      assert Distinct(xs) == prev + [x] && Distinct(xs)[i] == prev[i];
      assert forall m :: 0 <= m < |init| ==> xs[m] == init[m];
      assert x !in init;
      assert k == |xs| - 1;
      assert xs[..k] == init;
    }
  }
}
