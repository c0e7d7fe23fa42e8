/** Element-wise arithmetic on equal-length vectors of reals (what numpy does
    with `+` and `/` on 1-d arrays), and the arithmetic mean of a group of such
    vectors, the `_mean` helper of AveragedOrientationTuning.analyse. */
module Averaging {

  function Zeros(n: nat): (z: seq<real>)
    ensures |z| == n
    ensures forall j :: 0 <= j < n ==> z[j] == 0.0
  {
    seq(n, _ => 0.0)
  }

  function Add(u: seq<real>, v: seq<real>): (w: seq<real>)
    requires |u| == |v|
    ensures |w| == |u|
    ensures forall j :: 0 <= j < |w| ==> w[j] == u[j] + v[j]
  {
    seq(|u|, j requires 0 <= j < |u| => u[j] + v[j])
  }

  function Div(v: seq<real>, c: real): (w: seq<real>)
    requires c != 0.0
    ensures |w| == |v|
    ensures forall j :: 0 <= j < |w| ==> w[j] == v[j] / c
  {
    seq(|v|, j requires 0 <= j < |v| => v[j] / c)
  }

  /** Every vector of vs has the given width. */
  predicate Rectangular(vs: seq<seq<real>>, width: nat)
  {
    forall k :: 0 <= k < |vs| ==> |vs[k]| == width
  }

  /** Python's sum() over a list of arrays: the element-wise total, starting from zero. */
  function Sum(vs: seq<seq<real>>, width: nat): (r: seq<real>)
    requires Rectangular(vs, width)
    ensures |r| == width
  {
    if vs == [] then Zeros(width)
    else Add(Sum(vs[..|vs| - 1], width), vs[|vs| - 1])
  }

  /** `_mean(a)`: sum(a) / len(a) for a non-empty group of equal-length arrays. */
  function Mean(group: seq<seq<real>>): (m: seq<real>)
    requires |group| > 0 && Rectangular(group, |group[0]|)
    ensures |m| == |group[0]|
  {
    Div(Sum(group, |group[0]|), |group| as real)
  }

  /** Line 69: one mean per collapsed group, in the order of the groups. */
  function MeanRates(groups: seq<seq<seq<real>>>): (rates: seq<seq<real>>)
    requires forall i :: 0 <= i < |groups| ==> |groups[i]| > 0 && Rectangular(groups[i], |groups[i][0]|)
    ensures |rates| == |groups|
    ensures forall i :: 0 <= i < |groups| ==> |rates[i]| == |groups[i][0]| && rates[i] == Mean(groups[i])
  {
    seq(|groups|, i requires 0 <= i < |groups| => Mean(groups[i]))
  }

  /** Appending one vector to the list adds it to the total. */
  lemma SumAppend(vs: seq<seq<real>>, v: seq<real>, width: nat)
    requires Rectangular(vs, width) && |v| == width
    ensures Rectangular(vs + [v], width)
    ensures Sum(vs + [v], width) == Add(Sum(vs, width), v)
  {
    assert (vs + [v])[..|vs|] == vs;
  }

  /** The total does not depend on how the list is split: the sum of a
      concatenation is the element-wise sum of the two totals. */
  lemma {:induction false} SumConcat(a: seq<seq<real>>, b: seq<seq<real>>, width: nat)
    requires Rectangular(a, width) && Rectangular(b, width)
    ensures Rectangular(a + b, width)
    ensures Sum(a + b, width) == Add(Sum(a, width), Sum(b, width))
  {
    if b == [] {
      assert a + b == a;
      AddZeros(Sum(a, width));
    } else {
      var init, last := b[..|b| - 1], b[|b| - 1];
      assert b == init + [last];
      assert a + b == (a + init) + [last];
      SumConcat(a, init, width);
      SumAppend(a + init, last, width);
      SumAppend(init, last, width);
      AddAssociative(Sum(a, width), Sum(init, width), last);
    }
  }

  lemma AddZeros(u: seq<real>)
    ensures Add(u, Zeros(|u|)) == u
  {
  }

  lemma AddAssociative(u: seq<real>, v: seq<real>, w: seq<real>)
    requires |u| == |v| == |w|
    ensures Add(Add(u, v), w) == Add(u, Add(v, w))
  {
  }

  /** The total of a single vector is that vector. */
  lemma SumOfOne(v: seq<real>)
    ensures Sum([v], |v|) == v
  {
    assert [v][..0] == [];
  }

  /** Component j of the total of n vectors whose j-th components lie in
      [lo, hi] lies in [n * lo, n * hi]. */
  lemma {:induction false} SumBounds(vs: seq<seq<real>>, width: nat, lo: real, hi: real, j: nat)
    requires Rectangular(vs, width) && j < width
    requires forall k :: 0 <= k < |vs| ==> lo <= vs[k][j] <= hi
    ensures (|vs| as real) * lo <= Sum(vs, width)[j] <= (|vs| as real) * hi
  {
    if vs != [] {
      var init := vs[..|vs| - 1];
      assert forall k :: 0 <= k < |init| ==> init[k] == vs[k];
      SumBounds(init, width, lo, hi, j);
      BoundsStep(|init|, |vs|, Sum(init, width)[j], vs[|vs| - 1][j], lo, hi);
    }
  }

  /** One more term in [lo, hi] on top of a total of n such terms. */
  lemma BoundsStep(n: nat, m: nat, total: real, x: real, lo: real, hi: real)
    requires m == n + 1
    requires (n as real) * lo <= total <= (n as real) * hi
    requires lo <= x <= hi
    ensures (m as real) * lo <= total + x <= (m as real) * hi
  {
    assert (m as real) * lo == (n as real) * lo + lo;
    assert (m as real) * hi == (n as real) * hi + hi;
  }

  /** The mean of a group never leaves the range its members stay in. */
  lemma MeanBounds(group: seq<seq<real>>, lo: real, hi: real)
    requires |group| > 0 && Rectangular(group, |group[0]|)
    requires forall k, j :: 0 <= k < |group| && 0 <= j < |group[k]| ==> lo <= group[k][j] <= hi
    ensures forall j :: 0 <= j < |group[0]| ==> lo <= Mean(group)[j] <= hi
  {
    forall j | 0 <= j < |group[0]|
      ensures lo <= Mean(group)[j] <= hi
    {
      MeanEntryBounds(group, lo, hi, j);
    }
  }

  lemma MeanEntryBounds(group: seq<seq<real>>, lo: real, hi: real, j: nat)
    requires |group| > 0 && Rectangular(group, |group[0]|) && j < |group[0]|
    requires forall k :: 0 <= k < |group| ==> lo <= group[k][j] <= hi
    ensures lo <= Mean(group)[j] <= hi
  {
    var width := |group[0]|;
    SumBounds(group, width, lo, hi, j);
    AverageBounds(Sum(group, width)[j], |group| as real, lo, hi);
  }

  /** A total of n terms in [lo, hi], divided by n, lies in [lo, hi]. */
  lemma AverageBounds(total: real, n: real, lo: real, hi: real)
    requires n > 0.0 && n * lo <= total <= n * hi
    ensures lo <= total / n <= hi
  {
    DivMonotone(n * lo, total, n);
    DivMonotone(total, n * hi, n);
    DivCancel(lo, n);
    DivCancel(hi, n);
  }

  lemma DivCancel(a: real, n: real)
    requires n != 0.0
    ensures (n * a) / n == a
  {
  }

  lemma DivMonotone(a: real, b: real, n: real)
    requires n > 0.0 && a <= b
    ensures a / n <= b / n
  {
    assert b / n - a / n == (b - a) / n;
  }

  /** A group of a single array has that array as its mean. */
  lemma MeanOfOne(v: seq<real>)
    ensures Mean([v]) == v
  {
    SumOfOne(v);
    assert Mean([v]) == Div(v, 1.0);
  }

  /** The total of n copies of v is n times v, component by component. */
  lemma {:induction false} SumOfCopies(group: seq<seq<real>>, v: seq<real>)
    requires forall k :: 0 <= k < |group| ==> group[k] == v
    ensures Rectangular(group, |v|)
    ensures forall j :: 0 <= j < |v| ==> Sum(group, |v|)[j] == (|group| as real) * v[j]
  {
    if group != [] {
      var init := group[..|group| - 1];
      SumOfCopies(init, v);
      forall j | 0 <= j < |v|
        ensures Sum(group, |v|)[j] == (|group| as real) * v[j]
      {
        assert Sum(group, |v|)[j] == Sum(init, |v|)[j] + v[j];
      }
    }
  }

  /** Averaging N copies of one array gives that array back. */
  lemma MeanOfCopies(group: seq<seq<real>>, v: seq<real>)
    requires |group| > 0
    requires forall k :: 0 <= k < |group| ==> group[k] == v
    ensures Rectangular(group, |v|) && Mean(group) == v
  {
    SumOfCopies(group, v);
    var n := |group| as real;
    forall j | 0 <= j < |v|
      ensures Mean(group)[j] == v[j]
    {
      assert Mean(group)[j] == (n * v[j]) / n;
    }
  }

  /** Every rate of line 69 stays within the bounds [lo[i], hi[i]] that the
      arrays of its own group i stay within. */
  lemma MeanRatesBounds(groups: seq<seq<seq<real>>>, lo: seq<real>, hi: seq<real>)
    requires |lo| == |groups| && |hi| == |groups|
    requires forall i :: 0 <= i < |groups| ==> |groups[i]| > 0 && Rectangular(groups[i], |groups[i][0]|)
    requires forall i, k, j :: 0 <= i < |groups| && 0 <= k < |groups[i]| && 0 <= j < |groups[i][k]| ==>
      lo[i] <= groups[i][k][j] <= hi[i]
    ensures forall i, j :: 0 <= i < |groups| && 0 <= j < |MeanRates(groups)[i]| ==>
      lo[i] <= MeanRates(groups)[i][j] <= hi[i]
  {
    forall i | 0 <= i < |groups|
      ensures forall j :: 0 <= j < |groups[i][0]| ==> lo[i] <= Mean(groups[i])[j] <= hi[i]
    {
      MeanBounds(groups[i], lo[i], hi[i]);
    }
  }

  /** When every group holds copies of one array, line 69 returns those arrays. */
  lemma MeanRatesOfCopies(groups: seq<seq<seq<real>>>, vs: seq<seq<real>>)
    requires |groups| == |vs|
    requires forall i :: 0 <= i < |groups| ==> |groups[i]| > 0
    requires forall i, k :: 0 <= i < |groups| && 0 <= k < |groups[i]| ==> groups[i][k] == vs[i]
    ensures forall i :: 0 <= i < |groups| ==> Rectangular(groups[i], |groups[i][0]|)
    ensures MeanRates(groups) == vs
  {
    forall i | 0 <= i < |groups|
      ensures Rectangular(groups[i], |groups[i][0]|) && Mean(groups[i]) == vs[i]
    {
      MeanOfCopies(groups[i], vs[i]);
    }
  }
}
