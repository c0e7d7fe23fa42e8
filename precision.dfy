/** The per-neuron block of Precision.analyse: the full-mode autocorrelation
    of a neuron's peri-stimulus time histogram (numpy.correlate(h, h, 'full')),
    divided by the sum of the squared bins when that sum is non-zero, and
    packaged as a trace over the recording window. The bins are spike counts,
    so the correlation is computed exactly over int; the division is the true
    division of the floating-point histogram array. */
module Precision {
  import opened Common
  import opened Averaging

  /** sum over j < i of h[j] * h[j + s], where the terms whose second index
      falls outside the histogram are left out, as numpy does. */
  function GuardedSum(h: seq<int>, s: int, i: nat): (r: int)
    requires i <= |h|
  {
    if i == 0 then 0
    else GuardedSum(h, s, i - 1) + (if 0 <= i - 1 + s < |h| then h[i - 1] * h[i - 1 + s] else 0)
  }

  /** The correlation of h with itself shifted by s bins. */
  function Lag(h: seq<int>, s: int): (r: int)
  {
    GuardedSum(h, s, |h|)
  }

  /** numpy.correlate(h, h, mode='full'): entry k is the lag k - (N - 1), for
      lags running from -(N - 1) to N - 1. */
  function Autocorrelation(h: seq<int>): (ac: seq<int>)
    requires |h| > 0
    ensures |ac| == 2 * |h| - 1
  {
    seq(2 * |h| - 1, k => Lag(h, k - (|h| - 1)))
  }

  /** numpy.sum(numpy.power(h, 2)). */
  function SumSquares(h: seq<int>): (r: int)
  {
    if h == [] then 0 else SumSquares(h[..|h| - 1]) + h[|h| - 1] * h[|h| - 1]
  }

  /** ac / total when total is non-zero; ac untouched otherwise. */
  function Scaled(ac: seq<int>, total: int): (r: seq<real>)
    ensures |r| == |ac|
    ensures forall k :: 0 <= k < |r| ==> r[k] == if total == 0 then ac[k] as real else (ac[k] as real) / (total as real)
  {
    seq(|ac|, k requires 0 <= k < |ac| => if total == 0 then ac[k] as real else (ac[k] as real) / (total as real))
  }

  /** Lines 196-198: the autocorrelation, normalised unless the histogram is silent. */
  function Normalised(h: seq<int>): (r: seq<real>)
    requires |h| > 0
    ensures |r| == 2 * |h| - 1
  {
    Scaled(Autocorrelation(h), SumSquares(h))
  }

  // ---------------------------------------------------------------------------
  // Sums over a contiguous range of bins, used to reason about Lag.

  /** sum over lo <= j < hi of h[j] * h[j + s]. */
  function Overlap(h: seq<int>, lo: int, hi: int, s: int): (r: int)
    requires 0 <= lo <= hi <= |h| && 0 <= lo + s && hi + s <= |h|
    decreases hi - lo
  {
    if lo == hi then 0 else Overlap(h, lo, hi - 1, s) + h[hi - 1] * h[hi - 1 + s]
  }

  function Max(a: int, b: int): (r: int) { if a < b then b else a }
  function Min(a: int, b: int): (r: int) { if a < b then a else b }

  /** The first index j with 0 <= j + s. */
  function First(n: nat, s: int): (r: int) { Max(0, -s) }
  /** One past the last index j with j + s < n. */
  function Last(n: nat, s: int): (r: int) { Min(n, n - s) }

  /** The guarded sum over j < i is the overlap over the part of [0, i) where the guard holds. */
  lemma {:induction false} GuardedAsOverlap(h: seq<int>, s: int, i: nat)
    requires -|h| < s < |h| && i <= |h|
    ensures var lo, hi := First(|h|, s), Last(|h|, s);
      GuardedSum(h, s, i) == Overlap(h, lo, Max(lo, Min(i, hi)), s)
  {
    if i > 0 {
      GuardedAsOverlap(h, s, i - 1);
    }
  }

  lemma LagAsOverlap(h: seq<int>, s: int)
    requires -|h| < s < |h|
    ensures Lag(h, s) == Overlap(h, First(|h|, s), Last(|h|, s), s)
  {
    GuardedAsOverlap(h, s, |h|);
  }

  /** Renaming j to j + s turns the overlap at lag s into the overlap at lag -s. */
  lemma {:induction false} OverlapReindex(h: seq<int>, lo: int, hi: int, s: int)
    requires 0 <= lo <= hi <= |h| && 0 <= lo + s && hi + s <= |h|
    ensures Overlap(h, lo, hi, s) == Overlap(h, lo + s, hi + s, -s)
    decreases hi - lo
  {
    if lo < hi {
      OverlapReindex(h, lo, hi - 1, s);
    }
  }

  /** The correlation at lag s equals the one at lag -s. */
  lemma LagSymmetric(h: seq<int>, s: int)
    requires -|h| < s < |h|
    ensures Lag(h, s) == Lag(h, -s)
  {
    LagAsOverlap(h, s);
    LagAsOverlap(h, -s);
    OverlapReindex(h, First(|h|, s), Last(|h|, s), s);
  }

  /** The full autocorrelation reads the same backwards. */
  lemma AutocorrelationSymmetric(h: seq<int>)
    requires |h| > 0
    ensures forall k :: 0 <= k < 2 * |h| - 1 ==>
      Autocorrelation(h)[k] == Autocorrelation(h)[2 * |h| - 2 - k]
  {
    forall k | 0 <= k < 2 * |h| - 1
      ensures Autocorrelation(h)[k] == Autocorrelation(h)[2 * |h| - 2 - k]
    {
      LagSymmetric(h, k - (|h| - 1));
    }
  }

  lemma {:induction false} GuardedZeroLag(h: seq<int>, i: nat)
    requires i <= |h|
    ensures GuardedSum(h, 0, i) == SumSquares(h[..i])
  {
    if i > 0 {
      GuardedZeroLag(h, i - 1);
      assert h[..i][..i - 1] == h[..i - 1];
    }
  }

  /** The middle entry, lag 0, is the sum of the squared bins. */
  lemma AutocorrelationPeak(h: seq<int>)
    requires |h| > 0
    ensures Autocorrelation(h)[|h| - 1] == SumSquares(h)
  {
    assert Autocorrelation(h)[|h| - 1] == Lag(h, 0);
    LagZero(h);
  }

  lemma LagZero(h: seq<int>)
    ensures Lag(h, 0) == SumSquares(h)
  {
    GuardedZeroLag(h, |h|);
    assert h[..|h|] == h;
  }

  // ---------------------------------------------------------------------------
  // Bounds: no lag exceeds lag 0 in magnitude.

  lemma {:induction false} SquaresNonNegative(h: seq<int>, lo: int, hi: int)
    requires 0 <= lo <= hi <= |h|
    ensures Overlap(h, lo, hi, 0) >= 0
    decreases hi - lo
  {
    if lo < hi {
      SquaresNonNegative(h, lo, hi - 1);
      SquareNonNegative(h[hi - 1]);
    }
  }

  lemma SquareNonNegative(x: int)
    ensures x * x >= 0
  {
  }

  lemma SquarePositive(x: int)
    requires x != 0
    ensures x * x > 0
  {
  }

  lemma {:induction false} OverlapSplit(h: seq<int>, a: int, b: int, c: int)
    requires 0 <= a <= b <= c <= |h|
    ensures Overlap(h, a, c, 0) == Overlap(h, a, b, 0) + Overlap(h, b, c, 0)
    decreases c - b
  {
    if b < c {
      OverlapSplit(h, a, b, c - 1);
    }
  }

  /** The squares over part of the histogram are at most all of them. */
  lemma SquaresWithinTotal(h: seq<int>, lo: int, hi: int)
    requires 0 <= lo <= hi <= |h|
    ensures Overlap(h, lo, hi, 0) <= Overlap(h, 0, |h|, 0)
  {
    OverlapSplit(h, 0, lo, |h|);
    OverlapSplit(h, lo, hi, |h|);
    SquaresNonNegative(h, 0, lo);
    SquaresNonNegative(h, hi, |h|);
  }

  /** 2ab and -2ab never exceed a^2 + b^2. */
  lemma ProductBound(a: int, b: int)
    ensures 2 * (a * b) <= a * a + b * b
    ensures -(2 * (a * b)) <= a * a + b * b
  {
    assert (a - b) * (a - b) == a * a + b * b - 2 * (a * b);
    assert (a + b) * (a + b) == a * a + b * b + 2 * (a * b);
    SquareNonNegative(a - b);
    SquareNonNegative(a + b);
  }

  lemma {:induction false} OverlapBound(h: seq<int>, lo: int, hi: int, s: int)
    requires 0 <= lo <= hi <= |h| && 0 <= lo + s && hi + s <= |h|
    ensures 2 * Overlap(h, lo, hi, s) <= Overlap(h, lo, hi, 0) + Overlap(h, lo + s, hi + s, 0)
    ensures -(2 * Overlap(h, lo, hi, s)) <= Overlap(h, lo, hi, 0) + Overlap(h, lo + s, hi + s, 0)
    decreases hi - lo
  {
    if lo < hi {
      OverlapBound(h, lo, hi - 1, s);
      ProductBound(h[hi - 1], h[hi - 1 + s]);
    }
  }

  lemma TotalIsSumSquares(h: seq<int>)
    ensures Overlap(h, 0, |h|, 0) == SumSquares(h)
  {
    if |h| > 0 {
      LagAsOverlap(h, 0);
      LagZero(h);
    }
  }

  /** Every lag lies in [-S, S], S the sum of the squared bins. */
  lemma LagBounded(h: seq<int>, s: int)
    requires -|h| < s < |h|
    ensures -SumSquares(h) <= Lag(h, s) <= SumSquares(h)
  {
    var lo, hi := First(|h|, s), Last(|h|, s);
    LagAsOverlap(h, s);
    OverlapBound(h, lo, hi, s);
    SquaresWithinTotal(h, lo, hi);
    SquaresWithinTotal(h, lo + s, hi + s);
    TotalIsSumSquares(h);
  }

  /** The sum of the squared bins is zero exactly when every bin is zero. */
  lemma SumSquaresZeroIff(h: seq<int>)
    ensures SumSquares(h) >= 0
    ensures SumSquares(h) == 0 <==> forall j :: 0 <= j < |h| ==> h[j] == 0
  {
    SumSquaresSilent(h);
    forall j | 0 <= j < |h| && h[j] != 0
      ensures SumSquares(h) > 0
    {
      SumSquaresPositive(h, j);
    }
  }

  lemma {:induction false} SumSquaresSilent(h: seq<int>)
    ensures SumSquares(h) >= 0
    ensures (forall j :: 0 <= j < |h| ==> h[j] == 0) ==> SumSquares(h) == 0
  {
    if h != [] {
      var init := h[..|h| - 1];
      SumSquaresSilent(init);
      SquareNonNegative(h[|h| - 1]);
      assert forall j :: 0 <= j < |init| ==> init[j] == h[j];
    }
  }

  /** One non-zero bin makes the sum of the squares positive. */
  lemma {:induction false} SumSquaresPositive(h: seq<int>, j: nat)
    requires j < |h| && h[j] != 0
    ensures SumSquares(h) > 0
  {
    var init, x := h[..|h| - 1], h[|h| - 1];
    SumSquaresSilent(init);
    if j == |h| - 1 {
      SquarePositive(x);
    } else {
      assert init[j] == h[j];
      SumSquaresPositive(init, j);
      SquareNonNegative(x);
    }
  }

  lemma DivWithinUnit(x: int, total: int)
    requires total > 0 && -total <= x <= total
    ensures -1.0 <= (x as real) / (total as real) <= 1.0
  {
    var t := total as real;
    DivMonotone(-t, x as real, t);
    DivMonotone(x as real, t, t);
    assert (-t) / t == -1.0;
  }

  // ---------------------------------------------------------------------------
  // The normalised autocorrelation.

  /** A histogram with some spike is normalised so that lag 0 is exactly 1. */
  lemma NormalisedPeak(h: seq<int>)
    requires |h| > 0 && SumSquares(h) != 0
    ensures Normalised(h)[|h| - 1] == 1.0
  {
    var t := SumSquares(h) as real;
    assert Normalised(h)[|h| - 1] == (Autocorrelation(h)[|h| - 1] as real) / t;
    AutocorrelationPeak(h);
    DivSelf(t);
  }

  lemma DivSelf(t: real)
    requires t != 0.0
    ensures t / t == 1.0
  {
  }

  /** No normalised lag leaves [-1, 1]. */
  lemma NormalisedBounded(h: seq<int>)
    requires |h| > 0 && SumSquares(h) != 0
    ensures forall k :: 0 <= k < 2 * |h| - 1 ==> -1.0 <= Normalised(h)[k] <= 1.0
  {
    SumSquaresZeroIff(h);
    forall k | 0 <= k < 2 * |h| - 1
      ensures -1.0 <= Normalised(h)[k] <= 1.0
    {
      NormalisedEntryBounded(h, k);
    }
  }

  lemma NormalisedEntryBounded(h: seq<int>, k: nat)
    requires |h| > 0 && SumSquares(h) > 0 && k < 2 * |h| - 1
    ensures -1.0 <= Normalised(h)[k] <= 1.0
  {
    var ac, total := Autocorrelation(h), SumSquares(h);
    assert Normalised(h)[k] == (ac[k] as real) / (total as real);
    LagBounded(h, k - (|h| - 1));
    DivWithinUnit(ac[k], total);
  }

  /** The division is skipped exactly for a silent histogram (all bins zero),
      which then gives 2N-1 zeros. */
  lemma NormalisedSilent(h: seq<int>)
    requires |h| > 0
    ensures SumSquares(h) == 0 <==> forall j :: 0 <= j < |h| ==> h[j] == 0
    ensures SumSquares(h) == 0 ==> forall k :: 0 <= k < 2 * |h| - 1 ==> Normalised(h)[k] == 0.0
  {
    SumSquaresZeroIff(h);
    if SumSquares(h) == 0 {
      forall k | 0 <= k < 2 * |h| - 1
        ensures Normalised(h)[k] == 0.0
      {
        LagBounded(h, k - (|h| - 1));
      }
    }
  }

  /** Normalising keeps the symmetry of the autocorrelation. */
  lemma NormalisedSymmetric(h: seq<int>)
    requires |h| > 0
    ensures forall k :: 0 <= k < 2 * |h| - 1 ==> Normalised(h)[k] == Normalised(h)[2 * |h| - 2 - k]
  {
    AutocorrelationSymmetric(h);
  }

  // ---------------------------------------------------------------------------
  // The computation, loop by loop.

  /** numpy.correlate(h, h, 'full') as two nested loops: one output entry per
      lag, each the sum of the products of the overlapping bins. */
  method Correlate(h: seq<int>) returns (ac: seq<int>)
    requires |h| > 0
    ensures ac == Autocorrelation(h)
  {
    var n := |h|;
    ac := [];
    var k := 0;
    while k < 2 * n - 1
      invariant 0 <= k <= 2 * n - 1
      invariant |ac| == k
      invariant forall i :: 0 <= i < k ==> ac[i] == Lag(h, i - (n - 1))
    {
      var s := k - (n - 1);
      var acc := 0;
      var j := 0;
      while j < n
        invariant 0 <= j <= n
        invariant acc == GuardedSum(h, s, j)
      {
        if 0 <= j + s < n {
          acc := acc + h[j] * h[j + s];
        }
        j := j + 1;
      }
      ac := ac + [acc];
      k := k + 1;
    }
  }

  /** numpy.sum(numpy.power(h, 2)) as a loop. */
  method SquareTotal(h: seq<int>) returns (total: int)
    ensures total == SumSquares(h)
  {
    total := 0;
    var j := 0;
    while j < |h|
      invariant 0 <= j <= |h|
      invariant total == SumSquares(h[..j])
    {
      assert h[..j + 1][..j] == h[..j];
      total := total + h[j] * h[j];
      j := j + 1;
    }
    assert h[..|h|] == h;
  }

  /** Lines 196-198 for one histogram: numpy.correlate fails on an empty one. */
  method NormalisedAutocorrelation(h: seq<int>) returns (r: Result<seq<real>>)
    ensures |h| == 0 ==> r == Err(EmptyHistogram)
    ensures |h| > 0 ==> r == Ok(Normalised(h))
  {
    if |h| == 0 {
      return Err(EmptyHistogram);
    }
    var ac := Correlate(h);
    var total := SquareTotal(h);
    var out := seq(|ac|, k requires 0 <= k < |ac| => ac[k] as real);
    if total != 0 {
      out := seq(|ac|, k requires 0 <= k < |ac| => (ac[k] as real) / (total as real));
    }
    assert forall k :: 0 <= k < |ac| ==> out[k] == Scaled(ac, total)[k];
    assert out == Scaled(ac, total);
    r := Ok(out);
  }

  /** The AnalogSignal appended to `al`: samples, start, stop and sampling period. */
  datatype Trace = Trace(samples: seq<real>, tStart: real, tStop: real, period: real)

  /** Line 199 for one histogram: the trace starts at -duration and stops one
      bin before +duration, one sample per bin. */
  function NeuronTrace(h: seq<int>, duration: real, binLength: real): (tr: Trace)
    requires |h| > 0
  {
    Trace(Normalised(h), -duration, duration - binLength, binLength)
  }

  /** What one neuron of the list contributes, or the error that stops the loop. */
  function TraceOf(hist: seq<seq<int>>, n: int, duration: real, binLength: real): (r: Result<Trace>)
  {
    match PyIndex(n, |hist|)
    case None => Err(NeuronOutOfRange)
    case Some(i) => if |hist[i]| == 0 then Err(EmptyHistogram) else Ok(NeuronTrace(hist[i], duration, binLength))
  }

  /** When the histogram covers the recording (N bins of binLength make up
      duration), the trace spans [-duration, duration - binLength] with its
      2N-1 samples, and the zero-lag sample (index N-1) sits at -binLength. */
  lemma NeuronTraceTiming(h: seq<int>, duration: real, binLength: real)
    requires |h| > 0 && (|h| as real) * binLength == duration
    ensures var t := NeuronTrace(h, duration, binLength);
      |t.samples| == 2 * |h| - 1
      && t.tStart + ((|t.samples| as real) * t.period) == t.tStop
      && t.tStart + ((|h| - 1) as real) * t.period == -binLength
  {
    var n := |h| as real;
    assert ((2 * |h| - 1) as real) * binLength == 2.0 * (n * binLength) - binLength;
    assert ((|h| - 1) as real) * binLength == n * binLength - binLength;
  }

  /** neurons[i] is the first neuron of the list that fails, with error e. */
  predicate FirstFailure(hist: seq<seq<int>>, neurons: seq<int>, duration: real, binLength: real, i: int, e: Error)
  {
    0 <= i < |neurons|
    && (forall j :: 0 <= j < i ==> TraceOf(hist, neurons[j], duration, binLength).Ok?)
    && TraceOf(hist, neurons[i], duration, binLength) == Err(e)
  }

  /** The loop over self.parameters.neurons: one trace per neuron, in order;
      the first neuron whose histogram is missing or empty aborts the loop. */
  method PrecisionTraces(hist: seq<seq<int>>, neurons: seq<int>, duration: real, binLength: real)
    returns (r: Result<seq<Trace>>)
    ensures r.Ok? <==> forall i :: 0 <= i < |neurons| ==> TraceOf(hist, neurons[i], duration, binLength).Ok?
    ensures r.Ok? ==> (|r.value| == |neurons|
      && forall i :: 0 <= i < |neurons| ==> r.value[i] == TraceOf(hist, neurons[i], duration, binLength).value)
    ensures r.Err? ==> exists i :: FirstFailure(hist, neurons, duration, binLength, i, r.error)
  {
    var al: seq<Trace> := [];
    var i := 0;
    while i < |neurons|
      invariant 0 <= i <= |neurons|
      invariant |al| == i
      invariant forall j :: 0 <= j < i ==> TraceOf(hist, neurons[j], duration, binLength).Ok?
      invariant forall j :: 0 <= j < i ==> al[j] == TraceOf(hist, neurons[j], duration, binLength).value
    {
      var n := neurons[i];
      var index := PyIndex(n, |hist|);
      if index.None? {
        assert FirstFailure(hist, neurons, duration, binLength, i, NeuronOutOfRange);
        return Err(NeuronOutOfRange);
      }
      var ac := NormalisedAutocorrelation(hist[index.value]);
      if ac.Err? {
        assert FirstFailure(hist, neurons, duration, binLength, i, ac.error);
        return Err(ac.error);
      }
      al := al + [Trace(ac.value, -duration, duration - binLength, binLength)];
      i := i + 1;
    }
    r := Ok(al);
  }
}
