/** Shared vocabulary of the analysis model: optional values, the failures the
    analyses can end in, and the two pieces of Python semantics the analyses
    rely on (int() of a float and negative list indexing). */
module Common {

  datatype Option<T> = None | Some(value: T)

  /** The ways an analysis run can fail instead of producing a result. */
  datatype Error =
    | NoSignal          // the list of conductance signals is empty (analog_signal[0])
    | NegativeWindow    // numpy.zeros is asked for a negative number of samples
    | NeuronOutOfRange  // a neuron index is outside a spike-train list or a signal's columns
    | EmptyHistogram    // numpy.correlate is given an empty histogram

  datatype Result<T> = Ok(value: T) | Err(error: Error)

  /** Python's int() applied to a float: rounds toward zero. */
  function Trunc(x: real): (r: int)
    ensures x >= 0.0 ==> r as real <= x < r as real + 1.0
    ensures x < 0.0 ==> r as real - 1.0 < x <= r as real
  {
    if x >= 0.0 then x.Floor else -((-x).Floor)
  }

  /** Python indexing of a list of length len: a negative index counts from the end,
      anything else outside the list raises IndexError (None here). */
  function PyIndex(n: int, len: nat): (r: Option<nat>)
    ensures r.Some? <==> -(len as int) <= n < len
    ensures r.Some? && n >= 0 ==> r.value == n
    ensures r.Some? && n < 0 ==> r.value == len + n
  {
    if 0 <= n < len then Some(n)
    else if -(len as int) <= n < 0 then Some(len + n)
    else None
  }

  /** What an index means: when it exists, PyIndex(n, len) is the one position
      of the list that is congruent to n modulo len. */
  lemma PyIndexCongruent(n: int, len: nat)
    ensures PyIndex(n, len).Some? <==> -(len as int) <= n < len
    ensures PyIndex(n, len).Some? ==>
      forall i :: 0 <= i < len ==> (i % len == n % len <==> i == PyIndex(n, len).value)
  {
    if PyIndex(n, len).Some? {
      var p := PyIndex(n, len).value;
      if n < 0 {
        ShiftMod(n, len);
      }
      assert p % len == n % len;
      forall i | 0 <= i < len
        ensures i % len == n % len <==> i == p
      {
        SmallMod(i, len);
        SmallMod(p, len);
      }
    }
  }

  /** Adding the modulus once does not change the remainder. */
  lemma ShiftMod(n: int, len: nat)
    requires len > 0
    ensures (n + len) % len == n % len
  {
    var q, r := n / len, n % len;
    var q', r' := (n + len) / len, (n + len) % len;
    assert (q' - q - 1) * len == r - r';
    MultipleInOpenRange(q' - q - 1, len);
  }

  /** A position inside the list is its own remainder. */
  lemma SmallMod(i: int, len: nat)
    requires 0 <= i < len
    ensures i % len == i
  {
    var q, r := i / len, i % len;
    assert q * len == i - r;
    MultipleInOpenRange(q, len);
  }

  /** The only multiple of len strictly between -len and len is 0. */
  lemma MultipleInOpenRange(k: int, len: nat)
    requires len > 0 && -(len as int) < k * len < len
    ensures k == 0
  {
  }
}
