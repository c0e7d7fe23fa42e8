/** The conductance spike-triggered average of GSTA.do_gsta: for one neuron,
    every spike of every trial that falls strictly inside its trial and whose
    window of 2h+1 samples fits inside the conductance trace contributes that
    window; the result is the sum of the windows divided by their number (or
    by 1 when there is none), as a signal centred on the spike. */
module Gsta {
  import opened Common
  import opened Averaging

  /** One trial's conductance recording: start and stop time, sampling period
      and one column of samples per neuron (`ans[:, n]` is channels[n]). */
  datatype Signal = Signal(tStart: real, tStop: real, period: real, channels: seq<seq<real>>)

  /** The averaged waveform: sample j lies at time tStart + j * period. */
  datatype Sta = Sta(samples: seq<real>, tStart: real, period: real)

  /** gstal: the half-window `length` in samples, rounded toward zero. */
  function HalfWindow(length: real, dt: real): (h: int)
    requires dt > 0.0
  {
    Trunc(length / dt)
  }

  /** The sample a spike falls in, counted from the trial's start. */
  function SpikeIndex(sig: Signal, time: real, dt: real): (idx: int)
    requires dt > 0.0
  {
    Trunc((time - sig.tStart) / dt)
  }

  predicate InTrial(sig: Signal, time: real)
  {
    sig.tStart < time < sig.tStop
  }

  /** The window [idx - h, idx + h] fits the trace; the left test is strict. */
  predicate Fits(trace: seq<real>, idx: int, h: nat)
  {
    idx - h > 0 && idx + h + 1 <= |trace|
  }

  /** The spike at `time` passes every test of the accumulation loop. */
  predicate Accepts(sig: Signal, n: int, time: real, dt: real, h: nat)
    requires dt > 0.0
  {
    InTrial(sig, time)
    && PyIndex(n, |sig.channels|).Some?
    && Fits(sig.channels[PyIndex(n, |sig.channels|).value], SpikeIndex(sig, time, dt), h)
  }

  /** The slice of neuron n's trace around an accepted spike. */
  function WindowOf(sig: Signal, n: int, time: real, dt: real, h: nat): (w: seq<real>)
    requires dt > 0.0 && Accepts(sig, n, time, dt, h)
    ensures |w| == 2 * h + 1
    ensures var trace, idx := sig.channels[PyIndex(n, |sig.channels|).value], SpikeIndex(sig, time, dt);
      0 < idx - h && idx + h < |trace| &&
      forall j :: 0 <= j < |w| ==> w[j] == trace[idx - h + j]
  {
    var trace := sig.channels[PyIndex(n, |sig.channels|).value];
    var idx := SpikeIndex(sig, time, dt);
    trace[idx - h .. idx + h + 1]
  }

  /** `spike[n]`: neuron n's spike times in one trial, empty when n is out of range. */
  function TimesOf(train: seq<seq<real>>, n: int): (times: seq<real>)
  {
    match PyIndex(n, |train|)
    case None => []
    case Some(i) => train[i]
  }

  /** The windows collected so far, followed by the window of the spike at
      `time` when it is accepted. */
  function Extend(ws: seq<seq<real>>, sig: Signal, n: int, time: real, dt: real, h: nat): (r: seq<seq<real>>)
    requires dt > 0.0 && Rectangular(ws, 2 * h + 1)
    ensures Rectangular(r, 2 * h + 1)
  {
    if Accepts(sig, n, time, dt, h) then ws + [WindowOf(sig, n, time, dt, h)] else ws
  }

  /** The windows that the spikes `times` contribute, in spike order. */
  function SpikeWindows(sig: Signal, n: int, times: seq<real>, dt: real, h: nat): (ws: seq<seq<real>>)
    requires dt > 0.0
    ensures |ws| <= |times|
    ensures Rectangular(ws, 2 * h + 1)
    decreases |times|
  {
    if times == [] then []
    else
      var last := times[|times| - 1];
      Extend(SpikeWindows(sig, n, times[..|times| - 1], dt, h), sig, n, last, dt, h)
  }

  /** Extending the spikes seen so far by the next one adds its window, if any. */
  lemma SpikeWindowsStep(sig: Signal, n: int, times: seq<real>, dt: real, h: nat, i: nat)
    requires dt > 0.0 && i < |times|
    ensures SpikeWindows(sig, n, times[..i + 1], dt, h)
      == Extend(SpikeWindows(sig, n, times[..i], dt, h), sig, n, times[i], dt, h)
  {
    assert times[..i + 1][..i] == times[..i];
  }

  /** The windows `done` followed by the windows `more`, that is `done + more`.
      The `if` makes `Then(done, [], width) == done` hold by unfolding, so the
      proofs never append an empty sequence (which sends the solver round an
      expensive loop of sequence axioms). */
  function Then(done: seq<seq<real>>, more: seq<seq<real>>, width: nat): (r: seq<seq<real>>)
    requires Rectangular(done, width) && Rectangular(more, width)
    ensures Rectangular(r, width)
    ensures |r| == |done| + |more|
  {
    if more == [] then done else done + more
  }

  /** Extending commutes with putting earlier windows in front. */
  lemma ExtendAfter(done: seq<seq<real>>, ws: seq<seq<real>>, sig: Signal, n: int, time: real, dt: real, h: nat)
    requires dt > 0.0 && Rectangular(done, 2 * h + 1) && Rectangular(ws, 2 * h + 1)
    ensures Extend(Then(done, ws, 2 * h + 1), sig, n, time, dt, h)
      == Then(done, Extend(ws, sig, n, time, dt, h), 2 * h + 1)
  {
    if Accepts(sig, n, time, dt, h) {
      var w := WindowOf(sig, n, time, dt, h);
      if ws == [] {
        assert ws + [w] == [w];
      } else {
        assert (done + ws) + [w] == done + (ws + [w]);
      }
    }
  }

  /** zip(analog_signal, sp) stops at the shorter list. */
  function Trials(signals: seq<Signal>, trains: seq<seq<seq<real>>>): (m: nat)
    ensures m <= |signals| && m <= |trains|
  {
    if |signals| < |trains| then |signals| else |trains|
  }

  /** The windows of the first t trials, trial after trial. */
  function AllWindows(signals: seq<Signal>, trains: seq<seq<seq<real>>>, n: int, dt: real, h: nat, t: nat)
    : (ws: seq<seq<real>>)
    requires dt > 0.0 && t <= |signals| && t <= |trains|
    ensures Rectangular(ws, 2 * h + 1)
  {
    if t == 0 then [] else
      Then(AllWindows(signals, trains, n, dt, h, t - 1),
           SpikeWindows(signals[t - 1], n, TimesOf(trains[t - 1], n), dt, h), 2 * h + 1)
  }

  /** The spike reaches `len(ans[:, n])`: it lies inside the trial and passes
      the left test, which the `and` of the window test evaluates first. */
  predicate ReadsColumn(sig: Signal, time: real, dt: real, h: nat)
    requires dt > 0.0
  {
    InTrial(sig, time) && SpikeIndex(sig, time, dt) - h > 0
  }

  /** No spike of `times` reaches `len(ans[:, n])`. */
  predicate NoneReadsColumn(sig: Signal, times: seq<real>, dt: real, h: nat)
    requires dt > 0.0
  {
    forall time :: time in times ==> !ReadsColumn(sig, time, dt, h)
  }

  /** A trial raises no IndexError: `spike[n]` exists, and `ans[:, n]` exists
      unless no spike of the trial reaches it (it is then never read). */
  predicate TrialOk(sig: Signal, train: seq<seq<real>>, n: int, dt: real, h: nat)
    requires dt > 0.0
  {
    PyIndex(n, |train|).Some?
    && (PyIndex(n, |sig.channels|).Some? || NoneReadsColumn(sig, TimesOf(train, n), dt, h))
  }

  /** The averaged windows: sum / count, with a count of 0 replaced by 1. */
  function StaOf(ws: seq<seq<real>>, h: nat, dt: real): (s: Sta)
    requires Rectangular(ws, 2 * h + 1)
  {
    Sta(Div(Sum(ws, 2 * h + 1), if |ws| == 0 then 1.0 else |ws| as real), -(h as real) * dt, dt)
  }

  /** The running sum and counter of the loop determine the average. */
  lemma StaOfRunningSum(ws: seq<seq<real>>, h: nat, dt: real, gsta: seq<real>, count: nat)
    requires Rectangular(ws, 2 * h + 1) && gsta == Sum(ws, 2 * h + 1) && count == |ws|
    ensures StaOf(ws, h, dt)
      == Sta(Div(gsta, if count == 0 then 1.0 else count as real), -(h as real) * dt, dt)
  {
  }

  /** No trial of the zip raises an IndexError for neuron n. */
  predicate AllTrialsOk(signals: seq<Signal>, trains: seq<seq<seq<real>>>, n: int, dt: real, h: nat)
    requires dt > 0.0
  {
    forall t {:trigger TrialOk(signals[t], trains[t], n, dt, h)} ::
      0 <= t < Trials(signals, trains) ==> TrialOk(signals[t], trains[t], n, dt, h)
  }

  /** do_gsta(analog_signal, sp, n) with self.parameters.length == length. */
  function GstaOutcome(signals: seq<Signal>, trains: seq<seq<seq<real>>>, n: int, length: real): (r: Result<Sta>)
    requires |signals| > 0 ==> signals[0].period > 0.0
  {
    if |signals| == 0 then Err(NoSignal)
    else
      var dt := signals[0].period;
      var h := HalfWindow(length, dt);
      if h < 0 then Err(NegativeWindow)
      else if !AllTrialsOk(signals, trains, n, dt, h) then Err(NeuronOutOfRange)
      else Ok(StaOf(AllWindows(signals, trains, n, dt, h, Trials(signals, trains)), h, dt))
  }

  /** The outcome of do_gsta: which failure comes first, and otherwise a
      waveform of 2h+1 samples at the conductance sampling period whose
      centre sample (index h) lies at time 0, the time of the spike. */
  lemma GstaShape(signals: seq<Signal>, trains: seq<seq<seq<real>>>, n: int, length: real)
    requires |signals| > 0 ==> signals[0].period > 0.0
    ensures GstaOutcome(signals, trains, n, length) == Err(NoSignal) <==> |signals| == 0
    ensures GstaOutcome(signals, trains, n, length) == Err(NegativeWindow) <==>
      |signals| > 0 && HalfWindow(length, signals[0].period) < 0
    ensures GstaOutcome(signals, trains, n, length) == Err(NeuronOutOfRange) <==>
      |signals| > 0 && HalfWindow(length, signals[0].period) >= 0
      && !AllTrialsOk(signals, trains, n, signals[0].period, HalfWindow(length, signals[0].period))
    ensures GstaOutcome(signals, trains, n, length).Ok? ==>
      HalfWindow(length, signals[0].period) >= 0
      && |GstaOutcome(signals, trains, n, length).value.samples| == 2 * HalfWindow(length, signals[0].period) + 1
      && GstaOutcome(signals, trains, n, length).value.period == signals[0].period
      && GstaOutcome(signals, trains, n, length).value.tStart
         + (HalfWindow(length, signals[0].period) as real) * signals[0].period == 0.0
  {
  }

  /** The body of the inner loop of do_gsta for one spike: a spike inside
      the trial whose window fits is added to the running sum `gsta` and
      counted. Fails (ok is false) when the spike reaches `len(ans[:, n])`
      but the signal has no column for neuron n. */
  method AccumulateSpike(sig: Signal, n: int, time: real, dt: real, h: nat,
                         ghost done: seq<seq<real>>, gsta: seq<real>, count: nat)
    returns (ok: bool, gsta': seq<real>, count': nat)
    requires dt > 0.0 && Rectangular(done, 2 * h + 1)
    requires gsta == Sum(done, 2 * h + 1) && count == |done|
    ensures ok <==> !ReadsColumn(sig, time, dt, h) || PyIndex(n, |sig.channels|).Some?
    ensures ok ==> gsta' == Sum(Extend(done, sig, n, time, dt, h), 2 * h + 1)
    ensures ok ==> count' == |Extend(done, sig, n, time, dt, h)|
  {
    gsta', count' := gsta, count;
    if time > sig.tStart && time < sig.tStop {
      var idx := SpikeIndex(sig, time, dt);
      if idx - h > 0 {
        var ci := PyIndex(n, |sig.channels|);
        if ci.None? {
          return false, gsta', count';
        }
        var trace := sig.channels[ci.value];
        if idx + h + 1 <= |trace| {
          var w := trace[idx - h .. idx + h + 1];
          assert Extend(done, sig, n, time, dt, h) == done + [w];
          SumAppend(done, w, 2 * h + 1);
          gsta' := Add(gsta', w);
          count' := count' + 1;
        } else {
          assert Extend(done, sig, n, time, dt, h) == done;
        }
      } else {
        assert Extend(done, sig, n, time, dt, h) == done;
      }
    } else {
      assert Extend(done, sig, n, time, dt, h) == done;
    }
    ok := true;
  }

  /** The inner loop of do_gsta over one trial's spike times. Fails (ok is
      false) when a spike reaches `len(ans[:, n])` and the signal lacks that column. */
  method AccumulateTrial(sig: Signal, n: int, times: seq<real>, dt: real, h: nat,
                         ghost done: seq<seq<real>>, gsta: seq<real>, count: nat)
    returns (ok: bool, gsta': seq<real>, count': nat)
    requires dt > 0.0 && Rectangular(done, 2 * h + 1)
    requires gsta == Sum(done, 2 * h + 1) && count == |done|
    ensures ok <==> PyIndex(n, |sig.channels|).Some? || NoneReadsColumn(sig, times, dt, h)
    ensures ok ==> gsta' == Sum(Then(done, SpikeWindows(sig, n, times, dt, h), 2 * h + 1), 2 * h + 1)
    ensures ok ==> count' == |done| + |SpikeWindows(sig, n, times, dt, h)|
  {
    gsta', count' := gsta, count;
    ghost var acc := done;
    var i := 0;
    assert times[..0] == [];
    assert SpikeWindows(sig, n, times[..0], dt, h) == [];
    while i < |times|
      invariant 0 <= i <= |times|
      invariant forall k :: 0 <= k < i && ReadsColumn(sig, times[k], dt, h) ==> PyIndex(n, |sig.channels|).Some?
      invariant acc == Then(done, SpikeWindows(sig, n, times[..i], dt, h), 2 * h + 1)
      invariant Rectangular(acc, 2 * h + 1) && gsta' == Sum(acc, 2 * h + 1) && count' == |acc|
    {
      var spikeOk;
      spikeOk, gsta', count' := AccumulateSpike(sig, n, times[i], dt, h, acc, gsta', count');
      if !spikeOk {
        assert times[i] in times && ReadsColumn(sig, times[i], dt, h);
        return false, gsta', count';
      }
      SpikeWindowsStep(sig, n, times, dt, h, i);
      ExtendAfter(done, SpikeWindows(sig, n, times[..i], dt, h), sig, n, times[i], dt, h);
      acc := Extend(acc, sig, n, times[i], dt, h);
      i := i + 1;
    }
    assert times[..|times|] == times;
    if PyIndex(n, |sig.channels|).None? {
      forall time | time in times
        ensures !ReadsColumn(sig, time, dt, h)
      {
        var k :| 0 <= k < |times| && times[k] == time;
      }
    }
    ok := true;
  }

  /** The loop state after the first t trials: the running sum `gsta` is the
      element-wise sum of their accepted windows and `count` is their number. */
  predicate Accumulated(signals: seq<Signal>, trains: seq<seq<seq<real>>>, n: int, dt: real, h: nat, t: nat,
                        gsta: seq<real>, count: nat)
    requires dt > 0.0
  {
    t <= Trials(signals, trains)
    && gsta == Sum(AllWindows(signals, trains, n, dt, h, t), 2 * h + 1)
    && count == |AllWindows(signals, trains, n, dt, h, t)|
  }

  /** One pass of the outer loop of do_gsta, for trial t of the zip: `spike[n]`
      for the trial, then the inner loop. Fails (ok is false) when the trial
      raises an IndexError. */
  method AccumulateZipped(signals: seq<Signal>, trains: seq<seq<seq<real>>>, n: int, dt: real, h: nat, t: nat,
                          gsta: seq<real>, count: nat)
    returns (ok: bool, gsta': seq<real>, count': nat)
    requires dt > 0.0 && t < Trials(signals, trains)
    requires Accumulated(signals, trains, n, dt, h, t, gsta, count)
    ensures ok <==> TrialOk(signals[t], trains[t], n, dt, h)
    ensures ok ==> Accumulated(signals, trains, n, dt, h, t + 1, gsta', count')
  {
    var sig, train := signals[t], trains[t];
    var ti := PyIndex(n, |train|);
    if ti.None? {
      return false, gsta, count;
    }
    var times := train[ti.value];
    assert times == TimesOf(train, n);
    ok, gsta', count' := AccumulateTrial(sig, n, times, dt, h, AllWindows(signals, trains, n, dt, h, t), gsta, count);
  }

  /** The outer loop of do_gsta over the zipped (signal, spike train) pairs.
      Fails (ok is false) when some trial raises an IndexError for neuron n. */
  method AccumulateTrials(signals: seq<Signal>, trains: seq<seq<seq<real>>>, n: int, dt: real, h: nat)
    returns (ok: bool, gsta: seq<real>, count: nat)
    requires dt > 0.0
    ensures ok <==> AllTrialsOk(signals, trains, n, dt, h)
    ensures ok ==> gsta == Sum(AllWindows(signals, trains, n, dt, h, Trials(signals, trains)), 2 * h + 1)
    ensures ok ==> count == |AllWindows(signals, trains, n, dt, h, Trials(signals, trains))|
  {
    gsta := Zeros(2 * h + 1);
    count := 0;
    var m := Trials(signals, trains);
    var t := 0;
    NoTrialsNoWindows(signals, trains, n, dt, h);
    while t < m
      invariant 0 <= t <= m
      invariant forall u :: 0 <= u < t ==> TrialOk(signals[u], trains[u], n, dt, h)
      invariant Accumulated(signals, trains, n, dt, h, t, gsta, count)
    {
      var trialOk;
      trialOk, gsta, count := AccumulateZipped(signals, trains, n, dt, h, t, gsta, count);
      if !trialOk {
        assert !TrialOk(signals[t], trains[t], n, dt, h);
        return false, gsta, count;
      }
      t := t + 1;
    }
    ok := true;
  }

  /** Before the first trial the sum is all zeros and the counter is 0. */
  lemma NoTrialsNoWindows(signals: seq<Signal>, trains: seq<seq<seq<real>>>, n: int, dt: real, h: nat)
    requires dt > 0.0
    ensures Accumulated(signals, trains, n, dt, h, 0, Zeros(2 * h + 1), 0)
  {
  }

  /** do_gsta: the window length in samples, the accumulation over all
      trials, then the sum divided by the count, or by 1 when it is 0. */
  method DoGsta(signals: seq<Signal>, trains: seq<seq<seq<real>>>, n: int, length: real) returns (r: Result<Sta>)
    requires |signals| > 0 ==> signals[0].period > 0.0
    ensures r == GstaOutcome(signals, trains, n, length)
  {
    if |signals| == 0 {
      return Err(NoSignal);
    }
    var dt := signals[0].period;
    var h := HalfWindow(length, dt);
    if h < 0 {
      return Err(NegativeWindow);
    }
    var ok, gsta, count := AccumulateTrials(signals, trains, n, dt, h);
    if !ok {
      return Err(NeuronOutOfRange);
    }
    StaOfRunningSum(AllWindows(signals, trains, n, dt, h, Trials(signals, trains)), h, dt, gsta, count);
    if count == 0 {
      count := 1;
    }
    r := Ok(Sta(Div(gsta, count as real), -(h as real) * dt, dt));
  }

  /** The positions in `times` of the spikes that pass every test. */
  function AcceptedIndices(sig: Signal, n: int, times: seq<real>, dt: real, h: nat): (s: set<nat>)
    requires dt > 0.0
  {
    set i: nat | i < |times| && Accepts(sig, n, times[i], dt, h)
  }

  /** Within one trial there is one window per accepted spike. */
  lemma {:induction false} SpikeWindowsCount(sig: Signal, n: int, times: seq<real>, dt: real, h: nat)
    requires dt > 0.0
    ensures |SpikeWindows(sig, n, times, dt, h)| == |AcceptedIndices(sig, n, times, dt, h)|
  {
    if times != [] {
      var k := |times| - 1;
      SpikeWindowsCount(sig, n, times[..k], dt, h);
      AcceptedIndicesStep(sig, n, times, dt, h);
      assert SpikeWindows(sig, n, times, dt, h)
        == Extend(SpikeWindows(sig, n, times[..k], dt, h), sig, n, times[k], dt, h);
    }
  }

  /** The last spike adds one accepted position exactly when it adds a window. */
  lemma AcceptedIndicesStep(sig: Signal, n: int, times: seq<real>, dt: real, h: nat)
    requires dt > 0.0 && |times| > 0
    ensures |AcceptedIndices(sig, n, times, dt, h)|
      == |AcceptedIndices(sig, n, times[..|times| - 1], dt, h)| + (if Accepts(sig, n, times[|times| - 1], dt, h) then 1 else 0)
  {
    var k := |times| - 1;
    var init := times[..k];
    var all, before := AcceptedIndices(sig, n, times, dt, h), AcceptedIndices(sig, n, init, dt, h);
    assert k !in before;
    forall i | i in before
      ensures i in all
    {
      assert init[i] == times[i];
    }
    forall i | i in all && i != k
      ensures i in before
    {
      assert init[i] == times[i];
    }
    if Accepts(sig, n, times[k], dt, h) {
      assert all == before + {k};
    } else {
      assert all == before;
    }
  }


  /** Within one trial, every accepted spike's window is among the windows. */
  lemma {:induction false} SpikeWindowsComplete(sig: Signal, n: int, times: seq<real>, dt: real, h: nat)
    requires dt > 0.0
    ensures forall i :: 0 <= i < |times| && Accepts(sig, n, times[i], dt, h) ==>
      WindowOf(sig, n, times[i], dt, h) in SpikeWindows(sig, n, times, dt, h)
  {
    if times != [] {
      var k := |times| - 1;
      var init := times[..k];
      SpikeWindowsComplete(sig, n, init, dt, h);
      assert forall i :: 0 <= i < k ==> init[i] == times[i];
    }
  }

  /** Within one trial, every window is the window of an accepted spike. */
  lemma {:induction false} SpikeWindowsSound(sig: Signal, n: int, times: seq<real>, dt: real, h: nat)
    requires dt > 0.0
    ensures forall w :: w in SpikeWindows(sig, n, times, dt, h) ==>
      exists i :: 0 <= i < |times| && Accepts(sig, n, times[i], dt, h) && w == WindowOf(sig, n, times[i], dt, h)
  {
    if times != [] {
      var k := |times| - 1;
      var init := times[..k];
      SpikeWindowsSound(sig, n, init, dt, h);
      assert forall i :: 0 <= i < k ==> init[i] == times[i];
      forall w | w in SpikeWindows(sig, n, times, dt, h)
        ensures exists i :: 0 <= i < |times| && Accepts(sig, n, times[i], dt, h) && w == WindowOf(sig, n, times[i], dt, h)
      {
        if w in SpikeWindows(sig, n, init, dt, h) {
          var i :| 0 <= i < k && Accepts(sig, n, init[i], dt, h) && w == WindowOf(sig, n, init[i], dt, h);
          assert init[i] == times[i];
        } else {
          assert Accepts(sig, n, times[k], dt, h) && w == WindowOf(sig, n, times[k], dt, h);
        }
      }
    }
  }

  /** No spike of the trial passes every test. */
  predicate TrialSilent(sig: Signal, train: seq<seq<real>>, n: int, dt: real, h: nat)
    requires dt > 0.0
  {
    forall time :: time in TimesOf(train, n) ==> !Accepts(sig, n, time, dt, h)
  }

  /** No spike of any trial passes every test. */
  predicate NoSpikeAccepted(signals: seq<Signal>, trains: seq<seq<seq<real>>>, n: int, dt: real, h: nat)
    requires dt > 0.0
  {
    forall t :: 0 <= t < Trials(signals, trains) ==> TrialSilent(signals[t], trains[t], n, dt, h)
  }

  /** One trial contributes no window exactly when none of its spikes is accepted. */
  lemma SpikeWindowsEmptyIff(sig: Signal, n: int, times: seq<real>, dt: real, h: nat)
    requires dt > 0.0
    ensures SpikeWindows(sig, n, times, dt, h) == [] <==> forall time :: time in times ==> !Accepts(sig, n, time, dt, h)
  {
    SpikeWindowsComplete(sig, n, times, dt, h);
    SpikeWindowsSound(sig, n, times, dt, h);
    var ws := SpikeWindows(sig, n, times, dt, h);
    if ws != [] {
      assert ws[0] in ws;
    }
    if exists time :: time in times && Accepts(sig, n, time, dt, h) {
      var time :| time in times && Accepts(sig, n, time, dt, h);
      var i :| 0 <= i < |times| && times[i] == time;
      assert WindowOf(sig, n, times[i], dt, h) in ws;
    }
  }

  /** A trial contributes no window exactly when it is silent. */
  lemma TrialSilentIff(sig: Signal, train: seq<seq<real>>, n: int, dt: real, h: nat)
    requires dt > 0.0
    ensures |SpikeWindows(sig, n, TimesOf(train, n), dt, h)| == 0 <==> TrialSilent(sig, train, n, dt, h)
  {
    SpikeWindowsEmptyIff(sig, n, TimesOf(train, n), dt, h);
  }

  /** The counter of do_gsta stays 0 over the first t trials exactly when none of their spikes is accepted. */
  lemma CountZeroIff(signals: seq<Signal>, trains: seq<seq<seq<real>>>, n: int, dt: real, h: nat, t: nat)
    requires dt > 0.0 && t <= Trials(signals, trains)
    ensures |AllWindows(signals, trains, n, dt, h, t)| == 0 <==>
      forall u :: 0 <= u < t ==> TrialSilent(signals[u], trains[u], n, dt, h)
  {
    AllWindowsCount(signals, trains, n, dt, h, t);
    WindowCountZeroIff(signals, trains, n, dt, h, t);
    forall u | 0 <= u < t
      ensures |SpikeWindows(signals[u], n, TimesOf(trains[u], n), dt, h)| == 0
        <==> TrialSilent(signals[u], trains[u], n, dt, h)
    {
      TrialSilentIff(signals[u], trains[u], n, dt, h);
    }
  }

  /** The number of windows of the first t trials, trial by trial. */
  function WindowCount(signals: seq<Signal>, trains: seq<seq<seq<real>>>, n: int, dt: real, h: nat, t: nat): (c: nat)
    requires dt > 0.0 && t <= Trials(signals, trains)
  {
    if t == 0 then 0
    else WindowCount(signals, trains, n, dt, h, t - 1) + |SpikeWindows(signals[t - 1], n, TimesOf(trains[t - 1], n), dt, h)|
  }

  lemma {:induction false} AllWindowsCount(signals: seq<Signal>, trains: seq<seq<seq<real>>>, n: int, dt: real, h: nat, t: nat)
    requires dt > 0.0 && t <= Trials(signals, trains)
    ensures |AllWindows(signals, trains, n, dt, h, t)| == WindowCount(signals, trains, n, dt, h, t)
  {
    if t > 0 {
      AllWindowsCount(signals, trains, n, dt, h, t - 1);
    }
  }

  /** The count is 0 exactly when every trial contributes 0 windows. */
  lemma {:induction false} WindowCountZeroIff(signals: seq<Signal>, trains: seq<seq<seq<real>>>, n: int, dt: real, h: nat, t: nat)
    requires dt > 0.0 && t <= Trials(signals, trains)
    ensures WindowCount(signals, trains, n, dt, h, t) == 0 <==>
      forall u :: 0 <= u < t ==> |SpikeWindows(signals[u], n, TimesOf(trains[u], n), dt, h)| == 0
  {
    if t > 0 {
      WindowCountZeroIff(signals, trains, n, dt, h, t - 1);
    }
  }

  /** With no accepted spike the divisor is forced to 1 and the result is the
      all-zero waveform of 2h+1 samples (unless a neuron index is out of range). */
  lemma SilentNeuron(signals: seq<Signal>, trains: seq<seq<seq<real>>>, n: int, length: real)
    requires |signals| > 0 && signals[0].period > 0.0
    requires HalfWindow(length, signals[0].period) >= 0
    requires NoSpikeAccepted(signals, trains, n, signals[0].period, HalfWindow(length, signals[0].period))
    ensures var dt := signals[0].period; var h := HalfWindow(length, dt);
      GstaOutcome(signals, trains, n, length) == Err(NeuronOutOfRange)
      || GstaOutcome(signals, trains, n, length) == Ok(Sta(Zeros(2 * h + 1), -(h as real) * dt, dt))
    ensures var dt := signals[0].period; var h := HalfWindow(length, dt);
      AllTrialsOk(signals, trains, n, dt, h) ==>
      GstaOutcome(signals, trains, n, length) == Ok(Sta(Zeros(2 * h + 1), -(h as real) * dt, dt))
  {
    var dt := signals[0].period;
    var h := HalfWindow(length, dt);
    var ws := AllWindows(signals, trains, n, dt, h, Trials(signals, trains));
    CountZeroIff(signals, trains, n, dt, h, Trials(signals, trains));
    if AllTrialsOk(signals, trains, n, dt, h) {
      GstaValue(signals, trains, n, length);
      StaOfNone(ws, h, dt);
    }
  }

  /** With no window the sum stays all zeros and the divisor is 1. */
  lemma StaOfNone(ws: seq<seq<real>>, h: nat, dt: real)
    requires Rectangular(ws, 2 * h + 1) && |ws| == 0
    ensures StaOf(ws, h, dt) == Sta(Zeros(2 * h + 1), -(h as real) * dt, dt)
  {
    assert ws == [];
    assert Div(Zeros(2 * h + 1), 1.0) == Zeros(2 * h + 1);
  }

  /** With at least one accepted spike, the STA is the element-wise mean of the accepted windows. */
  lemma StaIsMean(signals: seq<Signal>, trains: seq<seq<seq<real>>>, n: int, length: real)
    requires |signals| > 0 && signals[0].period > 0.0
    requires HalfWindow(length, signals[0].period) >= 0
    requires !NoSpikeAccepted(signals, trains, n, signals[0].period, HalfWindow(length, signals[0].period))
    requires GstaOutcome(signals, trains, n, length).Ok?
    ensures var dt := signals[0].period; var h := HalfWindow(length, dt);
      var ws := AllWindows(signals, trains, n, dt, h, Trials(signals, trains));
      |ws| > 0 && GstaOutcome(signals, trains, n, length).value.samples == Mean(ws)
  {
    var dt := signals[0].period;
    var h := HalfWindow(length, dt);
    CountZeroIff(signals, trains, n, dt, h, Trials(signals, trains));
  }

  /** When exactly one spike over all trials is accepted (spike i of trial u),
      whatever other spikes were rejected, the result is that spike's window. */
  lemma SingleSpike(signals: seq<Signal>, trains: seq<seq<seq<real>>>, n: int, length: real, h: nat, u: nat, i: nat)
    requires |signals| > 0 && signals[0].period > 0.0 && HalfWindow(length, signals[0].period) == h
    requires u < Trials(signals, trains) && i < |TimesOf(trains[u], n)|
    requires Accepts(signals[u], n, TimesOf(trains[u], n)[i], signals[0].period, h)
    requires AcceptedCount(signals, trains, n, signals[0].period, h, Trials(signals, trains)) == 1
    requires AllTrialsOk(signals, trains, n, signals[0].period, h)
    ensures GstaOutcome(signals, trains, n, length).Ok?
    ensures GstaOutcome(signals, trains, n, length).value.samples
      == WindowOf(signals[u], n, TimesOf(trains[u], n)[i], signals[0].period, h)
  {
    var dt := signals[0].period;
    GstaValue(signals, trains, n, length);
    OneAcceptedSta(signals, trains, n, dt, h, u, i);
  }

  lemma OneAcceptedSta(signals: seq<Signal>, trains: seq<seq<seq<real>>>, n: int, dt: real, h: nat, u: nat, i: nat)
    requires dt > 0.0 && u < Trials(signals, trains) && i < |TimesOf(trains[u], n)|
    requires Accepts(signals[u], n, TimesOf(trains[u], n)[i], dt, h)
    requires AcceptedCount(signals, trains, n, dt, h, Trials(signals, trains)) == 1
    ensures StaOf(AllWindows(signals, trains, n, dt, h, Trials(signals, trains)), h, dt)
      == Sta(WindowOf(signals[u], n, TimesOf(trains[u], n)[i], dt, h), -(h as real) * dt, dt)
  {
    var w := WindowOf(signals[u], n, TimesOf(trains[u], n)[i], dt, h);
    OneAcceptedWindow(signals, trains, n, dt, h, u, i);
    StaOfOne(w, h, dt);
  }

  /** With exactly one accepted spike over all trials, the windows are that spike's window alone. */
  lemma OneAcceptedWindow(signals: seq<Signal>, trains: seq<seq<seq<real>>>, n: int, dt: real, h: nat, u: nat, i: nat)
    requires dt > 0.0 && u < Trials(signals, trains) && i < |TimesOf(trains[u], n)|
    requires Accepts(signals[u], n, TimesOf(trains[u], n)[i], dt, h)
    requires AcceptedCount(signals, trains, n, dt, h, Trials(signals, trains)) == 1
    ensures AllWindows(signals, trains, n, dt, h, Trials(signals, trains))
      == [WindowOf(signals[u], n, TimesOf(trains[u], n)[i], dt, h)]
  {
    var m := Trials(signals, trains);
    var times := TimesOf(trains[u], n);
    var w := WindowOf(signals[u], n, times[i], dt, h);
    var ws := AllWindows(signals, trains, n, dt, h, m);
    AcceptedCountIsWindowCount(signals, trains, n, dt, h, m);
    SpikeWindowsComplete(signals[u], n, times, dt, h);
    AllWindowsMember(signals, trains, n, dt, h, m, u);
    OnlyWindow(ws, w);
  }

  /** A list of one window that contains w is [w]. */
  lemma OnlyWindow(ws: seq<seq<real>>, w: seq<real>)
    requires |ws| == 1 && w in ws
    ensures ws == [w]
  {
    assert ws[0] == w;
  }

  /** The number of accepted spikes over the first t trials. */
  function AcceptedCount(signals: seq<Signal>, trains: seq<seq<seq<real>>>, n: int, dt: real, h: nat, t: nat): (c: nat)
    requires dt > 0.0 && t <= Trials(signals, trains)
  {
    if t == 0 then 0
    else AcceptedCount(signals, trains, n, dt, h, t - 1) + |AcceptedIndices(signals[t - 1], n, TimesOf(trains[t - 1], n), dt, h)|
  }

  /** The counter of do_gsta after t trials is the number of accepted spikes. */
  lemma {:induction false} AcceptedCountIsWindowCount(signals: seq<Signal>, trains: seq<seq<seq<real>>>, n: int,
                                                      dt: real, h: nat, t: nat)
    requires dt > 0.0 && t <= Trials(signals, trains)
    ensures |AllWindows(signals, trains, n, dt, h, t)| == AcceptedCount(signals, trains, n, dt, h, t)
  {
    AllWindowsCount(signals, trains, n, dt, h, t);
    AcceptedCountIsWindowCountStep(signals, trains, n, dt, h, t);
  }

  lemma {:induction false} AcceptedCountIsWindowCountStep(signals: seq<Signal>, trains: seq<seq<seq<real>>>, n: int,
                                                          dt: real, h: nat, t: nat)
    requires dt > 0.0 && t <= Trials(signals, trains)
    ensures WindowCount(signals, trains, n, dt, h, t) == AcceptedCount(signals, trains, n, dt, h, t)
  {
    if t > 0 {
      AcceptedCountIsWindowCountStep(signals, trains, n, dt, h, t - 1);
      SpikeWindowsCount(signals[t - 1], n, TimesOf(trains[t - 1], n), dt, h);
    }
  }

  /** Every window of trial u is among the windows of the first t trials, u < t. */
  lemma {:induction false} AllWindowsMember(signals: seq<Signal>, trains: seq<seq<seq<real>>>, n: int,
                                            dt: real, h: nat, t: nat, u: nat)
    requires dt > 0.0 && u < t <= Trials(signals, trains)
    ensures forall w :: w in SpikeWindows(signals[u], n, TimesOf(trains[u], n), dt, h) ==>
      w in AllWindows(signals, trains, n, dt, h, t)
  {
    if u < t - 1 {
      AllWindowsMember(signals, trains, n, dt, h, t - 1, u);
    }
  }

  /** Line 157 tests `idx - gstal > 0` before it reads `ans[:, n]`. On one
      trial over (0, 10) with a single column, gstal 1 and one spike at 0.5
      for neuron 1, that spike is inside the trial but gives idx - gstal = -1,
      so it is skipped without reading the missing column 1, and do_gsta
      returns three zeros starting at -1.0. The general rule is `ReadsColumn`
      in `TrialOk`, stated for every input by `GstaShape`. */
  lemma EarlySpikeSkipsColumn()
    ensures GstaOutcome([Signal(0.0, 10.0, 1.0, [[1.0, 2.0, 3.0]])], [[[], [0.5]]], 1, 1.0)
      == Ok(Sta(Zeros(3), -1.0, 1.0))
  {
    var sig := Signal(0.0, 10.0, 1.0, [[1.0, 2.0, 3.0]]);
    var train: seq<seq<real>> := [[], [0.5]];
    assert HalfWindow(1.0, 1.0) == 1;
    assert SpikeIndex(sig, 0.5, 1.0) == 0;
    assert TimesOf(train, 1) == [0.5];
    assert !ReadsColumn(sig, 0.5, 1.0, 1);
    assert TrialOk(sig, train, 1, 1.0, 1);
    assert AllTrialsOk([sig], [train], 1, 1.0, 1);
    assert [0.5][..0] == [];
    assert !Accepts(sig, 1, 0.5, 1.0, 1);
    assert SpikeWindows(sig, 1, [0.5], 1.0, 1) == [];
    assert AllWindows([sig], [train], 1, 1.0, 1, 1) == [];
    StaOfNone([], 1, 1.0);
  }

  /** GstaOutcome on the path where no check fails. */
  lemma GstaValue(signals: seq<Signal>, trains: seq<seq<seq<real>>>, n: int, length: real)
    requires |signals| > 0 && signals[0].period > 0.0
    requires HalfWindow(length, signals[0].period) >= 0
    requires AllTrialsOk(signals, trains, n, signals[0].period, HalfWindow(length, signals[0].period))
    ensures GstaOutcome(signals, trains, n, length) == Ok(StaOf(
      AllWindows(signals, trains, n, signals[0].period, HalfWindow(length, signals[0].period), Trials(signals, trains)),
      HalfWindow(length, signals[0].period), signals[0].period))
  {
  }

  /** The average of a single window is that window. */
  lemma StaOfOne(w: seq<real>, h: nat, dt: real)
    requires |w| == 2 * h + 1
    ensures StaOf([w], h, dt) == Sta(w, -(h as real) * dt, dt)
  {
    SumOfOne(w);
    assert Div(w, 1.0) == w;
  }

  /** Every sample of neuron n's column of the signal lies in [lo, hi]. */
  predicate ChannelWithin(sig: Signal, n: int, lo: real, hi: real)
  {
    match PyIndex(n, |sig.channels|)
    case None => true
    case Some(c) => forall j :: 0 <= j < |sig.channels[c]| ==> lo <= sig.channels[c][j] <= hi
  }

  lemma {:induction false} SpikeWindowsWithin(sig: Signal, n: int, times: seq<real>, dt: real, h: nat, lo: real, hi: real)
    requires dt > 0.0 && ChannelWithin(sig, n, lo, hi)
    ensures forall k, j :: 0 <= k < |SpikeWindows(sig, n, times, dt, h)| && 0 <= j < 2 * h + 1 ==>
      lo <= SpikeWindows(sig, n, times, dt, h)[k][j] <= hi
  {
    if times != [] {
      var init := times[..|times| - 1];
      var last := times[|times| - 1];
      SpikeWindowsWithin(sig, n, init, dt, h, lo, hi);
      var before := SpikeWindows(sig, n, init, dt, h);
      if Accepts(sig, n, last, dt, h) {
        var w := WindowOf(sig, n, last, dt, h);
        var trace := sig.channels[PyIndex(n, |sig.channels|).value];
        forall j | 0 <= j < |w| ensures lo <= w[j] <= hi {
          assert w[j] == trace[SpikeIndex(sig, last, dt) - h + j];
        }
        var ws := SpikeWindows(sig, n, times, dt, h);
        assert ws == before + [w];
        forall k, j | 0 <= k < |ws| && 0 <= j < 2 * h + 1 ensures lo <= ws[k][j] <= hi {
          if k < |before| {
            assert ws[k] == before[k];
          } else {
            assert ws[k] == w;
          }
        }
      } else {
        assert SpikeWindows(sig, n, times, dt, h) == before;
      }
    }
  }

  lemma {:induction false} AllWindowsWithin(signals: seq<Signal>, trains: seq<seq<seq<real>>>, n: int, dt: real, h: nat,
                                            t: nat, lo: real, hi: real)
    requires dt > 0.0 && t <= Trials(signals, trains)
    requires forall u :: 0 <= u < t ==> ChannelWithin(signals[u], n, lo, hi)
    ensures forall k, j :: 0 <= k < |AllWindows(signals, trains, n, dt, h, t)| && 0 <= j < 2 * h + 1 ==>
      lo <= AllWindows(signals, trains, n, dt, h, t)[k][j] <= hi
  {
    if t > 0 {
      AllWindowsWithin(signals, trains, n, dt, h, t - 1, lo, hi);
      SpikeWindowsWithin(signals[t - 1], n, TimesOf(trains[t - 1], n), dt, h, lo, hi);
      var before := AllWindows(signals, trains, n, dt, h, t - 1);
      var added := SpikeWindows(signals[t - 1], n, TimesOf(trains[t - 1], n), dt, h);
      var ws := AllWindows(signals, trains, n, dt, h, t);
      forall k, j | 0 <= k < |ws| && 0 <= j < 2 * h + 1 ensures lo <= ws[k][j] <= hi {
        if added == [] {
          assert ws == before;
        } else if k < |before| {
          assert ws[k] == before[k];
        } else {
          assert ws[k] == added[k - |before|];
        }
      }
    }
  }

  /** When some spike is accepted, every STA sample lies within any bounds
      that the accepted windows keep; samples outside every window do not matter. */
  lemma StaWithinWindowRange(signals: seq<Signal>, trains: seq<seq<seq<real>>>, n: int, length: real, lo: real, hi: real)
    requires |signals| > 0 && signals[0].period > 0.0
    requires HalfWindow(length, signals[0].period) >= 0
    requires var dt := signals[0].period; var h := HalfWindow(length, dt);
      var ws := AllWindows(signals, trains, n, dt, h, Trials(signals, trains));
      forall k, j :: 0 <= k < |ws| && 0 <= j < 2 * h + 1 ==> lo <= ws[k][j] <= hi
    requires !NoSpikeAccepted(signals, trains, n, signals[0].period, HalfWindow(length, signals[0].period))
    requires GstaOutcome(signals, trains, n, length).Ok?
    ensures var s := GstaOutcome(signals, trains, n, length).value;
      forall j :: 0 <= j < |s.samples| ==> lo <= s.samples[j] <= hi
  {
    var dt := signals[0].period;
    var h := HalfWindow(length, dt);
    var ws := AllWindows(signals, trains, n, dt, h, Trials(signals, trains));
    StaIsMean(signals, trains, n, length);
    MeanBounds(ws, lo, hi);
  }

  /** When some spike is accepted, every STA sample lies within any bounds
      that neuron n's trace keeps in every trial of the zip. */
  lemma StaWithinTraceRange(signals: seq<Signal>, trains: seq<seq<seq<real>>>, n: int, length: real, lo: real, hi: real)
    requires |signals| > 0 && signals[0].period > 0.0
    requires HalfWindow(length, signals[0].period) >= 0
    requires forall t :: 0 <= t < Trials(signals, trains) ==> ChannelWithin(signals[t], n, lo, hi)
    requires !NoSpikeAccepted(signals, trains, n, signals[0].period, HalfWindow(length, signals[0].period))
    requires GstaOutcome(signals, trains, n, length).Ok?
    ensures var s := GstaOutcome(signals, trains, n, length).value;
      forall j :: 0 <= j < |s.samples| ==> lo <= s.samples[j] <= hi
  {
    var dt := signals[0].period;
    var h := HalfWindow(length, dt);
    AllWindowsWithin(signals, trains, n, dt, h, Trials(signals, trains), lo, hi);
    StaWithinWindowRange(signals, trains, n, length, lo, hi);
  }

  /** A constant trace yields that constant at every sample, once a spike is accepted. */
  lemma ConstantTrace(signals: seq<Signal>, trains: seq<seq<seq<real>>>, n: int, length: real, c: real)
    requires |signals| > 0 && signals[0].period > 0.0
    requires HalfWindow(length, signals[0].period) >= 0
    requires forall t :: 0 <= t < |signals| ==> ChannelWithin(signals[t], n, c, c)
    requires !NoSpikeAccepted(signals, trains, n, signals[0].period, HalfWindow(length, signals[0].period))
    requires GstaOutcome(signals, trains, n, length).Ok?
    ensures var s := GstaOutcome(signals, trains, n, length).value;
      forall j :: 0 <= j < |s.samples| ==> s.samples[j] == c
  {
    StaWithinTraceRange(signals, trains, n, length, c, c);
  }
}
