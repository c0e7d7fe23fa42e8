# Conductance STA, spike-train precision and trial averaging in Dafny

This project models the array arithmetic of three analyses in mozaik's
`mozaik/analysis/analysis.py`. Each is stated as a specification function,
with imperative methods proved against it and lemmas about it.

- **GSTA.do_gsta** (module `Gsta`, `gsta.dfy`) computes the
  spike-triggered average of a conductance for neuron `n`.
  - The half-window `gstal = int(length/dt)` is truncated toward zero.
  - Every spike of every trial of the zip of the conductance signals and
    the spike trains is visited in order.
  - A spike is kept when it lies strictly inside its trial and the window
    `[idx-gstal, idx+gstal]` fits the trace. The left test is strict:
    `idx - gstal > 0`.
  - Each kept window is added to a running sum and counted. The sum is
    divided by the count, which is first raised to 1 when it is 0.
  - The result is a signal of `2*gstal+1` samples starting at `-gstal*dt`.
  - The methods `AccumulateSpike`, `AccumulateTrial`, `AccumulateZipped`,
    `AccumulateTrials` and `DoGsta` follow the source's loops and the
    running `gsta`/`count` pair. `DoGsta` is proved equal to the function
    `GstaOutcome`.
  - The ways the Python code can crash are outcomes of `GstaOutcome`: `NoSignal`
    (`analog_signal[0]` of an empty list), `NegativeWindow` (numpy.zeros of a
    negative size) and `NeuronOutOfRange` (an IndexError on `spike[n]`, or on
    `ans[:, n]`). The column `ans[:, n]` is read only for a spike that lies
    inside its trial and passes the left test `idx - gstal > 0`, because the
    `and` on line 157 evaluates that test first. Python's negative indexing
    is modelled by `Common.PyIndex`.
- **Precision.analyse, per-neuron block** (module `Precision`,
  `precision.dfy`).
  - `numpy.correlate(h, h, 'full')` of a histogram of N bins gives 2N-1 lags.
  - The result is divided by `sum(h**2)` only when that sum is non-zero.
  - It is wrapped as a signal over `[-duration, duration - bin_length]`.
  - `Correlate` (nested loops), `SquareTotal`, `NormalisedAutocorrelation`
    and `PrecisionTraces` (the loop over `neurons` appending to `al`) are
    proved against `Autocorrelation`, `SumSquares`, `Normalised` and
    `TraceOf`.
- **`_mean`** of AveragedOrientationTuning.analyse (module `Averaging`,
  `averaging.dfy`) is `sum(a)/len(a)` over a non-empty group of equal-length
  arrays.
  - `Sum` is Python's `sum()`: an element-wise total starting from 0.
  - `MeanRates` is the list comprehension of line 69.

`common.dfy` holds the shared `Option`/`Result`/`Error` types, `Trunc`
(Python `int()` of a float) and `PyIndex` (Python list indexing).

Reals are exact. The histogram bins are integers, since they are spike
counts. The conductance signals are given as inputs: start, stop, sampling
period and one sample column per neuron.

## Model

| member | source | states |
|---|---|---|
| Common.Trunc | mozaik/analysis/analysis.py:150 | `int()` of a float rounds toward zero: below x for x >= 0, above it for x < 0, within 1 |
| Common.PyIndexCongruent | mozaik/analysis/analysis.py:154 | an index into a list exists exactly for -len <= n < len, and it is then the one position of the list congruent to n modulo len |
| Gsta.DoGsta | mozaik/analysis/analysis.py:148-165 | the imperative do_gsta returns exactly the specified outcome `GstaOutcome`, including every failure |
| Gsta.AccumulateTrials | mozaik/analysis/analysis.py:153-159 | the outer loop succeeds iff no trial raises an IndexError; then the running sum is the element-wise sum of all accepted windows and the counter is their number |
| Gsta.AccumulateZipped | mozaik/analysis/analysis.py:153-159 | one pass of the zip over trial t fails iff `spike[n]` is missing, or `ans[:, n]` is missing and some spike of the trial reaches it; otherwise it extends sum and count by trial t's windows |
| Gsta.AccumulateTrial | mozaik/analysis/analysis.py:154-159 | the spike loop of one trial fails iff column n is missing and some spike lies inside the trial with `idx - gstal > 0`; otherwise sum and count grow by exactly that trial's windows |
| Gsta.AccumulateSpike | mozaik/analysis/analysis.py:155-159 | one spike: fails iff it lies inside the trial, passes `idx - gstal > 0` and column n is missing; otherwise it is skipped unless its window fits, and an accepted window is added to the sum and counted |
| Gsta.EarlySpikeSkipsColumn | mozaik/analysis/analysis.py:155-165 | on one trial over (0, 10) with a single column, gstal 1 and one spike at 0.5 for neuron 1, the spike gives idx - gstal = -1 and is skipped without reading the missing column 1, so do_gsta returns three zeros starting at -1.0 instead of failing (the general rule is in Gsta.GstaShape) |
| Gsta.GstaShape | mozaik/analysis/analysis.py:149-165 | which failure comes first, each as an iff (the index error exactly when some trial lacks `spike[n]`, or lacks `ans[:, n]` while a spike reaches the column test); on success the output has 2*gstal+1 samples, starts at -gstal*dt with period dt, so its centre sample lies at time 0 |
| Gsta.SpikeWindowsCount | mozaik/analysis/analysis.py:155-159 | a trial yields exactly one window per spike that passes all three tests |
| Gsta.SpikeWindowsComplete | mozaik/analysis/analysis.py:155-158 | the window of every accepted spike is among the accumulated windows |
| Gsta.SpikeWindowsSound | mozaik/analysis/analysis.py:155-158 | every accumulated window is the window of some accepted spike; spikes failing a test add nothing |
| Gsta.SpikeWindowsEmptyIff | mozaik/analysis/analysis.py:155-159 | a trial contributes no window iff none of its spikes is accepted |
| Gsta.CountZeroIff | mozaik/analysis/analysis.py:152-161 | the counter is still 0 after the loops iff no spike of any trial was accepted |
| Gsta.AcceptedCountIsWindowCount | mozaik/analysis/analysis.py:152-159 | the counter after t trials equals the number of accepted spikes in those trials |
| Gsta.SilentNeuron | mozaik/analysis/analysis.py:151-165 | with no accepted spike the divisor becomes 1 and, unless a neuron index is missing, the result is 2*gstal+1 zeros starting at -gstal*dt |
| Gsta.StaIsMean | mozaik/analysis/analysis.py:153-162 | with an accepted spike and no neuron index missing, the result is the element-wise mean of the accepted windows |
| Gsta.SingleSpike | mozaik/analysis/analysis.py:153-165 | when exactly one spike over all trials is accepted, whatever other spikes were rejected, and no neuron index is missing, the result's samples are exactly that spike's window |
| Gsta.StaWithinWindowRange | mozaik/analysis/analysis.py:158-162 | once some spike is accepted and no neuron index is missing, every result sample lies within any bounds that the accepted windows keep, whatever the rest of the trace holds |
| Gsta.StaWithinTraceRange | mozaik/analysis/analysis.py:153-162 | once some spike is accepted and no neuron index is missing, every result sample lies within any bounds that neuron n's trace keeps in every trial of the zip |
| Gsta.ConstantTrace | mozaik/analysis/analysis.py:158-162 | once some spike is accepted and no neuron index is missing, a constant conductance yields that constant at every sample (with no accepted spike the result is zeros, see Gsta.SilentNeuron) |
| Gsta.SpikeWindowsWithin | mozaik/analysis/analysis.py:157-158 | every accepted window is a slice of the neuron's trace, so it stays within the trace's range |
| Averaging.SumConcat | mozaik/analysis/analysis.py:68 | `sum()` of a concatenation is the element-wise sum of the two parts' totals, so the total does not depend on how the list is split |
| Averaging.MeanRatesBounds | mozaik/analysis/analysis.py:69 | rate i stays within any bounds [lo[i], hi[i]] that the arrays of group i stay within, one pair of bounds per group |
| Averaging.MeanRatesOfCopies | mozaik/analysis/analysis.py:69 | when every group holds copies of one array, the list of means is the list of those arrays |
| Averaging.MeanOfOne | mozaik/analysis/analysis.py:66-68 | the mean of a group of one array is that array |
| Averaging.MeanOfCopies | mozaik/analysis/analysis.py:66-68 | the mean of N equal arrays is that array |
| Averaging.MeanBounds | mozaik/analysis/analysis.py:66-68 | the mean stays within any bounds all members of the group stay within |
| Averaging.SumBounds | mozaik/analysis/analysis.py:68 | the sum of n arrays with entries in [lo, hi] lies within [n*lo, n*hi] |
| Precision.Correlate | mozaik/analysis/analysis.py:196 | the nested-loop correlation equals numpy.correlate(h, h, 'full'), with 2N-1 lags |
| Precision.AutocorrelationSymmetric | mozaik/analysis/analysis.py:196 | ac[k] == ac[2N-2-k] |
| Precision.AutocorrelationPeak | mozaik/analysis/analysis.py:196 | the zero-lag entry ac[N-1] is the sum of the squared bins |
| Precision.LagBounded | mozaik/analysis/analysis.py:196 | no lag exceeds the zero lag in magnitude |
| Precision.SquareTotal | mozaik/analysis/analysis.py:197 | the loop computes numpy.sum(numpy.power(h, 2)) |
| Precision.SumSquaresZeroIff | mozaik/analysis/analysis.py:197 | the sum of squares is non-negative, and 0 iff every bin is 0 |
| Precision.NormalisedAutocorrelation | mozaik/analysis/analysis.py:196-198 | an empty histogram fails; otherwise the result is the autocorrelation, divided by the sum of squares only when it is non-zero |
| Precision.NormalisedPeak | mozaik/analysis/analysis.py:197-198 | after dividing, the zero-lag entry is exactly 1 |
| Precision.NormalisedBounded | mozaik/analysis/analysis.py:197-198 | after dividing, every entry lies in [-1, 1] |
| Precision.NormalisedSilent | mozaik/analysis/analysis.py:197-198 | the division is skipped iff the histogram is all zeros, and the result is then 2N-1 zeros |
| Precision.NormalisedSymmetric | mozaik/analysis/analysis.py:196-198 | normalisation keeps the symmetry |
| Precision.PrecisionTraces | mozaik/analysis/analysis.py:194-199 | the loop over neurons succeeds iff every neuron's trace exists; each entry is that neuron's trace in order; otherwise the error is that of the first failing neuron |
| Precision.NeuronTraceTiming | mozaik/analysis/analysis.py:199 | when N bins of bin_length make up the duration, the 2N-1 samples span [-duration, duration - bin_length] and the zero lag sits at -bin_length |

## Left out

- Datastore queries, segment access and `add_analysis_result` (lines 55-60, 74, 130-145, 182-193, 201-202). They are I/O against a store whose code is not part of this model. This includes the loop of GSTA.analyse over `neurons`, which only calls do_gsta per neuron and stores the results.
- `colapse` and `time_histogram_across_trials`. Their code is not part of this model. The collapsed groups and the histograms are inputs.
- `PeriodicTuningCurvePreferenceAndSelectivity_VectorAverage`. It is floating-point trigonometry, and nothing exact can be stated about it.
- Units, the `AnalogSignal`/`CyclicTuningCurve` containers and the `print` logging. These are metadata; a trace keeps only its samples, start, stop and period.
- Floating-point rounding. Reals are exact, so the sums and divisions hold exactly.
- Averaging.Mean: requires a non-empty group of arrays that all have the same length. On an empty group `sum(a)/l` raises ZeroDivisionError. On arrays of unequal length numpy broadcasts length-1 arrays and raises ValueError for any other mismatch; neither is modelled. The groups come from `colapse`, which is not part of this model, and are taken to be non-empty. Their arrays are taken to have one length, since every segment of one sheet records the same neurons.
- Gsta.GstaOutcome: assumes the first signal's sampling period is positive, which the recordings guarantee.
- Precision.Normalised: models histogram bins as integer spike counts in a float array, so the division is true division. If the histogram came back as an integer array, Python 2 `/` would floor instead; that is not modelled.
- Precision.NeuronTrace: duration, start and bin length are plain numbers; `t_start.units` on line 199 is unit metadata.
- The time axis of the precision trace follows the code: lag 0 sits at `-bin_length`, not at 0, because the signal starts at `-duration` and has 2N-1 samples (see `Precision.NeuronTraceTiming`).
- The `ffi-experiment.py` script. It is an experiment script: simulator setup, loading and plotting.
