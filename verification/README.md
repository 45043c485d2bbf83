# pH extension: sampling, calibration upload and change-only streams

This project models the sequential logic of the aquarium controller's pH
extension (`src/extension.py`) and of the single-worker layout of the same
extension in the repository root (`extension.py`), and proves properties of
the model in Dafny.

The extension keeps a handful of module-level globals: the derived `ph`, the
first-stage averages `ph_adc_avg` and `tds_adc_avg`, `temp`, the chart curve
`ph_chart_points` and the calibration object `ph_cal_points`. It runs
cooperative tasks over them:

- `read_sensors` (fast stage) takes five pH and five TDS readings, one per
  tick. It publishes each buffer's average and clears the buffers.
- `ph_sampling` (slow stage) waits until a non-zero `ph_adc_avg` and a
  non-empty curve exist. It then collects fifteen copies of the published
  `ph_adc_avg`, averages them, and looks the result up on the curve. It
  re-copies the curve only when a window completes and the curve changed.
- `/ph-upload-points` validates an uploaded calibration object and replaces
  the curve and the calibration.
- `/ph-sse` streams the readings on every poll. `/ph-chart-sse` streams the
  curve only when it differs from the copy that subscriber last sent.

The model is functional. `PhState.Shared` is an immutable record of the
globals. Each task is a record of its local buffers plus a pure step
function that runs the task from one `await asyncio.sleep` to the next.
`Scheduler` puts the globals and both sampling tasks together; the
scheduler's choice of which task resumes is an event. Request handlers have
no `await`, so each runs in one step. Sensor readings, the calibration
file's content, the success of the file write and the socket's end-of-file
report are inputs. `linear_interpolation` and `np.interp` are the two
arrow-typed fields of `Calibration.Numerics`, so every property holds for
any implementation of them that returns.

Modules: `Wrappers` (Option/Result), `Rounding` (`round(x, 4)`), `Averaging`
(`calculate_average`), `Calibration` (points, curve, point extraction),
`PhState` (globals, start-up, upload, `read_temp`), `Sampling` (the two
sampling tasks), `Scheduler` (the interleaved system and its invariant),
`Streams` (the two SSE routes), and `SensorWorker` (the three-channel worker
of `extension.py`). The `calculate_average` nested inside that worker has the
same body as the module-level one in `src/extension.py`, so both are
`Averaging.Average`.

## Behaviour notes

- The upload handler replaces the curve before it writes the calibration
  file. When the write fails, the new curve stays in memory beside the old
  calibration object, and a restart would rebuild the old curve.
  `PhState.WriteFailureBreaksCoherence` states this.
- An upload with fewer than two points is answered with `{}`, the same reply
  as an accepted upload, and changes nothing.
- Every sensor reading enters its buffer as read; no reading is filtered out.
- The window sizes are constants: five ticks for the fast stage and the
  sensor worker, fifteen for the slow stage.

## Model

| member | source | states |
|---|---|---|
| Rounding.Round4 | src/extension.py:152 | `round(x, 4)` is within half a ten-thousandth of `x`, always lands on the four-place grid, and leaves four-place values unchanged |
| Rounding.Round4Between | src/extension.py:152 | rounding never moves a value past a four-place bound it lies within |
| Averaging.Average | src/extension.py:148-154 | `calculate_average` is `None` exactly for the empty list (no division by zero); otherwise it is a four-place value within half a unit of the arithmetic mean |
| Averaging.MeanWithin | src/extension.py:150-151 | the unrounded mean of a window lies between the smallest and largest bound of its samples |
| Averaging.AverageWithin | src/extension.py:148-154 | with four-place bounds, the rounded average also stays within the bounds of its samples |
| Averaging.AverageOfConstant | src/extension.py:148-154 | a window of copies of one four-place value averages back to exactly that value |
| Averaging.AverageExample | extension.py:52-58 | the nested averager gives `4` for `[2, 4, 6]` and `None` for `[]` |
| Calibration.ExtractPoints | src/extension.py:91 | the point list has one `(adc, ph)` pair per member in iteration order; it fails exactly when some member lacks a field, with the `KeyError` of the first such member's first missing field (`adc` is read before `ph`); like Python's exception, the error carries only the field name |
| Calibration.AxesRecoverCurve | src/extension.py:228-229 | the `adc` and `ph` columns passed to `np.interp` have the curve's length and rebuild every pair of the curve |
| PhState.Boot | src/extension.py:47-60 | at import `ph` is 0, the averages and `temp` are `None`, the curve is empty, and the calibration object is the file's content or `{}` |
| PhState.StartExtension | src/extension.py:73-76 | start-up builds the curve from a non-empty stored calibration, touches nothing else, leaves an empty one alone, and raises exactly when a stored member lacks a field |
| PhState.StartupCoherent | src/extension.py:54-76 | after a successful start-up, the calibration in memory equals the file and the curve is the one built from it |
| PhState.UploadPoints | src/extension.py:87-104 | a missing field raises and a list of fewer than 2 points is answered `{}`, both with no change. Otherwise the curve becomes `linear_interpolation(points)`. A successful write then also replaces the calibration object and file; a failed write leaves both unchanged. The readings are never touched |
| PhState.UploadKeepsCoherent | src/extension.py:91-102 | rejected uploads and uploads whose write succeeds keep memory and file coherent |
| PhState.RestartAfterUpload | src/extension.py:54-102 | restarting from the file a successful upload wrote rebuilds exactly the calibration and curve the upload installed |
| PhState.WriteFailureBreaksCoherence | src/extension.py:95-100 | because the curve is swapped before the file write, a failed write leaves a new curve beside the old calibration, and a restart would not rebuild it |
| PhState.ReadTemp | src/extension.py:157-161 | `read_temp` publishes 25.5 as `temp` and changes nothing else |
| Sampling.FastStep | src/extension.py:191-214 | a step inside a window appends one pH and one TDS reading and publishes nothing. The step after the fifth reading publishes both buffers' averages (never `None`), clears both buffers, and starts the next window with its own reading |
| Sampling.FastRun | src/extension.py:191-214 | after any number of steps each buffer holds at most five readings, as many as the window counter |
| Sampling.FastRunHoldsWindow | src/extension.py:191-214 | after any run from a fresh start the window counter follows the five-read cycle and each buffer is exactly the readings of the current window: the last `tick` samples, in order |
| Sampling.SevenReadsKeepLastTwo | src/extension.py:191-214 | after seven reads from a fresh start the first window has been published and the buffers hold reads six and seven |
| Sampling.FastRunFills | src/extension.py:193-207 | within a window the buffers grow by exactly the readings taken, in order, and the globals stay unchanged |
| Sampling.FastWindowPublishes | src/extension.py:191-214 | from a fresh start, five steps then one more publish the averages of exactly those five pH and five TDS readings |
| Sampling.SlowStep | src/extension.py:218-251 | `ph_sampling` keeps waiting, unchanged, while `ph_adc_avg` is `None` or `0.0` or the curve is empty. Its first step past the gate copies the curve and publishes `ph` at the current average. Inside a window a step appends the current average and keeps the old snapshot. Completing a window re-copies the current curve and publishes `ph` at the window average. Only `ph` is ever written |
| Sampling.SlowRun | src/extension.py:233-251 | over any run the window buffer holds between 1 and 15 values, exactly as many as the window counter |
| Sampling.SlowRunFills | src/extension.py:234-237 | within a window the buffer grows by exactly the averages observed at each step, and the snapshot stays even if the curve changes |
| Sampling.SlowWindowCompletes | src/extension.py:233-251 | a window takes exactly fifteen values. The step after them publishes `ph` from their average on the curve current at that moment, which also becomes the snapshot |
| Sampling.SlowWaitsUntilReady | src/extension.py:224-225 | a task that never sees its gate open stays waiting however long it polls |
| Sampling.SteadyWindow | src/extension.py:239-250 | when the published average held one four-place value for the whole window, `ph` is looked up at exactly that value |
| Sampling.WindowAverageWithin | src/extension.py:239-240 | the slow average lies within the range of the first-stage averages it was built from |
| Scheduler.Start | src/extension.py:47-76 | a successful start-up yields a system that meets the invariant, is coherent with the file, has neither average published, and has the estimator waiting |
| Scheduler.Step | src/extension.py:87-251 | every scheduling step preserves the invariant: well-formed task buffers, the estimator samples only once an average exists, published averages and the values in the estimator's window are four-place values, and `ph` stays 0 while the estimator waits. Only the estimator writes `ph`, only the fast stage writes the two averages, only uploads change the curve and the calibration |
| Scheduler.Run | src/extension.py:181-251 | the invariant holds after any schedule of events |
| Scheduler.NoReadingBeforeReady | src/extension.py:224-230 | under any interleaving, while the estimator has not passed its gate, no `ph` has been published |
| Scheduler.GateOpensOnlyWhenReady | src/extension.py:224-230 | the estimator leaves its waiting loop exactly when a non-zero average and a non-empty curve exist (the Python truthiness test of line 224: a missing or zero average, or an empty curve, keeps it waiting), and then publishes `ph` at that average on that curve |
| Scheduler.AveragesStayPublished | src/extension.py:208-214 | once published, `ph_adc_avg` and `tds_adc_avg` are never reset to `None` |
| Scheduler.ReachedSteadyWindow | src/extension.py:234-250 | in every system the scheduler can reach, a completed window whose values all equal one average makes `ph` the lookup at exactly that average |
| Scheduler.ReachedWindowWithin | src/extension.py:234-240 | in every system the scheduler can reach, the window average lies between the smallest and largest value the estimator collected |
| Streams.ChartStep | src/extension.py:128-142 | an iteration sends iff the loop is open, no eof is reported, and the current curve differs from the last sent copy (so always on the first iteration); what it sends becomes the last sent copy |
| Streams.ChartSession | src/extension.py:128-142 | a chart subscriber sends at most one curve per iteration, nothing once its loop has ended, only curves it observed, and on its first open iteration the curve it sees if that differs from its last copy |
| Streams.ChartSessionCompresses | src/extension.py:126-145 | while connected, a new subscriber sends exactly the observed curves with runs of equal neighbours collapsed to one |
| Streams.IdenticalCurvesSendOnce | src/extension.py:128-142 | N ≥ 1 identical snapshots produce exactly one send |
| Streams.ChangingCurvesSendEach | src/extension.py:128-142 | snapshots that change on every iteration are each sent once, in order |
| Streams.ChartNeverRepeats | src/extension.py:131-138 | a subscriber never sends the same curve twice in a row |
| Streams.EofEndsChartSession | src/extension.py:130 | the first eof ends the loop: the session sends exactly what the iterations before it sent |
| Streams.ReadingsSession | src/extension.py:111-119 | the readings stream sends one event per iteration up to the first eof, each carrying that iteration's readings, and stops there |
| Streams.RepeatsSentOnlyByReadings | src/extension.py:111-142 | for globals that stay the same, the readings stream sends one identical event per iteration while the chart stream sends their curve once |
| Streams.ReadingsStopAtEof | src/extension.py:111 | the first eof ends the readings loop: the session sends exactly what the iterations before it sent |
| SensorWorker.StartWorker | extension.py:63-68 | the worker starts with empty buffers and records whether the probe scan found a sensor |
| SensorWorker.WorkerStep | extension.py:70-99 | inside a window a tick appends one pH, one TDS and, only with a probe, one temperature reading. The step after the fifth tick publishes the pH and TDS averages, publishes the temperature average only with a probe, and restarts the buffers with that step's own readings (its temperature only with a probe) |
| SensorWorker.WorkerRun | extension.py:70-99 | after any number of ticks each buffer holds at most five readings, as many as the window counter, and the temperature buffer is empty without a probe |
| SensorWorker.WorkerRunHoldsWindow | extension.py:70-99 | after any run from a fresh worker the counter follows the five-tick cycle and the pH, TDS and (with a probe) temperature buffers are exactly the current window's readings, in order; without a probe the temperature buffer is empty |
| SensorWorker.SevenTicksKeepLastTwo | extension.py:70-99 | with a probe, after seven ticks the first window has been published and all three buffers hold ticks six and seven |
| SensorWorker.WorkerRunInWindow | extension.py:71-87 | within a window the worker only appends readings and publishes nothing |
| SensorWorker.FilledBuffers | extension.py:71-86 | each outer iteration appends exactly its pH and TDS readings, and its temperature readings only when a probe is present |
| SensorWorker.WorkerWindowPublishes | extension.py:70-99 | five ticks then one more publish the averages of exactly those five pH and five TDS readings; `temp` is their temperature average with a probe and unchanged without |
| SensorWorker.NoProbeKeepsTemp | extension.py:83-99 | without a probe the temperature buffer stays empty, so `temp` never changes |
| SensorWorker.TempStaysUnset | extension.py:34-99 | a worker whose scan found no probe leaves `temp` at its initial `None` forever |

## Left out

- Hardware: the I2C, ADS1115, onewire and ds18x20 set-up and the mock classes are left out. `read` followed by `raw_to_v`, and the probe's `read_temp`, are input readings.
- `lib/stepper_doser_math.py` is not part of this model. `linear_interpolation` stays uninterpreted, so its curve shape and extrapolation are not modelled. The curve builder's properties are left out for the same reason: monotonicity, exact agreement at the calibration points, tail lengths, and clamped lookup.
- `linear_interpolation` is assumed to return for every point list. An exception from it at start-up (through `interpolate_ph`, line 76 of `src/extension.py`) or in the upload handler (line 96) is not modelled.
- `np.interp` is a foreign numeric routine and stays uninterpreted. Its `ValueError` on an empty curve is not modelled.
- Floating point: samples are exact reals. `round(x, 4)` is round-half-even on exact reals; binary representation effects are not modelled.
- HTTP and persistence: routes, `send_file`, cookies, JSON parsing and the SSE transport are left out. Request bodies that are not objects of numbers are not modelled. A failed write counts as leaving the stored file unchanged; truncation by `open(..., 'w')` is not modelled.
- Exceptions inside the SSE loops, such as a failing `sse.send`, are left out. Disconnect is the eof input.
- Timing: the sleep lengths (0.5 s and 1 s) are not modelled, only the order of steps. So the number of fast windows per slow window is left open.
- The unreachable statements of `read_temp` after its `return` are left out.
- The `/ph` page route and the `__main__` block are left out. The `test_extension` of `extension.py`, which registers a route and sets a MAC address, is left out too.
- `setup.py` is bootstrap tooling and is left out.
- Sampling.SlowStep: it requires `ph_adc_avg` to be present while sampling, instead of modelling the `TypeError` a `None` would raise. `Scheduler.Step` proves that state is unreachable.
