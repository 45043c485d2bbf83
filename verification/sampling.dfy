/**
 * The two sampling tasks of the pH extension as step functions. A step
 * runs a task from one `await asyncio.sleep` to the next, reading and
 * writing the shared globals; the tasks' local buffers live in their own
 * task records.
 */
module Sampling {
  import opened Wrappers
  import opened Rounding
  import opened Averaging
  import opened Calibration
  import opened PhState

  /** Reads per channel in one window of `read_sensors`. */
  const FastWindow: nat := 5

  /** Copies of `ph_adc_avg` in one window of `ph_sampling`. */
  const SlowWindow: nat := 15

  /** One tick of the ADC: the pH and TDS channel readings, already converted to volts. */
  datatype AdcSample = AdcSample(ph: real, tds: real)

  /**
   * `read_sensors` between two sleeps: the pH and TDS buffers and the number
   * of reads taken in the current window.
   */
  datatype FastTask = FastTask(phBuf: seq<real>, tdsBuf: seq<real>, tick: nat)

  /** Each buffer holds as many readings as the window counter, at most a full window. */
  predicate FastValid(t: FastTask) {
    t.tick <= FastWindow && |t.phBuf| == t.tick && |t.tdsBuf| == t.tick
  }

  /** `read_sensors` before its first read. */
  const FastStart: FastTask := FastTask([], [], 0)

  /** The pH column of a run of samples. */
  function PhReads(xs: seq<AdcSample>): (r: seq<real>)
    ensures |r| == |xs|
  {
    if |xs| == 0 then [] else [xs[0].ph] + PhReads(xs[1..])
  }

  /** The TDS column of a run of samples. */
  function TdsReads(xs: seq<AdcSample>): (r: seq<real>)
    ensures |r| == |xs|
  {
    if |xs| == 0 then [] else [xs[0].tds] + TdsReads(xs[1..])
  }

  /** The outcome of one step of a task: its new record and the globals. */
  datatype FastOut = FastOut(task: FastTask, shared: Shared)

  /**
   * One step of `read_sensors`. When the task resumes after the last sleep
   * of a window, it publishes the average of each non-empty buffer and
   * clears it; then it takes one reading of each channel and sleeps.
   */
  function FastStep(t: FastTask, s: Shared, x: AdcSample): (r: FastOut)
    requires FastValid(t)
    ensures FastValid(r.task) && r.task.tick >= 1
    ensures t.tick < FastWindow ==>
      r.shared == s && r.task == FastTask(t.phBuf + [x.ph], t.tdsBuf + [x.tds], t.tick + 1)
    ensures t.tick == FastWindow ==>
      r.task == FastTask([x.ph], [x.tds], 1) &&
      r.shared == s.(phAdcAvg := Average(t.phBuf), tdsAdcAvg := Average(t.tdsBuf))
    ensures t.tick == FastWindow ==> r.shared.phAdcAvg.Some? && r.shared.tdsAdcAvg.Some?
  {
    var (t1, s1) :=
      if t.tick == FastWindow then
        var s' := if |t.phBuf| > 0 then s.(phAdcAvg := Average(t.phBuf)) else s;
        var s'' := if |t.tdsBuf| > 0 then s'.(tdsAdcAvg := Average(t.tdsBuf)) else s';
        (FastTask([], [], 0), s'')
      else (t, s);
    FastOut(FastTask(t1.phBuf + [x.ph], t1.tdsBuf + [x.tds], t1.tick + 1), s1)
  }

  /** `read_sensors` run for `|xs|` steps against globals nobody else writes. */
  function FastRun(t: FastTask, s: Shared, xs: seq<AdcSample>): (r: FastOut)
    requires FastValid(t)
    ensures FastValid(r.task)
    decreases |xs|
  {
    if |xs| == 0 then FastOut(t, s)
    else
      var o := FastStep(t, s, xs[0]);
      FastRun(o.task, o.shared, xs[1..])
  }

  /**
   * Within a window every step appends exactly one reading of each channel
   * and publishes nothing.
   */
  lemma {:induction false} FastRunFills(t: FastTask, s: Shared, xs: seq<AdcSample>)
    requires FastValid(t)
    requires t.tick + |xs| <= FastWindow
    ensures FastRun(t, s, xs) ==
      FastOut(FastTask(t.phBuf + PhReads(xs), t.tdsBuf + TdsReads(xs), t.tick + |xs|), s)
    decreases |xs|
  {
    if |xs| == 0 {
      assert t.phBuf + PhReads(xs) == t.phBuf;
      assert t.tdsBuf + TdsReads(xs) == t.tdsBuf;
    } else {
      var t1 := FastTask(t.phBuf + [xs[0].ph], t.tdsBuf + [xs[0].tds], t.tick + 1);
      assert FastRun(t, s, xs) == FastRun(t1, s, xs[1..]) by {
        assert FastStep(t, s, xs[0]) == FastOut(t1, s);
      }
      FastRunFills(t1, s, xs[1..]);
      assert t1.phBuf + PhReads(xs[1..]) == t.phBuf + PhReads(xs) by {
        assert PhReads(xs) == [xs[0].ph] + PhReads(xs[1..]);
      }
      assert t1.tdsBuf + TdsReads(xs[1..]) == t.tdsBuf + TdsReads(xs) by {
        assert TdsReads(xs) == [xs[0].tds] + TdsReads(xs[1..]);
      }
    }
  }

  /**
   * A whole window: starting from an empty window, five steps take five
   * readings per channel, and the sixth step publishes their averages,
   * clears both buffers and starts the next window with its own reading.
   */
  lemma FastWindowPublishes(s: Shared, xs: seq<AdcSample>, next: AdcSample)
    requires |xs| == FastWindow
    ensures var o := FastRun(FastStart, s, xs + [next]);
      o.shared == s.(phAdcAvg := Average(PhReads(xs)), tdsAdcAvg := Average(TdsReads(xs))) &&
      o.task == FastTask([next.ph], [next.tds], 1)
  {
    FastRunFills(FastStart, s, xs);
    FastRunSplit(FastStart, s, xs, [next]);
    assert [] + PhReads(xs) == PhReads(xs);
    assert [] + TdsReads(xs) == TdsReads(xs);
  }

  /** Running two runs of samples back to back is running their concatenation. */
  lemma {:induction false} FastRunSplit(t: FastTask, s: Shared, xs: seq<AdcSample>, ys: seq<AdcSample>)
    requires FastValid(t)
    ensures var o := FastRun(t, s, xs); FastRun(t, s, xs + ys) == FastRun(o.task, o.shared, ys)
    decreases |xs|
  {
    if |xs| == 0 {
      assert xs + ys == ys;
    } else {
      var o := FastStep(t, s, xs[0]);
      assert (xs + ys)[0] == xs[0];
      assert (xs + ys)[1..] == xs[1..] + ys;
      assert FastRun(t, s, xs + ys) == FastRun(o.task, o.shared, xs[1..] + ys);
      FastRunSplit(o.task, o.shared, xs[1..], ys);
    }
  }

  /** Splitting a run of samples splits its pH column. */
  lemma {:induction false} PhReadsAppend(a: seq<AdcSample>, b: seq<AdcSample>)
    ensures PhReads(a + b) == PhReads(a) + PhReads(b)
    decreases |a|
  {
    if |a| > 0 {
      assert (a + b)[1..] == a[1..] + b;
      PhReadsAppend(a[1..], b);
    } else {
      assert a + b == b;
    }
  }

  /** Splitting a run of samples splits its TDS column. */
  lemma {:induction false} TdsReadsAppend(a: seq<AdcSample>, b: seq<AdcSample>)
    ensures TdsReads(a + b) == TdsReads(a) + TdsReads(b)
    decreases |a|
  {
    if |a| > 0 {
      assert (a + b)[1..] == a[1..] + b;
      TdsReadsAppend(a[1..], b);
    } else {
      assert a + b == b;
    }
  }

  /**
   * The window counter after `n` reads from a fresh start with windows of
   * `size` reads: 0 before the first read, then 1 up to `size` over and over.
   */
  function WindowTick(n: nat, size: nat): (k: nat)
    requires size > 0
    ensures k <= size && k <= n
    ensures n > 0 ==> 1 <= k
  {
    if n == 0 then 0
    else
      var prev := WindowTick(n - 1, size);
      if prev == size then 1 else prev + 1
  }

  /** Moving the first item of `xs` onto the history keeps the whole sequence. */
  lemma ShiftOne<T>(hist: seq<T>, xs: seq<T>)
    requires |xs| > 0
    ensures hist + [xs[0]] + xs[1..] == hist + xs
  {
    assert [xs[0]] + xs[1..] == xs;
    assert hist + [xs[0]] + xs[1..] == hist + ([xs[0]] + xs[1..]);
  }

  /** Appending one item to a history extends its last `k` items by that item. */
  lemma LastAppend<T>(hist: seq<T>, x: T, k: nat)
    requires k <= |hist|
    ensures (hist + [x])[|hist| - k..] == hist[|hist| - k..] + [x]
  {
  }

  /** The buffers hold the readings of the current window of the history `hist`. */
  predicate FastHoldsWindow(t: FastTask, hist: seq<AdcSample>) {
    && t.tick == WindowTick(|hist|, FastWindow)
    && t.phBuf == PhReads(hist[|hist| - t.tick..])
    && t.tdsBuf == TdsReads(hist[|hist| - t.tick..])
  }

  /** One step keeps the buffers equal to the current window's readings. */
  lemma FastStepKeepsWindow(t: FastTask, s: Shared, hist: seq<AdcSample>, x: AdcSample)
    requires FastValid(t) && FastHoldsWindow(t, hist)
    ensures FastHoldsWindow(FastStep(t, s, x).task, hist + [x])
  {
    var r := FastStep(t, s, x).task;
    var k := if t.tick < FastWindow then t.tick else 0;
    var win := hist[|hist| - k..];
    assert r.tick == WindowTick(|hist| + 1, FastWindow);
    assert (hist + [x])[|hist + [x]| - r.tick..] == win + [x] by {
      LastAppend(hist, x, k);
    }
    PhReadsAppend(win, [x]);
    TdsReadsAppend(win, [x]);
    assert PhReads([x]) == [x.ph] && TdsReads([x]) == [x.tds];
    if t.tick == FastWindow {
      assert win == [];
    }
  }

  /**
   * Whatever came before, a task whose buffers hold the last `tick` samples
   * of its history still does after any further run: the samples of the
   * current window and nothing else.
   */
  lemma {:induction false} FastRunKeepsWindow(t: FastTask, s: Shared, hist: seq<AdcSample>, xs: seq<AdcSample>)
    requires FastValid(t) && FastHoldsWindow(t, hist)
    ensures FastHoldsWindow(FastRun(t, s, xs).task, hist + xs)
    decreases |xs|
  {
    if |xs| == 0 {
      assert hist + xs == hist;
    } else {
      var o := FastStep(t, s, xs[0]);
      var h1 := hist + [xs[0]];
      var r := FastRun(o.task, o.shared, xs[1..]);
      assert FastHoldsWindow(o.task, h1) by {
        FastStepKeepsWindow(t, s, hist, xs[0]);
      }
      assert FastHoldsWindow(r.task, h1 + xs[1..]) by {
        FastRunKeepsWindow(o.task, o.shared, h1, xs[1..]);
      }
      assert h1 + xs[1..] == hist + xs by {
        ShiftOne(hist, xs);
      }
      assert FastRun(t, s, xs) == r;
    }
  }

  /**
   * After any run from a fresh start, the window counter is where the
   * five-read cycle puts it and the buffers hold exactly the readings of
   * the current window: the last `tick` samples, in order.
   */
  lemma FastRunHoldsWindow(s: Shared, xs: seq<AdcSample>)
    ensures var r := FastRun(FastStart, s, xs).task;
      r.tick == WindowTick(|xs|, FastWindow) &&
      r.phBuf == PhReads(xs[|xs| - r.tick..]) &&
      r.tdsBuf == TdsReads(xs[|xs| - r.tick..])
  {
    var empty: seq<AdcSample> := [];
    assert empty[0..] == [];
    FastRunKeepsWindow(FastStart, s, empty, xs);
    assert empty + xs == xs;
  }

  /** Seven reads from a fresh start: the first window was published, the buffers hold reads six and seven. */
  lemma SevenReadsKeepLastTwo(s: Shared, xs: seq<AdcSample>)
    requires |xs| == 7
    ensures FastRun(FastStart, s, xs).task.phBuf == [xs[5].ph, xs[6].ph]
    ensures FastRun(FastStart, s, xs).task.tdsBuf == [xs[5].tds, xs[6].tds]
  {
    FastRunHoldsWindow(s, xs);
    assert xs[5..] == [xs[5]] + [xs[6]];
    PhReadsAppend([xs[5]], [xs[6]]);
    TdsReadsAppend([xs[5]], [xs[6]]);
    assert PhReads([xs[5]]) == [xs[5].ph] && PhReads([xs[6]]) == [xs[6].ph];
    assert TdsReads([xs[5]]) == [xs[5].tds] && TdsReads([xs[6]]) == [xs[6].tds];
  }

  /**
   * `ph_sampling` between two sleeps. While `Waiting` it polls its
   * readiness gate; once `Sampling` it keeps the curve snapshot it last
   * copied, the window buffer and the number of values in it.
   */
  datatype SlowTask =
    | Waiting
    | Sampling(snapshot: Curve, buf: seq<real>, tick: nat)

  /** While sampling, the window buffer holds as many values as the window counter, at most a full window. */
  predicate SlowValid(t: SlowTask) {
    t.Sampling? ==> 1 <= t.tick <= SlowWindow && |t.buf| == t.tick
  }

  /**
   * Python truthiness of `ph_adc_avg` and `ph_chart_points`: a missing or
   * zero average and an empty curve both keep the task waiting.
   */
  predicate Ready(s: Shared) {
    s.phAdcAvg.Some? && s.phAdcAvg.value != 0.0 && |s.chartPoints| > 0
  }

  /** The outcome of one step of `ph_sampling`. */
  datatype SlowOut = SlowOut(task: SlowTask, shared: Shared)

  /**
   * One step of `ph_sampling`. Waiting, it sleeps until `Ready`; then it
   * copies the curve, publishes a first `ph` from the current average and
   * appends that average as the first value of its window. Sampling, it
   * appends the current average; when it resumes after the fifteenth value
   * it first averages the window, clears it, re-copies the curve if the
   * curve changed, and publishes `ph` from the window average.
   */
  function SlowStep(num: Numerics, t: SlowTask, s: Shared): (r: SlowOut)
    requires SlowValid(t)
    requires t.Sampling? ==> s.phAdcAvg.Some?
    ensures SlowValid(r.task)
    ensures r.shared == s.(ph := r.shared.ph)
    ensures t.Waiting? && !Ready(s) ==> r == SlowOut(Waiting, s)
    ensures t.Waiting? && Ready(s) ==>
      r.task == Sampling(s.chartPoints, [s.phAdcAvg.value], 1) &&
      r.shared.ph == Lookup(num, s.chartPoints, s.phAdcAvg.value)
    ensures t.Sampling? && t.tick < SlowWindow ==>
      r == SlowOut(Sampling(t.snapshot, t.buf + [s.phAdcAvg.value], t.tick + 1), s)
    ensures t.Sampling? && t.tick == SlowWindow ==>
      r.task == Sampling(s.chartPoints, [s.phAdcAvg.value], 1) &&
      r.shared.ph == Lookup(num, s.chartPoints, Average(t.buf).value)
  {
    match t
    case Waiting =>
      if !Ready(s) then SlowOut(Waiting, s)
      else
        var snapshot := s.chartPoints;
        var ph := Lookup(num, snapshot, s.phAdcAvg.value);
        SlowOut(Sampling(snapshot, [s.phAdcAvg.value], 1), s.(ph := ph))
    case Sampling(snapshot, buf, tick) =>
      if tick < SlowWindow then
        SlowOut(Sampling(snapshot, buf + [s.phAdcAvg.value], tick + 1), s)
      else
        var phAvg := Average(buf).value;
        var snapshot' := if snapshot != s.chartPoints then s.chartPoints else snapshot;
        var ph := Lookup(num, snapshot', phAvg);
        SlowOut(Sampling(snapshot', [s.phAdcAvg.value], 1), s.(ph := ph))
  }

  /** The current first-stage average at each of a run of observed globals. */
  function ObservedAverages(obs: seq<Shared>): (r: seq<real>)
    requires forall i :: 0 <= i < |obs| ==> obs[i].phAdcAvg.Some?
    ensures |r| == |obs|
  {
    if |obs| == 0 then [] else [obs[0].phAdcAvg.value] + ObservedAverages(obs[1..])
  }

  /**
   * Once the first-stage average has been published it stays published
   * along a run of observed globals (only `read_sensors` writes it, and
   * never with `None`).
   */
  predicate StaysPublished(obs: seq<Shared>) {
    forall i, j :: 0 <= i <= j < |obs| && obs[i].phAdcAvg.Some? ==> obs[j].phAdcAvg.Some?
  }

  /** `ph_sampling` run against a sequence of observed globals, one per step. */
  function SlowRun(num: Numerics, t: SlowTask, obs: seq<Shared>): (r: SlowTask)
    requires SlowValid(t)
    requires StaysPublished(obs)
    requires t.Sampling? && |obs| > 0 ==> obs[0].phAdcAvg.Some?
    ensures SlowValid(r)
    decreases |obs|
  {
    if |obs| == 0 then t
    else
      var o := SlowStep(num, t, obs[0]);
      SlowRun(num, o.task, obs[1..])
  }

  /**
   * Inside a window the task appends exactly one value per step, the
   * average it observes at that step, and keeps its curve snapshot even
   * when the curve changes meanwhile.
   */
  lemma {:induction false} SlowRunFills(num: Numerics, t: SlowTask, obs: seq<Shared>)
    requires SlowValid(t) && t.Sampling?
    requires t.tick + |obs| <= SlowWindow
    requires forall i :: 0 <= i < |obs| ==> obs[i].phAdcAvg.Some?
    requires StaysPublished(obs)
    ensures SlowRun(num, t, obs) ==
      Sampling(t.snapshot, t.buf + ObservedAverages(obs), t.tick + |obs|)
    decreases |obs|
  {
    if |obs| == 0 {
      assert t.buf + ObservedAverages(obs) == t.buf;
    } else {
      var v := obs[0].phAdcAvg.value;
      var t1 := Sampling(t.snapshot, t.buf + [v], t.tick + 1);
      assert SlowRun(num, t, obs) == SlowRun(num, t1, obs[1..]) by {
        assert SlowStep(num, t, obs[0]) == SlowOut(t1, obs[0]);
      }
      SlowRunFills(num, t1, obs[1..]);
      assert t1.buf + ObservedAverages(obs[1..]) == t.buf + ObservedAverages(obs) by {
        assert ObservedAverages(obs) == [v] + ObservedAverages(obs[1..]);
      }
    }
  }

  /**
   * A whole slow window: a window opened with value `v` takes the averages
   * observed on the next fourteen steps, and the step after them publishes
   * `ph` from the average of those fifteen values, looked up on the curve
   * current at that moment, which also becomes the new snapshot.
   */
  lemma SlowWindowCompletes(num: Numerics, snapshot: Curve, v: real, obs: seq<Shared>, s: Shared)
    requires |obs| == SlowWindow - 1
    requires forall i :: 0 <= i < |obs| ==> obs[i].phAdcAvg.Some?
    requires StaysPublished(obs)
    requires s.phAdcAvg.Some?
    ensures var full := SlowRun(num, Sampling(snapshot, [v], 1), obs);
      full == Sampling(snapshot, [v] + ObservedAverages(obs), SlowWindow) &&
      SlowStep(num, full, s) == SlowOut(
        Sampling(s.chartPoints, [s.phAdcAvg.value], 1),
        s.(ph := Lookup(num, s.chartPoints, Average([v] + ObservedAverages(obs)).value)))
  {
    SlowRunFills(num, Sampling(snapshot, [v], 1), obs);
  }

  /** A task that never sees its gate open keeps waiting, however long it polls. */
  lemma {:induction false} SlowWaitsUntilReady(num: Numerics, obs: seq<Shared>)
    requires StaysPublished(obs)
    requires forall i :: 0 <= i < |obs| ==> !Ready(obs[i])
    ensures SlowRun(num, Waiting, obs) == Waiting
  {
    if |obs| > 0 {
      SlowWaitsUntilReady(num, obs[1..]);
    }
  }

  /**
   * When the first-stage average holds one value for a whole window, the
   * window completes with `ph` looked up from exactly that value on the
   * curve current at completion.
   */
  lemma SteadyWindow(num: Numerics, t: SlowTask, s: Shared, c: real)
    requires SlowValid(t) && t.Sampling? && t.tick == SlowWindow
    requires FourPlaces(c) && AllEqual(t.buf, c)
    requires s.phAdcAvg.Some?
    ensures SlowStep(num, t, s).shared.ph == Lookup(num, s.chartPoints, c)
  {
    AverageOfConstant(t.buf, c);
  }

  /**
   * The window average never leaves the range of the first-stage averages
   * it was built from, so the looked-up reading uses an in-range value.
   */
  lemma WindowAverageWithin(t: SlowTask, lo: real, hi: real)
    requires SlowValid(t) && t.Sampling?
    requires FourPlaces(lo) && FourPlaces(hi)
    requires AllWithin(t.buf, lo, hi)
    ensures lo <= Average(t.buf).value <= hi
  {
    AverageWithin(t.buf, lo, hi);
  }
}
