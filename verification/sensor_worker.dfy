/**
 * The single sensor worker of the earlier extension layout: one task that
 * samples pH, TDS and (when a probe is present) temperature together,
 * averaging each channel over windows of five ticks.
 */
module SensorWorker {
  import opened Wrappers
  import opened Averaging
  import Sampling

  /** Ticks per window. */
  const Window: nat := 5

  /** The worker's globals `ph`, `tds` and `temp`, all `None` until their first window. */
  datatype Readings = Readings(ph: Option<real>, tds: Option<real>, temp: Option<real>)

  /** The globals when the module is imported. */
  const Unset: Readings := Readings(None, None, None)

  /**
   * One tick of readings: the pH and TDS channels converted to volts, and
   * what the first temperature probe would report (read only when a probe
   * was found).
   */
  datatype Sample = Sample(adc: Sampling.AdcSample, temp: real)

  /**
   * The worker between two sleeps: whether the probe scan found any
   * temperature sensor, the three buffers and the ticks taken in the
   * current window.
   */
  datatype Worker = Worker(
    hasTempSensor: bool,
    phBuf: seq<real>,
    tdsBuf: seq<real>,
    tempBuf: seq<real>,
    tick: nat)

  /** Each buffer holds as many readings as the window counter; the temperature buffer stays empty without a probe. */
  predicate WorkerValid(w: Worker) {
    && w.tick <= Window
    && |w.phBuf| == w.tick
    && |w.tdsBuf| == w.tick
    && |w.tempBuf| == (if w.hasTempSensor then w.tick else 0)
  }

  /** The worker after the probe scan returned `probes`, before its first tick. */
  function StartWorker(probes: seq<nat>): (w: Worker)
    ensures WorkerValid(w) && w.tick == 0
    ensures w.hasTempSensor <==> |probes| > 0
  {
    Worker(|probes| > 0, [], [], [], 0)
  }

  /** The outcome of one step of the worker. */
  datatype WorkerOut = WorkerOut(worker: Worker, globals: Readings)

  /** The average of a buffer if it is non-empty, else the value already published. */
  function Publish(buf: seq<real>, current: Option<real>): Option<real> {
    if |buf| > 0 then Average(buf) else current
  }

  /**
   * One step of the worker. Resuming after the last sleep of a window it
   * publishes the average of each non-empty buffer and clears it; then it
   * reads pH and TDS, reads the temperature only if a probe was found, and
   * sleeps.
   */
  function WorkerStep(w: Worker, g: Readings, x: Sample): (r: WorkerOut)
    requires WorkerValid(w)
    ensures WorkerValid(r.worker) && r.worker.tick >= 1
    ensures r.worker.hasTempSensor == w.hasTempSensor
    ensures w.tick < Window ==> r.globals == g
    ensures w.tick < Window ==>
      r.worker.phBuf == w.phBuf + [x.adc.ph] && r.worker.tdsBuf == w.tdsBuf + [x.adc.tds]
    ensures w.tick < Window ==>
      r.worker.tempBuf == w.tempBuf + (if w.hasTempSensor then [x.temp] else [])
    ensures w.tick == Window ==>
      r.globals.ph == Average(w.phBuf) && r.globals.tds == Average(w.tdsBuf) &&
      r.globals.ph.Some? && r.globals.tds.Some?
    ensures w.tick == Window ==>
      r.globals.temp == (if w.hasTempSensor then Average(w.tempBuf) else g.temp)
    ensures w.tick == Window ==>
      r.worker.phBuf == [x.adc.ph] && r.worker.tdsBuf == [x.adc.tds] &&
      r.worker.tempBuf == (if w.hasTempSensor then [x.temp] else [])
  {
    var (w1, g1) :=
      if w.tick == Window then
        (Worker(w.hasTempSensor, [], [], [], 0),
         Readings(Publish(w.phBuf, g.ph), Publish(w.tdsBuf, g.tds), Publish(w.tempBuf, g.temp)))
      else (w, g);
    var temps := if w1.hasTempSensor then w1.tempBuf + [x.temp] else w1.tempBuf;
    WorkerOut(Worker(w1.hasTempSensor, w1.phBuf + [x.adc.ph], w1.tdsBuf + [x.adc.tds], temps, w1.tick + 1), g1)
  }

  /** The worker run for `|xs|` ticks. */
  function WorkerRun(w: Worker, g: Readings, xs: seq<Sample>): (r: WorkerOut)
    requires WorkerValid(w)
    ensures WorkerValid(r.worker) && r.worker.hasTempSensor == w.hasTempSensor
    decreases |xs|
  {
    if |xs| == 0 then WorkerOut(w, g)
    else
      var o := WorkerStep(w, g, xs[0]);
      WorkerRun(o.worker, o.globals, xs[1..])
  }

  /**
   * Without a temperature probe the temperature buffer stays empty, so no
   * temperature is ever published: `temp` keeps its value (`None` from the
   * start) however long the worker runs.
   */
  lemma {:induction false} NoProbeKeepsTemp(w: Worker, g: Readings, xs: seq<Sample>)
    requires WorkerValid(w) && !w.hasTempSensor
    ensures WorkerRun(w, g, xs).globals.temp == g.temp
    ensures WorkerRun(w, g, xs).worker.tempBuf == []
    decreases |xs|
  {
    if |xs| > 0 {
      var o := WorkerStep(w, g, xs[0]);
      NoProbeKeepsTemp(o.worker, o.globals, xs[1..]);
    }
  }

  /** A worker started without probes never publishes a temperature. */
  lemma TempStaysUnset(xs: seq<Sample>)
    ensures WorkerRun(StartWorker([]), Unset, xs).globals.temp.None?
  {
    NoProbeKeepsTemp(StartWorker([]), Unset, xs);
  }

  /** The pH and TDS voltages of a run of ticks. */
  function AdcColumn(xs: seq<Sample>): (r: seq<Sampling.AdcSample>)
    ensures |r| == |xs|
  {
    if |xs| == 0 then [] else [xs[0].adc] + AdcColumn(xs[1..])
  }

  /** The temperature column of a run of ticks. */
  function TempColumn(xs: seq<Sample>): (r: seq<real>)
    ensures |r| == |xs|
  {
    if |xs| == 0 then [] else [xs[0].temp] + TempColumn(xs[1..])
  }

  /** The worker after one in-window tick has appended its readings. */
  function Appended(w: Worker, x: Sample): Worker {
    var temps := if w.hasTempSensor then w.tempBuf + [x.temp] else w.tempBuf;
    Worker(w.hasTempSensor, w.phBuf + [x.adc.ph], w.tdsBuf + [x.adc.tds], temps, w.tick + 1)
  }

  /** The worker after a run of in-window ticks has appended their readings. */
  function Filled(w: Worker, xs: seq<Sample>): Worker
    decreases |xs|
  {
    if |xs| == 0 then w else Filled(Appended(w, xs[0]), xs[1..])
  }

  /** Within a window the worker only appends: it publishes nothing. */
  lemma {:induction false} WorkerRunInWindow(w: Worker, g: Readings, xs: seq<Sample>)
    requires WorkerValid(w)
    requires w.tick + |xs| <= Window
    ensures WorkerRun(w, g, xs) == WorkerOut(Filled(w, xs), g)
    decreases |xs|
  {
    if |xs| > 0 {
      var w1 := Appended(w, xs[0]);
      assert WorkerStep(w, g, xs[0]) == WorkerOut(w1, g);
      WorkerRunInWindow(w1, g, xs[1..]);
    }
  }

  /** The pH and TDS columns of a run begin with its first tick's readings. */
  lemma ColumnsUnfold(xs: seq<Sample>)
    requires |xs| > 0
    ensures Sampling.PhReads(AdcColumn(xs)) == [xs[0].adc.ph] + Sampling.PhReads(AdcColumn(xs[1..]))
    ensures Sampling.TdsReads(AdcColumn(xs)) == [xs[0].adc.tds] + Sampling.TdsReads(AdcColumn(xs[1..]))
    ensures TempColumn(xs) == [xs[0].temp] + TempColumn(xs[1..])
  {
    var a := AdcColumn(xs);
    assert a == [xs[0].adc] + AdcColumn(xs[1..]);
    assert a[0] == xs[0].adc && a[1..] == AdcColumn(xs[1..]);
  }

  /** The pH and TDS voltages of two consecutive runs are those of each run, concatenated. */
  lemma {:induction false} AdcColumnAppend(a: seq<Sample>, b: seq<Sample>)
    ensures AdcColumn(a + b) == AdcColumn(a) + AdcColumn(b)
    decreases |a|
  {
    if |a| == 0 {
      assert a + b == b;
    } else {
      assert (a + b)[0] == a[0] && (a + b)[1..] == a[1..] + b;
      calc {
        AdcColumn(a + b);
        [(a + b)[0].adc] + AdcColumn(a[1..] + b);
        { AdcColumnAppend(a[1..], b); }
        [a[0].adc] + (AdcColumn(a[1..]) + AdcColumn(b));
        ([a[0].adc] + AdcColumn(a[1..])) + AdcColumn(b);
      }
    }
  }

  /** The temperatures of two consecutive runs are those of each run, concatenated. */
  lemma {:induction false} TempColumnAppend(a: seq<Sample>, b: seq<Sample>)
    ensures TempColumn(a + b) == TempColumn(a) + TempColumn(b)
    decreases |a|
  {
    if |a| == 0 {
      assert a + b == b;
    } else {
      assert (a + b)[0] == a[0] && (a + b)[1..] == a[1..] + b;
      calc {
        TempColumn(a + b);
        [(a + b)[0].temp] + TempColumn(a[1..] + b);
        { TempColumnAppend(a[1..], b); }
        [a[0].temp] + (TempColumn(a[1..]) + TempColumn(b));
        ([a[0].temp] + TempColumn(a[1..])) + TempColumn(b);
      }
    }
  }

  /**
   * In-window ticks append exactly one pH and one TDS reading each, and one
   * temperature each exactly when a probe is present.
   */
  lemma {:induction false} FilledBuffers(w: Worker, xs: seq<Sample>)
    ensures var r := Filled(w, xs);
      r.hasTempSensor == w.hasTempSensor && r.tick == w.tick + |xs| &&
      r.phBuf == w.phBuf + Sampling.PhReads(AdcColumn(xs)) &&
      r.tdsBuf == w.tdsBuf + Sampling.TdsReads(AdcColumn(xs)) &&
      r.tempBuf == w.tempBuf + (if w.hasTempSensor then TempColumn(xs) else [])
    decreases |xs|
  {
    if |xs| == 0 {
      assert w.phBuf + Sampling.PhReads(AdcColumn(xs)) == w.phBuf;
      assert w.tdsBuf + Sampling.TdsReads(AdcColumn(xs)) == w.tdsBuf;
      assert w.tempBuf + TempColumn(xs) == w.tempBuf;
    } else {
      var w1 := Appended(w, xs[0]);
      FilledBuffers(w1, xs[1..]);
      ColumnsUnfold(xs);
      assert w1.phBuf + Sampling.PhReads(AdcColumn(xs[1..])) == w.phBuf + Sampling.PhReads(AdcColumn(xs));
      assert w1.tdsBuf + Sampling.TdsReads(AdcColumn(xs[1..])) == w.tdsBuf + Sampling.TdsReads(AdcColumn(xs));
      if w.hasTempSensor {
        assert w1.tempBuf + TempColumn(xs[1..]) == w.tempBuf + TempColumn(xs);
      }
    }
  }

  /**
   * A whole window from a fresh worker: after five ticks the sixth step
   * publishes the average of the five pH and five TDS readings, the
   * average of the five temperatures when a probe is present, and leaves
   * `temp` alone otherwise.
   */
  lemma WorkerWindowPublishes(probes: seq<nat>, g: Readings, xs: seq<Sample>, next: Sample)
    requires |xs| == Window
    ensures var r := WorkerStep(WorkerRun(StartWorker(probes), g, xs).worker,
                                WorkerRun(StartWorker(probes), g, xs).globals, next);
      r.globals.ph == Average(Sampling.PhReads(AdcColumn(xs))) &&
      r.globals.tds == Average(Sampling.TdsReads(AdcColumn(xs))) &&
      r.globals.temp == (if |probes| > 0 then Average(TempColumn(xs)) else g.temp)
  {
    var w := StartWorker(probes);
    WorkerRunInWindow(w, g, xs);
    FilledBuffers(w, xs);
    assert [] + Sampling.PhReads(AdcColumn(xs)) == Sampling.PhReads(AdcColumn(xs));
    assert [] + Sampling.TdsReads(AdcColumn(xs)) == Sampling.TdsReads(AdcColumn(xs));
    assert [] + TempColumn(xs) == TempColumn(xs);
  }

  /** Each buffer is the matching column of the ticks `win`; temperatures only with a probe. */
  predicate BuffersHold(w: Worker, win: seq<Sample>) {
    && w.phBuf == Sampling.PhReads(AdcColumn(win))
    && w.tdsBuf == Sampling.TdsReads(AdcColumn(win))
    && w.tempBuf == (if w.hasTempSensor then TempColumn(win) else [])
  }

  /**
   * The buffers hold the readings of the current window, given the whole
   * history `hist` of ticks so far: the counter follows the five-tick
   * cycle and the buffers hold the columns of the last `tick` ticks.
   */
  predicate HoldsWindow(w: Worker, hist: seq<Sample>) {
    && w.tick == Sampling.WindowTick(|hist|, Window)
    && BuffersHold(w, hist[|hist| - w.tick..])
  }

  /** Appending a tick's readings extends the columns by that tick. */
  lemma AppendedHolds(w: Worker, win: seq<Sample>, x: Sample)
    requires BuffersHold(w, win)
    ensures BuffersHold(Appended(w, x), win + [x])
  {
    assert AdcColumn(win + [x]) == AdcColumn(win) + [x.adc] by {
      AdcColumnAppend(win, [x]);
    }
    assert TempColumn(win + [x]) == TempColumn(win) + [x.temp] by {
      TempColumnAppend(win, [x]);
    }
    Sampling.PhReadsAppend(AdcColumn(win), [x.adc]);
    Sampling.TdsReadsAppend(AdcColumn(win), [x.adc]);
    assert Sampling.PhReads([x.adc]) == [x.adc.ph] && Sampling.TdsReads([x.adc]) == [x.adc.tds];
  }

  /** The worker as a step resumes it: a full window has its buffers cleared and its counter reset. */
  function Resumed(w: Worker): Worker {
    if w.tick < Window then w else Worker(w.hasTempSensor, [], [], [], 0)
  }

  /** Apart from publishing, a step resumes the worker and appends its tick's readings. */
  lemma StepAppends(w: Worker, g: Readings, x: Sample)
    requires WorkerValid(w)
    ensures WorkerStep(w, g, x).worker == Appended(Resumed(w), x)
  {
  }

  /** Resuming and appending one tick keeps the buffers equal to the current window's columns. */
  lemma AppendedKeepsWindow(w: Worker, hist: seq<Sample>, x: Sample)
    requires WorkerValid(w) && HoldsWindow(w, hist)
    ensures HoldsWindow(Appended(Resumed(w), x), hist + [x])
  {
    var base := Resumed(w);
    var win := hist[|hist| - base.tick..];
    var r := Appended(base, x);
    assert r.tick == Sampling.WindowTick(|hist + [x]|, Window);
    assert BuffersHold(r, win + [x]) by {
      ResumedHolds(w, hist);
      AppendedHolds(base, win, x);
    }
    assert (hist + [x])[|hist + [x]| - r.tick..] == win + [x] by {
      Sampling.LastAppend(hist, x, base.tick);
    }
  }

  /** A resumed worker holds the last `tick` ticks of its history. */
  lemma ResumedHolds(w: Worker, hist: seq<Sample>)
    requires WorkerValid(w) && HoldsWindow(w, hist)
    ensures Resumed(w).tick <= |hist|
    ensures BuffersHold(Resumed(w), hist[|hist| - Resumed(w).tick..])
  {
    if w.tick == Window {
      assert hist[|hist|..] == [];
    }
  }

  /** Every run keeps the buffers equal to the current window's columns. */
  lemma {:induction false} WorkerRunKeepsWindow(w: Worker, g: Readings, hist: seq<Sample>, xs: seq<Sample>)
    requires WorkerValid(w) && HoldsWindow(w, hist)
    ensures HoldsWindow(WorkerRun(w, g, xs).worker, hist + xs)
    decreases |xs|
  {
    if |xs| == 0 {
      assert hist + xs == hist;
    } else {
      var o := WorkerStep(w, g, xs[0]);
      var h1 := hist + [xs[0]];
      var r := WorkerRun(o.worker, o.globals, xs[1..]);
      assert HoldsWindow(o.worker, h1) by {
        StepAppends(w, g, xs[0]);
        AppendedKeepsWindow(w, hist, xs[0]);
      }
      assert HoldsWindow(r.worker, h1 + xs[1..]) by {
        WorkerRunKeepsWindow(o.worker, o.globals, h1, xs[1..]);
      }
      assert h1 + xs[1..] == hist + xs by {
        Sampling.ShiftOne(hist, xs);
      }
      assert WorkerRun(w, g, xs) == r;
    }
  }

  /**
   * After any run from a fresh worker the buffers hold exactly the current
   * window's readings: the last `tick` pH and TDS values, and the last
   * `tick` temperatures when a probe is present.
   */
  lemma WorkerRunHoldsWindow(probes: seq<nat>, g: Readings, xs: seq<Sample>)
    ensures var r := WorkerRun(StartWorker(probes), g, xs).worker;
      r.tick == Sampling.WindowTick(|xs|, Window) &&
      var win := xs[|xs| - r.tick..];
      r.phBuf == Sampling.PhReads(AdcColumn(win)) &&
      r.tdsBuf == Sampling.TdsReads(AdcColumn(win)) &&
      r.tempBuf == (if |probes| > 0 then TempColumn(win) else [])
  {
    var empty: seq<Sample> := [];
    assert empty[0..] == [];
    WorkerRunKeepsWindow(StartWorker(probes), g, empty, xs);
    assert empty + xs == xs;
  }

  /** Seven ticks with a probe: the first window was published, the buffers hold ticks six and seven. */
  lemma SevenTicksKeepLastTwo(probes: seq<nat>, g: Readings, xs: seq<Sample>)
    requires |xs| == 7 && |probes| > 0
    ensures var r := WorkerRun(StartWorker(probes), g, xs).worker;
      r.phBuf == [xs[5].adc.ph, xs[6].adc.ph] &&
      r.tdsBuf == [xs[5].adc.tds, xs[6].adc.tds] &&
      r.tempBuf == [xs[5].temp, xs[6].temp]
  {
    WorkerRunHoldsWindow(probes, g, xs);
    var last := xs[5..];
    ColumnsUnfold(last);
    ColumnsUnfold(last[1..]);
    assert last[1..][1..] == [];
  }
}
