/**
 * The pH extension as one system: the shared globals plus the two
 * long-running sampling tasks, driven by a cooperative scheduler that picks
 * which task resumes next (or which request handler runs). Every choice is
 * one step from an `await` to the next; handlers without an `await` run in
 * one step.
 */
module Scheduler {
  import opened Wrappers
  import opened Rounding
  import opened Averaging
  import opened Calibration
  import opened PhState
  import opened Sampling

  /** The whole extension between two scheduling points. */
  datatype System = System(shared: Shared, fast: FastTask, slow: SlowTask)

  /**
   * What the scheduler runs next: a step of `read_sensors` with the ADC
   * readings of that tick, a step of `ph_sampling`, one calibration upload
   * (with whether its file write succeeds), or the `read_temp` task.
   */
  datatype Event =
    | FastTick(sample: AdcSample)
    | SlowTick
    | Upload(data: CalData, writeOk: bool)
    | TempTask

  /** Every value the extension publishes as an average is a four-place value. */
  predicate PublishedRounded(s: Shared) {
    && (s.phAdcAvg.Some? ==> FourPlaces(s.phAdcAvg.value))
    && (s.tdsAdcAvg.Some? ==> FourPlaces(s.tdsAdcAvg.value))
  }

  /** Every value in the estimator's window buffer is a four-place value. */
  predicate WindowRounded(t: SlowTask) {
    t.Sampling? ==> forall i :: 0 <= i < |t.buf| ==> FourPlaces(t.buf[i])
  }

  /**
   * The system invariant: both task records are well formed; the estimator
   * only samples once a first-stage average exists; published averages, and
   * so the values the estimator collects, are rounded; and `ph` keeps its
   * initial value until the estimator has passed its readiness gate.
   */
  predicate Inv(sys: System) {
    && FastValid(sys.fast)
    && SlowValid(sys.slow)
    && (sys.slow.Sampling? ==> sys.shared.phAdcAvg.Some?)
    && PublishedRounded(sys.shared)
    && WindowRounded(sys.slow)
    && (sys.slow.Waiting? ==> sys.shared.ph == 0.0)
  }

  /**
   * The extension right after start-up: the globals loaded from the
   * calibration file, the start-up curve built, both tasks not yet run.
   */
  function Start(num: Numerics, stored: Option<CalData>): (r: Result<System, MissingField>)
    ensures r.Ok? ==> Inv(r.value) && Coherent(num, r.value.shared)
    ensures r.Ok? ==>
      r.value.shared.phAdcAvg.None? && r.value.shared.tdsAdcAvg.None? && r.value.slow.Waiting?
    ensures r.Err? <==> |Loaded(stored)| > 0 && ExtractPoints(Loaded(stored)).Err?
  {
    match StartExtension(num, Boot(stored))
    case Err(m) => Err(m)
    case Ok(s) => Ok(System(s, FastStart, Waiting))
  }

  /** One scheduling step. */
  function Step(num: Numerics, sys: System, e: Event): (r: System)
    requires Inv(sys)
    ensures Inv(r)
    ensures !e.SlowTick? ==> r.shared.ph == sys.shared.ph && r.slow == sys.slow
    ensures !e.FastTick? ==>
      r.shared.phAdcAvg == sys.shared.phAdcAvg && r.shared.tdsAdcAvg == sys.shared.tdsAdcAvg &&
      r.fast == sys.fast
    ensures !e.Upload? ==>
      r.shared.chartPoints == sys.shared.chartPoints &&
      r.shared.calPoints == sys.shared.calPoints && r.shared.stored == sys.shared.stored
  {
    match e
    case FastTick(x) =>
      var o := FastStep(sys.fast, sys.shared, x);
      System(o.shared, o.task, sys.slow)
    case SlowTick =>
      var o := SlowStep(num, sys.slow, sys.shared);
      System(o.shared, sys.fast, o.task)
    case Upload(data, writeOk) =>
      System(UploadPoints(num, sys.shared, data, writeOk).state, sys.fast, sys.slow)
    case TempTask =>
      System(ReadTemp(sys.shared), sys.fast, sys.slow)
  }

  /** The system after a whole schedule of events. */
  function Run(num: Numerics, sys: System, es: seq<Event>): (r: System)
    requires Inv(sys)
    ensures Inv(r)
    decreases |es|
  {
    if |es| == 0 then sys else Run(num, Step(num, sys, es[0]), es[1..])
  }

  /**
   * However the scheduler interleaves the tasks and handlers, no `ph` is
   * published while the estimator is still behind its readiness gate: `ph`
   * keeps its initial value.
   */
  lemma NoReadingBeforeReady(num: Numerics, stored: Option<CalData>, es: seq<Event>)
    requires Start(num, stored).Ok?
    ensures var r := Run(num, Start(num, stored).value, es);
      r.slow.Waiting? ==> r.shared.ph == 0.0
  {
  }

  /**
   * The estimator's first step past the gate happens only when a non-zero
   * first-stage average and a non-empty curve are both published, and it
   * reads `ph` off the curve at that average.
   */
  lemma GateOpensOnlyWhenReady(num: Numerics, sys: System)
    requires Inv(sys) && sys.slow.Waiting?
    ensures var r := Step(num, sys, SlowTick);
      r.slow.Sampling? <==> Ready(sys.shared)
    ensures var r := Step(num, sys, SlowTick);
      r.slow.Sampling? ==> r.shared.ph == Lookup(num, sys.shared.chartPoints, sys.shared.phAdcAvg.value)
  {
  }

  /**
   * Once published, the first-stage averages stay published along any
   * schedule: nothing ever resets them to `None`.
   */
  lemma {:induction false} AveragesStayPublished(num: Numerics, sys: System, es: seq<Event>)
    requires Inv(sys)
    ensures sys.shared.phAdcAvg.Some? ==> Run(num, sys, es).shared.phAdcAvg.Some?
    ensures sys.shared.tdsAdcAvg.Some? ==> Run(num, sys, es).shared.tdsAdcAvg.Some?
    decreases |es|
  {
    if |es| > 0 {
      AveragesStayPublished(num, Step(num, sys, es[0]), es[1..]);
    }
  }

  /**
   * In any reachable system, a completed window whose values all equal one
   * published average `c` makes `ph` the lookup at exactly `c`: the
   * four-place premise of `SteadyWindow` is supplied by the invariant.
   */
  lemma ReachedSteadyWindow(num: Numerics, sys: System, c: real)
    requires Inv(sys) && sys.slow.Sampling? && sys.slow.tick == SlowWindow
    requires AllEqual(sys.slow.buf, c)
    ensures Step(num, sys, SlowTick).shared.ph == Lookup(num, sys.shared.chartPoints, c)
  {
    assert c == sys.slow.buf[0];
    SteadyWindow(num, sys.slow, sys.shared, c);
  }

  /**
   * In any reachable system, the average of the estimator's window lies
   * between the smallest and the largest value it collected.
   */
  lemma ReachedWindowWithin(sys: System, lo: real, hi: real)
    requires Inv(sys) && sys.slow.Sampling?
    requires lo in sys.slow.buf && hi in sys.slow.buf
    requires AllWithin(sys.slow.buf, lo, hi)
    ensures lo <= Average(sys.slow.buf).value <= hi
  {
    WindowAverageWithin(sys.slow, lo, hi);
  }
}
