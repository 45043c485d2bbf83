/**
 * The module-level globals of the pH extension and the operations that
 * touch them outside the sampling loops: loading the stored calibration,
 * building the first curve at start-up, the calibration upload handler and
 * the placeholder temperature task.
 */
module PhState {
  import opened Wrappers
  import opened Calibration

  /** The temperature the placeholder temperature task publishes. */
  const PlaceholderTemp: real := 25.5

  /** The minimum number of calibration points an upload must carry. */
  const MinUploadPoints: nat := 2

  /**
   * The shared globals: the derived `ph`, the first-stage averages
   * `ph_adc_avg` and `tds_adc_avg`, `temp`, the chart curve
   * `ph_chart_points`, the calibration object `ph_cal_points`, and the
   * content of the calibration file (`None` when it is missing or unreadable).
   */
  datatype Shared = Shared(
    ph: real,
    phAdcAvg: Option<real>,
    tdsAdcAvg: Option<real>,
    temp: Option<real>,
    chartPoints: Curve,
    calPoints: CalData,
    stored: Option<CalData>)

  /** The calibration object the module loads from a file: its content, or `{}`. */
  function Loaded(stored: Option<CalData>): CalData {
    stored.GetOr([])
  }

  /** The globals right after the module is imported. */
  function Boot(stored: Option<CalData>): (s: Shared)
    ensures s.ph == 0.0 && s.phAdcAvg.None? && s.tdsAdcAvg.None? && s.temp.None?
    ensures s.chartPoints == []
    ensures stored.Some? ==> s.calPoints == stored.value
    ensures stored.None? ==> s.calPoints == []
  {
    Shared(0.0, None, None, None, [], Loaded(stored), stored)
  }

  /**
   * The curve agrees with the calibration object: built from it when the
   * object is non-empty, and the empty list when it is empty.
   */
  predicate CurveMatches(num: Numerics, s: Shared) {
    if |s.calPoints| == 0 then s.chartPoints == []
    else InterpolatePh(num, s.calPoints) == Ok(s.chartPoints)
  }

  /**
   * The in-memory calibration agrees with the file, and the curve with the
   * calibration: what a restart would rebuild is what is in memory now.
   */
  predicate Coherent(num: Numerics, s: Shared) {
    s.calPoints == Loaded(s.stored) && CurveMatches(num, s)
  }

  /**
   * The start of the extension task: a non-empty stored calibration is
   * turned into the chart curve; a member without both fields raises.
   */
  function StartExtension(num: Numerics, s: Shared): (r: Result<Shared, MissingField>)
    ensures |s.calPoints| == 0 ==> r == Ok(s)
    ensures r.Ok? ==> r.value == s.(chartPoints := r.value.chartPoints)
    ensures r.Ok? && |s.calPoints| > 0 ==>
      ExtractPoints(s.calPoints).Ok? &&
      r.value.chartPoints == num.linearInterpolation(ExtractPoints(s.calPoints).value)
    ensures r.Err? <==> |s.calPoints| > 0 && ExtractPoints(s.calPoints).Err?
  {
    if |s.calPoints| > 0 then
      match InterpolatePh(num, s.calPoints)
      case Err(m) => Err(m)
      case Ok(curve) => Ok(s.(chartPoints := curve))
    else Ok(s)
  }

  /** Every successful start-up leaves the globals coherent with the file. */
  lemma StartupCoherent(num: Numerics, stored: Option<CalData>)
    ensures StartExtension(num, Boot(stored)).Ok? ==> Coherent(num, StartExtension(num, Boot(stored)).value)
  {
  }

  /** The reply of the upload route: the `{}` body, or an exception. */
  datatype Reply = EmptyJson | Raised(error: UploadError)

  /** What the upload route can raise: a `KeyError` or a failed file write. */
  datatype UploadError = KeyMissing(missing: MissingField) | WriteFailed

  /** The state after a handler ran, with the reply it produced. */
  datatype Handled = Handled(state: Shared, reply: Reply)

  /** True when the handler gets past its validation: all fields present and at least two points. */
  predicate Accepts(data: CalData) {
    ExtractPoints(data).Ok? && |data| >= MinUploadPoints
  }

  /**
   * The `/ph-upload-points` handler. The curve is replaced before the file
   * is written; `writeOk` says whether writing the calibration file
   * succeeds.
   */
  function UploadPoints(num: Numerics, s: Shared, data: CalData, writeOk: bool): (r: Handled)
    ensures !Accepts(data) ==> r.state == s
    ensures ExtractPoints(data).Err? ==> r.reply == Raised(KeyMissing(ExtractPoints(data).error))
    ensures ExtractPoints(data).Ok? && |data| < MinUploadPoints ==> r.reply == EmptyJson
    ensures Accepts(data) ==> r.state.chartPoints == num.linearInterpolation(ExtractPoints(data).value)
    ensures Accepts(data) && writeOk ==>
      r.reply == EmptyJson && r.state.calPoints == data && r.state.stored == Some(data)
    ensures Accepts(data) && !writeOk ==>
      r.reply == Raised(WriteFailed) && r.state.calPoints == s.calPoints && r.state.stored == s.stored
    ensures r.state.ph == s.ph && r.state.phAdcAvg == s.phAdcAvg &&
      r.state.tdsAdcAvg == s.tdsAdcAvg && r.state.temp == s.temp
  {
    match ExtractPoints(data)
    case Err(m) => Handled(s, Raised(KeyMissing(m)))
    case Ok(points) =>
      if |points| < MinUploadPoints then Handled(s, EmptyJson)
      else
        var swapped := s.(chartPoints := num.linearInterpolation(points));
        if !writeOk then Handled(swapped, Raised(WriteFailed))
        else Handled(swapped.(calPoints := data, stored := Some(data)), EmptyJson)
  }

  /**
   * A successful upload keeps the globals coherent: a restart would load the
   * same calibration object and rebuild the same curve.
   */
  lemma UploadKeepsCoherent(num: Numerics, s: Shared, data: CalData, writeOk: bool)
    requires Coherent(num, s)
    requires !Accepts(data) || writeOk
    ensures Coherent(num, UploadPoints(num, s, data, writeOk).state)
  {
  }

  /**
   * Restarting from the file written by a successful upload rebuilds exactly
   * the calibration object and curve the upload installed.
   */
  lemma RestartAfterUpload(num: Numerics, s: Shared, data: CalData)
    requires Accepts(data)
    ensures var after := UploadPoints(num, s, data, true).state;
      StartExtension(num, Boot(after.stored)).Ok? &&
      StartExtension(num, Boot(after.stored)).value.calPoints == after.calPoints &&
      StartExtension(num, Boot(after.stored)).value.chartPoints == after.chartPoints
  {
  }

  /**
   * Because the curve is swapped before the file is written, a failed write
   * leaves a new curve in memory next to the old calibration object and file:
   * the globals are no longer coherent whenever the new curve differs.
   */
  lemma WriteFailureBreaksCoherence(num: Numerics, s: Shared, data: CalData)
    requires Coherent(num, s)
    requires Accepts(data)
    requires num.linearInterpolation(ExtractPoints(data).value) != s.chartPoints
    ensures !Coherent(num, UploadPoints(num, s, data, false).state)
  {
  }

  /** The `read_temp` task: it publishes the placeholder temperature and returns. */
  function ReadTemp(s: Shared): (r: Shared)
    ensures r.temp == Some(PlaceholderTemp)
    ensures r.(temp := s.temp) == s
  {
    s.(temp := Some(PlaceholderTemp))
  }
}
