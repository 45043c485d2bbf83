/**
 * Calibration data of the pH probe: the uploaded JSON object of points,
 * the chart curve built from it, and the two numeric routines the
 * extension borrows from outside (`linear_interpolation` and `np.interp`),
 * which this model keeps uninterpreted.
 */
module Calibration {
  import opened Wrappers

  /** One `(adc, ph)` pair, both of a calibration point and of the chart curve. */
  datatype ChartPoint = ChartPoint(adc: real, ph: real)

  /** The chart curve `ph_chart_points`: a list of `(adc, ph)` pairs. */
  type Curve = seq<ChartPoint>

  /**
   * One member of the uploaded JSON object, in the object's iteration
   * order: its key and the `adc` and `ph` fields, either of which may be
   * missing.
   */
  datatype CalEntry = CalEntry(key: string, adc: Option<real>, ph: Option<real>)

  /** The calibration object `ph_cal_points`, as its members in iteration order. */
  type CalData = seq<CalEntry>

  /**
   * The `KeyError` raised when a member lacks a field. Like Python's
   * exception it carries only the missing field's name, not the member's key.
   */
  datatype MissingField = MissingField(field: string)

  /**
   * The numeric routines the extension calls but does not define:
   * `linearInterpolation` stands for `lib.stepper_doser_math.linear_interpolation`
   * and `interp` for `np.interp(x, xp, fp)`.
   */
  datatype Numerics = Numerics(
    linearInterpolation: seq<ChartPoint> -> Curve,
    interp: (real, seq<real>, seq<real>) -> real)

  /** True when a member carries both fields. */
  predicate Complete(e: CalEntry) {
    e.adc.Some? && e.ph.Some?
  }

  /** True when every member before position `i` is complete. */
  predicate CompleteBefore(data: CalData, i: int)
    requires i <= |data|
  {
    forall j :: 0 <= j < i ==> Complete(data[j])
  }

  /** True when position `i` holds the first incomplete member of `data`. */
  predicate FirstIncomplete(data: CalData, i: int) {
    0 <= i < |data| && !Complete(data[i]) && CompleteBefore(data, i)
  }

  /** The error the comprehension raises on an incomplete member: `adc` is read first. */
  function FieldError(e: CalEntry): MissingField
    requires !Complete(e)
  {
    if e.adc.None? then MissingField("adc") else MissingField("ph")
  }

  /**
   * `[(data[d]['adc'], data[d]['ph']) for d in data]`: the points in
   * iteration order, or the error for the first member that lacks a field.
   */
  function ExtractPoints(data: CalData): (r: Result<seq<ChartPoint>, MissingField>)
    ensures r.Ok? <==> forall i :: 0 <= i < |data| ==> Complete(data[i])
    ensures r.Ok? ==> |r.value| == |data|
    ensures r.Ok? ==> forall i :: 0 <= i < |data| ==>
      data[i].adc == Some(r.value[i].adc) && data[i].ph == Some(r.value[i].ph)
    ensures r.Err? ==> exists i :: FirstIncomplete(data, i) && r.error == FieldError(data[i])
  {
    if |data| == 0 then Ok([])
    else
      var e := data[0];
      if !Complete(e) then
        assert FirstIncomplete(data, 0);
        Err(FieldError(e))
      else
        var rest := ExtractPoints(data[1..]);
        assert forall i :: 1 <= i < |data| ==> data[i] == data[1..][i - 1];
        match rest
        case Err(m) =>
          assert exists i :: FirstIncomplete(data, i) && m == FieldError(data[i]) by {
            var k :| FirstIncomplete(data[1..], k) && m == FieldError(data[1..][k]);
            assert CompleteBefore(data, k + 1) by {
              forall j | 0 <= j < k + 1 ensures Complete(data[j]) {
                if j > 0 { assert data[j] == data[1..][j - 1]; }
              }
            }
            assert FirstIncomplete(data, k + 1);
          }
          Err(m)
        case Ok(ps) => Ok([ChartPoint(e.adc.value, e.ph.value)] + ps)
  }

  /** The `adc` column of a curve: `[x[0] for x in curve]`. */
  function AdcAxis(c: Curve): (xs: seq<real>)
    ensures |xs| == |c|
  {
    seq(|c|, i requires 0 <= i < |c| => c[i].adc)
  }

  /** The `ph` column of a curve: `[x[1] for x in curve]`. */
  function PhAxis(c: Curve): (ys: seq<real>)
    ensures |ys| == |c|
  {
    seq(|c|, i requires 0 <= i < |c| => c[i].ph)
  }

  /** `np.interp(x, adc_array, ph_array)` against the columns of `c`. */
  function Lookup(num: Numerics, c: Curve, x: real): real {
    num.interp(x, AdcAxis(c), PhAxis(c))
  }

  /**
   * `interpolate_ph(data)`: the chart curve of a calibration object. Unlike
   * the upload handler it does not check the number of points.
   */
  function InterpolatePh(num: Numerics, data: CalData): Result<Curve, MissingField> {
    match ExtractPoints(data)
    case Err(m) => Err(m)
    case Ok(points) => Ok(num.linearInterpolation(points))
  }

  /** The columns of a curve hand `np.interp` back every pair of the curve, in order. */
  lemma AxesRecoverCurve(c: Curve)
    ensures |AdcAxis(c)| == |PhAxis(c)| == |c|
    ensures forall i :: 0 <= i < |c| ==> c[i] == ChartPoint(AdcAxis(c)[i], PhAxis(c)[i])
  {
  }
}
