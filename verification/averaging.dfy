/**
 * `calculate_average`, the window averager every sampling loop uses:
 * `None` for an empty window, otherwise the arithmetic mean rounded to
 * four decimal places.
 */
module Averaging {
  import opened Wrappers
  import opened Rounding

  /** Python's `sum` over a list of samples. */
  function Sum(xs: seq<real>): real {
    if |xs| == 0 then 0.0 else xs[0] + Sum(xs[1..])
  }

  /** The unrounded arithmetic mean of a non-empty window. */
  function Mean(xs: seq<real>): real
    requires |xs| > 0
  {
    Sum(xs) / |xs| as real
  }

  /** True when every sample of `xs` lies in `[lo, hi]`. */
  predicate AllWithin(xs: seq<real>, lo: real, hi: real) {
    forall i :: 0 <= i < |xs| ==> lo <= xs[i] <= hi
  }

  /** True when every sample of `xs` equals `c`. */
  predicate AllEqual(xs: seq<real>, c: real) {
    forall i :: 0 <= i < |xs| ==> xs[i] == c
  }

  /**
   * `calculate_average(values)`. An empty window gives `None` (there is
   * no division by its zero length); a non-empty one gives a four-place
   * value within half a unit of the mean.
   */
  function Average(values: seq<real>): (r: Option<real>)
    ensures r.None? <==> |values| == 0
    ensures |values| > 0 ==> -HalfUnit <= r.value - Mean(values) <= HalfUnit
    ensures r.Some? ==> FourPlaces(r.value)
  {
    if |values| > 0 then Some(Round4(Sum(values) / |values| as real)) else None
  }

  /** The sum of a window lies between its length times the bounds of its samples. */
  lemma {:induction false} SumWithin(xs: seq<real>, lo: real, hi: real)
    requires AllWithin(xs, lo, hi)
    ensures |xs| as real * lo <= Sum(xs) <= |xs| as real * hi
  {
    if |xs| > 0 {
      assert AllWithin(xs[1..], lo, hi) by {
        forall i | 0 <= i < |xs[1..]| ensures lo <= xs[1..][i] <= hi {
          assert xs[1..][i] == xs[i + 1];
        }
      }
      SumWithin(xs[1..], lo, hi);
      assert lo <= xs[0] <= hi;
      assert |xs| as real * lo == (|xs| - 1) as real * lo + lo;
      assert |xs| as real * hi == (|xs| - 1) as real * hi + hi;
    }
  }

  /** The sum of `n` copies of `c` is `n * c`. */
  lemma {:induction false} SumConstant(xs: seq<real>, c: real)
    requires AllEqual(xs, c)
    ensures Sum(xs) == |xs| as real * c
  {
    if |xs| > 0 {
      assert AllEqual(xs[1..], c) by {
        forall i | 0 <= i < |xs[1..]| ensures xs[1..][i] == c {
          assert xs[1..][i] == xs[i + 1];
        }
      }
      SumConstant(xs[1..], c);
      assert |xs| as real * c == (|xs| - 1) as real * c + c;
    }
  }

  /** The unrounded mean of a window lies between the bounds of its samples. */
  lemma MeanWithin(xs: seq<real>, lo: real, hi: real)
    requires |xs| > 0
    requires AllWithin(xs, lo, hi)
    ensures lo <= Mean(xs) <= hi
  {
    SumWithin(xs, lo, hi);
    var n := |xs| as real;
    assert Sum(xs) / n >= lo by {
      assert Sum(xs) >= n * lo;
      assert (Sum(xs) / n) * n == Sum(xs);
    }
    assert Sum(xs) / n <= hi by {
      assert Sum(xs) <= n * hi;
      assert (Sum(xs) / n) * n == Sum(xs);
    }
  }

  /**
   * When the bounds are themselves four-place values (as every published
   * first-stage average is), rounding cannot push the average out of them.
   */
  lemma AverageWithin(xs: seq<real>, lo: real, hi: real)
    requires |xs| > 0
    requires FourPlaces(lo) && FourPlaces(hi)
    requires AllWithin(xs, lo, hi)
    ensures Average(xs).Some?
    ensures lo <= Average(xs).value <= hi
  {
    MeanWithin(xs, lo, hi);
    Round4Between(Mean(xs), lo, hi);
  }

  /** A window of copies of one four-place value averages back to that value exactly. */
  lemma AverageOfConstant(xs: seq<real>, c: real)
    requires |xs| > 0
    requires FourPlaces(c)
    requires AllEqual(xs, c)
    ensures Average(xs) == Some(c)
  {
    SumConstant(xs, c);
    var n := |xs| as real;
    assert Mean(xs) == c by {
      assert Sum(xs) == n * c;
      assert (n * c) / n == c;
    }
  }

  /** The worked example of the averager: `[2, 4, 6]` averages to `4`. */
  lemma AverageExample()
    ensures Average([2.0, 4.0, 6.0]) == Some(4.0)
    ensures Average([]) == None
  {
    var xs := [2.0, 4.0, 6.0];
    assert xs[1..] == [4.0, 6.0];
    assert xs[1..][1..] == [6.0];
    assert xs[1..][1..][1..] == [];
    assert Sum(xs) == 12.0;
    assert FourPlaces(4.0);
  }
}
