/**
 * Python's `round(x, 4)` on exact reals: the nearest multiple of 1/10000,
 * ties resolved towards the even neighbour.
 */
module Rounding {

  /** Ten-thousandths per unit: every average of the extension keeps four decimal places. */
  const Scale: real := 10000.0

  /** The largest error `Round4` may introduce. */
  const HalfUnit: real := 1.0 / 20000.0

  /** True when `x` is already a whole number of ten-thousandths. */
  predicate FourPlaces(x: real) {
    (x * Scale).Floor as real == x * Scale
  }

  /** The integer nearest to `y`; a tie goes to the even integer. */
  function RoundHalfEven(y: real): (n: int)
    ensures y.Floor <= n <= y.Floor + 1
    ensures n == y.Floor + 1 ==> y.Floor as real < y
    ensures -0.5 <= n as real - y <= 0.5
    ensures y == y.Floor as real ==> n == y.Floor
    ensures n as real - y == 0.5 || y - n as real == 0.5 ==> n % 2 == 0
  {
    var f := y.Floor;
    var d := y - f as real;
    if d < 0.5 then f
    else if d > 0.5 then f + 1
    else if f % 2 == 0 then f
    else f + 1
  }

  /** `round(x, 4)`: at most half a unit away, always on the grid, and the identity on the grid. */
  function Round4(x: real): (r: real)
    ensures -HalfUnit <= r - x <= HalfUnit
    ensures FourPlaces(r)
    ensures FourPlaces(x) ==> r == x
  {
    var n := RoundHalfEven(x * Scale);
    assert (n as real / Scale) * Scale == n as real;
    n as real / Scale
  }

  /** Rounding never crosses a grid value: a value between two grid points rounds between them. */
  lemma Round4Between(x: real, lo: real, hi: real)
    requires FourPlaces(lo) && FourPlaces(hi)
    requires lo <= x <= hi
    ensures lo <= Round4(x) <= hi
  {
    var y := x * Scale;
    var n := RoundHalfEven(y);
    var k := (lo * Scale).Floor;
    var m := (hi * Scale).Floor;
    assert k as real <= y;
    assert k <= y.Floor;
    assert y <= m as real;
    if n == y.Floor + 1 {
      assert y.Floor as real < y;
      assert y.Floor < m;
    }
    assert k <= n <= m;
    assert Round4(x) == n as real / Scale;
  }
}
