/** Rounding of scores to a number of decimals. */
module Rounding {

  /** The multiple of 1 / scale nearest to `x`, halves going to the even multiple. */
  function RoundTo(x: real, scale: real): real
    requires scale > 0.0
  {
    Nearest(x * scale) as real / scale
  }

  function Nearest(x: real): int {
    var below := x.Floor;
    var rest := x - below as real;
    if rest < 0.5 || (rest == 0.5 && below % 2 == 0) then below else below + 1
  }

  /** The nearest whole number; from the middle between two, the even one. */
  lemma HalvesGoToEven(x: real)
    ensures -0.5 <= Nearest(x) as real - x <= 0.5
    ensures Nearest(x) as real - x == 0.5 || Nearest(x) as real - x == -0.5 ==> Nearest(x) % 2 == 0
  {
  }

  lemma NearestIsMonotone(x: real, y: real)
    requires x <= y
    ensures Nearest(x) <= Nearest(y)
  {
  }

  lemma DividedDifference(a: real, b: real, scale: real)
    requires scale > 0.0
    ensures a / scale - b / scale == (a - b) / scale
  {
    var x, y := a / scale, b / scale;
    assert x * scale == a && y * scale == b;
    assert ((x - y) * scale) / scale == x - y;
  }

  lemma DividedMonotone(a: real, b: real, scale: real)
    requires a <= b && scale > 0.0
    ensures a / scale <= b / scale
  {
    DividedDifference(b, a, scale);
  }

  /** Rounding errs by at most half a unit and keeps the order. */
  lemma RoundIsNearest(x: real, y: real, scale: real)
    requires scale > 0.0
    ensures -0.5 <= (RoundTo(x, scale) - x) * scale <= 0.5
    ensures x <= y ==> RoundTo(x, scale) <= RoundTo(y, scale)
  {
    var n := Nearest(x * scale) as real;
    assert (n / scale) * scale == n;
    assert (RoundTo(x, scale) - x) * scale == n - x * scale;
    if x <= y {
      assert x * scale <= y * scale;
      NearestIsMonotone(x * scale, y * scale);
      DividedMonotone(n, Nearest(y * scale) as real, scale);
    }
  }
}
