/** Python's `round(x, k)`, ties to even, in exact arithmetic. */
module Rounding {

  function RoundHalfEven(x: real): int {
    var below := x.Floor;
    var rest := x - below as real;
    if rest < 0.5 || (rest == 0.5 && below % 2 == 0) then below else below + 1
  }

  function Round2(x: real): real { RoundHalfEven(x * 100.0) as real / 100.0 }

  function Round4(x: real): real { RoundHalfEven(x * 10000.0) as real / 10000.0 }

  /** RoundHalfEven(x) is the nearest integer, and the even one of the two at a tie. */
  lemma RoundNearest(x: real, n: int)
    ensures RoundHalfEven(x) == n <==>
            (n as real - 0.5 < x < n as real + 0.5
             || (n % 2 == 0 && (x == n as real - 0.5 || x == n as real + 0.5)))
  {
    var below := x.Floor;
    assert below as real <= x < below as real + 1.0;
  }

  lemma RoundMonotone(x: real, y: real)
    requires x <= y
    ensures RoundHalfEven(x) <= RoundHalfEven(y)
  {
    assert x.Floor <= y.Floor;
  }

  lemma Round2Monotone(x: real, y: real)
    requires x <= y
    ensures Round2(x) <= Round2(y)
  {
    RoundMonotone(x * 100.0, y * 100.0);
  }

  lemma Round4Monotone(x: real, y: real)
    requires x <= y
    ensures Round4(x) <= Round4(y)
  {
    RoundMonotone(x * 10000.0, y * 10000.0);
  }

  /** Rounding a number that has two decimals already changes nothing. */
  lemma Round2Idempotent(x: real)
    ensures Round2(Round2(x)) == Round2(x)
  {
    var n := RoundHalfEven(x * 100.0);
    assert Round2(x) * 100.0 == n as real;
    RoundNearest(n as real, n);
  }

  /** Rounding moves a number by at most half a unit of the last kept decimal. */
  lemma Round4Close(x: real)
    ensures -0.00005 <= Round4(x) - x <= 0.00005
  {
    RoundNearest(x * 10000.0, RoundHalfEven(x * 10000.0));
  }

  lemma Round2Close(x: real)
    ensures -0.005 <= Round2(x) - x <= 0.005
  {
    RoundNearest(x * 100.0, RoundHalfEven(x * 100.0));
  }

  /** Rounding to four decimals keeps the unit interval, and keeps 0 and 1. */
  lemma Round4Unit(x: real)
    ensures Round4(0.0) == 0.0 && Round4(1.0) == 1.0
    ensures x <= 1.0 ==> Round4(x) <= 1.0
    ensures 0.0 <= x ==> 0.0 <= Round4(x)
  {
    RoundNearest(0.0, 0);
    RoundNearest(10000.0, 10000);
    if x <= 1.0 {
      Round4Monotone(x, 1.0);
    }
    if 0.0 <= x {
      Round4Monotone(0.0, x);
    }
  }
}
