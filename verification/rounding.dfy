/** Rounding to a whole number of units, half to even. */
module Rounding {

  /** Nearest whole number, and the even one when two are as near. */
  function RoundHalfEven(x: real): (r: int)
    ensures -0.5 <= r as real - x <= 0.5
    ensures r as real - x == 0.5 || r as real - x == -0.5 ==> r % 2 == 0
  {
    var down := x.Floor;
    var over := x - down as real;
    if over < 0.5 then down
    else if over > 0.5 then down + 1
    else if down % 2 == 0 then down
    else down + 1
  }

  lemma RoundMonotone(x: real, y: real)
    requires x <= y
    ensures RoundHalfEven(x) <= RoundHalfEven(y)
  {
    hide RoundHalfEven;
  }

  lemma RoundWhole(n: int)
    ensures RoundHalfEven(n as real) == n
  {
  }

  /** Rounding commutes with reflection about an even number. */
  lemma RoundReflects(x: real, n: int)
    requires n % 2 == 0
    ensures RoundHalfEven(n as real - x) == n - RoundHalfEven(x)
  {
    hide RoundHalfEven;
    var a, b := RoundHalfEven(x), RoundHalfEven(n as real - x);
    assert n - 1 <= a + b <= n + 1;
  }

  lemma DivideOut(a: real, b: real, c: real)
    requires a * b == c && b != 0.0
    ensures a == c / b
  {
  }
}
