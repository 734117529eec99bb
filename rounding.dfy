/**
 * `round(2)` on a numeric column, in exact arithmetic: scale by 100, round
 * half to even (numpy's `rint`), scale back.
 */
module Rounding {
  import opened Wrappers

  /** The integer nearest to `y`; a tie goes to the even neighbour. */
  function RoundHalfEven(y: real): (n: int)
    ensures -0.5 <= (n as real) - y <= 0.5
    ensures ((n as real) - y == 0.5 || (n as real) - y == -0.5) ==> n % 2 == 0
  {
    var f := y.Floor;
    var frac := y - f as real;
    if frac < 0.5 then f
    else if frac > 0.5 then f + 1
    else if f % 2 == 0 then f
    else f + 1
  }

  /** `x.round(2)`. */
  function Round2(x: real): real {
    (RoundHalfEven(x * 100.0) as real) / 100.0
  }

  /** `round(2)` on a cell that may be missing: a missing cell stays missing. */
  function Round2Opt(x: Option<real>): (r: Option<real>)
    ensures r.None? <==> x.None?
  {
    match x
    case None => None
    case Some(v) => Some(Round2(v))
  }

  /** A value with at most two decimals. */
  predicate IsCents(r: real) {
    (r * 100.0).Floor as real == r * 100.0
  }

  /** Rounding gives a value with two decimals, at most half a cent away. */
  lemma Round2Spec(x: real)
    ensures IsCents(Round2(x))
    ensures -0.005 <= Round2(x) - x <= 0.005
  {
    var n := RoundHalfEven(x * 100.0);
    assert Round2(x) * 100.0 == n as real;
  }

  /** An integer rounds to itself. */
  lemma RoundHalfEvenOfInteger(n: int)
    ensures RoundHalfEven(n as real) == n
  {
  }

  /** Values that already have two decimals are left alone. */
  lemma Round2OfCents(x: real)
    requires IsCents(x)
    ensures Round2(x) == x
  {
    var n := (x * 100.0).Floor;
    RoundHalfEvenOfInteger(n);
    assert x * 100.0 == n as real;
  }

  /** Rounding twice is rounding once. */
  lemma Round2Idempotent(x: real)
    ensures Round2(Round2(x)) == Round2(x)
  {
    Round2Spec(x);
    Round2OfCents(Round2(x));
  }

  /** Rounding never reorders two values. */
  lemma Round2Monotone(x: real, y: real)
    requires x <= y
    ensures Round2(x) <= Round2(y)
  {
    var a := RoundHalfEven(x * 100.0);
    var b := RoundHalfEven(y * 100.0);
    if a > b {
      assert x * 100.0 <= y * 100.0;
      assert a == b + 1;
      assert x * 100.0 == y * 100.0;
    }
  }

  /** Zero stays zero, and a non-negative value stays non-negative. */
  lemma Round2NonNegative(x: real)
    requires x >= 0.0
    ensures Round2(x) >= 0.0
    ensures x == 0.0 ==> Round2(x) == 0.0
  {
    var n := RoundHalfEven(x * 100.0);
    assert n as real >= -0.5;
  }
}
