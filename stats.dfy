/**
 * The statistics the transform computes, as functions of one symbol's
 * ordered close sequence, in exact real arithmetic.
 */
module Stats {
  import opened Wrappers

  function Sum(s: seq<real>): real {
    if s == [] then 0.0 else Sum(s[..|s| - 1]) + s[|s| - 1]
  }

  function Mean(s: seq<real>): real
    requires |s| > 0
  {
    Sum(s) / (|s| as real)
  }

  /**
   * The rows a `rolling(window=w, min_periods=1)` statistic sees at the last
   * position of `h`: the last w closes, or all of them while fewer exist.
   */
  function Window(h: seq<real>, w: nat): (r: seq<real>)
    requires w >= 1
    ensures |r| == Min(|h|, w)
  {
    h[|h| - Min(|h|, w)..]
  }

  /** `rolling(window=w, min_periods=1).mean()` at the last position of `h`. */
  function MovingAverage(h: seq<real>, w: nat): real
    requires w >= 1 && |h| > 0
  {
    Mean(Window(h, w))
  }

  /** Sum of squared deviations from `m`. */
  function SumSqDev(s: seq<real>, m: real): real {
    if s == [] then 0.0
    else
      var d := s[|s| - 1] - m;
      SumSqDev(s[..|s| - 1], m) + d * d
  }

  /**
   * pandas' `std()` squared: the sample variance (divisor n - 1); the NaN it
   * gives for a single value is filled with 0 by the caller, as here.
   */
  function SampleVariance(s: seq<real>): real {
    if |s| < 2 then 0.0 else SumSqDev(s, Mean(s)) / ((|s| - 1) as real)
  }

  /**
   * `pct_change() * 100` at the last position of `h`, with the NaN of the
   * first position filled with 0.
   */
  function PctChange(h: seq<real>): real
    requires |h| >= 2 ==> h[|h| - 2] != 0.0
  {
    if |h| < 2 then 0.0 else (h[|h| - 1] - h[|h| - 2]) / h[|h| - 2] * 100.0
  }

  function SeqMin(s: seq<real>): real
    requires |s| > 0
  {
    if |s| == 1 then s[0]
    else
      var m := SeqMin(s[..|s| - 1]);
      if s[|s| - 1] < m then s[|s| - 1] else m
  }

  function SeqMax(s: seq<real>): real
    requires |s| > 0
  {
    if |s| == 1 then s[0]
    else
      var m := SeqMax(s[..|s| - 1]);
      if s[|s| - 1] > m then s[|s| - 1] else m
  }

  // ---------------------------------------------------------------------
  // Sums
  // ---------------------------------------------------------------------

  lemma {:induction false} SumFront(s: seq<real>)
    requires |s| > 0
    ensures Sum(s) == s[0] + Sum(s[1..])
  {
    if |s| > 1 {
      assert s[1..][..|s| - 2] == s[..|s| - 1][1..];
      SumFront(s[..|s| - 1]);
    }
  }

  /** Sliding a window one step: add the new close, drop the oldest. */
  lemma SumSlide(s: seq<real>, lo: nat, hi: nat)
    requires lo < hi < |s|
    ensures Sum(s[lo + 1..hi + 1]) == Sum(s[lo..hi]) + s[hi] - s[lo]
  {
    var t := s[lo..hi + 1];
    assert t[..|t| - 1] == s[lo..hi];
    SumFront(t);
    assert t[1..] == s[lo + 1..hi + 1];
  }

  lemma {:induction false} SumBounds(s: seq<real>, lo: real, hi: real)
    requires forall i :: 0 <= i < |s| ==> lo <= s[i] <= hi
    ensures (|s| as real) * lo <= Sum(s) <= (|s| as real) * hi
  {
    if s != [] {
      SumBounds(s[..|s| - 1], lo, hi);
    }
  }

  lemma {:induction false} SumConstant(s: seq<real>, c: real)
    requires forall i :: 0 <= i < |s| ==> s[i] == c
    ensures Sum(s) == (|s| as real) * c
  {
    if s != [] {
      SumConstant(s[..|s| - 1], c);
    }
  }

  lemma {:induction false} SumPositive(s: seq<real>)
    requires |s| > 0
    requires forall i :: 0 <= i < |s| ==> s[i] > 0.0
    ensures Sum(s) > 0.0
  {
    if |s| > 1 {
      SumPositive(s[..|s| - 1]);
    }
  }

  lemma {:induction false} MinMaxBound(s: seq<real>)
    requires |s| > 0
    ensures forall i :: 0 <= i < |s| ==> SeqMin(s) <= s[i] <= SeqMax(s)
  {
    if |s| > 1 {
      MinMaxBound(s[..|s| - 1]);
      var p := s[..|s| - 1];
      assert forall i :: 0 <= i < |p| ==> p[i] == s[i];
    }
  }

  // ---------------------------------------------------------------------
  // Means
  // ---------------------------------------------------------------------

  /** A mean lies between any bounds of the values averaged. */
  lemma MeanBetweenBounds(s: seq<real>, lo: real, hi: real)
    requires |s| > 0
    requires forall i :: 0 <= i < |s| ==> lo <= s[i] <= hi
    ensures lo <= Mean(s) <= hi
  {
    SumBounds(s, lo, hi);
    var n := |s| as real;
    assert Mean(s) - lo == (Sum(s) - n * lo) / n;
    assert hi - Mean(s) == (n * hi - Sum(s)) / n;
  }

  /** A mean lies between the smallest and the largest value averaged. */
  lemma MeanBetweenMinMax(s: seq<real>)
    requires |s| > 0
    ensures SeqMin(s) <= Mean(s) <= SeqMax(s)
  {
    MinMaxBound(s);
    MeanBetweenBounds(s, SeqMin(s), SeqMax(s));
  }

  /** The mean of positive values is positive. */
  lemma MeanPositive(s: seq<real>)
    requires |s| > 0
    requires forall i :: 0 <= i < |s| ==> s[i] > 0.0
    ensures Mean(s) > 0.0
  {
    SumPositive(s);
  }

  /** The mean of equal values is that value; in particular Mean([x]) == x. */
  lemma MeanConstant(s: seq<real>, c: real)
    requires |s| > 0
    requires forall i :: 0 <= i < |s| ==> s[i] == c
    ensures Mean(s) == c
  {
    SumConstant(s, c);
  }

  /** Moving the window on by one close adds that close and drops the oldest once the window is full. */
  lemma WindowSumStep(closes: seq<real>, k: nat, w: nat)
    requires w >= 1 && k < |closes|
    ensures Sum(Window(closes[..k + 1], w))
         == Sum(Window(closes[..k], w)) + closes[k] - (if k >= w then closes[k - w] else 0.0)
  {
    assert Window(closes[..k], w) == closes[k - Min(k, w)..k];
    assert Window(closes[..k + 1], w) == closes[k + 1 - Min(k + 1, w)..k + 1];
    if k < w {
      assert closes[0..k + 1][..k] == closes[0..k];
    } else {
      SumSlide(closes, k - w, k);
    }
  }

  /** The rolling window sums of one symbol's closes: one value per close. */
  function WindowSums(closes: seq<real>, w: nat): (r: seq<real>)
    requires w >= 1
    ensures |r| == |closes|
  {
    if closes == [] then []
    else WindowSums(closes[..|closes| - 1], w) + [Sum(Window(closes, w))]
  }

  lemma {:induction false} WindowSumsAt(closes: seq<real>, w: nat, k: nat)
    requires w >= 1 && k < |closes|
    ensures WindowSums(closes, w)[k] == Sum(Window(closes[..k + 1], w))
  {
    var p := closes[..|closes| - 1];
    if k < |p| {
      WindowSumsAt(p, w, k);
      assert p[..k + 1] == closes[..k + 1];
    } else {
      assert closes[..k + 1] == closes;
    }
  }

  /** The accumulator after `k` closes: the window sums so far and the current window's sum. */
  ghost predicate RollingState(closes: seq<real>, w: nat, k: nat, sum: real, sums: seq<real>)
    requires w >= 1 && k <= |closes|
  {
    sums == WindowSums(closes[..k], w) && sum == Sum(Window(closes[..k], w))
  }

  /** One step of the running sum: add the newest close, drop the one leaving the window. */
  lemma RollingStep(closes: seq<real>, w: nat, k: nat, sum: real, sums: seq<real>)
    requires w >= 1 && k < |closes|
    requires RollingState(closes, w, k, sum, sums)
    ensures var next := sum + closes[k] - (if k >= w then closes[k - w] else 0.0);
      RollingState(closes, w, k + 1, next, sums + [next])
  {
    WindowSumStep(closes, k, w);
    assert closes[..k + 1][..k] == closes[..k];
  }

  /** Each window sum over the window's length is the moving average there. */
  lemma MeansFromSums(closes: seq<real>, w: nat, sums: seq<real>)
    requires w >= 1 && sums == WindowSums(closes, w)
    ensures forall j :: 0 <= j < |sums| ==> sums[j] / (Min(j + 1, w) as real) == MovingAverage(closes[..j + 1], w)
  {
    forall j | 0 <= j < |sums|
      ensures sums[j] / (Min(j + 1, w) as real) == MovingAverage(closes[..j + 1], w)
    {
      WindowSumsAt(closes, w, j);
    }
  }

  /**
   * A running-sum rolling mean, the accumulator form of
   * `rolling(window=w, min_periods=1).mean()`: one pass keeps the window's
   * sum, adding the newest close and dropping the one that leaves the window;
   * each mean is that sum over the window's length.
   */
  method RollingMeans(closes: seq<real>, w: nat) returns (means: seq<real>)
    requires w >= 1
    ensures |means| == |closes|
    ensures forall k :: 0 <= k < |closes| ==> means[k] == MovingAverage(closes[..k + 1], w)
  {
    var sums := [];
    var sum := 0.0;
    var k := 0;
    while k < |closes|
      invariant 0 <= k <= |closes|
      invariant RollingState(closes, w, k, sum, sums)
    {
      RollingStep(closes, w, k, sum, sums);
      sum := sum + closes[k] - (if k >= w then closes[k - w] else 0.0);
      sums := sums + [sum];
      k := k + 1;
    }
    assert closes[..k] == closes;
    means := seq(|sums|, j requires 0 <= j < |sums| => sums[j] / (Min(j + 1, w) as real));
    MeansFromSums(closes, w, sums);
  }

  // ---------------------------------------------------------------------
  // Variance
  // ---------------------------------------------------------------------

  lemma {:induction false} SumSqDevNonNegative(s: seq<real>, m: real)
    ensures SumSqDev(s, m) >= 0.0
  {
    if s != [] {
      SumSqDevNonNegative(s[..|s| - 1], m);
      var d := s[|s| - 1] - m;
      assert d * d >= 0.0;
    }
  }

  /** Deviations from `m` all vanish when every value equals `m`. */
  lemma {:induction false} SumSqDevOfConstant(s: seq<real>, m: real)
    requires forall i :: 0 <= i < |s| ==> s[i] == m
    ensures SumSqDev(s, m) == 0.0
  {
    if s != [] {
      SumSqDevOfConstant(s[..|s| - 1], m);
    }
  }

  /** The sample variance is never negative, so its square root exists. */
  lemma VarianceNonNegative(s: seq<real>)
    ensures SampleVariance(s) >= 0.0
  {
    if |s| >= 2 {
      SumSqDevNonNegative(s, Mean(s));
    }
  }

  /** A window of equal closes has no volatility. */
  lemma VarianceOfConstant(s: seq<real>, c: real)
    requires forall i :: 0 <= i < |s| ==> s[i] == c
    ensures SampleVariance(s) == 0.0
  {
    if |s| >= 2 {
      MeanConstant(s, c);
      SumSqDevOfConstant(s, c);
    }
  }

  // ---------------------------------------------------------------------
  // Percent change
  // ---------------------------------------------------------------------

  /** With a positive previous close, the sign of the change is the sign of the move. */
  lemma PctChangeSign(h: seq<real>)
    requires |h| >= 2 && h[|h| - 2] > 0.0
    ensures PctChange(h) > 0.0 <==> h[|h| - 1] > h[|h| - 2]
    ensures PctChange(h) < 0.0 <==> h[|h| - 1] < h[|h| - 2]
  {
    var p := h[|h| - 2];
    var c := h[|h| - 1];
    assert PctChange(h) == (c - p) * (100.0 / p);
    assert 100.0 / p > 0.0;
  }
}
