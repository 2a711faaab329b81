/**
 * The arithmetic of Python's `statistics` module as the feedback loop uses it:
 * the mean of a non-empty list, and a standard deviation that is either the
 * fallback zero or the sample deviation of a list (a square root, left
 * symbolic).
 */
module Statistics {

  /** A float read from a result file: a finite value, or NaN / an infinity. */
  datatype Num = Finite(x: real) | NonFinite

  /** The spread reported for a statistic: the zero fallback, or stdev(vals). */
  datatype Spread = ZeroSpread | SampleStdev(vals: seq<real>)

  function Sum(xs: seq<real>): real {
    if xs == [] then 0.0 else Sum(xs[..|xs| - 1]) + xs[|xs| - 1]
  }

  /** `statistics.mean`: the sum divided by the count. */
  function Mean(xs: seq<real>): real
    requires |xs| > 0
  {
    Sum(xs) / (|xs| as real)
  }

  predicate AllFinite(xs: seq<Num>) {
    forall k :: 0 <= k < |xs| ==> xs[k].Finite?
  }

  /** The finite values of xs, in order. */
  function Reals(xs: seq<Num>): (r: seq<real>)
    requires AllFinite(xs)
    ensures |r| == |xs| && forall k :: 0 <= k < |xs| ==> r[k] == xs[k].x
  {
    seq(|xs|, k requires 0 <= k < |xs| => xs[k].x)
  }

  /** The mean of a list of floats: NaN or infinite as soon as one value is. */
  function MeanNum(xs: seq<Num>): Num
    requires |xs| > 0
  {
    if AllFinite(xs) then Finite(Mean(Reals(xs))) else NonFinite
  }

  /** Sums are bounded by the count times a bound on every element. */
  lemma {:induction false} SumBounds(xs: seq<real>, lo: real, hi: real)
    requires forall k :: 0 <= k < |xs| ==> lo <= xs[k] <= hi
    ensures (|xs| as real) * lo <= Sum(xs) <= (|xs| as real) * hi
    decreases |xs|
  {
    if xs != [] {
      SumBounds(xs[..|xs| - 1], lo, hi);
      assert (|xs| as real) * lo == ((|xs| - 1) as real) * lo + lo;
      assert (|xs| as real) * hi == ((|xs| - 1) as real) * hi + hi;
    }
  }

  /** The mean lies between any lower and upper bound of the values. */
  lemma MeanBounds(xs: seq<real>, lo: real, hi: real)
    requires |xs| > 0
    requires forall k :: 0 <= k < |xs| ==> lo <= xs[k] <= hi
    ensures lo <= Mean(xs) <= hi
  {
    SumBounds(xs, lo, hi);
    var n := |xs| as real;
    DivBounds(Sum(xs), n, lo, hi);
  }

  lemma DivBounds(s: real, n: real, lo: real, hi: real)
    requires n > 0.0 && n * lo <= s <= n * hi
    ensures lo <= s / n <= hi
  {
    assert s / n * n == s;
  }

  /** The mean of a list whose values are all c is c. */
  lemma MeanConstant(xs: seq<real>, c: real)
    requires |xs| > 0 && forall k :: 0 <= k < |xs| ==> xs[k] == c
    ensures Mean(xs) == c
  {
    MeanBounds(xs, c, c);
  }
}
