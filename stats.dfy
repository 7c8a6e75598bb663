/** Sums, means, extremes and the population variance of exact scores and
    durations: what the source computes with sum(), len(), min() and max(). */
module Stats {

  /** `sum(xs)`, adding from the left. */
  function Sum(xs: seq<real>): real
  {
    if xs == [] then 0.0 else Sum(xs[..|xs| - 1]) + xs[|xs| - 1]
  }

  /** `sum(xs) / len(xs) if xs else 0`. */
  function Mean(xs: seq<real>): real
  {
    if xs == [] then 0.0 else Sum(xs) / |xs| as real
  }

  /** `min(xs)`. */
  function Min(xs: seq<real>): (m: real)
    requires xs != []
    ensures m in xs
    ensures forall i :: 0 <= i < |xs| ==> m <= xs[i]
  {
    if |xs| == 1 then xs[0]
    else
      var m := Min(xs[..|xs| - 1]);
      assert forall i :: 0 <= i < |xs| - 1 ==> xs[..|xs| - 1][i] == xs[i];
      if xs[|xs| - 1] < m then xs[|xs| - 1] else m
  }

  /** `max(xs)`. */
  function Max(xs: seq<real>): (m: real)
    requires xs != []
    ensures m in xs
    ensures forall i :: 0 <= i < |xs| ==> xs[i] <= m
  {
    if |xs| == 1 then xs[0]
    else
      var m := Max(xs[..|xs| - 1]);
      assert forall i :: 0 <= i < |xs| - 1 ==> xs[..|xs| - 1][i] == xs[i];
      if xs[|xs| - 1] > m then xs[|xs| - 1] else m
  }

  lemma {:induction false} SumBounds(xs: seq<real>, lo: real, hi: real)
    requires forall i :: 0 <= i < |xs| ==> lo <= xs[i] <= hi
    ensures |xs| as real * lo <= Sum(xs) <= |xs| as real * hi
  {
    if xs != [] {
      SumBounds(xs[..|xs| - 1], lo, hi);
    }
  }

  /** A mean of values within [lo, hi] lies within [lo, hi]. */
  lemma MeanBounds(xs: seq<real>, lo: real, hi: real)
    requires xs != []
    requires forall i :: 0 <= i < |xs| ==> lo <= xs[i] <= hi
    ensures lo <= Mean(xs) <= hi
  {
    SumBounds(xs, lo, hi);
    var n := |xs| as real;
    assert n * lo <= Sum(xs) <= n * hi;
    assert Mean(xs) == Sum(xs) / n;
  }

  /** The mean of a non-empty list lies between its minimum and its maximum. */
  lemma MeanBetweenMinMax(xs: seq<real>)
    requires xs != []
    ensures Min(xs) <= Mean(xs) <= Max(xs)
  {
    MeanBounds(xs, Min(xs), Max(xs));
  }

  /** A product of two positive reals is positive. */
  function Times(a: real, b: real): (r: real)
    ensures a > 0.0 && b > 0.0 ==> r > 0.0
  {
    a * b
  }

  /** `d ** 2`, computed on the absolute value of `d`. */
  function Square(d: real): (r: real)
    ensures r >= 0.0
    ensures r == 0.0 <==> d == 0.0
  {
    if d < 0.0 then Times(0.0 - d, 0.0 - d)
    else if d > 0.0 then Times(d, d)
    else 0.0
  }

  /** `sum((x - m) ** 2 for x in xs)`. */
  function SquaredDeviations(xs: seq<real>, m: real): real
  {
    if xs == [] then 0.0 else SquaredDeviations(xs[..|xs| - 1], m) + Square(xs[|xs| - 1] - m)
  }

  /** Population variance: the mean squared deviation from the mean. */
  function Variance(xs: seq<real>): real
  {
    if xs == [] then 0.0 else SquaredDeviations(xs, Mean(xs)) / |xs| as real
  }

  /** All values of the list are equal. */
  predicate AllEqual(xs: seq<real>)
  {
    forall i, j :: 0 <= i < |xs| && 0 <= j < |xs| ==> xs[i] == xs[j]
  }

  lemma {:induction false} SquaredDeviationsNonNegative(xs: seq<real>, m: real)
    ensures SquaredDeviations(xs, m) >= 0.0
  {
    if xs != [] {
      SquaredDeviationsNonNegative(xs[..|xs| - 1], m);
    }
  }

  /** A sum of squared deviations is zero exactly when every value equals `m`. */
  lemma {:induction false} SquaredDeviationsZero(xs: seq<real>, m: real)
    ensures SquaredDeviations(xs, m) == 0.0 <==> forall i :: 0 <= i < |xs| ==> xs[i] == m
  {
    if xs != [] {
      var init := xs[..|xs| - 1];
      SquaredDeviationsZero(init, m);
      SquaredDeviationsNonNegative(init, m);
      assert forall i :: 0 <= i < |xs| - 1 ==> init[i] == xs[i];
    }
  }

  /** The variance is never negative. */
  lemma VarianceNonNegative(xs: seq<real>)
    ensures Variance(xs) >= 0.0
  {
    if xs != [] {
      SquaredDeviationsNonNegative(xs, Mean(xs));
    }
  }

  /** The variance is zero exactly when all values are equal. */
  lemma VarianceZeroIffAllEqual(xs: seq<real>)
    ensures Variance(xs) == 0.0 <==> AllEqual(xs)
  {
    if xs != [] {
      var n := |xs| as real;
      SquaredDeviationsZero(xs, Mean(xs));
      SquaredDeviationsNonNegative(xs, Mean(xs));
      if AllEqual(xs) {
        var c := xs[0];
        SumBounds(xs, c, c);
        assert Sum(xs) == n * c;
        assert Mean(xs) == c;
      }
    }
  }

  lemma {:induction false} SumAtMost(xs: seq<real>, hi: real)
    requires forall i :: 0 <= i < |xs| ==> xs[i] <= hi
    ensures Sum(xs) <= |xs| as real * hi
  {
    if xs != [] {
      SumAtMost(xs[..|xs| - 1], hi);
    }
  }

  /** One value strictly below an upper bound of all values keeps the sum
      strictly below its largest possible value. */
  lemma {:induction false} SumBelowBound(xs: seq<real>, hi: real, k: int)
    requires 0 <= k < |xs| && xs[k] < hi
    requires forall i :: 0 <= i < |xs| ==> xs[i] <= hi
    ensures Sum(xs) < |xs| as real * hi
  {
    var init := xs[..|xs| - 1];
    if k == |xs| - 1 {
      SumAtMost(init, hi);
    } else {
      SumBelowBound(init, hi, k);
    }
  }

  lemma QuotientBelow(a: real, n: real, h: real)
    requires n > 0.0 && a < n * h
    ensures a / n < h
  {
    var q := a / n;
    assert a == q * n;
    var d := Times(q - h, n);
    assert d == q * n - h * n;
  }

  /** A mean reaches an upper bound of all values exactly when every value
      equals that bound. */
  lemma MeanReachesBound(xs: seq<real>, hi: real)
    requires xs != []
    requires forall i :: 0 <= i < |xs| ==> xs[i] <= hi
    ensures Mean(xs) >= hi <==> forall i :: 0 <= i < |xs| ==> xs[i] == hi
  {
    var n := |xs| as real;
    if forall i :: 0 <= i < |xs| ==> xs[i] == hi {
      SumBounds(xs, hi, hi);
      assert Sum(xs) == n * hi;
    } else {
      var k :| 0 <= k < |xs| && xs[k] != hi;
      SumBelowBound(xs, hi, k);
      QuotientBelow(Sum(xs), n, hi);
    }
  }
}
