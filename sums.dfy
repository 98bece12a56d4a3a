/** Sums, means and extremes of sequences, as Python's `sum`, `max`, `min`
    and `sum(xs) / len(xs)` compute them. Every definition peels off the LAST
    element, so that a loop that walks a sequence from the front extends the
    sum of the prefix it has seen by one step. */
module Sums {

  function SumInt(xs: seq<int>): int {
    if xs == [] then 0 else SumInt(xs[..|xs| - 1]) + xs[|xs| - 1]
  }

  function SumReal(xs: seq<real>): real {
    if xs == [] then 0.0 else SumReal(xs[..|xs| - 1]) + xs[|xs| - 1]
  }

  function MaxReal(xs: seq<real>): real
    requires xs != []
  {
    if |xs| == 1 then xs[0]
    else
      var m := MaxReal(xs[..|xs| - 1]);
      if xs[|xs| - 1] > m then xs[|xs| - 1] else m
  }

  function MinReal(xs: seq<real>): real
    requires xs != []
  {
    if |xs| == 1 then xs[0]
    else
      var m := MinReal(xs[..|xs| - 1]);
      if xs[|xs| - 1] < m then xs[|xs| - 1] else m
  }

  /** `sum(xs) / len(xs) if xs else 0`. */
  function MeanOrZero(xs: seq<real>): real {
    if xs == [] then 0.0 else SumReal(xs) / |xs| as real
  }

  lemma {:induction false} SumIntAppend(xs: seq<int>, ys: seq<int>)
    ensures SumInt(xs + ys) == SumInt(xs) + SumInt(ys)
  {
    if ys != [] {
      SumIntAppend(xs, ys[..|ys| - 1]);
      assert (xs + ys)[..|xs + ys| - 1] == xs + ys[..|ys| - 1];
    } else {
      assert xs + ys == xs;
    }
  }

  /** The maximum is attained and bounds every element; so does the minimum. */
  lemma {:induction false} ExtremesBound(xs: seq<real>)
    requires xs != []
    ensures MaxReal(xs) in xs && MinReal(xs) in xs
    ensures forall i :: 0 <= i < |xs| ==> MinReal(xs) <= xs[i] <= MaxReal(xs)
  {
    if |xs| > 1 {
      var init := xs[..|xs| - 1];
      ExtremesBound(init);
      assert forall i :: 0 <= i < |xs| - 1 ==> xs[i] == init[i];
    }
  }

  /** n * lo <= sum <= n * hi when every element lies in [lo, hi]. */
  lemma {:induction false} SumBetween(xs: seq<real>, lo: real, hi: real)
    requires forall i :: 0 <= i < |xs| ==> lo <= xs[i] <= hi
    ensures |xs| as real * lo <= SumReal(xs) <= |xs| as real * hi
  {
    if xs != [] {
      var init := xs[..|xs| - 1];
      assert forall i :: 0 <= i < |init| ==> init[i] == xs[i];
      SumBetween(init, lo, hi);
      assert |xs| as real * lo == |init| as real * lo + lo;
      assert |xs| as real * hi == |init| as real * hi + hi;
    }
  }

  /** The mean of values in [lo, hi] lies in [lo, hi]. */
  lemma MeanBetween(xs: seq<real>, lo: real, hi: real)
    requires xs != []
    requires forall i :: 0 <= i < |xs| ==> lo <= xs[i] <= hi
    ensures lo <= MeanOrZero(xs) <= hi
  {
    SumBetween(xs, lo, hi);
    var n := |xs| as real;
    assert SumReal(xs) / n * n == SumReal(xs);
  }

  /** Lowest <= average <= highest, as the dashboard's per-subject statistics show them. */
  lemma MinMeanMax(xs: seq<real>)
    requires xs != []
    ensures MinReal(xs) <= MeanOrZero(xs) <= MaxReal(xs)
  {
    ExtremesBound(xs);
    MeanBetween(xs, MinReal(xs), MaxReal(xs));
  }
}
