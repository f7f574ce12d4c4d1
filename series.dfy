/** Time-indexed price data as the metrics engine sees it, the errors it can
    report, and the order statistics (maximum, minimum) it takes of a series. */
module PriceSeries {

  /** Either a computed value or the error that stopped the computation. */
  datatype Result<+T> = Ok(value: T) | Err(error: Error)

  datatype Error =
    | MissingColumn     // the closing-price column asked for is not in the table
    | InsufficientData  // fewer than two prices, so there is no return to work with

  /** A pandas Series: an index of timestamps paired position by position with values. */
  datatype Series = Series(stamps: seq<int>, values: seq<real>) {
    predicate Valid() { |stamps| == |values| }
  }

  predicate AllPositive(s: seq<real>) {
    forall i :: 0 <= i < |s| ==> s[i] > 0.0
  }

  predicate NonDecreasing(s: seq<real>) {
    forall i, j :: 0 <= i <= j < |s| ==> s[i] <= s[j]
  }

  /** Series.max() of a non-empty integer series. */
  function MaxOf(s: seq<nat>): (m: nat)
    requires |s| > 0
    ensures m in s
    ensures forall i :: 0 <= i < |s| ==> s[i] <= m
    decreases |s|
  {
    if |s| == 1 then s[0]
    else
      var rest := MaxOf(s[1..]);
      if s[0] < rest then rest else s[0]
  }

  /** Series.min() of a non-empty real series. */
  function MinOf(s: seq<real>): (m: real)
    requires |s| > 0
    ensures m in s
    ensures forall i :: 0 <= i < |s| ==> m <= s[i]
    decreases |s|
  {
    if |s| == 1 then s[0]
    else
      var rest := MinOf(s[1..]);
      if rest < s[0] then rest else s[0]
  }
}
