/** The return series and the three prefix computations built on it: the
    cumulative growth of one unit, its running maximum, and the drawdown from
    that maximum. Exact reals stand in for floating point. */
module Scans {
  import opened PriceSeries

  /** Every growth factor 1 + r[i] is positive, as it is for returns of positive prices. */
  predicate GrowthPositive(r: seq<real>) {
    forall i :: 0 <= i < |r| ==> 1.0 + r[i] > 0.0
  }

  // ---- pct_change().dropna() ----

  /** Period-over-period simple returns; the first position, which has no
      prior price, is dropped rather than filled. */
  function PctChange(p: seq<real>): (r: seq<real>)
    requires AllPositive(p)
    ensures |r| == if |p| == 0 then 0 else |p| - 1
    ensures GrowthPositive(r)
    decreases |p|
  {
    if |p| < 2 then [] else [p[1] / p[0] - 1.0] + PctChange(p[1..])
  }

  lemma {:induction false} PctChangeAt(p: seq<real>, i: nat)
    requires AllPositive(p)
    requires i + 1 < |p|
    ensures PctChange(p)[i] == p[i + 1] / p[i] - 1.0
    decreases i
  {
    if i > 0 {
      PctChangeAt(p[1..], i - 1);
    }
  }

  /** The return series of a price series: values from PctChange, index with
      the first timestamp dropped. */
  function Returns(prices: Series): (r: Series)
    requires prices.Valid() && AllPositive(prices.values)
    ensures r.Valid()
    ensures GrowthPositive(r.values)
  {
    Series(if |prices.stamps| == 0 then [] else prices.stamps[1..], PctChange(prices.values))
  }

  /** For at least two prices the return series is one shorter, starts at the
      second timestamp, and holds p[i+1]/p[i] - 1 at position i. */
  lemma ReturnsShape(prices: Series)
    requires prices.Valid() && AllPositive(prices.values)
    requires |prices.values| >= 2
    ensures var r := Returns(prices);
      && |r.values| == |prices.values| - 1
      && (forall i :: 0 <= i < |r.values| ==> r.stamps[i] == prices.stamps[i + 1])
      && (forall i :: 0 <= i < |r.values| ==> r.values[i] == prices.values[i + 1] / prices.values[i] - 1.0)
  {
    var r := Returns(prices);
    forall i | 0 <= i < |r.values|
      ensures r.values[i] == prices.values[i + 1] / prices.values[i] - 1.0
    {
      PctChangeAt(prices.values, i);
    }
  }

  // ---- (1 + returns).cumprod() ----

  /** A value after one period with simple return g. */
  function Grow(x: real, g: real): (y: real) { x * (1.0 + g) }

  /** Running product of the growth factors 1 + r[i], starting from one unit. */
  function CumProd(r: seq<real>): (c: seq<real>)
    ensures |c| == |r|
    decreases |r|
  {
    if r == [] then []
    else
      var c' := CumProd(r[..|r| - 1]);
      c' + [Grow(if c' == [] then 1.0 else c'[|c'| - 1], r[|r| - 1])]
  }

  /** The scan starts at 1 + r[0] and multiplies in one growth factor per step. */
  lemma CumProdStep(r: seq<real>, i: nat)
    requires 0 < i < |r|
    ensures CumProd(r)[i] == Grow(CumProd(r)[i - 1], r[i])
  {
  }

  lemma CumProdFirst(r: seq<real>)
    requires |r| > 0
    ensures CumProd(r)[0] == Grow(1.0, r[0])
  {
  }

  /** Compounding positive growth factors keeps the value positive. */
  lemma {:induction false} CumProdPositive(r: seq<real>)
    requires GrowthPositive(r)
    ensures AllPositive(CumProd(r))
    decreases |r|
  {
    if r != [] {
      var r' := r[..|r| - 1];
      CumProdPositive(r');
      var c' := CumProd(r');
      var before := if c' == [] then 1.0 else c'[|c'| - 1];
      assert before > 0.0;
      var last := Grow(before, r[|r| - 1]);
      GrowPositive(before, r[|r| - 1]);
      var c := CumProd(r);
      assert c == c' + [last];
      forall i | 0 <= i < |c|
        ensures c[i] > 0.0
      {
        if i < |c'| {
          assert c[i] == c'[i];
        } else {
          assert c[i] == last;
        }
      }
    }
  }

  /** One period of positive growth keeps a positive value positive. */
  lemma GrowPositive(x: real, g: real)
    requires x > 0.0 && 1.0 + g > 0.0
    ensures Grow(x, g) > 0.0
  {
    PositiveProduct(x, 1.0 + g);
  }

  lemma PositiveProduct(a: real, b: real)
    requires a > 0.0 && b > 0.0
    ensures a * b > 0.0
  {
  }

  /** Growing the ratio b/a by the return c/b - 1 gives the ratio c/a. */
  lemma RatioChain(a: real, b: real, c: real)
    requires a > 0.0 && b > 0.0
    ensures Grow(b / a, c / b - 1.0) == c / a
  {
    calc {
      Grow(b / a, c / b - 1.0);
    ==
      (b / a) * (c / b);
    ==
      c / a;
    }
  }

  /** The compounded growth telescopes: after the return into period i + 1 it
      is the price ratio p[i+1]/p[0]. */
  lemma {:induction false} CumProdTelescopes(p: seq<real>, i: nat)
    requires AllPositive(p)
    requires i + 1 < |p|
    ensures CumProd(PctChange(p))[i] == p[i + 1] / p[0]
    decreases i
  {
    var r := PctChange(p);
    PctChangeAt(p, i);
    if i == 0 {
      CumProdFirst(r);
    } else {
      CumProdTelescopes(p, i - 1);
      CumProdStep(r, i);
      RatioChain(p[0], p[i], p[i + 1]);
    }
  }

  // ---- cummax() ----

  /** The larger of two values. */
  function MaxReal(a: real, b: real): (m: real) { if a < b then b else a }

  /** Running maximum: each element dominates, and is one of, the values up to
      its position, and the scan never decreases. */
  function CumMax(c: seq<real>): (m: seq<real>)
    ensures |m| == |c|
    ensures forall i, j :: 0 <= j <= i < |c| ==> c[j] <= m[i]
    ensures forall i, k :: 0 <= i <= k < |c| ==> m[i] <= m[k]
    decreases |c|
  {
    if c == [] then []
    else
      var m' := CumMax(c[..|c| - 1]);
      m' + [if m' == [] then c[|c| - 1] else MaxReal(m'[|m'| - 1], c[|c| - 1])]
  }

  /** The running maximum is attained: at each position it is one of the
      values seen so far. */
  lemma {:induction false} CumMaxAttained(c: seq<real>, i: nat)
    requires i < |c|
    ensures exists j :: 0 <= j <= i && CumMax(c)[i] == c[j]
    decreases |c|
  {
    var n := |c|;
    var c' := c[..n - 1];
    if i < n - 1 {
      CumMaxAttained(c', i);
      var j :| 0 <= j <= i && CumMax(c')[i] == c'[j];
      assert CumMax(c)[i] == c[j];
    } else if n > 1 {
      CumMaxAttained(c', n - 2);
      var j :| 0 <= j <= n - 2 && CumMax(c')[n - 2] == c'[j];
      if CumMax(c)[i] != c[n - 1] {
        assert CumMax(c)[i] == c[j];
      }
    }
  }

  /** The running maximum starts at the first value. */
  lemma CumMaxFirst(c: seq<real>)
    requires |c| > 0
    ensures CumMax(c)[0] == c[0]
  {
    CumMaxAttained(c, 0);
  }

  // ---- cum_returns / rolling_max - 1 ----

  /** Drawdown from the running peak, point by point. */
  function DrawdownOf(c: seq<real>): (d: seq<real>)
    requires AllPositive(c)
    ensures |d| == |c|
  {
    var m := CumMax(c);
    seq(|c|, i requires 0 <= i < |c| => assert c[i] <= m[i]; c[i] / m[i] - 1.0)
  }

  /** For 0 < a <= b the ratio a / b lies in (0, 1] and is 1 only when a == b. */
  lemma RatioAtMostOne(a: real, b: real)
    requires 0.0 < a <= b
    ensures a / b <= 1.0
    ensures a / b == 1.0 <==> a == b
  {
  }

  lemma DrawdownPoint(c: seq<real>, i: nat)
    requires AllPositive(c)
    requires i < |c|
    ensures DrawdownOf(c)[i] <= 0.0
    ensures DrawdownOf(c)[i] == 0.0 <==> c[i] == CumMax(c)[i]
  {
    RatioAtMostOne(c[i], CumMax(c)[i]);
  }

  /** Drawdown is never positive, and it is zero exactly at a new high: where
      the value is at least every earlier value. */
  lemma DrawdownSigns(c: seq<real>)
    requires AllPositive(c)
    ensures forall i :: 0 <= i < |c| ==> DrawdownOf(c)[i] <= 0.0
    ensures forall i :: 0 <= i < |c| ==>
      (DrawdownOf(c)[i] == 0.0 <==> forall j :: 0 <= j <= i ==> c[j] <= c[i])
    ensures |c| > 0 ==> DrawdownOf(c)[0] == 0.0
  {
    var m := CumMax(c);
    forall i | 0 <= i < |c|
      ensures DrawdownOf(c)[i] <= 0.0
      ensures DrawdownOf(c)[i] == 0.0 <==> forall j :: 0 <= j <= i ==> c[j] <= c[i]
    {
      DrawdownPoint(c, i);
      CumMaxAttained(c, i);
      var j :| 0 <= j <= i && m[i] == c[j];
    }
    if |c| > 0 {
      CumMaxFirst(c);
      DrawdownPoint(c, 0);
    }
  }
}
