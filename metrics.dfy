/** compute_metrics: from a price table and a ticker to the closing prices, the
    drawdown series, the maximum drawdown and the maximum drawdown duration. */
module Metrics {
  import opened PriceSeries
  import opened CloseExtraction
  import opened Scans
  import opened DrawdownDuration

  /** The order-based part of what compute_metrics returns: the closing
      prices, the drawdown series (indexed like the returns) and the two
      drawdown statistics. Drawdowns are fractions, not percentages. */
  datatype Report = Report(prices: Series, drawdown: Series, maxDrawdown: real, maxDuration: nat)

  /** cum_returns / rolling_max - 1, indexed by the return timestamps. */
  function DrawdownSeries(prices: Series): (d: Series)
    requires prices.Valid() && AllPositive(prices.values)
    ensures d.Valid()
    ensures |prices.values| > 0 ==> |d.values| == |prices.values| - 1 && d.stamps == prices.stamps[1..]
    ensures forall i :: 0 <= i < |d.values| ==> d.values[i] <= 0.0
  {
    var r := Returns(prices);
    CumProdPositive(r.values);
    DrawdownSigns(CumProd(r.values));
    Series(r.stamps, DrawdownOf(CumProd(r.values)))
  }

  /** The statistics of a price series with at least two points. */
  function Analyse(prices: Series): (rep: Report)
    requires prices.Valid() && AllPositive(prices.values) && |prices.values| >= 2
    ensures rep.prices == prices
    ensures rep.drawdown.Valid()
    ensures |rep.drawdown.values| == |prices.values| - 1 && rep.drawdown.stamps == prices.stamps[1..]
    ensures rep.maxDrawdown <= 0.0
    ensures rep.maxDrawdown in rep.drawdown.values
    ensures forall i :: 0 <= i < |rep.drawdown.values| ==> rep.maxDrawdown <= rep.drawdown.values[i]
    ensures rep.maxDuration < |rep.drawdown.values|
  {
    var d := DrawdownSeries(prices);
    var u := Underwater(d.values);
    DurationIsResetCounter(u);
    FirstPointDry(prices);
    Report(prices, d, MinOf(d.values), MaxOf(DurationSeries(u)))
  }

  /** The whole computation: a missing closing-price column and fewer than two
      prices are errors; otherwise the statistics of the extracted prices. */
  function ComputeMetrics(t: Table, ticker: string): (r: Result<Report>)
    requires t.Valid()
    requires HasCloseColumn(t, ticker) ==> AllPositive(ExtractClosePrice(t, ticker).value.values)
    ensures !HasCloseColumn(t, ticker) ==> r == Err(MissingColumn)
    ensures HasCloseColumn(t, ticker) ==>
      (r == Err(InsufficientData) <==> |ExtractClosePrice(t, ticker).value.values| < 2)
    ensures HasCloseColumn(t, ticker) && |ExtractClosePrice(t, ticker).value.values| >= 2 ==>
      r == Ok(Analyse(ExtractClosePrice(t, ticker).value))
    ensures r.Ok? ==> r.value == Analyse(ExtractClosePrice(t, ticker).value)
  {
    match ExtractClosePrice(t, ticker)
    case Err(e) => Err(e)
    case Ok(prices) =>
      if |prices.values| < 2 then Err(InsufficientData) else Ok(Analyse(prices))
  }

  /** The first return period is at its own peak, so it is never underwater
      and no duration reaches the full length of the series. */
  lemma FirstPointDry(prices: Series)
    requires prices.Valid() && AllPositive(prices.values) && |prices.values| >= 2
    ensures var d := DrawdownSeries(prices).values;
      MaxOf(ResetCounter(Underwater(d))) < |d|
  {
    var r := Returns(prices);
    CumProdPositive(r.values);
    var c := CumProd(r.values);
    DrawdownSigns(c);
    var d := DrawdownSeries(prices).values;
    var u := Underwater(d);
    assert !u[0];
    var cnt := ResetCounter(u);
    forall i | 0 <= i < |cnt|
      ensures cnt[i] < |d|
    {
      CounterIsRunLength(u, i);
    }
  }

  lemma DivideMonotone(a: real, b: real, c: real)
    requires 0.0 < c && a <= b
    ensures a / c <= b / c
  {
  }

  /** Prices that never fall give no drawdown and no duration. */
  lemma NonDecreasingPricesNoDrawdown(prices: Series)
    requires prices.Valid() && AllPositive(prices.values) && |prices.values| >= 2
    requires NonDecreasing(prices.values)
    ensures Analyse(prices).maxDrawdown == 0.0
    ensures Analyse(prices).maxDuration == 0
  {
    var p := prices.values;
    var rv := Returns(prices).values;
    var c := CumProd(rv);
    CumProdPositive(rv);
    // the cumulative return is p[i+1]/p[0], so it never falls either
    forall i, j | 0 <= j <= i < |c|
      ensures c[j] <= c[i]
    {
      CumProdTelescopes(p, i);
      CumProdTelescopes(p, j);
      DivideMonotone(p[j + 1], p[i + 1], p[0]);
    }
    DrawdownSigns(c);
    var d := DrawdownSeries(prices).values;
    assert d == DrawdownOf(c);
    assert forall i :: 0 <= i < |d| ==> d[i] == 0.0;
    var u := Underwater(d);
    MaxDurationIsLongestRun(u);
  }

  /** The price path 100, 110, 105, 95, 100, 120 on six consecutive days. */
  const Example: Series := Series([0, 1, 2, 3, 4, 5], [100.0, 110.0, 105.0, 95.0, 100.0, 120.0])

  /** The growth of one unit along the example path. */
  lemma ExampleGrowth()
    ensures CumProd(Returns(Example).values) == [1.1, 1.05, 0.95, 1.0, 1.2]
  {
    var p := Example.values;
    var c := CumProd(Returns(Example).values);
    forall i | 0 <= i < 5
      ensures c[i] == p[i + 1] / p[0]
    {
      CumProdTelescopes(p, i);
    }
  }

  /** The running peak of that growth: 1.1 until the new high of 1.2. */
  lemma ExamplePeak(c: seq<real>)
    requires c == [1.1, 1.05, 0.95, 1.0, 1.2]
    ensures CumMax(c) == [1.1, 1.1, 1.1, 1.1, 1.2]
  {
    var m := CumMax(c);
    assert c[0] == 1.1 && c[1] == 1.05 && c[2] == 0.95 && c[3] == 1.0 && c[4] == 1.2;
    forall i | 0 <= i < 5
      ensures m[i] == if i < 4 then 1.1 else 1.2
    {
      // m[i] dominates c[0] (and c[4] when i == 4) and is one of c[0..i+1]
      assert c[0] <= m[i];
      if i == 4 {
        assert c[4] <= m[i];
      }
      CumMaxAttained(c, i);
      var j :| 0 <= j <= i && m[i] == c[j];
      assert j == 0 || j == 1 || j == 2 || j == 3 || j == 4;
    }
  }

  lemma ExampleDrawdown()
    ensures DrawdownSeries(Example).values == [0.0, 1.05 / 1.1 - 1.0, 0.95 / 1.1 - 1.0, 1.0 / 1.1 - 1.0, 0.0]
  {
    var c := CumProd(Returns(Example).values);
    ExampleGrowth();
    ExamplePeak(c);
    CumProdPositive(Returns(Example).values);
    assert DrawdownSeries(Example).values == DrawdownOf(c);
  }

  /** Analyse's statistics are the minimum of its drawdown series and the
      largest duration count over that series' underwater flags. */
  lemma AnalyseOf(prices: Series, d: seq<real>)
    requires prices.Valid() && AllPositive(prices.values) && |prices.values| >= 2
    requires DrawdownSeries(prices).values == d
    ensures Analyse(prices).drawdown.values == d
    ensures Analyse(prices).maxDrawdown == MinOf(d)
    ensures Analyse(prices).maxDuration == MaxOf(DurationSeries(Underwater(d)))
  {
  }

  /** The reported maximum duration is the length of the longest underwater
      run of the reported drawdown series, counting a run still open at the
      last point; it is 0 exactly when no drawdown is negative. */
  lemma AnalyseDurationIsLongestRun(prices: Series)
    requires prices.Valid() && AllPositive(prices.values) && |prices.values| >= 2
    ensures LongestRun(Underwater(Analyse(prices).drawdown.values), Analyse(prices).maxDuration)
  {
    var d := DrawdownSeries(prices).values;
    AnalyseOf(prices, d);
    MaxDurationIsLongestRun(Underwater(d));
  }

  /** A flat table holds one instrument, so the ticker asked for plays no part. */
  lemma ExampleExtracted(ticker: string)
    ensures ComputeMetrics(Flat(map[Close := Example]), ticker) == Ok(Analyse(Example))
  {
  }

  lemma ExampleDurations()
    ensures DurationSeries([false, true, true, true, false]) == [0, 1, 2, 3, 0]
    ensures MaxOf(DurationSeries([false, true, true, true, false])) == 3
  {
    var u := [false, true, true, true, false];
    DurationIsResetCounter(u);
    var c := ResetCounter(u);
    assert c[0] == 0 && c[4] == 0;
    assert c[1] == 1;
    assert c[2] == 2;
    assert c[3] == 3;
    assert c == [0, 1, 2, 3, 0];
    assert MaxOf(c) == 3 by {
      var m := MaxOf(c);
      assert m in c;
      assert m >= c[3];
    }
  }

  lemma ExampleUnderwater()
    ensures Underwater(DrawdownSeries(Example).values) == [false, true, true, true, false]
  {
    ExampleDrawdown();
  }

  lemma ExampleTrough(d: seq<real>)
    requires d == [0.0, 1.05 / 1.1 - 1.0, 0.95 / 1.1 - 1.0, 1.0 / 1.1 - 1.0, 0.0]
    ensures MinOf(d) == 95.0 / 110.0 - 1.0
  {
    var m := MinOf(d);
    assert m <= d[2];
    var j :| 0 <= j < |d| && d[j] == m;
  }

  /** On the example path the peak at 110 is followed by three underwater
      periods, the new high at 120 resets the count, the longest duration is
      3 and the deepest drawdown is 95/110 - 1, at the trough. */
  lemma WorkedExample(ticker: string)
    ensures var r := ComputeMetrics(Flat(map[Close := Example]), ticker);
      r.Ok? && r.value.maxDuration == 3 && r.value.maxDrawdown == 95.0 / 110.0 - 1.0
  {
    var d := DrawdownSeries(Example).values;
    AnalyseOf(Example, d);
    ExampleUnderwater();
    ExampleDurations();
    ExampleDrawdown();
    ExampleTrough(d);
    ExampleExtracted(ticker);
  }
}
