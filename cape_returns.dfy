/** The CAPE study (sp500_cape_analysis/sp500_cape_returns.py): annualised forward returns
    of the monthly S&P 500 closes over 1, 3, 5 and 10 years, the table of months where
    the Shiller CAPE and every horizon are known, and the report's fit statistics: the
    coefficient of determination of each fitted line and its prediction at a CAPE of 37.
    The monthly closes come as values; the n-th root and the least-squares fit
    (`np.polyfit`) are supplied by the caller. */
module CapeReturns {
  import opened Common

  /** Index levels are positive, so every price ratio is defined. */
  predicate PositivePrices(prices: seq<real>)
  {
    forall i :: 0 <= i < |prices| ==> prices[i] > 0.0
  }

  /** The months a window of `years` years spans. */
  function Window(years: nat): nat
  {
    12 * years
  }

  /** `(p[i + 12y] / p[i]) ** (1 / y) - 1`: the annualised growth from month i. */
  function Growth(prices: seq<real>, years: nat, root: Root, i: nat): real
    requires PositivePrices(prices) && i + Window(years) < |prices|
  {
    root(prices[i + Window(years)] / prices[i], years) - 1.0
  }

  /** `calculate_returns(prices, years)`: at month i, the annualised return in percent over
      the next 12 * years months; NaN where the window runs past the last month. */
  function AnnualisedReturns(prices: seq<real>, years: nat, root: Root): seq<Float>
    requires PositivePrices(prices)
  {
    seq(|prices|, i requires 0 <= i < |prices| =>
      if i + Window(years) < |prices| then Finite(Growth(prices, years, root, i) * 100.0) else NaN)
  }

  /** A return is known exactly for the months whose window ends inside the series, it is
      a number there and NaN elsewhere. */
  lemma ReturnsWindow(prices: seq<real>, years: nat, root: Root)
    requires PositivePrices(prices)
    ensures |AnnualisedReturns(prices, years, root)| == |prices|
    ensures forall i :: 0 <= i < |prices| ==>
      (AnnualisedReturns(prices, years, root)[i].Finite? <==> i + 12 * years < |prices|) &&
      (AnnualisedReturns(prices, years, root)[i].NaN? <==> i + 12 * years >= |prices|)
    ensures forall i :: 0 <= i < |prices| && i + 12 * years < |prices| ==>
      AnnualisedReturns(prices, years, root)[i] ==
        Finite((root(prices[i + 12 * years] / prices[i], years) - 1.0) * 100.0)
  {
  }

  /** Over one year the root is the identity, and the return is the plain price change
      over the next twelve months, in percent. */
  lemma OneYearReturn(prices: seq<real>, root: Root, i: nat)
    requires PositivePrices(prices) && i + 12 < |prices|
    requires forall x :: root(x, 1) == x
    ensures AnnualisedReturns(prices, 1, root)[i] == Finite((prices[i + 12] / prices[i] - 1.0) * 100.0)
  {
  }

  /** A flat index earns nothing over any horizon whose root keeps 1 fixed. */
  lemma FlatPricesEarnNothing(prices: seq<real>, years: nat, root: Root, i: nat)
    requires PositivePrices(prices) && i + 12 * years < |prices|
    requires prices[i + 12 * years] == prices[i] && root(1.0, years) == 1.0
    ensures AnnualisedReturns(prices, years, root)[i] == Finite(0.0)
  {
    assert Window(years) == 12 * years;
    assert prices[i + Window(years)] / prices[i] == 1.0;
    assert Growth(prices, years, root, i) == 0.0;
  }

  /** How many values `dropna` keeps. */
  function DefinedCount(xs: seq<Float>): nat
  {
    if xs == [] then 0 else DefinedCount(xs[..|xs| - 1]) + (if xs[|xs| - 1].NaN? then 0 else 1)
  }

  /** The number of known returns is the number of months less the window, or none. */
  lemma ReturnsDefinedCount(prices: seq<real>, years: nat, root: Root)
    requires PositivePrices(prices)
    ensures DefinedCount(AnnualisedReturns(prices, years, root)) ==
      if |prices| > 12 * years then |prices| - 12 * years else 0
  {
    var r := AnnualisedReturns(prices, years, root);
    var k := if |prices| > 12 * years then |prices| - 12 * years else 0;
    ReturnsWindow(prices, years, root);
    assert forall i :: 0 <= i < |r| ==> (r[i].NaN? <==> i >= k) by {
      forall i | 0 <= i < |r|
        ensures r[i].NaN? <==> i >= k
      {
        assert r[i].NaN? <==> i + 12 * years >= |prices|;
      }
    }
    DefinedPrefixCount(r, k);
  }

  /** A sequence known exactly on its first k places has k known values. */
  lemma {:induction false} DefinedPrefixCount(xs: seq<Float>, k: nat)
    requires k <= |xs|
    requires forall i :: 0 <= i < |xs| ==> (xs[i].NaN? <==> i >= k)
    ensures DefinedCount(xs) == k
  {
    if xs != [] {
      var init := xs[..|xs| - 1];
      if k == |xs| {
        DefinedPrefixCount(init, k - 1);
      } else {
        DefinedPrefixCount(init, k);
      }
    }
  }

  /** The loop of `calculate_returns`: a series of NaN filled for the first len - 12 * years
      months, then scaled to percent. */
  method CalculateReturns(prices: seq<real>, years: nat, root: Root) returns (r: seq<Float>)
    requires PositivePrices(prices)
    ensures r == AnnualisedReturns(prices, years, root)
  {
    var scaled := new Float[|prices|](_ => NaN);
    var window := Window(years);
    var n := if |prices| > window then |prices| - window else 0;
    for i := 0 to n
      invariant forall j :: 0 <= j < i ==> scaled[j] == Finite(Growth(prices, years, root, j))
      invariant forall j :: i <= j < |prices| ==> scaled[j] == NaN
    {
      scaled[i] := Finite(root(prices[i + window] / prices[i], years) - 1.0);
    }
    r := seq(|prices|, j requires 0 <= j < |prices| reads scaled => FMul(scaled[j], Finite(100.0)));
    assert forall j :: 0 <= j < |prices| ==> r[j] == AnnualisedReturns(prices, years, root)[j];
  }

  // ---------------------------------------------------------------------------
  // The combined table

  const CapeHorizons: seq<nat> := [1, 3, 5, 10]

  /** One month of the combined table: its CAPE and its four forward returns. */
  datatype CombinedRow = CombinedRow(date: int, cape: Float, r1: Float, r3: Float, r5: Float, r10: Float)

  /** The return column of one horizon. */
  function ReturnOf(row: CombinedRow, years: nat): Float
    requires years in CapeHorizons
  {
    if years == 1 then row.r1 else if years == 3 then row.r3 else if years == 5 then row.r5 else row.r10
  }

  /** The DataFrame built from the CAPE series and the four return series, at the closes'
      month ends; a month the CAPE series lacks has a NaN CAPE. */
  function AlignedRows(dates: seq<int>, prices: seq<real>, cape: map<int, real>, root: Root): seq<CombinedRow>
    requires |dates| == |prices| && PositivePrices(prices)
  {
    seq(|dates|, i requires 0 <= i < |dates| =>
      CombinedRow(dates[i], if dates[i] in cape then Finite(cape[dates[i]]) else NaN,
                  AnnualisedReturns(prices, 1, root)[i], AnnualisedReturns(prices, 3, root)[i],
                  AnnualisedReturns(prices, 5, root)[i], AnnualisedReturns(prices, 10, root)[i]))
  }

  /** `dropna()` keeps the rows with no NaN. */
  predicate Complete(row: CombinedRow)
  {
    !row.cape.NaN? && !row.r1.NaN? && !row.r3.NaN? && !row.r5.NaN? && !row.r10.NaN?
  }

  predicate AllFinite(row: CombinedRow)
  {
    row.cape.Finite? && row.r1.Finite? && row.r3.Finite? && row.r5.Finite? && row.r10.Finite?
  }

  function CombinedData(dates: seq<int>, prices: seq<real>, cape: map<int, real>, root: Root): seq<CombinedRow>
    requires |dates| == |prices| && PositivePrices(prices)
  {
    Filter(AlignedRows(dates, prices, cape, root), Complete)
  }

  /** Month i is in the combined table exactly when it has a CAPE and its ten-year window
      ends inside the series (the shorter windows then do too), and every value in the
      table is a number. */
  lemma CombinedDataFacts(dates: seq<int>, prices: seq<real>, cape: map<int, real>, root: Root)
    requires |dates| == |prices| && PositivePrices(prices)
    ensures forall i :: 0 <= i < |dates| ==>
      (AlignedRows(dates, prices, cape, root)[i] in CombinedData(dates, prices, cape, root) <==>
        dates[i] in cape && i + 120 < |prices|)
    ensures forall k :: 0 <= k < |CombinedData(dates, prices, cape, root)| ==>
      AllFinite(CombinedData(dates, prices, cape, root)[k])
  {
    ReturnsWindow(prices, 1, root);
    ReturnsWindow(prices, 3, root);
    ReturnsWindow(prices, 5, root);
    ReturnsWindow(prices, 10, root);
    var rows := AlignedRows(dates, prices, cape, root);
    assert forall i :: 0 <= i < |rows| ==> (Complete(rows[i]) <==> dates[i] in cape && i + 120 < |prices|);
    assert forall i :: 0 <= i < |rows| ==> (Complete(rows[i]) <==> AllFinite(rows[i]));
  }

  // ---------------------------------------------------------------------------
  // Fit statistics

  /** The coefficients `np.polyfit(x, y, 1)` returns, slope first. */
  datatype Line = Line(slope: real, intercept: real)

  /** `np.polyval(z, x)` for a line. */
  function Polyval(z: Line, x: real): real
  {
    z.slope * x + z.intercept
  }

  function Predictions(z: Line, xs: seq<real>): (r: seq<real>)
    ensures |r| == |xs|
  {
    seq(|xs|, i requires 0 <= i < |xs| => Polyval(z, xs[i]))
  }

  function SquaredErrors(actual: seq<real>, predicted: seq<real>): (r: seq<real>)
    requires |actual| == |predicted|
    ensures |r| == |actual|
  {
    seq(|actual|, i requires 0 <= i < |actual| => (actual[i] - predicted[i]) * (actual[i] - predicted[i]))
  }

  /** `np.sum((y - y_pred) ** 2)`. */
  function SsRes(actual: seq<real>, predicted: seq<real>): real
    requires |actual| == |predicted|
  {
    Sum(SquaredErrors(actual, predicted))
  }

  /** The mean repeated once per value: the prediction that ignores x. */
  function MeanLine(actual: seq<real>): (r: seq<real>)
    ensures |r| == |actual|
  {
    if actual == [] then [] else seq(|actual|, _ => Mean(actual).value)
  }

  /** `np.sum((y - y.mean()) ** 2)`, which is 0 for no values. */
  function SsTot(actual: seq<real>): real
  {
    SsRes(actual, MeanLine(actual))
  }

  /** A sum of squared errors is never negative, and it is zero for exact predictions. */
  lemma SsResFacts(actual: seq<real>, predicted: seq<real>)
    requires |actual| == |predicted|
    ensures SsRes(actual, predicted) >= 0.0
    ensures actual == predicted ==> SsRes(actual, predicted) == 0.0
  {
    var e := SquaredErrors(actual, predicted);
    assert forall i :: 0 <= i < |e| ==> e[i] >= 0.0;
    SumOfNonNegatives(e);
    if actual == predicted {
      assert forall i :: 0 <= i < |e| ==> 0.0 <= e[i] <= 0.0;
      SumBounds(e, 0.0, 0.0);
    }
  }

  /** `1 - ss_res / ss_tot`, unguarded: the script divides by zero when every return is
      the same. */
  function RSquared(actual: seq<real>, predicted: seq<real>): real
    requires |actual| == |predicted| && SsTot(actual) != 0.0
  {
    1.0 - SsRes(actual, predicted) / SsTot(actual)
  }

  /** The coefficient of determination is at most 1, and a perfect fit scores 1. */
  lemma RSquaredAtMostOne(actual: seq<real>, predicted: seq<real>)
    requires |actual| == |predicted| && SsTot(actual) != 0.0
    ensures RSquared(actual, predicted) <= 1.0
    ensures actual == predicted ==> RSquared(actual, predicted) == 1.0
  {
    SsResFacts(actual, predicted);
    SsResFacts(actual, MeanLine(actual));
    var res, tot := SsRes(actual, predicted), SsTot(actual);
    assert tot > 0.0;
    QuotientNonNegative(res, tot);
  }

  lemma QuotientNonNegative(a: real, b: real)
    requires a >= 0.0 && b > 0.0
    ensures a / b >= 0.0
  {
  }

  /** Predicting the mean everywhere scores 0. */
  lemma MeanPredictionScoresZero(actual: seq<real>)
    requires SsTot(actual) != 0.0
    ensures RSquared(actual, MeanLine(actual)) == 0.0
  {
  }

  /** `current_cape = 37`. */
  const CurrentCape: real := 37.0

  /** `z[0] * current_cape + z[1]`: the fitted line read at the current CAPE. */
  function PredictedReturn(z: Line): (r: real)
    ensures r == Polyval(z, CurrentCape)
  {
    z.slope * 37.0 + z.intercept
  }

  /** The prediction agrees with the fitted value of any month whose CAPE was 37. */
  lemma PredictionMatchesFit(z: Line, xs: seq<real>, i: nat)
    requires i < |xs| && xs[i] == CurrentCape
    ensures Predictions(z, xs)[i] == PredictedReturn(z)
  {
  }

  /** The columns of a table of numbers. */
  function CapeColumn(rows: seq<CombinedRow>): (r: seq<real>)
    requires forall i :: 0 <= i < |rows| ==> AllFinite(rows[i])
    ensures |r| == |rows|
  {
    seq(|rows|, i requires 0 <= i < |rows| && AllFinite(rows[i]) => rows[i].cape.v)
  }

  function ReturnColumn(rows: seq<CombinedRow>, years: nat): (r: seq<real>)
    requires years in CapeHorizons
    requires forall i :: 0 <= i < |rows| ==> AllFinite(rows[i])
    ensures |r| == |rows|
  {
    seq(|rows|, i requires 0 <= i < |rows| && AllFinite(rows[i]) => ReturnOf(rows[i], years).v)
  }

  /** The horizon loop of `generate_report_data`: for 1, 3, 5 and 10 years, the
      coefficient of determination of that horizon's line against its returns and the
      line's prediction at the current CAPE. */
  method ReportFits(rows: seq<CombinedRow>, z: map<nat, Line>)
    returns (rSquared: map<nat, real>, predicted: map<nat, real>)
    requires forall i :: 0 <= i < |rows| ==> AllFinite(rows[i])
    requires forall y :: y in CapeHorizons ==> y in z && SsTot(ReturnColumn(rows, y)) != 0.0
    ensures forall y :: y in rSquared <==> y in CapeHorizons
    ensures forall y :: y in predicted <==> y in CapeHorizons
    ensures forall y :: y in rSquared && y in CapeHorizons ==>
      rSquared[y] == RSquared(ReturnColumn(rows, y), Predictions(z[y], CapeColumn(rows)))
    ensures forall y :: y in predicted && y in CapeHorizons ==> predicted[y] == PredictedReturn(z[y])
  {
    rSquared, predicted := map[], map[];
    var capes := CapeColumn(rows);
    var k := 0;
    while k < |CapeHorizons|
      invariant 0 <= k <= |CapeHorizons|
      invariant forall y :: y in rSquared <==> y in CapeHorizons[..k]
      invariant forall y :: y in predicted <==> y in CapeHorizons[..k]
      invariant forall y :: y in rSquared && y in CapeHorizons ==>
        rSquared[y] == RSquared(ReturnColumn(rows, y), Predictions(z[y], capes))
      invariant forall y :: y in predicted && y in CapeHorizons ==> predicted[y] == PredictedReturn(z[y])
    {
      var years := CapeHorizons[k];
      var actual := ReturnColumn(rows, years);
      rSquared := rSquared[years := RSquared(actual, Predictions(z[years], capes))];
      predicted := predicted[years := z[years].slope * CurrentCape + z[years].intercept];
      assert CapeHorizons[..k + 1] == CapeHorizons[..k] + [years];
      k := k + 1;
    }
    assert CapeHorizons[..k] == CapeHorizons;
  }
}
