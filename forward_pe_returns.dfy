/** The forward-PE study (sp500_cape_analysis/sp500_forward_pe_returns.py): a forward PE
    series taken from the scraped trailing PE table or, failing that, estimated from
    Shiller's prices and earnings; annualised forward returns of the monthly closes over
    1, 3, 5, 10 and 20 years; the horizons with enough months; and the report's fit
    statistics and low/high-PE return averages. Downloads and parsing are values; the
    n-th root, the expected-earnings estimate, the quartiles and the least-squares fit are
    supplied by the caller. */
module ForwardPeReturns {
  import opened Common
  import Sorting
  import CapeReturns

  /** `current_forward_pe`: the quoted forward PE, or 21.0 when none (or 0) was quoted. */
  function CurrentForwardPe(quoted: Option<real>): (pe: real)
    ensures quoted.Some? && quoted.value != 0.0 ==> pe == quoted.value
    ensures quoted.None? || quoted.value == 0.0 ==> pe == 21.0
  {
    if quoted.None? || quoted.value == 0.0 then 21.0 else quoted.value
  }

  // ---------------------------------------------------------------------------
  // The forward PE series

  /** One month of the PE table: the forward and the trailing PE. */
  datatype PeRow = PeRow(date: int, forwardPe: Float, trailingPe: Float)

  /** One row of the scraped table, when its date and value parse. */
  datatype Point = Point(date: int, pe: real)

  /** The rows whose date and value parsed; the others are skipped. */
  function Parsed(cells: seq<Option<Point>>): (r: seq<Point>)
    ensures |r| <= |cells|
    ensures forall p :: p in r <==> Some(p) in cells
  {
    if cells == [] then []
    else
      var init := Parsed(cells[..|cells| - 1]);
      var last := cells[|cells| - 1];
      assert cells == cells[..|cells| - 1] + [last];
      if last.Some? then init + [last.value] else init
  }

  function PointDate(p: Point): real
  {
    p.date as real
  }

  /** `df['1990':]`: the rows on or after the cutoff. */
  function OnOrAfter(cutoff: int): Point -> bool
  {
    (p: Point) => p.date >= cutoff
  }

  /** The parsed rows in date order (`sort_index`), from the cutoff on. */
  function Recent(points: seq<Point>, cutoff: int): seq<Point>
  {
    Filter(Sorting.SortByKey(points, PointDate, false), OnOrAfter(cutoff))
  }

  /** The recent rows are in date order and are exactly the parsed rows dated on or after
      the cutoff. */
  lemma RecentFacts(points: seq<Point>, cutoff: int)
    ensures forall i, j :: 0 <= i < j < |Recent(points, cutoff)| ==>
      Recent(points, cutoff)[i].date <= Recent(points, cutoff)[j].date
    ensures forall p :: p in Recent(points, cutoff) <==> p in points && p.date >= cutoff
  {
    RecentInDateOrder(points, cutoff);
    RecentMembers(points, cutoff);
  }

  lemma RecentInDateOrder(points: seq<Point>, cutoff: int)
    ensures forall i, j :: 0 <= i < j < |Recent(points, cutoff)| ==>
      Recent(points, cutoff)[i].date <= Recent(points, cutoff)[j].date
  {
    var sorted := Sorting.SortByKey(points, PointDate, false);
    Sorting.FilterKeepsSorted(sorted, OnOrAfter(cutoff), PointDate, false);
    var recent := Filter(sorted, OnOrAfter(cutoff));
    forall i, j | 0 <= i < j < |recent| ensures recent[i].date <= recent[j].date {
      assert Sorting.Precedes(PointDate(recent[i]), PointDate(recent[j]), false);
    }
  }

  lemma RecentMembers(points: seq<Point>, cutoff: int)
    ensures forall p :: p in Recent(points, cutoff) <==> p in points && p.date >= cutoff
  {
    var sorted := Sorting.SortByKey(points, PointDate, false);
    var recent := Filter(sorted, OnOrAfter(cutoff));
    forall p | p in points && p.date >= cutoff ensures p in recent {
      assert p in multiset(points);
      assert p in multiset(sorted);
      var k :| 0 <= k < |sorted| && sorted[k] == p;
      assert OnOrAfter(cutoff)(sorted[k]);
    }
    forall p | p in recent ensures p in points && p.date >= cutoff {
      var k :| 0 <= k < |recent| && recent[k] == p;
      assert recent[k] in sorted && OnOrAfter(cutoff)(recent[k]);
      assert p in multiset(sorted);
    }
  }

  /** The scraped series: the recent rows with the forward PE estimated as 0.9 times the
      trailing PE. */
  function ScrapedPe(points: seq<Point>, cutoff: int): (r: seq<PeRow>)
    ensures |r| == |Recent(points, cutoff)|
  {
    var recent := Recent(points, cutoff);
    seq(|recent|, i requires 0 <= i < |recent| => PeRow(recent[i].date, Finite(0.9 * recent[i].pe), Finite(recent[i].pe)))
  }

  /** Each month of the scraped series is a parsed row dated on or after the cutoff, with
      its value as the trailing PE and a forward PE that is 0.9 of it. */
  lemma ScrapedPeFacts(points: seq<Point>, cutoff: int)
    ensures forall i :: 0 <= i < |ScrapedPe(points, cutoff)| ==>
      ScrapedPe(points, cutoff)[i].date >= cutoff &&
      Point(ScrapedPe(points, cutoff)[i].date, ScrapedPe(points, cutoff)[i].trailingPe.v) in points &&
      ScrapedPe(points, cutoff)[i].trailingPe.Finite? &&
      ScrapedPe(points, cutoff)[i].forwardPe == Finite(0.9 * ScrapedPe(points, cutoff)[i].trailingPe.v)
  {
    var recent := Recent(points, cutoff);
    var r := ScrapedPe(points, cutoff);
    RecentFacts(points, cutoff);
    forall i | 0 <= i < |r|
      ensures r[i].date >= cutoff && Point(r[i].date, r[i].trailingPe.v) in points
      ensures r[i].trailingPe.Finite? && r[i].forwardPe == Finite(0.9 * r[i].trailingPe.v)
    {
      assert r[i] == PeRow(recent[i].date, Finite(0.9 * recent[i].pe), Finite(recent[i].pe));
      assert recent[i] in recent;
    }
  }

  /** The months of the scraped series are in date order. */
  lemma ScrapedPeOrdered(points: seq<Point>, cutoff: int)
    ensures forall i, j :: 0 <= i < j < |ScrapedPe(points, cutoff)| ==>
      ScrapedPe(points, cutoff)[i].date <= ScrapedPe(points, cutoff)[j].date
  {
    var recent := Recent(points, cutoff);
    var r := ScrapedPe(points, cutoff);
    RecentFacts(points, cutoff);
    assert forall i :: 0 <= i < |r| ==> r[i].date == recent[i].date;
  }

  /** A month of Shiller's table: price, earnings and the expected earnings (earnings grown
      by the mean twelve-month growth of the previous year). */
  datatype ShillerRow = ShillerRow(date: int, price: Float, earnings: Float, expectedEarnings: Float)

  function Derived(r: ShillerRow): PeRow
  {
    PeRow(r.date, FDiv(r.price, r.expectedEarnings), FDiv(r.price, r.earnings))
  }

  /** `dropna()`, `df['1990':]` and the strict range `5 < Forward_PE < 60`. */
  predicate Plausible(r: PeRow, cutoff: int)
  {
    !r.forwardPe.NaN? && !r.trailingPe.NaN? && r.date >= cutoff &&
    FGreater(r.forwardPe, 5.0) && FLess(r.forwardPe, 60.0)
  }

  /** `estimate_forward_pe_from_earnings`: price over expected earnings and price over
      earnings, keeping the months in range. */
  function EstimatedPe(rows: seq<ShillerRow>, cutoff: int): seq<PeRow>
  {
    Filter(seq(|rows|, i requires 0 <= i < |rows| => Derived(rows[i])), (r: PeRow) => Plausible(r, cutoff))
  }

  /** Every estimated forward PE is a number strictly between 5 and 60, every trailing PE
      is price over earnings, and a month whose forward PE is exactly 5 or 60 is dropped. */
  lemma EstimatedPeFacts(rows: seq<ShillerRow>, cutoff: int)
    ensures forall r :: r in EstimatedPe(rows, cutoff) ==>
      r.forwardPe.Finite? && 5.0 < r.forwardPe.v < 60.0 && r.date >= cutoff && !r.trailingPe.NaN?
    ensures forall i :: 0 <= i < |rows| ==>
      (Derived(rows[i]) in EstimatedPe(rows, cutoff) <==> Plausible(Derived(rows[i]), cutoff))
    ensures forall r :: r in EstimatedPe(rows, cutoff) ==> EstimatedFrom(rows, r)
  {
    var all := seq(|rows|, i requires 0 <= i < |rows| => Derived(rows[i]));
    assert forall i :: 0 <= i < |rows| ==> all[i] == Derived(rows[i]);
    forall r | r in EstimatedPe(rows, cutoff) ensures EstimatedFrom(rows, r) {
      var i :| 0 <= i < |all| && all[i] == r;
      assert r == Derived(rows[i]);
    }
  }

  /** r is the estimate of one of the Shiller rows: its month, price over expected earnings
      and price over earnings. */
  predicate EstimatedFrom(rows: seq<ShillerRow>, r: PeRow)
  {
    exists i :: 0 <= i < |rows| && r.date == rows[i].date &&
      r.forwardPe == FDiv(rows[i].price, rows[i].expectedEarnings) &&
      r.trailingPe == FDiv(rows[i].price, rows[i].earnings)
  }

  /** `get_forward_pe_data`: the scraped table when one parsed row came back, else the
      estimate from Shiller's data, else failure (the script raises). */
  function ForwardPeData(scraped: Option<seq<Option<Point>>>, shiller: Option<seq<ShillerRow>>, cutoff: int): (r: Option<seq<PeRow>>)
    ensures scraped.Some? && Parsed(scraped.value) != [] ==> r == Some(ScrapedPe(Parsed(scraped.value), cutoff))
    ensures (scraped.None? || Parsed(scraped.value) == []) && shiller.Some? ==> r == Some(EstimatedPe(shiller.value, cutoff))
    ensures r.None? <==> (scraped.None? || Parsed(scraped.value) == []) && shiller.None?
  {
    if scraped.Some? && Parsed(scraped.value) != [] then Some(ScrapedPe(Parsed(scraped.value), cutoff))
    else if shiller.Some? then Some(EstimatedPe(shiller.value, cutoff))
    else None
  }

  // ---------------------------------------------------------------------------
  // Forward returns and the horizons analysed

  /** `calculate_returns`: every month is visited and filled only when its window ends
      inside the series; the result agrees with the CAPE study's loop over the first
      len - 12 * years months. */
  method CalculateReturns(prices: seq<real>, years: nat, root: Root) returns (r: seq<Float>)
    requires CapeReturns.PositivePrices(prices)
    ensures r == CapeReturns.AnnualisedReturns(prices, years, root)
  {
    var scaled := new Float[|prices|](_ => NaN);
    var window := CapeReturns.Window(years);
    for i := 0 to |prices|
      invariant forall j :: 0 <= j < i && j + window < |prices| ==>
        scaled[j] == Finite(CapeReturns.Growth(prices, years, root, j))
      invariant forall j :: 0 <= j < |prices| && (i <= j || j + window >= |prices|) ==> scaled[j] == NaN
    {
      if i + window < |prices| {
        scaled[i] := Finite(root(prices[i + window] / prices[i], years) - 1.0);
      }
    }
    r := seq(|prices|, j requires 0 <= j < |prices| reads scaled => FMul(scaled[j], Finite(100.0)));
    assert forall j :: 0 <= j < |prices| ==> r[j] == CapeReturns.AnnualisedReturns(prices, years, root)[j];
  }

  const ForwardHorizons: seq<nat> := [1, 3, 5, 10, 20]

  /** One month of a horizon's table: its forward PE and its forward return. */
  datatype PeriodRow = PeriodRow(date: int, forwardPe: Float, ret: Float)

  predicate Complete(r: PeriodRow)
  {
    !r.forwardPe.NaN? && !r.ret.NaN?
  }

  /** Some row after row i falls in the same month. */
  predicate DateRepeatsLater(rows: seq<PeRow>, i: nat)
    requires i < |rows|
  {
    exists j :: i < j < |rows| && rows[j].date == rows[i].date
  }

  /** `pe_data['Forward_PE']` keyed by month: a month is present exactly when some row of
      the table has it (its value is the last such row's, by PeSeriesLastWins). */
  function PeSeries(rows: seq<PeRow>): (m: map<int, Float>)
    ensures m.Keys == set r | r in rows :: r.date
  {
    if rows == [] then map[]
    else
      var init := rows[..|rows| - 1];
      assert rows == init + [rows[|rows| - 1]];
      PeSeries(init)[rows[|rows| - 1].date := rows[|rows| - 1].forwardPe]
  }

  /** A month takes the forward PE of the last row that has it. */
  lemma {:induction false} PeSeriesLastWins(rows: seq<PeRow>, i: nat)
    requires i < |rows| && !DateRepeatsLater(rows, i)
    ensures rows[i].date in PeSeries(rows) && PeSeries(rows)[rows[i].date] == rows[i].forwardPe
  {
    if i < |rows| - 1 {
      var init := rows[..|rows| - 1];
      assert init[i] == rows[i];
      assert rows[|rows| - 1].date != rows[i].date;
      forall j | i < j < |init| ensures init[j].date != init[i].date {
        assert init[j] == rows[j];
      }
      PeSeriesLastWins(init, i);
    }
  }

  /** The DataFrame of the forward PE series and one return series at the closes' month
      ends (a month the PE series lacks has a NaN PE), after `dropna()`. */
  function PeriodRows(dates: seq<int>, rets: seq<Float>, pe: map<int, Float>): seq<PeriodRow>
    requires |dates| == |rets|
  {
    Filter(seq(|dates|, i requires 0 <= i < |dates| =>
             PeriodRow(dates[i], if dates[i] in pe then pe[dates[i]] else NaN, rets[i])),
           Complete)
  }

  /** Month i is kept exactly when the PE series has a number for it and its return is
      known; the rows kept keep their PE and return. */
  lemma PeriodRowsFacts(dates: seq<int>, rets: seq<Float>, pe: map<int, Float>)
    requires |dates| == |rets|
    ensures forall i :: 0 <= i < |dates| ==>
      (PeriodRow(dates[i], if dates[i] in pe then pe[dates[i]] else NaN, rets[i]) in PeriodRows(dates, rets, pe) <==>
        dates[i] in pe && !pe[dates[i]].NaN? && !rets[i].NaN?)
    ensures forall r :: r in PeriodRows(dates, rets, pe) ==> Complete(r)
  {
    var all := seq(|dates|, i requires 0 <= i < |dates| =>
                 PeriodRow(dates[i], if dates[i] in pe then pe[dates[i]] else NaN, rets[i]));
    assert forall i :: 0 <= i < |dates| ==>
      all[i] == PeriodRow(dates[i], if dates[i] in pe then pe[dates[i]] else NaN, rets[i]);
  }

  /** The two skips of `main`: fewer than 12 known returns, or fewer than 12 months once
      the PE series is joined. */
  predicate Analysed(dates: seq<int>, prices: seq<real>, pe: map<int, Float>, root: Root, years: nat)
    requires |dates| == |prices| && CapeReturns.PositivePrices(prices)
  {
    CapeReturns.DefinedCount(CapeReturns.AnnualisedReturns(prices, years, root)) >= 12 &&
    |PeriodRows(dates, CapeReturns.AnnualisedReturns(prices, years, root), pe)| >= 12
  }

  /** The first skip happens exactly when the series is shorter than the window plus 12
      months, and a horizon that is analysed has at least 12 joined months. */
  lemma AnalysedIff(dates: seq<int>, prices: seq<real>, pe: map<int, Float>, root: Root, years: nat)
    requires |dates| == |prices| && CapeReturns.PositivePrices(prices)
    ensures CapeReturns.DefinedCount(CapeReturns.AnnualisedReturns(prices, years, root)) >= 12 <==>
      |prices| >= 12 * years + 12
    ensures Analysed(dates, prices, pe, root, years) ==>
      |PeriodRows(dates, CapeReturns.AnnualisedReturns(prices, years, root), pe)| >= 12 &&
      |prices| >= 12 * years + 12
  {
    CapeReturns.ReturnsDefinedCount(prices, years, root);
  }

  /** The horizon loop of `main`: each horizon's table, kept when neither skip applies. */
  method SelectPeriods(dates: seq<int>, prices: seq<real>, pe: map<int, Float>, root: Root)
    returns (combined: map<nat, seq<PeriodRow>>)
    requires |dates| == |prices| && CapeReturns.PositivePrices(prices)
    ensures forall y :: y in combined <==> y in ForwardHorizons && Analysed(dates, prices, pe, root, y)
    ensures forall y :: y in combined ==>
      combined[y] == PeriodRows(dates, CapeReturns.AnnualisedReturns(prices, y, root), pe)
  {
    combined := SelectHorizons(dates, prices, pe, root, ForwardHorizons);
  }

  /** The loop itself, over any list of horizons. */
  method SelectHorizons(dates: seq<int>, prices: seq<real>, pe: map<int, Float>, root: Root, horizons: seq<nat>)
    returns (combined: map<nat, seq<PeriodRow>>)
    requires |dates| == |prices| && CapeReturns.PositivePrices(prices)
    ensures forall y :: y in combined <==> y in horizons && Analysed(dates, prices, pe, root, y)
    ensures forall y :: y in combined ==>
      combined[y] == PeriodRows(dates, CapeReturns.AnnualisedReturns(prices, y, root), pe)
  {
    ghost var keep := (y: nat) => Analysed(dates, prices, pe, root, y);
    ghost var table := (y: nat) => PeriodRows(dates, CapeReturns.AnnualisedReturns(prices, y, root), pe);
    combined := map[];
    var k := 0;
    while k < |horizons|
      invariant 0 <= k <= |horizons|
      invariant forall y :: y in combined <==> y in horizons[..k] && keep(y)
      invariant forall y :: y in combined ==> combined[y] == table(y)
    {
      var years := horizons[k];
      assert horizons[..k + 1] == horizons[..k] + [years];
      var kept := HorizonTable(dates, prices, pe, root, years);
      KeyedStep(combined, horizons[..k], keep, table, years, kept);
      if kept.Some? {
        combined := combined[years := kept.value];
      }
      k := k + 1;
    }
    assert horizons[..k] == horizons;
  }

  /** One more key: a map holding table(y) for exactly the kept keys seen so far stays so
      when the next key's entry is added exactly when that key is kept. */
  lemma KeyedStep<K, V>(m: map<K, V>, seen: seq<K>, keep: K -> bool, table: K -> V, x: K, kept: Option<V>)
    requires forall y :: y in m <==> y in seen && keep(y)
    requires forall y :: y in m ==> m[y] == table(y)
    requires kept.Some? <==> keep(x)
    requires kept.Some? ==> kept.value == table(x)
    ensures forall y :: y in (if kept.Some? then m[x := kept.value] else m) <==> y in seen + [x] && keep(y)
    ensures forall y :: y in (if kept.Some? then m[x := kept.value] else m) ==>
      (if kept.Some? then m[x := kept.value] else m)[y] == table(y)
  {
  }

  /** One pass of the horizon loop: the joined table of one horizon, or None when one of
      the two skips applies. */
  method HorizonTable(dates: seq<int>, prices: seq<real>, pe: map<int, Float>, root: Root, years: nat)
    returns (kept: Option<seq<PeriodRow>>)
    requires |dates| == |prices| && CapeReturns.PositivePrices(prices)
    ensures kept.Some? <==> Analysed(dates, prices, pe, root, years)
    ensures kept.Some? ==> kept.value == PeriodRows(dates, CapeReturns.AnnualisedReturns(prices, years, root), pe)
  {
    var rets := CalculateReturns(prices, years, root);
    var valid := CapeReturns.DefinedCount(rets);
    kept := None;
    if valid >= 12 {
      var period := PeriodRows(dates, rets, pe);
      if |period| >= 12 {
        kept := Some(period);
      }
    }
  }

  // ---------------------------------------------------------------------------
  // Report statistics

  /** The rows of a joined table all hold numbers. */
  predicate Known(rows: seq<PeriodRow>)
  {
    forall r :: r in rows ==> r.forwardPe.Finite? && r.ret.Finite?
  }

  function PeColumn(rows: seq<PeriodRow>): (r: seq<real>)
    requires Known(rows)
    ensures |r| == |rows|
  {
    seq(|rows|, i requires 0 <= i < |rows| => rows[i].forwardPe.v)
  }

  function ReturnColumn(rows: seq<PeriodRow>): (r: seq<real>)
    requires Known(rows)
    ensures |r| == |rows|
  {
    seq(|rows|, i requires 0 <= i < |rows| => rows[i].ret.v)
  }

  /** `1 - ss_res / ss_tot if ss_tot > 0 else 0`. */
  function RSquaredGuarded(actual: seq<real>, predicted: seq<real>): real
    requires |actual| == |predicted|
  {
    if CapeReturns.SsTot(actual) > 0.0 then 1.0 - CapeReturns.SsRes(actual, predicted) / CapeReturns.SsTot(actual)
    else 0.0
  }

  /** The guard only catches a zero total sum of squares: otherwise the value is the
      unguarded coefficient, at most 1 and 1 for a perfect fit; and returns that never
      vary score 0. */
  lemma RSquaredGuardedFacts(actual: seq<real>, predicted: seq<real>)
    requires |actual| == |predicted|
    ensures CapeReturns.SsTot(actual) != 0.0 ==>
      RSquaredGuarded(actual, predicted) == CapeReturns.RSquared(actual, predicted)
    ensures CapeReturns.SsTot(actual) == 0.0 ==> RSquaredGuarded(actual, predicted) == 0.0
    ensures RSquaredGuarded(actual, predicted) <= 1.0
    ensures CapeReturns.SsTot(actual) != 0.0 && actual == predicted ==> RSquaredGuarded(actual, predicted) == 1.0
  {
    CapeReturns.SsResFacts(actual, CapeReturns.MeanLine(actual));
    if CapeReturns.SsTot(actual) != 0.0 {
      CapeReturns.RSquaredAtMostOne(actual, predicted);
    }
  }

  /** Returns that are all the same have no spread, so the guarded coefficient is 0. */
  lemma ConstantReturnsScoreZero(actual: seq<real>, predicted: seq<real>)
    requires |actual| == |predicted|
    requires forall i :: 0 <= i < |actual| ==> actual[i] == actual[0]
    ensures CapeReturns.SsTot(actual) == 0.0
    ensures RSquaredGuarded(actual, predicted) == 0.0
  {
    if actual != [] {
      var c := actual[0];
      SumBounds(actual, c, c);
      MeanOfConstant(actual, c);
      assert CapeReturns.MeanLine(actual) == actual;
      CapeReturns.SsResFacts(actual, actual);
    }
  }

  lemma MeanOfConstant(s: seq<real>, c: real)
    requires s != [] && Sum(s) == (|s| as real) * c
    ensures Mean(s).value == c
  {
    var n := |s| as real;
    assert Mean(s).value == (n * c) / n;
  }

  /** The first horizon loop of `generate_report_data`: for each analysed horizon, the
      guarded coefficient of determination of its line and the line's prediction at the
      current forward PE; horizons that were skipped get neither. */
  method FitStatistics(combined: map<nat, seq<PeriodRow>>, z: map<nat, CapeReturns.Line>, currentPe: real)
    returns (rSquared: map<nat, real>, predicted: map<nat, real>)
    requires forall y :: y in combined ==> y in z && Known(combined[y])
    ensures forall y :: y in rSquared <==> y in ForwardHorizons && y in combined
    ensures forall y :: y in predicted <==> y in ForwardHorizons && y in combined
    ensures forall y :: y in rSquared ==>
      rSquared[y] == RSquaredGuarded(ReturnColumn(combined[y]), CapeReturns.Predictions(z[y], PeColumn(combined[y])))
    ensures forall y :: y in predicted ==> predicted[y] == CapeReturns.Polyval(z[y], currentPe)
  {
    rSquared, predicted := map[], map[];
    var k := 0;
    while k < |ForwardHorizons|
      invariant 0 <= k <= |ForwardHorizons|
      invariant forall y :: y in rSquared <==> y in ForwardHorizons[..k] && y in combined
      invariant forall y :: y in predicted <==> y in ForwardHorizons[..k] && y in combined
      invariant forall y :: y in rSquared ==>
        y in combined &&
        rSquared[y] == RSquaredGuarded(ReturnColumn(combined[y]), CapeReturns.Predictions(z[y], PeColumn(combined[y])))
      invariant forall y :: y in predicted ==> y in combined && predicted[y] == CapeReturns.Polyval(z[y], currentPe)
    {
      var years := ForwardHorizons[k];
      assert ForwardHorizons[..k + 1] == ForwardHorizons[..k] + [years];
      if years in combined {
        var period := combined[years];
        var actual := ReturnColumn(period);
        var fitted := CapeReturns.Predictions(z[years], PeColumn(period));
        var ssRes := CapeReturns.SsRes(actual, fitted);
        var ssTot := CapeReturns.SsTot(actual);
        rSquared := rSquared[years := if ssTot > 0.0 then 1.0 - ssRes / ssTot else 0.0];
        predicted := predicted[years := CapeReturns.Polyval(z[years], currentPe)];
      }
      k := k + 1;
    }
    assert ForwardHorizons[..k] == ForwardHorizons;
  }

  const BandHorizons: seq<nat> := [5, 10, 20]

  /** The average returns below the low and above the high PE quartile, and their gap. */
  datatype BandReturns = BandReturns(low: real, high: real, diff: real)

  function LowRows(rows: seq<PeriodRow>, peLow: real): seq<PeriodRow>
  {
    Filter(rows, (r: PeriodRow) => FLess(r.forwardPe, peLow))
  }

  function HighRows(rows: seq<PeriodRow>, peHigh: real): seq<PeriodRow>
  {
    Filter(rows, (r: PeriodRow) => FGreater(r.forwardPe, peHigh))
  }

  /** Average return of the rows below the low quartile and above the high one; a band with
      no rows has a NaN mean, reported as 0, and the gap is 0 unless both bands have rows. */
  function PeBands(rows: seq<PeriodRow>, peLow: real, peHigh: real): BandReturns
    requires Known(rows)
  {
    var low := Mean(ReturnColumn(LowRows(rows, peLow)));
    var high := Mean(ReturnColumn(HighRows(rows, peHigh)));
    BandReturns(if low.None? then 0.0 else low.value,
                if high.None? then 0.0 else high.value,
                if low.Some? && high.Some? then low.value - high.value else 0.0)
  }

  /** The bands are strict (a PE equal to a quartile is in neither); an empty band reports
      0 and zeroes the gap; otherwise a band's value is the mean of its returns, between
      their least and greatest, and the gap is low minus high. */
  lemma PeBandsFacts(rows: seq<PeriodRow>, peLow: real, peHigh: real)
    requires Known(rows)
    ensures forall r :: r in LowRows(rows, peLow) ==> r.forwardPe.v < peLow
    ensures forall r :: r in HighRows(rows, peHigh) ==> r.forwardPe.v > peHigh
    ensures LowRows(rows, peLow) == [] ==> PeBands(rows, peLow, peHigh).low == 0.0 && PeBands(rows, peLow, peHigh).diff == 0.0
    ensures HighRows(rows, peHigh) == [] ==> PeBands(rows, peLow, peHigh).high == 0.0 && PeBands(rows, peLow, peHigh).diff == 0.0
    ensures LowRows(rows, peLow) != [] ==>
      PeBands(rows, peLow, peHigh).low == Mean(ReturnColumn(LowRows(rows, peLow))).value &&
      SeqMin(ReturnColumn(LowRows(rows, peLow))) <= PeBands(rows, peLow, peHigh).low <= SeqMax(ReturnColumn(LowRows(rows, peLow)))
    ensures HighRows(rows, peHigh) != [] ==>
      PeBands(rows, peLow, peHigh).high == Mean(ReturnColumn(HighRows(rows, peHigh))).value &&
      SeqMin(ReturnColumn(HighRows(rows, peHigh))) <= PeBands(rows, peLow, peHigh).high <= SeqMax(ReturnColumn(HighRows(rows, peHigh)))
    ensures LowRows(rows, peLow) != [] && HighRows(rows, peHigh) != [] ==>
      PeBands(rows, peLow, peHigh).diff == PeBands(rows, peLow, peHigh).low - PeBands(rows, peLow, peHigh).high
  {
    PeBandsStrict(rows, peLow, peHigh);
    PeBandsValues(rows, peLow, peHigh);
  }

  lemma PeBandsStrict(rows: seq<PeriodRow>, peLow: real, peHigh: real)
    requires Known(rows)
    ensures forall r :: r in LowRows(rows, peLow) ==> r.forwardPe.v < peLow
    ensures forall r :: r in HighRows(rows, peHigh) ==> r.forwardPe.v > peHigh
  {
  }

  lemma PeBandsValues(rows: seq<PeriodRow>, peLow: real, peHigh: real)
    requires Known(rows)
    ensures LowRows(rows, peLow) == [] ==> PeBands(rows, peLow, peHigh).low == 0.0 && PeBands(rows, peLow, peHigh).diff == 0.0
    ensures HighRows(rows, peHigh) == [] ==> PeBands(rows, peLow, peHigh).high == 0.0 && PeBands(rows, peLow, peHigh).diff == 0.0
    ensures LowRows(rows, peLow) != [] ==>
      PeBands(rows, peLow, peHigh).low == Mean(ReturnColumn(LowRows(rows, peLow))).value &&
      SeqMin(ReturnColumn(LowRows(rows, peLow))) <= PeBands(rows, peLow, peHigh).low <= SeqMax(ReturnColumn(LowRows(rows, peLow)))
    ensures HighRows(rows, peHigh) != [] ==>
      PeBands(rows, peLow, peHigh).high == Mean(ReturnColumn(HighRows(rows, peHigh))).value &&
      SeqMin(ReturnColumn(HighRows(rows, peHigh))) <= PeBands(rows, peLow, peHigh).high <= SeqMax(ReturnColumn(HighRows(rows, peHigh)))
    ensures LowRows(rows, peLow) != [] && HighRows(rows, peHigh) != [] ==>
      PeBands(rows, peLow, peHigh).diff == PeBands(rows, peLow, peHigh).low - PeBands(rows, peLow, peHigh).high
  {
    var lows, highs := ReturnColumn(LowRows(rows, peLow)), ReturnColumn(HighRows(rows, peHigh));
    if lows != [] {
      MeanWithinRange(lows);
    }
    if highs != [] {
      MeanWithinRange(highs);
    }
  }

  /** The second horizon loop of `generate_report_data`: the band returns of the 5, 10 and
      20 year horizons that were analysed. */
  method PeBandReturns(combined: map<nat, seq<PeriodRow>>, peLow: real, peHigh: real)
    returns (bands: map<nat, BandReturns>)
    requires forall y :: y in combined ==> Known(combined[y])
    ensures forall y :: y in bands <==> y in BandHorizons && y in combined
    ensures forall y :: y in bands ==> y in combined && bands[y] == PeBands(combined[y], peLow, peHigh)
  {
    bands := map[];
    var k := 0;
    while k < |BandHorizons|
      invariant 0 <= k <= |BandHorizons|
      invariant forall y :: y in bands <==> y in BandHorizons[..k] && y in combined
      invariant forall y :: y in bands ==> y in combined && bands[y] == PeBands(combined[y], peLow, peHigh)
    {
      var years := BandHorizons[k];
      assert BandHorizons[..k + 1] == BandHorizons[..k] + [years];
      if years in combined {
        bands := bands[years := PeBands(combined[years], peLow, peHigh)];
      }
      k := k + 1;
    }
    assert BandHorizons[..k] == BandHorizons;
  }
}
