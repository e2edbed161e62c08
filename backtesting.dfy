/** The index backtest (backtesting/analyze.py): for every trading day it asks what a
    lump sum, or a 100000 dollar purchase every 22 trading days, was worth N years later.
    Dates are day numbers; adding N calendar years is the caller's `Calendar`, and the N-th
    root of the annualised yield is the caller's `Root`. */
module Backtesting {
  import opened Common

  const Dca: real := 100000.0
  const Total: real := 1000000.0

  /** A trading day: its date, its day of the month and its closing price. */
  datatype Row = Row(date: int, day: nat, close: real)

  /** `date + pd.DateOffset(years=n)`. */
  type Calendar = (int, nat) -> int

  predicate PositiveCloses(rows: seq<Row>)
  {
    forall i :: 0 <= i < |rows| ==> rows[i].close > 0.0
  }

  /** `is_dca_date`: the 15th, or a day before it whose next trading day is past it. */
  function IsDcaDate(day: nat, index: nat, rows: seq<Row>): bool
  {
    if day == 15 then true
    else if day > 15 then false
    else index + 1 < |rows| && rows[index + 1].day > 15
  }

  /** A day is a purchase day exactly when it is the 15th or it is the last trading day
      before the 15th is passed; the last row with a day before the 15th never is. */
  lemma IsDcaDateIff(day: nat, index: nat, rows: seq<Row>)
    ensures IsDcaDate(day, index, rows) <==>
      day == 15 || (day < 15 && index + 1 < |rows| && rows[index + 1].day > 15)
    ensures day != 15 && index + 1 >= |rows| ==> !IsDcaDate(day, index, rows)
  {
  }

  /** Rows i through j lie in one month: their days of the month strictly increase. */
  predicate SameMonthRun(rows: seq<Row>, i: nat, j: nat)
    requires i <= j < |rows|
  {
    forall k :: i <= k < j ==> rows[k].day < rows[k + 1].day
  }

  lemma {:induction false} DaysRise(rows: seq<Row>, i: nat, a: nat, j: nat)
    requires i <= a <= j < |rows| && SameMonthRun(rows, i, j)
    ensures rows[a].day <= rows[j].day
    decreases j - a
  {
    if a < j {
      DaysRise(rows, i, a + 1, j);
    }
  }

  /** The rule buys at most once a month: among the trading days of one month,
      no two are purchase days. */
  lemma AtMostOneDcaDatePerMonth(rows: seq<Row>, i: nat, j: nat)
    requires i < j < |rows| && SameMonthRun(rows, i, j)
    ensures !(IsDcaDate(rows[i].day, i, rows) && IsDcaDate(rows[j].day, j, rows))
  {
    if IsDcaDate(rows[i].day, i, rows) {
      assert rows[i + 1].day > 15;
      DaysRise(rows, i, i + 1, j);
    }
  }

  /** `compute_avg_yield`: the annualised return in percent. */
  function AvgYield(invested: real, value: real, years: nat, root: Root): real
    requires invested != 0.0
  {
    (root(value / invested, years) - 1.0) * 100.0
  }

  /** With an N-th root that maps 1 to 1, breaking even earns nothing a year. */
  lemma AvgYieldBreakEven(invested: real, years: nat, root: Root)
    requires invested != 0.0 && root(1.0, years) == 1.0
    ensures AvgYield(invested, invested, years, root) == 0.0
  {
    assert invested / invested == 1.0;
  }

  /** Over one year the root is the identity, and the yield is the plain percentage gain. */
  lemma AvgYieldOneYear(invested: real, value: real, root: Root)
    requires invested != 0.0 && forall x :: root(x, 1) == x
    ensures AvgYield(invested, value, 1, root) == (value / invested - 1.0) * 100.0
  {
  }

  /** With an N-th root that never decreases, a larger final value never gives a smaller
      average yield on the same investment. */
  lemma AvgYieldMonotone(invested: real, v1: real, v2: real, years: nat, root: Root)
    requires invested > 0.0 && 0.0 <= v1 <= v2
    requires forall x: real, y: real :: 0.0 <= x <= y ==> root(x, years) <= root(y, years)
    ensures AvgYield(invested, v1, years, root) <= AvgYield(invested, v2, years, root)
  {
    assert 0.0 <= v1 / invested <= v2 / invested by {
      assert v1 / invested == v1 * (1.0 / invested) && v2 / invested == v2 * (1.0 / invested);
    }
  }

  // ---------------------------------------------------------------------------
  // The end row

  /** The first row at or after `from` dated strictly after `end`. */
  function FirstAfter(rows: seq<Row>, end: int, from: nat): (r: Option<nat>)
    decreases |rows| - from
  {
    if from >= |rows| then None
    else if rows[from].date > end then Some(from)
    else FirstAfter(rows, end, from + 1)
  }

  /** `df.loc[df['Date'] > end_date].iloc[0]`: the first row of the whole table dated
      after the end date, or None when there is none. */
  function EndRow(rows: seq<Row>, end: int): Option<nat>
  {
    FirstAfter(rows, end, 0)
  }

  lemma {:induction false} FirstAfterFacts(rows: seq<Row>, end: int, from: nat)
    ensures FirstAfter(rows, end, from).Some? ==>
      var j := FirstAfter(rows, end, from).value;
      from <= j < |rows| && rows[j].date > end && forall i :: from <= i < j ==> rows[i].date <= end
    ensures FirstAfter(rows, end, from).None? <==> forall i :: from <= i < |rows| ==> rows[i].date <= end
    decreases |rows| - from
  {
    if from < |rows| && rows[from].date <= end {
      FirstAfterFacts(rows, end, from + 1);
    }
  }

  /** The end row is dated after the end date and no earlier row is; there is none
      exactly when no row is dated after it. */
  lemma EndRowFacts(rows: seq<Row>, end: int)
    ensures EndRow(rows, end).Some? ==>
      var j := EndRow(rows, end).value;
      j < |rows| && rows[j].date > end && forall i :: 0 <= i < j ==> rows[i].date <= end
    ensures EndRow(rows, end).None? <==> forall i :: 0 <= i < |rows| ==> rows[i].date <= end
  {
    FirstAfterFacts(rows, end, 0);
  }

  /** Both simulations stop at the first start day without an end row. */
  function StopFrom(rows: seq<Row>, years: nat, calendar: Calendar, k: nat): (r: nat)
    ensures k <= |rows| ==> k <= r <= |rows|
    decreases |rows| - k
  {
    if k >= |rows| then |rows|
    else if EndRow(rows, calendar(rows[k].date, years)).None? then k
    else StopFrom(rows, years, calendar, k + 1)
  }

  lemma {:induction false} StopFromFacts(rows: seq<Row>, years: nat, calendar: Calendar, k: nat)
    requires k <= |rows|
    ensures forall i :: k <= i < StopFrom(rows, years, calendar, k) ==>
      EndRow(rows, calendar(rows[i].date, years)).Some?
    ensures StopFrom(rows, years, calendar, k) < |rows| ==>
      EndRow(rows, calendar(rows[StopFrom(rows, years, calendar, k)].date, years)).None?
    decreases |rows| - k
  {
    if k < |rows| && EndRow(rows, calendar(rows[k].date, years)).Some? {
      StopFromFacts(rows, years, calendar, k + 1);
    }
  }

  /** A result row before the grouping by year. */
  datatype Outcome = Outcome(date: int, ratio: real, avgYield: real)

  // ---------------------------------------------------------------------------
  // Lump sum

  /** The lump sum bought on start day k and valued at its end row. */
  function LsOutcome(rows: seq<Row>, k: nat, years: nat, calendar: Calendar, root: Root): Outcome
    requires k < |rows| && PositiveCloses(rows)
    requires EndRow(rows, calendar(rows[k].date, years)).Some?
  {
    var end := EndRow(rows, calendar(rows[k].date, years)).value;
    EndRowFacts(rows, calendar(rows[k].date, years));
    var total := Total / rows[k].close * rows[end].close;
    Outcome(rows[k].date, total / Total, AvgYield(Total, total, years, root))
  }

  /** The lump sum's yield is the end close over the start close, whatever the sum. */
  lemma LsYieldIsPriceRatio(rows: seq<Row>, k: nat, years: nat, calendar: Calendar, root: Root)
    requires k < |rows| && PositiveCloses(rows)
    requires EndRow(rows, calendar(rows[k].date, years)).Some?
    ensures var end := EndRow(rows, calendar(rows[k].date, years)).value;
      end < |rows| && LsOutcome(rows, k, years, calendar, root).ratio == rows[end].close / rows[k].close
  {
    EndRowFacts(rows, calendar(rows[k].date, years));
    var end := EndRow(rows, calendar(rows[k].date, years)).value;
    var a, b := rows[k].close, rows[end].close;
    assert Total / a * b / Total == b / a;
  }

  /** The outcome of start day k, given its end row and the final value of the sum. */
  lemma LsOutcomeOf(rows: seq<Row>, k: nat, years: nat, calendar: Calendar, root: Root, end: nat, total: real)
    requires k < |rows| && PositiveCloses(rows)
    requires EndRow(rows, calendar(rows[k].date, years)) == Some(end)
    requires end < |rows| && total == Total / rows[k].close * rows[end].close
    ensures LsOutcome(rows, k, years, calendar, root) == Outcome(rows[k].date, total / Total, AvgYield(Total, total, years, root))
  {
    var o := LsOutcome(rows, k, years, calendar, root);
    assert o.date == rows[k].date;
    assert o.ratio == total / Total;
    assert o.avgYield == AvgYield(Total, total, years, root);
  }

  /** The outcomes of the first k start days. */
  function LsPrefix(rows: seq<Row>, years: nat, calendar: Calendar, root: Root, k: nat): seq<Outcome>
    requires PositiveCloses(rows) && k <= StopFrom(rows, years, calendar, 0)
  {
    StopFromFacts(rows, years, calendar, 0);
    if k == 0 then [] else LsPrefix(rows, years, calendar, root, k - 1) + [LsOutcome(rows, k - 1, years, calendar, root)]
  }

  /** `simulate_ls` before the grouping: one outcome per start day up to the first one
      without an end row. */
  function LsOutcomes(rows: seq<Row>, years: nat, calendar: Calendar, root: Root): seq<Outcome>
    requires PositiveCloses(rows)
  {
    LsPrefix(rows, years, calendar, root, StopFrom(rows, years, calendar, 0))
  }

  lemma {:induction false} LsPrefixFacts(rows: seq<Row>, years: nat, calendar: Calendar, root: Root, k: nat)
    requires PositiveCloses(rows) && k <= StopFrom(rows, years, calendar, 0)
    ensures |LsPrefix(rows, years, calendar, root, k)| == k
    ensures forall i :: 0 <= i < k ==> LsPrefix(rows, years, calendar, root, k)[i].date == rows[i].date
  {
    if k > 0 {
      LsPrefixFacts(rows, years, calendar, root, k - 1);
    }
  }

  /** One outcome per start day, in order, for exactly the days before the first one with
      no row N years on. */
  lemma LsOutcomesFacts(rows: seq<Row>, years: nat, calendar: Calendar, root: Root)
    requires PositiveCloses(rows)
    ensures var n := StopFrom(rows, years, calendar, 0);
      |LsOutcomes(rows, years, calendar, root)| == n &&
      (forall i :: 0 <= i < n ==> LsOutcomes(rows, years, calendar, root)[i].date == rows[i].date) &&
      (n < |rows| ==> EndRow(rows, calendar(rows[n].date, years)).None?)
  {
    LsPrefixFacts(rows, years, calendar, root, StopFrom(rows, years, calendar, 0));
    StopFromFacts(rows, years, calendar, 0);
  }

  /** `simulate_ls`, up to the grouping by year. */
  method SimulateLs(rows: seq<Row>, years: nat, calendar: Calendar, root: Root) returns (result: seq<Outcome>)
    requires PositiveCloses(rows)
    ensures result == LsOutcomes(rows, years, calendar, root)
  {
    result := [];
    var k := 0;
    while k < |rows|
      invariant 0 <= k <= StopFrom(rows, years, calendar, 0)
      invariant StopFrom(rows, years, calendar, 0) == StopFrom(rows, years, calendar, k)
      invariant result == LsPrefix(rows, years, calendar, root, k)
    {
      var endDate := calendar(rows[k].date, years);
      var end := EndRow(rows, endDate);
      if end.None? {
        break;
      }
      EndRowFacts(rows, endDate);
      assert StopFrom(rows, years, calendar, k) == StopFrom(rows, years, calendar, k + 1);
      var numShares := Total / rows[k].close;
      var total := numShares * rows[end.value].close;
      LsOutcomeOf(rows, k, years, calendar, root, end.value, total);
      result := result + [Outcome(rows[k].date, total / Total, AvgYield(Total, total, years, root))];
      assert result == LsPrefix(rows, years, calendar, root, k + 1);
      k := k + 1;
    }
  }

  // ---------------------------------------------------------------------------
  // Dollar-cost averaging

  /** The purchase days from `from` on: every 22nd row, up to and including the first one
      dated after the end date. */
  function Purchases(rows: seq<Row>, end: int, from: nat): seq<nat>
    decreases |rows| - from
  {
    if from >= |rows| then []
    else if rows[from].date > end then [from]
    else [from] + Purchases(rows, end, from + 22)
  }

  /** The purchases are rows `from`, `from` + 22, ...; all but the last are dated on or
      before the end date, and the schedule stops only at a purchase after it or at the
      end of the table. */
  lemma {:induction false} PurchasesSchedule(rows: seq<Row>, end: int, from: nat)
    ensures var ps := Purchases(rows, end, from);
      (ps == [] <==> from >= |rows|) &&
      (forall k :: 0 <= k < |ps| ==> ps[k] == from + 22 * k && ps[k] < |rows|) &&
      (forall k :: 0 <= k < |ps| - 1 ==> rows[ps[k]].date <= end)
    ensures var ps := Purchases(rows, end, from);
      ps != [] ==> rows[ps[|ps| - 1]].date > end || ps[|ps| - 1] + 22 >= |rows|
    decreases |rows| - from
  {
    if from < |rows| && rows[from].date <= end {
      PurchasesSchedule(rows, end, from + 22);
      var rest := Purchases(rows, end, from + 22);
      var ps := [from] + rest;
      forall k | 0 <= k < |ps| ensures ps[k] == from + 22 * k {
        if k > 0 {
          assert ps[k] == rest[k - 1];
        }
      }
      forall k | 0 <= k < |ps| - 1 ensures rows[ps[k]].date <= end {
        if k > 0 {
          assert ps[k] == rest[k - 1];
        }
      }
    }
  }

  predicate Indices(rows: seq<Row>, ps: seq<nat>)
  {
    forall k :: 0 <= k < |ps| ==> ps[k] < |rows|
  }

  lemma PurchasesAreIndices(rows: seq<Row>, end: int, from: nat)
    ensures Indices(rows, Purchases(rows, end, from))
  {
    PurchasesSchedule(rows, end, from);
  }

  /** The shares the purchases buy. */
  function SharesOf(rows: seq<Row>, ps: seq<nat>): real
    requires Indices(rows, ps) && PositiveCloses(rows)
  {
    if ps == [] then 0.0 else Dca / rows[ps[0]].close + SharesOf(rows, ps[1..])
  }

  /** What each purchase multiplied by, summed: end close over purchase close. */
  function RatioSum(rows: seq<Row>, ps: seq<nat>, endClose: real): real
    requires Indices(rows, ps) && PositiveCloses(rows)
  {
    if ps == [] then 0.0 else endClose / rows[ps[0]].close + RatioSum(rows, ps[1..], endClose)
  }

  lemma {:induction false} SharesScale(rows: seq<Row>, ps: seq<nat>, endClose: real)
    requires Indices(rows, ps) && PositiveCloses(rows)
    ensures SharesOf(rows, ps) * endClose == Dca * RatioSum(rows, ps, endClose)
  {
    if ps != [] {
      SharesScale(rows, ps[1..], endClose);
      var c := rows[ps[0]].close;
      assert Dca / c * endClose == Dca * (endClose / c);
    }
  }

  /** The shares' value at the end close over the sum invested. */
  function DcaRatio(rows: seq<Row>, ps: seq<nat>, endClose: real): real
    requires Indices(rows, ps) && PositiveCloses(rows) && ps != []
  {
    SharesOf(rows, ps) * endClose / Invested(|ps|)
  }

  /** The annualised return of the purchases valued at the end close. */
  function DcaAvgYield(rows: seq<Row>, ps: seq<nat>, endClose: real, years: nat, root: Root): real
    requires Indices(rows, ps) && PositiveCloses(rows) && ps != []
  {
    AvgYield(Invested(|ps|), SharesOf(rows, ps) * endClose, years, root)
  }

  /** What n purchases cost: nothing exactly when there are none. */
  function Invested(n: nat): (r: real)
    ensures r == 0.0 <==> n == 0
  {
    Dca * (n as real)
  }

  /** Each purchase adds the fixed amount. */
  lemma InvestedStep(n: nat)
    ensures Invested(n + 1) == Invested(n) + Dca
  {
  }

  /** What starting on day k gives, with its end date and end row: None when nothing was
      invested (no row follows day k), else the value of the shares at the end row over
      the sum invested. */
  function DcaOutcomeAt(rows: seq<Row>, k: nat, endDate: int, end: nat, years: nat, root: Root): Option<Outcome>
    requires k < |rows| && end < |rows| && PositiveCloses(rows)
  {
    var ps := Purchases(rows, endDate, k + 1);
    PurchasesAreIndices(rows, endDate, k + 1);
    if ps == [] then None
    else Some(Outcome(rows[k].date, DcaRatio(rows, ps, rows[end].close), DcaAvgYield(rows, ps, rows[end].close, years, root)))
  }

  function DcaOutcome(rows: seq<Row>, k: nat, years: nat, calendar: Calendar, root: Root): Option<Outcome>
    requires k < |rows| && PositiveCloses(rows)
    requires EndRow(rows, calendar(rows[k].date, years)).Some?
  {
    var endDate := calendar(rows[k].date, years);
    EndRowFacts(rows, endDate);
    DcaOutcomeAt(rows, k, endDate, EndRow(rows, endDate).value, years, root)
  }

  /** A start day yields an outcome exactly when a row follows it. */
  lemma DcaOutcomeExists(rows: seq<Row>, k: nat, years: nat, calendar: Calendar, root: Root)
    requires k < |rows| && PositiveCloses(rows)
    requires EndRow(rows, calendar(rows[k].date, years)).Some?
    ensures DcaOutcome(rows, k, years, calendar, root).Some? <==> k + 1 < |rows|
  {
    var endDate := calendar(rows[k].date, years);
    PurchasesSchedule(rows, endDate, k + 1);
  }

  /** The shares' value over the sum invested is the mean ratio of end close to purchase
      close. */
  lemma ValueOverInvested(rows: seq<Row>, ps: seq<nat>, e: real)
    requires Indices(rows, ps) && PositiveCloses(rows) && ps != []
    ensures DcaRatio(rows, ps, e) == RatioSum(rows, ps, e) / (|ps| as real)
  {
    SharesScale(rows, ps, e);
    var sum, m := RatioSum(rows, ps, e), |ps| as real;
    assert Invested(|ps|) == Dca * m;
    CancelFactor(Dca, sum, m);
  }

  lemma CancelFactor(d: real, a: real, m: real)
    requires d != 0.0 && m != 0.0
    ensures d * a / (d * m) == a / m
  {
  }

  /** The outcome's yield is the mean, over the purchases, of the end close over the
      purchase close. */
  lemma DcaYieldIsMeanRatio(rows: seq<Row>, k: nat, years: nat, calendar: Calendar, root: Root)
    requires k < |rows| && PositiveCloses(rows)
    requires EndRow(rows, calendar(rows[k].date, years)).Some?
    ensures var endDate := calendar(rows[k].date, years);
      var ps := Purchases(rows, endDate, k + 1);
      var end := EndRow(rows, endDate).value;
      DcaOutcome(rows, k, years, calendar, root).Some? ==>
        Indices(rows, ps) && end < |rows| && ps != [] &&
        DcaOutcome(rows, k, years, calendar, root).value.ratio == RatioSum(rows, ps, rows[end].close) / (|ps| as real)
  {
    var endDate := calendar(rows[k].date, years);
    EndRowFacts(rows, endDate);
    var end := EndRow(rows, endDate).value;
    var ps := Purchases(rows, endDate, k + 1);
    PurchasesAreIndices(rows, endDate, k + 1);
    assert DcaOutcome(rows, k, years, calendar, root) == DcaOutcomeAt(rows, k, endDate, end, years, root);
    if ps != [] {
      ValueOverInvested(rows, ps, rows[end].close);
    }
  }

  function DcaPrefix(rows: seq<Row>, years: nat, calendar: Calendar, root: Root, k: nat): seq<Outcome>
    requires PositiveCloses(rows) && k <= StopFrom(rows, years, calendar, 0)
  {
    StopFromFacts(rows, years, calendar, 0);
    if k == 0 then []
    else
      var o := DcaOutcome(rows, k - 1, years, calendar, root);
      DcaPrefix(rows, years, calendar, root, k - 1) + (if o.Some? then [o.value] else [])
  }

  /** `simulate_dca` before the grouping: the outcome of every start day that invested,
      up to the first start day without an end row. */
  function DcaOutcomes(rows: seq<Row>, years: nat, calendar: Calendar, root: Root): seq<Outcome>
    requires PositiveCloses(rows)
  {
    DcaPrefix(rows, years, calendar, root, StopFrom(rows, years, calendar, 0))
  }

  /** Only the last row can fail to invest, so the outcomes are one per start day before
      the stop, except that a stop at the end of the table drops the last one. */
  lemma {:induction false} DcaPrefixLength(rows: seq<Row>, years: nat, calendar: Calendar, root: Root, k: nat)
    requires PositiveCloses(rows) && k <= StopFrom(rows, years, calendar, 0)
    ensures |DcaPrefix(rows, years, calendar, root, k)| == if 0 < k == |rows| then k - 1 else k
  {
    StopFromFacts(rows, years, calendar, 0);
    if k > 0 {
      DcaPrefixLength(rows, years, calendar, root, k - 1);
      DcaOutcomeExists(rows, k - 1, years, calendar, root);
    }
  }

  /** The purchases from `from` on: the shares they buy and what they cost. */
  method Invest(rows: seq<Row>, endDate: int, from: nat) returns (numShares: real, totalInvested: real)
    requires PositiveCloses(rows)
    ensures Indices(rows, Purchases(rows, endDate, from))
    ensures numShares == SharesOf(rows, Purchases(rows, endDate, from))
    ensures totalInvested == Invested(|Purchases(rows, endDate, from)|)
  {
    PurchasesAreIndices(rows, endDate, from);
    numShares, totalInvested := 0.0, 0.0;
    var i := from;
    while i < |rows|
      invariant Indices(rows, Purchases(rows, endDate, i))
      invariant numShares + SharesOf(rows, Purchases(rows, endDate, i)) == SharesOf(rows, Purchases(rows, endDate, from))
      invariant totalInvested + Invested(|Purchases(rows, endDate, i)|) == Invested(|Purchases(rows, endDate, from)|)
      decreases |rows| - i
    {
      PurchasesAreIndices(rows, endDate, i + 22);
      numShares := numShares + Dca / rows[i].close;
      totalInvested := totalInvested + Dca;
      InvestedStep(|Purchases(rows, endDate, i + 22)|);
      if rows[i].date > endDate {
        assert Purchases(rows, endDate, i) == [i];
        return;
      }
      assert Purchases(rows, endDate, i)[1..] == Purchases(rows, endDate, i + 22);
      i := i + 22;
    }
  }

  /** One start day of `simulate_dca`: buy on schedule, value at the end row, and give
      no outcome when nothing was invested. */
  method DcaFrom(rows: seq<Row>, k: nat, endDate: int, end: nat, years: nat, root: Root) returns (o: Option<Outcome>)
    requires k < |rows| && end < |rows| && PositiveCloses(rows)
    ensures o == DcaOutcomeAt(rows, k, endDate, end, years, root)
  {
    var numShares, totalInvested := Invest(rows, endDate, k + 1);
    var total := numShares * rows[end].close;
    var ps := Purchases(rows, endDate, k + 1);
    if totalInvested != 0.0 {
      assert ps != [];
      assert DcaRatio(rows, ps, rows[end].close) == total / totalInvested;
      assert DcaAvgYield(rows, ps, rows[end].close, years, root) == AvgYield(totalInvested, total, years, root);
      o := Some(Outcome(rows[k].date, total / totalInvested, AvgYield(totalInvested, total, years, root)));
    } else {
      assert ps == [];
      o := None;
    }
  }

  /** `simulate_dca`, up to the grouping by year. */
  method SimulateDca(rows: seq<Row>, years: nat, calendar: Calendar, root: Root) returns (result: seq<Outcome>)
    requires PositiveCloses(rows)
    ensures result == DcaOutcomes(rows, years, calendar, root)
  {
    result := [];
    var k := 0;
    while k < |rows|
      invariant 0 <= k <= StopFrom(rows, years, calendar, 0)
      invariant StopFrom(rows, years, calendar, 0) == StopFrom(rows, years, calendar, k)
      invariant result == DcaPrefix(rows, years, calendar, root, k)
    {
      var endDate := calendar(rows[k].date, years);
      var end := EndRow(rows, endDate);
      if end.None? {
        break;
      }
      EndRowFacts(rows, endDate);
      assert StopFrom(rows, years, calendar, k) == StopFrom(rows, years, calendar, k + 1);
      var o := DcaFrom(rows, k, endDate, end.value, years, root);
      assert DcaOutcome(rows, k, years, calendar, root) == o;
      if o.Some? {
        result := result + [o.value];
      }
      assert result == DcaPrefix(rows, years, calendar, root, k + 1);
      k := k + 1;
    }
  }
}
