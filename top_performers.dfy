/** Ranking of each year's best-performing constituents
    (sp500_history/analyze_top_performers.py): a yearly return per stock, a descending
    sort, the top ten for the report and the top three for the summary. */
module TopPerformers {
  import opened Common
  import Sorting

  /** What `get_stock_data` returns for one stock and year. */
  datatype StockYear = StockYear(symbol: string, startPrice: real, endPrice: real,
                                 returnRate: real, tradingDays: nat)

  /** `get_stock_data`: `closes` is the year's closing prices, or None when the download
      raised. Fewer than two rows, and a zero first price (the division raises and the
      exception handler returns None), give None. */
  function StockResult(symbol: string, closes: Option<seq<real>>): (r: Option<StockYear>)
    ensures r.Some? <==> closes.Some? && |closes.value| >= 2 && closes.value[0] != 0.0
    ensures r.Some? ==>
      var first := closes.value[0];
      var last := closes.value[|closes.value| - 1];
      r.value.symbol == symbol && r.value.startPrice == first && r.value.endPrice == last &&
      r.value.tradingDays == |closes.value| &&
      r.value.returnRate * first == (last - first) * 100.0
  {
    if closes.None? || |closes.value| < 2 || closes.value[0] == 0.0 then None
    else
      var first := closes.value[0];
      var last := closes.value[|closes.value| - 1];
      Some(StockYear(symbol, first, last, (last - first) / first * 100.0, |closes.value|))
  }

  /** A stock whose price ends where it started returned nothing; one that ended higher
      returned a positive rate. */
  lemma ReturnSign(symbol: string, closes: seq<real>)
    requires |closes| >= 2 && closes[0] > 0.0
    ensures var r := StockResult(symbol, Some(closes)).value;
      (r.returnRate == 0.0 <==> r.endPrice == r.startPrice) &&
      (r.returnRate > 0.0 <==> r.endPrice > r.startPrice)
  {
    var r := StockResult(symbol, Some(closes)).value;
    assert r.returnRate * r.startPrice == (r.endPrice - r.startPrice) * 100.0;
    if r.returnRate > 0.0 {
      assert r.returnRate * r.startPrice > 0.0;
    } else if r.returnRate < 0.0 {
      assert r.returnRate * r.startPrice < 0.0;
    }
  }

  /** The results kept for a year, in constituent order. */
  function ValidResults(symbols: seq<string>, download: string -> Option<seq<real>>): (r: seq<StockYear>)
    ensures |r| <= |symbols|
    ensures forall i :: 0 <= i < |r| ==> r[i].symbol in symbols
  {
    if symbols == [] then []
    else
      var rest := ValidResults(symbols[..|symbols| - 1], download);
      var s := symbols[|symbols| - 1];
      match StockResult(s, download(s))
      case Some(x) => rest + [x]
      case None => rest
  }

  /** One more constituent adds its result at the end exactly when it has one. */
  lemma ValidResultsAppend(symbols: seq<string>, s: string, download: string -> Option<seq<real>>)
    ensures ValidResults(symbols + [s], download) ==
      ValidResults(symbols, download) +
        (if StockResult(s, download(s)).Some? then [StockResult(s, download(s)).value] else [])
  {
    assert (symbols + [s])[..|symbols|] == symbols;
  }

  /** Every constituent with a result contributes it, and no result is kept exactly when
      no constituent has one. */
  lemma {:induction false} ValidResultsComplete(symbols: seq<string>, download: string -> Option<seq<real>>)
    ensures forall s :: s in symbols && StockResult(s, download(s)).Some? ==>
      StockResult(s, download(s)).value in ValidResults(symbols, download)
    ensures ValidResults(symbols, download) == [] <==>
      forall s :: s in symbols ==> StockResult(s, download(s)).None?
  {
    if symbols != [] {
      var init, last := symbols[..|symbols| - 1], symbols[|symbols| - 1];
      assert symbols == init + [last];
      ValidResultsComplete(init, download);
      ValidResultsAppend(init, last, download);
      forall s | s in symbols && StockResult(s, download(s)).Some?
        ensures StockResult(s, download(s)).value in ValidResults(symbols, download)
      {
        if s != last {
          assert s in init;
        }
      }
    }
  }

  function ReturnRate(s: StockYear): real
  {
    s.returnRate
  }

  /** `all_results.sort(key=return_rate, reverse=True)`: a stable descending sort. */
  function Ranking(results: seq<StockYear>): (r: seq<StockYear>)
    ensures multiset(r) == multiset(results) && |r| == |results|
    ensures forall i, j :: 0 <= i < j < |r| ==> r[i].returnRate >= r[j].returnRate
  {
    Sorting.SortByKey(results, ReturnRate, true)
  }

  /** The top-k of a ranking holds at most k results, each taken from the input, and each
      at least as good as every result left out. */
  lemma TopDominates(results: seq<StockYear>, k: nat)
    ensures var top := Take(Ranking(results), k);
      |top| <= k && multiset(top) <= multiset(results) &&
      forall x :: x in multiset(results) - multiset(top) ==>
        forall i :: 0 <= i < |top| ==> top[i].returnRate >= x.returnRate
  {
    Sorting.TakeOfSortDominatesRest(results, ReturnRate, true, k);
  }

  /** `analyze_year`: the year, the top three for the summary and the top ten of the
      written report. `download` stands for the price download of each symbol. */
  method AnalyzeYear(year: int, symbols: seq<string>, download: string -> Option<seq<real>>)
    returns (y: int, top3: seq<StockYear>, top10: seq<StockYear>)
    ensures y == year
    ensures top10 == Take(Ranking(ValidResults(symbols, download)), 10)
    ensures top3 == Take(top10, 3)
    ensures ValidResults(symbols, download) == [] ==> top10 == [] && top3 == []
  {
    var allResults: seq<StockYear> := [];
    var i := 0;
    while i < |symbols|
      invariant 0 <= i <= |symbols|
      invariant allResults == ValidResults(symbols[..i], download)
    {
      var result := StockResult(symbols[i], download(symbols[i]));
      assert symbols[..i + 1][..i] == symbols[..i];
      if result.Some? {
        allResults := allResults + [result.value];
      }
      i := i + 1;
    }
    assert symbols[..i] == symbols;
    if allResults == [] {
      return year, [], [];
    }
    var ranked := Ranking(allResults);
    top10 := Take(ranked, 10);
    return year, Take(top10, 3), top10;
  }

  /** The summary lists the top three; a year without them is reported as lacking data. */
  lemma {:induction false} TopThreeEmptyOnlyWithoutData(results: seq<StockYear>)
    ensures Take(Take(Ranking(results), 10), 3) == [] <==> results == []
  {
  }

  // ---------------------------------------------------------------------------
  // The run over all years (main)

  /** The years `main` analyses: the keys of the components file from `nowYear` down to
      2000, most recent first. */
  function YearsToAnalyse(keys: set<int>, nowYear: int): (r: seq<int>)
    ensures forall y :: y in r <==> y in keys && 2000 <= y <= nowYear
    ensures forall i, j :: 0 <= i < j < |r| ==> r[i] > r[j]
    decreases nowYear - 2000
  {
    if nowYear < 2000 then []
    else
      var rest := YearsToAnalyse(keys, nowYear - 1);
      assert forall i :: 0 <= i < |rest| ==> rest[i] in rest;
      if nowYear in keys then [nowYear] + rest else rest
  }

  /** One line of the summary report. */
  datatype SummaryEntry = TopThree(year: int, stocks: seq<StockYear>) | InsufficientData(year: int)

  function SummaryFor(year: int, symbols: seq<string>, download: string -> Option<seq<real>>): (e: SummaryEntry)
    ensures e.year == year
    ensures e.InsufficientData? <==> ValidResults(symbols, download) == []
    ensures e.InsufficientData? <==> forall s :: s in symbols ==> StockResult(s, download(s)).None?
  {
    var top3 := Take(Take(Ranking(ValidResults(symbols, download)), 10), 3);
    TopThreeEmptyOnlyWithoutData(ValidResults(symbols, download));
    ValidResultsComplete(symbols, download);
    if top3 != [] then TopThree(year, top3) else InsufficientData(year)
  }

  /** `main`: one summary entry per analysed year, in the order of `YearsToAnalyse`. */
  method Summarize(components: map<int, seq<string>>, nowYear: int,
                   download: int -> string -> Option<seq<real>>)
    returns (summary: seq<SummaryEntry>)
    ensures var years := YearsToAnalyse(components.Keys, nowYear);
      |summary| == |years| &&
      forall i :: 0 <= i < |years| ==>
        summary[i] == SummaryFor(years[i], components[years[i]], download(years[i]))
  {
    var years := YearsToAnalyse(components.Keys, nowYear);
    summary := [];
    var k := 0;
    while k < |years|
      invariant 0 <= k <= |years|
      invariant |summary| == k
      invariant forall i :: 0 <= i < k ==>
        summary[i] == SummaryFor(years[i], components[years[i]], download(years[i]))
    {
      var year := years[k];
      var y, top3, _ := AnalyzeYear(year, components[year], download(year));
      var entry := if top3 != [] then TopThree(y, top3) else InsufficientData(y);
      summary := summary + [entry];
      k := k + 1;
    }
  }
}
