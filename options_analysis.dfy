/** The live option-selling screen (options/options_analysis.py): for each ticker, the
    expirations nearest to the four horizons, the puts and calls of each chain inside the
    strike band, and the best low-exercise put and call. Market data arrive as values. */
module OptionsAnalysis {
  import opened Common
  import opened OptionScreening

  /** The tickers the script analyses. */
  const Tickers: seq<string> := ["SPY"]

  datatype Chain = Chain(puts: seq<Quote>, calls: seq<Quote>)

  /** What the market tells about one ticker: the quoted price (0 when missing), the last
      daily close, the listed expirations (None when listing them raised) and the chain of
      each expiration (None when fetching it raised). */
  datatype Market = Market(infoPrice: real, historyClose: real, expirations: Option<seq<int>>,
                           chains: int -> Option<Chain>)

  /** The price used: the quoted one, or the last close when the quote is 0. */
  function SpotPrice(m: Market): (s: real)
    ensures m.infoPrice != 0.0 ==> s == m.infoPrice
    ensures m.infoPrice == 0.0 ==> s == m.historyClose
  {
    if m.infoPrice == 0.0 then m.historyClose else m.infoPrice
  }

  /** The results of one expiration: nothing when it is not in the future or its chain
      could not be fetched, else the banded puts followed by the banded calls. */
  function ExpirationResults(ticker: string, spot: real, expiration: int, now: real,
                             chains: int -> Option<Chain>, prob: ExerciseModel): seq<Screened>
  {
    var days := DaysUntil(expiration, now);
    if days <= 0 then []
    else match chains(expiration)
      case None => []
      case Some(c) =>
        var bounds := SpotBounds(spot);
        ScreenQuotes(ticker, Put, expiration, days, spot, BandRows(c.puts, bounds.0, bounds.1, spot), prob) +
        ScreenQuotes(ticker, Call, expiration, days, spot, BandRows(c.calls, bounds.0, bounds.1, spot), prob)
  }

  /** Every result of an expiration carries the ticker, the expiration, the spot price
      and the positive number of days left; a past expiration or a chain that could not
      be fetched gives no results. */
  lemma ExpirationResultsTagged(ticker: string, spot: real, expiration: int, now: real,
                                chains: int -> Option<Chain>, prob: ExerciseModel)
    ensures forall x :: x in ExpirationResults(ticker, spot, expiration, now, chains, prob) ==>
      x.ticker == ticker && x.expiration == expiration && x.currentPrice == spot &&
      x.days == DaysUntil(expiration, now) && x.days > 0
    ensures DaysUntil(expiration, now) <= 0 ==> ExpirationResults(ticker, spot, expiration, now, chains, prob) == []
    ensures chains(expiration).None? ==> ExpirationResults(ticker, spot, expiration, now, chains, prob) == []
  {
    var days := DaysUntil(expiration, now);
    var c := chains(expiration);
    if days > 0 && c.Some? {
      var bounds := SpotBounds(spot);
      var puts := BandRows(c.value.puts, bounds.0, bounds.1, spot);
      var calls := BandRows(c.value.calls, bounds.0, bounds.1, spot);
      ScreenQuotesTagged(ticker, Put, expiration, days, spot, puts, prob);
      ScreenQuotesTagged(ticker, Call, expiration, days, spot, calls, prob);
      var a := ScreenQuotes(ticker, Put, expiration, days, spot, puts, prob);
      var b := ScreenQuotes(ticker, Call, expiration, days, spot, calls, prob);
      assert ExpirationResults(ticker, spot, expiration, now, chains, prob) == a + b;
      TaggedSidesTagged(a, b, ticker, expiration, days, spot);
    }
  }

  /** The put rows followed by the call rows of one expiration keep their common tags. */
  lemma TaggedSidesTagged(a: seq<Screened>, b: seq<Screened>, ticker: string, expiration: int, days: int, spot: real)
    requires AllTagged(a, ticker, Put, expiration, days, spot) && AllTagged(b, ticker, Call, expiration, days, spot)
    ensures forall x :: x in a + b ==>
      x.ticker == ticker && x.expiration == expiration && x.currentPrice == spot && x.days == days
  {
    forall x | x in a + b
      ensures x.ticker == ticker && x.expiration == expiration && x.currentPrice == spot && x.days == days
    {
      if x in a {
        var i :| 0 <= i < |a| && a[i] == x;
      } else {
        var i :| 0 <= i < |b| && b[i] == x;
      }
    }
  }

  /** The results of the selected expirations, in selection order. */
  function TickerResults(ticker: string, spot: real, selected: seq<int>, now: real,
                         chains: int -> Option<Chain>, prob: ExerciseModel): seq<Screened>
  {
    if selected == [] then []
    else TickerResults(ticker, spot, selected[..|selected| - 1], now, chains, prob) +
         ExpirationResults(ticker, spot, selected[|selected| - 1], now, chains, prob)
  }

  /** Every result of a ticker belongs to it, to a selected expiration still days away,
      and to the spot price used. */
  lemma {:induction false} TickerResultsAreLive(ticker: string, spot: real, selected: seq<int>, now: real,
                                                chains: int -> Option<Chain>, prob: ExerciseModel)
    ensures forall x :: x in TickerResults(ticker, spot, selected, now, chains, prob) ==>
      x.ticker == ticker && x.expiration in selected && x.days > 0 && x.currentPrice == spot
  {
    if selected != [] {
      var init := selected[..|selected| - 1];
      var last := selected[|selected| - 1];
      TickerResultsAreLive(ticker, spot, init, now, chains, prob);
      ExpirationResultsTagged(ticker, spot, last, now, chains, prob);
      assert selected == init + [last];
    }
  }

  /** One pass of the expiration loop: the banded puts, then the banded calls, appended
      to the results; an expiration not in the future or without a chain adds nothing. */
  method AppendExpiration(results: seq<Screened>, ticker: string, spot: real, expiration: int, now: real,
                          chains: int -> Option<Chain>, prob: ExerciseModel)
    returns (out: seq<Screened>)
    ensures out == results + ExpirationResults(ticker, spot, expiration, now, chains, prob)
  {
    var days := DaysUntil(expiration, now);
    var chain := chains(expiration);
    if days <= 0 || chain.None? {
      assert results + ExpirationResults(ticker, spot, expiration, now, chains, prob) == results + [];
      return results;
    }
    var bounds := SpotBounds(spot);
    var puts := BandRows(chain.value.puts, bounds.0, bounds.1, spot);
    var calls := BandRows(chain.value.calls, bounds.0, bounds.1, spot);
    out := AppendScreened(results, ticker, Put, expiration, days, spot, puts, prob);
    out := AppendScreened(out, ticker, Call, expiration, days, spot, calls, prob);
    ghost var a := ScreenQuotes(ticker, Put, expiration, days, spot, puts, prob);
    ghost var b := ScreenQuotes(ticker, Call, expiration, days, spot, calls, prob);
    assert ExpirationResults(ticker, spot, expiration, now, chains, prob) == a + b;
    ConcatAssociative(results, a, b);
  }

  /** The expiration loop of `analyze_options` for one ticker. */
  method AnalyzeExpirations(ticker: string, spot: real, selected: seq<int>, now: real,
                            chains: int -> Option<Chain>, prob: ExerciseModel)
    returns (results: seq<Screened>)
    ensures results == TickerResults(ticker, spot, selected, now, chains, prob)
  {
    results := [];
    var k := 0;
    while k < |selected|
      invariant 0 <= k <= |selected|
      invariant results == TickerResults(ticker, spot, selected[..k], now, chains, prob)
    {
      ghost var prefix := selected[..k + 1];
      assert prefix[..k] == selected[..k] && prefix[k] == selected[k];
      results := AppendExpiration(results, ticker, spot, selected[k], now, chains, prob);
      k := k + 1;
    }
    assert selected[..k] == selected;
  }

  /** The state `analyze_options` accumulates: all results, and the best picks. */
  datatype Screening = Screening(all: seq<Screened>, best: seq<Screened>)

  /** One ticker's step: a failed fetch, or a failed expiration listing, adds nothing;
      otherwise its results are appended and its best put and call picked from all
      results carrying its name. */
  function TickerStep(acc: Screening, ticker: string, fetched: Option<Market>, now: real,
                      prob: ExerciseModel): Screening
  {
    match fetched
    case None => acc
    case Some(m) =>
      match m.expirations
      case None => acc
      case Some(es) =>
        var selected := Deduplicated(NearestToHorizons(es, now, HorizonDays));
        var all := acc.all + TickerResults(ticker, SpotPrice(m), selected, now, m.chains, prob);
        Screening(all, acc.best + BestOptions(all, ticker))
  }

  function Run(tickers: seq<string>, fetch: string -> Option<Market>, now: real, prob: ExerciseModel): Screening
  {
    if tickers == [] then Screening([], [])
    else
      var t := tickers[|tickers| - 1];
      TickerStep(Run(tickers[..|tickers| - 1], fetch, now, prob), t, fetch(t), now, prob)
  }

  /** The picks are at most two per ticker, each one of the results and each a
      low-exercise option. */
  lemma {:induction false} RunPicksFromResults(tickers: seq<string>, fetch: string -> Option<Market>,
                                               now: real, prob: ExerciseModel)
    ensures |Run(tickers, fetch, now, prob).best| <= 2 * |tickers|
    ensures forall x :: x in Run(tickers, fetch, now, prob).best ==>
      x in Run(tickers, fetch, now, prob).all && LowExercise(x)
  {
    if tickers != [] {
      var init := tickers[..|tickers| - 1];
      var t := tickers[|tickers| - 1];
      RunPicksFromResults(init, fetch, now, prob);
      var m := fetch(t);
      if m.Some? && m.value.expirations.Some? {
        var all := Run(tickers, fetch, now, prob).all;
        BestOptionsPicks(all, t);
        assert Run(tickers, fetch, now, prob).best == Run(init, fetch, now, prob).best + BestOptions(all, t);
      }
    }
  }

  /** One pass of the ticker loop: a ticker whose data or expiration list could not be
      fetched adds nothing; otherwise its results are appended and its best put and call
      picked among all results so far. */
  method AnalyzeTicker(all0: seq<Screened>, best0: seq<Screened>, ticker: string,
                       fetched: Option<Market>, now: real, prob: ExerciseModel)
    returns (all: seq<Screened>, best: seq<Screened>)
    ensures Screening(all, best) == TickerStep(Screening(all0, best0), ticker, fetched, now, prob)
  {
    all, best := all0, best0;
    if fetched.Some? && fetched.value.expirations.Some? {
      var m := fetched.value;
      var spot := SpotPrice(m);
      var selected := SelectExpirations(m.expirations.value, now);
      var results := AnalyzeExpirations(ticker, spot, selected, now, m.chains, prob);
      all := all + results;
      best := best + BestOptions(all, ticker);
    }
  }

  /** Every accumulated result belongs to one of the tickers and to an expiration still
      days away. */
  lemma {:induction false} RunResultsAreLive(tickers: seq<string>, fetch: string -> Option<Market>,
                                             now: real, prob: ExerciseModel)
    ensures forall x :: x in Run(tickers, fetch, now, prob).all ==> x.ticker in tickers && x.days > 0
  {
    if tickers != [] {
      var init := tickers[..|tickers| - 1];
      var t := tickers[|tickers| - 1];
      RunResultsAreLive(init, fetch, now, prob);
      var m := fetch(t);
      if m.Some? && m.value.expirations.Some? {
        var selected := Deduplicated(NearestToHorizons(m.value.expirations.value, now, HorizonDays));
        TickerResultsAreLive(t, SpotPrice(m.value), selected, now, m.value.chains, prob);
      }
      assert tickers == init + [t];
    }
  }

  /** `analyze_options`: the ticker loop. */
  method AnalyzeOptions(tickers: seq<string>, fetch: string -> Option<Market>, now: real, prob: ExerciseModel)
    returns (allResults: seq<Screened>, bestOptions: seq<Screened>)
    ensures allResults == Run(tickers, fetch, now, prob).all
    ensures bestOptions == Run(tickers, fetch, now, prob).best
  {
    allResults, bestOptions := [], [];
    var i := 0;
    while i < |tickers|
      invariant 0 <= i <= |tickers|
      invariant Screening(allResults, bestOptions) == Run(tickers[..i], fetch, now, prob)
    {
      assert tickers[..i + 1][..i] == tickers[..i];
      allResults, bestOptions := AnalyzeTicker(allResults, bestOptions, tickers[i], fetch(tickers[i]), now, prob);
      i := i + 1;
    }
    assert tickers[..i] == tickers;
  }
}
