/** The option-data download (options/download_options_data.py): for each ticker the
    expirations nearest to the four horizons are chosen and their chains saved; a ticker
    whose download fails is tried once more. The market arrives as a value per attempt,
    "now" as a real day number, and the pauses are recorded instead of slept. */
module OptionsDownload {
  import opened Common
  import opened OptionScreening
  import OptionsAnalysis

  /** The tickers the script downloads. */
  const Tickers: seq<string> := ["SPY"]

  /** What one successful download writes: `info.json` (the price and the selected
      expirations) and the expirations whose chain could be fetched and saved. */
  datatype Saved = Saved(currentPrice: real, expirationDates: seq<int>, savedChains: seq<int>)

  function HasChain(m: OptionsAnalysis.Market): int -> bool
  {
    (e: int) => m.chains(e).Some?
  }

  /** `download_ticker_data`: None (False) when the ticker data could not be fetched or its
      expirations could not be listed; otherwise what is saved (True). A chain that cannot
      be fetched only leaves its files out. */
  function DownloadTicker(fetched: Option<OptionsAnalysis.Market>, now: real): (r: Option<Saved>)
    ensures r.Some? <==> fetched.Some? && fetched.value.expirations.Some?
  {
    match fetched
    case None => None
    case Some(m) =>
      match m.expirations
      case None => None
      case Some(es) =>
        var selected := Deduplicated(NearestToHorizons(es, now, HorizonDays));
        Some(Saved(OptionsAnalysis.SpotPrice(m), selected, Filter(selected, HasChain(m))))
  }

  /** A successful download records the price used, at most four distinct listed
      expirations (none only when none is listed), and saves the chain of exactly those
      selected expirations whose chain could be fetched. */
  lemma DownloadTickerSaves(m: OptionsAnalysis.Market, es: seq<int>, now: real)
    requires m.expirations == Some(es)
    ensures DownloadTicker(Some(m), now).value.currentPrice == OptionsAnalysis.SpotPrice(m)
    ensures NoDuplicates(DownloadTicker(Some(m), now).value.expirationDates)
    ensures |DownloadTicker(Some(m), now).value.expirationDates| <= 4
    ensures forall e :: e in DownloadTicker(Some(m), now).value.expirationDates ==> e in es
    ensures DownloadTicker(Some(m), now).value.expirationDates == [] <==> es == []
    ensures forall e :: e in DownloadTicker(Some(m), now).value.savedChains <==>
      e in DownloadTicker(Some(m), now).value.expirationDates && m.chains(e).Some?
  {
    var selected := Deduplicated(NearestToHorizons(es, now, HorizonDays));
    SelectionFacts(es, now, HorizonDays);
    var saved := Filter(selected, HasChain(m));
    forall e | e in selected && m.chains(e).Some? ensures e in saved {
      var i :| 0 <= i < |selected| && selected[i] == e;
      assert HasChain(m)(selected[i]);
    }
    forall e | e in saved ensures m.chains(e).Some? {
      var i :| 0 <= i < |saved| && saved[i] == e;
      assert HasChain(m)(saved[i]);
    }
  }

  /** The body of `download_ticker_data` once the ticker is fetched: the selection loop,
      then the chain of each selected expiration saved in turn. */
  method DownloadTickerData(fetched: Option<OptionsAnalysis.Market>, now: real) returns (success: bool, saved: Option<Saved>)
    ensures saved == DownloadTicker(fetched, now)
    ensures success <==> saved.Some?
  {
    if fetched.None? || fetched.value.expirations.None? {
      return false, None;
    }
    var m := fetched.value;
    var selected := SelectExpirations(m.expirations.value, now);
    var chains: seq<int> := [];
    var k := 0;
    while k < |selected|
      invariant 0 <= k <= |selected|
      invariant chains == Filter(selected[..k], HasChain(m))
    {
      assert selected[..k + 1] == selected[..k] + [selected[k]];
      FilterAppend(selected[..k], selected[k], HasChain(m));
      if m.chains(selected[k]).Some? {
        chains := chains + [selected[k]];
      }
      k := k + 1;
    }
    assert selected[..k] == selected;
    return true, Some(Saved(OptionsAnalysis.SpotPrice(m), selected, chains));
  }

  // ---------------------------------------------------------------------------
  // The ticker loop with its pauses and single retry

  /** What the loop does, in order: a pause of some seconds, or one download attempt of
      a ticker and its outcome. */
  datatype Event = Pause(seconds: nat) | Attempted(ticker: string, outcome: Option<Saved>)

  /** The market data seen by attempt `n` (0 or 1) of a ticker. */
  type Fetcher = (string, nat) -> Option<OptionsAnalysis.Market>

  /** The outcome of attempt `n` of a ticker. */
  type Outcomes = (string, nat) -> Option<Saved>

  /** The outcomes `download_ticker_data` gives on the data each attempt sees. */
  function OutcomesOf(fetch: Fetcher, now: real): Outcomes
  {
    (t: string, n: nat) => DownloadTicker(fetch(t, n), now)
  }

  function FirstAttempt(t: string, outcomes: Outcomes): Option<Saved>
  {
    outcomes(t, 0)
  }

  function SecondAttempt(t: string, outcomes: Outcomes): Option<Saved>
  {
    outcomes(t, 1)
  }

  /** A ticker counts as downloaded when its first attempt, or the retry that follows a
      failed first attempt, succeeds. */
  predicate Downloaded(t: string, outcomes: Outcomes)
  {
    FirstAttempt(t, outcomes).Some? || SecondAttempt(t, outcomes).Some?
  }

  /** The events of the ticker at position i: a pause of 5 + 2i seconds except before the
      first ticker, the first attempt, and, only when it fails, a pause of 5 seconds and
      the retry. */
  function TickerEvents(i: nat, t: string, outcomes: Outcomes): seq<Event>
  {
    (if i > 0 then [Pause(5 + 2 * i)] else []) +
    [Attempted(t, FirstAttempt(t, outcomes))] +
    (if FirstAttempt(t, outcomes).None? then [Pause(5), Attempted(t, SecondAttempt(t, outcomes))] else [])
  }

  function DownloadLog(tickers: seq<string>, outcomes: Outcomes): seq<Event>
  {
    if tickers == [] then []
    else DownloadLog(tickers[..|tickers| - 1], outcomes) +
         TickerEvents(|tickers| - 1, tickers[|tickers| - 1], outcomes)
  }

  function SuccessCount(tickers: seq<string>, outcomes: Outcomes): nat
  {
    if tickers == [] then 0
    else SuccessCount(tickers[..|tickers| - 1], outcomes) +
         (if Downloaded(tickers[|tickers| - 1], outcomes) then 1 else 0)
  }

  /** `success_count` counts the downloaded tickers: never more than the tickers, and all
      of them exactly when every ticker was downloaded. */
  lemma {:induction false} SuccessCountBounds(tickers: seq<string>, outcomes: Outcomes)
    ensures SuccessCount(tickers, outcomes) <= |tickers|
    ensures SuccessCount(tickers, outcomes) == |tickers| <==>
      forall i :: 0 <= i < |tickers| ==> Downloaded(tickers[i], outcomes)
  {
    if tickers != [] {
      var init := tickers[..|tickers| - 1];
      SuccessCountBounds(init, outcomes);
      assert forall i :: 0 <= i < |init| ==> init[i] == tickers[i];
    }
  }

  function CountAttempts(log: seq<Event>, t: string): nat
  {
    if log == [] then 0
    else CountAttempts(log[..|log| - 1], t) + (if log[|log| - 1].Attempted? && log[|log| - 1].ticker == t then 1 else 0)
  }

  lemma CountAttemptsAppend(a: seq<Event>, b: seq<Event>, t: string)
    ensures CountAttempts(a + b, t) == CountAttempts(a, t) + CountAttempts(b, t)
    decreases |b|
  {
    if b != [] {
      var init, x := b[..|b| - 1], b[|b| - 1];
      CountAttemptsAppend(a, init, t);
      assert a + b == (a + init) + [x] && b == init + [x];
      assert ((a + init) + [x])[..|a + init|] == a + init;
      assert (init + [x])[..|init|] == init;
    } else {
      assert a + b == a;
    }
  }

  /** A ticker's events attempt it once, or twice exactly when the first attempt fails. */
  lemma TickerAttempts(i: nat, t: string, outcomes: Outcomes)
    ensures CountAttempts(TickerEvents(i, t, outcomes), t) == if FirstAttempt(t, outcomes).None? then 2 else 1
  {
    var pre: seq<Event> := if i > 0 then [Pause(5 + 2 * i)] else [];
    var first := [Attempted(t, FirstAttempt(t, outcomes))];
    var retry: seq<Event> := if FirstAttempt(t, outcomes).None? then [Pause(5), Attempted(t, SecondAttempt(t, outcomes))] else [];
    CountAttemptsAppend(pre + first, retry, t);
    CountAttemptsAppend(pre, first, t);
    assert CountAttempts(first, t) == 1 by {
      assert first[..0] == [];
    }
    if retry != [] {
      assert CountAttempts(retry, t) == 1 by {
        assert retry[..1] == [Pause(5)] && [Pause(5)][..0] == [];
      }
    }
  }

  /** A failed ticker is retried exactly once: over a run of distinct tickers, each one is
      attempted once, or twice when its first attempt fails. */
  lemma {:induction false} RetriedOnce(tickers: seq<string>, outcomes: Outcomes, t: string)
    requires NoDuplicates(tickers) && t in tickers
    ensures CountAttempts(DownloadLog(tickers, outcomes), t) == if FirstAttempt(t, outcomes).None? then 2 else 1
  {
    var init := tickers[..|tickers| - 1];
    var last := tickers[|tickers| - 1];
    CountAttemptsAppend(DownloadLog(init, outcomes), TickerEvents(|tickers| - 1, last, outcomes), t);
    assert tickers == init + [last];
    if last == t {
      assert t !in init;
      NeverAttempted(init, outcomes, t);
      TickerAttempts(|tickers| - 1, t, outcomes);
    } else {
      RetriedOnce(init, outcomes, t);
      OtherTickerEvents(|tickers| - 1, last, outcomes, t);
    }
  }

  lemma OtherTickerEvents(i: nat, u: string, outcomes: Outcomes, t: string)
    requires u != t
    ensures CountAttempts(TickerEvents(i, u, outcomes), t) == 0
  {
    var ev := TickerEvents(i, u, outcomes);
    NoAttemptsOf(ev, t);
  }

  lemma {:induction false} NoAttemptsOf(log: seq<Event>, t: string)
    requires forall k :: 0 <= k < |log| ==> !(log[k].Attempted? && log[k].ticker == t)
    ensures CountAttempts(log, t) == 0
  {
    if log != [] {
      NoAttemptsOf(log[..|log| - 1], t);
    }
  }

  /** A ticker not in the run is never attempted. */
  lemma {:induction false} NeverAttempted(tickers: seq<string>, outcomes: Outcomes, t: string)
    requires t !in tickers
    ensures CountAttempts(DownloadLog(tickers, outcomes), t) == 0
  {
    if tickers != [] {
      var init := tickers[..|tickers| - 1];
      var last := tickers[|tickers| - 1];
      assert t !in init && last != t;
      NeverAttempted(init, outcomes, t);
      OtherTickerEvents(|tickers| - 1, last, outcomes, t);
      CountAttemptsAppend(DownloadLog(init, outcomes), TickerEvents(|tickers| - 1, last, outcomes), t);
    }
  }

  /** The log of a prefix of the tickers is a prefix of the log. */
  lemma {:induction false} LogPrefix(tickers: seq<string>, outcomes: Outcomes, j: nat)
    requires j <= |tickers|
    ensures DownloadLog(tickers[..j], outcomes) <= DownloadLog(tickers, outcomes)
  {
    if j < |tickers| {
      var init := tickers[..|tickers| - 1];
      LogPrefix(init, outcomes, j);
      assert init[..j] == tickers[..j];
    } else {
      assert tickers[..j] == tickers;
    }
  }

  /** Every ticker after the first is preceded by a pause of 5 + 2i seconds, i its position. */
  lemma PauseBeforeTicker(tickers: seq<string>, outcomes: Outcomes, i: nat)
    requires 0 < i < |tickers|
    ensures |DownloadLog(tickers[..i], outcomes)| < |DownloadLog(tickers, outcomes)|
    ensures DownloadLog(tickers, outcomes)[|DownloadLog(tickers[..i], outcomes)|] == Pause(5 + 2 * i)
  {
    var before := DownloadLog(tickers[..i], outcomes);
    var events := TickerEvents(i, tickers[i], outcomes);
    assert tickers[..i + 1][..i] == tickers[..i];
    assert DownloadLog(tickers[..i + 1], outcomes) == before + events;
    LogPrefix(tickers, outcomes, i + 1);
    assert events[0] == Pause(5 + 2 * i);
    assert (before + events)[|before|] == events[0];
  }

  /** `download_all_data`: the pauses, the attempts and the success count. */
  method DownloadAllData(tickers: seq<string>, fetch: Fetcher, now: real)
    returns (successCount: nat, log: seq<Event>)
    ensures successCount == SuccessCount(tickers, OutcomesOf(fetch, now))
    ensures log == DownloadLog(tickers, OutcomesOf(fetch, now))
  {
    ghost var outcomes := OutcomesOf(fetch, now);
    successCount, log := 0, [];
    var i := 0;
    while i < |tickers|
      invariant 0 <= i <= |tickers|
      invariant successCount == SuccessCount(tickers[..i], outcomes)
      invariant log == DownloadLog(tickers[..i], outcomes)
    {
      assert tickers[..i + 1][..i] == tickers[..i];
      var t := tickers[i];
      var success, events := DownloadOneTicker(i, t, fetch, now);
      log := log + events;
      if success {
        successCount := successCount + 1;
      }
      i := i + 1;
    }
    assert tickers[..i] == tickers;
  }

  /** One pass of the loop of `download_all_data`: the pause before the ticker, its attempt,
      and the retry after a failed attempt. */
  method DownloadOneTicker(i: nat, t: string, fetch: Fetcher, now: real)
    returns (success: bool, events: seq<Event>)
    ensures success == Downloaded(t, OutcomesOf(fetch, now))
    ensures events == TickerEvents(i, t, OutcomesOf(fetch, now))
  {
    ghost var outcomes := OutcomesOf(fetch, now);
    var pause: seq<Event> := if i > 0 then [Pause(5 + 2 * i)] else [];
    var saved;
    success, saved := DownloadTickerData(fetch(t, 0), now);
    assert saved == FirstAttempt(t, outcomes);
    if success {
      events := pause + [Attempted(t, saved)];
    } else {
      var retried;
      success, retried := DownloadTickerData(fetch(t, 1), now);
      assert retried == SecondAttempt(t, outcomes);
      events := pause + [Attempted(t, saved)] + [Pause(5), Attempted(t, retried)];
    }
  }
}
