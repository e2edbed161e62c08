/** The offline screen over previously downloaded option files
    (options/analyze_local_data.py): every ticker directory holds an `info.json` and one
    puts and one calls table per expiration. Files arrive as values; dates are parsed by a
    caller-supplied function. */
module LocalOptions {
  import opened Common
  import Strings
  import opened OptionScreening

  /** `info.json`: absent, unreadable (the JSON load raised), or its price (0 when the key
      is missing) and listed expiration dates (empty when the key is missing). */
  datatype InfoFile = InfoMissing | InfoUnreadable | Info(currentPrice: real, expirationDates: seq<string>)

  /** One `<date>_puts.csv` or `<date>_calls.csv`: absent, unreadable, or its rows. */
  datatype ChainFile = FileMissing | FileUnreadable | Rows(quotes: seq<Quote>)

  /** One ticker directory: the info file, the basenames of its `*_puts.csv` files in the
      order the directory listing gives them, and the tables by expiration date string. */
  datatype TickerDir = TickerDir(info: InfoFile, putFileNames: seq<string>,
                                 puts: string -> ChainFile, calls: string -> ChainFile)

  /** `min_strike`, `max_strike`. */
  datatype Band = Band(lo: real, hi: real)

  /** The dates analysed: those listed in the info file, or else, for each puts file
      name in turn, its text before the first '_' (all of it when it has none). */
  function ExpirationList(listed: seq<string>, putFileNames: seq<string>): (r: seq<string>)
    ensures listed != [] ==> r == listed
    ensures listed == [] ==> |r| == |putFileNames|
    ensures listed == [] ==> forall i :: 0 <= i < |r| ==>
      |r[i]| <= |putFileNames[i]| && r[i] == putFileNames[i][..|r[i]|] && !Strings.ContainsChar(r[i], '_') &&
      (|r[i]| < |putFileNames[i]| ==> putFileNames[i][|r[i]|] == '_') &&
      (|r[i]| == |putFileNames[i]| <==> !Strings.ContainsChar(putFileNames[i], '_'))
  {
    if listed != [] then listed
    else seq(|putFileNames|, i requires 0 <= i < |putFileNames| => Strings.BeforeFirst(putFileNames[i], '_'))
  }

  /** The state the scan carries: the results so far and the band of the last puts table
      read, which is also the one the calls tables use. */
  datatype Scan = Scan(all: seq<Screened>, band: Option<Band>)

  /** `datetime.strptime(exp_date, '%Y-%m-%d')`: the day number of a parsable date, None otherwise. */
  type DateParser = string -> Option<int>

  /** The calls half of one expiration: filtered by the band of the last puts table read
      (none yet: the unbound name raises and the calls are skipped). */
  function CallsStep(st: Scan, ticker: string, price: real, e: int, days: int, calls: ChainFile,
                     prob: ExerciseModel): Scan
    requires days > 0
  {
    match calls
    case Rows(cs) =>
      (match st.band
       case Some(b) =>
         Scan(st.all + ScreenQuotes(ticker, Call, e, days, price, BandRows(cs, b.lo, b.hi, price), prob), st.band)
       case None => st)
    case _ => st
  }

  /** One expiration date of a ticker whose price is `price`. An unparsable date, a date
      not in the future and an unreadable puts table skip the date; a puts table sets the
      band to 10 percent around `price` before its rows are screened. */
  function ExpirationStep(st: Scan, ticker: string, price: real, date: string, now: real,
                          dir: TickerDir, parse: DateParser, prob: ExerciseModel): Scan
  {
    match parse(date)
    case None => st
    case Some(e) =>
      var days := DaysUntil(e, now);
      if days <= 0 then st
      else
        match dir.puts(date)
        case FileUnreadable => st
        case FileMissing => CallsStep(st, ticker, price, e, days, dir.calls(date), prob)
        case Rows(ps) =>
          var b := SpotBounds(price);
          var band := Band(b.0, b.1);
          var st1 := Scan(st.all + ScreenQuotes(ticker, Put, e, days, price, BandRows(ps, band.lo, band.hi, price), prob),
                          Some(band));
          CallsStep(st1, ticker, price, e, days, dir.calls(date), prob)
  }

  function ExpirationsScan(st: Scan, ticker: string, price: real, dates: seq<string>, now: real,
                           dir: TickerDir, parse: DateParser, prob: ExerciseModel): Scan
  {
    if dates == [] then st
    else
      var last := dates[|dates| - 1];
      ExpirationStep(ExpirationsScan(st, ticker, price, dates[..|dates| - 1], now, dir, parse, prob),
                     ticker, price, last, now, dir, parse, prob)
  }

  /** Everything `analyze_local_options` accumulates. */
  datatype LocalRun = LocalRun(all: seq<Screened>, best: seq<Screened>, band: Option<Band>)

  /** Whether a ticker directory is analysed at all: its info file is readable, its price
      is not 0 and some expiration date is known. */
  predicate Analysed(dir: TickerDir)
  {
    dir.info.Info? && dir.info.currentPrice != 0.0 &&
    ExpirationList(dir.info.expirationDates, dir.putFileNames) != []
  }

  /** One ticker: a skipped directory changes nothing; otherwise its dates are scanned and
      its best put and call are picked among all results carrying its name. */
  function TickerStep(run: LocalRun, ticker: string, dir: TickerDir, now: real,
                      parse: DateParser, prob: ExerciseModel): LocalRun
  {
    if !Analysed(dir) then run
    else
      var dates := ExpirationList(dir.info.expirationDates, dir.putFileNames);
      var st := ExpirationsScan(Scan(run.all, run.band), ticker, dir.info.currentPrice, dates, now, dir, parse, prob);
      LocalRun(st.all, run.best + BestOptions(st.all, ticker), st.band)
  }

  function LocalRunOf(tickers: seq<string>, dirs: string -> TickerDir, now: real,
                      parse: DateParser, prob: ExerciseModel): LocalRun
  {
    if tickers == [] then LocalRun([], [], None)
    else
      var t := tickers[|tickers| - 1];
      TickerStep(LocalRunOf(tickers[..|tickers| - 1], dirs, now, parse, prob), t, dirs(t), now, parse, prob)
  }

  // ---------------------------------------------------------------------------
  // Properties of the scan

  /** `after` is `before` with rows appended, each for the ticker at `price` and for
      expiration `e` with `days` left. */
  predicate Extends(before: seq<Screened>, after: seq<Screened>, ticker: string, price: real, e: int, days: int)
  {
    before <= after &&
    forall i :: |before| <= i < |after| ==>
      after[i].ticker == ticker && after[i].currentPrice == price && after[i].expiration == e && after[i].days == days
  }

  lemma ExtendsTransitive(a: seq<Screened>, b: seq<Screened>, c: seq<Screened>, ticker: string, price: real, e: int, days: int)
    requires Extends(a, b, ticker, price, e, days) && Extends(b, c, ticker, price, e, days)
    ensures Extends(a, c, ticker, price, e, days)
  {
    forall i | |a| <= i < |c|
      ensures c[i].ticker == ticker && c[i].currentPrice == price && c[i].expiration == e && c[i].days == days
    {
      if i < |b| {
        assert c[i] == b[i];
      }
    }
  }

  lemma AppendedRowsExtend(before: seq<Screened>, ticker: string, kind: OptionKind, price: real, e: int, days: int,
                           quotes: seq<Quote>, prob: ExerciseModel)
    requires days != 0
    ensures Extends(before, before + ScreenQuotes(ticker, kind, e, days, price, quotes, prob), ticker, price, e, days)
  {
    var added := ScreenQuotes(ticker, kind, e, days, price, quotes, prob);
    ScreenQuotesTagged(ticker, kind, e, days, price, quotes, prob);
    forall i | |before| <= i < |before + added|
      ensures (before + added)[i].ticker == ticker && (before + added)[i].currentPrice == price &&
              (before + added)[i].expiration == e && (before + added)[i].days == days
    {
      assert (before + added)[i] == added[i - |before|];
    }
  }

  /** The calls half only appends rows of its expiration. */
  lemma CallsStepExtends(st: Scan, ticker: string, price: real, e: int, days: int, calls: ChainFile,
                         prob: ExerciseModel)
    requires days > 0
    ensures Extends(st.all, CallsStep(st, ticker, price, e, days, calls, prob).all, ticker, price, e, days)
    ensures CallsStep(st, ticker, price, e, days, calls, prob).band == st.band
  {
    if calls.Rows? && st.band.Some? {
      var b := st.band.value;
      AppendedRowsExtend(st.all, ticker, Call, price, e, days, BandRows(calls.quotes, b.lo, b.hi, price), prob);
    }
  }

  /** One expiration keeps the results so far and only appends results of its own date,
      still days away, for the ticker at its price; an unparsable or past date adds
      nothing. */
  lemma ExpirationStepExtends(st: Scan, ticker: string, price: real, date: string, now: real,
                              dir: TickerDir, parse: DateParser, prob: ExerciseModel)
    ensures parse(date).None? ==> ExpirationStep(st, ticker, price, date, now, dir, parse, prob) == st
    ensures parse(date).Some? && DaysUntil(parse(date).value, now) <= 0 ==>
      ExpirationStep(st, ticker, price, date, now, dir, parse, prob) == st
    ensures parse(date).Some? ==>
      Extends(st.all, ExpirationStep(st, ticker, price, date, now, dir, parse, prob).all,
              ticker, price, parse(date).value, DaysUntil(parse(date).value, now))
  {
    if parse(date).Some? {
      var e := parse(date).value;
      var days := DaysUntil(e, now);
      if days > 0 {
        match dir.puts(date)
        case FileUnreadable =>
        case FileMissing =>
          CallsStepExtends(st, ticker, price, e, days, dir.calls(date), prob);
        case Rows(ps) =>
          var b := SpotBounds(price);
          var st1 := Scan(st.all + ScreenQuotes(ticker, Put, e, days, price, BandRows(ps, b.0, b.1, price), prob),
                          Some(Band(b.0, b.1)));
          AppendedRowsExtend(st.all, ticker, Put, price, e, days, BandRows(ps, b.0, b.1, price), prob);
          CallsStepExtends(st1, ticker, price, e, days, dir.calls(date), prob);
          ExtendsTransitive(st.all, st1.all, CallsStep(st1, ticker, price, e, days, dir.calls(date), prob).all,
                            ticker, price, e, days);
      }
    }
  }

  /** `after` is `before` with rows appended for the ticker at `price`, each still days
      away. */
  predicate ExtendsLive(before: seq<Screened>, after: seq<Screened>, ticker: string, price: real)
  {
    before <= after &&
    forall i :: |before| <= i < |after| ==>
      after[i].ticker == ticker && after[i].currentPrice == price && after[i].days > 0
  }

  lemma ExtendsLiveTransitive(a: seq<Screened>, b: seq<Screened>, c: seq<Screened>, ticker: string, price: real)
    requires ExtendsLive(a, b, ticker, price) && ExtendsLive(b, c, ticker, price)
    ensures ExtendsLive(a, c, ticker, price)
  {
    forall i | |a| <= i < |c|
      ensures c[i].ticker == ticker && c[i].currentPrice == price && c[i].days > 0
    {
      if i < |b| {
        assert c[i] == b[i];
      }
    }
  }

  lemma ExpirationStepLive(st: Scan, ticker: string, price: real, date: string, now: real,
                           dir: TickerDir, parse: DateParser, prob: ExerciseModel)
    ensures ExtendsLive(st.all, ExpirationStep(st, ticker, price, date, now, dir, parse, prob).all, ticker, price)
  {
    ExpirationStepExtends(st, ticker, price, date, now, dir, parse, prob);
  }

  /** Scanning a ticker's dates keeps the results so far and appends only rows of that
      ticker at its price, each still days away. */
  lemma {:induction false} ExpirationsScanLive(st: Scan, ticker: string, price: real, dates: seq<string>, now: real,
                                               dir: TickerDir, parse: DateParser, prob: ExerciseModel)
    ensures ExtendsLive(st.all, ExpirationsScan(st, ticker, price, dates, now, dir, parse, prob).all, ticker, price)
  {
    if dates != [] {
      var init := dates[..|dates| - 1];
      var mid := ExpirationsScan(st, ticker, price, init, now, dir, parse, prob);
      ExpirationsScanLive(st, ticker, price, init, now, dir, parse, prob);
      ExpirationStepLive(mid, ticker, price, dates[|dates| - 1], now, dir, parse, prob);
      ExtendsLiveTransitive(st.all, mid.all, ExpirationsScan(st, ticker, price, dates, now, dir, parse, prob).all,
                            ticker, price);
    }
  }

  /** Reading a puts table of a future date sets the band to the 10 percent band around
      the ticker's own price. */
  lemma ExpirationStepSetsBand(st: Scan, ticker: string, price: real, date: string, now: real,
                               dir: TickerDir, parse: DateParser, prob: ExerciseModel)
    requires parse(date).Some? && DaysUntil(parse(date).value, now) > 0 && dir.puts(date).Rows?
    ensures ExpirationStep(st, ticker, price, date, now, dir, parse, prob).band == Some(Band(price * 0.9, price * 1.1))
  {
    var e := parse(date).value;
    var days := DaysUntil(e, now);
    forall st1: Scan ensures CallsStep(st1, ticker, price, e, days, dir.calls(date), prob).band == st1.band {
      CallsStepKeepsBand(st1, ticker, price, e, days, dir.calls(date), prob);
    }
  }

  /** Screening a calls table never moves the band. */
  lemma CallsStepKeepsBand(st: Scan, ticker: string, price: real, e: int, days: int, calls: ChainFile,
                           prob: ExerciseModel)
    requires days > 0
    ensures CallsStep(st, ticker, price, e, days, calls, prob).band == st.band
  {
  }

  /** Any other date leaves the band as it was. */
  lemma ExpirationStepKeepsBand(st: Scan, ticker: string, price: real, date: string, now: real,
                                dir: TickerDir, parse: DateParser, prob: ExerciseModel)
    requires !(parse(date).Some? && DaysUntil(parse(date).value, now) > 0 && dir.puts(date).Rows?)
    ensures ExpirationStep(st, ticker, price, date, now, dir, parse, prob).band == st.band
  {
    if parse(date).Some? {
      var e := parse(date).value;
      var days := DaysUntil(e, now);
      if days > 0 && dir.puts(date).FileMissing? {
        CallsStepExtends(st, ticker, price, e, days, dir.calls(date), prob);
      }
    }
  }

  /** Without any puts table no band is ever set, so no calls table is screened either:
      a directory without puts tables adds nothing. */
  lemma {:induction false} ScanWithoutPutsTables(st: Scan, ticker: string, price: real, dates: seq<string>, now: real,
                                                 dir: TickerDir, parse: DateParser, prob: ExerciseModel)
    requires st.band.None?
    requires forall d :: !dir.puts(d).Rows?
    ensures ExpirationsScan(st, ticker, price, dates, now, dir, parse, prob) == st
  {
    if dates != [] {
      var init := dates[..|dates| - 1];
      ScanWithoutPutsTables(st, ticker, price, init, now, dir, parse, prob);
    }
  }

  /** Every accumulated result belongs to one of the tickers and to an expiration still
      days away. */
  lemma {:induction false} LocalResultsAreLive(tickers: seq<string>, dirs: string -> TickerDir, now: real,
                                               parse: DateParser, prob: ExerciseModel)
    ensures forall x :: x in LocalRunOf(tickers, dirs, now, parse, prob).all ==> x.ticker in tickers && x.days > 0
  {
    if tickers != [] {
      var init := tickers[..|tickers| - 1];
      var t := tickers[|tickers| - 1];
      var run := LocalRunOf(init, dirs, now, parse, prob);
      LocalResultsAreLive(init, dirs, now, parse, prob);
      var dir := dirs(t);
      if Analysed(dir) {
        var dates := ExpirationList(dir.info.expirationDates, dir.putFileNames);
        var after := ExpirationsScan(Scan(run.all, run.band), t, dir.info.currentPrice, dates, now, dir, parse, prob);
        ExpirationsScanLive(Scan(run.all, run.band), t, dir.info.currentPrice, dates, now, dir, parse, prob);
        forall x | x in after.all ensures x.ticker in tickers && x.days > 0 {
          var i :| 0 <= i < |after.all| && after.all[i] == x;
          if i < |run.all| {
            assert x in run.all;
          }
        }
      }
      assert tickers == init + [t];
    }
  }

  /** The picks are at most two per ticker, each one of the accumulated results and each a
      low-exercise option. */
  lemma {:induction false} LocalPicksFromResults(tickers: seq<string>, dirs: string -> TickerDir, now: real,
                                                 parse: DateParser, prob: ExerciseModel)
    ensures |LocalRunOf(tickers, dirs, now, parse, prob).best| <= 2 * |tickers|
    ensures forall x :: x in LocalRunOf(tickers, dirs, now, parse, prob).best ==>
      x in LocalRunOf(tickers, dirs, now, parse, prob).all && LowExercise(x)
  {
    if tickers != [] {
      var init := tickers[..|tickers| - 1];
      var t := tickers[|tickers| - 1];
      var run := LocalRunOf(init, dirs, now, parse, prob);
      LocalPicksFromResults(init, dirs, now, parse, prob);
      var dir := dirs(t);
      if Analysed(dir) {
        var dates := ExpirationList(dir.info.expirationDates, dir.putFileNames);
        var after := ExpirationsScan(Scan(run.all, run.band), t, dir.info.currentPrice, dates, now, dir, parse, prob);
        ExpirationsScanLive(Scan(run.all, run.band), t, dir.info.currentPrice, dates, now, dir, parse, prob);
        BestOptionsPicks(after.all, t);
        forall x | x in run.best ensures x in after.all {
          var i :| 0 <= i < |run.all| && run.all[i] == x;
          assert after.all[i] == x;
        }
      }
    }
  }

  /** With no puts table in any directory, nothing is screened and nothing picked. */
  lemma {:induction false} NoPutsTablesNoResults(tickers: seq<string>, dirs: string -> TickerDir, now: real,
                                                 parse: DateParser, prob: ExerciseModel)
    requires forall t, d :: t in tickers ==> !dirs(t).puts(d).Rows?
    ensures LocalRunOf(tickers, dirs, now, parse, prob) == LocalRun([], [], None)
  {
    if tickers != [] {
      var init := tickers[..|tickers| - 1];
      var t := tickers[|tickers| - 1];
      assert forall u :: u in init ==> u in tickers;
      NoPutsTablesNoResults(init, dirs, now, parse, prob);
      var dir := dirs(t);
      if Analysed(dir) {
        var dates := ExpirationList(dir.info.expirationDates, dir.putFileNames);
        ScanWithoutPutsTables(Scan([], None), t, dir.info.currentPrice, dates, now, dir, parse, prob);
        assert Filter([], OfTicker(t)) == [];
      }
    }
  }

  /** A date without a puts table screens its calls with the band left by the last puts
      table read, possibly of another ticker: a call outside the ticker's own band, but
      inside that stale band, is screened. */
  lemma StaleBandScreensCalls(st: Scan, ticker: string, price: real, date: string, now: real,
                              dir: TickerDir, parse: DateParser, prob: ExerciseModel, q: Quote)
    requires st.band.Some? && InBounds(q, st.band.value.lo, st.band.value.hi)
    requires !InBounds(q, price * 0.9, price * 1.1)
    requires parse(date).Some? && DaysUntil(parse(date).value, now) > 0
    requires dir.puts(date) == FileMissing && dir.calls(date) == Rows([q])
    ensures |ExpirationStep(st, ticker, price, date, now, dir, parse, prob).all| == |st.all| + 1
    ensures ExpirationStep(st, ticker, price, date, now, dir, parse, prob).all[|st.all|].strike == q.strike
    ensures ExpirationStep(st, ticker, price, date, now, dir, parse, prob).all[|st.all|].kind == Call
  {
    var b := st.band.value;
    assert Filter([q], InBoundsOf(b.lo, b.hi)) == [q] by {
      assert [q] == [] + [q];
      FilterAppend([], q, InBoundsOf(b.lo, b.hi));
    }
    var e := parse(date).value;
    var days := DaysUntil(e, now);
    var added := ScreenQuotes(ticker, Call, e, days, price, [q], prob);
    assert added[0].strike == q.strike && added[0].kind == Call by {
      assert [q][..0] == [];
    }
  }

  // ---------------------------------------------------------------------------
  // The loops of `analyze_local_options`

  /** One expiration date: its puts, then its calls, appended to the results, and the
      band updated where a puts table is read. */
  method AnalyzeLocalExpiration(all0: seq<Screened>, band0: Option<Band>, ticker: string, price: real,
                                date: string, now: real, dir: TickerDir, parse: DateParser, prob: ExerciseModel)
    returns (all: seq<Screened>, band: Option<Band>)
    ensures Scan(all, band) == ExpirationStep(Scan(all0, band0), ticker, price, date, now, dir, parse, prob)
  {
    all, band := all0, band0;
    var parsed := parse(date);
    if parsed.None? {
      return;
    }
    var e := parsed.value;
    var days := DaysUntil(e, now);
    if days <= 0 {
      return;
    }
    var puts := dir.puts(date);
    if puts.FileUnreadable? {
      return;
    }
    if puts.Rows? {
      var b := SpotBounds(price);
      band := Some(Band(b.0, b.1));
      all := AppendScreened(all, ticker, Put, e, days, price, BandRows(puts.quotes, b.0, b.1, price), prob);
    }
    all := AnalyzeLocalCalls(all, band, ticker, price, e, days, dir.calls(date), prob);
  }

  /** The calls table of one date, screened with the current band; without a band yet it
      is skipped. */
  method AnalyzeLocalCalls(all0: seq<Screened>, band: Option<Band>, ticker: string, price: real, e: int, days: int,
                           calls: ChainFile, prob: ExerciseModel)
    returns (all: seq<Screened>)
    requires days > 0
    ensures Scan(all, band) == CallsStep(Scan(all0, band), ticker, price, e, days, calls, prob)
  {
    all := all0;
    if calls.Rows? && band.Some? {
      var b := band.value;
      all := AppendScreened(all, ticker, Call, e, days, price, BandRows(calls.quotes, b.lo, b.hi, price), prob);
    }
  }

  /** One ticker directory: skipped unless analysed, else its dates in turn, then its
      best put and call among all results carrying its name. */
  method AnalyzeLocalTicker(all0: seq<Screened>, best0: seq<Screened>, band0: Option<Band>, ticker: string,
                            dir: TickerDir, now: real, parse: DateParser, prob: ExerciseModel)
    returns (all: seq<Screened>, best: seq<Screened>, band: Option<Band>)
    ensures LocalRun(all, best, band) == TickerStep(LocalRun(all0, best0, band0), ticker, dir, now, parse, prob)
  {
    all, best, band := all0, best0, band0;
    if !dir.info.Info? || dir.info.currentPrice == 0.0 {
      return;
    }
    var price := dir.info.currentPrice;
    var dates := ExpirationList(dir.info.expirationDates, dir.putFileNames);
    if dates == [] {
      return;
    }
    var k := 0;
    while k < |dates|
      invariant 0 <= k <= |dates|
      invariant Scan(all, band) == ExpirationsScan(Scan(all0, band0), ticker, price, dates[..k], now, dir, parse, prob)
    {
      assert dates[..k + 1][..k] == dates[..k];
      all, band := AnalyzeLocalExpiration(all, band, ticker, price, dates[k], now, dir, parse, prob);
      k := k + 1;
    }
    assert dates[..k] == dates;
    best := best + BestOptions(all, ticker);
  }

  /** `analyze_local_options`: the ticker loop, in directory-listing order. */
  method AnalyzeLocalOptions(tickers: seq<string>, dirs: string -> TickerDir, now: real,
                             parse: DateParser, prob: ExerciseModel)
    returns (allResults: seq<Screened>, bestOptions: seq<Screened>)
    ensures allResults == LocalRunOf(tickers, dirs, now, parse, prob).all
    ensures bestOptions == LocalRunOf(tickers, dirs, now, parse, prob).best
  {
    allResults, bestOptions := [], [];
    var band: Option<Band> := None;
    var i := 0;
    while i < |tickers|
      invariant 0 <= i <= |tickers|
      invariant LocalRun(allResults, bestOptions, band) == LocalRunOf(tickers[..i], dirs, now, parse, prob)
    {
      assert tickers[..i + 1][..i] == tickers[..i];
      allResults, bestOptions, band := AnalyzeLocalTicker(allResults, bestOptions, band, tickers[i], dirs(tickers[i]),
                                                          now, parse, prob);
      i := i + 1;
    }
    assert tickers[..i] == tickers;
  }
}
