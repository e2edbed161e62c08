/** Market-warning dashboard (market_indicators/market_indicators.py): five indicators,
    each a formula over fetched market data and a red/yellow/green threshold rule, run
    one after the other with per-indicator error isolation.

    Fetching is not modelled; a MarketData record holds what each fetch returned. */
module MarketIndicators {
  import opened Common

  // ---------------------------------------------------------------------------
  // Fetched data

  /** Why a fetch raised DataFetchError: the request or page parse failed, the FRED
      series was empty, or it held only missing values. */
  datatype FetchFailure = RequestFailed | EmptySeries | NoValidData | TooFewCpiPoints

  datatype Fetch<T> = Fetched(value: T) | Failed(failure: FetchFailure)

  /** What every fetch returned. FRED series arrive as raw observations (None for a
      missing value); the multpl.com figures arrive already parsed. The trailing PE is
      requested twice, once by the premium and once by the Rule of 20, so the two reads
      are separate fields that may fail or differ independently. */
  datatype MarketData = MarketData(
    trailingPe: Fetch<real>,
    dividendYield: Fetch<real>,
    treasury10y: Fetch<seq<Option<real>>>,
    corporateEquity: Fetch<seq<Option<real>>>,
    gdp: Fetch<seq<Option<real>>>,
    highYieldOas: Fetch<seq<Option<real>>>,
    fedAssets: Fetch<seq<Option<real>>>,
    treasuryGeneralAccount: Fetch<seq<Option<real>>>,
    reverseRepo: Fetch<seq<Option<real>>>,
    fedAssetsHistory: Fetch<seq<Option<real>>>,
    cpi: Fetch<seq<Option<real>>>,
    ruleOf20Pe: Fetch<real>)

  /** pandas dropna: the present observations, in order. */
  function DropNa(s: seq<Option<real>>): (r: seq<real>)
    ensures |r| <= |s|
    ensures forall i :: 0 <= i < |r| ==> Some(r[i]) in s
    ensures forall i :: 0 <= i < |s| && s[i].Some? ==> s[i].value in r
  {
    if s == [] then []
    else
      var rest := DropNa(s[..|s| - 1]);
      assert s == s[..|s| - 1] + [s[|s| - 1]];
      if s[|s| - 1].Some? then rest + [s[|s| - 1].value] else rest
  }

  /** One more observation: it is kept at the end exactly when it is present, so dropna
      keeps the observations in their order. */
  lemma DropNaAppend(s: seq<Option<real>>, x: Option<real>)
    ensures DropNa(s + [x]) == if x.Some? then DropNa(s) + [x.value] else DropNa(s)
  {
    assert (s + [x])[..|s|] == s;
  }

  /** No present observation after position j. */
  predicate NoneAfter(s: seq<Option<real>>, j: nat)
  {
    forall k :: j < k < |s| ==> s[k].None?
  }

  /** The last kept value is the last present observation. */
  lemma {:induction false} DropNaLast(s: seq<Option<real>>, j: nat)
    requires j < |s| && s[j].Some? && NoneAfter(s, j)
    ensures DropNa(s) != [] && DropNa(s)[|DropNa(s)| - 1] == s[j].value
  {
    var init := s[..|s| - 1];
    assert s == init + [s[|s| - 1]];
    DropNaAppend(init, s[|s| - 1]);
    if j < |s| - 1 {
      assert s[|s| - 1].None?;
      assert NoneAfter(init, j) by {
        forall k | j < k < |init| ensures init[k].None? {
          assert init[k] == s[k];
        }
      }
      DropNaLast(init, j);
    }
  }

  /** A FRED series after the checks of `_get_fred_series`: empty raw data and data with
      no present observation both raise. */
  function FredSeries(f: Fetch<seq<Option<real>>>): (r: Fetch<seq<real>>)
    ensures r.Fetched? ==> f.Fetched? && r.value != [] && r.value == DropNa(f.value)
    ensures r.Failed? <==> f.Failed? || DropNa(f.value) == []
    ensures f.Fetched? && f.value == [] ==> r == Failed(EmptySeries)
    ensures f.Fetched? && f.value != [] && DropNa(f.value) == [] ==> r == Failed(NoValidData)
  {
    if f.Failed? then Failed(f.failure)
    else if f.value == [] then Failed(EmptySeries)
    else
      var present := DropNa(f.value);
      if present == [] then Failed(NoValidData) else Fetched(present)
  }

  /** `_get_fred_latest`: the last present observation. */
  function FredLatest(f: Fetch<seq<Option<real>>>): (r: Fetch<real>)
    ensures r.Failed? <==> FredSeries(f).Failed?
    ensures r.Fetched? ==> var s := FredSeries(f).value; r.value == s[|s| - 1]
  {
    var s := FredSeries(f);
    if s.Failed? then Failed(s.failure) else Fetched(s.value[|s.value| - 1])
  }

  /** A fetched series whose last present observation is at j: the latest value is that
      observation. */
  lemma FredLatestIsLastPresent(f: Fetch<seq<Option<real>>>, j: nat)
    requires f.Fetched? && j < |f.value| && f.value[j].Some? && NoneAfter(f.value, j)
    ensures FredLatest(f) == Fetched(f.value[j].value)
  {
    DropNaLast(f.value, j);
  }

  // ---------------------------------------------------------------------------
  // Results

  datatype Level = Red | Yellow | Green

  /** How alarming a level is; used to state that the threshold rules are monotone. */
  function Severity(l: Level): nat
  {
    match l
    case Red => 2
    case Yellow => 1
    case Green => 0
  }

  /** The status words the dashboard prints next to the light. */
  datatype Status =
    | Danger | Caution | Normal
    | ExtremelyOvervalued | Overvalued | SeverelyOvervalued
    | RisingTrend | FallingTrend | InsufficientData

  datatype IndicatorResult = IndicatorResult(value: Float, level: Level, status: Status)

  /** What calling one `calculate_*` method does: it returns a result, raises
      DataFetchError, or raises ZeroDivisionError (which the dashboard does not catch). */
  datatype IndicatorOutcome = Computed(result: IndicatorResult) | FetchFailed(failure: FetchFailure) | DivisionByZero

  datatype Indicator = Erp | Buffett | HySpread | NetLiquidity | RuleOf20

  /** The key each indicator writes in `results`. */
  function Key(ind: Indicator): string
  {
    match ind
    case Erp => "erp"
    case Buffett => "buffett"
    case HySpread => "hy_spread"
    case NetLiquidity => "net_liquidity"
    case RuleOf20 => "rule_of_20"
  }

  // ---------------------------------------------------------------------------
  // ERP: implied equity risk premium (Gordon model)

  const BuybackYield: real := 2.0
  const ExpectedGrowth: real := 5.0

  function ImpliedErp(dividendYield: real, treasury10y: real): (erp: real)
    ensures erp + treasury10y == dividendYield + BuybackYield + ExpectedGrowth
  {
    dividendYield + BuybackYield + ExpectedGrowth - treasury10y
  }

  /** An ERP below 3% is red, below 4% yellow; exactly 3.0 is yellow. */
  function ErpGrade(erp: real): (r: (Level, Status))
    ensures r.0 == Red <==> erp < 3.0
    ensures r.0 == Yellow <==> 3.0 <= erp < 4.0
    ensures r.0 == Green <==> erp >= 4.0
    ensures r.1 == match r.0 case Red => Danger case Yellow => Caution case Green => Normal
  {
    if erp < 3.0 then (Red, Danger)
    else if erp < 4.0 then (Yellow, Caution)
    else (Green, Normal)
  }

  /** A larger premium is never more alarming. */
  lemma ErpGradeMonotone(a: real, b: real)
    requires a <= b
    ensures Severity(ErpGrade(a).0) >= Severity(ErpGrade(b).0)
  {
  }

  /** The fetches happen in the order PE, dividend yield, 10-year yield; the unused
      earnings yield 100/PE is still computed, so a zero PE raises ZeroDivisionError. */
  function ErpOutcome(d: MarketData): (r: IndicatorOutcome)
    ensures r.FetchFailed? <==> d.trailingPe.Failed? || d.dividendYield.Failed? || FredLatest(d.treasury10y).Failed?
    ensures d.trailingPe.Failed? ==> r == FetchFailed(d.trailingPe.failure)
    ensures d.trailingPe.Fetched? && d.dividendYield.Failed? ==> r == FetchFailed(d.dividendYield.failure)
    ensures d.trailingPe.Fetched? && d.dividendYield.Fetched? && FredLatest(d.treasury10y).Failed? ==>
      r == FetchFailed(FredLatest(d.treasury10y).failure)
    ensures r.Computed? <==>
      d.trailingPe.Fetched? && d.dividendYield.Fetched? && FredLatest(d.treasury10y).Fetched? && d.trailingPe.value != 0.0
    ensures r.DivisionByZero? <==>
      d.trailingPe.Fetched? && d.dividendYield.Fetched? && FredLatest(d.treasury10y).Fetched? && d.trailingPe.value == 0.0
    ensures r.Computed? ==>
      d.trailingPe.Fetched? && d.dividendYield.Fetched? && FredLatest(d.treasury10y).Fetched? &&
      var erp := ImpliedErp(d.dividendYield.value, FredLatest(d.treasury10y).value);
      r.result == IndicatorResult(Finite(erp), ErpGrade(erp).0, ErpGrade(erp).1)
  {
    if d.trailingPe.Failed? then FetchFailed(d.trailingPe.failure)
    else if d.dividendYield.Failed? then FetchFailed(d.dividendYield.failure)
    else
      var treasury := FredLatest(d.treasury10y);
      if treasury.Failed? then FetchFailed(treasury.failure)
      else if d.trailingPe.value == 0.0 then DivisionByZero
      else
        var erp := ImpliedErp(d.dividendYield.value, treasury.value);
        var g := ErpGrade(erp);
        Computed(IndicatorResult(Finite(erp), g.0, g.1))
  }

  // ---------------------------------------------------------------------------
  // Buffett indicator: corporate equity / GDP, in percent

  function BuffettRatio(marketCap: real, gdp: real): (ratio: real)
    requires gdp != 0.0
    ensures ratio * gdp == marketCap * 100.0
  {
    (marketCap / gdp) * 100.0
  }

  function BuffettGrade(ratio: real): (r: (Level, Status))
    ensures r.0 == Red <==> ratio > 180.0
    ensures r.0 == Yellow <==> 140.0 < ratio <= 180.0
    ensures r.0 == Green <==> ratio <= 140.0
    ensures r.1 == match r.0 case Red => ExtremelyOvervalued case Yellow => Overvalued case Green => Normal
  {
    if ratio > 180.0 then (Red, ExtremelyOvervalued)
    else if ratio > 140.0 then (Yellow, Overvalued)
    else (Green, Normal)
  }

  /** A higher valuation is never less alarming. */
  lemma BuffettGradeMonotone(a: real, b: real)
    requires a <= b
    ensures Severity(BuffettGrade(a).0) <= Severity(BuffettGrade(b).0)
  {
  }

  /** The equity value is fetched before GDP; a zero GDP raises ZeroDivisionError. */
  function BuffettOutcome(d: MarketData): (r: IndicatorOutcome)
    ensures r.FetchFailed? <==> FredLatest(d.corporateEquity).Failed? || FredLatest(d.gdp).Failed?
    ensures FredLatest(d.corporateEquity).Failed? ==> r == FetchFailed(FredLatest(d.corporateEquity).failure)
    ensures FredLatest(d.corporateEquity).Fetched? && FredLatest(d.gdp).Failed? ==> r == FetchFailed(FredLatest(d.gdp).failure)
    ensures r.Computed? <==> FredLatest(d.corporateEquity).Fetched? && FredLatest(d.gdp).Fetched? && FredLatest(d.gdp).value != 0.0
    ensures r.DivisionByZero? <==>
      FredLatest(d.corporateEquity).Fetched? && FredLatest(d.gdp).Fetched? && FredLatest(d.gdp).value == 0.0
    ensures r.Computed? ==>
      FredLatest(d.corporateEquity).Fetched? && FredLatest(d.gdp).Fetched? && FredLatest(d.gdp).value != 0.0 &&
      var ratio := BuffettRatio(FredLatest(d.corporateEquity).value, FredLatest(d.gdp).value);
      r.result == IndicatorResult(Finite(ratio), BuffettGrade(ratio).0, BuffettGrade(ratio).1)
  {
    var cap := FredLatest(d.corporateEquity);
    if cap.Failed? then FetchFailed(cap.failure)
    else
      var gdp := FredLatest(d.gdp);
      if gdp.Failed? then FetchFailed(gdp.failure)
      else if gdp.value == 0.0 then DivisionByZero
      else
        var ratio := BuffettRatio(cap.value, gdp.value);
        var g := BuffettGrade(ratio);
        Computed(IndicatorResult(Finite(ratio), g.0, g.1))
  }

  // ---------------------------------------------------------------------------
  // High-yield option-adjusted spread, in basis points

  function PercentToBps(pct: real): (bps: real)
    ensures bps / 100.0 == pct
  {
    pct * 100.0
  }

  function HySpreadGrade(bps: real): (r: (Level, Status))
    ensures r.0 == Red <==> bps > 500.0
    ensures r.0 == Yellow <==> 400.0 < bps <= 500.0
    ensures r.0 == Green <==> bps <= 400.0
    ensures r.1 == match r.0 case Red => Danger case Yellow => Caution case Green => Normal
  {
    if bps > 500.0 then (Red, Danger)
    else if bps > 400.0 then (Yellow, Caution)
    else (Green, Normal)
  }

  lemma HySpreadGradeMonotone(a: real, b: real)
    requires a <= b
    ensures Severity(HySpreadGrade(a).0) <= Severity(HySpreadGrade(b).0)
  {
  }

  function HySpreadOutcome(d: MarketData): (r: IndicatorOutcome)
    ensures !r.DivisionByZero?
    ensures r.FetchFailed? <==> FredLatest(d.highYieldOas).Failed?
    ensures r.Computed? ==>
      var bps := PercentToBps(FredLatest(d.highYieldOas).value);
      r.result == IndicatorResult(Finite(bps), HySpreadGrade(bps).0, HySpreadGrade(bps).1)
  {
    var oas := FredLatest(d.highYieldOas);
    if oas.Failed? then FetchFailed(oas.failure)
    else
      var bps := PercentToBps(oas.value);
      var g := HySpreadGrade(bps);
      Computed(IndicatorResult(Finite(bps), g.0, g.1))
  }

  // ---------------------------------------------------------------------------
  // Net liquidity: Fed assets - TGA - reverse repo, in trillions

  /** Fed assets and the TGA are in millions, the reverse repo in billions. */
  function NetLiquidityTrillions(fedAssets: real, tga: real, rrpBillions: real): (t: real)
    ensures t * 1000000.0 + tga + rrpBillions * 1000.0 == fedAssets
  {
    (fedAssets - tga - rrpBillions * 1000.0) / 1000000.0
  }

  /** The trend compares the latest weekly value with the one about 13 weeks earlier
      (index max(0, n-13)); fewer than two points is reported as insufficient data. */
  function LiquidityTrend(history: seq<real>): (r: (Level, Status))
    ensures |history| < 2 ==> r == (Yellow, InsufficientData)
    ensures |history| >= 2 ==>
      var older := if |history| >= 13 then |history| - 13 else 0;
      (r.0 == Green <==> history[|history| - 1] > history[older]) &&
      (r.0 != Green ==> r == (Yellow, FallingTrend)) &&
      (r.0 == Green ==> r.1 == RisingTrend)
    ensures r.0 != Red
  {
    var n := |history|;
    if n >= 2 then
      var olderIdx := if n - 13 > 0 then n - 13 else 0;
      if history[n - 1] > history[olderIdx] then (Green, RisingTrend) else (Yellow, FallingTrend)
    else (Yellow, InsufficientData)
  }

  function NetLiquidityOutcome(d: MarketData): (r: IndicatorOutcome)
    ensures !r.DivisionByZero?
    ensures r.Computed? ==>
      FredLatest(d.fedAssets).Fetched? && FredLatest(d.treasuryGeneralAccount).Fetched? &&
      FredLatest(d.reverseRepo).Fetched? && FredSeries(d.fedAssetsHistory).Fetched? &&
      var t := NetLiquidityTrillions(FredLatest(d.fedAssets).value, FredLatest(d.treasuryGeneralAccount).value,
                                     FredLatest(d.reverseRepo).value);
      var trend := LiquidityTrend(FredSeries(d.fedAssetsHistory).value);
      r.result == IndicatorResult(Finite(t), trend.0, trend.1)
    ensures r.FetchFailed? <==>
      FredLatest(d.fedAssets).Failed? || FredLatest(d.treasuryGeneralAccount).Failed? ||
      FredLatest(d.reverseRepo).Failed? || FredSeries(d.fedAssetsHistory).Failed?
  {
    var fed := FredLatest(d.fedAssets);
    var tga := FredLatest(d.treasuryGeneralAccount);
    var rrp := FredLatest(d.reverseRepo);
    var history := FredSeries(d.fedAssetsHistory);
    if fed.Failed? then FetchFailed(fed.failure)
    else if tga.Failed? then FetchFailed(tga.failure)
    else if rrp.Failed? then FetchFailed(rrp.failure)
    else if history.Failed? then FetchFailed(history.failure)
    else
      var t := NetLiquidityTrillions(fed.value, tga.value, rrp.value);
      var trend := LiquidityTrend(history.value);
      Computed(IndicatorResult(Finite(t), trend.0, trend.1))
  }

  // ---------------------------------------------------------------------------
  // Rule of 20: trailing PE + |CPI year-on-year change|

  /** CPI change over twelve monthly observations, in percent, with numpy division (a
      zero base gives an infinity or NaN rather than an exception). */
  function CpiYoy(latest: real, yearAgo: real): (r: Float)
    ensures yearAgo != 0.0 ==> r == Finite((latest / yearAgo - 1.0) * 100.0)
    ensures yearAgo == 0.0 && latest == 0.0 ==> r.NaN?
    ensures yearAgo == 0.0 && latest != 0.0 ==> r.Inf?
  {
    FMul(FSub(FDiv(Finite(latest), Finite(yearAgo)), Finite(1.0)), Finite(100.0))
  }

  function RuleOf20Value(pe: real, cpiYoy: Float): (r: Float)
    ensures cpiYoy.Finite? ==> r == Finite(pe + Abs(cpiYoy.v))
    ensures cpiYoy.NaN? <==> r.NaN?
  {
    FAdd(Finite(pe), FAbs(cpiYoy))
  }

  /** Above 24 is red, above 20 yellow; every comparison with NaN is false, so a NaN
      value is graded green. */
  function RuleOf20Grade(v: Float): (r: (Level, Status))
    ensures r.0 == Red <==> FGreater(v, 24.0)
    ensures r.0 == Yellow <==> !FGreater(v, 24.0) && FGreater(v, 20.0)
    ensures r.0 == Green <==> !FGreater(v, 20.0)
    ensures v.NaN? ==> r.0 == Green
    ensures r.1 == match r.0 case Red => SeverelyOvervalued case Yellow => Overvalued case Green => Normal
  {
    if FGreater(v, 24.0) then (Red, SeverelyOvervalued)
    else if FGreater(v, 20.0) then (Yellow, Overvalued)
    else (Green, Normal)
  }

  lemma RuleOf20GradeMonotone(a: real, b: real)
    requires a <= b
    ensures Severity(RuleOf20Grade(Finite(a)).0) <= Severity(RuleOf20Grade(Finite(b)).0)
  {
  }

  /** Needs at least 13 CPI observations; the PE is fetched first. */
  function RuleOf20Outcome(d: MarketData): (r: IndicatorOutcome)
    ensures !r.DivisionByZero?
    ensures d.ruleOf20Pe.Failed? ==> r == FetchFailed(d.ruleOf20Pe.failure)
    ensures d.ruleOf20Pe.Fetched? && FredSeries(d.cpi).Failed? ==> r == FetchFailed(FredSeries(d.cpi).failure)
    ensures d.ruleOf20Pe.Fetched? && FredSeries(d.cpi).Fetched? && |FredSeries(d.cpi).value| < 13 ==>
      r == FetchFailed(TooFewCpiPoints)
    ensures r.Computed? <==> d.ruleOf20Pe.Fetched? && FredSeries(d.cpi).Fetched? && |FredSeries(d.cpi).value| >= 13
    ensures r.Computed? ==>
      d.ruleOf20Pe.Fetched? && FredSeries(d.cpi).Fetched? && |FredSeries(d.cpi).value| >= 13 &&
      var c := FredSeries(d.cpi).value;
      var v := RuleOf20Value(d.ruleOf20Pe.value, CpiYoy(c[|c| - 1], c[|c| - 13]));
      r.result == IndicatorResult(v, RuleOf20Grade(v).0, RuleOf20Grade(v).1)
  {
    if d.ruleOf20Pe.Failed? then FetchFailed(d.ruleOf20Pe.failure)
    else
      var cpi := FredSeries(d.cpi);
      if cpi.Failed? then FetchFailed(cpi.failure)
      else if |cpi.value| < 13 then FetchFailed(TooFewCpiPoints)
      else
        var c := cpi.value;
        var v := RuleOf20Value(d.ruleOf20Pe.value, CpiYoy(c[|c| - 1], c[|c| - 13]));
        var g := RuleOf20Grade(v);
        Computed(IndicatorResult(v, g.0, g.1))
  }

  /** The premium reads only its own PE request and the Rule of 20 only its own, so either
      can fail or return another value without touching the other indicator. */
  lemma PeReadsIndependent(d: MarketData, erpPe: Fetch<real>, ruleOf20Pe: Fetch<real>)
    ensures ErpOutcome(d.(ruleOf20Pe := ruleOf20Pe)) == ErpOutcome(d)
    ensures RuleOf20Outcome(d.(trailingPe := erpPe)) == RuleOf20Outcome(d)
  {
  }

  function OutcomeOf(ind: Indicator, d: MarketData): IndicatorOutcome
  {
    match ind
    case Erp => ErpOutcome(d)
    case Buffett => BuffettOutcome(d)
    case HySpread => HySpreadOutcome(d)
    case NetLiquidity => NetLiquidityOutcome(d)
    case RuleOf20 => RuleOf20Outcome(d)
  }

  // ---------------------------------------------------------------------------
  // Running every indicator

  /** The order in which the dashboard runs the indicators. */
  const AllIndicators: seq<Indicator> := [Erp, Buffett, HySpread, NetLiquidity, RuleOf20]

  datatype ErrorEntry = ErrorEntry(indicator: Indicator, failure: FetchFailure)

  /** State of the run_all_indicators loop: results so far, collected errors, and whether
      an uncaught exception ended the run. */
  datatype RunState = RunState(results: map<string, IndicatorResult>, errors: seq<ErrorEntry>, aborted: bool)

  function RunStep(st: RunState, ind: Indicator, d: MarketData): RunState
  {
    match OutcomeOf(ind, d)
    case Computed(res) => st.(results := st.results[Key(ind) := res])
    case FetchFailed(f) => st.(errors := st.errors + [ErrorEntry(ind, f)])
    case DivisionByZero => st.(aborted := true)
  }

  /** Runs the indicators in order until one raises an uncaught exception. */
  function RunFrom(st: RunState, inds: seq<Indicator>, d: MarketData): RunState
    decreases |inds|
  {
    if inds == [] || st.aborted then st
    else RunFrom(RunStep(st, inds[0], d), inds[1..], d)
  }

  /** The indicators of `inds` that failed to fetch, with their failures, in order. */
  function FetchErrors(inds: seq<Indicator>, d: MarketData): seq<ErrorEntry>
  {
    if inds == [] then []
    else
      var rest := FetchErrors(inds[1..], d);
      match OutcomeOf(inds[0], d)
      case FetchFailed(f) => [ErrorEntry(inds[0], f)] + rest
      case _ => rest
  }

  lemma TailHasNoDuplicates(inds: seq<Indicator>)
    requires inds != [] && NoDuplicates(inds)
    ensures NoDuplicates(inds[1..])
    ensures forall i :: 0 <= i < |inds| - 1 ==> inds[1..][i] != inds[0]
  {
    forall i, j | 0 <= i < j < |inds| - 1 ensures inds[1..][i] != inds[1..][j] {
      assert inds[1..][i] == inds[i + 1] && inds[1..][j] == inds[j + 1];
    }
  }

  /** A run that ends without an uncaught exception met none: every indicator ran. */
  lemma {:induction false} RunNeverDivides(st: RunState, inds: seq<Indicator>, d: MarketData)
    requires !st.aborted && !RunFrom(st, inds, d).aborted
    ensures forall j :: 0 <= j < |inds| ==> !OutcomeOf(inds[j], d).DivisionByZero?
    decreases |inds|
  {
    if inds != [] {
      RunNeverDivides(RunStep(st, inds[0], d), inds[1..], d);
      forall j | 0 < j < |inds| ensures !OutcomeOf(inds[j], d).DivisionByZero? {
        assert inds[j] == inds[1..][j - 1];
      }
    }
  }

  /** Errors are appended, one per indicator whose fetch failed, in run order. */
  lemma {:induction false} RunCollectsErrors(st: RunState, inds: seq<Indicator>, d: MarketData)
    requires !st.aborted && !RunFrom(st, inds, d).aborted
    ensures RunFrom(st, inds, d).errors == st.errors + FetchErrors(inds, d)
    decreases |inds|
  {
    if inds != [] {
      var next := RunStep(st, inds[0], d);
      RunCollectsErrors(next, inds[1..], d);
    }
  }

  /** Every indicator that computed a result has it stored under its own key. */
  lemma {:induction false} RunStoresEachResult(st: RunState, inds: seq<Indicator>, d: MarketData)
    requires !st.aborted && NoDuplicates(inds) && !RunFrom(st, inds, d).aborted
    ensures var fin := RunFrom(st, inds, d);
      forall j :: 0 <= j < |inds| && OutcomeOf(inds[j], d).Computed? ==>
        Key(inds[j]) in fin.results && fin.results[Key(inds[j])] == OutcomeOf(inds[j], d).result
    decreases |inds|
  {
    if inds != [] {
      var next := RunStep(st, inds[0], d);
      var rest := inds[1..];
      TailHasNoDuplicates(inds);
      RunStoresEachResult(next, rest, d);
      RunKeepsOtherKeys(next, rest, d);
      var fin := RunFrom(next, rest, d);
      forall j | 0 <= j < |inds| && OutcomeOf(inds[j], d).Computed?
        ensures Key(inds[j]) in fin.results && fin.results[Key(inds[j])] == OutcomeOf(inds[j], d).result
      {
        if j > 0 {
          assert inds[j] == rest[j - 1];
        } else {
          if OwnsKey(rest, d, Key(inds[0])) {
            var i :| 0 <= i < |rest| && OutcomeOf(rest[i], d).Computed? && Key(rest[i]) == Key(inds[0]);
            KeyInjective(rest[i], inds[0]);
          }
        }
      }
    }
  }

  /** Some indicator of `inds` computes a result and stores it under `k`. */
  predicate OwnsKey(inds: seq<Indicator>, d: MarketData, k: string)
  {
    exists j :: 0 <= j < |inds| && OutcomeOf(inds[j], d).Computed? && Key(inds[j]) == k
  }

  /** A key that no computed indicator of the run owns keeps its previous entry. */
  lemma {:induction false} RunKeepsOtherKeys(st: RunState, inds: seq<Indicator>, d: MarketData)
    ensures var fin := RunFrom(st, inds, d);
      forall k :: !OwnsKey(inds, d, k) ==>
        (k in fin.results <==> k in st.results) && (k in st.results ==> fin.results[k] == st.results[k])
    decreases |inds|
  {
    if inds != [] && !st.aborted {
      var rest := inds[1..];
      RunKeepsOtherKeys(RunStep(st, inds[0], d), rest, d);
    }
  }

  /** The dashboard's run: with no uncaught exception, each of the five indicators either
      stores its own result or adds one error, and every other key is left alone. */
  lemma AllIndicatorsIsolated(results0: map<string, IndicatorResult>, d: MarketData)
    requires !RunFrom(RunState(results0, [], false), AllIndicators, d).aborted
    ensures var fin := RunFrom(RunState(results0, [], false), AllIndicators, d);
      && fin.errors == FetchErrors(AllIndicators, d)
      && (forall ind :: OutcomeOf(ind, d).Computed? ==> Key(ind) in fin.results && fin.results[Key(ind)] == OutcomeOf(ind, d).result)
      && (forall k :: !OwnsKey(AllIndicators, d, k) ==> (k in fin.results <==> k in results0) && (k in results0 ==> fin.results[k] == results0[k]))
  {
    var st := RunState(results0, [], false);
    assert NoDuplicates(AllIndicators);
    RunCollectsErrors(st, AllIndicators, d);
    RunStoresEachResult(st, AllIndicators, d);
    RunKeepsOtherKeys(st, AllIndicators, d);
    var fin := RunFrom(st, AllIndicators, d);
    forall ind | OutcomeOf(ind, d).Computed?
      ensures Key(ind) in fin.results && fin.results[Key(ind)] == OutcomeOf(ind, d).result
    {
      var j := match ind case Erp => 0 case Buffett => 1 case HySpread => 2 case NetLiquidity => 3 case RuleOf20 => 4;
      assert AllIndicators[j] == ind;
    }
  }

  lemma KeyInjective(a: Indicator, b: Indicator)
    ensures Key(a) == Key(b) ==> a == b
  {
  }

  class Dashboard {
    var results: map<string, IndicatorResult>

    /** The key check of the constructor; the FRED client itself is not modelled. */
    constructor (fredApiKey: string)
      requires fredApiKey != ""
      ensures results == map[]
    {
      results := map[];
    }

    /** Each calculate_* method stores its result under its own key only when it
        completes; an exception leaves `results` unchanged. */
    method Calculate(ind: Indicator, d: MarketData) returns (o: IndicatorOutcome)
      modifies this
      ensures o == OutcomeOf(ind, d)
      ensures results == if o.Computed? then old(results)[Key(ind) := o.result] else old(results)
    {
      o := OutcomeOf(ind, d);
      if o.Computed? {
        results := results[Key(ind) := o.result];
      }
    }

    /** Runs every indicator in order, collecting fetch failures; a ZeroDivisionError ends
        the run (`aborted`). */
    method RunAllIndicators(d: MarketData) returns (errors: seq<ErrorEntry>, aborted: bool)
      modifies this
      ensures var fin := RunFrom(RunState(old(results), [], false), AllIndicators, d);
        results == fin.results && errors == fin.errors && aborted == fin.aborted
    {
      errors := [];
      aborted := false;
      var i := 0;
      ghost var start := RunState(old(results), [], false);
      while i < |AllIndicators|
        invariant 0 <= i <= |AllIndicators|
        invariant RunFrom(start, AllIndicators, d) == RunFrom(RunState(results, errors, false), AllIndicators[i..], d)
      {
        var ind := AllIndicators[i];
        ghost var before := RunState(results, errors, false);
        var o := Calculate(ind, d);
        assert AllIndicators[i..][0] == ind && AllIndicators[i..][1..] == AllIndicators[i + 1..];
        if o.DivisionByZero? {
          aborted := true;
          assert RunStep(before, ind, d) == RunState(results, errors, true);
          return;
        }
        if o.FetchFailed? {
          errors := errors + [ErrorEntry(ind, o.failure)];
        }
        i := i + 1;
      }
    }
  }

  /** The constructor's guard: an empty API key raises DataFetchError. */
  method NewDashboard(fredApiKey: string) returns (r: Option<Dashboard>)
    ensures r.None? <==> fredApiKey == ""
    ensures r.Some? ==> fresh(r.value) && r.value.results == map[]
  {
    if fredApiKey == "" {
      return None;
    }
    var dash := new Dashboard(fredApiKey);
    r := Some(dash);
  }
}
