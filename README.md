# Investment scripts, modelled and proved in Dafny

This project models the deterministic rules inside a collection of personal-investment
scripts: a Monte Carlo projection of a treasury / ETF / 401k portfolio, a real-estate
discounted-cash-flow valuation, a dashboard of market-warning indicators, the
reconstruction of the S&P 500's yearly constituents from its change log, the ranking of
each year's best performers, several option-screening tools (seller's annualised return,
nearest expiration, strike band, best pick per ticker, a download loop with one retry, the
Black-Scholes expiry branch and the implied-volatility fallback, a chain dashboard), a
dollar-cost-averaging back-test, the analysis of the central bank's monthly deposit
tables, and two studies of forward equity returns against CAPE and forward PE.

Each script becomes one module. Money is a Dafny `real`, so arithmetic is exact. numpy's
division by zero and its NaN are modelled by `Common.Float` (`Finite`, `Inf`, `NaN`).
Dates are integer day numbers. Downloads, parsed files and the random draws are passed in
as values. Transcendental functions (the normal distribution, logarithms, n-th roots,
the implied-volatility solver) are passed in as function-typed parameters. The fitting
routines (least squares, quantiles) are passed in as their results. Loops in the scripts
are methods with loop invariants, proved against specification functions. The lemmas
beside them state what the scripts promise: counts, bounds, the tax arithmetic,
round trips and the filtering rules.

Shared modules:
- `Common`: `Option`, `Float`, sums, means, minimum and maximum, `Filter`.
- `Sorting`: a stable sort by a real-valued key. It matches Python's stable `sorted` and
  `list.sort`; where the scripts call pandas or numpy sorts, whose default quicksort leaves
  the order of equal keys unspecified, it breaks ties by input order.
- `Strings`: string order, splitting, stripping and decimal rendering.

## Model

| member | source | states |
|---|---|---|
| InvestmentSimulator.MarketEstimates | investment_analysis/investment_simulator.py:78-94 | the measured return and deviation are used only when both indices were fetched; otherwise both fall back to 10.2% + 1.4% / 16% and 13.5% + 0.5% / 32% |
| InvestmentSimulator.MonthsToTransferValue | investment_analysis/investment_simulator.py:67-69 | the number of transfer months is the integer quotient 320000 // 10000 = 32 |
| InvestmentSimulator.LinspacePrefix | investment_analysis/investment_simulator.py:106 | the first k points of the rate schedule number k |
| InvestmentSimulator.Linspace | investment_analysis/investment_simulator.py:106 | the rate schedule has one entry per year |
| InvestmentSimulator.LinspacePrefixAt | investment_analysis/investment_simulator.py:106 | every prefix agrees with the closed-form point start + i·(stop − start)/(n − 1) |
| InvestmentSimulator.LinspaceShape | investment_analysis/investment_simulator.py:106 | the schedule starts at 4.25%, ends at 2.5% and falls in equal steps |
| InvestmentSimulator.TreasuryMonthStep | investment_analysis/investment_simulator.py:116-122 | the loop body's transfer, interest and balance update perform exactly one month of the ledger, with the transfer leaving before interest is computed |
| InvestmentSimulator.TreasuryPrefix | investment_analysis/investment_simulator.py:109-127 | after k years the list holds k + 1 balances |
| InvestmentSimulator.TreasuryPath | investment_analysis/investment_simulator.py:109-129 | the yearly list has years + 1 entries |
| InvestmentSimulator.TreasuryPrefixAt | investment_analysis/investment_simulator.py:110-127 | entry 0 is the initial balance and entry i is the ledger's balance after i years |
| InvestmentSimulator.TreasuryMonthsTransfers | investment_analysis/investment_simulator.py:117-119 | the transfer counter never passes 32: after j more months it is min(32, start + j) |
| InvestmentSimulator.TreasuryTransferCount | investment_analysis/investment_simulator.py:113-119 | over k years exactly min(32, 12·k) transfers of 10000 are made |
| InvestmentSimulator.TreasuryMonthsConserve | investment_analysis/investment_simulator.py:116-122 | within a year the balance equals the start balance, less 10000 per transfer made, plus the interest accrued |
| InvestmentSimulator.TreasuryYearEnd | investment_analysis/investment_simulator.py:123-127 | a year end records the pre-tax balance minus 0.37 × the year's summed monthly interest, so the balance keeps 63% of the interest |
| InvestmentSimulator.TreasuryAfterNext | investment_analysis/investment_simulator.py:113-127 | each year applies twelve months at rate/12 and then the interest tax |
| InvestmentSimulator.TreasuryMonthLoop | investment_analysis/investment_simulator.py:115-122 | the month loop leaves the balance, the counter and the year's interest of twelve ledger months |
| InvestmentSimulator.SimulateTreasuryReturns | investment_analysis/investment_simulator.py:103-129 | the yearly balances are the ledger path over the linspace schedule: years + 1 entries, the first being the initial balance |
| InvestmentSimulator.StockBalanceNext | investment_analysis/investment_simulator.py:149-157 | a month adds the contribution only while fewer than 32 have been made, then multiplies the balance by 1 + the drawn return |
| InvestmentSimulator.StockBalanceWithoutGrowth | investment_analysis/investment_simulator.py:145-152 | with zero returns the balance is the initial amount plus one contribution per month among the first 32 |
| InvestmentSimulator.NoGainNoTax | investment_analysis/investment_simulator.py:160-162 | the tax's cost basis, initial + monthly × min(32, 12·years), is exactly what was paid in, so zero returns are not taxed |
| InvestmentSimulator.CapitalGainsTaxShare | investment_analysis/investment_simulator.py:160-162 | the last column keeps the basis plus 80% of the gain (or bears 80% of the loss) |
| InvestmentSimulator.SimulateStockReturnsWithMonthlyInvestment | investment_analysis/investment_simulator.py:131-164 | the matrix has one row per trial and years + 1 columns; column 0 is the initial amount, interior columns the year-end balances with the fee-adjusted mean return, and only the last column is taxed |
| InvestmentSimulator.SimulateStockTrial | investment_analysis/investment_simulator.py:144-158 | one trial fills its own row's year-end balances and leaves every other cell unchanged |
| InvestmentSimulator.Balance401kCompounds | investment_analysis/investment_simulator.py:172-177 | the 401k balance after y years is the initial amount times the product of the y growth factors |
| InvestmentSimulator.Balance401kNext | investment_analysis/investment_simulator.py:174-176 | each year multiplies the balance by 1 + the drawn return |
| InvestmentSimulator.Simulate401kReturns | investment_analysis/investment_simulator.py:166-179 | the matrix has years + 1 columns per trial, column 0 the initial amount and column y the balance after y years |
| InvestmentSimulator.Simulate401kTrial | investment_analysis/investment_simulator.py:172-177 | one trial fills its own row and leaves the other rows unchanged |
| InvestmentSimulator.TotalPortfolio | investment_analysis/investment_simulator.py:200-204 | each cell of the total is the treasury balance of that year (broadcast to every trial) plus the VOO, QQQM and 401k cells |
| InvestmentSimulator.SimulatePortfolio | investment_analysis/investment_simulator.py:78-204 | the two stock simulations run on the estimates `MarketEstimates` picks from the fetched ones, and the four simulations run on the script's constants (30 years, 100000 trials, 5000 a month per ETF, the two expense ratios, 10% ± 15% for the 401k) and are summed cell by cell |
| RealEstateDcf.ProjectionStep | real_estate_dcf/dcf_calculator.py:53-64 | one loop pass yields NOI (income − expenses − value·tax)·(1+g)^year and grows all three quantities by the same factor |
| RealEstateDcf.DiscountingUndoesCompounding | real_estate_dcf/dcf_calculator.py:80-84 | dividing by (1+d)^n and multiplying back by (1+d)^n returns the amount |
| RealEstateDcf.FlatWhenGrowthIsDiscount | real_estate_dcf/dcf_calculator.py:64-80 | when the growth rate equals the discount rate every year's present value is the first year's NOI over (1+g) |
| RealEstateDcf.RealEstateDCF.constructor | real_estate_dcf/dcf_calculator.py:8-16 | a new calculator has every parameter 0 except a 10-year projection |
| RealEstateDcf.RealEstateDCF.SetParameters | real_estate_dcf/dcf_calculator.py:21-44 | stores each parameter and the property value, or 20 × the rental income when the value given is not positive |
| RealEstateDcf.RealEstateDCF.CalculateCashFlows | real_estate_dcf/dcf_calculator.py:46-66 | exactly projection_years cash flows, year i being (income − expenses − value·tax)·(1+g)^i, computed without changing the object |
| RealEstateDcf.RealEstateDCF.CalculateTerminalValue | real_estate_dcf/dcf_calculator.py:68-70 | the terminal value times the cap rate is final NOI × (1+g); a zero cap rate is a division error |
| RealEstateDcf.RealEstateDCF.CalculatePresentValue | real_estate_dcf/dcf_calculator.py:72-88 | one present value per cash flow, cf_i/(1+d)^(i+1), the terminal value over (1+d)^N, and a total equal to their sum; no cash flows, a zero cap rate or d = −1 are errors |
| RealEstateDcf.RealEstateDCF.PresentValueCompounds | real_estate_dcf/dcf_calculator.py:80 | compounding a year's present value by (1+d)^(i+1) gives back its cash flow |
| RealEstateDcf.RealEstateDCF.TerminalValuePvCompounds | real_estate_dcf/dcf_calculator.py:70-84 | compounding the terminal value's present value by (1+d)^N and multiplying by the cap rate gives final NOI × (1+g) |
| RealEstateDcf.RealEstateDCF.AnnualTaxIsFirstYearTax | real_estate_dcf/dcf_calculator.py:55-58 | the reported annual property tax, value × tax rate, is the tax deducted from the first year's cash flow |
| RealEstateDcf.RealEstateDCF.GrowthEqualsDiscount | real_estate_dcf/dcf_calculator.py:62-80 | when growth equals the discount rate every year has the same present value |
| MarketIndicators.DropNa | market_indicators/market_indicators.py:67 | keeps only present observations, all of them, and is no longer than the series |
| MarketIndicators.DropNaAppend | market_indicators/market_indicators.py:67 | an observation appended to the series is appended to the kept values exactly when it is present, so the kept values stay in series order |
| MarketIndicators.DropNaLast | market_indicators/market_indicators.py:67 | when entry j is present and every later entry is missing, the kept values are non-empty and end with entry j's value |
| MarketIndicators.FredSeries | market_indicators/market_indicators.py:59-74 | a FRED series fails when the request fails, when it is empty, or when nothing is left after dropping missing values; otherwise it is the present values |
| MarketIndicators.FredLatest | market_indicators/market_indicators.py:76-79 | the latest value is the last present observation, and it fails exactly when the series does |
| MarketIndicators.FredLatestIsLastPresent | market_indicators/market_indicators.py:76-79 | when entry j of a fetched series is present and every later entry is missing, the latest value is entry j's value |
| MarketIndicators.ImpliedErp | market_indicators/market_indicators.py:150-155 | the implied premium plus the 10-year yield is dividend yield + 2.0 buyback + 5.0 growth |
| MarketIndicators.ErpGrade | market_indicators/market_indicators.py:159-167 | red iff below 3.0, yellow iff in [3.0, 4.0), green iff at least 4.0 (exactly 3.0 is yellow), with the matching status |
| MarketIndicators.ErpGradeMonotone | market_indicators/market_indicators.py:159-167 | a larger premium is never more alarming |
| MarketIndicators.ErpOutcome | market_indicators/market_indicators.py:131-170 | fails to fetch exactly when one of PE, dividend yield and 10-year yield fails, with the first failure in that order; computes exactly when all three are fetched and PE is non-zero, holding the implied premium and its grade; a zero PE raises a division error through the unused earnings yield |
| MarketIndicators.BuffettRatio | market_indicators/market_indicators.py:187 | the ratio times GDP is 100 × market capitalisation |
| MarketIndicators.BuffettGrade | market_indicators/market_indicators.py:190-198 | red iff above 180, yellow iff in (140, 180], green iff at most 140 |
| MarketIndicators.BuffettGradeMonotone | market_indicators/market_indicators.py:190-198 | a higher valuation is never less alarming |
| MarketIndicators.BuffettOutcome | market_indicators/market_indicators.py:172-201 | fails to fetch exactly when the equity value or GDP fails, with the equity value's failure first; computes exactly when both are fetched and GDP is non-zero, holding the ratio and its grade; a zero GDP is a division error |
| MarketIndicators.PercentToBps | market_indicators/market_indicators.py:215 | the spread in basis points divided by 100 is the percentage |
| MarketIndicators.HySpreadGrade | market_indicators/market_indicators.py:219-227 | red iff above 500 bps, yellow iff in (400, 500], green iff at most 400 |
| MarketIndicators.HySpreadGradeMonotone | market_indicators/market_indicators.py:219-227 | a wider spread is never less alarming |
| MarketIndicators.HySpreadOutcome | market_indicators/market_indicators.py:203-230 | fails exactly when the OAS fetch fails, never divides, and otherwise holds the spread in bps and its grade |
| MarketIndicators.NetLiquidityTrillions | market_indicators/market_indicators.py:243-251 | the value in trillions, scaled back to millions, plus the TGA and 1000 × the reverse repo, is the Fed's assets |
| MarketIndicators.LiquidityTrend | market_indicators/market_indicators.py:254-270 | fewer than 2 points is yellow with insufficient data; otherwise green (rising) iff the last point is strictly above the one at max(0, n − 13), else yellow (falling); never red |
| MarketIndicators.NetLiquidityOutcome | market_indicators/market_indicators.py:232-273 | fails exactly when one of the four fetches fails; otherwise holds net liquidity in trillions and the trend's grade |
| MarketIndicators.CpiYoy | market_indicators/market_indicators.py:293-295 | the CPI change is (last / 13th from last − 1) × 100, with numpy's NaN for 0/0 and infinity for x/0 |
| MarketIndicators.RuleOf20Value | market_indicators/market_indicators.py:297 | PE plus the absolute CPI change; NaN exactly when the change is NaN |
| MarketIndicators.RuleOf20Grade | market_indicators/market_indicators.py:300-308 | red iff above 24, yellow iff in (20, 24], green otherwise; a NaN value compares false and is green |
| MarketIndicators.RuleOf20GradeMonotone | market_indicators/market_indicators.py:300-308 | a larger value is never less alarming |
| MarketIndicators.RuleOf20Outcome | market_indicators/market_indicators.py:275-311 | a failure of its own PE request (separate from the premium's) is reported first, then a CPI fetch failure passed through unchanged; fewer than 13 CPI points raises a fetch error; computes exactly when both are fetched and CPI has at least 13 points, holding PE + abs(CPI change) and its grade |
| MarketIndicators.PeReadsIndependent | market_indicators/market_indicators.py:142-286 | the two PE requests (lines 142 and 286) are separate reads: the premium's outcome does not depend on the Rule of 20's PE request, nor the Rule of 20's outcome on the premium's |
| MarketIndicators.TailHasNoDuplicates | market_indicators/market_indicators.py:320-326 | the rest of a duplicate-free indicator list is duplicate-free and lacks its head |
| MarketIndicators.RunNeverDivides | market_indicators/market_indicators.py:327-330 | a run that ends normally met no division error: the `except` clause catches only fetch errors |
| MarketIndicators.RunCollectsErrors | market_indicators/market_indicators.py:317-330 | the errors are those collected before plus one entry per failing indicator, in run order |
| MarketIndicators.RunStoresEachResult | market_indicators/market_indicators.py:169-310 | every indicator that completes has its result stored under its own key |
| MarketIndicators.RunKeepsOtherKeys | market_indicators/market_indicators.py:169-310 | a key no completed indicator owns keeps its previous entry |
| MarketIndicators.AllIndicatorsIsolated | market_indicators/market_indicators.py:313-330 | over the five indicators, the errors are exactly the failing fetches, each completed indicator stores its own key, and a failure leaves the other keys alone |
| MarketIndicators.KeyInjective | market_indicators/market_indicators.py:169-310 | distinct indicators write distinct keys |
| MarketIndicators.Dashboard.constructor | market_indicators/market_indicators.py:51-57 | a dashboard is built only from a non-empty key and starts with no results |
| MarketIndicators.Dashboard.Calculate | market_indicators/market_indicators.py:131-311 | an indicator that completes stores its result under its own key; one that raises leaves the results unchanged |
| MarketIndicators.Dashboard.RunAllIndicators | market_indicators/market_indicators.py:313-330 | the loop leaves the results and errors of the specified run, and stops at a division error |
| MarketIndicators.NewDashboard | market_indicators/market_indicators.py:51-53 | an empty API key raises the fetch error; otherwise a new dashboard with no results |
| Sp500Components.UndoChange | sp500_history/sp500_historical_components.py:206-213 | after undoing a change a ticker is in the set iff it is the removed entry, or it was in the set and is not the added entry |
| Sp500Components.UndoBlankChange | sp500_history/sp500_historical_components.py:208-213 | a change whose Added and Removed are empty or missing leaves the set unchanged |
| Sp500Components.UndoChangesUntouched | sp500_history/sp500_historical_components.py:205-213 | a ticker no change of the year mentions keeps its membership |
| Sp500Components.UndoChangesLastMention | sp500_history/sp500_historical_components.py:205-213 | the last change of a year that mentions a ticker decides it: in iff that change removed it |
| Sp500Components.MostRecentFirst | sp500_history/sp500_historical_components.py:192 | the changes are reordered, not altered, and dated in descending order |
| Sp500Components.SnapshotUntouched | sp500_history/sp500_historical_components.py:198-216 | a ticker that no change from the year onwards mentions has today's membership in that year's snapshot |
| Sp500Components.SetLeast | sp500_history/sp500_historical_components.py:216 | every non-empty set of tickers has a least ticker in string order |
| Sp500Components.SortedList | sp500_history/sp500_historical_components.py:216 | `sorted(list(companies))` is strictly ascending, holds exactly the set's tickers, and has one entry per ticker |
| Sp500Components.UndoYearChanges | sp500_history/sp500_historical_components.py:205-213 | the inner loop undoes the year's changes one after the other, in descending date order |
| Sp500Components.WalkYear | sp500_history/sp500_historical_components.py:201-216 | one year of the walk: the year's changes undone, then a sorted duplicate-free snapshot of the resulting set |
| Sp500Components.ProcessHistoricalData | sp500_history/sp500_historical_components.py:177-223 | one entry for each year from the current year down to 2000; each a strictly ascending list of exactly the tickers of the backward walk from a copy of today's set at that year |
| Sp500Components.SnapshotsListed | sp500_history/sp500_historical_components.py:216 | the snapshots listed by the loop are exactly the sets of the walk, in sorted form |
| Sp500Components.CurrentTableMap | sp500_history/sp500_historical_components.py:88-94 | a company is mapped iff some row of the current table with at least two cells names it |
| Sp500Components.CurrentTableMapLastWins | sp500_history/sp500_historical_components.py:89-94 | a company's ticker is the one on the last row naming it |
| Sp500Components.BuildCompanyToTicker | sp500_history/sp500_historical_components.py:85-94 | the mapping-building loop produces the table's map |
| Sp500Components.AddPairs | sp500_history/sp500_historical_components.py:107-113 | extra (ticker, company) cell pairs 4–5, 6–7, … only add or overwrite entries, each from a pair with a non-empty ticker and company |
| Sp500Components.ResolveTicker | sp500_history/sp500_historical_components.py:116-128 | an entry without a space is used verbatim; an entry with a space is looked up as a company name, giving '' when it is not mapped |
| Sp500Components.GetHistoricalChanges | sp500_history/sp500_historical_components.py:80-172 | the changes are the rows with a parsable date, in table order, their entries resolved through the map as it stands at that row; a short row or no dated row at all is an error |
| Sp500Components.CheckCompanyInYear | sp500_history/sp500_historical_components.py:281-297 | None when the file cannot be read or lacks the year; otherwise whether the ticker is listed for that year |
| Sp500Components.QueryMatchesWalk | sp500_history/sp500_historical_components.py:281-294 | on reconstructed data, the query answers from the backward walk for years 2000 to the current one and None for any other year |
| TopPerformers.StockResult | sp500_history/analyze_top_performers.py:15-47 | a result exists iff the download gave at least 2 closes and a non-zero first close; it records the first and last closes and the day count, and its rate × first = (last − first) × 100 |
| TopPerformers.ReturnSign | sp500_history/analyze_top_performers.py:33-35 | the rate is 0 exactly when the price ends where it started, and positive exactly when it ends higher |
| TopPerformers.ValidResults | sp500_history/analyze_top_performers.py:62-68 | the kept results number at most the constituents and each belongs to one of them |
| TopPerformers.ValidResultsAppend | sp500_history/analyze_top_performers.py:62-68 | one more constituent appends its result at the end exactly when it has one, so the results follow constituent order |
| TopPerformers.ValidResultsComplete | sp500_history/analyze_top_performers.py:62-72 | every constituent with a result contributes it, and the results are empty exactly when no constituent has one |
| TopPerformers.Ranking | sp500_history/analyze_top_performers.py:75 | the ranking is a permutation of the results in descending order of return |
| TopPerformers.TopDominates | sp500_history/analyze_top_performers.py:75-76 | the top k hold at most k results, all from the input, each returning at least as much as every result left out |
| TopPerformers.AnalyzeYear | sp500_history/analyze_top_performers.py:49-97 | the year, the first ten of the ranking and the first three of those; no valid result gives (year, []) |
| TopPerformers.TopThreeEmptyOnlyWithoutData | sp500_history/analyze_top_performers.py:70-121 | the top three are empty exactly when the results are, that is (by ValidResultsComplete) when no stock had data |
| TopPerformers.YearsToAnalyse | sp500_history/analyze_top_performers.py:110-115 | the years analysed are exactly the file's years from 2000 to the current year, in strictly descending order |
| TopPerformers.SummaryFor | sp500_history/analyze_top_performers.py:119-127 | a summary entry for a year is "insufficient data" exactly when no stock had data, otherwise its top three |
| TopPerformers.Summarize | sp500_history/analyze_top_performers.py:99-127 | one summary entry per analysed year, in descending year order |
| OptionScreening.AnnualizedReturn | options/options_analysis.py:55-69 | with a positive risk (strike − premium for a put, 2 × spot for a call) the return × risk × days = premium × 365 × 100; with no positive risk it is 0 |
| OptionScreening.AnnualizedReturnSign | options/options_analysis.py:66-68 | with days left and something at risk, the return is positive exactly when the premium is |
| OptionScreening.CallReturnGrowsWithPremium | options/options_analysis.py:60-68 | for a call, a larger premium never gives a smaller return |
| OptionScreening.Distance | options/options_analysis.py:77-81 | the distance is the absolute value of the whole-day difference |
| OptionScreening.FirstNearestUnique | options/options_analysis.py:76-86 | at most one index is the first of the nearest expirations, so the choice is determined |
| OptionScreening.NearestIndexIsFirstNearest | options/options_analysis.py:76-86 | the index chosen is at minimal distance from the target and no earlier index is as near (ties go to the first) |
| OptionScreening.ClosestExpiration | options/options_analysis.py:71-86 | None exactly for an empty list; otherwise an element of the list |
| OptionScreening.FindClosestExpiration | options/options_analysis.py:71-86 | the loop with its strict `<` returns the first nearest expiration, or None for an empty list |
| OptionScreening.NearestToHorizons | options/options_analysis.py:122-133 | one candidate per horizon (7, 14, 30, 60 days), each from the list, None exactly when the list is empty |
| OptionScreening.Deduplicated | options/options_analysis.py:131-135 | the selection holds no duplicates, at most one entry per candidate, and exactly the candidates found |
| OptionScreening.DistinctCandidatesKeepOrder | options/options_analysis.py:131-135 | when every horizon finds a different expiration, all are kept in horizon order |
| OptionScreening.SelectExpirations | options/options_analysis.py:121-135 | at most 4 distinct expirations, all from the list, in target order; empty only when the list is |
| OptionScreening.SelectNearest | options/options_analysis.py:131-135 | the loop over any list of targets yields the deduplicated nearest expirations, in target order |
| OptionScreening.SelectOne | options/options_analysis.py:133-135 | one pass finds the first nearest expiration to its target and appends it only when it is new |
| OptionScreening.NothingFoundNothingSelected | options/options_analysis.py:134-135 | when no target finds an expiration, none is selected |
| OptionScreening.SelectionFacts | options/options_analysis.py:131-135 | for any horizons the selection is duplicate-free, at most one per horizon, drawn from the list and empty only for an empty list |
| OptionScreening.StrikeDistance | options/options_analysis.py:174 | the fallback's key is the absolute distance of the strike from the spot |
| OptionScreening.BandRows | options/options_analysis.py:164-175 | the analysed rows are drawn from the chain |
| OptionScreening.BandRowsWithinBounds | options/options_analysis.py:167-171 | with some strike in [0.9·S, 1.1·S], exactly the rows in the band are analysed |
| OptionScreening.NothingInBounds | options/options_analysis.py:167-169 | with no strike in the band the filtered table is empty |
| OptionScreening.BandRowsFallback | options/options_analysis.py:172-175 | with no strike in the band, the min(5, n) rows nearest to the spot are analysed and no row left out is nearer |
| OptionScreening.ScreenQuotes | options/options_analysis.py:177-209 | one result per analysed row |
| OptionScreening.ScreenQuotesTagged | options/options_analysis.py:195-207 | every result carries the ticker, type, expiration, days left and spot |
| OptionScreening.ScreenQuotesRecordRows | options/options_analysis.py:177-209 | result i records row i: strike, premium, IV, exercise probability × 100, the annualised return, and 0 for a missing volume or open interest |
| OptionScreening.AppendScreened | options/options_analysis.py:177-209 | the `iterrows` loop appends exactly the screened rows, in order |
| OptionScreening.BestOfKind | options/options_analysis.py:279-285 | no pick exactly when no option of the type has exercise probability below 30; otherwise a result of that type below 30 whose return is at least that of every such result |
| OptionScreening.BestOfKindFacts | options/options_analysis.py:282-285 | the first of the type in the descending ranking of the low-exercise options is one of the results and has the highest return of its type |
| OptionScreening.BestOfKindFirstAmongTies | options/options_analysis.py:279-285 | when several low-exercise results of the type share the best return, the pick is the first of them in input order (the descending sort keeps ties in order and `next` takes the first) |
| OptionScreening.Picks | options/options_analysis.py:287-292 | at most two picks, exactly the put and the call found |
| OptionScreening.BestOptions | options/options_analysis.py:276-292 | at most one put and one call per ticker |
| OptionScreening.BestOptionsPicks | options/options_analysis.py:276-292 | each pick belongs to the ticker, is one of its results and has exercise probability below 30 |
| OptionScreening.BestOverallPicks | options/options_analysis.py:309 | the overall table has at most 10 rows, each a result with exercise probability below 30 |
| OptionScreening.BestOverallIsBest | options/options_analysis.py:309 | no low-exercise result left out of the overall table returns more than one kept |
| OptionScreening.BestOverallKeepsAll | options/options_analysis.py:309 | with ten or fewer low-exercise results, the overall table holds all of them |
| OptionsAnalysis.SpotPrice | options/options_analysis.py:100-103 | the quoted price, or the last daily close when the quote is 0 |
| OptionsAnalysis.ExpirationResultsTagged | options/options_analysis.py:140-263 | every result of an expiration carries the ticker, the expiration, the spot and the positive number of days left; past expirations and failed chains give none |
| OptionsAnalysis.TickerResultsAreLive | options/options_analysis.py:140-268 | every result of a ticker belongs to it and to a selected expiration still days away |
| OptionsAnalysis.AppendExpiration | options/options_analysis.py:140-268 | one pass of the expiration loop appends the banded puts' results and then the banded calls' results |
| OptionsAnalysis.AnalyzeExpirations | options/options_analysis.py:140-268 | the expiration loop appends the results of the selected expirations, in selection order |
| OptionsAnalysis.RunPicksFromResults | options/options_analysis.py:275-292 | the picks number at most two per ticker, each one of the accumulated results with exercise probability below 30 |
| OptionsAnalysis.AnalyzeTicker | options/options_analysis.py:92-297 | a ticker whose data or expiration list cannot be fetched adds nothing; otherwise its results are appended and its best put and call picked from all results carrying its name |
| OptionsAnalysis.RunResultsAreLive | options/options_analysis.py:88-297 | every accumulated result belongs to one of the tickers and to an expiration with days left |
| OptionsAnalysis.AnalyzeOptions | options/options_analysis.py:88-297 | the ticker loop produces the specified results and picks |
| LocalOptions.ExpirationList | options/analyze_local_data.py:101-105 | the dates listed in the info file when there are any; otherwise one date per puts file name, each the longest prefix before the first '_' (the whole name when it has none) |
| LocalOptions.ExtendsTransitive | options/analyze_local_data.py:113-230 | appending rows for the same ticker, spot and expiration twice is one such append |
| LocalOptions.AppendedRowsExtend | options/analyze_local_data.py:145-177 | the rows screened from a table extend the results with rows carrying the ticker, spot, expiration and days left |
| LocalOptions.CallsStepExtends | options/analyze_local_data.py:180-230 | the calls half only appends rows for the expiration and never changes the band |
| LocalOptions.ExpirationStepExtends | options/analyze_local_data.py:113-234 | an unparsable date or one not in the future changes nothing; otherwise the date only appends rows for itself |
| LocalOptions.ExtendsLiveTransitive | options/analyze_local_data.py:113-234 | appending rows that are all for the ticker and still days away composes |
| LocalOptions.ExpirationStepLive | options/analyze_local_data.py:115-120 | every row one date appends belongs to the ticker and has a positive number of days left |
| LocalOptions.ExpirationsScanLive | options/analyze_local_data.py:113-234 | the whole date loop appends only rows of the ticker with days left |
| LocalOptions.ExpirationStepSetsBand | options/analyze_local_data.py:127-134 | a live date with a readable puts table sets the band to [0.9·S, 1.1·S] |
| LocalOptions.ExpirationStepKeepsBand | options/analyze_local_data.py:127-187 | a date without a readable puts table keeps the band left by earlier tables |
| LocalOptions.ScanWithoutPutsTables | options/analyze_local_data.py:182-187 | with no band yet and no puts table at all, no calls table is ever screened and the scan changes nothing |
| LocalOptions.LocalResultsAreLive | options/analyze_local_data.py:68-257 | every accumulated result belongs to one of the tickers and has expiration days left |
| LocalOptions.LocalPicksFromResults | options/analyze_local_data.py:236-253 | at most two picks per ticker, each an accumulated result with exercise probability below 30 |
| LocalOptions.NoPutsTablesNoResults | options/analyze_local_data.py:68-257 | when no ticker has any puts table, there are no results, no picks and no band |
| LocalOptions.StaleBandScreensCalls | options/analyze_local_data.py:133-187 | a calls table is filtered by the band of the last puts table read, so a call outside the current spot's 10 percent band is still analysed |
| LocalOptions.AnalyzeLocalExpiration | options/analyze_local_data.py:113-234 | one date's puts then calls are appended and the band updated exactly as the scan specifies |
| LocalOptions.AnalyzeLocalCalls | options/analyze_local_data.py:180-230 | the calls table is screened with the band of the last puts table, and skipped without one |
| LocalOptions.AnalyzeLocalTicker | options/analyze_local_data.py:84-253 | a directory without a readable info file, with price 0 or with no dates adds nothing; otherwise its dates are scanned in order and its best put and call picked |
| LocalOptions.AnalyzeLocalOptions | options/analyze_local_data.py:68-257 | the ticker loop produces the specified results and picks |
| OptionsDownload.DownloadTicker | options/download_options_data.py:37-128 | the download succeeds exactly when the ticker was fetched and its expirations listed; a chain that cannot be fetched only leaves its files out |
| OptionsDownload.DownloadTickerSaves | options/download_options_data.py:53-118 | a successful download saves the spot price, at most four distinct listed expirations nearest to 7, 14, 30 and 60 days (none only when none is listed), and the chains of exactly those selected expirations that could be fetched |
| OptionsDownload.DownloadTickerData | options/download_options_data.py:64-124 | the selection and chain-saving loop yields the specified download, and the flag is true exactly when something was saved |
| OptionsDownload.SuccessCountBounds | options/download_options_data.py:132-152 | the success count is at most the number of tickers, and equals it exactly when every ticker succeeded on its first attempt or its retry |
| OptionsDownload.CountAttemptsAppend | options/download_options_data.py:134-150 | attempts of a ticker in two consecutive stretches of the run add up |
| OptionsDownload.TickerAttempts | options/download_options_data.py:141-147 | a ticker is attempted twice when its first attempt fails and once otherwise |
| OptionsDownload.RetriedOnce | options/download_options_data.py:134-152 | over the whole run each listed ticker is attempted once, or twice when the first attempt fails, never more |
| OptionsDownload.OtherTickerEvents | options/download_options_data.py:134-150 | the events of one ticker include no attempt of another |
| OptionsDownload.NoAttemptsOf | options/download_options_data.py:134-150 | a stretch of events with no attempt of a ticker counts none |
| OptionsDownload.NeverAttempted | options/download_options_data.py:134-152 | a ticker not in the list is never attempted |
| OptionsDownload.LogPrefix | options/download_options_data.py:134-152 | the events of the first j tickers are a prefix of the events of the run |
| OptionsDownload.PauseBeforeTicker | options/download_options_data.py:135-139 | the ticker at position i > 0 is preceded by a pause of 5 + 2·i seconds, right after the events of the tickers before it |
| OptionsDownload.DownloadAllData | options/download_options_data.py:130-152 | the ticker loop yields the specified success count and the specified sequence of pauses and attempts |
| OptionsDownload.DownloadOneTicker | options/download_options_data.py:135-149 | one ticker: a pause of 5 + 2i seconds unless it is first, one attempt, and a 5-second pause and a retry only after a failure; it counts exactly when one of the attempts succeeds |
| Greeks.KindOf | options_chain_fetcher/calculate_greeks.py:164-183 | a row is priced as a call exactly when its type reads 'CALL'; anything else is a put |
| Greeks.ExpiredGreeks | options_chain_fetcher/calculate_greeks.py:32-47 | with no time left the value is the exercise payoff (never negative, positive exactly in the money, call minus put equals spot minus strike), the delta is 1 or -1 in the money and 0 otherwise, and the other Greeks are 0, all under the key 'value' |
| Greeks.LiveGreeks | options_chain_fetcher/calculate_greeks.py:49-84 | with time left the value and delta are those of the Black-Scholes formulas, under the key 'bs_value' |
| Greeks.YearsToExpiry | options_chain_fetcher/calculate_greeks.py:152-153 | years left are never negative, are 0 exactly when no whole day is left, and are days / 365 otherwise |
| Greeks.ChooseSigma | options_chain_fetcher/calculate_greeks.py:157-168 | the volatility is recovered from the price exactly when the quote is missing or below 5 percent, the price is positive, time is left and the search yields a non-zero value; otherwise the quote is kept |
| Greeks.SoundSigmaKept | options_chain_fetcher/calculate_greeks.py:162 | a quoted volatility of at least 5 percent is used as it is |
| Greeks.RowGreeksCases | options_chain_fetcher/calculate_greeks.py:147-199 | a row gets Greeks exactly when its date parses and a positive volatility is left; the value then sits under 'value' with no time left and under 'bs_value' otherwise, and 'calculated_iv' is set exactly when the volatility was recovered |
| Greeks.ExpiredWithoutVolatility | options_chain_fetcher/calculate_greeks.py:162-181 | an expired row without a positive quoted volatility is NaN throughout, because no volatility can be recovered without time left |
| Greeks.CalculateGreeksForOptions | options_chain_fetcher/calculate_greeks.py:145-199 | one output row per input row, in order, each the specified row of Greeks |
| Dashboard.PriorityRowsFacts | options_chain_fetcher/dashboard.py:123-136 | the rows shown are traded rows of the expiration (a positive price or a positive volatility); every liquid row (both positive) is among them, with at least 20 liquid rows only liquid rows are, and with fewer every traded row is |
| Dashboard.GroupMember | options_chain_fetcher/dashboard.py:139-156 | a row of an in- or out-of-the-money group of a side is a row of the table of that side, in or out of the money as the group says |
| Dashboard.PrecedesIsNearer | options_chain_fetcher/dashboard.py:142-156 | within one group, sorting by strike in the direction the group uses puts nearer strikes first |
| Dashboard.NearestFacts | options_chain_fetcher/dashboard.py:145-161 | head(n) of a group keeps min(n, group size) rows, each of the side and in or out of the money as asked |
| Dashboard.DominatingIsNearer | options_chain_fetcher/dashboard.py:142-148 | rows that come first in the group's strike order are no farther from the price than any row after them |
| Dashboard.NearestKeptFacts | options_chain_fetcher/dashboard.py:145-161 | no row of a group that head(n) leaves out is nearer to the price than a row kept |
| Dashboard.SideSelectionFacts | options_chain_fetcher/dashboard.py:145-162 | a side shows at most 20 rows, ascending by strike for calls and descending for puts, made of exactly the 5 nearest in-the-money and the 15 nearest out-of-the-money rows |
| Dashboard.OptionsChain | options_chain_fetcher/dashboard.py:106-118 | the answer is 'not found' exactly when the table or the info file is missing or no row has the expiration |
| Dashboard.SideSelectionDrawn | options_chain_fetcher/dashboard.py:139-162 | a side shows only rows of that type drawn from the rows it was given |
| Dashboard.OfExpirationDrawn | options_chain_fetcher/dashboard.py:115 | the rows of an expiration are rows of the table with that expiration |
| Dashboard.ChainViewOfExpiration | options_chain_fetcher/dashboard.py:106-175 | a chain view shows only rows of the requested expiration, calls among the calls and puts among the puts |
| Dashboard.MeanOrNaN | options_chain_fetcher/dashboard.py:88-92 | the mean of a column is NaN exactly when it has no values, and otherwise their arithmetic mean |
| Dashboard.IvsArePositive | options_chain_fetcher/dashboard.py:77 | the volatilities summarised are positive, and there are none exactly when no row has a positive volatility |
| Dashboard.VolatilityStatsFacts | options_chain_fetcher/dashboard.py:77-83 | the volatility summary is all zeros exactly when no row has a positive volatility; otherwise 0 < min <= mean <= max |
| Dashboard.PresentDeltas | options_chain_fetcher/dashboard.py:86-88 | when every row has a delta, the delta column has a value for each of them |
| Dashboard.CallDeltaNaNWithoutCalls | options_chain_fetcher/dashboard.py:86-88 | rows with a non-zero delta but no call among them give a NaN call average, not 0, because the guard tests all valid rows |
| Dashboard.CallDeltaWithCalls | options_chain_fetcher/dashboard.py:86-88 | when some call has a non-zero delta, the call average is a number |
| Dashboard.TypeCounts | options_chain_fetcher/dashboard.py:101-102 | the call and put counts never exceed the rows, and add up to them when every row is a call or a put |
| Dashboard.TickerData | options_chain_fetcher/dashboard.py:65-71 | the ticker view is 'not found' exactly when the table or the info file is missing |
| Dashboard.VolatilitySeriesFacts | options_chain_fetcher/dashboard.py:189-200 | a period is listed exactly when its historical volatility is known; the three series have equal length and entry i holds that period's historical and realised volatility (0 when unknown) times 100 |
| Dashboard.VolatilityPeriodsInOrder | options_chain_fetcher/dashboard.py:189-200 | the periods listed are the periods with a known historical volatility, in the order the periods are given |
| Dashboard.GetVolatilityData | options_chain_fetcher/dashboard.py:178-207 | 'not found' without the info file; otherwise the series over 10d, 20d, 30d and 60d |
| Backtesting.IsDcaDateIff | backtesting/analyze.py:39-46 | a day is a purchase day exactly when it is the 15th, or it is before the 15th and the next trading day is past it; the last row is never one unless it is the 15th (the script defines this rule; its simulation buys every 22 trading days instead) |
| Backtesting.AtMostOneDcaDatePerMonth | backtesting/analyze.py:39-46 | among trading days of one month (strictly rising days of the month), no two are purchase days |
| Backtesting.AvgYieldBreakEven | backtesting/analyze.py:49-50 | ending with what was invested gives an annualised yield of 0 (a sanity case of the formula) |
| Backtesting.AvgYieldMonotone | backtesting/analyze.py:49-50 | for a positive investment and a non-decreasing N-th root, a larger final value never gives a smaller annualised yield |
| Backtesting.AvgYieldOneYear | backtesting/analyze.py:49-50 | over one year, where the root is the identity, the yield is (final / invested − 1) × 100 |
| Backtesting.FirstAfterFacts | backtesting/analyze.py:58-92 | the row found is the first from the start position dated after the end date; none is found exactly when no such row exists |
| Backtesting.EndRowFacts | backtesting/analyze.py:58-92 | the end row is the first row of the table dated after the end date; there is none exactly when no row is |
| Backtesting.StopFrom | backtesting/analyze.py:56-90 | the start day at which the loop breaks lies between the current day and the table's end |
| Backtesting.StopFromFacts | backtesting/analyze.py:56-90 | every start day before the stop has an end row, and the stop day, when inside the table, has none |
| Backtesting.LsYieldIsPriceRatio | backtesting/analyze.py:93-96 | the lump sum's yield is the end row's close over the start day's close |
| Backtesting.LsPrefixFacts | backtesting/analyze.py:86-98 | the first k start days give k results, result i dated on start day i |
| Backtesting.LsOutcomesFacts | backtesting/analyze.py:84-98 | the lump-sum table has one row per start day up to the first one without an end row, each dated on its start day |
| Backtesting.SimulateLs | backtesting/analyze.py:84-98 | the start-day loop yields the specified lump-sum results, before the grouping by year |
| Backtesting.PurchasesSchedule | backtesting/analyze.py:65-71 | purchases fall on rows k+1, k+23, k+45, ...; all but the last on or before the end date, and the schedule stops only at a purchase after it or at the table's end |
| Backtesting.PurchasesAreIndices | backtesting/analyze.py:65-66 | every purchase is a row of the table |
| Backtesting.SharesScale | backtesting/analyze.py:67-72 | the shares bought, valued at the end close, equal 100000 times the sum of end close over purchase close |
| Backtesting.Invested | backtesting/analyze.py:69 | the sum invested is zero exactly when nothing was bought |
| Backtesting.InvestedStep | backtesting/analyze.py:67-69 | each purchase adds 100000 to the sum invested |
| Backtesting.DcaOutcomeExists | backtesting/analyze.py:73 | a start day gives a result exactly when some row follows it, since otherwise nothing was invested |
| Backtesting.ValueOverInvested | backtesting/analyze.py:72-75 | the final value over the sum invested is the mean of end close over purchase close |
| Backtesting.DcaYieldIsMeanRatio | backtesting/analyze.py:53-77 | a start day's yield is the mean, over its purchases, of the end row's close over the purchase close |
| Backtesting.DcaPrefixLength | backtesting/analyze.py:56-77 | the first k start days give a result each, except a start day on the table's last row |
| Backtesting.Invest | backtesting/analyze.py:63-71 | the purchase loop buys on the specified schedule: the shares bought and 100000 per purchase |
| Backtesting.DcaFrom | backtesting/analyze.py:57-77 | one start day: the specified result, or none when nothing was invested |
| Backtesting.SimulateDca | backtesting/analyze.py:53-77 | the start-day loop yields the specified averaging results, before the grouping by year |
| Deposits.CleanTextFacts | deposits/anaylze.py:44 | the cleaned text holds no non-breaking space and neither starts nor ends with white space |
| Deposits.ProcessDepositData | deposits/anaylze.py:42-46 | a number cell is taken as it is; a text cell is parsed after cleaning |
| Deposits.RowNumber | deposits/anaylze.py:49-53 | the row is the base row, except in 2022 when it is one row higher for enterprises and one lower for households |
| Deposits.LabelSplit | deposits/anaylze.py:68 | a date label splits at its '-' into the year and the month, both written in decimal |
| Deposits.LabelInjective | deposits/anaylze.py:68 | different year-month pairs get different labels |
| Deposits.LabelNotPadded | deposits/anaylze.py:68 | the month in a label is not zero-padded |
| Deposits.NatToStringLeadingDigit | deposits/anaylze.py:68 | a positive number is written without a leading zero |
| Deposits.MonthStepFacts | deposits/anaylze.py:67-75 | a month adds its label and its cleaned deposit, and for enterprises the cleaned cell of the row above in the same column |
| Deposits.MonthRowsDates | deposits/anaylze.py:67-69 | a sheet's months are appended in order under labels year-1, year-2, ... |
| Deposits.MonthRowsValues | deposits/anaylze.py:67-70 | each deposit appended is the cleaned cell of its month |
| Deposits.MonthRowsM0 | deposits/anaylze.py:71-75 | household sheets add no M0; enterprise sheets add one M0 per month, the cleaned cell above it |
| Deposits.MonthRowsStaysNone | deposits/anaylze.py:67-75 | a month that cannot be read fails the whole sheet |
| Deposits.SeriesPrefixFacts | deposits/anaylze.py:56-80 | the dates are the months of every successful download under the year 2015 + its position, with one deposit per date, and for enterprises one M0 per date |
| Deposits.SeriesPrefixStaysNone | deposits/anaylze.py:56-80 | a sheet that cannot be read fails the whole series |
| Deposits.ReadSheet | deposits/anaylze.py:63-75 | the inner loop over one sheet yields the specified months |
| Deposits.ReadMonths | deposits/anaylze.py:67-75 | the month loop of one row yields the specified months, or fails at the first cell that cannot be read |
| Deposits.ReadMonth | deposits/anaylze.py:67-75 | one pass of the inner loop appends the specified month |
| Deposits.ProcessData | deposits/anaylze.py:56-80 | the download loop yields the specified series, skipping failed downloads |
| Deposits.PctChangeFacts | deposits/anaylze.py:93-106 | the twelve-month change keeps the length, is NaN in the first twelve rows and wherever either value is missing, and is (x[i] / x[i-12] − 1) × 100 between numbers with a non-zero base |
| Deposits.AddColumns | deposits/anaylze.py:99-105 | the sum of two columns keeps their length |
| Deposits.Frame.constructor | deposits/anaylze.py:92 | the table holds the household, enterprise and M0 columns, of one length |
| Deposits.Frame.CalculateYearOnYearChanges | deposits/anaylze.py:92-108 | adds the changes of the three series, the columns household + enterprise, M1 = enterprise + M0 and total = household + enterprise + M0, and their changes, leaving the other columns as they were |
| Deposits.SumsOfParts | deposits/anaylze.py:99-105 | where the deposits are numbers the total is their sum and M1 is enterprise plus M0; a missing deposit leaves each sum it takes part in missing |
| CapeReturns.ReturnsWindow | sp500_cape_analysis/sp500_cape_returns.py:28-35 | one return per month; it is a number exactly when the month's window of 12·N months ends inside the series, and then (root(end / start, N) − 1) × 100; NaN elsewhere |
| CapeReturns.OneYearReturn | sp500_cape_analysis/sp500_cape_returns.py:31-35 | the one-year return is the percentage change over twelve months |
| CapeReturns.FlatPricesEarnNothing | sp500_cape_analysis/sp500_cape_returns.py:31-35 | a window that ends at its starting price returns 0 |
| CapeReturns.ReturnsDefinedCount | sp500_cape_analysis/sp500_cape_returns.py:31 | the number of known returns is the length minus 12·N, or 0 for a shorter series |
| CapeReturns.DefinedPrefixCount | sp500_cape_analysis/sp500_cape_returns.py:31 | a column known exactly on its first k places has k known values |
| CapeReturns.CalculateReturns | sp500_cape_analysis/sp500_cape_returns.py:28-35 | the window loop yields exactly the specified returns |
| CapeReturns.CombinedDataFacts | sp500_cape_analysis/sp500_cape_returns.py:142-151 | month i is in the combined table exactly when it has a CAPE and its ten-year window ends inside the series, and every value kept is a number |
| CapeReturns.Predictions | sp500_cape_analysis/sp500_cape_returns.py:88 | one prediction per CAPE value |
| CapeReturns.SquaredErrors | sp500_cape_analysis/sp500_cape_returns.py:90 | one squared error per observation |
| CapeReturns.MeanLine | sp500_cape_analysis/sp500_cape_returns.py:90 | the mean line has one entry per observation |
| CapeReturns.SsResFacts | sp500_cape_analysis/sp500_cape_returns.py:90 | the residual sum of squares is never negative, and is 0 for a perfect prediction |
| CapeReturns.RSquaredAtMostOne | sp500_cape_analysis/sp500_cape_returns.py:90 | R² never exceeds 1, and a perfect prediction scores 1 |
| CapeReturns.MeanPredictionScoresZero | sp500_cape_analysis/sp500_cape_returns.py:90 | predicting the mean return everywhere scores R² = 0 |
| CapeReturns.PredictedReturn | sp500_cape_analysis/sp500_cape_returns.py:82-92 | the prediction is the fitted line evaluated at the current CAPE of 37 |
| CapeReturns.PredictionMatchesFit | sp500_cape_analysis/sp500_cape_returns.py:52-92 | at a month whose CAPE is 37 the fitted prediction equals the reported predicted return |
| CapeReturns.CapeColumn | sp500_cape_analysis/sp500_cape_returns.py:88 | one CAPE value per row of the combined table |
| CapeReturns.ReturnColumn | sp500_cape_analysis/sp500_cape_returns.py:89 | one return per row of the combined table |
| CapeReturns.ReportFits | sp500_cape_analysis/sp500_cape_returns.py:85-92 | the horizon loop reports, for exactly the horizons 1, 3, 5 and 10, the R² of that horizon's line against its returns and its predicted return |
| ForwardPeReturns.CurrentForwardPe | sp500_cape_analysis/sp500_forward_pe_returns.py:386-394 | the quoted forward PE when one is quoted and non-zero, else the estimate 21.0 |
| ForwardPeReturns.Parsed | sp500_cape_analysis/sp500_forward_pe_returns.py:65-77 | the points kept are exactly the table rows whose date and value could be parsed, never more than the rows |
| ForwardPeReturns.RecentFacts | sp500_cape_analysis/sp500_forward_pe_returns.py:82-84 | the points from 1990 on are in date order, and are exactly the parsed points dated on or after the cutoff |
| ForwardPeReturns.RecentInDateOrder | sp500_cape_analysis/sp500_forward_pe_returns.py:82-84 | the points from the cutoff on are in date order |
| ForwardPeReturns.RecentMembers | sp500_cape_analysis/sp500_forward_pe_returns.py:82-84 | the points from the cutoff on are exactly the parsed points dated on or after it |
| ForwardPeReturns.ScrapedPe | sp500_cape_analysis/sp500_forward_pe_returns.py:79-91 | one row per parsed point from the cutoff on |
| ForwardPeReturns.ScrapedPeFacts | sp500_cape_analysis/sp500_forward_pe_returns.py:84-91 | each scraped row is a parsed point from the cutoff on, its trailing PE the scraped value and its forward PE 0.9 times it |
| ForwardPeReturns.ScrapedPeOrdered | sp500_cape_analysis/sp500_forward_pe_returns.py:82 | the scraped rows are in date order |
| ForwardPeReturns.EstimatedPeFacts | sp500_cape_analysis/sp500_forward_pe_returns.py:138-156 | an estimated row is kept exactly when both PEs are known, it is dated from the cutoff on, and its forward PE lies strictly between 5 and 60; every kept row is the estimate of some Shiller month: its date, price over expected earnings and price over earnings |
| ForwardPeReturns.ForwardPeData | sp500_cape_analysis/sp500_forward_pe_returns.py:48-105 | the scraped table when it yields at least one point, else the Shiller estimate, and an error exactly when neither source is available |
| ForwardPeReturns.CalculateReturns | sp500_cape_analysis/sp500_forward_pe_returns.py:175-186 | the loop over every month yields the same returns as the CAPE script's window loop |
| ForwardPeReturns.PeSeries | sp500_cape_analysis/sp500_forward_pe_returns.py:437-440 | the forward PE column of the PE table, keyed by month, has exactly the months of the table's rows |
| ForwardPeReturns.PeSeriesLastWins | sp500_cape_analysis/sp500_forward_pe_returns.py:437-440 | a month takes the forward PE of the last table row with that month |
| ForwardPeReturns.PeriodRowsFacts | sp500_cape_analysis/sp500_forward_pe_returns.py:437-440 | a month is kept for a horizon exactly when it has a known forward PE and a known return, and every kept row is complete |
| ForwardPeReturns.AnalysedIff | sp500_cape_analysis/sp500_forward_pe_returns.py:426-444 | a horizon has at least 12 returns exactly when the series has at least 12·N + 12 months; an analysed horizon also has at least 12 aligned rows |
| ForwardPeReturns.SelectPeriods | sp500_cape_analysis/sp500_forward_pe_returns.py:423-446 | the table holds exactly the horizons 1, 3, 5, 10 and 20 with at least 12 returns and at least 12 aligned rows, each with its aligned rows |
| ForwardPeReturns.SelectHorizons | sp500_cape_analysis/sp500_forward_pe_returns.py:423-446 | over any list of horizons the table holds exactly the analysed ones, each with its aligned rows |
| ForwardPeReturns.HorizonTable | sp500_cape_analysis/sp500_forward_pe_returns.py:425-446 | one horizon yields its aligned rows exactly when it has at least 12 returns and at least 12 aligned rows |
| ForwardPeReturns.PeColumn | sp500_cape_analysis/sp500_forward_pe_returns.py:321 | one forward PE per row of a horizon's table |
| ForwardPeReturns.ReturnColumn | sp500_cape_analysis/sp500_forward_pe_returns.py:322 | one return per row of a horizon's table |
| ForwardPeReturns.RSquaredGuardedFacts | sp500_cape_analysis/sp500_forward_pe_returns.py:323-325 | R² is the usual 1 − SSres / SStot when the returns vary and 0 when they do not; it never exceeds 1, and a perfect fit of varying returns scores 1 |
| ForwardPeReturns.ConstantReturnsScoreZero | sp500_cape_analysis/sp500_forward_pe_returns.py:324-325 | constant returns have no variation and score 0 whatever the line |
| ForwardPeReturns.FitStatistics | sp500_cape_analysis/sp500_forward_pe_returns.py:315-329 | R² and the predicted return are reported for exactly the horizons present in the table; each prediction is that horizon's fitted line evaluated at the current forward PE (`CapeReturns.Polyval`) |
| ForwardPeReturns.PeBandsFacts | sp500_cape_analysis/sp500_forward_pe_returns.py:340-344 | the low and high bands hold the rows strictly below and above the quartiles; a band's return is the mean of its returns, lying between their minimum and maximum, or 0 when the band is empty; the difference is low minus high when both bands have rows and 0 otherwise |
| ForwardPeReturns.PeBandsStrict | sp500_cape_analysis/sp500_forward_pe_returns.py:340-344 | the low band's rows lie strictly below the low quartile and the high band's strictly above the high quartile |
| ForwardPeReturns.PeBandsValues | sp500_cape_analysis/sp500_forward_pe_returns.py:340-344 | each band's return is the mean of its returns, between their minimum and maximum, or 0 for an empty band; the gap is low minus high when both bands have rows, 0 otherwise |
| ForwardPeReturns.PeBandReturns | sp500_cape_analysis/sp500_forward_pe_returns.py:336-344 | the band returns are reported for exactly those of the horizons 5, 10 and 20 present in the table |
| Common.Mean | sp500_cape_analysis/sp500_forward_pe_returns.py:340-341 | the mean is undefined exactly for an empty column |
| Common.MeanWithinRange | sp500_cape_analysis/sp500_forward_pe_returns.py:340-341 | the mean of a non-empty column lies between its minimum and maximum |
| Common.SeqMin | options_chain_fetcher/dashboard.py:81 | the minimum is an entry of the column and no entry is smaller |
| Common.SeqMax | options_chain_fetcher/dashboard.py:82 | the maximum is an entry of the column and no entry is larger |
| Common.Take | options_chain_fetcher/dashboard.py:147-148 | `head(k)` keeps the first min(k, n) rows |
| Common.Filter | options_chain_fetcher/dashboard.py:139 | a boolean mask keeps a sub-multiset of the rows, exactly those that satisfy it |
| Common.FilterAppend | options_chain_fetcher/dashboard.py:139 | a row appended to the table is appended to the masked rows exactly when it satisfies the mask, so the kept rows stay in table order |
| Common.FilterEmpty | options_chain_fetcher/dashboard.py:88 | a mask selects nothing exactly when no row satisfies it |
| Common.FDiv | sp500_cape_analysis/sp500_forward_pe_returns.py:138 | division of two numbers with a non-zero divisor is their quotient, and NaN propagates |
| Common.FAdd | deposits/anaylze.py:99 | addition of two numbers is their sum, and NaN propagates |
| Common.FMul | sp500_cape_analysis/sp500_forward_pe_returns.py:186 | multiplication of two numbers is their product, and NaN propagates |
| Sorting.SortByKey | sp500_cape_analysis/sp500_forward_pe_returns.py:82 | the sorted rows are a permutation of the input, in key order |
| Sorting.SortByKeyStable | sp500_cape_analysis/sp500_forward_pe_returns.py:82 | the rows with any one key appear in the sorted rows in their input order (ties keep input order) |
| Sorting.TakeOfSortDominatesRest | options/options_analysis.py:174 | the first k rows after sorting by a key come no later in key order than any row left out |
| Sorting.FilterKeepsSorted | sp500_cape_analysis/sp500_forward_pe_returns.py:84 | slicing a sorted table keeps it sorted |
| Strings.StrLeTotal | sp500_history/sp500_historical_components.py:216 | any two strings are ordered one way or the other |
| Strings.StrLeTransitive | sp500_history/sp500_historical_components.py:216 | string order is transitive |
| Strings.StrLeAntisymmetric | sp500_history/sp500_historical_components.py:216 | two strings each at most the other are equal |
| Strings.IndexOf | options/analyze_local_data.py:105 | the position found holds the first occurrence of the character, or is the length when there is none |
| Strings.BeforeFirst | options/analyze_local_data.py:105 | `split(c)[0]` is the longest prefix without the character, and is shorter than the text exactly when the text holds it |
| Strings.StripLeft | deposits/anaylze.py:44 | stripping on the left only removes leading white space, and stops at a non-space |
| Strings.StripRight | deposits/anaylze.py:44 | stripping on the right only removes trailing white space, and stops at a non-space |
| Strings.Strip | deposits/anaylze.py:44 | the stripped text neither starts nor ends with white space |
| Strings.ReplaceChar | deposits/anaylze.py:44 | every occurrence of the character is replaced and nothing else changes |
| Strings.NatToString | deposits/anaylze.py:68 | a number is written with decimal digits |
| Strings.NatToStringRoundTrip | deposits/anaylze.py:68 | reading back the decimal digits gives the number |

## Left out

- Network access (yfinance, requests, fredapi, BeautifulSoup, Excel downloads): every fetched value, table or sheet is a parameter, with `None` for a fetch that failed.
- Files, printing, plots, Markdown and CSV output, Flask routing and `jsonify`: the answers are returned as datatypes and nothing is rendered.
- The sleeps in options/download_options_data.py: the pauses between tickers and before a retry are recorded as events; the 1, 2 and 3 second pauses inside one download are not. The `time.sleep` calls of options/options_analysis.py (lines 105-297) and sp500_history/analyze_top_performers.py:132 are not modelled either: they only pace the network requests.
- Clocks: "now" and "today" are parameters, and date strings are parsed by a caller-supplied function.
- Random draws (`np.random.lognormal`, `np.random.normal`): the growth factors arrive as draw functions indexed by trial and month or year.
- Floating-point rounding: all arithmetic is exact over `real`; only numpy's NaN and division by zero are modelled.
- Transcendental numerics: the Black-Scholes formulas for time left, `calculate_implied_probability`, the brentq implied-volatility solver and the n-th roots in the annualised yields are function parameters. Their values are not constrained beyond what the callers state.
- `calculate_historical_metrics` in investment_analysis/investment_simulator.py: its measured return and deviation are inputs to `InvestmentSimulator.MarketEstimates`.
- The medians, percentiles and means reported after the simulation in investment_analysis/investment_simulator.py: they are statistics over random trials, with no exact form.
- `np.polyfit`, pandas `quantile`, `median`, `corr`, Spearman correlation, LOWESS and `percentileofscore`: fitted lines, quartiles and medians are parameters, and the correlations and percentiles are not modelled.
- The CAPE quartiles, summary statistics and low/high-CAPE ten-year means in sp500_cape_analysis/sp500_cape_returns.py:80-81, 95 and 117-124: they rest on quantiles and are not modelled.
- `resample('M').last()` and pandas index alignment: the model takes one observation per month, in order, and aligns columns by position plus a date-keyed map for the PE series, which `ForwardPeReturns.PeSeries` builds from the PE table's rows. After the monthly resampling a month occurs at most once, so where the model lets the last row of a month win, pandas' alignment of duplicate dates is never reached. The horizon functions take that map as a parameter; the caller joins them to `ForwardPeData`.
- The Expected_Earnings column (`pct_change`, `rolling(12).mean()`, `shift(1)`) in sp500_cape_analysis/sp500_forward_pe_returns.py:142-144: it is an input column of each Shiller row.
- `ForwardPeReturns.PeBandReturns`: `pe_low` and `pe_high` are parameters; the `KeyError` raised when the one-year horizon was skipped (`combined_data_by_period[1]`) is not modelled.
- `CapeReturns.ReportFits`: requires a varying return column for every horizon, because the unguarded `1 - ss_res / ss_tot` is then well defined; numpy's `-inf`/NaN for a constant column is not modelled.
- `CapeReturns.SsResFacts`: does not state that only a perfect prediction has a zero residual sum, because the solver cannot conclude d = 0 from d·d = 0 here.
- `CapeReturns.RSquaredAtMostOne`: does not state that only a perfect prediction scores 1, for the same reason.
- `ForwardPeReturns.RSquaredGuardedFacts`: does not state that only a perfect fit scores 1, for the same reason.
- Positive prices: `CapeReturns.PositivePrices` and `Backtesting.PositiveCloses` are required, since the scripts divide by every price; pandas' infinities for a zero price are not modelled.
- `Deposits.ProcessData`: requires a base row of at least 2 so that the row above exists; the script's base rows are 10 and 14, and Python's negative row index is not modelled.
- The `Deposits.Frame` class stands in for the merged DataFrame as a map from column names to columns. The merge of the household and enterprise tables in `main`, and the `'{:.2f}%'` formatting of the changes, are not modelled.
- The grouping by year (`groupby('year').mean()`) in backtesting/analyze.py, and the summary statistics in its `main`: the simulations return one outcome per start day.
- `Sp500Components` keys the yearly snapshots by the year as an integer where sp500_history/sp500_historical_components.py:202-216 and 287-288 use `str(year)`, and `TopPerformers.Summarize` takes the components as a map from integer years where sp500_history/analyze_top_performers.py:54 indexes them by `str(year)`; the decimal rendering of a year is injective, so the two keyings have the same lookups.
- Tie order of the pandas and numpy sorts: `sort_values` (sp500_history/sp500_historical_components.py:192, options/options_analysis.py:309), `argsort` (options/options_analysis.py:174) and `sort_index` (sp500_cape_analysis/sp500_forward_pe_returns.py:82) default to an unstable quicksort, so the order of equal keys is unspecified there. `Sp500Components.MostRecentFirst`, the fallback of `OptionScreening.BandRows`, `OptionScreening.BestOverall` and `ForwardPeReturns.Recent` fix it to input order. Which of two same-date changes is undone first, which of two equally near strikes fills the fifth place, and which of two equal returns takes the tenth place are therefore one choice among those the scripts allow.
- The volume tie-break in options_chain_fetcher/dashboard.py: rows with equal strikes keep their table order, because the sort is stable by strike only. NaN placement in `sort_values` is not modelled.
- `get_overview`, and the sorted list of unique expirations in `get_ticker_data`, in options_chain_fetcher/dashboard.py are not modelled.
- The results table, the overall best-ten table, the per-ticker `groupby` and the plots after the ticker loop of options/analyze_local_data.py: the overall best-ten rule is modelled once, for options/options_analysis.py, by `OptionScreening.BestOverall`.
- options_chain_fetcher/fetch_options_chain.py, options_chain_fetcher/view_data.py, options_chain_fetcher/run_all.py, investment_analysis/compute_return.py and gold_analysis/gold_debt_analysis.py are not part of this model: they download, display or plot, with no rule worth stating.
- Exceptions other than those the scripts test for: a row that raises in options_chain_fetcher/calculate_greeks.py is modelled only through an unparsable expiration date.
