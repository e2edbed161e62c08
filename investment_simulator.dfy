/** Monte Carlo projection of a treasury / VOO / QQQM / 401k portfolio
    (investment_analysis/investment_simulator.py). The random draws are supplied by the
    caller as functions, so every path is a deterministic function of its draws. */
module InvestmentSimulator {
  import opened Common

  const TreasuryInitial: real := 520000.0
  const VooInitial: real := 80000.0
  const QqqmInitial: real := 80000.0
  const Four01kInitial: real := 240000.0

  const MonthlyTransfer: int := 10000
  const TotalTransfer: int := 320000
  /** Number of monthly transfers out of the treasury account (integer quotient). */
  const MonthsToTransfer: int := TotalTransfer / MonthlyTransfer

  const Years: nat := 30
  const Simulations: nat := 100000
  /** Each ETF receives half of the monthly transfer. */
  const MonthlyStockInvestment: real := 5000.0

  const VooExpenseRatio: real := 0.0003
  const QqqmExpenseRatio: real := 0.0015
  const LongTermCapitalGainsTax: real := 0.20
  const TreasuryInterestTax: real := 0.37

  const Default401kReturn: real := 0.10
  const Default401kStd: real := 0.15

  /** Mean annual return and standard deviation of an index, dividends included. */
  datatype Estimate = Estimate(ret: real, std: real)

  const VooDividendYield: real := 0.014
  const QqqmDividendYield: real := 0.005

  /** The start-up estimates: the measured ones when both indices were fetched, otherwise
      the long-run defaults (10.2% and 13.5% plus the dividend yields) for both. */
  function MarketEstimates(voo: Option<Estimate>, qqqm: Option<Estimate>): (r: seq<Estimate>)
    ensures |r| == 2
    ensures voo.Some? && qqqm.Some? ==> r[0] == voo.value && r[1] == qqqm.value
    ensures voo.None? || qqqm.None? ==> r[0] == Estimate(0.116, 0.16) && r[1] == Estimate(0.14, 0.32)
  {
    if voo.Some? && qqqm.Some? then [voo.value, qqqm.value]
    else [Estimate(0.102 + VooDividendYield, 0.16), Estimate(0.135 + QqqmDividendYield, 0.32)]
  }

  lemma MonthsToTransferValue()
    ensures MonthsToTransfer == 32 && MonthsToTransfer * MonthlyTransfer == TotalTransfer
  {
  }

  /** Point i of numpy's linspace(start, stop, n). */
  function LinspacePoint(start: real, stop: real, n: nat, i: nat): real
  {
    if n == 1 then start else start + (i as real) * ((stop - start) / ((n - 1) as real))
  }

  /** The first k points of linspace(start, stop, n). */
  function LinspacePrefix(start: real, stop: real, n: nat, k: nat): (r: seq<real>)
    ensures |r| == k
  {
    if k == 0 then [] else LinspacePrefix(start, stop, n, k - 1) + [LinspacePoint(start, stop, n, k - 1)]
  }

  /** numpy's linspace(start, stop, n). */
  function Linspace(start: real, stop: real, n: nat): (r: seq<real>)
    ensures |r| == n
  {
    LinspacePrefix(start, stop, n, n)
  }

  lemma {:induction false} LinspacePrefixAt(start: real, stop: real, n: nat, k: nat, i: nat)
    requires i < k
    ensures LinspacePrefix(start, stop, n, k)[i] == LinspacePoint(start, stop, n, i)
  {
    if i < k - 1 {
      LinspacePrefixAt(start, stop, n, k - 1, i);
    }
  }

  /** linspace includes both endpoints and moves in equal steps. */
  lemma LinspaceShape(start: real, stop: real, n: nat)
    ensures var r := Linspace(start, stop, n);
      (n >= 1 ==> r[0] == start) &&
      (n >= 2 ==> r[n - 1] == stop) &&
      (n >= 2 ==> forall i :: 0 <= i < n - 1 ==> r[i + 1] - r[i] == (stop - start) / ((n - 1) as real))
  {
    var r := Linspace(start, stop, n);
    if n >= 1 {
      LinspacePrefixAt(start, stop, n, n, 0);
    }
    if n >= 2 {
      var d := (stop - start) / ((n - 1) as real);
      LinspacePrefixAt(start, stop, n, n, n - 1);
      assert r[n - 1] == start + ((n - 1) as real) * d;
      assert ((n - 1) as real) * d == stop - start;
      forall i | 0 <= i < n - 1 ensures r[i + 1] - r[i] == d {
        LinspacePrefixAt(start, stop, n, n, i);
        LinspacePrefixAt(start, stop, n, n, i + 1);
        assert r[i + 1] - r[i] == ((i + 1) as real) * d - (i as real) * d;
      }
    }
  }

  /** Annual treasury rates, falling from 4.25% to 2.5% over the horizon. */
  function TreasuryRates(years: nat): seq<real>
  {
    Linspace(0.0425, 0.025, years)
  }

  // ---------------------------------------------------------------------------
  // Treasury ledger

  /** The treasury account between months: its balance and how many transfers have left it. */
  datatype Ledger = Ledger(balance: real, transfers: nat)

  /** The month's transfer, made while fewer than MonthsToTransfer transfers have left. */
  function TreasuryWithdraw(l: Ledger): Ledger
  {
    if l.transfers < MonthsToTransfer then Ledger(l.balance - MonthlyTransfer as real, l.transfers + 1) else l
  }

  /** One month: the transfer leaves first, then the month's interest is earned on what
      remains. Also returns the month's interest. */
  function TreasuryMonth(l: Ledger, monthlyRate: real): (Ledger, real)
  {
    var w := TreasuryWithdraw(l);
    var interest := w.balance * monthlyRate;
    (Ledger(w.balance + interest, w.transfers), interest)
  }

  /** The loop body's three assignments perform exactly one TreasuryMonth. */
  lemma TreasuryMonthStep(l: Ledger, monthlyRate: real, w: Ledger, interest: real)
    requires w == TreasuryWithdraw(l) && interest == w.balance * monthlyRate
    ensures TreasuryMonth(l, monthlyRate).0 == Ledger(w.balance + interest, w.transfers)
    ensures TreasuryMonth(l, monthlyRate).1 == interest
  {
  }

  /** The first k months of a year: the ledger and the interest accrued so far this year. */
  function TreasuryMonths(l: Ledger, monthlyRate: real, k: nat): (Ledger, real)
  {
    if k == 0 then (l, 0.0)
    else
      var prev := TreasuryMonths(l, monthlyRate, k - 1);
      var step := TreasuryMonth(prev.0, monthlyRate);
      (step.0, prev.1 + step.1)
  }

  /** Twelve months at rate/12, then the tax on the year's interest. */
  function TreasuryYear(l: Ledger, rate: real): Ledger
  {
    var m := TreasuryMonths(l, rate / 12.0, 12);
    Ledger(m.0.balance - m.1 * TreasuryInterestTax, m.0.transfers)
  }

  /** The ledger after the first k years of the rate schedule. */
  function TreasuryAfter(initial: real, rates: seq<real>, k: nat): Ledger
    requires k <= |rates|
  {
    if k == 0 then Ledger(initial, 0) else TreasuryYear(TreasuryAfter(initial, rates, k - 1), rates[k - 1])
  }

  /** The initial balance followed by the balances at the first k year ends. */
  function TreasuryPrefix(initial: real, rates: seq<real>, k: nat): (r: seq<real>)
    requires k <= |rates|
    ensures |r| == k + 1
  {
    if k == 0 then [initial] else TreasuryPrefix(initial, rates, k - 1) + [TreasuryAfter(initial, rates, k).balance]
  }

  /** The list of yearly balances: the initial balance, then one balance per year end. */
  function TreasuryPath(initial: real, rates: seq<real>): (r: seq<real>)
    ensures |r| == |rates| + 1
  {
    TreasuryPrefix(initial, rates, |rates|)
  }

  /** Entry i of the yearly list is the ledger balance after i years; entry 0 is the
      initial balance. */
  lemma {:induction false} TreasuryPrefixAt(initial: real, rates: seq<real>, k: nat, i: nat)
    requires i <= k <= |rates|
    ensures TreasuryPrefix(initial, rates, k)[i] == TreasuryAfter(initial, rates, i).balance
    ensures TreasuryPrefix(initial, rates, k)[0] == initial
  {
    if k > 0 {
      TreasuryPrefixAt(initial, rates, k - 1, if i < k then i else 0);
    }
  }

  /** The transfer counter never passes MonthsToTransfer: after j more months it has
      grown by j, up to that cap. */
  lemma {:induction false} TreasuryMonthsTransfers(l: Ledger, monthlyRate: real, j: nat)
    requires l.transfers <= MonthsToTransfer
    ensures TreasuryMonths(l, monthlyRate, j).0.transfers == MinI(MonthsToTransfer, l.transfers + j)
  {
    if j > 0 {
      TreasuryMonthsTransfers(l, monthlyRate, j - 1);
    }
  }

  /** Over the whole run exactly min(MonthsToTransfer, 12 * years) transfers are made. */
  lemma {:induction false} TreasuryTransferCount(initial: real, rates: seq<real>, k: nat)
    requires k <= |rates|
    ensures TreasuryAfter(initial, rates, k).transfers == MinI(MonthsToTransfer, 12 * k)
  {
    if k > 0 {
      TreasuryTransferCount(initial, rates, k - 1);
      TreasuryMonthsTransfers(TreasuryAfter(initial, rates, k - 1), rates[k - 1] / 12.0, 12);
    }
  }

  /** Ledger conservation within a year: the balance equals the starting balance, less one
      MonthlyTransfer per transfer made, plus the interest accrued. */
  lemma {:induction false} TreasuryMonthsConserve(l: Ledger, monthlyRate: real, j: nat)
    ensures var m := TreasuryMonths(l, monthlyRate, j);
      m.0.transfers >= l.transfers &&
      m.0.balance == l.balance - (MonthlyTransfer as real) * ((m.0.transfers - l.transfers) as real) + m.1
  {
    if j > 0 {
      TreasuryMonthsConserve(l, monthlyRate, j - 1);
    }
  }

  /** A year end records the pre-tax balance minus 0.37 of the year's summed monthly
      interest; over the year the balance moves by the transfers out plus 63% of the interest. */
  lemma TreasuryYearEnd(l: Ledger, rate: real)
    ensures var m := TreasuryMonths(l, rate / 12.0, 12);
      var y := TreasuryYear(l, rate);
      y.balance == m.0.balance - 0.37 * m.1 &&
      y.balance == l.balance - (MonthlyTransfer as real) * ((y.transfers - l.transfers) as real) + 0.63 * m.1
  {
    TreasuryMonthsConserve(l, rate / 12.0, 12);
  }

  lemma TreasuryAfterNext(initial: real, rates: seq<real>, k: nat)
    requires k < |rates|
    ensures var m := TreasuryMonths(TreasuryAfter(initial, rates, k), rates[k] / 12.0, 12);
      TreasuryAfter(initial, rates, k + 1).balance == m.0.balance - m.1 * TreasuryInterestTax &&
      TreasuryAfter(initial, rates, k + 1).transfers == m.0.transfers
  {
  }

  /** The twelve-month loop of one year: transfers out while the counter allows, and the
      interest accrued on the balance left after each month's transfer. */
  method TreasuryMonthLoop(balance0: real, monthsCompleted0: nat, monthlyRate: real)
    returns (balance: real, monthsCompleted: nat, yearlyInterest: real)
    ensures var m := TreasuryMonths(Ledger(balance0, monthsCompleted0), monthlyRate, 12);
      balance == m.0.balance && monthsCompleted == m.0.transfers && yearlyInterest == m.1
  {
    ghost var start := Ledger(balance0, monthsCompleted0);
    balance, monthsCompleted := balance0, monthsCompleted0;
    yearlyInterest := 0.0;
    var month := 0;
    while month < 12
      invariant 0 <= month <= 12
      invariant balance == TreasuryMonths(start, monthlyRate, month).0.balance
      invariant monthsCompleted == TreasuryMonths(start, monthlyRate, month).0.transfers
      invariant yearlyInterest == TreasuryMonths(start, monthlyRate, month).1
    {
      ghost var before := Ledger(balance, monthsCompleted);
      if monthsCompleted < MonthsToTransfer {
        balance := balance - MonthlyTransfer as real;
        monthsCompleted := monthsCompleted + 1;
      }
      ghost var withdrawn := Ledger(balance, monthsCompleted);
      assert withdrawn == TreasuryWithdraw(before);
      var monthlyInterest := balance * monthlyRate;
      yearlyInterest := yearlyInterest + monthlyInterest;
      balance := balance + monthlyInterest;
      TreasuryMonthStep(before, monthlyRate, withdrawn, monthlyInterest);
      month := month + 1;
    }
  }

  /** simulate_treasury_returns(initial, years): the year loop over the linspace schedule,
      with the interest tax at each year end. */
  method SimulateTreasuryReturns(initial: real, years: nat) returns (yearlyBalances: seq<real>)
    ensures yearlyBalances == TreasuryPath(initial, TreasuryRates(years))
    ensures |yearlyBalances| == years + 1 && yearlyBalances[0] == initial
  {
    var rates := TreasuryRates(years);
    var balance := initial;
    yearlyBalances := [initial];
    var monthsCompleted: nat := 0;
    var year := 0;
    while year < years
      invariant 0 <= year <= years
      invariant balance == TreasuryAfter(initial, rates, year).balance
      invariant monthsCompleted == TreasuryAfter(initial, rates, year).transfers
      invariant yearlyBalances == TreasuryPrefix(initial, rates, year)
    {
      var yearlyInterest;
      balance, monthsCompleted, yearlyInterest := TreasuryMonthLoop(balance, monthsCompleted, rates[year] / 12.0);
      var taxOnInterest := yearlyInterest * TreasuryInterestTax;
      balance := balance - taxOnInterest;
      TreasuryAfterNext(initial, rates, year);
      yearlyBalances := yearlyBalances + [balance];
      year := year + 1;
    }
    TreasuryPrefixAt(initial, rates, years, 0);
  }

  // ---------------------------------------------------------------------------
  // Equity accounts with monthly contributions

  /** The random monthly return: (monthly mean return, annual standard deviation,
      simulation index, month index) to the month's rate of return. */
  type MonthlyDraw = (real, real, nat, nat) -> real

  /** The balance of one simulated equity account after m months, before tax: a
      contribution arrives in each of the first MonthsToTransfer months, then the
      month's return applies to the whole balance. */
  function StockBalance(initial: real, monthly: real, monthlyReturn: real, stdDev: real,
                        draw: MonthlyDraw, sim: nat, m: nat): real
  {
    if m == 0 then initial
    else
      var b := StockBalance(initial, monthly, monthlyReturn, stdDev, draw, sim, m - 1);
      var funded := if m - 1 < MonthsToTransfer then b + monthly else b;
      funded * (1.0 + draw(monthlyReturn, stdDev, sim, m - 1))
  }

  lemma StockBalanceNext(initial: real, monthly: real, monthlyReturn: real, stdDev: real,
                         draw: MonthlyDraw, sim: nat, m: nat, balance: real, funded: real, rate: real)
    requires balance == StockBalance(initial, monthly, monthlyReturn, stdDev, draw, sim, m)
    requires funded == if m < MonthsToTransfer then balance + monthly else balance
    requires rate == draw(monthlyReturn, stdDev, sim, m)
    ensures StockBalance(initial, monthly, monthlyReturn, stdDev, draw, sim, m + 1) == funded * (1.0 + rate)
  {
  }

  /** What was paid in: the initial amount plus every contribution. */
  function CostBasis(initial: real, monthly: real, years: nat): real
  {
    initial + monthly * (MinI(MonthsToTransfer, years * 12) as real)
  }

  /** The fee-adjusted monthly mean return. */
  function NetMonthlyReturn(expectedReturn: real, expenseRatio: real): real
  {
    (expectedReturn - expenseRatio) / 12.0
  }

  /** Cell [sim, y] of the result matrix: the year-end balance, and in the last column
      the balance less 20% of the gain over the cost basis. */
  function StockCell(initial: real, monthly: real, expectedReturn: real, stdDev: real,
                     expenseRatio: real, years: nat, draw: MonthlyDraw, sim: nat, y: nat): real
  {
    var b := StockBalance(initial, monthly, NetMonthlyReturn(expectedReturn, expenseRatio), stdDev, draw, sim, 12 * y);
    if y == years then b - (b - CostBasis(initial, monthly, years)) * LongTermCapitalGainsTax else b
  }

  /** With no growth at all, the balance is exactly what was paid in so far. */
  lemma {:induction false} StockBalanceWithoutGrowth(initial: real, monthly: real, monthlyReturn: real,
                                                     stdDev: real, draw: MonthlyDraw, sim: nat, m: nat)
    requires forall k: nat :: k < m ==> draw(monthlyReturn, stdDev, sim, k) == 0.0
    ensures StockBalance(initial, monthly, monthlyReturn, stdDev, draw, sim, m)
         == initial + monthly * (MinI(MonthsToTransfer, m) as real)
  {
    if m > 0 {
      StockBalanceWithoutGrowth(initial, monthly, monthlyReturn, stdDev, draw, sim, m - 1);
    }
  }

  /** The cost basis the tax uses is exactly the money paid in: with zero returns the
      final column is untaxed and equals the basis. */
  lemma NoGainNoTax(initial: real, monthly: real, expectedReturn: real, stdDev: real,
                    expenseRatio: real, years: nat, draw: MonthlyDraw, sim: nat)
    requires forall k: nat :: k < 12 * years ==> draw(NetMonthlyReturn(expectedReturn, expenseRatio), stdDev, sim, k) == 0.0
    ensures StockCell(initial, monthly, expectedReturn, stdDev, expenseRatio, years, draw, sim, years)
         == CostBasis(initial, monthly, years)
  {
    StockBalanceWithoutGrowth(initial, monthly, NetMonthlyReturn(expectedReturn, expenseRatio), stdDev, draw, sim, 12 * years);
    assert MinI(MonthsToTransfer, 12 * years) == MinI(MonthsToTransfer, years * 12);
  }

  /** The final column keeps the basis plus 80% of the gain (or bears 80% of a loss). */
  lemma CapitalGainsTaxShare(initial: real, monthly: real, expectedReturn: real, stdDev: real,
                             expenseRatio: real, years: nat, draw: MonthlyDraw, sim: nat)
    ensures var b := StockBalance(initial, monthly, NetMonthlyReturn(expectedReturn, expenseRatio), stdDev, draw, sim, 12 * years);
      var basis := CostBasis(initial, monthly, years);
      StockCell(initial, monthly, expectedReturn, stdDev, expenseRatio, years, draw, sim, years) - basis == 0.8 * (b - basis)
  {
  }

  method SimulateStockReturnsWithMonthlyInvestment(
    initial: real, monthlyInvestment: real, expectedReturn: real, stdDev: real, expenseRatio: real,
    years: nat, simulations: nat, draw: MonthlyDraw)
    returns (results: array2<real>)
    ensures fresh(results) && results.Length0 == simulations && results.Length1 == years + 1
    ensures forall s, y :: 0 <= s < simulations && 0 <= y <= years ==>
      results[s, y] == StockCell(initial, monthlyInvestment, expectedReturn, stdDev, expenseRatio, years, draw, s, y)
  {
    results := new real[simulations, years + 1];
    var s := 0;
    while s < simulations
      invariant 0 <= s <= simulations
      invariant forall s' :: 0 <= s' < s ==> results[s', 0] == initial
    {
      results[s, 0] := initial;
      s := s + 1;
    }
    var monthlyReturn := NetMonthlyReturn(expectedReturn, expenseRatio);
    var sim := 0;
    while sim < simulations
      invariant 0 <= sim <= simulations
      invariant forall s', y :: 0 <= s' < sim && 0 <= y <= years ==>
        results[s', y] == StockBalance(initial, monthlyInvestment, monthlyReturn, stdDev, draw, s', 12 * y)
      invariant forall s' :: sim <= s' < simulations ==> results[s', 0] == initial
    {
      SimulateStockTrial(results, sim, initial, monthlyInvestment, monthlyReturn, stdDev, draw);
      sim := sim + 1;
    }
    var basis := CostBasis(initial, monthlyInvestment, years);
    sim := 0;
    while sim < simulations
      invariant 0 <= sim <= simulations
      invariant forall s', y :: 0 <= s' < sim && 0 <= y <= years ==>
        results[s', y] == StockCell(initial, monthlyInvestment, expectedReturn, stdDev, expenseRatio, years, draw, s', y)
      invariant forall s', y :: sim <= s' < simulations && 0 <= y <= years ==>
        results[s', y] == StockBalance(initial, monthlyInvestment, monthlyReturn, stdDev, draw, s', 12 * y)
    {
      var capitalGains := results[sim, years] - basis;
      results[sim, years] := results[sim, years] - capitalGains * LongTermCapitalGainsTax;
      sim := sim + 1;
    }
  }

  /** One trial of the equity simulation: fills row `sim` after column 0 with the
      balance at each year end, leaving every other cell as it was. */
  method SimulateStockTrial(results: array2<real>, sim: nat, initial: real, monthlyInvestment: real,
                            monthlyReturn: real, stdDev: real, draw: MonthlyDraw)
    requires sim < results.Length0 && results.Length1 >= 1
    modifies results
    ensures forall y :: 1 <= y < results.Length1 ==>
      results[sim, y] == StockBalance(initial, monthlyInvestment, monthlyReturn, stdDev, draw, sim, 12 * y)
    ensures forall s, y :: 0 <= s < results.Length0 && 0 <= y < results.Length1 && (s != sim || y == 0) ==>
      results[s, y] == old(results[s, y])
  {
    var years := results.Length1 - 1;
    var balance := initial;
    var monthsInvested := 0;
    var year := 0;
    while year < years
      invariant 0 <= year <= years
      invariant balance == StockBalance(initial, monthlyInvestment, monthlyReturn, stdDev, draw, sim, 12 * year)
      invariant monthsInvested == MinI(MonthsToTransfer, 12 * year)
      invariant forall y {:trigger results[sim, y]} :: 1 <= y <= year ==>
        results[sim, y] == StockBalance(initial, monthlyInvestment, monthlyReturn, stdDev, draw, sim, 12 * y)
      invariant forall s, y :: 0 <= s < results.Length0 && 0 <= y < results.Length1 && (s != sim || y == 0 || y > year) ==>
        results[s, y] == old(results[s, y])
    {
      var month := 0;
      while month < 12
        modifies {}
        invariant 0 <= month <= 12
        invariant balance == StockBalance(initial, monthlyInvestment, monthlyReturn, stdDev, draw, sim, 12 * year + month)
        invariant monthsInvested == MinI(MonthsToTransfer, 12 * year + month)
      {
        ghost var before := balance;
        if monthsInvested < MonthsToTransfer {
          balance := balance + monthlyInvestment;
          monthsInvested := monthsInvested + 1;
        }
        var monthlyReturnRate := draw(monthlyReturn, stdDev, sim, 12 * year + month);
        StockBalanceNext(initial, monthlyInvestment, monthlyReturn, stdDev, draw, sim, 12 * year + month,
                         before, balance, monthlyReturnRate);
        balance := balance * (1.0 + monthlyReturnRate);
        month := month + 1;
      }
      results[sim, year + 1] := balance;
      year := year + 1;
    }
  }

  // ---------------------------------------------------------------------------
  // 401k account

  /** The random yearly return: (expected return, standard deviation, simulation index,
      year index) to the year's rate of return. */
  type YearlyDraw = (real, real, nat, nat) -> real

  function Balance401k(initial: real, expectedReturn: real, stdDev: real, draw: YearlyDraw, sim: nat, y: nat): real
  {
    if y == 0 then initial
    else Balance401k(initial, expectedReturn, stdDev, draw, sim, y - 1) * (1.0 + draw(expectedReturn, stdDev, sim, y - 1))
  }

  /** The 401k balance is the initial amount compounded by every year's growth factor. */
  lemma {:induction false} Balance401kCompounds(initial: real, expectedReturn: real, stdDev: real,
                                                draw: YearlyDraw, sim: nat, y: nat)
    ensures Balance401k(initial, expectedReturn, stdDev, draw, sim, y)
         == initial * Product(seq(y, k requires 0 <= k < y => 1.0 + draw(expectedReturn, stdDev, sim, k)))
  {
    var factors := seq(y, k requires 0 <= k < y => 1.0 + draw(expectedReturn, stdDev, sim, k));
    if y > 0 {
      Balance401kCompounds(initial, expectedReturn, stdDev, draw, sim, y - 1);
      assert factors[..y - 1] == seq(y - 1, k requires 0 <= k < y - 1 => 1.0 + draw(expectedReturn, stdDev, sim, k));
    }
  }

  lemma Balance401kNext(initial: real, expectedReturn: real, stdDev: real, draw: YearlyDraw, sim: nat, y: nat,
                         balance: real, returnRate: real)
    requires balance == Balance401k(initial, expectedReturn, stdDev, draw, sim, y)
    requires returnRate == draw(expectedReturn, stdDev, sim, y)
    ensures Balance401k(initial, expectedReturn, stdDev, draw, sim, y + 1) == balance * (1.0 + returnRate)
  {
  }

  method Simulate401kReturns(initial: real, expectedReturn: real, stdDev: real,
                             years: nat, simulations: nat, draw: YearlyDraw)
    returns (results: array2<real>)
    ensures fresh(results) && results.Length0 == simulations && results.Length1 == years + 1
    ensures forall s, y :: 0 <= s < simulations && 0 <= y <= years ==>
      results[s, y] == Balance401k(initial, expectedReturn, stdDev, draw, s, y)
  {
    results := new real[simulations, years + 1];
    var sim := 0;
    while sim < simulations
      invariant 0 <= sim <= simulations
      invariant forall s', y :: 0 <= s' < sim && 0 <= y <= years ==>
        results[s', y] == Balance401k(initial, expectedReturn, stdDev, draw, s', y)
    {
      Simulate401kTrial(results, sim, initial, expectedReturn, stdDev, draw);
      sim := sim + 1;
    }
  }

  /** One trial of the 401k simulation: fills row `sim` with the balance at each year end,
      leaving every other row as it was. */
  method Simulate401kTrial(results: array2<real>, sim: nat, initial: real, expectedReturn: real,
                           stdDev: real, draw: YearlyDraw)
    requires sim < results.Length0 && results.Length1 >= 1
    modifies results
    ensures forall y :: 0 <= y < results.Length1 ==>
      results[sim, y] == Balance401k(initial, expectedReturn, stdDev, draw, sim, y)
    ensures forall s, y :: 0 <= s < results.Length0 && 0 <= y < results.Length1 && s != sim ==>
      results[s, y] == old(results[s, y])
  {
    var rows, years := results.Length0, results.Length1 - 1;
    results[sim, 0] := initial;
    var balance := initial;
    var year := 0;
    while year < years
      invariant 0 <= year <= years
      invariant balance == Balance401k(initial, expectedReturn, stdDev, draw, sim, year)
      invariant forall s, y :: 0 <= s < rows && 0 <= y <= years && s != sim ==>
        results[s, y] == old(results[s, y])
      invariant forall y {:trigger results[sim, y]} :: 0 <= y <= year ==>
        results[sim, y] == Balance401k(initial, expectedReturn, stdDev, draw, sim, y)
    {
      var returnRate := draw(expectedReturn, stdDev, sim, year);
      Balance401kNext(initial, expectedReturn, stdDev, draw, sim, year, balance, returnRate);
      balance := balance * (1.0 + returnRate);
      results[sim, year + 1] := balance;
      year := year + 1;
    }
  }

  // ---------------------------------------------------------------------------
  // Aggregation

  /** The whole portfolio: the treasury row added to every trial, plus the three matrices. */
  method TotalPortfolio(treasury: seq<real>, voo: array2<real>, qqqm: array2<real>, four01k: array2<real>)
    returns (total: array2<real>)
    requires |treasury| == voo.Length1 == qqqm.Length1 == four01k.Length1
    requires voo.Length0 == qqqm.Length0 == four01k.Length0
    ensures fresh(total) && total.Length0 == voo.Length0 && total.Length1 == |treasury|
    ensures forall s, y :: 0 <= s < total.Length0 && 0 <= y < total.Length1 ==>
      total[s, y] == treasury[y] + voo[s, y] + qqqm[s, y] + four01k[s, y]
  {
    total := new real[voo.Length0, |treasury|];
    var s := 0;
    while s < voo.Length0
      invariant 0 <= s <= voo.Length0
      invariant forall s', y :: 0 <= s' < s && 0 <= y < |treasury| ==>
        total[s', y] == treasury[y] + voo[s', y] + qqqm[s', y] + four01k[s', y]
    {
      var y := 0;
      while y < |treasury|
        invariant 0 <= y <= |treasury|
        invariant forall y' :: 0 <= y' < y ==> total[s, y'] == treasury[y'] + voo[s, y'] + qqqm[s, y'] + four01k[s, y']
        invariant forall s', y' :: 0 <= s' < s && 0 <= y' < |treasury| ==>
          total[s', y'] == treasury[y'] + voo[s', y'] + qqqm[s', y'] + four01k[s', y']
      {
        total[s, y] := 0.0 + treasury[y] + voo[s, y] + qqqm[s, y] + four01k[s, y];
        y := y + 1;
      }
      s := s + 1;
    }
  }

  /** main(): the four simulations on the script's constants, then their sum. The market
      estimates (fetched at start-up) and the random streams are parameters. */
  method SimulatePortfolio(vooFetched: Option<Estimate>, qqqmFetched: Option<Estimate>,
                           vooDraw: MonthlyDraw, qqqmDraw: MonthlyDraw, four01kDraw: YearlyDraw)
    returns (total: array2<real>)
    ensures total.Length0 == Simulations && total.Length1 == Years + 1
    ensures forall s, y :: 0 <= s < Simulations && 0 <= y <= Years ==>
      total[s, y] == TreasuryPath(TreasuryInitial, TreasuryRates(Years))[y]
        + StockCell(VooInitial, MonthlyStockInvestment, MarketEstimates(vooFetched, qqqmFetched)[0].ret,
                    MarketEstimates(vooFetched, qqqmFetched)[0].std, VooExpenseRatio, Years, vooDraw, s, y)
        + StockCell(QqqmInitial, MonthlyStockInvestment, MarketEstimates(vooFetched, qqqmFetched)[1].ret,
                    MarketEstimates(vooFetched, qqqmFetched)[1].std, QqqmExpenseRatio, Years, qqqmDraw, s, y)
        + Balance401k(Four01kInitial, Default401kReturn, Default401kStd, four01kDraw, s, y)
  {
    var estimates := MarketEstimates(vooFetched, qqqmFetched);
    var treasury := SimulateTreasuryReturns(TreasuryInitial, Years);
    var voo := SimulateStockReturnsWithMonthlyInvestment(VooInitial, MonthlyStockInvestment, estimates[0].ret,
                                                         estimates[0].std, VooExpenseRatio, Years, Simulations, vooDraw);
    var qqqm := SimulateStockReturnsWithMonthlyInvestment(QqqmInitial, MonthlyStockInvestment, estimates[1].ret,
                                                          estimates[1].std, QqqmExpenseRatio, Years, Simulations, qqqmDraw);
    var four01k := Simulate401kReturns(Four01kInitial, Default401kReturn, Default401kStd, Years, Simulations, four01kDraw);
    total := TotalPortfolio(treasury, voo, qqqm, four01k);
  }
}
