/** Discounted-cash-flow valuation of a rental property (real_estate_dcf/dcf_calculator.py). */
module RealEstateDcf {
  import opened Common

  /** The exceptions calculate_present_value can raise: an IndexError on an empty
      projection (`cash_flows[-1]`) and a ZeroDivisionError from a zero cap rate or a
      zero discount factor. */
  datatype DcfError = NoCashFlows | ZeroDivision

  datatype Outcome<T> = Ok(value: T) | Err(error: DcfError)

  /** What calculate_present_value returns: the total, the yearly present values and the
      present value of the terminal value. */
  datatype Valuation = Valuation(totalValue: real, presentValues: seq<real>, terminalValuePv: real)

  /** Net operating income of year i when income, expenses and the assessed value all
      grow by g each year: the year-0 NOI scaled by (1+g)^i. */
  function NoiAt(income: real, expenses: real, value: real, taxRate: real, g: real, i: nat): real
  {
    (income - expenses - value * taxRate) * Pow(1.0 + g, i)
  }

  /** One pass of the projection loop: the running quantities, each compounded `year`
      times, yield that year's NOI and, grown once more, stay compounded. */
  lemma ProjectionStep(income: real, expenses: real, value: real, taxRate: real, g: real, year: nat,
                       currentIncome: real, currentExpenses: real, currentValue: real,
                       noi: real, nextIncome: real, nextExpenses: real, nextValue: real)
    requires currentIncome == income * Pow(1.0 + g, year)
    requires currentExpenses == expenses * Pow(1.0 + g, year)
    requires currentValue == value * Pow(1.0 + g, year)
    requires noi == currentIncome - currentExpenses - currentValue * taxRate
    requires nextIncome == currentIncome * (1.0 + g)
    requires nextExpenses == currentExpenses * (1.0 + g)
    requires nextValue == currentValue * (1.0 + g)
    ensures noi == NoiAt(income, expenses, value, taxRate, g, year)
    ensures nextIncome == income * Pow(1.0 + g, year + 1)
    ensures nextExpenses == expenses * Pow(1.0 + g, year + 1)
    ensures nextValue == value * Pow(1.0 + g, year + 1)
  {
    var p := Pow(1.0 + g, year);
    assert (value * p) * taxRate == (value * taxRate) * p;
    assert noi == (income - expenses - value * taxRate) * p;
  }

  /** An amount due in `years` years, discounted at the yearly factor (1+d). */
  function Discounted(amount: real, factor: real, years: nat): real
    requires factor != 0.0
  {
    PowNonZero(factor, years);
    amount / Pow(factor, years)
  }

  /** Compounding a discounted amount over the same years gives the amount back. */
  lemma DiscountingUndoesCompounding(amount: real, factor: real, years: nat)
    requires factor != 0.0
    ensures Discounted(amount, factor, years) * Pow(factor, years) == amount
  {
    PowNonZero(factor, years);
  }

  lemma ScaleBoth(a: real, b: real, c: real)
    requires a == b
    ensures a * c == b * c
  {
  }

  lemma CancelFactor(a: real, p: real, x: real)
    requires p != 0.0 && x != 0.0
    ensures (a * p) / (p * x) == a / x
  {
    var q := a / x;
    assert a == q * x;
    assert a * p == q * (p * x);
  }

  /** NOI compounded at g and discounted at the same rate is the same every year. */
  lemma FlatWhenGrowthIsDiscount(income: real, expenses: real, value: real, taxRate: real, g: real, i: nat)
    requires 1.0 + g != 0.0
    ensures Discounted(NoiAt(income, expenses, value, taxRate, g, i), 1.0 + g, i + 1)
         == Discounted(NoiAt(income, expenses, value, taxRate, g, 0), 1.0 + g, 1)
  {
    var x := 1.0 + g;
    var p := Pow(x, i);
    var n0 := income - expenses - value * taxRate;
    PowNonZero(x, i);
    assert Pow(x, i + 1) == p * x;
    assert Pow(x, 1) == x;
    assert NoiAt(income, expenses, value, taxRate, g, i) == n0 * p;
    assert NoiAt(income, expenses, value, taxRate, g, 0) == n0;
    CancelFactor(n0, p, x);
  }

  class RealEstateDCF {
    var rentalIncome: real
    var operatingExpenses: real
    var propertyTaxRate: real
    var propertyValue: real
    var growthRate: real
    var discountRate: real
    var projectionYears: nat
    var terminalCapRate: real

    /** Every rate and amount starts at 0; the projection at 10 years. */
    constructor ()
      ensures rentalIncome == 0.0 && operatingExpenses == 0.0 && propertyTaxRate == 0.0
      ensures propertyValue == 0.0 && growthRate == 0.0 && discountRate == 0.0
      ensures projectionYears == 10 && terminalCapRate == 0.0
    {
      rentalIncome := 0.0;
      operatingExpenses := 0.0;
      propertyTaxRate := 0.0;
      propertyValue := 0.0;
      growthRate := 0.0;
      discountRate := 0.0;
      projectionYears := 10;
      terminalCapRate := 0.0;
    }

    /** Stores the parameters; an assessed value that is not positive is replaced by
        twenty years of rent. */
    method SetParameters(rentalIncome: real, operatingExpenses: real, growthRate: real, discountRate: real,
                         projectionYears: nat := 10, terminalCapRate: real := 0.05,
                         propertyTaxRate: real := 0.012, propertyValue: real := 0.0)
      modifies this
      ensures this.rentalIncome == rentalIncome && this.operatingExpenses == operatingExpenses
      ensures this.growthRate == growthRate && this.discountRate == discountRate
      ensures this.projectionYears == projectionYears && this.terminalCapRate == terminalCapRate
      ensures this.propertyTaxRate == propertyTaxRate
      ensures this.propertyValue == if propertyValue > 0.0 then propertyValue else rentalIncome * 20.0
    {
      this.rentalIncome := rentalIncome;
      this.operatingExpenses := operatingExpenses;
      this.growthRate := growthRate;
      this.discountRate := discountRate;
      this.projectionYears := projectionYears;
      this.terminalCapRate := terminalCapRate;
      this.propertyTaxRate := propertyTaxRate;
      this.propertyValue := if propertyValue > 0.0 then propertyValue else rentalIncome * 20.0;
    }

    /** NOI of year i of the projection for the current parameters. */
    function CashFlowAt(i: nat): real
      reads this
    {
      NoiAt(rentalIncome, operatingExpenses, propertyValue, propertyTaxRate, growthRate, i)
    }

    /** One NOI per projected year; the loop works on local copies, so no field changes
        (the method has no modifies clause). */
    method CalculateCashFlows() returns (cashFlows: seq<real>)
      ensures |cashFlows| == projectionYears
      ensures forall i :: 0 <= i < |cashFlows| ==> cashFlows[i] == CashFlowAt(i)
    {
      var income, expenses, value, taxRate, g := rentalIncome, operatingExpenses, propertyValue, propertyTaxRate, growthRate;
      cashFlows := [];
      var currentIncome := income;
      var currentExpenses := expenses;
      var currentPropertyValue := value;
      var year := 0;
      while year < projectionYears
        invariant 0 <= year <= projectionYears
        invariant |cashFlows| == year
        invariant forall i :: 0 <= i < year ==> cashFlows[i] == NoiAt(income, expenses, value, taxRate, g, i)
        invariant currentIncome == income * Pow(1.0 + g, year)
        invariant currentExpenses == expenses * Pow(1.0 + g, year)
        invariant currentPropertyValue == value * Pow(1.0 + g, year)
      {
        var propertyTax := currentPropertyValue * taxRate;
        var noi := currentIncome - currentExpenses - propertyTax;
        var nextIncome := currentIncome * (1.0 + g);
        var nextExpenses := currentExpenses * (1.0 + g);
        var nextPropertyValue := currentPropertyValue * (1.0 + g);
        ProjectionStep(income, expenses, value, taxRate, g, year,
                       currentIncome, currentExpenses, currentPropertyValue,
                       noi, nextIncome, nextExpenses, nextPropertyValue);
        cashFlows := cashFlows + [noi];
        currentIncome, currentExpenses, currentPropertyValue := nextIncome, nextExpenses, nextPropertyValue;
        year := year + 1;
      }
    }

    /** Gordon-growth terminal value: next year's NOI capitalised at the terminal cap rate;
        a zero cap rate is a ZeroDivisionError. */
    function CalculateTerminalValue(finalYearNoi: real): (r: Outcome<real>)
      reads this
      ensures r.Ok? <==> terminalCapRate != 0.0
      ensures r.Err? ==> r.error == ZeroDivision
      ensures r.Ok? ==> r.value * terminalCapRate == finalYearNoi * (1.0 + growthRate)
    {
      if terminalCapRate == 0.0 then Err(ZeroDivision)
      else Ok(finalYearNoi * (1.0 + growthRate) / terminalCapRate)
    }

    /** Present value of year i's cash flow, discounted over i+1 years. */
    function PresentValueAt(i: nat): real
      reads this
      requires 1.0 + discountRate != 0.0
    {
      Discounted(CashFlowAt(i), 1.0 + discountRate, i + 1)
    }

    /** Terminal value discounted over the whole projection. */
    function TerminalValuePv(): real
      reads this
      requires projectionYears > 0 && terminalCapRate != 0.0 && 1.0 + discountRate != 0.0
    {
      Discounted(CalculateTerminalValue(CashFlowAt(projectionYears - 1)).value, 1.0 + discountRate, projectionYears)
    }

    /** Discounts each cash flow by (1+d)^(year) and the terminal value by (1+d)^N. */
    method CalculatePresentValue() returns (r: Outcome<Valuation>)
      ensures projectionYears == 0 ==> r == Err(NoCashFlows)
      ensures r.Err? <==> projectionYears == 0 || terminalCapRate == 0.0 || 1.0 + discountRate == 0.0
      ensures r.Ok? ==>
        var v := r.value;
        var n := projectionYears;
        |v.presentValues| == n &&
        (forall i :: 0 <= i < n ==> v.presentValues[i] == PresentValueAt(i)) &&
        v.terminalValuePv == TerminalValuePv() &&
        v.totalValue == Sum(v.presentValues) + v.terminalValuePv
    {
      var cashFlows := CalculateCashFlows();
      if |cashFlows| == 0 {
        return Err(NoCashFlows);
      }
      var terminalValue := CalculateTerminalValue(cashFlows[|cashFlows| - 1]);
      if terminalValue.Err? {
        return Err(terminalValue.error);
      }
      var x := 1.0 + discountRate;
      // The first division, by (1+d)^1, raises when the discount factor is zero.
      if x == 0.0 {
        return Err(ZeroDivision);
      }
      var presentValues: seq<real> := [];
      var i := 0;
      while i < |cashFlows|
        invariant 0 <= i <= |cashFlows|
        invariant |presentValues| == i
        invariant forall k :: 0 <= k < i ==> presentValues[k] == Discounted(cashFlows[k], x, k + 1)
      {
        PowNonZero(x, i + 1);
        var pv := cashFlows[i] / Pow(x, i + 1);
        presentValues := presentValues + [pv];
        i := i + 1;
      }
      var n := |cashFlows|;
      PowNonZero(x, n);
      var terminalValuePv := terminalValue.value / Pow(x, n);
      var totalValue := Sum(presentValues) + terminalValuePv;
      r := Ok(Valuation(totalValue, presentValues, terminalValuePv));
    }

    /** Discounting inverts compounding: year i's present value grown over i+1 years is
        that year's NOI. */
    lemma PresentValueCompounds(i: nat)
      requires 1.0 + discountRate != 0.0
      ensures PresentValueAt(i) * Pow(1.0 + discountRate, i + 1) == CashFlowAt(i)
    {
      DiscountingUndoesCompounding(CashFlowAt(i), 1.0 + discountRate, i + 1);
    }

    /** The discounted terminal value, grown back over the projection and capitalised at
        the cap rate, is the NOI of the year after the last. */
    lemma TerminalValuePvCompounds()
      requires projectionYears > 0 && terminalCapRate != 0.0 && 1.0 + discountRate != 0.0
      ensures TerminalValuePv() * Pow(1.0 + discountRate, projectionYears) * terminalCapRate
              == CashFlowAt(projectionYears - 1) * (1.0 + growthRate)
    {
      var tv := CalculateTerminalValue(CashFlowAt(projectionYears - 1)).value;
      DiscountingUndoesCompounding(tv, 1.0 + discountRate, projectionYears);
      ScaleBoth(TerminalValuePv() * Pow(1.0 + discountRate, projectionYears), tv, terminalCapRate);
    }

    /** The property tax the report prints: assessed value times the tax rate. */
    function AnnualPropertyTax(): real
      reads this
    {
      propertyValue * propertyTaxRate
    }

    /** The reported tax is exactly the tax deducted in the first projected year. */
    lemma AnnualTaxIsFirstYearTax()
      ensures CashFlowAt(0) == rentalIncome - operatingExpenses - AnnualPropertyTax()
    {
    }

    /** When growth equals the discount rate every year contributes the same present
        value, the year-0 NOI discounted once. */
    lemma GrowthEqualsDiscount(i: nat)
      requires growthRate == discountRate && 1.0 + discountRate != 0.0
      ensures PresentValueAt(i) == PresentValueAt(0)
    {
      FlatWhenGrowthIsDiscount(rentalIncome, operatingExpenses, propertyValue, propertyTaxRate, growthRate, i);
    }
  }
}
