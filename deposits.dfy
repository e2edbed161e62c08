/** The demand-deposit tables of the People's Bank of China (deposits/anaylze.py): one
    spreadsheet per year, of which one row holds the twelve monthly household or
    enterprise deposits (and, for enterprises, the row above holds M0), merged into
    monthly series with year-on-year changes and sums. Downloads are values (None when the
    request failed); `float(str)` is the caller's parser. */
module Deposits {
  import opened Common
  import opened Strings

  const BaseYear: nat := 2015
  const HouseholdRowNumber: nat := 10
  const EnterpriseRowNumber: nat := 14

  datatype Column = Household | Enterprise

  /** A spreadsheet cell: text, or a number as pandas read it (NaN when empty). */
  datatype Cell = Text(text: string) | Number(value: Float)

  /** `float(s)`: None where it raises. */
  type FloatParser = string -> Option<Float>

  /** The text `float` is given: no-break spaces become spaces, then the ends are stripped. */
  function CleanText(s: string): string
  {
    Strip(ReplaceChar(s, '\U{A0}', ' '))
  }

  /** The cleaned text holds no no-break space, and neither of its ends is white space. */
  lemma CleanTextFacts(s: string)
    ensures !ContainsChar(CleanText(s), '\U{A0}')
    ensures CleanText(s) != [] ==> !IsSpace(CleanText(s)[0]) && !IsSpace(CleanText(s)[|CleanText(s)| - 1])
  {
    var replaced := ReplaceChar(s, '\U{A0}', ' ');
    var left := StripLeft(replaced);
    var r := StripRight(left);
    var off := |replaced| - |left|;
    forall i | 0 <= i < |r| ensures r[i] != '\U{A0}' {
      assert r[i] == left[i];
      assert left[i] == replaced[off + i];
    }
  }

  /** `process_deposit_data`: text is cleaned and parsed; a number is kept as it is. */
  function ProcessDepositData(c: Cell, parse: FloatParser): (r: Option<Float>)
    ensures c.Number? ==> r == Some(c.value)
    ensures c.Text? ==> r == parse(CleanText(c.text))
  {
    match c
    case Text(s) => parse(CleanText(s))
    case Number(x) => Some(x)
  }

  /** `get_row_numer`: the 2022 sheets moved the enterprise row up by one and the household
      row down by one; every other year uses the base row. */
  function RowNumber(base: int, year: int, column: Column): (r: int)
    ensures year != 2022 ==> r == base
    ensures year == 2022 && column == Enterprise ==> r == base - 1
    ensures year == 2022 && column == Household ==> r == base + 1
  {
    if column == Enterprise then (if year != 2022 then base else base - 1)
    else (if year != 2022 then base else base + 1)
  }

  /** `f'{year}-{month}'`, with no zero padding. */
  function Label(year: nat, month: nat): string
  {
    NatToString(year) + "-" + NatToString(month)
  }

  lemma LabelSplit(year: nat, month: nat)
    ensures BeforeFirst(Label(year, month), '-') == NatToString(year)
    ensures Label(year, month)[|NatToString(year)| + 1..] == NatToString(month)
  {
    var y, m := NatToString(year), NatToString(month);
    var l := Label(year, month);
    assert l[|y|] == '-';
    assert forall i :: 0 <= i < |y| ==> l[i] == y[i];
    assert IndexOf(l, '-') == |y|;
    assert l[..|y|] == y;
  }

  /** Labels never collide: the year and the month can be read back from one. */
  lemma LabelInjective(y1: nat, m1: nat, y2: nat, m2: nat)
    requires Label(y1, m1) == Label(y2, m2)
    ensures y1 == y2 && m1 == m2
  {
    LabelSplit(y1, m1);
    LabelSplit(y2, m2);
    NatToStringRoundTrip(y1);
    NatToStringRoundTrip(y2);
    NatToStringRoundTrip(m1);
    NatToStringRoundTrip(m2);
  }

  /** A month label is never zero-padded: for months from 1 on it starts with a non-zero
      digit. */
  lemma LabelNotPadded(year: nat, month: nat)
    requires month >= 1
    ensures Label(year, month)[|NatToString(year)| + 1] != '0'
  {
    LabelSplit(year, month);
    NatToStringLeadingDigit(month);
  }

  lemma {:induction false} NatToStringLeadingDigit(n: nat)
    requires n >= 1
    ensures NatToString(n)[0] != '0'
  {
    if n >= 10 {
      NatToStringLeadingDigit(n / 10);
    }
  }

  // ---------------------------------------------------------------------------
  // One series from the yearly sheets

  /** The rows of a sheet below its header. */
  type Sheet = seq<seq<Cell>>

  /** `row[1:]`: the cells after the label column. */
  function Months(row: seq<Cell>): seq<Cell>
  {
    if row == [] then [] else row[1..]
  }

  /** The `result_dict` lists: dates, deposits and, for enterprises, M0. */
  datatype Series = Series(dates: seq<string>, values: seq<Float>, m0: seq<Float>)

  /** How one cell is read: `process_deposit_data` with a given parser. */
  type CellReader = Cell -> Option<Float>

  function Reader(parse: FloatParser): CellReader
  {
    c => ProcessDepositData(c, parse)
  }

  /** One month appended to s: its label and its cleaned deposit, and for enterprises the
      cleaned cell of the row above in the same column. None where a cell cannot be parsed
      or the row above is too short (the script raises). */
  function MonthStep(s: Series, cells: seq<Cell>, above: seq<Cell>, year: nat, column: Column,
                     read: CellReader, month: nat): Option<Series>
    requires month < |cells|
  {
    var v := read(cells[month]);
    if v.None? then None
    else if column == Household then Some(Series(s.dates + [Label(year, month + 1)], s.values + [v.value], s.m0))
    else if month >= |above| then None
    else
      var w := read(above[month]);
      if w.None? then None
      else Some(Series(s.dates + [Label(year, month + 1)], s.values + [v.value], s.m0 + [w.value]))
  }

  /** A successful month adds one label and one deposit, and for enterprises one M0. */
  lemma MonthStepFacts(s: Series, cells: seq<Cell>, above: seq<Cell>, year: nat, column: Column,
                       read: CellReader, month: nat)
    requires month < |cells|
    ensures var t := MonthStep(s, cells, above, year, column, read, month);
      t.Some? ==>
        read(cells[month]).Some? &&
        t.value.dates == s.dates + [Label(year, month + 1)] &&
        t.value.values == s.values + [read(cells[month]).value] &&
        (column == Household ==> t.value.m0 == s.m0) &&
        (column == Enterprise ==>
          month < |above| && read(above[month]).Some? && t.value.m0 == s.m0 + [read(above[month]).value])
  {
  }

  /** The first m months of one sheet appended to acc, or None once one fails. */
  function MonthRows(acc: Series, cells: seq<Cell>, above: seq<Cell>, year: nat, column: Column,
                     read: CellReader, m: nat): Option<Series>
    requires m <= |cells|
  {
    if m == 0 then Some(acc)
    else
      var prev := MonthRows(acc, cells, above, year, column, read, m - 1);
      if prev.None? then None else MonthStep(prev.value, cells, above, year, column, read, m - 1)
  }

  /** `year-1` to `year-m`. */
  function MonthLabels(year: nat, m: nat): seq<string>
  {
    seq(m, j requires 0 <= j < m => Label(year, j + 1))
  }

  /** The months are appended in order under labels year-1, year-2, .... */
  lemma {:induction false} MonthRowsDates(acc: Series, cells: seq<Cell>, above: seq<Cell>, year: nat,
                                          column: Column, read: CellReader, m: nat)
    requires m <= |cells|
    ensures var r := MonthRows(acc, cells, above, year, column, read, m);
      r.Some? ==> r.value.dates == acc.dates + MonthLabels(year, m)
  {
    if m > 0 {
      var prev := MonthRows(acc, cells, above, year, column, read, m - 1);
      MonthRowsDates(acc, cells, above, year, column, read, m - 1);
      if prev.Some? {
        MonthStepFacts(prev.value, cells, above, year, column, read, m - 1);
        assert MonthLabels(year, m) == MonthLabels(year, m - 1) + [Label(year, m)];
      }
    }
  }

  /** Each deposit is the cleaned cell of its column. */
  lemma {:induction false} MonthRowsValues(acc: Series, cells: seq<Cell>, above: seq<Cell>, year: nat,
                                           column: Column, read: CellReader, m: nat)
    requires m <= |cells|
    ensures var r := MonthRows(acc, cells, above, year, column, read, m);
      r.Some? ==>
        |r.value.values| == |acc.values| + m && r.value.values[..|acc.values|] == acc.values &&
        (forall j :: 0 <= j < m ==> Some(r.value.values[|acc.values| + j]) == read(cells[j]))
  {
    if m > 0 {
      var prev := MonthRows(acc, cells, above, year, column, read, m - 1);
      MonthRowsValues(acc, cells, above, year, column, read, m - 1);
      if prev.Some? {
        MonthStepFacts(prev.value, cells, above, year, column, read, m - 1);
      }
    }
  }

  /** Household sheets add no M0; enterprise sheets add one M0 per deposit, the cleaned
      cell above it. */
  lemma {:induction false} MonthRowsM0(acc: Series, cells: seq<Cell>, above: seq<Cell>, year: nat,
                                       column: Column, read: CellReader, m: nat)
    requires m <= |cells|
    ensures var r := MonthRows(acc, cells, above, year, column, read, m);
      r.Some? ==>
        (column == Household ==> r.value.m0 == acc.m0) &&
        (column == Enterprise ==>
          |r.value.m0| == |acc.m0| + m && m <= |above| && r.value.m0[..|acc.m0|] == acc.m0 &&
          forall j :: 0 <= j < m ==> Some(r.value.m0[|acc.m0| + j]) == read(above[j]))
  {
    if m > 0 {
      var prev := MonthRows(acc, cells, above, year, column, read, m - 1);
      MonthRowsM0(acc, cells, above, year, column, read, m - 1);
      if prev.Some? {
        MonthStepFacts(prev.value, cells, above, year, column, read, m - 1);
      }
    }
  }

  /** A month that fails fails the whole sheet. */
  lemma {:induction false} MonthRowsStaysNone(acc: Series, cells: seq<Cell>, above: seq<Cell>, year: nat,
                                              column: Column, read: CellReader, m: nat, n: nat)
    requires m <= n <= |cells| && MonthRows(acc, cells, above, year, column, read, m).None?
    ensures MonthRows(acc, cells, above, year, column, read, n).None?
  {
    if m < n {
      MonthRowsStaysNone(acc, cells, above, year, column, read, m, n - 1);
    }
  }

  /** A sheet's deposits, or None when its row is missing (the script raises). */
  function SheetRows(acc: Series, sheet: Sheet, idx: nat, base: nat, column: Column, parse: FloatParser): Option<Series>
    requires base >= 2
  {
    var r := RowNumber(base, BaseYear + idx, column);
    if r >= |sheet| then None
    else MonthRows(acc, Months(sheet[r]), Months(sheet[r - 1]), BaseYear + idx, column, Reader(parse), |Months(sheet[r])|)
  }

  /** `process_data` over the first k downloads: a failed download is skipped; the year of
      download i is 2015 + i whether or not earlier ones failed. */
  function SeriesPrefix(fetched: seq<Option<Sheet>>, base: nat, column: Column, parse: FloatParser, k: nat): Option<Series>
    requires base >= 2 && k <= |fetched|
  {
    if k == 0 then Some(Series([], [], []))
    else
      match SeriesPrefix(fetched, base, column, parse, k - 1)
      case None => None
      case Some(acc) =>
        if fetched[k - 1].None? then Some(acc)
        else SheetRows(acc, fetched[k - 1].value, k - 1, base, column, parse)
  }

  function DepositSeries(fetched: seq<Option<Sheet>>, base: nat, column: Column, parse: FloatParser): Option<Series>
    requires base >= 2
  {
    SeriesPrefix(fetched, base, column, parse, |fetched|)
  }

  /** How many months download i contributes. */
  function MonthCount(sheet: Sheet, idx: nat, base: nat, column: Column): nat
  {
    var r := RowNumber(base, BaseYear + idx, column);
    if 0 <= r < |sheet| then |Months(sheet[r])| else 0
  }

  /** The labels of the first k downloads, each under its own year. */
  function LabelsPrefix(fetched: seq<Option<Sheet>>, base: nat, column: Column, k: nat): seq<string>
    requires k <= |fetched|
  {
    if k == 0 then []
    else
      var tail := if fetched[k - 1].None? then [] else MonthLabels(BaseYear + k - 1, MonthCount(fetched[k - 1].value, k - 1, base, column));
      LabelsPrefix(fetched, base, column, k - 1) + tail
  }

  /** The dates are the months of every successful download under its own year; there is
      one deposit per date, and for enterprises one M0 per date. */
  lemma {:induction false} SeriesPrefixFacts(fetched: seq<Option<Sheet>>, base: nat, column: Column, parse: FloatParser, k: nat)
    requires base >= 2 && k <= |fetched|
    ensures var r := SeriesPrefix(fetched, base, column, parse, k);
      r.Some? ==>
        r.value.dates == LabelsPrefix(fetched, base, column, k) &&
        |r.value.values| == |r.value.dates| &&
        (column == Household ==> r.value.m0 == []) &&
        (column == Enterprise ==> |r.value.m0| == |r.value.dates|)
  {
    if k > 0 {
      SeriesPrefixFacts(fetched, base, column, parse, k - 1);
      var prev := SeriesPrefix(fetched, base, column, parse, k - 1);
      if prev.Some? && fetched[k - 1].Some? {
        var sheet := fetched[k - 1].value;
        var r := RowNumber(base, BaseYear + k - 1, column);
        if r < |sheet| {
          MonthRowsDates(prev.value, Months(sheet[r]), Months(sheet[r - 1]), BaseYear + k - 1, column, Reader(parse), |Months(sheet[r])|);
          MonthRowsValues(prev.value, Months(sheet[r]), Months(sheet[r - 1]), BaseYear + k - 1, column, Reader(parse), |Months(sheet[r])|);
          MonthRowsM0(prev.value, Months(sheet[r]), Months(sheet[r - 1]), BaseYear + k - 1, column, Reader(parse), |Months(sheet[r])|);
        }
      }
    }
  }

  /** A sheet that fails fails the whole series. */
  lemma {:induction false} SeriesPrefixStaysNone(fetched: seq<Option<Sheet>>, base: nat, column: Column,
                                                 parse: FloatParser, k: nat, n: nat)
    requires base >= 2 && k <= n <= |fetched| && SeriesPrefix(fetched, base, column, parse, k).None?
    ensures SeriesPrefix(fetched, base, column, parse, n).None?
    decreases n - k
  {
    if k < n {
      SeriesPrefixStaysNone(fetched, base, column, parse, k + 1, n);
    }
  }

  /** One sheet: the inner loop of `process_data`. */
  method ReadSheet(acc: Series, sheet: Sheet, idx: nat, base: nat, column: Column, parse: FloatParser)
    returns (r: Option<Series>)
    requires base >= 2
    ensures r == SheetRows(acc, sheet, idx, base, column, parse)
  {
    var year := BaseYear + idx;
    var rowNumber := RowNumber(base, year, column);
    if rowNumber >= |sheet| {
      return None;
    }
    r := ReadMonths(acc, Months(sheet[rowNumber]), Months(sheet[rowNumber - 1]), year, column, Reader(parse));
  }

  /** The month loop of one sheet: each cell of the row in turn, stopping at the first
      failure. */
  method ReadMonths(acc: Series, cells: seq<Cell>, above: seq<Cell>, year: nat, column: Column, read: CellReader)
    returns (r: Option<Series>)
    ensures r == MonthRows(acc, cells, above, year, column, read, |cells|)
  {
    var series := acc;
    var month := 0;
    while month < |cells|
      invariant 0 <= month <= |cells|
      invariant MonthRows(acc, cells, above, year, column, read, month) == Some(series)
    {
      var next := ReadMonth(series, cells, above, year, column, read, month);
      if next.None? {
        MonthRowsStaysNone(acc, cells, above, year, column, read, month + 1, |cells|);
        return None;
      }
      series := next.value;
      month := month + 1;
    }
    return Some(series);
  }

  /** One pass of the inner loop of `process_data`. */
  method ReadMonth(s: Series, cells: seq<Cell>, above: seq<Cell>, year: nat, column: Column,
                   read: CellReader, month: nat) returns (r: Option<Series>)
    requires month < |cells|
    ensures r == MonthStep(s, cells, above, year, column, read, month)
  {
    var dates := s.dates + [Label(year, month + 1)];
    var v := read(cells[month]);
    if v.None? {
      return None;
    }
    var values := s.values + [v.value];
    if column == Enterprise {
      if month >= |above| {
        return None;
      }
      var w := read(above[month]);
      if w.None? {
        return None;
      }
      return Some(Series(dates, values, s.m0 + [w.value]));
    }
    return Some(Series(dates, values, s.m0));
  }

  /** `process_data`: the sheets in order, skipping failed downloads. */
  method ProcessData(fetched: seq<Option<Sheet>>, base: nat, column: Column, parse: FloatParser)
    returns (r: Option<Series>)
    requires base >= 2
    ensures r == DepositSeries(fetched, base, column, parse)
  {
    var acc := Series([], [], []);
    var idx := 0;
    while idx < |fetched|
      invariant 0 <= idx <= |fetched|
      invariant SeriesPrefix(fetched, base, column, parse, idx) == Some(acc)
    {
      if fetched[idx].Some? {
        var next := ReadSheet(acc, fetched[idx].value, idx, base, column, parse);
        assert SeriesPrefix(fetched, base, column, parse, idx + 1) == next;
        if next.None? {
          SeriesPrefixStaysNone(fetched, base, column, parse, idx + 1, |fetched|);
          return None;
        }
        acc := next.value;
      }
      idx := idx + 1;
    }
    return Some(acc);
  }

  // ---------------------------------------------------------------------------
  // Year-on-year changes and sums

  /** `pct_change(periods=p, fill_method=None) * 100`: undefined for the first p rows, else
      the change against p rows earlier, in percent. */
  function PctChange(xs: seq<Float>, p: nat): seq<Float>
  {
    seq(|xs|, i requires 0 <= i < |xs| =>
      if i < p then NaN else FMul(FSub(FDiv(xs[i], xs[i - p]), Finite(1.0)), Finite(100.0)))
  }

  /** The change is NaN in the first p rows and wherever either value is missing, and
      (x[i] / x[i-p] - 1) * 100 between two numbers with a non-zero base. */
  lemma PctChangeFacts(xs: seq<Float>, p: nat)
    ensures |PctChange(xs, p)| == |xs|
    ensures forall i :: 0 <= i < |xs| && i < p ==> PctChange(xs, p)[i].NaN?
    ensures forall i :: p <= i < |xs| && (xs[i].NaN? || xs[i - p].NaN?) ==> PctChange(xs, p)[i].NaN?
    ensures forall i :: p <= i < |xs| && xs[i].Finite? && xs[i - p].Finite? && xs[i - p].v != 0.0 ==>
      PctChange(xs, p)[i] == Finite((xs[i].v / xs[i - p].v - 1.0) * 100.0)
  {
  }

  /** Column-wise `a + b`. */
  function AddColumns(a: seq<Float>, b: seq<Float>): (r: seq<Float>)
    requires |a| == |b|
    ensures |r| == |a|
  {
    seq(|a|, i requires 0 <= i < |a| => FAdd(a[i], b[i]))
  }

  /** The merged table: columns by name, of one length. */
  class Frame {
    var columns: map<string, seq<Float>>

    ghost predicate HasDeposits()
      reads this
    {
      "household" in columns && "enterprise" in columns && "m0" in columns &&
      |columns["household"]| == |columns["enterprise"]| == |columns["m0"]|
    }

    constructor(household: seq<Float>, enterprise: seq<Float>, m0: seq<Float>)
      requires |household| == |enterprise| == |m0|
      ensures columns == map["household" := household, "enterprise" := enterprise, "m0" := m0]
      ensures HasDeposits()
    {
      columns := map["household" := household, "enterprise" := enterprise, "m0" := m0];
    }

    /** `calculate_year_on_year_changes`: adds the twelve-month changes of the three
        series, their sums household + enterprise, enterprise + M0 (M1) and
        household + enterprise + M0 (total), and the changes of those. */
    method CalculateYearOnYearChanges()
      requires HasDeposits()
      modifies this
      ensures HasDeposits()
      ensures var h, e, m0 := old(columns["household"]), old(columns["enterprise"]), old(columns["m0"]);
        var he := AddColumns(h, e);
        var m1 := AddColumns(e, m0);
        var total := AddColumns(he, m0);
        columns == old(columns)["household_yoy" := PctChange(h, 12)]["enterprise_yoy" := PctChange(e, 12)]
          ["m0_yoy" := PctChange(m0, 12)]["household_enterprise" := he]["household_enterprise_yoy" := PctChange(he, 12)]
          ["m1" := m1]["m1_yoy" := PctChange(m1, 12)]["total" := total]["total_yoy" := PctChange(total, 12)]
    {
      var h, e, m0 := columns["household"], columns["enterprise"], columns["m0"];
      columns := columns["household_yoy" := PctChange(h, 12)];
      columns := columns["enterprise_yoy" := PctChange(e, 12)];
      columns := columns["m0_yoy" := PctChange(m0, 12)];
      var he := AddColumns(h, e);
      columns := columns["household_enterprise" := he];
      columns := columns["household_enterprise_yoy" := PctChange(he, 12)];
      var m1 := AddColumns(e, m0);
      columns := columns["m1" := m1];
      columns := columns["m1_yoy" := PctChange(m1, 12)];
      var total := AddColumns(he, m0);
      columns := columns["total" := total];
      columns := columns["total_yoy" := PctChange(total, 12)];
    }
  }

  /** Where the three deposits are numbers, the total is their sum and M1 is enterprise
      plus M0; a missing deposit leaves both sums missing where it takes part. */
  lemma SumsOfParts(h: seq<Float>, e: seq<Float>, m0: seq<Float>, i: nat)
    requires |h| == |e| == |m0| && i < |h|
    ensures h[i].Finite? && e[i].Finite? && m0[i].Finite? ==>
      AddColumns(AddColumns(h, e), m0)[i] == Finite(h[i].v + e[i].v + m0[i].v) &&
      AddColumns(e, m0)[i] == Finite(e[i].v + m0[i].v)
    ensures h[i].NaN? || e[i].NaN? || m0[i].NaN? ==> AddColumns(AddColumns(h, e), m0)[i].NaN?
    ensures e[i].NaN? || m0[i].NaN? ==> AddColumns(e, m0)[i].NaN?
  {
  }
}
