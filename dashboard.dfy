/** The option-chain dashboard's data endpoints (options_chain_fetcher/dashboard.py): the
    chain of one expiration trimmed to the rows near the money, the volatility and Greek
    summaries of a ticker, and the historical and realised volatility series. Files arrive
    as values (None when absent); responses are values instead of JSON. */
module Dashboard {
  import opened Common
  import Sorting

  /** One row of `options_with_greeks.csv`; a NaN cell is None. */
  datatype ChainRow = ChainRow(expiration: string, strike: real, impliedVolatility: Option<real>,
                               lastPrice: Option<real>, optionType: string, volume: Option<real>,
                               delta: Option<real>, gamma: Option<real>, theta: Option<real>, vega: Option<real>)

  predicate Positive(x: Option<real>)
  {
    x.Some? && x.value > 0.0
  }

  /** Quoted with both a positive volatility and a positive last price. */
  predicate Liquid(r: ChainRow)
  {
    Positive(r.impliedVolatility) && Positive(r.lastPrice)
  }

  /** Quoted with a positive last price or a positive volatility. */
  predicate Traded(r: ChainRow)
  {
    Positive(r.lastPrice) || Positive(r.impliedVolatility)
  }

  /** The rows the chain view is drawn from: the liquid ones, or, when fewer than 20 are
      liquid, every traded one. */
  function PriorityRows(rows: seq<ChainRow>): seq<ChainRow>
  {
    var liquid := Filter(rows, Liquid);
    if |liquid| < 20 then Filter(rows, Traded) else liquid
  }

  /** The view holds only traded rows, and only liquid ones when at least 20 are; every
      liquid row is kept, and when fewer than 20 are liquid every traded row is. */
  lemma PriorityRowsFacts(rows: seq<ChainRow>)
    ensures forall r :: r in PriorityRows(rows) ==> r in rows && Traded(r)
    ensures |Filter(rows, Liquid)| >= 20 ==> forall r :: r in PriorityRows(rows) ==> Liquid(r)
    ensures forall r :: r in rows && Liquid(r) ==> r in PriorityRows(rows)
    ensures |Filter(rows, Liquid)| < 20 ==> forall r :: r in rows && Traded(r) ==> r in PriorityRows(rows)
  {
    var liquid := Filter(rows, Liquid);
    var traded := Filter(rows, Traded);
    forall r | r in PriorityRows(rows) ensures r in rows && Traded(r) && (|liquid| >= 20 ==> Liquid(r)) {
      if |liquid| < 20 {
        var i :| 0 <= i < |traded| && traded[i] == r;
      } else {
        var i :| 0 <= i < |liquid| && liquid[i] == r;
      }
    }
    forall r | r in rows && Liquid(r) ensures r in PriorityRows(rows) {
      var i :| 0 <= i < |rows| && rows[i] == r;
      assert Traded(rows[i]);
    }
    forall r | r in rows && Traded(r) && |liquid| < 20 ensures r in PriorityRows(rows) {
      var i :| 0 <= i < |rows| && rows[i] == r;
      assert Traded(rows[i]);
    }
  }

  // ---------------------------------------------------------------------------
  // In and out of the money

  datatype Side = Calls | Puts

  function TypeName(side: Side): string
  {
    if side == Calls then "CALL" else "PUT"
  }

  function Strike(r: ChainRow): real
  {
    r.strike
  }

  /** In the money: a call struck at or below the price, a put at or above it. */
  predicate InTheMoney(side: Side, price: real, r: ChainRow)
  {
    if side == Calls then r.strike <= price else r.strike >= price
  }

  /** The rows of one side, in the money (`itm`) or out of it. */
  function Group(rows: seq<ChainRow>, side: Side, price: real, itm: bool): seq<ChainRow>
  {
    Filter(rows, (r: ChainRow) => r.optionType == TypeName(side) && InTheMoney(side, price, r) == itm)
  }

  /** The direction that puts the strikes nearest to the price first: for calls, in the
      money descending and out of it ascending; for puts the other way round. */
  function NearestFirst(side: Side, itm: bool): bool
  {
    itm == (side == Calls)
  }

  /** The first n of a group in strike order from the money outwards (`.head(n)` after
      the site's sort). */
  function Nearest(rows: seq<ChainRow>, side: Side, price: real, itm: bool, n: nat): seq<ChainRow>
  {
    Take(Sorting.SortByKey(Group(rows, side, price, itm), Strike, NearestFirst(side, itm)), n)
  }

  /** The rows shown for one side: five in the money and fifteen out of it, nearest to the
      price, then in ascending strike order for calls and descending for puts. */
  function SideSelection(rows: seq<ChainRow>, side: Side, price: real): seq<ChainRow>
  {
    Sorting.SortByKey(Nearest(rows, side, price, true, 5) + Nearest(rows, side, price, false, 15), Strike, side == Puts)
  }

  /** No row of a group that is left out is nearer to the price than one kept. */
  ghost predicate NearestKept(top: seq<ChainRow>, group: seq<ChainRow>, price: real)
  {
    forall x :: x in multiset(group) - multiset(top) ==>
      forall i :: 0 <= i < |top| ==> Abs(top[i].strike - price) <= Abs(x.strike - price)
  }

  lemma GroupMember(rows: seq<ChainRow>, side: Side, price: real, itm: bool, r: ChainRow)
    requires r in multiset(Group(rows, side, price, itm))
    ensures r in rows && r.optionType == TypeName(side) && InTheMoney(side, price, r) == itm
  {
    var g := Group(rows, side, price, itm);
    assert r in g;
    var i :| 0 <= i < |g| && g[i] == r;
  }

  /** Within one group, the strike that comes first in the nearest-first order is no
      farther from the price. */
  lemma PrecedesIsNearer(side: Side, price: real, itm: bool, a: ChainRow, x: ChainRow)
    requires InTheMoney(side, price, a) == itm && InTheMoney(side, price, x) == itm
    requires Sorting.Precedes(a.strike, x.strike, NearestFirst(side, itm))
    ensures Abs(a.strike - price) <= Abs(x.strike - price)
  {
  }

  /** `.head(n)` of a group keeps min(n, size) of its rows, each of the side and in or out
      of the money as asked. */
  lemma NearestFacts(rows: seq<ChainRow>, side: Side, price: real, itm: bool, n: nat)
    ensures |Nearest(rows, side, price, itm, n)| == MinI(n, |Group(rows, side, price, itm)|)
    ensures forall r :: r in Nearest(rows, side, price, itm, n) ==>
      r in rows && r.optionType == TypeName(side) && InTheMoney(side, price, r) == itm
  {
    var group := Group(rows, side, price, itm);
    var top := Nearest(rows, side, price, itm, n);
    Sorting.TakeOfSortDominatesRest(group, Strike, NearestFirst(side, itm), n);
    forall r | r in top ensures r in rows && r.optionType == TypeName(side) && InTheMoney(side, price, r) == itm {
      assert r in multiset(top);
      GroupMember(rows, side, price, itm, r);
    }
  }

  /** Rows that come first in the nearest-first order are the nearest ones. */
  lemma DominatingIsNearer(top: seq<ChainRow>, group: seq<ChainRow>, side: Side, price: real, itm: bool)
    requires Sorting.DominatesRest(top, group, Strike, NearestFirst(side, itm))
    requires forall r :: r in multiset(group) ==> InTheMoney(side, price, r) == itm
    ensures NearestKept(top, group, price)
  {
    forall x | x in multiset(group) - multiset(top)
      ensures forall i :: 0 <= i < |top| ==> Abs(top[i].strike - price) <= Abs(x.strike - price)
    {
      forall i | 0 <= i < |top| ensures Abs(top[i].strike - price) <= Abs(x.strike - price) {
        assert top[i] in multiset(top);
        PrecedesIsNearer(side, price, itm, top[i], x);
      }
    }
  }

  /** No row of a group that `.head(n)` leaves out is nearer to the price than one kept. */
  lemma NearestKeptFacts(rows: seq<ChainRow>, side: Side, price: real, itm: bool, n: nat)
    ensures NearestKept(Nearest(rows, side, price, itm, n), Group(rows, side, price, itm), price)
  {
    var group := Group(rows, side, price, itm);
    Sorting.TakeOfSortDominatesRest(group, Strike, NearestFirst(side, itm), n);
    forall r | r in multiset(group) ensures InTheMoney(side, price, r) == itm {
      GroupMember(rows, side, price, itm, r);
    }
    DominatingIsNearer(Nearest(rows, side, price, itm, n), group, side, price, itm);
  }

  /** A side shows at most 20 rows, ordered by strike (ascending for calls, descending for
      puts), made of exactly the nearest rows in and out of the money. */
  lemma SideSelectionFacts(rows: seq<ChainRow>, side: Side, price: real)
    ensures |SideSelection(rows, side, price)| <= 20
    ensures forall i, j :: 0 <= i < j < |SideSelection(rows, side, price)| ==>
      if side == Calls then SideSelection(rows, side, price)[i].strike <= SideSelection(rows, side, price)[j].strike
      else SideSelection(rows, side, price)[i].strike >= SideSelection(rows, side, price)[j].strike
    ensures multiset(SideSelection(rows, side, price)) ==
      multiset(Nearest(rows, side, price, true, 5)) + multiset(Nearest(rows, side, price, false, 15))
  {
    var sel := SideSelection(rows, side, price);
    assert Sorting.SortedByKey(sel, Strike, side == Puts);
    forall i, j | 0 <= i < j < |sel|
      ensures if side == Calls then sel[i].strike <= sel[j].strike else sel[i].strike >= sel[j].strike
    {
      assert Sorting.Precedes(Strike(sel[i]), Strike(sel[j]), side == Puts);
    }
  }

  /** What `/api/options/<ticker>/<expiration>` answers. */
  datatype ChainResponse = NotFound(message: string) | ChainView(price: real, calls: seq<ChainRow>, puts: seq<ChainRow>)

  function OfExpiration(expiration: string): ChainRow -> bool
  {
    (r: ChainRow) => r.expiration == expiration
  }

  /** `get_options_chain`: 404 when the table or the info file is missing or the
      expiration has no rows; else both sides of the priority rows of that expiration. */
  function OptionsChain(table: Option<seq<ChainRow>>, price: Option<real>, expiration: string): (r: ChainResponse)
    ensures r.NotFound? <==>
      table.None? || price.None? || forall i :: 0 <= i < |table.value| ==> table.value[i].expiration != expiration
  {
    if table.None? || price.None? then NotFound("Data not found")
    else
      var rows := Filter(table.value, OfExpiration(expiration));
      if rows == [] then
        (assert forall i :: 0 <= i < |table.value| ==> !OfExpiration(expiration)(table.value[i]);
         NotFound("Expiration date not found"))
      else
        var view := PriorityRows(rows);
        ChainView(price.value, SideSelection(view, Calls, price.value), SideSelection(view, Puts, price.value))
  }

  /** A side shows only rows of that side drawn from the rows it was given. */
  lemma SideSelectionDrawn(rows: seq<ChainRow>, side: Side, price: real)
    ensures forall x :: x in SideSelection(rows, side, price) ==> x in rows && x.optionType == TypeName(side)
  {
    var itm := Nearest(rows, side, price, true, 5);
    var otm := Nearest(rows, side, price, false, 15);
    NearestFacts(rows, side, price, true, 5);
    NearestFacts(rows, side, price, false, 15);
    forall x | x in SideSelection(rows, side, price) ensures x in rows && x.optionType == TypeName(side) {
      assert x in multiset(SideSelection(rows, side, price));
      assert x in multiset(itm + otm);
      assert x in itm + otm;
    }
  }

  /** The rows of one expiration are rows of the table with that expiration. */
  lemma OfExpirationDrawn(table: seq<ChainRow>, expiration: string)
    ensures forall x :: x in Filter(table, OfExpiration(expiration)) ==> x.expiration == expiration && x in table
  {
    var rows := Filter(table, OfExpiration(expiration));
    forall x | x in rows ensures x.expiration == expiration && x in table {
      var i :| 0 <= i < |rows| && rows[i] == x;
      assert OfExpiration(expiration)(rows[i]);
    }
  }

  /** A chain view shows only rows of the requested expiration, calls among the calls and
      puts among the puts. */
  lemma ChainViewOfExpiration(table: seq<ChainRow>, price: real, expiration: string)
    ensures var r := OptionsChain(Some(table), Some(price), expiration);
      r.ChainView? ==>
        (forall x :: x in r.calls ==> x.expiration == expiration && x in table && x.optionType == "CALL") &&
        (forall x :: x in r.puts ==> x.expiration == expiration && x in table && x.optionType == "PUT")
  {
    var rows := Filter(table, OfExpiration(expiration));
    OfExpirationDrawn(table, expiration);
    PriorityRowsFacts(rows);
    SideSelectionDrawn(PriorityRows(rows), Calls, price);
    SideSelectionDrawn(PriorityRows(rows), Puts, price);
  }

  // ---------------------------------------------------------------------------
  // The ticker summary

  /** The values present, in order (pandas skips NaN). */
  function Present(xs: seq<Option<real>>): seq<real>
  {
    if xs == [] then []
    else Present(xs[..|xs| - 1]) + (if xs[|xs| - 1].Some? then [xs[|xs| - 1].value] else [])
  }

  /** `float(series.mean())`: NaN when nothing is present. */
  function MeanOrNaN(xs: seq<real>): (r: Float)
    ensures r.NaN? <==> xs == []
    ensures xs != [] ==> r == Finite(Mean(xs).value)
  {
    if xs == [] then NaN else Finite(Mean(xs).value)
  }

  datatype IvStats = IvStats(mean: real, median: real, min: real, max: real)

  function Ivs(rows: seq<ChainRow>): seq<real>
  {
    if rows == [] then []
    else Ivs(rows[..|rows| - 1]) + (if Positive(rows[|rows| - 1].impliedVolatility) then [rows[|rows| - 1].impliedVolatility.value] else [])
  }

  lemma {:induction false} IvsArePositive(rows: seq<ChainRow>)
    ensures forall i :: 0 <= i < |Ivs(rows)| ==> Ivs(rows)[i] > 0.0
    ensures Ivs(rows) == [] <==> forall i :: 0 <= i < |rows| ==> !Positive(rows[i].impliedVolatility)
  {
    if rows != [] {
      var init := rows[..|rows| - 1];
      IvsArePositive(init);
      assert forall i :: 0 <= i < |init| ==> init[i] == rows[i];
    }
  }

  /** The volatility summary over the positive volatilities: all 0 when there are none,
      else their mean, median, smallest and largest; `median` is pandas' median. */
  function VolatilityStats(rows: seq<ChainRow>, median: seq<real> -> real): IvStats
  {
    var ivs := Ivs(rows);
    if ivs == [] then IvStats(0.0, 0.0, 0.0, 0.0)
    else IvStats(Mean(ivs).value, median(ivs), SeqMin(ivs), SeqMax(ivs))
  }

  /** The summary is all zeros exactly when no row has a positive volatility; otherwise
      its mean lies between its minimum and maximum, and the minimum is positive. */
  lemma VolatilityStatsFacts(rows: seq<ChainRow>, median: seq<real> -> real)
    ensures (forall i :: 0 <= i < |rows| ==> !Positive(rows[i].impliedVolatility)) ==>
      VolatilityStats(rows, median) == IvStats(0.0, 0.0, 0.0, 0.0)
    ensures (exists i :: 0 <= i < |rows| && Positive(rows[i].impliedVolatility)) ==>
      0.0 < VolatilityStats(rows, median).min <= VolatilityStats(rows, median).mean <= VolatilityStats(rows, median).max
  {
    IvsArePositive(rows);
    var ivs := Ivs(rows);
    if ivs != [] {
      MeanWithinRange(ivs);
    }
  }

  datatype GreekStats = GreekStats(deltaCallAvg: Float, deltaPutAvg: Float, gammaAvg: Float,
                                   thetaAvg: Float, vegaAvg: Float)

  /** A row with a non-zero delta. */
  predicate HasDelta(r: ChainRow)
  {
    r.delta.Some? && r.delta.value != 0.0
  }

  function Deltas(rows: seq<ChainRow>): seq<Option<real>>
  {
    seq(|rows|, i requires 0 <= i < |rows| => rows[i].delta)
  }

  function Gammas(rows: seq<ChainRow>): seq<Option<real>>
  {
    seq(|rows|, i requires 0 <= i < |rows| => rows[i].gamma)
  }

  function Thetas(rows: seq<ChainRow>): seq<Option<real>>
  {
    seq(|rows|, i requires 0 <= i < |rows| => rows[i].theta)
  }

  function Vegas(rows: seq<ChainRow>): seq<Option<real>>
  {
    seq(|rows|, i requires 0 <= i < |rows| => rows[i].vega)
  }

  predicate IsCall(r: ChainRow)
  {
    r.optionType == "CALL"
  }

  predicate IsPut(r: ChainRow)
  {
    r.optionType == "PUT"
  }

  /** The Greek summary over the rows with a non-zero delta: all 0 when there are none;
      else the means, NaN where a group has no values (no call, say). */
  function GreekSummary(rows: seq<ChainRow>): GreekStats
  {
    var valid := Filter(rows, HasDelta);
    if valid == [] then GreekStats(Finite(0.0), Finite(0.0), Finite(0.0), Finite(0.0), Finite(0.0))
    else GreekStats(MeanOrNaN(Present(Deltas(Filter(valid, IsCall)))),
                    MeanOrNaN(Present(Deltas(Filter(valid, IsPut)))),
                    MeanOrNaN(Present(Gammas(valid))), MeanOrNaN(Present(Thetas(valid))),
                    MeanOrNaN(Present(Vegas(valid))))
  }

  lemma {:induction false} PresentDeltas(rows: seq<ChainRow>)
    requires forall i :: 0 <= i < |rows| ==> rows[i].delta.Some?
    ensures |Present(Deltas(rows))| == |rows|
  {
    if rows != [] {
      var init := rows[..|rows| - 1];
      PresentDeltas(init);
      assert Deltas(rows)[..|rows| - 1] == Deltas(init);
    }
  }

  /** With rows of non-zero delta but none of them a call, the call average is NaN rather
      than 0: the guard looks at all valid rows, not at the calls. */
  lemma CallDeltaNaNWithoutCalls(rows: seq<ChainRow>)
    requires exists i :: 0 <= i < |rows| && HasDelta(rows[i])
    requires forall i :: 0 <= i < |rows| ==> rows[i].optionType != "CALL"
    ensures GreekSummary(rows).deltaCallAvg.NaN?
  {
    var valid := Filter(rows, HasDelta);
    var i :| 0 <= i < |rows| && HasDelta(rows[i]);
    assert rows[i] in valid;
    forall k | 0 <= k < |valid| ensures !IsCall(valid[k]) {
      var m :| 0 <= m < |rows| && rows[m] == valid[k];
    }
    FilterEmpty(valid, IsCall);
  }

  /** When some row has a non-zero delta and some of those rows is a call, the call average
      is a number. */
  lemma CallDeltaWithCalls(rows: seq<ChainRow>, i: nat)
    requires i < |rows| && HasDelta(rows[i]) && rows[i].optionType == "CALL"
    ensures GreekSummary(rows).deltaCallAvg.Finite?
  {
    var valid := Filter(rows, HasDelta);
    assert rows[i] in valid;
    var calls := Filter(valid, IsCall);
    var j :| 0 <= j < |valid| && valid[j] == rows[i];
    assert valid[j] in calls;
    forall k | 0 <= k < |calls| ensures calls[k].delta.Some? {
      assert calls[k] in valid;
      var m :| 0 <= m < |rows| && rows[m] == calls[k];
      assert HasDelta(rows[m]);
    }
    PresentDeltas(calls);
  }

  /** Two filters by predicates no element satisfies together keep at most every element,
      and exactly every element when each satisfies one of them. */
  lemma {:induction false} DisjointFilters<T>(s: seq<T>, p: T -> bool, q: T -> bool)
    requires forall i :: 0 <= i < |s| ==> !(p(s[i]) && q(s[i]))
    ensures |Filter(s, p)| + |Filter(s, q)| <= |s|
    ensures (forall i :: 0 <= i < |s| ==> p(s[i]) || q(s[i])) ==> |Filter(s, p)| + |Filter(s, q)| == |s|
  {
    if s != [] {
      var init := s[..|s| - 1];
      var x := s[|s| - 1];
      assert s == init + [x];
      assert forall i :: 0 <= i < |init| ==> init[i] == s[i];
      DisjointFilters(init, p, q);
      FilterAppend(init, x, p);
      FilterAppend(init, x, q);
    }
  }

  /** The call and put counts never exceed the rows, and add up to them when every row is
      a call or a put. */
  lemma TypeCounts(rows: seq<ChainRow>)
    ensures |Filter(rows, IsCall)| + |Filter(rows, IsPut)| <= |rows|
    ensures (forall i :: 0 <= i < |rows| ==> rows[i].optionType in {"CALL", "PUT"}) ==>
      |Filter(rows, IsCall)| + |Filter(rows, IsPut)| == |rows|
  {
    assert "CALL"[0] != "PUT"[0];
    DisjointFilters(rows, IsCall, IsPut);
  }

  /** What `/api/ticker/<ticker>` answers. */
  datatype TickerResponse = TickerNotFound | TickerView(ivStats: IvStats, greekStats: GreekStats,
                                                        totalCalls: nat, totalPuts: nat)

  function TickerData(table: Option<seq<ChainRow>>, infoPresent: bool, median: seq<real> -> real): (r: TickerResponse)
    ensures r.TickerNotFound? <==> table.None? || !infoPresent
  {
    if table.None? || !infoPresent then TickerNotFound
    else
      var rows := table.value;
      TickerView(VolatilityStats(rows, median), GreekSummary(rows), |Filter(rows, IsCall)|, |Filter(rows, IsPut)|)
  }

  // ---------------------------------------------------------------------------
  // The volatility series

  const Periods: seq<string> := ["10d", "20d", "30d", "60d"]

  /** The series of `get_volatility_data`. */
  datatype Series = Series(periods: seq<string>, hv: seq<real>, rv: seq<real>)

  /** Each period whose historical volatility is known, in order, with it and the realised
      volatility (0 when unknown) in percent. */
  function VolatilitySeries(hv: map<string, real>, rv: map<string, real>, periods: seq<string>): Series
  {
    if periods == [] then Series([], [], [])
    else
      var s := VolatilitySeries(hv, rv, periods[..|periods| - 1]);
      var p := periods[|periods| - 1];
      if "HV_" + p in hv then
        Series(s.periods + [p], s.hv + [hv["HV_" + p] * 100.0],
               s.rv + [(if "RV_" + p in rv then rv["RV_" + p] else 0.0) * 100.0])
      else s
  }

  /** The periods whose historical volatility is known. */
  function HasHv(hv: map<string, real>): string -> bool
  {
    (p: string) => "HV_" + p in hv
  }

  /** A period is listed exactly when its historical volatility is known (in period
      order, by VolatilityPeriodsInOrder); the three series have equal length, and entry i
      holds that period's two values in percent. */
  lemma {:induction false} VolatilitySeriesFacts(hv: map<string, real>, rv: map<string, real>, periods: seq<string>)
    ensures var s := VolatilitySeries(hv, rv, periods);
      |s.hv| == |s.periods| && |s.rv| == |s.periods| && |s.periods| <= |periods|
    ensures forall p :: p in VolatilitySeries(hv, rv, periods).periods <==> p in periods && "HV_" + p in hv
    ensures var s := VolatilitySeries(hv, rv, periods);
      forall i :: 0 <= i < |s.periods| && i < |s.hv| && i < |s.rv| ==>
        "HV_" + s.periods[i] in hv && s.hv[i] == hv["HV_" + s.periods[i]] * 100.0 &&
        s.rv[i] == (if "RV_" + s.periods[i] in rv then rv["RV_" + s.periods[i]] else 0.0) * 100.0
  {
    if periods != [] {
      var init := periods[..|periods| - 1];
      VolatilitySeriesFacts(hv, rv, init);
      assert periods == init + [periods[|periods| - 1]];
    }
  }

  /** The listed periods are the filter of the periods by a known historical volatility. */
  lemma {:induction false} VolatilityPeriodsInOrder(hv: map<string, real>, rv: map<string, real>, periods: seq<string>)
    ensures VolatilitySeries(hv, rv, periods).periods == Filter(periods, HasHv(hv))
  {
    if periods != [] {
      var init := periods[..|periods| - 1];
      var last := periods[|periods| - 1];
      calc {
        VolatilitySeries(hv, rv, periods).periods;
        if "HV_" + last in hv then VolatilitySeries(hv, rv, init).periods + [last] else VolatilitySeries(hv, rv, init).periods;
        { VolatilityPeriodsInOrder(hv, rv, init); }
        if HasHv(hv)(last) then Filter(init, HasHv(hv)) + [last] else Filter(init, HasHv(hv));
        { FilterAppend(init, last, HasHv(hv)); }
        Filter(init + [last], HasHv(hv));
        { assert periods == init + [last]; }
        Filter(periods, HasHv(hv));
      }
    }
  }

  /** `get_volatility_data`: 404 without the info file; else the loop over the periods. */
  method GetVolatilityData(info: Option<(map<string, real>, map<string, real>)>) returns (r: Option<Series>)
    ensures info.None? ==> r.None?
    ensures info.Some? ==> r == Some(VolatilitySeries(info.value.0, info.value.1, Periods))
  {
    if info.None? {
      return None;
    }
    var hv, rv := info.value.0, info.value.1;
    var periods, hvValues, rvValues := [], [], [];
    var k := 0;
    while k < |Periods|
      invariant 0 <= k <= |Periods|
      invariant Series(periods, hvValues, rvValues) == VolatilitySeries(hv, rv, Periods[..k])
    {
      var p := Periods[k];
      assert Periods[..k + 1][..k] == Periods[..k];
      if "HV_" + p in hv {
        periods := periods + [p];
        hvValues := hvValues + [hv["HV_" + p] * 100.0];
        rvValues := rvValues + [(if "RV_" + p in rv then rv["RV_" + p] else 0.0) * 100.0];
      }
      k := k + 1;
    }
    assert Periods[..k] == Periods;
    return Some(Series(periods, hvValues, rvValues));
  }
}
