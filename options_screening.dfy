/** Rules shared by the option-selling screens (options/options_analysis.py,
    options/analyze_local_data.py, options/download_options_data.py): the seller's
    annualised return, the choice of expirations nearest to fixed horizons, the strike
    band around the spot price and the pick of the best put and call. Dates are day
    numbers; "now" is a real day number, so that `timedelta.days` is a floor. */
module OptionScreening {
  import opened Common
  import Sorting

  datatype OptionKind = Put | Call

  /** One row of an option chain. A missing volume or open interest is None (NaN). */
  datatype Quote = Quote(strike: real, lastPrice: real, impliedVolatility: real,
                         volume: Option<real>, openInterest: Option<real>)

  /** One screened option, as appended to `all_results`. */
  datatype Screened = Screened(ticker: string, kind: OptionKind, expiration: int, days: int,
                               strike: real, currentPrice: real, optionPrice: real,
                               impliedVolatility: real, exerciseProbability: real,
                               annualizedReturn: real, volume: real, openInterest: real)

  /** The Black-Scholes exercise probability (spot, strike, years, rate, sigma, kind). */
  type ExerciseModel = (real, real, real, real, real, OptionKind) -> real

  const RiskFreeRate: real := 0.04

  /** What the seller risks: strike minus premium for a put, twice the spot for a call. */
  function MaxRisk(premium: real, strike: real, spot: real, kind: OptionKind): real
  {
    if kind == Put then strike - premium else spot * 2.0
  }

  /** `calculate_annualized_return`: premium / risk, scaled to a year of 365 days and to
      percent; 0 when the risk is not positive. `days` is an integer, and zero days make
      the division raise. */
  function AnnualizedReturn(premium: real, strike: real, spot: real, days: int, kind: OptionKind): (r: real)
    requires days != 0
    ensures MaxRisk(premium, strike, spot, kind) <= 0.0 ==> r == 0.0
    ensures MaxRisk(premium, strike, spot, kind) > 0.0 ==>
      r * MaxRisk(premium, strike, spot, kind) * (days as real) == premium * 365.0 * 100.0
  {
    var risk := MaxRisk(premium, strike, spot, kind);
    if risk > 0.0 then (premium / risk) * (365.0 / days as real) * 100.0 else 0.0
  }

  /** With time left and something at risk, the return has the sign of the premium, and a
      higher premium on the same call earns more. */
  lemma AnnualizedReturnSign(premium: real, strike: real, spot: real, days: int, kind: OptionKind)
    requires days > 0 && MaxRisk(premium, strike, spot, kind) > 0.0
    ensures AnnualizedReturn(premium, strike, spot, days, kind) > 0.0 <==> premium > 0.0
  {
    var r := AnnualizedReturn(premium, strike, spot, days, kind);
    var w := MaxRisk(premium, strike, spot, kind) * (days as real);
    assert w > 0.0;
    assert r * w == premium * 365.0 * 100.0;
    if r > 0.0 { assert r * w > 0.0; }
  }

  lemma CallReturnGrowsWithPremium(p1: real, p2: real, strike: real, spot: real, days: int)
    requires days > 0 && spot > 0.0 && p1 <= p2
    ensures AnnualizedReturn(p1, strike, spot, days, Call) <= AnnualizedReturn(p2, strike, spot, days, Call)
  {
    var w := spot * 2.0 * (days as real);
    var r1 := AnnualizedReturn(p1, strike, spot, days, Call);
    var r2 := AnnualizedReturn(p2, strike, spot, days, Call);
    assert r1 * w == p1 * 36500.0 && r2 * w == p2 * 36500.0;
    assert (r2 - r1) * w >= 0.0;
  }

  /** `(exp - moment).days`: whole days from a moment to a midnight, rounded down. */
  function DaysUntil(expiration: int, moment: real): int
  {
    (expiration as real - moment).Floor
  }

  /** `abs((exp_date - target_date).days)` */
  function Distance(expiration: int, target: real): (d: nat)
    ensures d == DaysUntil(expiration, target) || d == -DaysUntil(expiration, target)
  {
    var days := DaysUntil(expiration, target);
    if days < 0 then -days else days
  }

  /** k is the first index of a nearest expiration. */
  predicate IsFirstNearest(es: seq<int>, target: real, k: int)
  {
    0 <= k < |es| &&
    (forall j :: 0 <= j < |es| ==> Distance(es[j], target) >= Distance(es[k], target)) &&
    (forall j :: 0 <= j < k ==> Distance(es[j], target) > Distance(es[k], target))
  }

  /** At most one index is the first nearest: the choice is determined. */
  lemma FirstNearestUnique(es: seq<int>, target: real, k1: int, k2: int)
    requires IsFirstNearest(es, target, k1) && IsFirstNearest(es, target, k2)
    ensures k1 == k2
  {
    assert Distance(es[k1], target) == Distance(es[k2], target);
  }

  /** The index `find_closest_expiration` settles on: the first of the nearest. */
  function NearestIndex(es: seq<int>, target: real): (k: nat)
    requires es != []
    ensures k < |es|
  {
    if |es| == 1 then 0
    else
      var k := NearestIndex(es[..|es| - 1], target);
      if Distance(es[|es| - 1], target) < Distance(es[k], target) then |es| - 1 else k
  }

  /** The chosen index is at the least distance, and no earlier index is as near. */
  lemma {:induction false} NearestIndexIsFirstNearest(es: seq<int>, target: real)
    requires es != []
    ensures IsFirstNearest(es, target, NearestIndex(es, target))
  {
    if |es| > 1 {
      var init := es[..|es| - 1];
      NearestIndexIsFirstNearest(init, target);
      assert forall j :: 0 <= j < |init| ==> es[j] == init[j];
    }
  }

  /** The expiration `find_closest_expiration` returns: None for an empty list, otherwise
      the first of those nearest to the target. */
  function ClosestExpiration(es: seq<int>, target: real): (r: Option<int>)
    ensures r.None? <==> es == []
    ensures r.Some? ==> r.value in es
  {
    if es == [] then None else Some(es[NearestIndex(es, target)])
  }

  /** `find_closest_expiration`: start from the first expiration and take a later one only
      when it is strictly nearer. */
  method FindClosestExpiration(es: seq<int>, target: real) returns (r: Option<int>)
    ensures r == ClosestExpiration(es, target)
  {
    if es == [] {
      return None;
    }
    var closest := es[0];
    var closestDiff := Distance(es[0], target);
    ghost var k := 0;
    var i := 0;
    while i < |es|
      invariant 0 <= i <= |es| && 0 <= k < |es| && (k < i || k == 0)
      invariant closest == es[k] && closestDiff == Distance(es[k], target)
      invariant forall j :: 0 <= j < i ==> Distance(es[j], target) >= closestDiff
      invariant forall j :: 0 <= j < k ==> Distance(es[j], target) > closestDiff
    {
      var diff := Distance(es[i], target);
      if diff < closestDiff {
        closest, closestDiff, k := es[i], diff, i;
      }
      i := i + 1;
    }
    NearestIndexIsFirstNearest(es, target);
    FirstNearestUnique(es, target, k, NearestIndex(es, target));
    return Some(closest);
  }

  /** The horizons the screens look for: one week, two weeks, one month, two months. */
  const HorizonDays: seq<real> := [7.0, 14.0, 30.0, 60.0]

  /** The nearest expiration to each horizon, in horizon order. */
  function NearestToHorizons(es: seq<int>, now: real, horizons: seq<real>): (r: seq<Option<int>>)
    ensures |r| == |horizons|
    ensures forall i :: 0 <= i < |r| ==> (r[i].None? <==> es == []) && (r[i].Some? ==> r[i].value in es)
  {
    seq(|horizons|, k requires 0 <= k < |horizons| => ClosestExpiration(es, now + horizons[k]))
  }

  /** Appending each found expiration unless it is already chosen. */
  function Deduplicated(cands: seq<Option<int>>): (r: seq<int>)
    ensures NoDuplicates(r) && |r| <= |cands|
    ensures forall x :: x in r <==> Some(x) in cands
  {
    if cands == [] then []
    else
      var init := cands[..|cands| - 1];
      var rest := Deduplicated(init);
      var c := cands[|cands| - 1];
      assert cands == init + [c];
      if c.Some? && c.value !in rest then rest + [c.value] else rest
  }

  /** When every horizon finds a different expiration, nothing is dropped or reordered. */
  lemma {:induction false} DistinctCandidatesKeepOrder(cands: seq<Option<int>>)
    requires forall i :: 0 <= i < |cands| ==> cands[i].Some?
    requires forall i, j :: 0 <= i < j < |cands| ==> cands[i] != cands[j]
    ensures |Deduplicated(cands)| == |cands|
    ensures forall i :: 0 <= i < |cands| ==> Deduplicated(cands)[i] == cands[i].value
  {
    if cands != [] {
      var init := cands[..|cands| - 1];
      DistinctCandidatesKeepOrder(init);
      assert forall j :: 0 <= j < |init| ==> init[j] == cands[j];
    }
  }

  /** The expiration-selection loop: at most one new expiration per horizon, never twice. */
  method SelectExpirations(es: seq<int>, now: real) returns (selected: seq<int>)
    ensures selected == Deduplicated(NearestToHorizons(es, now, HorizonDays))
    ensures NoDuplicates(selected) && |selected| <= 4
    ensures forall x :: x in selected ==> x in es
    ensures selected == [] <==> es == []
  {
    selected := SelectNearest(es, now, HorizonDays);
    SelectionFacts(es, now, HorizonDays);
  }

  /** The loop itself, over any list of horizons. */
  method SelectNearest(es: seq<int>, now: real, horizons: seq<real>) returns (selected: seq<int>)
    ensures selected == Deduplicated(NearestToHorizons(es, now, horizons))
  {
    selected := [];
    ghost var found: seq<Option<int>> := [];
    var i := 0;
    while i < |horizons|
      invariant 0 <= i <= |horizons|
      invariant found == NearestToHorizons(es, now, horizons[..i])
      invariant selected == Deduplicated(found)
    {
      var closest;
      selected, closest := SelectOne(es, now + horizons[i], found, selected);
      NearestToHorizonsStep(es, now, horizons, i);
      found := found + [closest];
      i := i + 1;
    }
    assert horizons[..i] == horizons;
  }

  /** One pass of the loop: the nearest expiration to one target, added unless chosen. */
  method SelectOne(es: seq<int>, target: real, ghost cands: seq<Option<int>>, selected: seq<int>)
    returns (next: seq<int>, closest: Option<int>)
    requires selected == Deduplicated(cands)
    ensures closest == ClosestExpiration(es, target)
    ensures next == Deduplicated(cands + [closest])
  {
    closest := FindClosestExpiration(es, target);
    DeduplicatedStep(cands, closest);
    next := selected;
    if closest.Some? && closest.value !in selected {
      next := selected + [closest.value];
    }
  }

  /** The candidates for one more horizon extend those for the horizons before it. */
  lemma NearestToHorizonsStep(es: seq<int>, now: real, horizons: seq<real>, i: nat)
    requires i < |horizons|
    ensures NearestToHorizons(es, now, horizons[..i + 1]) ==
      NearestToHorizons(es, now, horizons[..i]) + [ClosestExpiration(es, now + horizons[i])]
  {
    var longer := NearestToHorizons(es, now, horizons[..i + 1]);
    var shorter := NearestToHorizons(es, now, horizons[..i]);
    forall k | 0 <= k < i ensures longer[k] == shorter[k] {
      assert horizons[..i + 1][k] == horizons[..i][k];
    }
  }

  /** One more candidate is appended exactly when it is found and not yet chosen. */
  lemma {:induction false} DeduplicatedStep(cands: seq<Option<int>>, c: Option<int>)
    ensures Deduplicated(cands + [c]) ==
      if c.Some? && c.value !in Deduplicated(cands) then Deduplicated(cands) + [c.value]
      else Deduplicated(cands)
  {
    assert (cands + [c])[..|cands|] == cands;
  }

  /** The selection never repeats an expiration, holds at most one per horizon, only takes
      listed expirations, and is empty only when nothing is listed. */
  lemma SelectionFacts(es: seq<int>, now: real, horizons: seq<real>)
    requires horizons != []
    ensures NoDuplicates(Deduplicated(NearestToHorizons(es, now, horizons)))
    ensures |Deduplicated(NearestToHorizons(es, now, horizons))| <= |horizons|
    ensures forall x :: x in Deduplicated(NearestToHorizons(es, now, horizons)) ==> x in es
    ensures Deduplicated(NearestToHorizons(es, now, horizons)) == [] <==> es == []
  {
    var cands := NearestToHorizons(es, now, horizons);
    var selected := Deduplicated(cands);
    forall x | x in selected ensures x in es {
      var j :| 0 <= j < |cands| && cands[j] == Some(x);
    }
    if es != [] {
      assert cands[0].Some? && cands[0].value in selected;
    } else {
      NothingFoundNothingSelected(cands);
    }
  }

  /** When no horizon finds an expiration, nothing is selected. */
  lemma {:induction false} NothingFoundNothingSelected(cands: seq<Option<int>>)
    requires forall k :: 0 <= k < |cands| ==> cands[k].None?
    ensures Deduplicated(cands) == []
  {
    if cands != [] {
      NothingFoundNothingSelected(cands[..|cands| - 1]);
    }
  }

  // ---------------------------------------------------------------------------
  // The strike band

  function StrikeDistance(spot: real): (f: Quote -> real)
    ensures forall q :: f(q) == Abs(q.strike - spot)
  {
    (q: Quote) => Abs(q.strike - spot)
  }

  predicate InBounds(q: Quote, lo: real, hi: real)
  {
    lo <= q.strike <= hi
  }

  function InBoundsOf(lo: real, hi: real): Quote -> bool
  {
    (q: Quote) => InBounds(q, lo, hi)
  }

  /** The rows a screen analyses: those with lo <= strike <= hi, or, when there are none,
      the five rows nearest to the spot price in order of distance. */
  function BandRows(quotes: seq<Quote>, lo: real, hi: real, spot: real): (r: seq<Quote>)
    ensures multiset(r) <= multiset(quotes)
  {
    var inBand := Filter(quotes, InBoundsOf(lo, hi));
    if inBand != [] then inBand
    else
      Sorting.TakeOfSortDominatesRest(quotes, StrikeDistance(spot), false, 5);
      Take(Sorting.SortByKey(quotes, StrikeDistance(spot), false), 5)
  }

  /** With some row inside the bounds, exactly the rows inside are analysed. */
  lemma BandRowsWithinBounds(quotes: seq<Quote>, lo: real, hi: real, spot: real)
    requires exists i :: 0 <= i < |quotes| && InBounds(quotes[i], lo, hi)
    ensures forall q :: q in BandRows(quotes, lo, hi, spot) ==> InBounds(q, lo, hi)
    ensures forall i :: 0 <= i < |quotes| && InBounds(quotes[i], lo, hi) ==> quotes[i] in BandRows(quotes, lo, hi, spot)
  {
    var i :| 0 <= i < |quotes| && InBounds(quotes[i], lo, hi);
    assert InBoundsOf(lo, hi)(quotes[i]);
    assert quotes[i] in Filter(quotes, InBoundsOf(lo, hi));
  }

  lemma NothingInBounds(quotes: seq<Quote>, lo: real, hi: real)
    requires forall i :: 0 <= i < |quotes| ==> !InBounds(quotes[i], lo, hi)
    ensures Filter(quotes, InBoundsOf(lo, hi)) == []
  {
    var f := Filter(quotes, InBoundsOf(lo, hi));
    assert forall i :: 0 <= i < |f| ==> f[i] in quotes && InBounds(f[i], lo, hi);
  }

  /** No row of quotes left out of r has a strike nearer to the spot than a row of r. */
  ghost predicate NoneLeftOutNearer(r: seq<Quote>, quotes: seq<Quote>, spot: real)
  {
    forall x :: x in multiset(quotes) - multiset(r) ==>
      forall i :: 0 <= i < |r| ==> Abs(r[i].strike - spot) <= Abs(x.strike - spot)
  }

  /** With no row inside the bounds, the five rows nearest to the spot are analysed: no
      row left out is nearer than one kept. */
  lemma BandRowsFallback(quotes: seq<Quote>, lo: real, hi: real, spot: real)
    requires forall i :: 0 <= i < |quotes| ==> !InBounds(quotes[i], lo, hi)
    ensures |BandRows(quotes, lo, hi, spot)| == MinI(5, |quotes|)
    ensures NoneLeftOutNearer(BandRows(quotes, lo, hi, spot), quotes, spot)
  {
    NothingInBounds(quotes, lo, hi);
    var key := StrikeDistance(spot);
    var r := Take(Sorting.SortByKey(quotes, key, false), 5);
    assert BandRows(quotes, lo, hi, spot) == r;
    Sorting.TakeOfSortDominatesRest(quotes, key, false, 5);
    forall x | x in multiset(quotes) - multiset(r)
      ensures forall i :: 0 <= i < |r| ==> Abs(r[i].strike - spot) <= Abs(x.strike - spot)
    {
      forall i | 0 <= i < |r| ensures Abs(r[i].strike - spot) <= Abs(x.strike - spot) {
        assert Sorting.Precedes(key(r[i]), key(x), false);
      }
    }
  }

  /** The band around the spot price that both screens use: within 10 percent. */
  function SpotBounds(spot: real): (real, real)
  {
    (spot * 0.9, spot * 1.1)
  }

  // ---------------------------------------------------------------------------
  // Screening rows and picking the best

  /** One result row; a missing volume or open interest is recorded as 0. */
  function ScreenQuote(ticker: string, kind: OptionKind, expiration: int, days: int, spot: real,
                       q: Quote, prob: ExerciseModel): Screened
    requires days != 0
  {
    Screened(ticker, kind, expiration, days, q.strike, spot, q.lastPrice, q.impliedVolatility,
             prob(spot, q.strike, days as real / 365.0, RiskFreeRate, q.impliedVolatility, kind) * 100.0,
             AnnualizedReturn(q.lastPrice, q.strike, spot, days, kind),
             if q.volume.Some? then q.volume.value else 0.0,
             if q.openInterest.Some? then q.openInterest.value else 0.0)
  }

  /** The rows of one chain side, screened in order. */
  function ScreenQuotes(ticker: string, kind: OptionKind, expiration: int, days: int, spot: real,
                        quotes: seq<Quote>, prob: ExerciseModel): (r: seq<Screened>)
    requires days != 0
    ensures |r| == |quotes|
  {
    if quotes == [] then []
    else ScreenQuotes(ticker, kind, expiration, days, spot, quotes[..|quotes| - 1], prob) +
         [ScreenQuote(ticker, kind, expiration, days, spot, quotes[|quotes| - 1], prob)]
  }

  /** Every row of r carries the ticker, kind, expiration, days left and spot. */
  predicate AllTagged(r: seq<Screened>, ticker: string, kind: OptionKind, expiration: int, days: int, spot: real)
  {
    forall i :: 0 <= i < |r| ==>
      r[i].ticker == ticker && r[i].kind == kind && r[i].expiration == expiration &&
      r[i].days == days && r[i].currentPrice == spot
  }

  /** Every screened row is tagged with the ticker, kind, expiration, days left and spot. */
  lemma {:induction false} ScreenQuotesTagged(ticker: string, kind: OptionKind, expiration: int, days: int,
                                              spot: real, quotes: seq<Quote>, prob: ExerciseModel)
    requires days != 0
    ensures AllTagged(ScreenQuotes(ticker, kind, expiration, days, spot, quotes, prob), ticker, kind, expiration, days, spot)
  {
    if quotes != [] {
      var init := quotes[..|quotes| - 1];
      ScreenQuotesTagged(ticker, kind, expiration, days, spot, init, prob);
      var a := ScreenQuotes(ticker, kind, expiration, days, spot, init, prob);
      var last := ScreenQuote(ticker, kind, expiration, days, spot, quotes[|quotes| - 1], prob);
      var r := ScreenQuotes(ticker, kind, expiration, days, spot, quotes, prob);
      assert r == a + [last];
      forall i | 0 <= i < |r|
        ensures r[i].ticker == ticker && r[i].kind == kind && r[i].expiration == expiration &&
                r[i].days == days && r[i].currentPrice == spot
      {
        if i < |a| {
          assert r[i] == a[i];
        } else {
          assert r[i] == last;
        }
      }
    }
  }

  /** A row records its quote: strike and premium, the seller's annualised return on it,
      its exercise probability in percent, and its volume and open interest (0 when missing). */
  predicate RecordsQuote(row: Screened, q: Quote, spot: real, days: int, kind: OptionKind, prob: ExerciseModel)
    requires days != 0
  {
    row.strike == q.strike && row.optionPrice == q.lastPrice &&
    row.impliedVolatility == q.impliedVolatility &&
    row.annualizedReturn == AnnualizedReturn(q.lastPrice, q.strike, spot, days, kind) &&
    row.exerciseProbability == prob(spot, q.strike, days as real / 365.0, RiskFreeRate, q.impliedVolatility, kind) * 100.0 &&
    row.volume == (if q.volume.Some? then q.volume.value else 0.0) &&
    row.openInterest == (if q.openInterest.Some? then q.openInterest.value else 0.0)
  }

  /** Row i of the screened rows records quote i. */
  lemma {:induction false} ScreenQuotesRecordRows(ticker: string, kind: OptionKind, expiration: int, days: int,
                                                  spot: real, quotes: seq<Quote>, prob: ExerciseModel)
    requires days != 0
    ensures forall i :: 0 <= i < |quotes| ==>
      RecordsQuote(ScreenQuotes(ticker, kind, expiration, days, spot, quotes, prob)[i], quotes[i], spot, days, kind, prob)
  {
    if quotes != [] {
      var init := quotes[..|quotes| - 1];
      ScreenQuotesRecordRows(ticker, kind, expiration, days, spot, init, prob);
      var a := ScreenQuotes(ticker, kind, expiration, days, spot, init, prob);
      var r := ScreenQuotes(ticker, kind, expiration, days, spot, quotes, prob);
      assert r == a + [ScreenQuote(ticker, kind, expiration, days, spot, quotes[|quotes| - 1], prob)];
      forall i | 0 <= i < |quotes| ensures RecordsQuote(r[i], quotes[i], spot, days, kind, prob) {
        if i < |a| {
          assert r[i] == a[i] && quotes[i] == init[i];
        }
      }
    }
  }

  /** The `iterrows` loop: one result appended per analysed row. */
  method AppendScreened(acc: seq<Screened>, ticker: string, kind: OptionKind, expiration: int,
                        days: int, spot: real, quotes: seq<Quote>, prob: ExerciseModel)
    returns (out: seq<Screened>)
    requires days != 0
    ensures out == acc + ScreenQuotes(ticker, kind, expiration, days, spot, quotes, prob)
  {
    out := acc;
    var i := 0;
    while i < |quotes|
      invariant 0 <= i <= |quotes|
      invariant out == acc + ScreenQuotes(ticker, kind, expiration, days, spot, quotes[..i], prob)
    {
      ghost var prefix := quotes[..i + 1];
      assert prefix[..i] == quotes[..i] && prefix[i] == quotes[i];
      out := out + [ScreenQuote(ticker, kind, expiration, days, spot, quotes[i], prob)];
      i := i + 1;
    }
    assert quotes[..i] == quotes;
  }

  /** Exercise probability (in percent) below 30. */
  predicate LowExercise(s: Screened)
  {
    s.exerciseProbability < 30.0
  }

  function ReturnOf(s: Screened): real
  {
    s.annualizedReturn
  }

  function OfKind(kind: OptionKind): Screened -> bool
  {
    (s: Screened) => s.kind == kind
  }

  /** A low-exercise option of the kind whose annualised return is v. */
  function TiedAt(kind: OptionKind, v: real): Screened -> bool
  {
    (s: Screened) => s.kind == kind && LowExercise(s) && s.annualizedReturn == v
  }

  /** `next(o for o in sorted(low_prob_options, reverse=True) if o.type == kind)`: the
      first option of the kind in the descending ranking of the low-exercise options. */
  function BestOfKind(results: seq<Screened>, kind: OptionKind): (r: Option<Screened>)
    ensures r.None? <==> forall i :: 0 <= i < |results| ==> !(results[i].kind == kind && LowExercise(results[i]))
    ensures r.Some? ==>
      r.value in results && r.value.kind == kind && LowExercise(r.value) &&
      forall i :: 0 <= i < |results| && results[i].kind == kind && LowExercise(results[i]) ==>
        results[i].annualizedReturn <= r.value.annualizedReturn
  {
    var low := Filter(results, LowExercise);
    var ranked := Sorting.SortByKey(low, ReturnOf, true);
    var ofKind := Filter(ranked, (s: Screened) => s.kind == kind);
    Sorting.FilterKeepsSorted(ranked, (s: Screened) => s.kind == kind, ReturnOf, true);
    BestOfKindFacts(results, kind, low, ranked, ofKind);
    if ofKind == [] then None else Some(ofKind[0])
  }

  lemma BestOfKindFacts(results: seq<Screened>, kind: OptionKind, low: seq<Screened>,
                        ranked: seq<Screened>, ofKind: seq<Screened>)
    requires low == Filter(results, LowExercise)
    requires multiset(ranked) == multiset(low)
    requires ofKind == Filter(ranked, (s: Screened) => s.kind == kind)
    requires Sorting.SortedByKey(ofKind, ReturnOf, true)
    ensures ofKind == [] <==> forall i :: 0 <= i < |results| ==> !(results[i].kind == kind && LowExercise(results[i]))
    ensures ofKind != [] ==>
      ofKind[0] in results && ofKind[0].kind == kind && LowExercise(ofKind[0]) &&
      forall i :: 0 <= i < |results| && results[i].kind == kind && LowExercise(results[i]) ==>
        results[i].annualizedReturn <= ofKind[0].annualizedReturn
  {
    forall i | 0 <= i < |results| && results[i].kind == kind && LowExercise(results[i])
      ensures results[i] in ofKind
    {
      assert results[i] in low;
      assert results[i] in multiset(ranked);
      var j :| 0 <= j < |ranked| && ranked[j] == results[i];
    }
    if ofKind != [] {
      assert ofKind[0] in ranked;
      assert ofKind[0] in multiset(low);
      assert ofKind[0] in low;
      forall i | 0 <= i < |results| && results[i].kind == kind && LowExercise(results[i])
        ensures results[i].annualizedReturn <= ofKind[0].annualizedReturn
      {
        var j :| 0 <= j < |ofKind| && ofKind[j] == results[i];
        if j > 0 {
          assert Sorting.Precedes(ReturnOf(ofKind[0]), ReturnOf(ofKind[j]), true);
        }
      }
    }
  }

  /** Among low-exercise options of the kind with equal returns, the pick is the first in
      the input order: the descending sort keeps ties in order and `next` takes the first. */
  lemma BestOfKindFirstAmongTies(results: seq<Screened>, kind: OptionKind)
    ensures BestOfKind(results, kind).Some? ==>
      var v := BestOfKind(results, kind).value.annualizedReturn;
      Filter(results, TiedAt(kind, v)) != [] &&
      Filter(results, TiedAt(kind, v))[0] == BestOfKind(results, kind).value
  {
    var low := Filter(results, LowExercise);
    var ranked := Sorting.SortByKey(low, ReturnOf, true);
    var ofKind := Filter(ranked, (s: Screened) => s.kind == kind);
    assert BestOfKind(results, kind) == if ofKind == [] then None else Some(ofKind[0]);
    FilterSameMask(ranked, (s: Screened) => s.kind == kind, OfKind(kind));
    if ofKind != [] {
      FirstOfKindIsFirstTied(results, kind, low, ranked, ofKind);
    }
  }

  lemma FirstOfKindIsFirstTied(results: seq<Screened>, kind: OptionKind, low: seq<Screened>,
                               ranked: seq<Screened>, ofKind: seq<Screened>)
    requires low == Filter(results, LowExercise)
    requires ranked == Sorting.SortByKey(low, ReturnOf, true)
    requires ofKind == Filter(ranked, OfKind(kind)) && ofKind != []
    ensures Filter(results, TiedAt(kind, ofKind[0].annualizedReturn)) != []
    ensures Filter(results, TiedAt(kind, ofKind[0].annualizedReturn))[0] == ofKind[0]
  {
    var v := ofKind[0].annualizedReturn;
    var eq := Sorting.KeyIs(ReturnOf, v);
    var k := OfKind(kind);
    FilterHead(ofKind, eq);
    FilterCommute(ranked, k, eq);
    Sorting.SortByKeyStable(low, ReturnOf, true, v);
    TiedAtMasks(kind, v);
    FilterThree(results, LowExercise, eq, k, TiedAt(kind, v));
  }

  lemma TiedAtMasks(kind: OptionKind, v: real)
    ensures forall x :: TiedAt(kind, v)(x) == (LowExercise(x) && Sorting.KeyIs(ReturnOf, v)(x) && OfKind(kind)(x))
  {
    forall x ensures TiedAt(kind, v)(x) == (LowExercise(x) && Sorting.KeyIs(ReturnOf, v)(x) && OfKind(kind)(x)) {
      assert Sorting.KeyIs(ReturnOf, v)(x) == (ReturnOf(x) == v);
    }
  }

  function OfTicker(ticker: string): Screened -> bool
  {
    (s: Screened) => s.ticker == ticker
  }

  /** The picks that exist, put first. */
  function Picks(put: Option<Screened>, call: Option<Screened>): (r: seq<Screened>)
    ensures |r| <= 2
    ensures forall x :: x in r <==> put == Some(x) || call == Some(x)
  {
    match (put, call)
    case (Some(p), Some(c)) => [p, c]
    case (Some(p), None) => [p]
    case (None, Some(c)) => [c]
    case (None, None) => []
  }

  /** The best put, then the best call, among one ticker's results. */
  function BestOptions(results: seq<Screened>, ticker: string): (r: seq<Screened>)
    ensures |r| <= 2
  {
    var mine := Filter(results, OfTicker(ticker));
    Picks(BestOfKind(mine, Put), BestOfKind(mine, Call))
  }

  /** Each pick belongs to the ticker, is one of its results and is a low-exercise option. */
  lemma BestOptionsPicks(results: seq<Screened>, ticker: string)
    ensures forall x :: x in BestOptions(results, ticker) ==> x.ticker == ticker && x in results && LowExercise(x)
  {
    var mine := Filter(results, OfTicker(ticker));
    var put := BestOfKind(mine, Put);
    var call := BestOfKind(mine, Call);
    forall x | x in BestOptions(results, ticker) ensures x.ticker == ticker && x in results && LowExercise(x) {
      assert x in mine;
      var j :| 0 <= j < |mine| && mine[j] == x;
      assert OfTicker(ticker)(mine[j]);
    }
  }

  /** The overall table: the low-exercise results in descending order of annualised
      return, first ten. */
  function BestOverall(results: seq<Screened>): seq<Screened>
  {
    Take(Sorting.SortByKey(Filter(results, LowExercise), ReturnOf, true), 10)
  }

  /** The overall table holds at most ten results, each a low-exercise result. */
  lemma BestOverallPicks(results: seq<Screened>)
    ensures |BestOverall(results)| <= 10
    ensures forall x :: x in BestOverall(results) ==> x in results && LowExercise(x)
  {
    var low := Filter(results, LowExercise);
    var ranked := Sorting.SortByKey(low, ReturnOf, true);
    forall x | x in BestOverall(results) ensures x in results && LowExercise(x) {
      assert x in ranked;
      assert x in multiset(low);
    }
  }

  /** No low-exercise result left out of the overall table returns more than one kept. */
  lemma BestOverallIsBest(results: seq<Screened>)
    ensures forall x :: x in results && LowExercise(x) && x !in BestOverall(results) ==>
      forall i :: 0 <= i < |BestOverall(results)| ==> x.annualizedReturn <= BestOverall(results)[i].annualizedReturn
  {
    var low := Filter(results, LowExercise);
    var top := BestOverall(results);
    Sorting.TakeOfSortDominatesRest(low, ReturnOf, true, 10);
    forall x | x in results && LowExercise(x) && x !in top
      ensures forall i :: 0 <= i < |top| ==> x.annualizedReturn <= top[i].annualizedReturn
    {
      assert x in low;
      assert x in multiset(low) - multiset(top);
      forall i | 0 <= i < |top| ensures x.annualizedReturn <= top[i].annualizedReturn {
        assert Sorting.Precedes(ReturnOf(top[i]), ReturnOf(x), true);
      }
    }
  }

  /** With ten or fewer low-exercise results, the overall table holds all of them. */
  lemma BestOverallKeepsAll(results: seq<Screened>)
    requires |Filter(results, LowExercise)| <= 10
    ensures multiset(BestOverall(results)) == multiset(Filter(results, LowExercise))
  {
    var ranked := Sorting.SortByKey(Filter(results, LowExercise), ReturnOf, true);
    assert BestOverall(results) == ranked[..|ranked|] == ranked;
  }
}
