/** The Greeks calculator (options_chain_fetcher/calculate_greeks.py): Black-Scholes
    values and Greeks for every row of a ticker's option table, with the intrinsic value at
    expiry and an implied volatility recovered from the price when the quoted one is
    missing or too small. The Black-Scholes formulas for time left, and the root search
    that inverts them, are supplied by the caller. */
module Greeks {
  import opened Common
  import OptionScreening

  datatype Kind = CallOption | PutOption

  /** `'call' if row['optionType'] == 'CALL' else 'put'`. */
  function KindOf(optionType: string): (k: Kind)
    ensures k == CallOption <==> optionType == "CALL"
  {
    if optionType == "CALL" then CallOption else PutOption
  }

  /** Which key the value is returned under: 'value' at expiry, 'bs_value' otherwise. */
  datatype ValueKey = ValueKey | BsValueKey

  /** The dictionary `black_scholes_greeks` returns. */
  datatype GreekDict = GreekDict(key: ValueKey, value: real, delta: real, gamma: real,
                                 theta: real, vega: real, rho: real)

  /** The Black-Scholes value and Greeks for time left (spot, strike, years, rate, sigma,
      kind); the closed forms use the normal distribution, logarithms and roots. */
  type BlackScholes = (real, real, real, real, real, Kind) -> GreekDict

  /** `black_scholes_greeks`: at or past expiry the intrinsic value, a delta of 0 or 1 in
      the option's direction and no other sensitivity; else the formulas, under
      'bs_value'. */
  function BlackScholesGreeks(s: real, k: real, t: real, r: real, sigma: real, kind: Kind, bs: BlackScholes): GreekDict
  {
    if t <= 0.0 then
      if kind == CallOption then GreekDict(ValueKey, MaxR(s - k, 0.0), if s > k then 1.0 else 0.0, 0.0, 0.0, 0.0, 0.0)
      else GreekDict(ValueKey, MaxR(k - s, 0.0), if k > s then -1.0 else 0.0, 0.0, 0.0, 0.0, 0.0)
    else
      var g := bs(s, k, t, r, sigma, kind);
      GreekDict(BsValueKey, g.value, g.delta, g.gamma, g.theta, g.vega, g.rho)
  }

  /** At expiry an option is worth what exercising it pays and nothing else: the value
      is never negative and is positive exactly when the option is in the money, the call
      and the put differ by spot minus strike (put-call parity with no time left), the
      deltas are 1 and -1 in the money and 0 otherwise, and the other Greeks vanish. */
  lemma ExpiredGreeks(s: real, k: real, t: real, r: real, sigma: real, bs: BlackScholes)
    requires t <= 0.0
    ensures var c := BlackScholesGreeks(s, k, t, r, sigma, CallOption, bs);
      var p := BlackScholesGreeks(s, k, t, r, sigma, PutOption, bs);
      c.key == ValueKey && p.key == ValueKey &&
      c.value >= 0.0 && p.value >= 0.0 && (c.value > 0.0 <==> s > k) && (p.value > 0.0 <==> k > s) &&
      c.value - p.value == s - k &&
      (c.delta == 1.0 <==> s > k) && (c.delta == 0.0 <==> s <= k) &&
      (p.delta == -1.0 <==> k > s) && (p.delta == 0.0 <==> k <= s) &&
      c.gamma == 0.0 && c.theta == 0.0 && c.vega == 0.0 && c.rho == 0.0 &&
      p.gamma == 0.0 && p.theta == 0.0 && p.vega == 0.0 && p.rho == 0.0
  {
  }

  /** With time left the formulas decide and the value is reported as 'bs_value'. */
  lemma LiveGreeks(s: real, k: real, t: real, r: real, sigma: real, kind: Kind, bs: BlackScholes)
    requires t > 0.0
    ensures BlackScholesGreeks(s, k, t, r, sigma, kind, bs).key == BsValueKey
    ensures BlackScholesGreeks(s, k, t, r, sigma, kind, bs).value == bs(s, k, t, r, sigma, kind).value
    ensures BlackScholesGreeks(s, k, t, r, sigma, kind, bs).delta == bs(s, k, t, r, sigma, kind).delta
  {
  }

  /** `T = max(days / 365.0, 0)`: years left, never negative, zero exactly when no whole
      day is left. */
  function YearsToExpiry(days: int): (t: real)
    ensures t >= 0.0
    ensures t == 0.0 <==> days <= 0
    ensures days > 0 ==> t * 365.0 == days as real
  {
    MaxR(days as real / 365.0, 0.0)
  }

  // ---------------------------------------------------------------------------
  // One row of the option table

  /** One row of `all_options.csv`. The expiration is None when it cannot be parsed; a
      missing or NaN volatility or price is None. */
  datatype OptionRow = OptionRow(expiration: Option<int>, strike: real, impliedVolatility: Option<real>,
                                 lastPrice: Option<real>, optionType: string)

  /** The root search of `implied_volatility_from_price` (market price, spot, strike,
      years, rate, kind): None when the search raised. */
  type IvInversion = (real, real, real, real, real, Kind) -> Option<real>

  /** The volatility used for a row, and whether it was recovered from the price. */
  datatype SigmaChoice = SigmaChoice(sigma: Option<real>, inverted: bool)

  /** The quoted volatility is suspect when it is missing or below 5 percent. */
  predicate Suspect(sigma: Option<real>)
  {
    sigma.None? || sigma.value < 0.05
  }

  /** A suspect volatility is recovered from a positive price when time is left; the
      recovered value replaces it only when the search gives a truthy (non-zero) result. */
  function ChooseSigma(row: OptionRow, spot: real, t: real, r: real, invert: IvInversion): (c: SigmaChoice)
    ensures c.inverted <==>
      Suspect(row.impliedVolatility) && row.lastPrice.Some? && row.lastPrice.value > 0.0 && t > 0.0 &&
      invert(row.lastPrice.value, spot, row.strike, t, r, KindOf(row.optionType)).Some? &&
      invert(row.lastPrice.value, spot, row.strike, t, r, KindOf(row.optionType)).value != 0.0
    ensures c.inverted ==> c.sigma == invert(row.lastPrice.value, spot, row.strike, t, r, KindOf(row.optionType))
    ensures !c.inverted ==> c.sigma == row.impliedVolatility
  {
    if Suspect(row.impliedVolatility) && row.lastPrice.Some? && row.lastPrice.value > 0.0 && t > 0.0 then
      var iv := invert(row.lastPrice.value, spot, row.strike, t, r, KindOf(row.optionType));
      if iv.Some? && iv.value != 0.0 then SigmaChoice(iv, true) else SigmaChoice(row.impliedVolatility, false)
    else SigmaChoice(row.impliedVolatility, false)
  }

  /** A quoted volatility of at least 5 percent is always used as it is. */
  lemma SoundSigmaKept(row: OptionRow, spot: real, t: real, r: real, invert: IvInversion)
    requires row.impliedVolatility.Some? && row.impliedVolatility.value >= 0.05
    ensures ChooseSigma(row, spot, t, r, invert) == SigmaChoice(row.impliedVolatility, false)
  {
  }

  /** One output row, as the DataFrame built from the list of dictionaries holds it: a key
      a dictionary lacks is NaN. */
  datatype GreekRow = GreekRow(bsValue: Float, value: Float, delta: Float, gamma: Float,
                               theta: Float, vega: Float, rho: Float, calculatedIv: Float)

  const NaNRow: GreekRow := GreekRow(NaN, NaN, NaN, NaN, NaN, NaN, NaN, NaN)

  function RowOf(g: GreekDict, calculatedIv: Float): GreekRow
  {
    GreekRow(if g.key == BsValueKey then Finite(g.value) else NaN,
             if g.key == ValueKey then Finite(g.value) else NaN,
             Finite(g.delta), Finite(g.gamma), Finite(g.theta), Finite(g.vega), Finite(g.rho), calculatedIv)
  }

  /** The greeks of one row: NaN throughout when its date cannot be parsed or no positive
      volatility is left; otherwise Black-Scholes with that volatility, and the recovered
      volatility in 'calculated_iv' when it was recovered. */
  function RowGreeks(row: OptionRow, spot: real, now: real, r: real, bs: BlackScholes, invert: IvInversion): GreekRow
  {
    match row.expiration
    case None => NaNRow
    case Some(e) =>
      var t := YearsToExpiry(OptionScreening.DaysUntil(e, now));
      var c := ChooseSigma(row, spot, t, r, invert);
      if c.sigma.None? || c.sigma.value <= 0.0 then NaNRow
      else
        RowOf(BlackScholesGreeks(spot, row.strike, t, r, c.sigma.value, KindOf(row.optionType), bs),
              if c.inverted then Finite(c.sigma.value) else NaN)
  }

  /** A row has a delta exactly when its date parses and a positive volatility is left;
      its value then sits under 'value' when no time is left and under 'bs_value' when
      some is, and 'calculated_iv' is set exactly when the volatility was recovered. */
  lemma RowGreeksCases(row: OptionRow, spot: real, now: real, r: real, bs: BlackScholes, invert: IvInversion)
    ensures var g := RowGreeks(row, spot, now, r, bs, invert);
      !g.delta.NaN? <==>
        row.expiration.Some? &&
        var c := ChooseSigma(row, spot, YearsToExpiry(OptionScreening.DaysUntil(row.expiration.value, now)), r, invert);
        c.sigma.Some? && c.sigma.value > 0.0
    ensures var g := RowGreeks(row, spot, now, r, bs, invert);
      !g.delta.NaN? ==>
        (g.value.Finite? <==> OptionScreening.DaysUntil(row.expiration.value, now) <= 0) &&
        (g.bsValue.Finite? <==> OptionScreening.DaysUntil(row.expiration.value, now) > 0) &&
        (g.calculatedIv.Finite? <==>
          ChooseSigma(row, spot, YearsToExpiry(OptionScreening.DaysUntil(row.expiration.value, now)), r, invert).inverted)
  {
  }

  /** An expired option without a usable quoted volatility gets no intrinsic value: there is
      no time left to recover one from the price, so its row is NaN. */
  lemma ExpiredWithoutVolatility(row: OptionRow, spot: real, now: real, r: real, bs: BlackScholes, invert: IvInversion)
    requires row.expiration.Some? && OptionScreening.DaysUntil(row.expiration.value, now) <= 0
    requires row.impliedVolatility.None? || row.impliedVolatility.value <= 0.0
    ensures RowGreeks(row, spot, now, r, bs, invert) == NaNRow
  {
  }

  /** `calculate_greeks_for_options`: one output row per input row, in order. */
  method CalculateGreeksForOptions(rows: seq<OptionRow>, spot: real, now: real, r: real,
                                   bs: BlackScholes, invert: IvInversion)
    returns (greeks: seq<GreekRow>)
    ensures |greeks| == |rows|
    ensures forall i :: 0 <= i < |rows| ==> greeks[i] == RowGreeks(rows[i], spot, now, r, bs, invert)
  {
    greeks := [];
    var i := 0;
    while i < |rows|
      invariant 0 <= i <= |rows|
      invariant |greeks| == i
      invariant forall j :: 0 <= j < i ==> greeks[j] == RowGreeks(rows[j], spot, now, r, bs, invert)
    {
      var row := rows[i];
      if row.expiration.None? {
        greeks := greeks + [NaNRow];
      } else {
        var t := YearsToExpiry(OptionScreening.DaysUntil(row.expiration.value, now));
        var sigma := row.impliedVolatility;
        var useImpliedIv := false;
        if Suspect(sigma) {
          if row.lastPrice.Some? && row.lastPrice.value > 0.0 && t > 0.0 {
            var calculatedIv := invert(row.lastPrice.value, spot, row.strike, t, r, KindOf(row.optionType));
            if calculatedIv.Some? && calculatedIv.value != 0.0 {
              sigma := calculatedIv;
              useImpliedIv := true;
            }
          }
        }
        if sigma.None? || sigma.value <= 0.0 {
          greeks := greeks + [NaNRow];
        } else {
          var g := BlackScholesGreeks(spot, row.strike, t, r, sigma.value, KindOf(row.optionType), bs);
          greeks := greeks + [RowOf(g, if useImpliedIv then Finite(sigma.value) else NaN)];
        }
      }
      i := i + 1;
    }
  }
}
