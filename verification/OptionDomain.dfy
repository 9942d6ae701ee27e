/** Exactly when the Black-Scholes routine returns a price, and that a dearer underlying
    can fail to get one. */
module OptionDomain {
  import opened Outcomes
  import opened FixedPoint
  import opened OptionLn
  import opened OptionExp
  import opened OptionRoot
  import opened OptionPricing

  /** The furthest point, about 16.65 deviations, at which the density's exponent stays in
      range: the largest d with d*d below 400 LN2 * WAD. */
  const FURTHEST: int := 16_651_092_223_153_955_122

  lemma WithinRange(t: int)
    requires 0 <= t
    ensures Quo(OptMul(t, t), 2) < MAX_OCTAVES * LN2 <==> t <= FURTHEST
  {
    if t <= FURTHEST {
      OptMulMono(t, FURTHEST, t, FURTHEST);
      FloorMono(OptMul(t, t), OptMul(FURTHEST, FURTHEST), 2);
    } else {
      OptMulMono(FURTHEST + 1, t, FURTHEST + 1, t);
      FloorMono(OptMul(FURTHEST + 1, FURTHEST + 1), OptMul(t, t), 2);
    }
  }

  /** The distribution is defined exactly within the furthest point of zero. */
  lemma CdfDefinedIff(x: int)
    ensures NormalCdf(x).Ok? <==> -FURTHEST <= x <= FURTHEST
  {
    CdfDefined(x);
    WithinRange(Abs(x));
  }

  lemma WidthIff(t: int, volatility: int)
    requires 0 < t
    ensures Width(t, volatility).Ok? <==>
            t <= WAD_SQ && 0 < OptMul(volatility, InvSqrtRoot(Quo(WAD_SQ, t)).y)
  {
    FloorSpec(WAD_SQ, t, 0);
    if t <= WAD_SQ { QuoMono(t, WAD_SQ, t); }
  }

  /** Both moments are close enough to zero for the distribution. */
  predicate Central(d: Moments)
  {
    -FURTHEST <= d.d2 && d.d1 <= FURTHEST
  }

  lemma FactorsSplit(spot: int, strike: int, t: int, rate: int, volatility: int)
    requires strike != 0 && t != 0
    ensures var d := D1D2(spot, strike, t, rate, volatility);
            PriceFactors(spot, strike, t, rate, volatility).Ok? <==>
            d.Ok? && NormalCdf(d.value.d1).Ok? && NormalCdf(d.value.d2).Ok? && ExpNeg(OptMul(rate, t)).Ok?
  {
  }

  lemma CentralIff(numerator: int, width: int)
    requires 0 < width
    ensures var d := MomentsOf(numerator, width);
            Central(d) <==> NormalCdf(d.d1).Ok? && NormalCdf(d.d2).Ok?
  {
    CdfDefinedIff(MomentsOf(numerator, width).d1);
    CdfDefinedIff(MomentsOf(numerator, width).d2);
  }

  /** What a price needs beyond intrinsic value: spot over strike does not truncate to
      zero, sigma sqrt(T) is positive, both moments are central, and the rate times
      the time is neither negative nor past the exponential's range. */
  predicate Priceable(spot: int, strike: int, t: int, rate: int, volatility: int)
    requires strike != 0 && t != 0
  {
    && 0 < OptDiv(spot, strike) && Width(t, volatility).Ok? && Width(t, volatility).value != 0
    && Central(MomentsOf(LnOf(OptDiv(spot, strike)) + Drift(t, rate, volatility), Width(t, volatility).value))
    && 0 <= OptMul(rate, t) < MAX_OCTAVES * LN2
  }

  lemma FactorsIff(spot: int, strike: int, t: int, rate: int, volatility: int)
    requires 0 < strike && 0 < t
    ensures PriceFactors(spot, strike, t, rate, volatility).Ok? <==> Priceable(spot, strike, t, rate, volatility)
  {
    FactorsSplit(spot, strike, t, rate, volatility);
    MomentsIff(spot, strike, t, rate, volatility);
    ExpNegDefined(OptMul(rate, t));
    if D1D2(spot, strike, t, rate, volatility).Ok? {
      CentralIff(LnOf(OptDiv(spot, strike)) + Drift(t, rate, volatility), Width(t, volatility).value);
    }
  }

  /** A price is returned exactly when the prices are positive and either only intrinsic
      value is left or the factors exist. */
  lemma PricedIff(spot: int, strike: int, timeToExpiry: int, rate: int, volatility: int, isCall: bool)
    ensures BlackScholes(spot, strike, timeToExpiry, rate, volatility, isCall).Ok? <==>
            && 0 < spot && 0 < strike
            && (var t := YearFraction(timeToExpiry);
                || timeToExpiry == 0 || volatility == 0 || t <= 0
                || Priceable(spot, strike, t, rate, volatility))
  {
    var t := YearFraction(timeToExpiry);
    if 0 < spot && 0 < strike && timeToExpiry != 0 && volatility != 0 && 0 < t {
      FactorsIff(spot, strike, t, rate, volatility);
    }
  }

  // ---- A dearer underlying without a price ----

  lemma WidthOfOne(t: int, volatility: int)
    requires t == WAD && 0 < volatility
    ensures Width(t, volatility) == Ok(volatility)
  {
    RootOfOne();
    assert InvSqrt(Quo(WAD_SQ, t)) == Ok(WAD);
    FloorExact(volatility, WAD);
  }

  /** One year at a rate of five per cent and a volatility of one per cent. */
  lemma CalmYear(t: int, rate: int, volatility: int)
    requires t == WAD && rate == 50_000_000_000_000_000 && volatility == 10_000_000_000_000_000
    ensures YearFraction(YEAR_SECONDS) == t && OptMul(rate, t) == rate
    ensures Drift(t, rate, volatility) == 50_050_000_000_000_000
  {
  }

  lemma CalmMoments(ln: int, volatility: int)
    requires volatility == 10_000_000_000_000_000 && (ln == 0 || ln == LN2)
    ensures Central(MomentsOf(ln + 50_050_000_000_000_000, volatility)) <==> ln == 0
  {
  }

  lemma TwiceTheStrike(spot: int, strike: int)
    requires strike == WAD && (spot == WAD || spot == 2 * WAD)
    ensures OptDiv(spot, strike) == spot && LnOf(spot) == if spot == WAD then 0 else LN2
  {
    LnOfOne(strike);
    LnDoubles(strike);
    FloorExact(spot, WAD);
  }

  /** At the money such an option is priced; at twice the strike it is not, because the
      moments are some seventy deviations out. */
  lemma DearerUnpriced(spot: int, strike: int, rate: int, volatility: int, isCall: bool)
    requires strike == WAD && (spot == WAD || spot == 2 * WAD)
    requires rate == 50_000_000_000_000_000 && volatility == 10_000_000_000_000_000
    ensures BlackScholes(spot, strike, YEAR_SECONDS, rate, volatility, isCall).Ok? <==> spot == WAD
  {
    var t := YearFraction(YEAR_SECONDS);
    CalmYear(WAD, rate, volatility);
    WidthOfOne(t, volatility);
    TwiceTheStrike(spot, strike);
    CalmMoments(LnOf(spot), volatility);
    PricedIff(spot, strike, YEAR_SECONDS, rate, volatility, isCall);
  }
}
