/** The normal distribution and Black-Scholes of backend/services/option_math.go. */
module OptionPricing {
  import opened Outcomes
  import opened FixedPoint
  import opened OptionLn
  import opened OptionExp
  import opened OptionRoot

  const INV_SQRT_2PI: int := 398_942_280_401_432_678
  const AS_P: int := 2_316_419
  const AS_P_SCALE: int := 10_000_000
  const AS_B1: int := 319_381_530
  const AS_REST: seq<int> := [-356_563_782, 1_781_477_937, -1_821_255_978, 1_330_274_429]
  const AS_SCALE: int := 1_000_000_000
  const YEAR_SECONDS: int := 31_536_000

  function Abs(x: int): int
  {
    if x < 0 then -x else x
  }

  function NormalPdf(x: int): Result<int, MathError>
  {
    var e :- ExpNeg(Quo(OptMul(x, x), 2));
    Ok(OptMul(INV_SQRT_2PI, e))
  }

  /** The polynomial of formula 26.2.17 after its first term. */
  function PolyTail(coefficients: seq<int>, power: int, t: int): int
  {
    if coefficients == [] then 0 else
      var p := OptMul(power, t);
      OptMul(coefficients[0], p) + PolyTail(coefficients[1..], p, t)
  }

  function Polynomial(t: int): int
  {
    Quo((OptMul(AS_B1, t) + PolyTail(AS_REST, t, t)) * WAD, AS_SCALE)
  }

  function Tail(t: int): Result<int, MathError>
    requires 0 <= t
  {
    FloorMono(0, AS_P * t, AS_P_SCALE);
    var density :- NormalPdf(t);
    Ok(OptMul(density, Polynomial(Quo(WAD_SQ, WAD + Quo(AS_P * t, AS_P_SCALE)))))
  }

  function Clamp(upper: int): int
  {
    if upper < 0 then 0 else if WAD < upper then WAD else upper
  }

  function NormalCdf(x: int): Result<int, MathError>
  {
    var tail :- Tail(Abs(x));
    Ok(if x < 0 then WAD - Clamp(WAD - tail) else Clamp(WAD - tail))
  }

  method OptNormalCdf(x: int) returns (r: Result<int, MathError>)
    ensures r == NormalCdf(x)
  {
    var t := Abs(x);
    FloorMono(0, AS_P * t, AS_P_SCALE);
    var asT := Quo(WAD_SQ, WAD + Quo(AS_P * t, AS_P_SCALE));
    var poly := SumPolynomial(asT);
    var density := NormalPdf(t);
    if density.Err? {
      return Err(density.error);
    }
    var tail := OptMul(density.value, Quo(poly * WAD, AS_SCALE));
    var upper := WAD - tail;
    if upper < 0 {
      upper := 0;
    }
    if WAD < upper {
      upper := WAD;
    }
    r := Ok(if x < 0 then WAD - upper else upper);
  }

  /** The coefficient loop. */
  method SumPolynomial(asT: int) returns (poly: int)
    ensures poly == OptMul(AS_B1, asT) + PolyTail(AS_REST, asT, asT)
  {
    var power := asT;
    poly := OptMul(AS_B1, power);
    var i := 0;
    while i < |AS_REST|
      invariant 0 <= i <= |AS_REST|
      invariant poly + PolyTail(AS_REST[i..], power, asT) == OptMul(AS_B1, asT) + PolyTail(AS_REST, asT, asT)
    {
      power := OptMul(power, asT);
      poly := poly + OptMul(AS_REST[i], power);
      i := i + 1;
    }
  }

  /** The CDF is a probability, and the two sides of any non-zero point share the
      whole mass exactly. */
  lemma CdfProbability(x: int)
    requires NormalCdf(x).Ok?
    ensures 0 <= NormalCdf(x).value <= WAD
    ensures x != 0 ==> NormalCdf(-x).Ok? && NormalCdf(x).value + NormalCdf(-x).value == WAD
  {
    assert Abs(-x) == Abs(x);
  }

  /** The CDF exists exactly while x*x/2, truncated, is inside the exponential's range. */
  lemma CdfDefined(x: int)
    ensures NormalCdf(x).Ok? <==> Quo(OptMul(Abs(x), Abs(x)), 2) < MAX_OCTAVES * LN2
  {
    var t := Abs(x);
    OptMulMono(0, t, 0, t);
    ExpNegDefined(Quo(OptMul(t, t), 2));
  }

  datatype Moments = Moments(d1: int, d2: int, sigmaSqrtT: int)

  /** (r + sigma^2 / 2) T */
  function Drift(t: int, rate: int, volatility: int): int
  {
    OptMul(rate + Quo(volatility * volatility, 2 * WAD), t)
  }

  /** sigma sqrt(T) */
  function Width(t: int, volatility: int): Result<int, MathError>
    requires t != 0
  {
    var invSqrtT :- InvSqrt(Quo(WAD_SQ, t));
    var sigmaSqrtT := OptMul(volatility, invSqrtT);
    if sigmaSqrtT <= 0 then Err(ZeroDenominator) else Ok(sigmaSqrtT)
  }

  function MomentsOf(numerator: int, sigmaSqrtT: int): Moments
    requires sigmaSqrtT != 0
  {
    var d1 := OptDiv(numerator, sigmaSqrtT);
    Moments(d1, d1 - sigmaSqrtT, sigmaSqrtT)
  }

  function D1D2(spot: int, strike: int, t: int, rate: int, volatility: int): Result<Moments, MathError>
    requires strike != 0 && t != 0
  {
    var lnMoneyness :- Ln(OptDiv(spot, strike));
    var sigmaSqrtT :- Width(t, volatility);
    Ok(MomentsOf(lnMoneyness + Drift(t, rate, volatility), sigmaSqrtT))
  }

  lemma OptDivMono(a: int, b: int, d: int)
    requires a <= b && 0 < d
    ensures OptDiv(a, d) <= OptDiv(b, d)
  {
    MulMono(a, b, WAD);
    QuoMono(a * WAD, b * WAD, d);
  }

  lemma MomentsOfMono(a: int, b: int, width: int)
    requires a <= b && 0 < width
    ensures var low, high := MomentsOf(a, width), MomentsOf(b, width);
            low.d1 <= high.d1 && low.d2 <= high.d2 && low.d1 - low.d2 == high.d1 - high.d2 == width
  {
    OptDivMono(a, b, width);
  }

  lemma MomentsOrder(low: Moments, high: Moments, a: int, b: int, width: int)
    requires a <= b && 0 < width && low == MomentsOf(a, width) && high == MomentsOf(b, width)
    ensures low.d1 <= high.d1 && low.d2 <= high.d2 && low.d1 - low.d2 == high.d1 - high.d2 > 0
  {
    MomentsOfMono(a, b, width);
  }

  lemma MoneynessRises(spot: int, more: int, strike: int)
    requires spot <= more && 0 < strike && 0 < OptDiv(spot, strike)
    ensures 0 < OptDiv(more, strike) && LnOf(OptDiv(spot, strike)) <= LnOf(OptDiv(more, strike))
  {
    OptDivMono(spot, more, strike);
    LnMonotone(OptDiv(spot, strike), OptDiv(more, strike));
  }

  lemma MomentsIff(spot: int, strike: int, t: int, rate: int, volatility: int)
    requires strike != 0 && t != 0
    ensures D1D2(spot, strike, t, rate, volatility).Ok? <==> 0 < OptDiv(spot, strike) && Width(t, volatility).Ok?
    ensures D1D2(spot, strike, t, rate, volatility).Ok? ==>
              && 0 < Width(t, volatility).value
              && D1D2(spot, strike, t, rate, volatility).value ==
                 MomentsOf(LnOf(OptDiv(spot, strike)) + Drift(t, rate, volatility), Width(t, volatility).value)
  {
  }

  /** A dearer underlying has its moments whenever a cheaper one does, both at least as
      high and exactly as far apart. */
  lemma MomentsRise(spot: int, more: int, strike: int, t: int, rate: int, volatility: int)
    requires spot <= more && 0 < strike && t != 0 && D1D2(spot, strike, t, rate, volatility).Ok?
    ensures var low, high := D1D2(spot, strike, t, rate, volatility), D1D2(more, strike, t, rate, volatility);
            && high.Ok? && low.value.d1 <= high.value.d1 && low.value.d2 <= high.value.d2
            && low.value.d1 - low.value.d2 == high.value.d1 - high.value.d2 > 0
  {
    MomentsIff(spot, strike, t, rate, volatility);
    MomentsIff(more, strike, t, rate, volatility);
    MoneynessRises(spot, more, strike);
    var drift, width := Drift(t, rate, volatility), Width(t, volatility).value;
    var a, b := LnOf(OptDiv(spot, strike)) + drift, LnOf(OptDiv(more, strike)) + drift;
    MomentsOrder(D1D2(spot, strike, t, rate, volatility).value, D1D2(more, strike, t, rate, volatility).value,
                 a, b, width);
  }

  function Intrinsic(spot: int, strike: int, isCall: bool): int
  {
    var value := if isCall then spot - strike else strike - spot;
    if value < 0 then 0 else value
  }

  /** The three factors a Black-Scholes price is assembled from. */
  datatype Factors = Factors(nD1: int, nD2: int, discount: int)

  function PriceFactors(spot: int, strike: int, t: int, rate: int, volatility: int): Result<Factors, MathError>
    requires strike != 0 && t != 0
  {
    var d :- D1D2(spot, strike, t, rate, volatility);
    var nD1 :- NormalCdf(d.d1);
    var nD2 :- NormalCdf(d.d2);
    var discount :- ExpNeg(OptMul(rate, t));
    Ok(Factors(nD1, nD2, discount))
  }

  function RawPrice(spot: int, strike: int, f: Factors, isCall: bool): int
  {
    if isCall then OptMul(spot, f.nD1) - OptMul(OptMul(strike, f.discount), f.nD2)
    else OptMul(OptMul(strike, f.discount), WAD - f.nD2) - OptMul(spot, WAD - f.nD1)
  }

  function YearFraction(timeToExpiry: int): int
  {
    Quo(timeToExpiry * WAD, YEAR_SECONDS)
  }

  function BlackScholes(spot: int, strike: int, timeToExpiry: int, rate: int, volatility: int, isCall: bool)
    : Result<int, MathError>
  {
    if spot <= 0 || strike <= 0 then Err(InvalidPrice) else
      var intrinsic := Intrinsic(spot, strike, isCall);
      if timeToExpiry == 0 || volatility == 0 then Ok(intrinsic) else
        var t := YearFraction(timeToExpiry);
        if t <= 0 then Ok(intrinsic) else
          var f :- PriceFactors(spot, strike, t, rate, volatility);
          var price := RawPrice(spot, strike, f, isCall);
          Ok(if price < intrinsic then intrinsic else price)
  }

  lemma FactorRanges(spot: int, strike: int, t: int, rate: int, volatility: int)
    requires 0 < strike && 0 < t
    requires PriceFactors(spot, strike, t, rate, volatility).Ok?
    ensures var f := PriceFactors(spot, strike, t, rate, volatility).value;
            0 <= f.nD1 <= WAD && 0 <= f.nD2 <= WAD && 0 <= f.discount <= WAD
  {
    var d := D1D2(spot, strike, t, rate, volatility).value;
    CdfProbability(d.d1);
    CdfProbability(d.d2);
    ExpNegDefined(OptMul(rate, t));
  }

  /** A fraction of a non-negative amount is at most the amount. */
  lemma FractionOf(a: int, p: int)
    requires 0 <= a && 0 <= p <= WAD
    ensures 0 <= OptMul(a, p) <= a
  {
    OptMulMono(a, a, p, WAD);
    FloorExact(a, WAD);
  }

  lemma RawPriceCeiling(spot: int, strike: int, f: Factors, isCall: bool)
    requires 0 <= spot && 0 <= strike
    requires 0 <= f.nD1 <= WAD && 0 <= f.nD2 <= WAD && 0 <= f.discount <= WAD
    ensures RawPrice(spot, strike, f, isCall) <= if isCall then spot else strike
  {
    var k := OptMul(strike, f.discount);
    FractionOf(strike, f.discount);
    FractionOf(spot, f.nD1);
    FractionOf(spot, WAD - f.nD1);
    FractionOf(k, f.nD2);
    FractionOf(k, WAD - f.nD2);
  }

  /** Whenever a price is returned, for any rate, volatility and time, it lies
      within the no-arbitrage bounds: at least the intrinsic value, and at most
      the spot for a call and the strike for a put. */
  lemma NoArbitrage(spot: int, strike: int, timeToExpiry: int, rate: int, volatility: int, isCall: bool)
    requires BlackScholes(spot, strike, timeToExpiry, rate, volatility, isCall).Ok?
    ensures var p := BlackScholes(spot, strike, timeToExpiry, rate, volatility, isCall).value;
            0 <= Intrinsic(spot, strike, isCall) <= p <= if isCall then spot else strike
  {
    var t := YearFraction(timeToExpiry);
    if timeToExpiry != 0 && volatility != 0 && 0 < t {
      FactorRanges(spot, strike, t, rate, volatility);
      RawPriceCeiling(spot, strike, PriceFactors(spot, strike, t, rate, volatility).value, isCall);
    }
  }

  /** Splitting an amount by a probability loses one unit exactly when the split is
      not exact. */
  lemma SplitLoss(a: int, p: int)
    requires 0 <= a && 0 <= p <= WAD
    ensures OptMul(a, p) + OptMul(a, WAD - p) == a - if (a * p) % WAD == 0 then 0 else 1
  {
    MulMono(0, a, p);
    MulMono(0, a, WAD - p);
    assert a * p + a * (WAD - p) == a * WAD;
    FloorSum(a * p, a * (WAD - p), WAD);
    FloorExact(a, WAD);
    var r, s := (a * p) % WAD, (a * (WAD - p)) % WAD;
    assert a * p == (a * p / WAD) * WAD + r && a * (WAD - p) == (a * (WAD - p) / WAD) * WAD + s;
    var q := a - a * p / WAD - a * (WAD - p) / WAD;
    assert r + s == q * WAD;
  }

  /** Put-call parity, exactly: call minus put is spot minus discounted strike, off
      by one unit for each of the two splits that is not exact, with opposite
      signs. Hence never off by more than one. */
  lemma PutCallParity(spot: int, strike: int, f: Factors)
    requires 0 <= spot && 0 <= strike
    requires 0 <= f.nD1 <= WAD && 0 <= f.nD2 <= WAD && 0 <= f.discount <= WAD
    ensures var k := OptMul(strike, f.discount);
            var gap := RawPrice(spot, strike, f, true) - RawPrice(spot, strike, f, false) - (spot - k);
            && gap == (if (k * f.nD2) % WAD == 0 then 0 else 1) - (if (spot * f.nD1) % WAD == 0 then 0 else 1)
            && -1 <= gap <= 1
  {
    var k := OptMul(strike, f.discount);
    FractionOf(strike, f.discount);
    SplitLoss(spot, f.nD1);
    SplitLoss(k, f.nD2);
  }

  /** The model price fell below the intrinsic value and was replaced by it. */
  predicate Lifted(spot: int, strike: int, t: int, rate: int, volatility: int, isCall: bool)
    requires strike != 0 && t != 0
  {
    var f := PriceFactors(spot, strike, t, rate, volatility);
    f.Ok? && RawPrice(spot, strike, f.value, isCall) < Intrinsic(spot, strike, isCall)
  }

  /** Parity of the returned prices: a call is priced exactly when the put is, and
      when neither was lifted to its intrinsic value they obey parity to one unit. */
  lemma PricedParity(spot: int, strike: int, timeToExpiry: int, rate: int, volatility: int)
    requires 0 < strike && volatility != 0 && 0 < YearFraction(timeToExpiry)
    ensures var t := YearFraction(timeToExpiry);
            var c := BlackScholes(spot, strike, timeToExpiry, rate, volatility, true);
            var p := BlackScholes(spot, strike, timeToExpiry, rate, volatility, false);
            && (c.Ok? <==> p.Ok?)
            && (c.Ok? && !Lifted(spot, strike, t, rate, volatility, true)
                && !Lifted(spot, strike, t, rate, volatility, false) ==>
                  && ExpNeg(OptMul(rate, t)).Ok?
                  && -1 <= c.value - p.value - (spot - OptMul(strike, ExpNeg(OptMul(rate, t)).value)) <= 1)
  {
    assert timeToExpiry != 0;
    var t := YearFraction(timeToExpiry);
    if 0 < spot && PriceFactors(spot, strike, t, rate, volatility).Ok? {
      FactorRanges(spot, strike, t, rate, volatility);
      PutCallParity(spot, strike, PriceFactors(spot, strike, t, rate, volatility).value);
    }
  }
}
