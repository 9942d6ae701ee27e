/** `optExp` and `optExpNeg` of backend/services/option_math.go: e^x for x >= 0 by
    octave reduction and a 24-term Taylor sum, and its reciprocal. */
module OptionExp {
  import opened Outcomes
  import opened FixedPoint
  import opened OptionLn

  function Pow2(n: nat): (p: int)
    ensures 0 < p
  {
    if n == 0 then 1 else 2 * Pow2(n - 1)
  }

  function Taylor(term: int, r: int, i: int): int
    requires 1 <= i <= 25
    decreases 25 - i
  {
    if 24 < i then 0 else
      var t := Quo(term * r, WAD * i);
      t + Taylor(t, r, i + 1)
  }

  /** e^r on one octave, 0 <= r < ln 2. */
  function Octave(r: int): int
  {
    WAD + Taylor(WAD, r, 1)
  }

  const MAX_OCTAVES := 200

  function ExpOf(x: int): int
    requires 0 <= x
  {
    Octave(x % LN2) * Pow2(x / LN2)
  }

  function Exp(x: int): Result<int, MathError>
  {
    if x < 0 then Err(NotInDomain)
    else if MAX_OCTAVES <= x / LN2 then Err(Overflow)
    else Ok(ExpOf(x))
  }

  function ExpNeg(x: int): Result<int, MathError>
  {
    if x < 0 then Err(NotInDomain) else
      var e :- Exp(x);
      ExpPositive(x);
      Ok(Quo(WAD_SQ, e))
  }

  method OptExp(x: int) returns (r: Result<int, MathError>)
    ensures r == Exp(x)
  {
    if x < 0 {
      return Err(NotInDomain);
    }
    var n := Quo(x, LN2);
    if 200 <= n {
      return Err(Overflow);
    }
    var remainder := x - n * LN2;
    var result := SumTaylor(remainder);
    OctaveRange(remainder);
    if result < 0 {
      assert false;
    }
    r := Ok(result * Pow2(n));
  }

  /** The summation loop. */
  method SumTaylor(remainder: int) returns (result: int)
    ensures result == Octave(remainder)
  {
    result := WAD;
    var term, i := WAD, 1;
    ghost var goal := WAD + Taylor(term, remainder, i);
    while i <= 24
      invariant 1 <= i <= 25
      invariant result + Taylor(term, remainder, i) == goal
    {
      term := Quo(term * remainder, WAD * i);
      result := result + term;
      i := i + 1;
    }
  }

  lemma {:induction false} TaylorMono(t: int, u: int, r: int, s: int, i: int)
    requires 0 <= t <= u && 0 <= r <= s && 1 <= i <= 25
    ensures 0 <= Taylor(t, r, i) <= Taylor(u, s, i)
    decreases 25 - i
  {
    if i <= 24 {
      MulMono(t, u, r);
      MulMono(r, s, u);
      FloorMono(0, t * r, WAD * i);
      FloorMono(t * r, u * s, WAD * i);
      TaylorMono(Quo(t * r, WAD * i), Quo(u * s, WAD * i), r, s, i + 1);
    }
  }

  /** The Taylor sum at the last argument of an octave. */
  lemma TaylorAtOctaveEnd()
    ensures Taylor(WAD, LN2 - 1, 1) == 999999999999999988
  {
    var r := LN2 - 1;
    assert Taylor(0, r, 24) == 0 + 0;
    assert Taylor(0, r, 23) == 0 + 0;
    assert Taylor(0, r, 22) == 0 + 0;
    assert Taylor(0, r, 21) == 0 + 0;
    assert Taylor(0, r, 20) == 0 + 0;
    assert Taylor(0, r, 19) == 0 + 0;
    assert Taylor(5, r, 18) == 0 + 0;
    assert Taylor(135, r, 17) == 5 + 0;
    assert Taylor(3132, r, 16) == 135 + 5;
    assert Taylor(67787, r, 15) == 3132 + 140;
    assert Taylor(1369148, r, 14) == 67787 + 3272;
    assert Taylor(25678435, r, 13) == 1369148 + 71059;
    assert Taylor(444553827, r, 12) == 25678435 + 1440207;
    assert Taylor(7054911620, r, 11) == 444553827 + 27118642;
    assert Taylor(101780860092, r, 10) == 7054911620 + 471672469;
    assert Taylor(1321548679014, r, 9) == 101780860092 + 7526584089;
    assert Taylor(15252733804059, r, 8) == 1321548679014 + 109307444181;
    assert Taylor(154035303933816, r, 7) == 15252733804059 + 1430856123195;
    assert Taylor(1333355814642844, r, 6) == 154035303933816 + 16683589927254;
    assert Taylor(9618129107628476, r, 5) == 1333355814642844 + 170718893861070;
    assert Taylor(55504108664821579, r, 4) == 9618129107628476 + 1504074708503914;
    assert Taylor(240226506959100711, r, 3) == 55504108664821579 + 11122203816132390;
    assert Taylor(693147180559945308, r, 2) == 240226506959100711 + 66626312480953969;
    assert Taylor(1000000000000000000, r, 1) == 693147180559945308 + 306852819440054680;
  }

  /** On an octave the truncated sum stays between one and two, so the next octave
      starts no lower than the last one ends. */
  lemma OctaveRange(r: int)
    requires 0 <= r < LN2
    ensures WAD <= Octave(r) < 2 * WAD
  {
    TaylorAtOctaveEnd();
    TaylorMono(WAD, WAD, r, LN2 - 1, 1);
  }

  lemma OctaveMono(r: int, s: int)
    requires 0 <= r <= s
    ensures Octave(r) <= Octave(s)
  {
    TaylorMono(WAD, WAD, r, s, 1);
  }

  lemma {:induction false} Pow2Mono(n: nat, k: nat)
    requires n <= k
    ensures Pow2(n) <= Pow2(k)
    decreases k - n
  {
    if n < k { Pow2Mono(n, k - 1); }
  }

  lemma ExpPositive(x: int)
    requires 0 <= x
    ensures WAD <= ExpOf(x)
  {
    OctaveRange(x % LN2);
    MulMono(1, Pow2(x / LN2), Octave(x % LN2));
  }

  /** Adding ln 2 doubles the exponential exactly. */
  lemma ExpDoubles(x: int)
    requires 0 <= x
    ensures ExpOf(x + LN2) == 2 * ExpOf(x)
    ensures Exp(x + LN2).Ok? ==> Exp(x).Ok? && Exp(x + LN2).value == 2 * Exp(x).value
  {
    NextStep(x);
    MulTwo(Octave(x % LN2), Pow2(x / LN2));
  }

  lemma NextStep(x: int)
    ensures (x + LN2) / LN2 == x / LN2 + 1 && (x + LN2) % LN2 == x % LN2
  {
  }

  lemma MulTwo(a: int, b: int)
    ensures a * (2 * b) == 2 * (a * b)
  {
  }

  /** One octave ahead beats any mantissa. */
  lemma NextOctave(a: int, p: int, b: int, q: int)
    requires WAD <= a < 2 * WAD && WAD <= b && 0 < p && 2 * p <= q
    ensures a * p <= b * q
  {
    MulMono(a, 2 * WAD, p);
    MulMono(WAD, b, q);
    MulMono(2 * p, q, WAD);
  }

  /** The exponential is monotone on its whole range. */
  lemma ExpMonotone(x: int, y: int)
    requires 0 <= x <= y
    ensures ExpOf(x) <= ExpOf(y)
    ensures Exp(y).Ok? ==> Exp(x).Ok?
  {
    FloorMono(x, y, LN2);
    ScaledMono(x % LN2, x / LN2, y % LN2, y / LN2);
  }

  lemma ScaledMono(r: int, n: nat, s: int, k: nat)
    requires 0 <= r < LN2 && 0 <= s < LN2
    requires n < k || (n == k && r <= s)
    ensures Octave(r) * Pow2(n) <= Octave(s) * Pow2(k)
  {
    OctaveRange(r);
    OctaveRange(s);
    if n == k {
      OctaveMono(r, s);
      MulMono(Octave(r), Octave(s), Pow2(n));
    } else {
      Pow2Mono(n + 1, k);
      NextOctave(Octave(r), Pow2(n), Octave(s), Pow2(k));
    }
  }

  /** The discount factor lies in [0, 1] and never increases with its exponent. */
  lemma ExpNegAntitone(x: int, y: int)
    requires x <= y
    requires ExpNeg(x).Ok? && ExpNeg(y).Ok?
    ensures 0 <= ExpNeg(y).value <= ExpNeg(x).value <= WAD
  {
    ExpMonotone(x, y);
    ExpPositive(x);
    ExpPositive(y);
    FloorAnti(WAD_SQ, ExpOf(x), ExpOf(y));
    FloorAnti(WAD_SQ, WAD, ExpOf(x));
  }

  /** Exactly when the discount factor exists, and its range. */
  lemma ExpNegDefined(x: int)
    ensures ExpNeg(x).Ok? <==> 0 <= x < MAX_OCTAVES * LN2
    ensures ExpNeg(x).Ok? ==> 0 <= ExpNeg(x).value <= WAD
  {
    if ExpNeg(x).Ok? { ExpNegAntitone(x, x); }
  }
}
