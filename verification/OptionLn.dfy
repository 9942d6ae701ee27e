/** `optLn` of backend/services/option_math.go: the natural logarithm by octave
    reduction and an eleven-term inverse hyperbolic tangent series. */
module OptionLn {
  import opened Outcomes
  import opened FixedPoint

  datatype MathError = NotInDomain | Overflow | ZeroDenominator | InvalidPrice

  /** x = m * 2^n, up to the bits the halvings drop. */
  datatype Reduced = Reduced(m: int, n: int)

  function Raise(m: int, n: int): Reduced
    requires 0 < m < 2 * WAD
    decreases WAD - m
  {
    if m < WAD then Raise(2 * m, n - 1) else Reduced(m, n)
  }

  function Lower(m: int, n: int): Reduced
    requires WAD <= m
    decreases m
  {
    if 2 * WAD <= m then Lower(m / 2, n + 1) else Reduced(m, n)
  }

  function Reduce(x: int): Reduced
    requires 0 < x
  {
    if x < WAD then Raise(x, 0) else Lower(x, 0)
  }

  function SeriesArgument(m: int): int
    requires WAD <= m
  {
    Quo((m - WAD) * WAD, m + WAD)
  }

  function Series(term: int, zSquared: int, i: int): int
    requires 1 <= i <= 23
    decreases 23 - i
  {
    if 21 < i then 0 else Quo(2 * term, i) + Series(OptMul(term, zSquared), zSquared, i + 2)
  }

  /** The logarithm of a mantissa in [1, 2). */
  function Mantissa(m: int): int
    requires WAD <= m
  {
    var z := SeriesArgument(m);
    Series(z, OptMul(z, z), 1)
  }

  lemma {:induction false} RaiseInOctave(m: int, n: int)
    requires 0 < m < 2 * WAD
    ensures WAD <= Raise(m, n).m < 2 * WAD
    ensures m < WAD ==> Raise(m, n).n < n
    ensures Raise(m, n).n <= n
    decreases WAD - m
  {
    if m < WAD { RaiseInOctave(2 * m, n - 1); }
  }

  lemma {:induction false} LowerInOctave(m: int, n: int)
    requires WAD <= m
    ensures WAD <= Lower(m, n).m < 2 * WAD && n <= Lower(m, n).n
    decreases m
  {
    if 2 * WAD <= m { LowerInOctave(m / 2, n + 1); }
  }

  /** Both reduction loops end in one octave, with the exponent's sign telling
      which side of one the argument was on. */
  lemma ReduceInOctave(x: int)
    requires 0 < x
    ensures var r := Reduce(x); WAD <= r.m < 2 * WAD && (r.n < 0 <==> x < WAD)
  {
    if x < WAD { RaiseInOctave(x, 0); } else { LowerInOctave(x, 0); }
  }

  function LnOf(x: int): int
    requires 0 < x
  {
    ReduceInOctave(x);
    var r := Reduce(x);
    Mantissa(r.m) + r.n * LN2
  }

  function Ln(x: int): Result<int, MathError>
  {
    if x <= 0 then Err(NotInDomain) else Ok(LnOf(x))
  }

  method OptLn(x: int) returns (r: Result<int, MathError>)
    ensures r == Ln(x)
  {
    if x <= 0 {
      return Err(NotInDomain);
    }
    var m, n := ReduceToOctave(x);
    ReduceInOctave(x);
    var series := SumSeries(SeriesArgument(m));
    r := Ok(series + n * LN2);
  }

  /** The two normalisation loops. */
  method ReduceToOctave(x: int) returns (m: int, n: int)
    requires 0 < x
    ensures Reduced(m, n) == Reduce(x)
  {
    m, n := x, 0;
    if m < WAD {
      while m < WAD
        invariant 0 < m < 2 * WAD && Raise(m, n) == Raise(x, 0)
        decreases WAD - m
      {
        m := m * 2;
        n := n - 1;
      }
    } else {
      var twoWad := 2 * WAD;
      while twoWad <= m
        invariant WAD <= m && Lower(m, n) == Lower(x, 0)
      {
        m := Quo(m, 2);
        n := n + 1;
      }
    }
  }

  /** The eleven-term summation loop. */
  method SumSeries(z: int) returns (series: int)
    ensures series == Series(z, OptMul(z, z), 1)
  {
    var zSquared := OptMul(z, z);
    var i := 1;
    ghost var goal := Series(z, zSquared, i);
    var term := z;
    series := 0;
    while i <= 21
      invariant i % 2 == 1 && 1 <= i <= 23
      invariant series + Series(term, zSquared, i) == goal
      decreases 23 - i
    {
      series := series + Quo(2 * term, i);
      term := OptMul(term, zSquared);
      i := i + 2;
    }
  }

  lemma {:induction false} RaiseShift(m: int, n: int, k: int)
    requires 0 < m < 2 * WAD
    ensures Raise(m, n + k) == Reduced(Raise(m, n).m, Raise(m, n).n + k)
    decreases WAD - m
  {
    if m < WAD { RaiseShift(2 * m, n - 1, k); }
  }

  lemma {:induction false} LowerShift(m: int, n: int, k: int)
    requires WAD <= m
    ensures Lower(m, n + k) == Reduced(Lower(m, n).m, Lower(m, n).n + k)
    decreases m
  {
    if 2 * WAD <= m { LowerShift(m / 2, n + 1, k); }
  }

  /** One octave more, same mantissa. */
  lemma OctaveUp(x: int, y: int)
    requires 0 < x && 0 < y && Reduce(y) == Reduced(Reduce(x).m, Reduce(x).n + 1)
    ensures LnOf(y) == LnOf(x) + LN2
  {
    var n := Reduce(x).n;
    assert (n + 1) * LN2 == n * LN2 + LN2;
  }

  /** Doubling the argument adds exactly LN2, with no rounding at all. */
  lemma LnDoubles(x: int)
    requires 0 < x
    ensures LnOf(2 * x) == LnOf(x) + LN2
  {
    if x < WAD {
      RaiseShift(2 * x, -1, 1);
    } else {
      LowerShift(x, 0, 1);
    }
    OctaveUp(x, 2 * x);
  }

  /** Halving an argument of at least two subtracts exactly LN2, odd or even. */
  lemma LnHalves(x: int)
    requires 2 * WAD <= x
    ensures LnOf(x) == LnOf(x / 2) + LN2
  {
    LowerShift(x / 2, 0, 1);
    OctaveUp(x / 2, x);
  }

  lemma {:induction false} SeriesMono(t: int, u: int, s: int, v: int, i: int)
    requires 0 <= t <= u && 0 <= s <= v && 1 <= i <= 23
    ensures 0 <= Series(t, s, i) <= Series(u, v, i)
    decreases 23 - i
  {
    if i <= 21 {
      OptMulMono(t, u, s, v);
      FloorMono(2 * t, 2 * u, i);
      FloorMono(0, 2 * t, i);
      SeriesMono(OptMul(t, s), OptMul(u, v), s, v, i + 2);
    }
  }

  lemma ThirdBound(q: int, x: int, d: int)
    requires 0 < d && q * d <= x && 3 * x <= WAD * d
    ensures 3 * q <= WAD
  {
    if WAD + 1 <= 3 * q { MulMono(WAD + 1, 3 * q, d); }
  }

  lemma ArgumentRange(m: int)
    requires WAD <= m < 2 * WAD
    ensures 0 <= SeriesArgument(m) <= WAD / 3
  {
    var x, d := (m - WAD) * WAD, m + WAD;
    FloorMono(0, x, d);
    FloorSpec(x, d, x / d);
    ThirdBound(x / d, x, d);
  }

  /** q (p + W) = q (m + W) + q (p - m) <= (m - W) W + W (p - m) = (p - W) W */
  lemma ArgumentProduct(m: int, p: int, q: int)
    requires m <= p && q <= WAD && q * (m + WAD) <= (m - WAD) * WAD
    ensures q * (p + WAD) <= (p - WAD) * WAD
  {
    MulMono(q, WAD, p - m);
    assert q * (p + WAD) == q * (m + WAD) + q * (p - m);
  }

  /** z = (m - 1)/(m + 1) grows with m and stays within a third on the octave. */
  lemma ArgumentMono(m: int, p: int)
    requires WAD <= m <= p < 2 * WAD
    ensures 0 <= SeriesArgument(m) <= SeriesArgument(p) <= WAD / 3
  {
    ArgumentRange(m);
    ArgumentRange(p);
    var q, r := SeriesArgument(m), SeriesArgument(p);
    FloorSpec((m - WAD) * WAD, m + WAD, q);
    FloorSpec((p - WAD) * WAD, p + WAD, r);
    ArgumentProduct(m, p, q);
    if r + 1 <= q { MulMono(r + 1, q, p + WAD); }
  }

  lemma MantissaMono(m: int, p: int)
    requires WAD <= m <= p < 2 * WAD
    ensures 0 <= Mantissa(m) <= Mantissa(p)
  {
    ArgumentMono(m, p);
    var z, w := SeriesArgument(m), SeriesArgument(p);
    OptMulMono(z, w, z, w);
    SeriesMono(z, w, OptMul(z, z), OptMul(w, w), 1);
  }

  /** The series evaluated at one third, the supremum of its argument. */
  lemma SeriesAtOneThird()
    ensures OptMul(WAD / 3, WAD / 3) == 111111111111111110
    ensures Series(WAD / 3, 111111111111111110, 1) == 693147180558916385
  {
    var q := 111111111111111110;
    assert Series(95599066, q, 21) == 9104672;
    assert Series(860391597, q, 19) == 9104672 + 90567536;
    assert Series(7743524375, q, 17) == 99672208 + 911002867;
    assert Series(69691719376, q, 15) == 1010675075 + 9292229250;
    assert Series(627225474386, q, 13) == 10302904325 + 96496226828;
    assert Series(5645029269476, q, 11) == 106799131153 + 1026368958086;
    assert Series(50805263425290, q, 9) == 1133168089239 + 11290058538953;
    assert Series(457247370827617, q, 7) == 12423226628192 + 130642105950747;
    assert Series(4115226337448559, q, 5) == 143065332578939 + 1646090534979423;
    assert Series(37037037037037036, q, 3) == 1789155867558362 + 24691358024691357;
    assert Series(333333333333333333, q, 1) == 26480513892249719 + 666666666666666666;
  }

  /** The eleven truncated terms never reach a whole octave. */
  lemma MantissaBelowOctave(m: int)
    requires WAD <= m < 2 * WAD
    ensures 0 <= Mantissa(m) < LN2
  {
    ArgumentMono(m, m);
    var z := SeriesArgument(m);
    OptMulMono(z, WAD / 3, z, WAD / 3);
    SeriesAtOneThird();
    SeriesMono(z, WAD / 3, OptMul(z, z), 111111111111111110, 1);
  }

  /** The octave dominates the mantissa. */
  lemma Dominates(a: int, n: int, b: int, p: int)
    requires 0 <= a < LN2 && 0 <= b < LN2
    requires n < p || (n == p && a <= b)
    ensures a + n * LN2 <= b + p * LN2
  {
    if n < p { MulMono(n + 1, p, LN2); }
  }

  /** The logarithm has the right sign: negative exactly below one. */
  lemma LnSign(x: int)
    requires 0 < x
    ensures LnOf(x) < 0 <==> x < WAD
  {
    ReduceInOctave(x);
    var r := Reduce(x);
    MantissaBelowOctave(r.m);
    if r.n < 0 { MulMono(r.n, -1, LN2); } else { MulMono(0, r.n, LN2); }
  }

  lemma {:induction false} SeriesOfZero(s: int, i: int)
    requires 1 <= i <= 23
    ensures Series(0, s, i) == 0
    decreases 23 - i
  {
    if i <= 21 {
      assert OptMul(0, s) == 0;
      SeriesOfZero(s, i + 2);
    }
  }

  /** The logarithm of one is zero. */
  lemma LnOfOne(x: int)
    requires x == WAD
    ensures LnOf(x) == 0
  {
    assert Reduce(x) == Reduced(x, 0);
    assert SeriesArgument(x) == 0;
    SeriesOfZero(OptMul(0, 0), 1);
  }

  /** Reduction respects the order, octave first. */
  lemma {:induction false} RaiseMono(x: int, y: int, n: int)
    requires 0 < x <= y < 2 * WAD
    ensures var r, p := Raise(x, n), Raise(y, n); r.n < p.n || (r.n == p.n && r.m <= p.m)
    decreases WAD - x
  {
    if y < WAD {
      RaiseMono(2 * x, 2 * y, n - 1);
    } else if x < WAD {
      RaiseInOctave(x, n);
    }
  }

  lemma {:induction false} LowerMono(x: int, y: int, n: int)
    requires WAD <= x <= y
    ensures var r, p := Lower(x, n), Lower(y, n); r.n < p.n || (r.n == p.n && r.m <= p.m)
    decreases y
  {
    if 2 * WAD <= x {
      LowerMono(x / 2, y / 2, n + 1);
    } else if 2 * WAD <= y {
      LowerInOctave(y / 2, n + 1);
    }
  }

  /** The logarithm is monotone on every positive argument, across every octave
      boundary and despite every truncation. */
  lemma LnMonotone(x: int, y: int)
    requires 0 < x <= y
    ensures LnOf(x) <= LnOf(y)
  {
    ReduceInOctave(x);
    ReduceInOctave(y);
    var r, p := Reduce(x), Reduce(y);
    if y < WAD { RaiseMono(x, y, 0); } else if WAD <= x { LowerMono(x, y, 0); }
    MantissaBelowOctave(r.m);
    MantissaBelowOctave(p.m);
    if r.m <= p.m { MantissaMono(r.m, p.m); }
    Dominates(Mantissa(r.m), r.n, Mantissa(p.m), p.n);
  }
}
