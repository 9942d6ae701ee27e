/** The 1e18 fixed-point primitives of backend/services/option_math.go. Division
    truncates toward zero, unlike Dafny's Euclidean `/`. */
module FixedPoint {

  const WAD: int := 1_000_000_000_000_000_000
  const WAD_SQ: int := 1_000_000_000_000_000_000_000_000_000_000_000_000
  const LN2: int := 693_147_180_559_945_309

  /** Nanoseconds, the unit of every clock. */
  const SECOND: int := 1_000_000_000

  function Min(a: int, b: int): int
  {
    if b < a then b else a
  }

  function Max(a: int, b: int): int
  {
    if a < b then b else a
  }

  /** big.Int.Quo */
  function Quo(a: int, b: int): int
    requires b != 0
  {
    if 0 <= a then a / b else -((-a) / b)
  }

  function OptMul(a: int, b: int): int
  {
    Quo(a * b, WAD)
  }

  function OptDiv(a: int, b: int): int
    requires b != 0
  {
    Quo(a * WAD, b)
  }

  /** The quotient is the one integer between a/b and zero, less than one away. */
  lemma QuoSpec(a: int, b: int, q: int)
    requires 0 < b
    ensures q == Quo(a, b) <==>
            if 0 <= a then q * b <= a < (q + 1) * b else (q - 1) * b < a <= q * b
  {
    if 0 <= a {
      FloorSpec(a, b, q);
    } else {
      FloorSpec(-a, b, -q);
      assert -q * b == -(q * b) && (-q + 1) * b == -((q - 1) * b);
    }
  }

  /** Floor division by a positive number, characterised. */
  lemma FloorSpec(a: int, b: int, q: int)
    requires 0 < b
    ensures q == a / b <==> q * b <= a < (q + 1) * b
  {
    var f := a / b;
    assert a == f * b + a % b;
    assert (f + 1) * b == f * b + b;
    if q * b <= a < (q + 1) * b {
      if q < f { MulMono(q + 1, f, b); }
      if f < q { MulMono(f + 1, q, b); }
    }
  }

  lemma MulMono(a: int, b: int, c: int)
    requires a <= b && 0 <= c
    ensures a * c <= b * c
  {
  }

  lemma FloorMono(a: int, b: int, d: int)
    requires a <= b && 0 < d
    ensures a / d <= b / d
  {
    FloorSpec(a, d, a / d);
    FloorSpec(b, d, b / d);
    if b / d < a / d { MulMono(b / d + 1, a / d, d); }
  }

  lemma QuoMono(a: int, b: int, d: int)
    requires a <= b && 0 < d
    ensures Quo(a, d) <= Quo(b, d)
    ensures 0 <= b ==> 0 <= Quo(b, d)
  {
    if 0 <= a { FloorMono(a, b, d); }
    if 0 <= b { FloorMono(0, b, d); }
    if a < 0 { FloorMono(0, -a, d); }
    if b < 0 { FloorMono(-b, -a, d); }
  }

  /** A larger positive divisor gives a smaller quotient of a non-negative number. */
  lemma FloorAnti(a: int, d: int, e: int)
    requires 0 <= a && 0 < d <= e
    ensures 0 <= a / e <= a / d
  {
    FloorSpec(a, e, a / e);
    FloorSpec(a, d, a / d);
    if a / e < 0 { MulMono(a / e + 1, 0, e); }
    if a / d < a / e { MulMono(a / d + 1, a / e, d); MulMono(d, e, a / e); }
  }

  /** Scaling numerator and denominator alike changes nothing. */
  lemma FloorExact(q: int, d: int)
    requires 0 < d
    ensures (q * d) / d == q && (q * d) % d == 0
  {
    FloorSpec(q * d, d, q);
  }

  /** Splitting a sum across two floors loses at most one unit. */
  lemma FloorSum(a: int, b: int, d: int)
    requires 0 < d
    ensures a / d + b / d <= (a + b) / d <= a / d + b / d + 1
    ensures (a + b) / d == a / d + b / d + if a % d + b % d >= d then 1 else 0
  {
    var x, y := a / d, b / d;
    assert a + b == (x + y) * d + (a % d + b % d);
    if a % d + b % d >= d {
      FloorSpec(a + b, d, x + y + 1);
      assert (x + y + 2) * d == (x + y) * d + d + d;
    } else {
      FloorSpec(a + b, d, x + y);
    }
  }

  lemma OptMulMono(a: int, b: int, c: int, d: int)
    requires 0 <= a <= b && 0 <= c <= d
    ensures 0 <= OptMul(a, c) <= OptMul(b, d)
  {
    MulMono(a, b, c);
    MulMono(c, d, b);
    FloorMono(a * c, b * d, WAD);
    FloorMono(0, a * c, WAD);
  }
}
