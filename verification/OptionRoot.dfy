/** `optInvSqrt` of backend/services/option_math.go: 1/sqrt(x) by Newton steps from
    a start scaled by powers of four. */
module OptionRoot {
  import opened Outcomes
  import opened FixedPoint
  import opened OptionLn

  datatype Start = Start(temp: int, y: int)

  function Shrink(temp: int, y: int): Start
    requires 0 < temp
    decreases temp
  {
    if 4 * WAD <= temp then Shrink(temp / 4, y / 2) else Start(temp, y)
  }

  function Grow(temp: int, y: int): Start
    requires 0 < temp
    decreases WAD - temp
  {
    if temp < WAD then Grow(4 * temp, 2 * y) else Start(temp, y)
  }

  lemma {:induction false} ShrinkInRange(temp: int, y: int)
    requires 0 < temp && 0 <= y
    ensures var s := Shrink(temp, y);
            && 0 < s.temp < 4 * WAD && (WAD <= temp ==> WAD <= s.temp) && 0 <= s.y <= y
    decreases temp
  {
    if 4 * WAD <= temp { ShrinkInRange(temp / 4, y / 2); }
  }

  lemma {:induction false} GrowExact(temp: int, y: int)
    requires 0 < temp < 4 * WAD && 0 <= y
    ensures var s := Grow(temp, y);
            && WAD <= s.temp < 4 * WAD && y <= s.y && temp * (s.y * s.y) == s.temp * (y * y)
    decreases WAD - temp
  {
    if temp < WAD {
      var s := Grow(4 * temp, 2 * y);
      GrowExact(4 * temp, 2 * y);
      assert (2 * y) * (2 * y) == 4 * (y * y);
      assert (4 * temp) * (s.y * s.y) == 4 * (temp * (s.y * s.y));
      assert s.temp * (4 * (y * y)) == 4 * (s.temp * (y * y));
    }
  }

  function Begin(x: int): Start
    requires 0 < x
  {
    ShrinkInRange(x, WAD);
    var s := Shrink(x, WAD);
    Grow(s.temp, s.y)
  }

  /** Both scaling loops terminate with the scaled argument in [1, 4). Below four
      the start is exact: x * y^2 is the scaled argument, with no rounding. */
  lemma BeginInRange(x: int)
    requires 0 < x
    ensures var s := Begin(x);
            && WAD <= s.temp < 4 * WAD && 0 <= s.y
            && (x < 4 * WAD ==> x * (s.y * s.y) == s.temp * (WAD * WAD))
            && (4 * WAD <= x ==> s.y <= WAD)
  {
    ShrinkInRange(x, WAD);
    var s := Shrink(x, WAD);
    GrowExact(s.temp, s.y);
  }

  /** x * y * y, the quantity that is one at the root. */
  function Residual(x: int, y: int): int
  {
    OptMul(x, OptMul(y, y))
  }

  datatype Root = Root(y: int, settled: bool)

  /** At most `k` Newton steps; `settled` tells that the iterate repeated. */
  function Newton(x: int, y: int, k: nat): Root
    decreases k
  {
    if k == 0 then Root(y, false) else
      var step := Residual(x, y);
      if 3 * WAD <= step then Newton(x, Quo(y, 2), k - 1) else
        var next := Quo(y * (3 * WAD - step), 2 * WAD);
        if next == y then Root(y, true) else Newton(x, next, k - 1)
  }

  const NEWTON_STEPS: nat := 40

  function InvSqrtRoot(x: int): Root
    requires 0 < x
  {
    Newton(x, Begin(x).y, NEWTON_STEPS)
  }

  function InvSqrt(x: int): Result<int, MathError>
  {
    if x <= 0 then Err(NotInDomain) else Ok(InvSqrtRoot(x).y)
  }

  method OptInvSqrt(x: int) returns (r: Result<int, MathError>)
    ensures r == InvSqrt(x)
  {
    if x <= 0 {
      return Err(NotInDomain);
    }
    var y, temp := WAD, x;
    while 4 * WAD <= temp
      invariant 0 < temp && 0 <= y && Shrink(temp, y) == Shrink(x, WAD)
    {
      temp := Quo(temp, 4);
      y := Quo(y, 2);
    }
    while temp < WAD
      invariant 0 < temp && Grow(temp, y) == Begin(x)
      decreases WAD - temp
    {
      temp := temp * 4;
      y := y * 2;
    }
    ghost var goal := InvSqrtRoot(x).y;
    var i := 0;
    while i < 40
      invariant 0 <= i <= 40 && Newton(x, y, 40 - i).y == goal
    {
      var step := OptMul(x, OptMul(y, y));
      if 3 * WAD <= step {
        y := Quo(y, 2);
      } else {
        var next := Quo(y * (3 * WAD - step), 2 * WAD);
        if next == y {
          break;
        }
        y := next;
      }
      i := i + 1;
    }
    r := Ok(y);
  }

  /** An iterate repeats exactly when its residual is at most one and the gap,
      weighted by the iterate, is under two units: a certificate a reader can
      check without rerunning the iteration. */
  lemma RepeatsIff(x: int, y: int)
    requires 0 < x && 0 <= y && Residual(x, y) < 3 * WAD
    ensures Quo(y * (3 * WAD - Residual(x, y)), 2 * WAD) == y
            <==> Residual(x, y) <= WAD && (WAD - Residual(x, y)) * y < 2 * WAD
  {
    var s := Residual(x, y);
    var product := y * (3 * WAD - s);
    assert product == y * (2 * WAD) + (WAD - s) * y;
    MulMono(0, y, 3 * WAD - s);
    QuoSpec(product, 2 * WAD, y);
    assert (y + 1) * (2 * WAD) == y * (2 * WAD) + 2 * WAD;
    if y == 0 {
      assert OptMul(0, 0) == 0 && OptMul(x, 0) == 0;
    } else if WAD < s {
      MulMono(1, y, s - WAD);
      assert (WAD - s) * y == -((s - WAD) * y);
    } else {
      MulMono(0, WAD - s, y);
    }
  }

  lemma {:induction false} NewtonCertificate(x: int, y: int, k: nat)
    requires 0 < x && 0 <= y
    ensures var r := Newton(x, y, k);
            && 0 <= r.y
            && (r.settled ==> Residual(x, r.y) <= WAD && (WAD - Residual(x, r.y)) * r.y < 2 * WAD)
    decreases k
  {
    if k != 0 {
      var step := Residual(x, y);
      if 3 * WAD <= step {
        NewtonCertificate(x, Quo(y, 2), k - 1);
      } else {
        var next := Quo(y * (3 * WAD - step), 2 * WAD);
        RepeatsIff(x, y);
        if next != y {
          MulMono(0, y, 3 * WAD - step);
          FloorMono(0, y * (3 * WAD - step), 2 * WAD);
          NewtonCertificate(x, next, k - 1);
        }
      }
    }
  }

  /** The routine's answer is never negative, and when it stops because an iterate
      repeats, the answer carries the certificate. */
  lemma InvSqrtCertified(x: int)
    requires 0 < x
    ensures var r := InvSqrtRoot(x);
            && InvSqrt(x) == Ok(r.y) && 0 <= r.y
            && (r.settled ==> Residual(x, r.y) <= WAD && (WAD - Residual(x, r.y)) * r.y < 2 * WAD)
  {
    BeginInRange(x);
    NewtonCertificate(x, Begin(x).y, NEWTON_STEPS);
  }

  lemma RootOfOne()
    ensures Quo(WAD_SQ, WAD) == WAD && InvSqrt(WAD) == Ok(WAD)
  {
    assert Begin(WAD) == Start(WAD, WAD);
    assert Residual(WAD, WAD) == WAD;
    assert Quo(WAD * (2 * WAD), 2 * WAD) == WAD;
  }
}
