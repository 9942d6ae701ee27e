/** Whether put holders can always be paid: how far locked collateral can fall short
    of the open positions over whole runs, exactly when it does, and what follows for
    exercises. */
module OptionCover {
  import opened Outcomes
  import opened Sums
  import opened Ledgers
  import opened FixedPoint
  import opened OptionLn
  import opened OptionExp
  import opened OptionRoot
  import opened OptionPricing
  import opened OptionDomain
  import opened OptionPool

  /** Collateral each open put position is worth at most. */
  ghost function Required(s: State): map<string, int>
  {
    map u | u in s.positions :: OptMul(s.series.strike, s.positions[u].size)
  }

  /** A purchase carries when the fractions of strike times size, of the position
      held and of the new size, add up to a whole unit. The buyer can tell before
      buying. */
  predicate Carries(strike: int, held: int, size: int)
  {
    WAD <= (strike * held) % WAD + (strike * size) % WAD
  }

  function CarryIn(s: State, op: Op): nat
  {
    if op.BuyOp? && Attempted(s, op).Commit? && Carries(s.series.strike, PositionOf(s, op.user).size, op.size)
    then 1 else 0
  }

  ghost function CarryCount(s: State, ops: seq<Op>): nat
  {
    if ops == [] then 0 else
      CarryCount(s, ops[..|ops| - 1]) + CarryIn(Run(s, ops[..|ops| - 1]), ops[|ops| - 1])
  }

  function ExerciseIn(s: State, op: Op): nat
  {
    if op.ExerciseOp? && Attempted(s, op).Commit? then 1 else 0
  }

  ghost function ExerciseCount(s: State, ops: seq<Op>): nat
  {
    if ops == [] then 0 else
      ExerciseCount(s, ops[..|ops| - 1]) + ExerciseIn(Run(s, ops[..|ops| - 1]), ops[|ops| - 1])
  }

  /** How much of the positions' requirement is not locked. */
  ghost function Shortfall(s: State): int
  {
    Total(Required(s)) - s.series.locked
  }

  lemma CarrySplit(strike: int, held: int, size: int)
    requires 0 <= strike && 0 <= held && 0 <= size
    ensures OptMul(strike, held + size) ==
            OptMul(strike, held) + OptMul(strike, size) + if Carries(strike, held, size) then 1 else 0
  {
    Distribute(strike, held, size);
    MulMono(0, held, strike);
    MulMono(0, size, strike);
    FloorSum(strike * held, strike * size, WAD);
  }

  lemma UnderwriteShortfall(s: State, user: string, size: int, premium: int, commitNow: int)
    requires Valid(s) && 0 < size
    requires Underwrite(s, user, size, premium, OptMul(s.series.strike, size), commitNow).Commit?
    ensures Shortfall(Underwrite(s, user, size, premium, OptMul(s.series.strike, size), commitNow).state) ==
            Shortfall(s) + if Carries(s.series.strike, PositionOf(s, user).size, size) then 1 else 0
  {
    var k, held := s.series.strike, PositionOf(s, user).size;
    var t, need := Underwrite(s, user, size, premium, OptMul(k, size), commitNow).state, OptMul(k, held + size);
    assert Required(t) == Required(s)[user := need];
    TotalUpdate(Required(s), user, need);
    CarrySplit(k, held, size);
    assert user !in s.positions ==> OptMul(k, held) == 0;
  }

  /** A purchase adds to the shortfall exactly its carry. */
  lemma BuyShortfall(s: State, op: Op)
    requires Valid(s) && !s.series.isCall && op.BuyOp? && Attempted(s, op).Commit?
    ensures Shortfall(Apply(s, op)) == Shortfall(s) + CarryIn(s, op)
  {
    BuyIs(s, op);
    UnderwriteShortfall(s, op.user, op.size, Premium(SeenAs(s.series, op.quote), op.size, op.now).value, op.commitNow);
  }

  /** A put pays at most what its position requires. */
  lemma PutPayout(series: Series, size: int)
    requires !series.isCall && 0 < series.strike && 0 <= size
    requires series.settlementPrice.Some? && 0 < series.settlementPrice.value
    ensures PayoutAt(series, size).Ok?
    ensures 0 <= PayoutAt(series, size).value <= OptMul(series.strike, size)
  {
    var perUnit := series.strike - series.settlementPrice.value;
    OptMulMono(if perUnit < 0 then 0 else perUnit, series.strike, size, size);
  }

  lemma RequiredRange(s: State)
    requires Valid(s)
    ensures forall u :: u in s.positions ==> 0 <= Required(s)[u] <= Total(Required(s))
  {
    forall u | u in s.positions ensures 0 <= Required(s)[u] {
      OptMulMono(0, s.series.strike, s.positions[u].size, s.positions[u].size);
    }
    TotalAtLeast(Required(s));
  }

  /** An exercise leaves the smaller of the old shortfall and what is still required;
      the pool-size clamp on locked collateral never fires. */
  lemma ExerciseShortfall(s: State, op: Op)
    requires Valid(s) && !s.series.isCall && op.ExerciseOp? && Attempted(s, op).Commit?
    ensures Shortfall(Apply(s, op)) == Min(Shortfall(s), Total(Required(Apply(s, op))))
    ensures Total(Required(Apply(s, op))) == Total(Required(s)) - Required(s)[op.user]
  {
    var size := s.positions[op.user].size;
    PutPayout(s.series, size);
    var t := Apply(s, op);
    assert OptMul(s.series.strike, 0) == 0;
    assert Required(t) == Required(s)[op.user := 0];
    TotalUpdate(Required(s), op.user, 0);
  }

  lemma StepShortfall(s: State, op: Op)
    requires Valid(s) && !s.series.isCall
    ensures Shortfall(Apply(s, op)) ==
            if ExerciseIn(s, op) == 1 then Min(Shortfall(s), Total(Required(Apply(s, op))))
            else Shortfall(s) + CarryIn(s, op)
  {
    if Attempted(s, op).Commit? {
      if op.BuyOp? {
        BuyShortfall(s, op);
      } else if op.ExerciseOp? {
        ExerciseShortfall(s, op);
      } else {
        assert Required(Apply(s, op)) == Required(s);
      }
    }
  }

  /** Over every run of a put series the open positions' requirement is never below
      the locked collateral, and exceeds it by at most the number of carrying
      purchases, by exactly that number until the first exercise. */
  lemma {:induction false} ShortfallBound(s: State, ops: seq<Op>)
    requires Genesis(s) && !s.series.isCall
    ensures 0 <= Shortfall(Run(s, ops)) <= CarryCount(s, ops)
    ensures ExerciseCount(s, ops) == 0 ==> Shortfall(Run(s, ops)) == CarryCount(s, ops)
    decreases |ops|
  {
    if ops == [] {
      assert Required(s) == map[];
    } else {
      var front, op := ops[..|ops| - 1], ops[|ops| - 1];
      ShortfallBound(s, front);
      Accounting(s, front);
      StepShortfall(Run(s, front), op);
      ApplyKeeps(Run(s, front), op);
      RequiredRange(Apply(Run(s, front), op));
    }
  }

  /** Without a carrying purchase locked collateral equals the sum required by the open
      positions in every reachable state. */
  lemma LockedIsRequired(s: State, ops: seq<Op>)
    requires Genesis(s) && !s.series.isCall && CarryCount(s, ops) == 0
    ensures Run(s, ops).series.locked == Total(Required(Run(s, ops)))
  {
    ShortfallBound(s, ops);
  }

  /** After the first `i` steps nothing was required, and nothing has carried since. */
  ghost predicate ClearSince(s: State, ops: seq<Op>, i: nat)
    requires i <= |ops|
  {
    Total(Required(Run(s, ops[..i]))) == 0 && CarryCount(s, ops[..i]) == CarryCount(s, ops)
  }

  lemma {:induction false} CarriesGrow(s: State, ops: seq<Op>, i: nat)
    requires i <= |ops|
    ensures CarryCount(s, ops[..i]) <= CarryCount(s, ops)
    decreases |ops|
  {
    if i == |ops| {
      assert ops[..i] == ops;
    } else {
      CarriesGrow(s, ops[..|ops| - 1], i);
      assert ops[..|ops| - 1][..i] == ops[..i];
    }
  }

  /** One more step of a run, as the shortfall sees it. */
  lemma LastShortfall(s: State, ops: seq<Op>)
    requires Genesis(s) && !s.series.isCall && ops != []
    ensures var front, op := ops[..|ops| - 1], ops[|ops| - 1];
            var before, now := Shortfall(Run(s, front)), Shortfall(Run(s, ops));
            && 0 <= before && 0 <= now
            && CarryCount(s, ops) == CarryCount(s, front) + CarryIn(Run(s, front), op)
            && (now == before + CarryIn(Run(s, front), op)
                || (CarryIn(Run(s, front), op) == 0 && now == Min(before, Total(Required(Run(s, ops))))))
  {
    var front, op := ops[..|ops| - 1], ops[|ops| - 1];
    ShortfallBound(s, front);
    ShortfallBound(s, ops);
    Accounting(s, front);
    StepShortfall(Run(s, front), op);
  }

  lemma {:induction false} ClearIsLocked(s: State, ops: seq<Op>, i: nat)
    requires Genesis(s) && !s.series.isCall && i <= |ops| && ClearSince(s, ops, i)
    ensures Shortfall(Run(s, ops)) == 0
    decreases |ops|
  {
    ShortfallBound(s, ops);
    Accounting(s, ops);
    if i == |ops| {
      assert ops[..i] == ops;
    } else {
      var front := ops[..|ops| - 1];
      assert front[..i] == ops[..i];
      CarriesGrow(s, front, i);
      LastShortfall(s, ops);
      ClearIsLocked(s, front, i);
      RequiredRange(Run(s, ops));
    }
  }

  lemma {:induction false} LockedIsClear(s: State, ops: seq<Op>) returns (i: nat)
    requires Genesis(s) && !s.series.isCall && Shortfall(Run(s, ops)) == 0
    ensures i <= |ops| && ClearSince(s, ops, i)
    decreases |ops|
  {
    i := |ops|;
    assert ops[..i] == ops;
    if ops == [] {
      assert Required(s) == map[];
    } else if Total(Required(Run(s, ops))) != 0 {
      var front := ops[..|ops| - 1];
      LastShortfall(s, ops);
      i := LockedIsClear(s, front);
      assert front[..i] == ops[..i];
    }
  }

  /** Locked collateral equals the sum required by the open positions if and only if
      there was a moment, the start included, at which nothing was required and after
      which no purchase has carried. */
  lemma LockedIsRequiredIff(s: State, ops: seq<Op>)
    requires Genesis(s) && !s.series.isCall
    ensures Run(s, ops).series.locked == Total(Required(Run(s, ops))) <==>
            exists i: nat :: i <= |ops| && ClearSince(s, ops, i)
  {
    if Shortfall(Run(s, ops)) == 0 {
      var i := LockedIsClear(s, ops);
    }
    if i: nat :| i <= |ops| && ClearSince(s, ops, i) {
      ClearIsLocked(s, ops, i);
    }
  }

  /** In every reachable state of a put series, whatever was bought, withdrawn,
      settled and exercised before, a holder's payout exceeds the pool by at most
      one unit for each carrying purchase. */
  lemma PayoutShortfall(s: State, ops: seq<Op>, user: string)
    requires Genesis(s) && !s.series.isCall
    requires var t := Run(s, ops); user in t.positions && t.series.settlementPrice.Some?
    ensures var t := Run(s, ops);
            && PayoutAt(t.series, t.positions[user].size).Ok?
            && PayoutAt(t.series, t.positions[user].size).value <= t.series.collateral + CarryCount(s, ops)
  {
    var t := Run(s, ops);
    Accounting(s, ops);
    ShortfallBound(s, ops);
    RequiredRange(t);
    PutPayout(t.series, t.positions[user].size);
  }

  /** Without a carrying purchase no interleaving of purchases, withdrawals,
      settlement and exercises can keep a put holder from being paid: once settled,
      an exercise commits exactly when there is a position, and moves exactly the
      payout to the holder. */
  lemma PutsAlwaysPaid(s: State, ops: seq<Op>, user: string)
    requires Genesis(s) && !s.series.isCall && CarryCount(s, ops) == 0
    requires Run(s, ops).series.status == Settled
    ensures var t := Run(s, ops);
            var size := PositionOf(t, user).size;
            var payout, r := PayoutAt(t.series, size), Exercise(t, user);
            && (r.Commit? <==> 0 < size)
            && (r.Commit? ==>
                  && payout.Ok?
                  && Available(r.state.balances, Vault(t, user)) == Available(t.balances, Vault(t, user)) + payout.value
                  && r.state.series.collateral == t.series.collateral - payout.value
                  && PositionOf(r.state, user).size == 0)
  {
    var t := Run(s, ops);
    Accounting(s, ops);
    if 0 < PositionOf(t, user).size {
      PayoutShortfall(s, ops, user);
      PutPayout(t.series, t.positions[user].size);
    }
  }

  /** More than one at a time: without a carrying purchase the pool covers every
      holder's payout together, at any settlement price. */
  lemma AllPutsCovered(s: State, ops: seq<Op>)
    requires Genesis(s) && !s.series.isCall && CarryCount(s, ops) == 0
    requires Run(s, ops).series.settlementPrice.Some?
    ensures var t := Run(s, ops);
            Total(map u | u in t.positions :: PayoutAt(t.series, t.positions[u].size).value) <= t.series.collateral
  {
    var t := Run(s, ops);
    Accounting(s, ops);
    ShortfallBound(s, ops);
    var payouts := map u | u in t.positions :: PayoutAt(t.series, t.positions[u].size).value;
    forall u | u in t.positions ensures payouts[u] <= Required(t)[u] {
      PutPayout(t.series, t.positions[u].size);
    }
    TotalMono(payouts, Required(t));
  }

  /** A purchase whose strike times size is a whole number never carries, and neither
      does a holder's first. */
  lemma NeverCarries(strike: int, held: int, size: int)
    requires 0 < strike && ((strike * size) % WAD == 0 || held == 0)
    ensures !Carries(strike, held, size)
  {
    assert held == 0 ==> strike * held == 0;
  }

  /** If every purchase in a run is a whole number of units, or is its holder's first,
      nothing carries. */
  ghost predicate Clean(s: State, ops: seq<Op>)
  {
    forall i :: 0 <= i < |ops| && ops[i].BuyOp? ==>
      || (s.series.strike * ops[i].size) % WAD == 0
      || PositionOf(Run(s, ops[..i]), ops[i].user).size == 0
  }

  lemma {:induction false} CleanRunsCarryNothing(s: State, ops: seq<Op>)
    requires Genesis(s) && Clean(s, ops)
    ensures CarryCount(s, ops) == 0
    decreases |ops|
  {
    if ops != [] {
      var front, op := ops[..|ops| - 1], ops[|ops| - 1];
      assert forall i :: 0 <= i < |front| ==> front[..i] == ops[..i];
      CleanRunsCarryNothing(s, front);
      Accounting(s, front);
      if op.BuyOp? {
        NeverCarries(s.series.strike, PositionOf(Run(s, front), op.user).size, op.size);
      }
    }
  }

  // ---- A purchase that carries ----

  /** A put with a strike between 1.75 and 2 and the mark between a sixteenth and an
      eighth of it, such as 1.9 and 0.11875. */
  predicate DeepPut(strike: int, mark: int)
  {
    7 * WAD <= 4 * strike < 8 * WAD && strike <= 16 * mark < 2 * strike
  }

  /** With a year to run and capped volatility such a put is priced between one and
      its strike. */
  lemma DeepPutPriced(strike: int, mark: int)
    requires DeepPut(strike, mark)
    ensures var p := BlackScholes(mark, strike, YEAR_SECONDS, RISK_FREE_RATE, MAX_IV, false);
            p.Ok? && WAD <= p.value <= strike
  {
    assert YearFraction(YEAR_SECONDS) == WAD;
    MoneynessInRange(strike, mark);
    MomentsInRange(mark, strike);
    var d := D1D2(mark, strike, WAD, RISK_FREE_RATE, MAX_IV).value;
    SmallEnough(d.d1);
    SmallEnough(d.d2);
    ExpNegDefined(OptMul(RISK_FREE_RATE, WAD));
    assert OptMul(RISK_FREE_RATE, WAD) == RISK_FREE_RATE;
    NoArbitrage(mark, strike, YEAR_SECONDS, RISK_FREE_RATE, MAX_IV, false);
  }

  lemma MoneynessInRange(strike: int, mark: int)
    requires DeepPut(strike, mark)
    ensures WAD <= 16 * OptDiv(mark, strike) < 2 * WAD
  {
    var q := OptDiv(mark, strike);
    QuoSpec(mark * WAD, strike, q);
    if q < WAD / 16 { MulMono(q + 1, WAD / 16, strike); }
    if WAD / 8 <= q { MulMono(WAD / 8, q, strike); }
  }

  lemma SmallEnough(x: int)
    requires -4 * WAD <= x <= 4 * WAD
    ensures NormalCdf(x).Ok?
  {
    CdfDefinedIff(x);
  }

  /** One year at capped volatility, with the spot about a sixteenth of the strike:
      both moments stay within four deviations. */
  lemma MomentsInRange(spot: int, strike: int)
    requires 0 < strike && WAD <= 16 * OptDiv(spot, strike) < 2 * WAD
    ensures var d := D1D2(spot, strike, WAD, RISK_FREE_RATE, MAX_IV);
            && d.Ok? && -4 * WAD <= d.value.d1 <= 4 * WAD && -4 * WAD <= d.value.d2 <= 4 * WAD
  {
    var x := OptDiv(spot, strike);
    LnOfSixteenth(x);
    RootOfOne();
    DriftAtCap();
    var numerator := LnOf(x) + 12_550_000_000_000_000_000;
    DividedByCap(numerator);
  }

  lemma DividedByCap(numerator: int)
    requires 0 <= numerator <= 20 * WAD
    ensures 0 <= OptDiv(numerator, MAX_IV) <= 4 * WAD
  {
    FloorMono(0, numerator * WAD, MAX_IV);
    FloorMono(numerator * WAD, 20 * WAD * WAD, MAX_IV);
  }

  lemma DriftAtCap()
    ensures OptMul(RISK_FREE_RATE + Quo(MAX_IV * MAX_IV, 2 * WAD), WAD) == 12_550_000_000_000_000_000
    ensures OptMul(MAX_IV, WAD) == MAX_IV
  {
  }

  lemma LnOfSixteenth(x: int)
    requires WAD <= 16 * x < 2 * WAD
    ensures -4 * LN2 <= LnOf(x) < -3 * LN2
  {
    assert Raise(8 * x, -3) == Reduced(16 * x, -4);
    assert Raise(4 * x, -2) == Reduced(16 * x, -4);
    assert Raise(2 * x, -1) == Reduced(16 * x, -4);
    MantissaBelowOctave(16 * x);
  }

  lemma Snoc(s: State, ops: seq<Op>, op: Op, next: State, carries: nat)
    requires Apply(Run(s, ops), op) == next && CarryCount(s, ops) + CarryIn(Run(s, ops), op) == carries
    ensures Run(s, ops + [op]) == next && CarryCount(s, ops + [op]) == carries
  {
    assert (ops + [op])[..|ops|] == ops;
  }

  function Quote(mark: int): Snapshot
    requires 0 < mark
  {
    SnapshotRow(Active, MAX_IV, mark, YEAR_SECONDS * SECOND, 0, 0)
  }

  /** The put's series as the run moves it. */
  function DeepSeries(strike: int, mark: int, collateral: int, bought: int): Series
  {
    Series(1, "usdc", strike, false, MAX_IV, mark, YEAR_SECONDS * SECOND, Active, collateral, bought, bought, bought, None)
  }

  /** `bought` units held, `principal` provided, `lp` back with the provider. */
  function DeepState(strike: int, mark: int, collateral: int, bought: int, principal: int, lp: int): State
  {
    State(DeepSeries(strike, mark, collateral, bought),
          if bought == 0 then map[] else map["holder" := Position(bought, bought, 0)],
          map["lp" := principal],
          map[Account("lp", 1, "usdc") := lp, Account("holder", 1, "usdc") := 2 - bought])
  }

  /** One unit of the put costs one and locks one. */
  lemma UnitQuoted(strike: int, mark: int, series: Series)
    requires DeepPut(strike, mark) && series.strike == strike && !series.isCall
    ensures var seen := SeenAs(series, Quote(mark));
            Premium(seen, 1, 0) == Ok(1) && RequiredCollateral(seen, 1) == 1
  {
    DeepPutPriced(strike, mark);
    var unit := BlackScholes(mark, strike, YEAR_SECONDS, RISK_FREE_RATE, MAX_IV, false).value;
    assert ImpliedVolatility(SeenAs(series, Quote(mark))) == MAX_IV;
    assert OptMul(unit, 1) == 1;
  }

  function BuyUnit(mark: int): Op
    requires 0 < mark
  {
    BuyOp("holder", 1, 1, Quote(mark), 0, 0)
  }

  /** The transaction of the holder's next unit. */
  lemma UnitUnderwritten(strike: int, mark: int, bought: int)
    requires DeepPut(strike, mark) && 0 <= bought <= 1
    ensures Underwrite(DeepState(strike, mark, 2 + bought, bought, 2, 0), "holder", 1, 1, 1, 0) ==
            Commit(DeepState(strike, mark, 3 + bought, bought + 1, 2, 0))
  {
    var s := DeepState(strike, mark, 2 + bought, bought, 2, 0);
    var t := DeepState(strike, mark, 3 + bought, bought + 1, 2, 0);
    var u := Underwrite(s, "holder", 1, 1, 1, 0).state;
    assert u.positions == t.positions;
    assert u.balances == t.balances;
  }

  lemma UnitAttempt(strike: int, mark: int, s: State)
    requires DeepPut(strike, mark) && s.series.strike == strike && !s.series.isCall
    ensures Attempted(s, BuyUnit(mark)) == Underwrite(s, "holder", 1, 1, 1, 0)
  {
    UnitQuoted(strike, mark, s.series);
  }

  lemma UnitCarry(strike: int, mark: int, held: int)
    requires DeepPut(strike, mark) && 0 <= held <= 1
    ensures Carries(strike, held, 1) <==> held == 1
  {
  }

  /** The holder's second unit carries, the first does not. */
  lemma UnitBought(strike: int, mark: int, bought: int)
    requires DeepPut(strike, mark) && 0 <= bought <= 1
    ensures var s := DeepState(strike, mark, 2 + bought, bought, 2, 0);
            && Apply(s, BuyUnit(mark)) == DeepState(strike, mark, 3 + bought, bought + 1, 2, 0)
            && CarryIn(s, BuyUnit(mark)) == bought
  {
    var s := DeepState(strike, mark, 2 + bought, bought, 2, 0);
    UnitAttempt(strike, mark, s);
    UnitUnderwritten(strike, mark, bought);
    UnitCarry(strike, mark, PositionOf(s, "holder").size);
  }

  function DeepGenesis(strike: int, mark: int): State
  {
    State(DeepSeries(strike, mark, 0, 0), map[], map[],
          map[Account("lp", 1, "usdc") := 2, Account("holder", 1, "usdc") := 2])
  }

  lemma Provided(strike: int, mark: int)
    ensures Apply(DeepGenesis(strike, mark), AddOp("lp", 2)) == DeepState(strike, mark, 2, 0, 2, 0)
  {
    var t := Apply(DeepGenesis(strike, mark), AddOp("lp", 2));
    assert t.balances == DeepState(strike, mark, 2, 0, 2, 0).balances;
    assert t.principals == DeepState(strike, mark, 2, 0, 2, 0).principals;
  }

  lemma Removed(strike: int, mark: int)
    ensures Apply(DeepState(strike, mark, 4, 2, 2, 0), RemoveOp("lp", 2, Active)) ==
            DeepState(strike, mark, 2, 2, 0, 2)
  {
    var t := Apply(DeepState(strike, mark, 4, 2, 2, 0), RemoveOp("lp", 2, Active));
    assert t.balances == DeepState(strike, mark, 2, 2, 0, 2).balances;
    assert t.principals == DeepState(strike, mark, 2, 2, 0, 2).principals;
  }

  function DeepSettled(strike: int, mark: int): State
  {
    var s := DeepState(strike, mark, 2, 2, 0, 2);
    s.(series := s.series.(settlementPrice := Some(1), status := Settled))
  }

  lemma ExerciseFails(strike: int, mark: int)
    requires DeepPut(strike, mark)
    ensures Exercise(DeepSettled(strike, mark), "holder") == Abort(PoolCannotCover)
  {
    var series := DeepSettled(strike, mark).series;
    assert PayoutAt(series, 2) == Ok(OptMul(strike - 1, 2));
    assert OptMul(strike - 1, 2) == 3;
  }

  /** The first or second unit, bought after a run. */
  lemma BoughtAfter(strike: int, mark: int, ops: seq<Op>, bought: int)
    requires DeepPut(strike, mark) && 0 <= bought <= 1
    requires Run(DeepGenesis(strike, mark), ops) == DeepState(strike, mark, 2 + bought, bought, 2, 0)
    requires CarryCount(DeepGenesis(strike, mark), ops) == 0
    ensures Run(DeepGenesis(strike, mark), ops + [BuyUnit(mark)]) ==
            DeepState(strike, mark, 3 + bought, bought + 1, 2, 0)
    ensures CarryCount(DeepGenesis(strike, mark), ops + [BuyUnit(mark)]) == bought
  {
    UnitBought(strike, mark, bought);
    Snoc(DeepGenesis(strike, mark), ops, BuyUnit(mark), DeepState(strike, mark, 3 + bought, bought + 1, 2, 0), bought);
  }

  lemma ProviderIn(strike: int, mark: int) returns (ops: seq<Op>)
    requires 0 < mark
    ensures Run(DeepGenesis(strike, mark), ops) == DeepState(strike, mark, 2, 0, 2, 0)
    ensures CarryCount(DeepGenesis(strike, mark), ops) == 0
  {
    ops := [];
    Provided(strike, mark);
    Snoc(DeepGenesis(strike, mark), ops, AddOp("lp", 2), DeepState(strike, mark, 2, 0, 2, 0), 0);
    ops := ops + [AddOp("lp", 2)];
  }

  lemma HolderIn(strike: int, mark: int) returns (ops: seq<Op>)
    requires DeepPut(strike, mark)
    ensures Run(DeepGenesis(strike, mark), ops) == DeepState(strike, mark, 4, 2, 2, 0)
    ensures CarryCount(DeepGenesis(strike, mark), ops) == 1
  {
    ops := ProviderIn(strike, mark);
    BoughtAfter(strike, mark, ops, 0);
    ops := ops + [BuyUnit(mark)];
    BoughtAfter(strike, mark, ops, 1);
    ops := ops + [BuyUnit(mark)];
  }

  /** The condition is needed: a run of any such put in which one purchase carries, a
      provider then takes out everything unlocked, the put settles deep in the money,
      and the holder's exercise is refused because the pool cannot cover it. */
  lemma CarriedPutUnpaid(strike: int, mark: int) returns (s: State, ops: seq<Op>)
    requires DeepPut(strike, mark)
    ensures Genesis(s) && !s.series.isCall && CarryCount(s, ops) == 1
    ensures Run(s, ops).series.status == Settled && 0 < PositionOf(Run(s, ops), "holder").size
    ensures Exercise(Run(s, ops), "holder") == Abort(PoolCannotCover)
  {
    s := DeepGenesis(strike, mark);
    ops := HolderIn(strike, mark);
    Removed(strike, mark);
    Snoc(s, ops, RemoveOp("lp", 2, Active), DeepState(strike, mark, 2, 2, 0, 2), 1);
    ops := ops + [RemoveOp("lp", 2, Active)];
    Snoc(s, ops, SettleOp(1, Active, YEAR_SECONDS * SECOND, YEAR_SECONDS * SECOND), DeepSettled(strike, mark), 1);
    ops := ops + [SettleOp(1, Active, YEAR_SECONDS * SECOND, YEAR_SECONDS * SECOND)];
    ExerciseFails(strike, mark);
  }
}
