/** Exactly when a put holder's exercise can be refused because the pool cannot cover it:
    for one holder against the providers, and for all holders together. */
module OptionRefusal {
  import opened Outcomes
  import opened Sums
  import opened FixedPoint
  import opened OptionPool
  import opened OptionCover

  /** What a put position can be paid at most: its payout at the lowest price. */
  function Worst(series: Series, size: int): int
  {
    OptMul(series.strike - 1, size)
  }

  /** Collateral beyond the providers' principals, which they can never take out. */
  ghost function Floor(s: State): int
  {
    s.series.collateral - Total(s.principals)
  }

  predicate Refused(s: State, user: string)
  {
    Exercise(s, user) == Abort(PoolCannotCover)
  }

  // ---- Steps that trade nothing ----

  /** Anything but a purchase or an exercise. */
  predicate Quiet(op: Op)
  {
    !op.BuyOp? && !op.ExerciseOp?
  }

  predicate AllQuiet(ops: seq<Op>)
  {
    forall i :: 0 <= i < |ops| ==> Quiet(ops[i])
  }

  predicate NoBuys(ops: seq<Op>)
  {
    forall i :: 0 <= i < |ops| ==> !ops[i].BuyOp?
  }

  /** What the theorems look at; quiet steps change none of it. */
  ghost predicate SameStake(s: State, t: State)
  {
    && t.series.strike == s.series.strike && t.series.isCall == s.series.isCall
    && t.series.locked == s.series.locked && t.positions == s.positions && Floor(t) == Floor(s)
  }

  lemma QuietStep(s: State, op: Op)
    requires Valid(s) && Quiet(op)
    ensures Valid(Apply(s, op)) && SameStake(s, Apply(s, op))
  {
    ApplyKeeps(s, op);
    assert PaidIn(s, op) == 0;
    QuietRows(s, op);
  }

  lemma QuietRows(s: State, op: Op)
    requires Quiet(op)
    ensures var t := Apply(s, op);
            && t.series.locked == s.series.locked && t.positions == s.positions
            && t.series.premiumCollected == s.series.premiumCollected
  {
  }

  lemma {:induction false} QuietRun(s: State, ops: seq<Op>)
    requires Valid(s) && AllQuiet(ops)
    ensures Valid(Run(s, ops)) && SameStake(s, Run(s, ops))
    decreases |ops|
  {
    if ops != [] {
      QuietRun(s, ops[..|ops| - 1]);
      QuietStep(Run(s, ops[..|ops| - 1]), ops[|ops| - 1]);
    }
  }

  lemma RunOneMore(s: State, ops: seq<Op>, op: Op)
    ensures Run(s, ops + [op]) == Apply(Run(s, ops), op)
  {
    assert (ops + [op])[..|ops|] == ops;
  }

  // ---- Payouts ----

  /** No settlement price pays a put more than the lowest one. */
  lemma WorstPayout(series: Series, size: int)
    requires !series.isCall && 0 < series.strike && 0 <= size
    requires series.settlementPrice.Some? && 0 < series.settlementPrice.value
    ensures PayoutAt(series, size).Ok?
    ensures 0 <= PayoutAt(series, size).value <= Worst(series, size)
    ensures series.settlementPrice.value == 1 ==> PayoutAt(series, size).value == Worst(series, size)
  {
    var perUnit := series.strike - series.settlementPrice.value;
    OptMulMono(if perUnit < 0 then 0 else perUnit, series.strike - 1, size, size);
  }

  lemma WorstRange(series: Series, size: int)
    requires 0 < series.strike && 0 <= size
    ensures 0 <= Worst(series, size) <= OptMul(series.strike, size)
    ensures size == 0 ==> Worst(series, size) == 0
  {
    OptMulMono(series.strike - 1, series.strike, size, size);
  }

  lemma PrincipalsHeld(s: State)
    requires Valid(s)
    ensures Floor(s) <= s.series.collateral
  {
    TotalAtLeast(s.principals);
  }

  /** A refusal means a settled put whose worst payout exceeds what is left. */
  lemma RefusedMeans(s: State, user: string)
    requires Valid(s) && !s.series.isCall && Refused(s, user)
    ensures user in s.positions
    ensures Max(s.series.locked, Floor(s)) <= s.series.collateral < Worst(s.series, s.positions[user].size)
  {
    WorstPayout(s.series, s.positions[user].size);
    PrincipalsHeld(s);
  }

  // ---- Providers leave ----

  lemma PositiveEntry(m: map<string, int>) returns (k: string)
    requires 0 < Total(m)
    ensures k in m && 0 < m[k]
  {
    if forall u :: u in m ==> m[u] <= 0 {
      var zeros := map u | u in m :: 0;
      TotalOfZeros(zeros);
      TotalMono(m, zeros);
    }
    k :| k in m && 0 < m[k];
  }

  /** A provider who withdraws what they may. */
  lemma WithdrawStep(s: State, user: string, amount: int)
    requires Valid(s) && s.series.status == Settled && user in s.principals
    requires 0 < amount <= s.principals[user] && amount <= s.series.collateral - s.series.locked
    ensures Apply(s, WithdrawOp(user, amount)).series == s.series.(collateral := s.series.collateral - amount)
  {
  }

  /** After settlement the providers can take out everything but the locked collateral
      and what is not theirs. */
  lemma {:induction false} Drain(s: State, ops: seq<Op>) returns (all: seq<Op>)
    requires Valid(Run(s, ops)) && Run(s, ops).series.status == Settled
    ensures |ops| <= |all| && all[..|ops|] == ops
    ensures forall i :: |ops| <= i < |all| ==> all[i].WithdrawOp?
    ensures var t, u := Run(s, ops), Run(s, all);
            && Valid(u) && SameStake(t, u)
            && u.series == t.series.(collateral := u.series.collateral)
            && u.series.collateral <= Max(t.series.locked, Floor(t))
    decreases Run(s, ops).series.collateral - Run(s, ops).series.locked
  {
    var t := Run(s, ops);
    if t.series.collateral <= Max(t.series.locked, Floor(t)) {
      all := ops;
    } else {
      var user := PositiveEntry(t.principals);
      var amount := Min(t.principals[user], t.series.collateral - t.series.locked);
      var op := WithdrawOp(user, amount);
      WithdrawStep(t, user, amount);
      QuietStep(t, op);
      RunOneMore(s, ops, op);
      all := Drain(s, ops + [op]);
      assert all[..|ops|] == (ops + [op])[..|ops|];
      assert all[|ops|] == (ops + [op])[|ops|];
    }
  }

  // ---- One holder against the providers ----

  ghost predicate CanBeRefused(s: State, user: string)
  {
    exists ops :: AllQuiet(ops) && Refused(Run(s, ops), user)
  }

  function SettleLow(): Op
  {
    SettleOp(1, Active, 0, 0)
  }

  /** The state after settling at the lowest price. */
  lemma SettledLow(s: State)
    requires Valid(s)
    ensures var t := Run(s, [SettleLow()]);
            && Valid(t) && SameStake(s, t)
            && t.series == s.series.(settlementPrice := Some(1), status := Settled)
  {
    RunOneMore(s, [], SettleLow());
    QuietStep(s, SettleLow());
  }

  lemma RefusalHappens(s: State, user: string) returns (ops: seq<Op>)
    requires Valid(s) && !s.series.isCall
    requires Max(s.series.locked, Floor(s)) < Worst(s.series, PositionOf(s, user).size)
    ensures AllQuiet(ops) && Refused(Run(s, ops), user)
  {
    SettledLow(s);
    ops := Drain(s, [SettleLow()]);
    assert ops[0] == ops[..1][0];
    WorstRange(s.series, 0);
    LowRefused(Run(s, ops), user);
  }

  /** From any valid put state, whatever providers and operators do without a further
      purchase or exercise, a holder's exercise can be refused if and only if the
      locked collateral and the collateral that is not the providers' are both below
      the holder's payout at the lowest price. */
  lemma RefusalIff(s: State, user: string)
    requires Valid(s) && !s.series.isCall
    ensures CanBeRefused(s, user) <==>
            Max(s.series.locked, Floor(s)) < Worst(s.series, PositionOf(s, user).size)
  {
    if CanBeRefused(s, user) {
      var ops :| AllQuiet(ops) && Refused(Run(s, ops), user);
      QuietRun(s, ops);
      RefusedMeans(Run(s, ops), user);
    }
    if Max(s.series.locked, Floor(s)) < Worst(s.series, PositionOf(s, user).size) {
      var ops := RefusalHappens(s, user);
    }
  }

  // ---- After settlement at a given price ----

  /** Adds, removals and withdrawals only. */
  predicate AllLiquidity(ops: seq<Op>)
  {
    forall i :: 0 <= i < |ops| ==> ops[i].AddOp? || ops[i].RemoveOp? || ops[i].WithdrawOp?
  }

  lemma {:induction false} LiquidityRun(s: State, ops: seq<Op>)
    requires Valid(s) && AllLiquidity(ops)
    ensures Valid(Run(s, ops)) && SameStake(s, Run(s, ops))
    ensures Run(s, ops).series.status == s.series.status
    ensures Run(s, ops).series.settlementPrice == s.series.settlementPrice
    decreases |ops|
  {
    if ops != [] {
      LiquidityRun(s, ops[..|ops| - 1]);
      QuietStep(Run(s, ops[..|ops| - 1]), ops[|ops| - 1]);
    }
  }

  ghost predicate ProvidersCanRefuse(s: State, user: string)
  {
    exists ops :: AllLiquidity(ops) && Refused(Run(s, ops), user)
  }

  lemma PaidOrRefused(s: State, user: string)
    requires Valid(s) && s.series.status == Settled && s.series.settlementPrice.Some?
    ensures PayoutAt(s.series, PositionOf(s, user).size).Ok?
    ensures Refused(s, user) <==> s.series.collateral < PayoutAt(s.series, PositionOf(s, user).size).value
  {
    PayoutNonNegative(s.series, PositionOf(s, user).size);
    assert OptMul(0, 0) == 0;
  }

  /** Once a series is settled, call or put, some run of adds, removals and withdrawals
      refuses a holder if and only if the lock and the collateral that is not the
      providers' are both below the payout at the recorded price. */
  lemma SettledRefusalIff(s: State, user: string)
    requires Valid(s) && s.series.status == Settled && s.series.settlementPrice.Some?
    ensures PayoutAt(s.series, PositionOf(s, user).size).Ok?
    ensures ProvidersCanRefuse(s, user) <==>
            Max(s.series.locked, Floor(s)) < PayoutAt(s.series, PositionOf(s, user).size).value
  {
    PaidOrRefused(s, user);
    if ProvidersCanRefuse(s, user) {
      var ops :| AllLiquidity(ops) && Refused(Run(s, ops), user);
      SettledOnlyIf(s, ops, user);
    }
    if Max(s.series.locked, Floor(s)) < PayoutAt(s.series, PositionOf(s, user).size).value {
      var ops := SettledIf(s, user);
    }
  }

  lemma SettledOnlyIf(s: State, ops: seq<Op>, user: string)
    requires Valid(s) && s.series.status == Settled && s.series.settlementPrice.Some?
    requires AllLiquidity(ops) && Refused(Run(s, ops), user)
    ensures PayoutAt(s.series, PositionOf(s, user).size).Ok?
    ensures Max(s.series.locked, Floor(s)) < PayoutAt(s.series, PositionOf(s, user).size).value
  {
    LiquidityRun(s, ops);
    PaidOrRefused(Run(s, ops), user);
    PrincipalsHeld(Run(s, ops));
  }

  lemma SettledIf(s: State, user: string) returns (ops: seq<Op>)
    requires Valid(s) && s.series.status == Settled && s.series.settlementPrice.Some?
    requires PayoutAt(s.series, PositionOf(s, user).size).Ok?
    requires Max(s.series.locked, Floor(s)) < PayoutAt(s.series, PositionOf(s, user).size).value
    ensures AllLiquidity(ops) && Refused(Run(s, ops), user)
  {
    ops := Drain(s, []);
    PaidOrRefused(Run(s, ops), user);
  }

  // ---- In terms of a run ----

  lemma RefusalAt(s: State, user: string, bound: int)
    requires Valid(s) && !s.series.isCall && bound == Max(s.series.locked, Floor(s))
    ensures RefusedExactlyAbove(s, user, bound)
  {
    RefusalIff(s, user);
  }

  /** Some continuation without a purchase or an exercise refuses the holder if and only
      if the holder's payout at the lowest price exceeds the bound. */
  ghost predicate RefusedExactlyAbove(s: State, user: string, bound: int)
  {
    CanBeRefused(s, user) <==> bound < Worst(s.series, PositionOf(s, user).size)
  }

  lemma {:induction false} NothingPaidYet(s: State, ops: seq<Op>)
    requires ExerciseCount(s, ops) == 0
    ensures PaidOver(s, ops) == 0
    decreases |ops|
  {
    if ops != [] { NothingPaidYet(s, ops[..|ops| - 1]); }
  }

  /** What a run's own history says providers cannot take out: the requirement less the
      carries, or the premiums if they are more. */
  ghost function Unwithdrawable(s: State, ops: seq<Op>): int
  {
    Max(Total(Required(Run(s, ops))) - CarryCount(s, ops), Run(s, ops).series.premiumCollected)
  }

  lemma BeforeExercise(s: State, ops: seq<Op>)
    requires Genesis(s) && !s.series.isCall && ExerciseCount(s, ops) == 0
    ensures Valid(Run(s, ops)) && !Run(s, ops).series.isCall
    ensures Unwithdrawable(s, ops) == Max(Run(s, ops).series.locked, Floor(Run(s, ops)))
  {
    Accounting(s, ops);
    ShortfallBound(s, ops);
    NothingPaidYet(s, ops);
  }

  /** The same in terms of a run's own history, before the first exercise. */
  lemma CarriesDecide(s: State, ops: seq<Op>, user: string)
    requires Genesis(s) && !s.series.isCall && ExerciseCount(s, ops) == 0
    ensures RefusedExactlyAbove(Run(s, ops), user, Unwithdrawable(s, ops))
  {
    BeforeExercise(s, ops);
    RefusalAt(Run(s, ops), user, Unwithdrawable(s, ops));
  }

  // ---- All holders together ----

  ghost function Worsts(s: State): map<string, int>
  {
    map u | u in s.positions :: Worst(s.series, s.positions[u].size)
  }

  /** A holder who could be left unpaid: `floor` does not cover everybody's payout at the
      lowest price, `worst`, and more is missing from the lock than settling there
      leaves unspent of what this holder's position requires. */
  ghost predicate Exposed(worst: map<string, int>, required: map<string, int>, floor: int, short: int, user: string)
  {
    && user in worst && user in required && 0 < worst[user]
    && floor < Total(worst)
    && required[user] - worst[user] < short
  }

  ghost predicate AtRisk(s: State, user: string)
  {
    Exposed(Worsts(s), Required(s), Floor(s), Shortfall(s), user)
  }

  ghost predicate SomeoneCanBeRefused(s: State)
  {
    exists ops, user :: NoBuys(ops) && Refused(Run(s, ops), user)
  }

  lemma WorstsRange(s: State)
    requires Valid(s)
    ensures forall u :: u in s.positions ==> 0 <= Worsts(s)[u] <= Total(Worsts(s))
  {
    forall u | u in s.positions ensures 0 <= Worsts(s)[u] {
      WorstRange(s.series, s.positions[u].size);
    }
    TotalAtLeast(Worsts(s));
  }

  /** A holder not at risk is not refused. */
  lemma SafeNow(s: State, user: string)
    requires Valid(s) && !s.series.isCall && !AtRisk(s, user)
    ensures !Refused(s, user)
  {
    if Refused(s, user) {
      RefusedMeans(s, user);
      WorstsRange(s);
      RequiredRange(s);
    }
  }

  lemma ExerciseRows(s: State, user: string)
    requires Valid(s) && !s.series.isCall && Exercise(s, user).Commit?
    ensures var t := Exercise(s, user).state;
            && user in s.positions && PayoutAt(s.series, s.positions[user].size).Ok?
            && t.principals == s.principals
            && t.positions == s.positions[user := t.positions[user]] && t.positions[user].size == 0
            && t.series.collateral == s.series.collateral - PayoutAt(s.series, s.positions[user].size).value
            && t.series.strike == s.series.strike && t.series.isCall == s.series.isCall
            && t.series.status == s.series.status && t.series.settlementPrice == s.series.settlementPrice
            && (t.series.totalLongSize < s.series.totalLongSize || s.series.totalLongSize <= 0)
  {
  }

  /** What a committed exercise does to the quantities that decide the risk. */
  lemma ExerciseRisk(s: State, user: string)
    requires Valid(s) && !s.series.isCall && Exercise(s, user).Commit?
    ensures user in s.positions
    ensures var t := Exercise(s, user).state;
            Worsts(t) == Worsts(s)[user := 0]
  {
    ExerciseRows(s, user);
    WorstRange(s.series, 0);
    assert Worsts(Exercise(s, user).state) == Worsts(s)[user := 0];
  }

  lemma ExerciseFloor(s: State, user: string)
    requires Valid(s) && !s.series.isCall && Exercise(s, user).Commit?
    ensures user in s.positions
    ensures Floor(s) - Worsts(s)[user] <= Floor(Exercise(s, user).state) <= Floor(s)
    ensures s.series.settlementPrice == Some(1) ==> Floor(Exercise(s, user).state) == Floor(s) - Worsts(s)[user]
  {
    ExerciseRows(s, user);
    WorstPayout(s.series, s.positions[user].size);
  }

  /** All that matters of a committed exercise from `s` to `t`. */
  ghost predicate Exercised(s: State, t: State, user: string)
  {
    && user in s.positions && Valid(t) && t.series.isCall == s.series.isCall
    && t.series.status == s.series.status && t.series.settlementPrice == s.series.settlementPrice
    && Worsts(t) == Worsts(s)[user := 0] && Required(t) == Required(s)[user := 0]
    && Floor(s) - Worsts(s)[user] <= Floor(t) <= Floor(s)
    && (s.series.settlementPrice == Some(1) ==> Floor(t) == Floor(s) - Worsts(s)[user])
    && Shortfall(t) == Min(Shortfall(s), Total(Required(t)))
    && 0 <= t.series.totalLongSize < s.series.totalLongSize
  }

  lemma ExerciseFacts(s: State, user: string)
    requires Valid(s) && !s.series.isCall && Exercise(s, user).Commit?
    ensures Exercised(s, Exercise(s, user).state, user)
  {
    ApplyKeeps(s, ExerciseOp(user));
    ExerciseRows(s, user);
    ExerciseRisk(s, user);
    ExerciseFloor(s, user);
    ExerciseShortfall(s, ExerciseOp(user));
    RequiredAfter(s, user);
    LongShrinks(s, user);
  }

  lemma ExerciseSafe(s: State, t: State, other: string, user: string)
    requires !AtRisk(s, user) && Exercised(s, t, other)
    ensures !AtRisk(t, user)
  {
    SafeStays(Worsts(s), Required(s), Floor(s), Shortfall(s), Floor(s) - Floor(t), other, user);
  }

  /** No step but a purchase puts a holder at risk. */
  lemma RiskStep(s: State, op: Op, user: string)
    requires Valid(s) && !s.series.isCall && !op.BuyOp? && !AtRisk(s, user)
    ensures Valid(Apply(s, op)) && Apply(s, op).series.isCall == s.series.isCall
    ensures !AtRisk(Apply(s, op), user)
  {
    if Quiet(op) {
      QuietStep(s, op);
      var t := Apply(s, op);
      assert Worsts(t) == Worsts(s) && Required(t) == Required(s);
    } else if Attempted(s, op).Commit? {
      ExerciseFacts(s, op.user);
      ExerciseSafe(s, Apply(s, op), op.user, user);
    }
  }

  lemma RequiredAfter(s: State, user: string)
    requires Valid(s) && !s.series.isCall && Exercise(s, user).Commit?
    ensures user in s.positions
    ensures Required(Exercise(s, user).state) == Required(s)[user := 0]
  {
    ExerciseRows(s, user);
    assert OptMul(s.series.strike, 0) == 0;
  }

  lemma {:induction false} RiskRun(s: State, ops: seq<Op>, user: string)
    requires Valid(s) && !s.series.isCall && NoBuys(ops) && !AtRisk(s, user)
    ensures Valid(Run(s, ops)) && !Run(s, ops).series.isCall && !AtRisk(Run(s, ops), user)
    decreases |ops|
  {
    if ops != [] {
      RiskRun(s, ops[..|ops| - 1], user);
      RiskStep(Run(s, ops[..|ops| - 1]), ops[|ops| - 1], user);
    }
  }

  lemma TwoEntries(m: map<string, int>, u: string, v: string)
    requires u in m && v in m && u != v && forall k :: k in m ==> 0 <= m[k]
    ensures m[u] + m[v] <= Total(m)
  {
    TotalRemove(m, u);
    TotalAtLeast(m - {u});
    assert (m - {u})[v] == m[v];
  }

  lemma OnlyEntry(m: map<string, int>, v: string)
    requires v in m && forall k :: k in m && k != v ==> m[k] == 0
    ensures Total(m) == m[v]
  {
    TotalRemove(m, v);
    TotalOfZeros(m - {v});
  }

  /** Taking another position out, paid in full, leaves an exposed holder exposed. */
  lemma ExposedStays(worst: map<string, int>, required: map<string, int>, floor: int, short: int,
                     other: string, user: string)
    requires Exposed(worst, required, floor, short, user) && other != user
    requires worst.Keys == required.Keys && other in worst
    requires forall k :: k in required ==> 0 <= required[k]
    ensures Exposed(worst[other := 0], required[other := 0], floor - worst[other],
                    Min(short, Total(required[other := 0])), user)
  {
    TwoEntries(required, other, user);
    TotalUpdate(required, other, 0);
    TotalUpdate(worst, other, 0);
  }

  /** After settlement at the lowest price, another holder's exercise leaves a holder at
      risk at risk. */
  lemma RiskStays(s: State, t: State, other: string, user: string)
    requires Valid(s) && s.series.settlementPrice == Some(1)
    requires AtRisk(s, user) && other != user && Exercised(s, t, other)
    ensures AtRisk(t, user)
  {
    RequiredRange(s);
    ExposedStays(Worsts(s), Required(s), Floor(s), Shortfall(s), other, user);
  }

  /** Nor does taking a position out expose anybody. */
  lemma SafeStays(worst: map<string, int>, required: map<string, int>, floor: int, short: int,
                  paid: int, other: string, user: string)
    requires !Exposed(worst, required, floor, short, user)
    requires worst.Keys == required.Keys && other in worst && 0 <= paid <= worst[other]
    ensures !Exposed(worst[other := 0], required[other := 0], floor - paid,
                     Min(short, Total(required[other := 0])), user)
  {
    TotalUpdate(worst, other, 0);
  }

  /** With every other position gone, a holder at risk is owed more than the lock and
      the floor. */
  lemma LastExposed(s: State, user: string)
    requires Valid(s) && AtRisk(s, user)
    requires forall u :: u in s.positions && u != user ==> s.positions[u].size <= 0
    ensures user in s.positions
    ensures Max(s.series.locked, Floor(s)) < Worsts(s)[user]
  {
    WorstRange(s.series, 0);
    assert OptMul(s.series.strike, 0) == 0;
    OnlyEntry(Required(s), user);
    OnlyEntry(Worsts(s), user);
  }

  /** Then the holder is refused once the providers have left. */
  lemma LastRefused(s: State, ops: seq<Op>, user: string) returns (all: seq<Op>)
    requires NoBuys(ops) && Valid(Run(s, ops)) && !Run(s, ops).series.isCall
    requires Run(s, ops).series.status == Settled && Run(s, ops).series.settlementPrice == Some(1)
    requires user in Run(s, ops).positions
    requires Max(Run(s, ops).series.locked, Floor(Run(s, ops))) < Worsts(Run(s, ops))[user]
    ensures NoBuys(all) && Refused(Run(s, all), user)
  {
    all := Drain(s, ops);
    forall i | 0 <= i < |all| ensures !all[i].BuyOp? {
      if i < |ops| { assert all[i] == all[..|ops|][i]; }
    }
    LowRefused(Run(s, all), user);
  }

  lemma LowRefused(s: State, user: string)
    requires Valid(s) && !s.series.isCall && s.series.status == Settled && s.series.settlementPrice == Some(1)
    requires user in s.positions && s.series.collateral < Worst(s.series, s.positions[user].size)
    ensures Refused(s, user)
  {
    WorstPayout(s.series, s.positions[user].size);
    WorstRange(s.series, 0);
  }

  lemma LongShrinks(s: State, user: string)
    requires Valid(s) && !s.series.isCall && Exercise(s, user).Commit?
    ensures 0 <= Exercise(s, user).state.series.totalLongSize < s.series.totalLongSize
  {
    ExerciseRows(s, user);
    ApplyKeeps(s, ExerciseOp(user));
    TotalAtLeast(Sizes(s));
    TotalAtLeast(Sizes(Exercise(s, user).state));
    assert Sizes(s)[user] == s.positions[user].size;
  }

  /** One exercise on the way. */
  lemma OthersStep(s: State, ops: seq<Op>, other: string, user: string)
    requires Valid(Run(s, ops)) && !Run(s, ops).series.isCall
    requires Run(s, ops).series.status == Settled && Run(s, ops).series.settlementPrice == Some(1)
    requires AtRisk(Run(s, ops), user) && other != user && Exercise(Run(s, ops), other).Commit?
    ensures var t, u := Run(s, ops), Run(s, ops + [ExerciseOp(other)]);
            && Valid(u) && !u.series.isCall && u.series.status == Settled && u.series.settlementPrice == Some(1)
            && AtRisk(u, user) && 0 <= u.series.totalLongSize < t.series.totalLongSize
  {
    var t := Run(s, ops);
    RunOneMore(s, ops, ExerciseOp(other));
    ExerciseFacts(t, other);
    RiskStays(t, Exercise(t, other).state, other, user);
  }

  lemma OtherOutcome(s: State, user: string)
    requires Valid(s) && !s.series.isCall && s.series.status == Settled && s.series.settlementPrice == Some(1)
    requires user in s.positions && 0 < s.positions[user].size
    ensures Exercise(s, user).Commit? || Refused(s, user)
  {
    WorstPayout(s.series, s.positions[user].size);
  }

  /** The others exercise one by one; somebody ends up refused. */
  lemma {:induction false} SomeoneRefused(s: State, ops: seq<Op>, user: string) returns (all: seq<Op>, who: string)
    requires NoBuys(ops) && Valid(Run(s, ops)) && !Run(s, ops).series.isCall
    requires Run(s, ops).series.status == Settled && Run(s, ops).series.settlementPrice == Some(1)
    requires AtRisk(Run(s, ops), user)
    ensures NoBuys(all) && Refused(Run(s, all), who)
    decreases Run(s, ops).series.totalLongSize
  {
    var t := Run(s, ops);
    if other :| other in t.positions && other != user && 0 < t.positions[other].size {
      OtherOutcome(t, other);
      if Refused(t, other) {
        all, who := ops, other;
      } else {
        OthersStep(s, ops, other, user);
        all, who := SomeoneRefused(s, ops + [ExerciseOp(other)], user);
      }
    } else {
      LastExposed(t, user);
      all := LastRefused(s, ops, user);
      who := user;
    }
  }

  lemma RiskHappens(s: State, user: string) returns (ops: seq<Op>, who: string)
    requires Valid(s) && !s.series.isCall && AtRisk(s, user)
    ensures NoBuys(ops) && Refused(Run(s, ops), who)
  {
    SettledLow(s);
    var t := Run(s, [SettleLow()]);
    assert Worsts(t) == Worsts(s) && Required(t) == Required(s);
    ops, who := SomeoneRefused(s, [SettleLow()], user);
  }

  /** From any valid put state, some continuation without a further purchase refuses some
      holder if and only if some holder is at risk now. Whether one is, a reader of
      the rows can tell beforehand. */
  lemma CoverIff(s: State)
    requires Valid(s) && !s.series.isCall
    ensures SomeoneCanBeRefused(s) <==> exists user :: AtRisk(s, user)
  {
    if SomeoneCanBeRefused(s) {
      var ops, who :| NoBuys(ops) && Refused(Run(s, ops), who);
      if !AtRisk(s, who) {
        RiskRun(s, ops, who);
        SafeNow(Run(s, ops), who);
      }
    }
    if user :| AtRisk(s, user) {
      var ops, who := RiskHappens(s, user);
    }
  }

  /** Only a carry puts anybody at risk: in every reachable state where someone can be
      refused, a purchase has carried and the lock is short. */
  lemma RiskNeedsCarry(s: State, ops: seq<Op>)
    requires Genesis(s) && !s.series.isCall && SomeoneCanBeRefused(Run(s, ops))
    ensures 0 < Shortfall(Run(s, ops)) <= CarryCount(s, ops)
  {
    var t := Run(s, ops);
    Accounting(s, ops);
    ShortfallBound(s, ops);
    CoverIff(t);
    var user :| AtRisk(t, user);
    WorstRange(t.series, t.positions[user].size);
  }
}
