/** The collateralised option pool of backend/services/option_service.go: one series
    with its positions, liquidity and ledger, each transaction an atomic step. Reads
    a handler makes before its transaction are passed in as what it saw then. */
module OptionPool {
  import opened Outcomes
  import opened Sums
  import opened Ledgers
  import opened FixedPoint
  import opened OptionLn
  import opened OptionPricing

  const RISK_FREE_RATE: int := 50_000_000_000_000_000
  const MAX_IV: int := 5_000_000_000_000_000_000
  const SKEW: int := 2_000_000_000_000_000_000

  datatype Status = Active | Paused | Expired | Settled

  datatype Series = Series(
    chain: int,
    token: string,
    strike: int,
    isCall: bool,
    baseIV: int,
    markPrice: int,
    expiry: int,
    status: Status,
    collateral: int,
    locked: int,
    premiumCollected: int,
    totalLongSize: int,
    settlementPrice: Option<int>)

  datatype Position = Position(size: int, premiumPaid: int, claimedPayout: int)

  datatype State = State(
    series: Series,
    positions: map<string, Position>,
    principals: map<string, int>,
    balances: Balances)

  datatype PoolError =
    | BadRequest
    | AlreadySettled
    | NotOpen
    | NotExpired
    | PremiumZero
    | PremiumAboveLimit
    | InsufficientPool
    | CollateralLocked
    | CollateralReserved
    | NoLiquidity
    | ExceedsPrincipal
    | NoPosition
    | NotSettled
    | PoolCannotCover
    | StillOpen
    | Pricing(mathError: MathError)
    | Money(cause: LedgerError)

  /** The columns of a series row that can change, as some earlier read saw them. */
  datatype SnapshotRow = SnapshotRow(
    status: Status, baseIV: int, markPrice: int, expiry: int, collateral: int, locked: int)

  /** Every stored mark price was validated as positive. */
  type Snapshot = x: SnapshotRow | 0 < x.markPrice witness SnapshotRow(Paused, 1, 1, 0, 0, 0)

  /** The earlier row: strike, side and token never change. */
  function SeenAs(series: Series, seen: Snapshot): Series
  {
    series.(status := seen.status, baseIV := seen.baseIV, markPrice := seen.markPrice,
            expiry := seen.expiry, collateral := seen.collateral, locked := seen.locked)
  }

  // ---- Pricing ----

  function ImpliedVolatility(series: Series): int
  {
    if series.collateral == 0 then series.baseIV else
      var raw := Quo(series.locked * WAD, series.collateral);
      var utilization := if WAD < raw then WAD else raw;
      var iv := series.baseIV + Quo(SKEW * utilization, WAD);
      if MAX_IV < iv then MAX_IV else iv
  }

  /** The price of one unit; an expired series quotes nothing. */
  function UnitPrice(series: Series, now: int): Result<int, PoolError>
  {
    if series.status == Settled then Err(AlreadySettled)
    else if series.expiry <= now then Ok(0)
    else
      match BlackScholes(series.markPrice, series.strike, Quo(series.expiry - now, SECOND), RISK_FREE_RATE,
                         ImpliedVolatility(series), series.isCall)
      case Err(e) => Err(Pricing(e))
      case Ok(unit) => Ok(unit)
  }

  function Premium(series: Series, size: int, now: int): Result<int, PoolError>
  {
    match UnitPrice(series, now)
    case Err(e) => Err(e)
    case Ok(unit) => Ok(OptMul(unit, size))
  }

  function RequiredCollateral(series: Series, size: int): int
  {
    OptMul(if series.isCall then series.markPrice else series.strike, size)
  }

  function PayoutAt(series: Series, size: int): Result<int, PoolError>
  {
    match series.settlementPrice
    case None => Err(NotSettled)
    case Some(price) =>
      var perUnit := if series.isCall then price - series.strike else series.strike - price;
      Ok(OptMul(if perUnit < 0 then 0 else perUnit, size))
  }

  lemma UnitWithinLock(series: Series, now: int)
    requires 0 < series.markPrice && 0 < series.strike && UnitPrice(series, now).Ok?
    ensures 0 <= UnitPrice(series, now).value <= if series.isCall then series.markPrice else series.strike
  {
    if now < series.expiry {
      NoArbitrage(series.markPrice, series.strike, Quo(series.expiry - now, SECOND), RISK_FREE_RATE,
                  ImpliedVolatility(series), series.isCall);
    }
  }

  /** The premium quoted for any size never exceeds the collateral locked for it, when
      both are read from one row. */
  lemma PremiumWithinLock(series: Series, size: int, now: int)
    requires 0 <= size && 0 < series.markPrice && 0 < series.strike
    requires Premium(series, size, now).Ok?
    ensures 0 <= Premium(series, size, now).value <= RequiredCollateral(series, size)
  {
    UnitWithinLock(series, now);
    OptMulMono(UnitPrice(series, now).value, if series.isCall then series.markPrice else series.strike, size, size);
  }

  // ---- Transactions ----

  function Vault(s: State, user: string): Account
  {
    Account(user, s.series.chain, s.series.token)
  }

  function Principal(s: State, user: string): int
  {
    if user in s.principals then s.principals[user] else 0
  }

  function PositionOf(s: State, user: string): Position
  {
    if user in s.positions then s.positions[user] else Position(0, 0, 0)
  }

  function AddCollateral(s: State, user: string, amount: int): Attempt<State, PoolError>
  {
    if amount <= 0 then Abort(BadRequest)
    else if s.series.status == Settled then Abort(NotOpen)
    else
      match Debit(s.balances, Vault(s, user), amount)
      case Abort(e) => Abort(Money(e))
      case Commit(balances) =>
        Commit(s.(series := s.series.(collateral := s.series.collateral + amount),
                  principals := s.principals[user := Principal(s, user) + amount],
                  balances := balances))
  }

  function Pay(s: State, user: string, amount: int): Attempt<State, PoolError>
  {
    match Credit(s.balances, Vault(s, user), amount)
    case Abort(e) => Abort(Money(e))
    case Commit(balances) => Commit(s.(balances := balances))
  }

  function TakeOut(s: State, user: string, amount: int): Attempt<State, PoolError>
  {
    if user !in s.principals then Abort(NoLiquidity)
    else if s.principals[user] < amount then Abort(ExceedsPrincipal)
    else Pay(s.(series := s.series.(collateral := s.series.collateral - amount),
                principals := s.principals[user := s.principals[user] - amount]), user, amount)
  }

  /** The settled check is made on the earlier read only; the transaction repeats the
      free-collateral check under lock. */
  function RemoveCollateral(s: State, user: string, amount: int, seen: Status): Attempt<State, PoolError>
  {
    if amount <= 0 then Abort(BadRequest)
    else if seen == Settled then Abort(AlreadySettled)
    else
      var free := s.series.collateral - s.series.locked;
      if (if free < 0 then 0 else free) < amount then Abort(CollateralLocked)
      else TakeOut(s, user, amount)
  }

  function Buy(s: State, user: string, size: int, maxPremium: int, seen: Snapshot, now: int, commitNow: int)
    : Attempt<State, PoolError>
  {
    if size <= 0 || maxPremium <= 0 then Abort(BadRequest)
    else if seen.status != Active || seen.expiry <= now then Abort(NotOpen)
    else
      match Premium(SeenAs(s.series, seen), size, now)
      case Err(e) => Abort(e)
      case Ok(premium) =>
        if premium <= 0 then Abort(PremiumZero)
        else if maxPremium < premium then Abort(PremiumAboveLimit)
        else Underwrite(s, user, size, premium, RequiredCollateral(SeenAs(s.series, seen), size), commitNow)
  }

  /** The transaction part of a purchase. */
  function Underwrite(s: State, user: string, size: int, premium: int, lock: int, commitNow: int)
    : Attempt<State, PoolError>
  {
    if s.series.status != Active || s.series.expiry <= commitNow then Abort(NotOpen)
    else if s.series.collateral < s.series.locked + lock then Abort(InsufficientPool)
    else
      match Debit(s.balances, Vault(s, user), premium)
      case Abort(e) => Abort(Money(e))
      case Commit(balances) =>
        var p := PositionOf(s, user);
        Commit(s.(series := s.series.(collateral := s.series.collateral + premium,
                                      locked := s.series.locked + lock,
                                      premiumCollected := s.series.premiumCollected + premium,
                                      totalLongSize := s.series.totalLongSize + size),
                  positions := s.positions[user := p.(size := p.size + size, premiumPaid := p.premiumPaid + premium)],
                  balances := balances))
  }

  /** The status check is made on an earlier read; the write is unconditional. */
  function SettleSeries(s: State, price: int, seen: Status, seenExpiry: int, now: int): Attempt<State, PoolError>
  {
    if price <= 0 then Abort(BadRequest)
    else if seen == Settled then Abort(AlreadySettled)
    else if now < seenExpiry then Abort(NotExpired)
    else Commit(s.(series := s.series.(settlementPrice := Some(price), status := Settled)))
  }

  function Exercise(s: State, user: string): Attempt<State, PoolError>
  {
    if s.series.status != Settled then Abort(NotOpen)
    else if user !in s.positions || s.positions[user].size <= 0 then Abort(NoPosition)
    else
      var size := s.positions[user].size;
      match PayoutAt(s.series, size)
      case Err(e) => Abort(e)
      case Ok(payout) =>
        if s.series.collateral < payout then Abort(PoolCannotCover)
        else
          var t := Release(s, user, size, payout);
          if 0 < payout then Pay(t, user, payout) else Commit(t)
  }

  /** The series once a position of `size` is gone and `payout` has left the pool; the
      lock never exceeds what remains. */
  function Released(series: Series, size: int, payout: int): Series
  {
    var collateral := series.collateral - payout;
    var freed := series.locked - RequiredCollateral(series, size);
    var locked := if freed < 0 then 0 else freed;
    var long := series.totalLongSize - size;
    series.(collateral := collateral,
            locked := if collateral < locked then collateral else locked,
            totalLongSize := if long < 0 then 0 else long)
  }

  /** Zeroes the position, releases its lock and shrinks the pool. */
  function Release(s: State, user: string, size: int, payout: int): State
    requires user in s.positions
  {
    s.(series := Released(s.series, size, payout),
       positions := s.positions[user := s.positions[user].(size := 0, claimedPayout := payout)])
  }

  function WithdrawLiquidity(s: State, user: string, amount: int): Attempt<State, PoolError>
  {
    if amount <= 0 then Abort(BadRequest)
    else if s.series.status != Settled then Abort(NotOpen)
    else
      var claimable := s.series.collateral;
      var reserved := if claimable < s.series.locked then claimable else s.series.locked;
      if claimable - reserved < amount then Abort(CollateralReserved)
      else TakeOut(s, user, amount)
  }

  /** An operator edit. The status check is made on an earlier read, so an edit may
      land after a settlement. */
  function UpdateSeries(s: State, seen: Status, baseIV: Option<int>, markPrice: Option<int>,
                        expiry: Option<int>, status: Option<Status>, now: int): Attempt<State, PoolError>
  {
    if seen == Settled then Abort(AlreadySettled)
    else if baseIV.Some? && (baseIV.value <= 0 || MAX_IV < baseIV.value) then Abort(BadRequest)
    else if markPrice.Some? && markPrice.value <= 0 then Abort(BadRequest)
    else if expiry.Some? && expiry.value <= now then Abort(BadRequest)
    else if status == Some(Settled) then Abort(BadRequest)
    else if baseIV.None? && markPrice.None? && expiry.None? && status.None? then Abort(BadRequest)
    else
      Commit(s.(series := s.series.(
                  baseIV := if baseIV.Some? then baseIV.value else s.series.baseIV,
                  markPrice := if markPrice.Some? then markPrice.value else s.series.markPrice,
                  expiry := if expiry.Some? then expiry.value else s.series.expiry,
                  status := if status.Some? then status.value else s.series.status)))
  }

  /** DeleteSeries only retires the series, on an earlier read of its totals. */
  function CloseSeries(s: State, seenLong: int, seenCollateral: int): Attempt<State, PoolError>
  {
    if 0 < seenLong || 0 < seenCollateral then Abort(StillOpen)
    else Commit(s.(series := s.series.(status := Expired)))
  }

  // ---- Runs ----

  datatype Op =
    | AddOp(user: string, amount: int)
    | RemoveOp(user: string, amount: int, seen: Status)
    | BuyOp(user: string, size: int, maxPremium: int, quote: Snapshot, now: int, commitNow: int)
    | SettleOp(price: int, seen: Status, seenExpiry: int, now: int)
    | ExerciseOp(user: string)
    | WithdrawOp(user: string, amount: int)
    | UpdateOp(seen: Status, baseIV: Option<int>, markPrice: Option<int>, expiry: Option<int>,
               status: Option<Status>, now: int)
    | CloseOp(seenLong: int, seenCollateral: int)

  function Attempted(s: State, op: Op): Attempt<State, PoolError>
  {
    match op
    case AddOp(u, a) => AddCollateral(s, u, a)
    case RemoveOp(u, a, seen) => RemoveCollateral(s, u, a, seen)
    case BuyOp(u, size, limit, quote, now, commitNow) => Buy(s, u, size, limit, quote, now, commitNow)
    case SettleOp(price, seen, e, now) => SettleSeries(s, price, seen, e, now)
    case ExerciseOp(u) => Exercise(s, u)
    case WithdrawOp(u, a) => WithdrawLiquidity(s, u, a)
    case UpdateOp(seen, iv, mark, e, st, now) => UpdateSeries(s, seen, iv, mark, e, st, now)
    case CloseOp(long, c) => CloseSeries(s, long, c)
  }

  function Apply(s: State, op: Op): State
  {
    var r := Attempted(s, op);
    if r.Commit? then r.state else s
  }

  function Run(s: State, ops: seq<Op>): State
  {
    if ops == [] then s else Apply(Run(s, ops[..|ops| - 1]), ops[|ops| - 1])
  }

  /** A series as created, in any status: no collateral, no positions. */
  ghost predicate Genesis(s: State)
  {
    && 0 < s.series.strike && 0 < s.series.markPrice
    && s.series.collateral == s.series.locked == s.series.premiumCollected == s.series.totalLongSize == 0
    && s.series.settlementPrice == None
    && s.positions == map[] && s.principals == map[]
    && NonNegative(s.balances)
  }

  ghost function Sizes(s: State): map<string, int>
  {
    map u | u in s.positions :: s.positions[u].size
  }

  /** What every reachable state satisfies: locked collateral is held, the long total
      is the sum of the positions, nothing is negative, and a settled series without a
      price was created so and has no positions. */
  ghost predicate Valid(s: State)
  {
    && 0 < s.series.strike && 0 < s.series.markPrice
    && 0 <= s.series.locked <= s.series.collateral
    && 0 <= s.series.premiumCollected
    && (s.series.settlementPrice.Some? ==> 0 < s.series.settlementPrice.value)
    && (s.series.status == Settled && s.series.settlementPrice.None? ==> s.positions == map[])
    && (forall u :: u in s.positions ==> 0 <= s.positions[u].size)
    && (forall u :: u in s.principals ==> 0 <= s.principals[u])
    && s.series.totalLongSize == Total(Sizes(s))
    && NonNegative(s.balances)
  }

  /** What one step pays an exerciser. */
  function PaidIn(s: State, op: Op): int
  {
    if op.ExerciseOp? then s.series.collateral - Apply(s, op).series.collateral else 0
  }

  ghost function PaidOver(s: State, ops: seq<Op>): int
  {
    if ops == [] then 0 else
      PaidOver(s, ops[..|ops| - 1]) + PaidIn(Run(s, ops[..|ops| - 1]), ops[|ops| - 1])
  }

  ghost function Supply(s: State): int
  {
    AssetTotal(s.balances, s.series.chain, s.series.token) + s.series.collateral
  }

  /** Collateral on top of what liquidity providers and buyers put in. */
  ghost function Surplus(s: State): int
  {
    s.series.collateral - Total(s.principals) - s.series.premiumCollected
  }

  /** What one committed step may and must do. */
  ghost predicate StepKeeps(s: State, op: Op, t: State)
  {
    && Valid(t)
    && Supply(t) == Supply(s)
    && t.series.chain == s.series.chain && t.series.token == s.series.token
    && t.series.strike == s.series.strike && t.series.isCall == s.series.isCall
    && Surplus(t) == Surplus(s) - PaidIn(s, op)
    && 0 <= PaidIn(s, op)
  }

  lemma AddKeeps(s: State, op: Op)
    requires Valid(s) && op.AddOp? && Attempted(s, op).Commit?
    ensures StepKeeps(s, op, Apply(s, op))
  {
    DebitMoves(s.balances, Vault(s, op.user), op.amount, s.series.chain, s.series.token);
    TotalUpdate(s.principals, op.user, Principal(s, op.user) + op.amount);
    assert Sizes(Apply(s, op)) == Sizes(s);
  }

  lemma TakeOutKeeps(s: State, op: Op, user: string, amount: int)
    requires Valid(s) && !op.ExerciseOp? && 0 < amount <= s.series.collateral - s.series.locked
    requires TakeOut(s, user, amount).Commit?
    ensures StepKeeps(s, op, TakeOut(s, user, amount).state)
  {
    CreditMoves(s.balances, Vault(s, user), amount, s.series.chain, s.series.token);
    TotalUpdate(s.principals, user, s.principals[user] - amount);
    assert Sizes(TakeOut(s, user, amount).state) == Sizes(s);
  }

  lemma RequiredNonNegative(series: Series, size: int)
    requires 0 < series.strike && 0 < series.markPrice && 0 <= size
    ensures 0 <= RequiredCollateral(series, size)
  {
    var perUnit := if series.isCall then series.markPrice else series.strike;
    OptMulMono(0, perUnit, size, size);
  }

  lemma UnderwriteLong(s: State, user: string, size: int, premium: int, lock: int, commitNow: int)
    requires Valid(s) && 0 < size
    requires Underwrite(s, user, size, premium, lock, commitNow).Commit?
    ensures var t := Underwrite(s, user, size, premium, lock, commitNow).state;
            t.series.totalLongSize == Total(Sizes(t))
  {
    var t := Underwrite(s, user, size, premium, lock, commitNow).state;
    var held := PositionOf(s, user).size + size;
    assert Sizes(t) == Sizes(s)[user := held];
    TotalUpdate(Sizes(s), user, held);
  }

  lemma UnderwriteKeeps(s: State, op: Op, user: string, size: int, premium: int, lock: int, commitNow: int)
    requires Valid(s) && !op.ExerciseOp? && 0 < size && 0 <= lock
    requires Underwrite(s, user, size, premium, lock, commitNow).Commit?
    ensures StepKeeps(s, op, Underwrite(s, user, size, premium, lock, commitNow).state)
  {
    DebitMoves(s.balances, Vault(s, user), premium, s.series.chain, s.series.token);
    UnderwriteLong(s, user, size, premium, lock, commitNow);
  }

  /** A committed purchase is its transaction on the quoted premium and lock. */
  lemma BuyIs(s: State, op: Op)
    requires op.BuyOp? && Attempted(s, op).Commit?
    ensures var seen := SeenAs(s.series, op.quote);
            && 0 < op.size
            && Premium(seen, op.size, op.now).Ok? && 0 < Premium(seen, op.size, op.now).value
            && Attempted(s, op) == Underwrite(s, op.user, op.size, Premium(seen, op.size, op.now).value,
                                              RequiredCollateral(seen, op.size), op.commitNow)
  {
  }

  lemma BuyKeeps(s: State, op: Op)
    requires Valid(s) && op.BuyOp? && Attempted(s, op).Commit?
    ensures StepKeeps(s, op, Apply(s, op))
  {
    BuyIs(s, op);
    var seen := SeenAs(s.series, op.quote);
    RequiredNonNegative(seen, op.size);
    UnderwriteKeeps(s, op, op.user, op.size, Premium(seen, op.size, op.now).value,
                    RequiredCollateral(seen, op.size), op.commitNow);
  }

  lemma PayoutNonNegative(series: Series, size: int)
    requires 0 <= size && PayoutAt(series, size).Ok?
    ensures 0 <= PayoutAt(series, size).value
  {
    var price := series.settlementPrice.value;
    var perUnit := if series.isCall then price - series.strike else series.strike - price;
    OptMulMono(0, if perUnit < 0 then 0 else perUnit, size, size);
  }

  lemma ExerciseKeeps(s: State, op: Op)
    requires Valid(s) && op.ExerciseOp? && Attempted(s, op).Commit?
    ensures StepKeeps(s, op, Apply(s, op))
    ensures PaidIn(s, op) == PayoutAt(s.series, s.positions[op.user].size).value
  {
    var size := s.positions[op.user].size;
    var payout := PayoutAt(s.series, size).value;
    PayoutNonNegative(s.series, size);
    RequiredNonNegative(s.series, size);
    var t := Release(s, op.user, size, payout);
    assert Sizes(t) == Sizes(s)[op.user := 0];
    TotalUpdate(Sizes(s), op.user, 0);
    TotalAtLeast(Sizes(t));
    if 0 < payout {
      CreditMoves(s.balances, Vault(s, op.user), payout, s.series.chain, s.series.token);
    }
    assert Sizes(Apply(s, op)) == Sizes(t);
  }

  lemma ApplyKeeps(s: State, op: Op)
    requires Valid(s)
    ensures StepKeeps(s, op, Apply(s, op))
  {
    if Attempted(s, op).Commit? {
      match op
      case AddOp(u, a) => AddKeeps(s, op);
      case RemoveOp(u, a, seen) => TakeOutKeeps(s, op, u, a);
      case BuyOp(_, _, _, _, _, _) => BuyKeeps(s, op);
      case ExerciseOp(_) => ExerciseKeeps(s, op);
      case WithdrawOp(u, a) => TakeOutKeeps(s, op, u, a);
      case SettleOp(_, _, _, _) => assert Sizes(Apply(s, op)) == Sizes(s);
      case UpdateOp(_, _, _, _, _, _) => assert Sizes(Apply(s, op)) == Sizes(s);
      case CloseOp(_, _) => assert Sizes(Apply(s, op)) == Sizes(s);
    }
  }

  /** The accounting identity in every reachable state: collateral plus everything
      paid out is what liquidity providers still have in plus every premium; locked
      collateral is held; the long total is the sum of the positions; and ledger plus
      pool never changes. */
  lemma {:induction false} Accounting(s: State, ops: seq<Op>)
    requires Genesis(s)
    ensures var t := Run(s, ops);
            && Valid(t)
            && t.series.collateral + PaidOver(s, ops) == Total(t.principals) + t.series.premiumCollected
            && 0 <= PaidOver(s, ops)
            && Supply(t) == Supply(s)
            && t.series.strike == s.series.strike && t.series.isCall == s.series.isCall
            && t.series.chain == s.series.chain && t.series.token == s.series.token
    decreases |ops|
  {
    if ops == [] {
      assert Sizes(s) == map[];
    } else {
      var front := ops[..|ops| - 1];
      Accounting(s, front);
      ApplyKeeps(Run(s, front), ops[|ops| - 1]);
    }
  }

  /** Liquidity providers can never take out the premiums: what remains in the pool
      is always at least the premiums collected less the payouts made. */
  lemma PremiumsStay(s: State, ops: seq<Op>)
    requires Genesis(s)
    ensures var t := Run(s, ops);
            t.series.premiumCollected - PaidOver(s, ops) <= t.series.collateral
  {
    Accounting(s, ops);
    TotalAtLeast(Run(s, ops).principals);
  }

  // ---- Single transactions ----

  /** Utilisation only raises volatility, from its base to at most two points above it,
      and never past the ceiling. */
  lemma VolatilityRises(series: Series, locked: int)
    requires 0 <= series.locked <= locked <= series.collateral && series.baseIV <= MAX_IV
    ensures var low, high := ImpliedVolatility(series), ImpliedVolatility(series.(locked := locked));
            series.baseIV <= low <= high <= MAX_IV && high <= series.baseIV + SKEW
  {
    if series.collateral != 0 {
      var u := Quo(series.locked * WAD, series.collateral);
      var v := Quo(locked * WAD, series.collateral);
      FloorMono(0, series.locked * WAD, series.collateral);
      FloorMono(series.locked * WAD, locked * WAD, series.collateral);
      FloorMono(locked * WAD, series.collateral * WAD, series.collateral);
      FloorExact(WAD, series.collateral);
      assert 0 <= u <= v <= WAD;
      FloorMono(0, SKEW * u, WAD);
      FloorMono(SKEW * u, SKEW * v, WAD);
      FloorMono(SKEW * v, SKEW * WAD, WAD);
      FloorExact(SKEW, WAD);
    }
  }

  lemma NegatedProduct(d: int, size: int)
    ensures OptMul(-d, size) == -OptMul(d, size) && OptMul(0, size) == 0
  {
    assert (-d) * size == -(d * size);
  }

  /** At settlement a call and a put on the same terms differ by exactly the forward,
      and at most one of them pays. */
  lemma PayoutParity(series: Series, price: int, size: int)
    ensures var settled := series.(settlementPrice := Some(price));
            var call, put := PayoutAt(settled.(isCall := true), size), PayoutAt(settled.(isCall := false), size);
            && call.Ok? && put.Ok? && (call.value == 0 || put.value == 0)
            && call.value - put.value == OptMul(price - series.strike, size)
  {
    NegatedProduct(price - series.strike, size);
  }

  /** Taking back at once what one put in restores the pool and every balance. */
  lemma RemoveUndoesAdd(s: State, user: string, amount: int, seen: Status)
    requires Valid(s) && seen != Settled && AddCollateral(s, user, amount).Commit?
    ensures var r := RemoveCollateral(AddCollateral(s, user, amount).state, user, amount, seen);
            && r.Commit? && r.state.series == s.series && r.state.positions == s.positions
            && (forall u :: Principal(r.state, u) == Principal(s, u))
            && (forall a :: Available(r.state.balances, a) == Available(s.balances, a))
  {
    assert Principal(s, user) >= 0;
  }

  /** An exercise pays its own holder once: the payout, no other balance or position,
      and nothing on a second try. */
  lemma ExercisedOnce(s: State, user: string)
    requires Valid(s) && Exercise(s, user).Commit?
    ensures var t := Exercise(s, user).state;
            && user in s.positions && PayoutAt(s.series, s.positions[user].size).Ok?
            && (forall a :: Available(t.balances, a) == Available(s.balances, a) +
                  if a == Vault(s, user) then PayoutAt(s.series, s.positions[user].size).value else 0)
            && t.positions.Keys == s.positions.Keys
            && (forall u :: u in s.positions && u != user ==> t.positions[u] == s.positions[u])
            && Exercise(t, user) == Abort(NoPosition)
  {
    PayoutNonNegative(s.series, s.positions[user].size);
  }
}
