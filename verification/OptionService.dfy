/** The option handlers in place: each transaction updates the series row, then the
    caller's own row, then the ledger or the other way about, and undoes all of it
    when a step fails. */
module OptionService {
  import opened Outcomes
  import opened Ledgers
  import opened OptionPool

  class Service {
    const ledger: Ledger
    var series: Series
    var positions: map<string, Position>
    var principals: map<string, int>

    constructor (ledger: Ledger, series: Series)
      ensures this.ledger == ledger
      ensures Rows() == State(series, map[], map[], ledger.available)
    {
      this.ledger := ledger;
      this.series := series;
      this.positions := map[];
      this.principals := map[];
    }

    function Rows(): State
      reads this, ledger
    {
      State(series, positions, principals, ledger.available)
    }

    method RollBack(saved: State)
      modifies this, ledger
      ensures Rows() == saved
    {
      series, positions, principals := saved.series, saved.positions, saved.principals;
      ledger.available := saved.balances;
    }

    /** The end of a transaction: kept if its last ledger step passed, undone otherwise. */
    method Finish(saved: State, paid: Outcome<LedgerError>) returns (r: Outcome<PoolError>)
      modifies this, ledger
      ensures paid.Pass? ==> r == Pass && Rows() == old(Rows())
      ensures paid.Fail? ==> r == Fail(Money(paid.error)) && Rows() == saved
    {
      if paid.Fail? {
        RollBack(saved);
        return Fail(Money(paid.error));
      }
      r := Pass;
    }

    method UpsertLiquidity(user: string, amount: int)
      modifies this`principals
      ensures principals == old(principals)[user := Principal(old(Rows()), user) + amount]
    {
      if user !in principals {
        principals := principals[user := amount];
        return;
      }
      principals := principals[user := principals[user] + amount];
    }

    method UpsertPosition(user: string, size: int, premium: int)
      modifies this`positions
      ensures var p := PositionOf(old(Rows()), user);
              positions == old(positions)[user :=
                p.(size := p.size + size, premiumPaid := p.premiumPaid + premium)]
    {
      if user !in positions {
        positions := positions[user := Position(size, premium, 0)];
        return;
      }
      var p := positions[user];
      positions := positions[user := p.(size := p.size + size, premiumPaid := p.premiumPaid + premium)];
    }

    method AddCollateral(user: string, amount: int) returns (r: Outcome<PoolError>)
      modifies this, ledger
      ensures Follows(OptionPool.AddCollateral(old(Rows()), user, amount), old(Rows()), r, Rows())
    {
      if amount <= 0 {
        return Fail(BadRequest);
      }
      if series.status == Settled {
        return Fail(NotOpen);
      }
      var saved := Rows();
      var paid := ledger.DebitWithin(Account(user, series.chain, series.token), amount);
      if paid.Fail? {
        RollBack(saved);
        return Fail(Money(paid.error));
      }
      series := series.(collateral := series.collateral + amount);
      UpsertLiquidity(user, amount);
      r := Pass;
    }

    /** The common end of both withdrawals. */
    method TakeOut(user: string, amount: int) returns (r: Outcome<PoolError>)
      modifies this, ledger
      ensures Follows(OptionPool.TakeOut(old(Rows()), user, amount), old(Rows()), r, Rows())
    {
      if user !in principals {
        return Fail(NoLiquidity);
      }
      if principals[user] < amount {
        return Fail(ExceedsPrincipal);
      }
      var saved := Rows();
      series := series.(collateral := series.collateral - amount);
      principals := principals[user := principals[user] - amount];
      var paid := ledger.CreditWithin(Account(user, series.chain, series.token), amount);
      r := Finish(saved, paid);
    }

    method RemoveCollateral(user: string, amount: int, seen: Status) returns (r: Outcome<PoolError>)
      modifies this, ledger
      ensures Follows(OptionPool.RemoveCollateral(old(Rows()), user, amount, seen), old(Rows()), r, Rows())
    {
      if amount <= 0 {
        return Fail(BadRequest);
      }
      if seen == Settled {
        return Fail(AlreadySettled);
      }
      var free := series.collateral - series.locked;
      if free < 0 {
        free := 0;
      }
      if free < amount {
        return Fail(CollateralLocked);
      }
      r := TakeOut(user, amount);
    }

    method Underwrite(user: string, size: int, premium: int, lock: int, commitNow: int)
      returns (r: Outcome<PoolError>)
      modifies this, ledger
      ensures Follows(OptionPool.Underwrite(old(Rows()), user, size, premium, lock, commitNow), old(Rows()), r, Rows())
    {
      if series.status != Active || series.expiry <= commitNow {
        return Fail(NotOpen);
      }
      if series.collateral < series.locked + lock {
        return Fail(InsufficientPool);
      }
      var saved := Rows();
      var paid := ledger.DebitWithin(Account(user, series.chain, series.token), premium);
      if paid.Fail? {
        RollBack(saved);
        return Fail(Money(paid.error));
      }
      series := series.(collateral := series.collateral + premium,
                        locked := series.locked + lock,
                        premiumCollected := series.premiumCollected + premium,
                        totalLongSize := series.totalLongSize + size);
      UpsertPosition(user, size, premium);
      r := Pass;
    }

    method Buy(user: string, size: int, maxPremium: int, seen: Snapshot, now: int, commitNow: int)
      returns (r: Outcome<PoolError>)
      modifies this, ledger
      ensures Follows(OptionPool.Buy(old(Rows()), user, size, maxPremium, seen, now, commitNow), old(Rows()), r, Rows())
    {
      if size <= 0 || maxPremium <= 0 {
        return Fail(BadRequest);
      }
      if seen.status != Active || seen.expiry <= now {
        return Fail(NotOpen);
      }
      var quoted := SeenAs(series, seen);
      var premium := Premium(quoted, size, now);
      if premium.Err? {
        return Fail(premium.error);
      }
      if premium.value <= 0 {
        return Fail(PremiumZero);
      }
      if maxPremium < premium.value {
        return Fail(PremiumAboveLimit);
      }
      r := Underwrite(user, size, premium.value, RequiredCollateral(quoted, size), commitNow);
    }

    method SettleSeries(price: int, seen: Status, seenExpiry: int, now: int) returns (r: Outcome<PoolError>)
      modifies this`series
      ensures Follows(OptionPool.SettleSeries(old(Rows()), price, seen, seenExpiry, now), old(Rows()), r, Rows())
    {
      if price <= 0 {
        return Fail(BadRequest);
      }
      if seen == Settled {
        return Fail(AlreadySettled);
      }
      if now < seenExpiry {
        return Fail(NotExpired);
      }
      series := series.(settlementPrice := Some(price), status := Settled);
      r := Pass;
    }

    method Exercise(user: string) returns (r: Outcome<PoolError>)
      modifies this, ledger
      ensures Follows(OptionPool.Exercise(old(Rows()), user), old(Rows()), r, Rows())
    {
      if series.status != Settled {
        return Fail(NotOpen);
      }
      if user !in positions || positions[user].size <= 0 {
        return Fail(NoPosition);
      }
      var size := positions[user].size;
      var payout := PayoutAt(series, size);
      if payout.Err? {
        return Fail(payout.error);
      }
      if series.collateral < payout.value {
        return Fail(PoolCannotCover);
      }
      var saved := Rows();
      positions := positions[user := positions[user].(size := 0, claimedPayout := payout.value)];
      ReleaseLock(size, payout.value);
      var paid: Outcome<LedgerError> := Pass;
      if 0 < payout.value {
        paid := ledger.CreditWithin(Account(user, series.chain, series.token), payout.value);
      }
      r := Finish(saved, paid);
    }

    /** Frees the exercised position's lock and takes its payout out of the pool; the
        lock never exceeds what is left. */
    method ReleaseLock(size: int, payout: int)
      modifies this`series
      ensures series == Released(old(series), size, payout)
    {
      var locked := series.locked - RequiredCollateral(series, size);
      if locked < 0 {
        locked := 0;
      }
      var collateral := series.collateral - payout;
      if collateral < locked {
        locked := collateral;
      }
      var long := series.totalLongSize - size;
      if long < 0 {
        long := 0;
      }
      series := series.(collateral := collateral, locked := locked, totalLongSize := long);
    }

    method WithdrawLiquidity(user: string, amount: int) returns (r: Outcome<PoolError>)
      modifies this, ledger
      ensures Follows(OptionPool.WithdrawLiquidity(old(Rows()), user, amount), old(Rows()), r, Rows())
    {
      if amount <= 0 {
        return Fail(BadRequest);
      }
      if series.status != Settled {
        return Fail(NotOpen);
      }
      var reserved := series.locked;
      if series.collateral < reserved {
        reserved := series.collateral;
      }
      if series.collateral - reserved < amount {
        return Fail(CollateralReserved);
      }
      r := TakeOut(user, amount);
    }
  }
}
