# TigerSwap backend: option pool, farm, marketplace and deposit watcher

A Dafny model of the parts of the backend that hold exact integer arithmetic and
multi-step money state, with proofs about every input and every run.

| part | value model and theorems | rows updated in place |
|---|---|---|
| ledger (`ledger_service.go`) | `Ledgers`, `Sums` | `Ledgers.Ledger` |
| option math (`option_math.go`) | `FixedPoint`, `OptionLn`, `OptionExp`, `OptionRoot`, `OptionPricing`, `OptionDomain`, `WadText` | loop methods in the same modules |
| option pool (`option_service.go`) | `OptionPool`, `OptionCover`, `OptionRefusal` | `OptionService` |
| farm (`farm_service.go`) | `FarmAccumulator`, `FarmRuns`, `FarmSolvency`, `FarmDust`, `FarmClaims`, `FarmFairness`, `FarmMoney` | `FarmService` |
| marketplace (`nft_service.go`) | `NftMarket`, `NftRuns`, `NftIds`, `NftWitnesses` | `NftService` |
| deposits (`deposit_watcher.go`) | `Deposits`, `DepositRuns`, `DepositLosses`, `DepositProgress` | `DepositWatcher` |

`Outcomes` holds the result types.

How it is put together:

- A database transaction is one atomic step, a function from the stored rows to either
  the committed rows or an abort. A run is a sequence of steps; an aborted step changes
  nothing. Theorems about runs hold for every sequence, every user, every amount and
  every clock value, in any order.
- The handlers themselves are methods of a class whose fields are the rows. They run in
  the source's order, with its loops and early returns, and put saved rows back when a
  later step fails. Each is proved to leave exactly what its transaction function says,
  so every theorem about runs is a theorem about them.
- What a handler reads before its transaction is an argument of the step. It may be
  stale: a quote made on an old series row, a status seen before a settlement, an
  operator edit that lands late.
- Deposits are finer grained. Any number of watchers interleave credit by credit, may
  crash or restart anywhere, and other services move the same balances meanwhile.
- Integers are exact, as `big.Int` is. `big.Int.Quo` truncates toward zero and is
  defined as `FixedPoint.Quo`. Token ids are `uint64` and supplies `int64`, with their
  conversions written out.

Where the code and its comments disagree, the model follows the code:

- `farm_service.go:583` says a farm never pays out rewards that were not funded. Rounding
  makes this false by a few units: `FarmDust.PaysMoreThanFunded` is a run that funds
  four units and pays five. `FarmSolvency.DustAccount` is the exact account of where
  the units come from, `SolventIff` says exactly when a run is solvent,
  `Solvency` bounds the gap by one unit per stake change, `GainFreeSolvent` gives a
  condition known before each stake change that rules it out, and
  `FarmClaims.OverpayIff` says from the rows as they stand exactly when claims alone can
  take out more than was funded.
- `farm_service.go:734` truncates the elapsed time to whole seconds while the checkpoint
  keeps the fraction, so every advance can lose up to a second of emission.
  `FarmAccumulator.SplitAccount` is the exact account, `SplitInvariant` bounds the loss by
  one second's emission per extra cut and shows that whole-second cuts lose nothing, and
  `CrowdedStarves` that advances less than a second apart emit nothing at all.
- `option_service.go:19-33` describes a fully collateralised pool. For puts that holds
  up to one unit per purchase that *carries*: the fractions of strike times the size
  held and strike times the size bought add up to a whole unit. Without one, every put
  holder is paid (`OptionCover.PutsAlwaysPaid`); `OptionCover.CarriedPutUnpaid` is a run
  with one carry in which the exercise is refused. A carry need not do harm, because
  premiums can never be withdrawn: `OptionRefusal.RefusalIff` says exactly when the
  providers can leave one holder refused, and `OptionRefusal.CoverIff` exactly when any
  continuation without a further purchase refuses anybody. Both conditions can be read
  off the rows beforehand.
- `option_service.go:1125-1127` speaks of a provider's share of the remaining pool. The
  code caps withdrawals at the provider's own principal, so premiums left after the
  payouts can never be withdrawn (`OptionPool.PremiumsStay`).
- `nft_service.go:392` calls token ids unique and gapless, and `models/nft.go:52` says
  total_supply counts the tokens. Ids are unique, but explicit ids leave gaps:
  `NftWitnesses.GapLeft` is a run that leaves id one unminted. Ids are gapless exactly
  when total_supply is the number of tokens (`NftIds.GaplessIff`), and a mint keeps them
  so exactly when it is a default mint or names the next id (`NftIds.KeepsGaplessIff`).
- One explicit mint of the largest id blocks every default mint after it, for good
  (`NftIds.MintIff`, `NftIds.ExhaustedForever`, `NftWitnesses.DefaultMintBlocked`).
- `nft_service.go:347-348` says a collection with tokens is never removed. The tokens are
  counted before the delete, without a lock, so a mint and an offer can land in between.
  From then on the offer's escrowed money can be neither refunded nor spent
  (`NftWitnesses.RefundLost`, `NftRuns.StuckForever`); `SaleIff` and `OfferHonoured` carry the
  exact condition, that the collection is not deleted.
- `deposit_watcher.go:190-198` gives a native transfer log index zero, which it shares with
  the transaction's first log. Each transaction that deposits both ways loses exactly
  one deposit (`Deposits.TxCredited`, `Deposits.FirstLogLost`), over every run exactly as
  many are lost as there are such transactions (`DepositLosses.LossCount`), and
  `DepositProgress.DepositLost` is a run that loses one.
- The same lines credit a native transfer without looking at the receipt's status: an
  unsuccessful transaction is credited if and only if its value qualifies
  (`Deposits.FailedTxCredited`, `DepositLosses.FailedRecordedIff`), and
  `DepositProgress.FailedCredited` is a run that credits one.

The database is PostgreSQL (`config/config.go:54`), whose only 64-bit integer type is
signed. Its id column therefore refuses token ids past the `int64` range, and the model
refuses them too.

## Model

| member | source | states |
|---|---|---|
| `Ledgers.CreditMoves` | `backend/services/ledger_service.go:49-56` | a positive credit commits and creates exactly its amount of exactly its own asset; no balance turns negative |
| `Ledgers.DebitMoves` | `backend/services/ledger_service.go:69-79` | a debit commits if and only if the amount is positive and covered; it destroys exactly that amount of its own asset and overdraws nobody |
| `Ledgers.Ledger.Mutate` | `backend/services/ledger_service.go:84-139` | the one balance row changes by the given amount, created at zero when absent, or nothing changes when a guarded change would overdraw it |
| `Ledgers.Ledger.CreditWithin` | `backend/services/ledger_service.go:49-56` | leaves exactly the credit transaction's balances, or aborts unchanged |
| `Ledgers.Ledger.DebitWithin` | `backend/services/ledger_service.go:69-79` | leaves exactly the debit transaction's balances, or aborts unchanged |
| `FixedPoint.QuoSpec` | `backend/services/option_math.go:51-65` | the truncated quotient is the one integer between the exact quotient and zero, less than one away |
| `OptionLn.ReduceInOctave` | `backend/services/option_math.go:74-87` | both reduction loops end, with the mantissa in [1, 2) and a negative exponent exactly below one |
| `OptionLn.OptLn` | `backend/services/option_math.go:69-105` | the loops compute the logarithm the lemmas below are about, and reject non-positive input |
| `OptionLn.ReduceToOctave` | `backend/services/option_math.go:74-87` | the two in-place loops yield the specified mantissa and exponent |
| `OptionLn.SumSeries` | `backend/services/option_math.go:95-102` | the eleven-term loop yields the specified series |
| `OptionLn.LnDoubles` | `backend/services/option_math.go:69-105` | ln(2x) = ln(x) + LN2 exactly, for every positive x |
| `OptionLn.LnHalves` | `backend/services/option_math.go:69-105` | halving from two upwards subtracts exactly LN2, the lost bit included |
| `OptionLn.LnMonotone` | `backend/services/option_math.go:69-105` | ln is monotone over all positive inputs, across octaves and through every truncation |
| `OptionLn.LnSign` | `backend/services/option_math.go:69-105` | ln is negative exactly below one |
| `OptionLn.LnOfOne` | `backend/services/option_math.go:69-105` | ln of one is zero |
| `OptionLn.MantissaBelowOctave` | `backend/services/option_math.go:89-102` | the truncated series of a mantissa stays below LN2, so octaves never overlap |
| `OptionLn.MantissaMono` | `backend/services/option_math.go:89-102` | the truncated quotient and series are monotone in the mantissa |
| `OptionExp.OptExp` | `backend/services/option_math.go:108-132` | the loop computes the exponential the lemmas below are about, with both range errors |
| `OptionExp.SumTaylor` | `backend/services/option_math.go:116-126` | the 24-term loop yields the specified sum |
| `OptionExp.OctaveRange` | `backend/services/option_math.go:116-126` | the truncated Taylor sum of a remainder below LN2 stays in [1, 2) |
| `OptionExp.ExpDoubles` | `backend/services/option_math.go:108-132` | exp(x + LN2) = 2 exp(x) exactly, while in range |
| `OptionExp.ExpMonotone` | `backend/services/option_math.go:108-132` | exp is monotone across octaves, and defined on a downward closed range |
| `OptionExp.ExpPositive` | `backend/services/option_math.go:108-132` | exp is at least one |
| `OptionExp.ExpNegAntitone` | `backend/services/option_math.go:135-144` | exp(-x) is antitone with values in [0, 1] |
| `OptionExp.ExpNegDefined` | `backend/services/option_math.go:135-144` | exp(-x) is defined exactly on [0, 200 LN2) |
| `OptionRoot.OptInvSqrt` | `backend/services/option_math.go:148-186` | the normalisation and Newton loops compute the root the lemmas below are about |
| `OptionRoot.BeginInRange` | `backend/services/option_math.go:152-162` | both normalisation loops end in [1, 4) with a consistent first guess |
| `OptionRoot.RepeatsIff` | `backend/services/option_math.go:164-184` | an iterate repeats if and only if its residual is at most one and its distance from one, times the iterate, below two |
| `OptionRoot.NewtonCertificate` | `backend/services/option_math.go:164-184` | whenever the loop exits on a repeat, its result carries that certificate |
| `OptionRoot.InvSqrtCertified` | `backend/services/option_math.go:148-186` | the returned root is non-negative and certified when it settled |
| `OptionPricing.OptNormalCdf` | `backend/services/option_math.go:201-235` | the polynomial loop computes the distribution the lemmas below are about |
| `OptionPricing.SumPolynomial` | `backend/services/option_math.go:210-215` | the in-place powers yield formula 26.2.17's five-term polynomial |
| `OptionPricing.CdfProbability` | `backend/services/option_math.go:201-235` | every value is a probability, and values at x and -x add up to exactly one away from zero |
| `OptionPricing.CdfDefined` | `backend/services/option_math.go:189-235` | the distribution fails exactly when the density's exponent is out of range |
| `OptionPricing.MomentsRise` | `backend/services/option_math.go:239-265` | a dearer underlying has its moments whenever a cheaper one does, both at least as high and the same positive distance apart |
| `OptionPricing.NoArbitrage` | `backend/services/option_math.go:274-333` | whenever a price is returned it is at least intrinsic and at most spot (call) or strike (put) |
| `OptionPricing.SplitLoss` | `backend/services/option_math.go:317-327` | splitting an amount by a probability and its complement loses exactly one unit, or none when the product is whole |
| `OptionPricing.PutCallParity` | `backend/services/option_math.go:317-327` | the raw call less the raw put misses the discounted forward by an exactly known -1, 0 or 1 |
| `OptionPricing.PricedParity` | `backend/services/option_math.go:274-333` | call and put are priced together, and differ from the discounted forward by at most one unit unless a price was lifted to intrinsic |
| `OptionDomain.CdfDefinedIff` | `backend/services/option_math.go:189-235` | the distribution is defined exactly within about 16.65 deviations of zero, the bound exact to the unit |
| `OptionDomain.WidthIff` | `backend/services/option_math.go:251-258` | sigma sqrt(T) is positive exactly when T is not past the largest scaled time and the truncated product is not zero |
| `OptionDomain.PricedIff` | `backend/services/option_math.go:239-333` | a price is returned exactly when the prices are positive and either only intrinsic value is left, or moneyness and deviation are positive, both moments are within that bound, and rate times time is in range |
| `OptionDomain.DearerUnpriced` | `backend/services/option_math.go:239-333` | an option priced at the money and not at twice the strike |
| `WadText.WadIsPow10` | `backend/services/option_math.go:427-501` | the digit-count parameter of the text lemmas is the fixed-point scale |
| `WadText.RoundTrip` | `backend/services/option_math.go:427-501` | parsing the printed form of any integer gives it back, and the printed form is canonical |
| `WadText.CanonicalIff` | `backend/services/option_math.go:427-501` | a text survives parse and print unchanged if and only if it is canonical |
| `WadText.PrintStable` | `backend/services/option_math.go:427-501` | whatever text parses, one parse and print reaches a form a second leaves unchanged, of the same value |
| `WadText.FormatInjective` | `backend/services/option_math.go:480-501` | distinct values print differently |
| `OptionPool.VolatilityRises` | `backend/services/option_service.go:123-143` | implied volatility grows with utilisation, from its base by at most the skew, under its ceiling |
| `OptionPool.PremiumWithinLock` | `backend/services/option_service.go:147-189` | a premium read from one row is never negative nor above the collateral locked for that size |
| `OptionPool.PayoutParity` | `backend/services/option_service.go:193-216` | call and put payouts differ by exactly the forward, and at most one is positive |
| `OptionPool.RemoveUndoesAdd` | `backend/services/option_service.go:657-826` | collateral just added can be taken back, restoring the pool and every balance |
| `OptionPool.ExercisedOnce` | `backend/services/option_service.go:1037-1108` | an exercise pays its holder the payout, touches no other balance or position, and fails a second time |
| `OptionPool.ApplyKeeps` | `backend/services/option_service.go:696-1210` | every step keeps the pool's invariant, the money supply and the accounting surplus |
| `OptionPool.Accounting` | `backend/services/option_service.go:696-1210` | in every reachable state collateral plus payouts equals principals plus premiums, locked collateral is held, the long total is the sum of positions, and ledger plus pool is constant |
| `OptionPool.PremiumsStay` | `backend/services/option_service.go:1167-1210` | what is left in the pool is at least the premiums less the payouts, whatever providers withdraw |
| `OptionCover.BuyShortfall` | `backend/services/option_service.go:927-959` | a put purchase leaves exactly its carry unlocked |
| `OptionCover.ExerciseShortfall` | `backend/services/option_service.go:1054-1107` | after an exercise the gap between required and locked collateral is the smaller of the old gap and what is still required |
| `OptionCover.ShortfallBound` | `backend/services/option_service.go:927-1108` | in every reachable state locked never exceeds required, and falls short by at most the carries, by exactly that before the first exercise |
| `OptionCover.LockedIsRequired` | `backend/services/option_service.go:927-1108` | without a carry locked equals required in every reachable state, exercises included |
| `OptionCover.LockedIsRequiredIff` | `backend/services/option_service.go:927-1108` | in every reachable state locked equals required if and only if nothing has carried since some moment, the start included, at which nothing was required |
| `OptionCover.PayoutShortfall` | `backend/services/option_service.go:1037-1108` | in every reachable state a put payout exceeds the pool by at most the carries |
| `OptionCover.PutsAlwaysPaid` | `backend/services/option_service.go:1037-1108` | without a carry, once settled an exercise commits exactly for holders and moves exactly the payout, whatever happened before |
| `OptionCover.AllPutsCovered` | `backend/services/option_service.go:1059-1068` | without a carry the pool covers all put payouts together, at any settlement price |
| `OptionCover.CleanRunsCarryNothing` | `backend/services/option_service.go:177-189` | whole-unit purchases and first purchases never carry |
| `OptionCover.CarriedPutUnpaid` | `backend/services/option_service.go:1059-1068` | a run with one carry after which a put exercise fails because the pool cannot cover it |
| `OptionRefusal.RefusedMeans` | `backend/services/option_service.go:1059-1068` | a refused exercise means the worst payout exceeds the pool, hence both the lock and what is not the providers' |
| `OptionRefusal.Drain` | `backend/services/option_service.go:1167-1210` | after settlement the providers can take out everything but the lock and what is not theirs |
| `OptionRefusal.RefusalIff` | `backend/services/option_service.go:733-1210` | from any valid put state some continuation without purchases or exercises refuses a holder if and only if the lock and the collateral beyond the principals are both below the holder's payout at the lowest price |
| `OptionRefusal.SettledRefusalIff` | `backend/services/option_service.go:733-1210` | once settled, some run of adds, removals and withdrawals refuses a holder if and only if the lock and the collateral beyond the principals are both below the payout at the recorded price |
| `OptionRefusal.CarriesDecide` | `backend/services/option_service.go:733-1210` | before the first exercise that bound is the larger of required collateral less the carries and the premiums collected |
| `OptionRefusal.CoverIff` | `backend/services/option_service.go:733-1210` | from any valid put state some continuation without purchases refuses somebody if and only if, for some holder, more is missing from the lock than settling at the lowest price spares, and the collateral beyond the principals does not cover all payouts |
| `OptionRefusal.RiskNeedsCarry` | `backend/services/option_service.go:927-1108` | in every reachable state where somebody can be refused a purchase has carried and the lock is short |
| `OptionService.Service.AddCollateral` | `backend/services/option_service.go:696-714` | the handler leaves exactly its transaction's rows, or puts all of them back |
| `OptionService.Service.UpsertLiquidity` | `backend/services/option_service.go:829-847` | a provider's principal grows by the amount, from zero when there is no row |
| `OptionService.Service.RemoveCollateral` | `backend/services/option_service.go:772-813` | as its transaction: bounded by free collateral and own principal |
| `OptionService.Service.Buy` | `backend/services/option_service.go:897-959` | as its transaction: quoted on an earlier read, underwritten under lock |
| `OptionService.Service.Underwrite` | `backend/services/option_service.go:927-959` | the locked part of a purchase, rolled back whole when the debit fails |
| `OptionService.Service.UpsertPosition` | `backend/services/option_service.go:977-999` | a holder's size and premium grow by the purchase, from zero when there is no row |
| `OptionService.Service.Exercise` | `backend/services/option_service.go:1037-1108` | as its transaction: position zeroed, lock released, payout credited, or all rows back |
| `OptionService.Service.ReleaseLock` | `backend/services/option_service.go:1078-1101` | the series row after a release, with its three clamps |
| `OptionService.Service.WithdrawLiquidity` | `backend/services/option_service.go:1167-1210` | as its transaction: bounded by unreserved collateral and own principal |
| `FarmAccumulator.UnboostedIsExact` | `backend/services/farm_service.go:686-703` | without a boost source a stake counts at exactly its amount |
| `FarmAccumulator.ProjectionAgrees` | `backend/services/farm_service.go:719-788` | the read-only step and the stored advance agree at every instant, past the end and behind the checkpoint included |
| `FarmAccumulator.AdvanceSpec` | `backend/services/farm_service.go:719-788` | an advance emits the rate per whole running second up to the budget, only while something is staked, raises the accumulator by the floor per unit, and never goes back |
| `FarmAccumulator.SplitAccount` | `backend/services/farm_service.go:719-788` | any cutting emits the rate for every whole second between successive checkpoints up to the budget, with the accumulator short of that per unit by less than one per advance |
| `FarmAccumulator.SecondsLost` | `backend/services/farm_service.go:734` | cutting loses less than a second per extra cut, and nothing at whole-second cuts |
| `FarmAccumulator.SplitInvariant` | `backend/services/farm_service.go:719-788` | any cutting of an interval distributes at most what one advance does and at least that less one second's emission per extra cut; at whole-second cuts exactly the same, with the accumulator at most one lower per extra cut |
| `FarmAccumulator.CrowdedStarves` | `backend/services/farm_service.go:719-788` | advances less than a second apart emit nothing, however long they go on |
| `FarmAccumulator.HalvesLose` | `backend/services/farm_service.go:719-788` | two advances half a second apart emit nothing where one emits a second's worth |
| `FarmRuns.ApplyValid` | `backend/services/farm_service.go:637-1190` | every transaction keeps the farm's invariant |
| `FarmRuns.RunValid` | `backend/services/farm_service.go:637-1190` | in every reachable state the staked total is the sum of stakes, no stream distributes beyond its funding, debts stay below their share, and no balance is negative |
| `FarmSolvency.AccrueSlack` | `backend/services/farm_service.go:823-872` | settling a staker moves the stream's slack by exactly the dropped emission less the growth of the staker's fraction |
| `FarmSolvency.StepSlack` | `backend/services/farm_service.go:637-1190` | the same for every transaction |
| `FarmSolvency.DustAccount` | `backend/services/farm_service.go:637-1190` | over every run, distributed less owed is exactly the dropped emission less gained fractions plus fractions held back |
| `FarmSolvency.Solvency` | `backend/services/farm_service.go:637-1190` | over every run, claimed plus accrued plus pending is at most distributed plus one unit per stake change, and distributed at most the funding |
| `FarmSolvency.SolventIff` | `backend/services/farm_service.go:637-1190` | everything owed is distributed if and only if gained fractions do not exceed dropped dust and held-back fractions |
| `FarmDust.GainFreeSolvent` | `backend/services/farm_service.go:706-872` | if no stake change gains a fraction, everything owed was distributed, to the unit |
| `FarmDust.PaysMoreThanFunded` | `backend/services/farm_service.go:581-651` | a run that funds four units and pays out five |
| `FarmClaims.ClaimsBounded` | `backend/services/farm_service.go:823-1190` | no run of claims pays out more than is owed after one advance to the end |
| `FarmClaims.OverpayIff` | `backend/services/farm_service.go:823-1190` | some run of claims alone pays a started stream out beyond its funding if and only if what is owed after one advance to the end exceeds it |
| `FarmFairness.RefinesProRata` | `backend/services/farm_service.go:701-872` | over every run each staker's total is within the stated rounding of the exact sum of emission times stake over total staked |
| `FarmFairness.FirstStakeOwedNothing` | `backend/services/farm_service.go:818-872` | a new staker is owed nothing emitted before joining |
| `FarmMoney.ClaimPaysProjection` | `backend/services/farm_service.go:1133-1274` | the pending figure shown is exactly what a claim at that instant pays, records as claimed and clears; a filtered-out stream keeps it |
| `FarmMoney.UnstakeUndoesStake` | `backend/services/farm_service.go:930-1066` | unstaking at the instant of staking is a plain settlement: same stakes, same balances, no reward gained |
| `FarmMoney.StepConserves` | `backend/services/farm_service.go:637-1190` | every transaction keeps ledger plus escrow constant, token by token |
| `FarmMoney.RunConserves` | `backend/services/farm_service.go:637-1190` | so does every run |
| `FarmMoney.SupplyBound` | `backend/services/farm_service.go:577-663` | no run leaves more of a token on the ledger than it began with, up to one unit per stake change |
| `FarmService.Service.AdvanceReward` | `backend/services/farm_service.go:763-788` | the stream row becomes the specified advance |
| `FarmService.Service.SettleMark` | `backend/services/farm_service.go:793-868` | one staker's checkpoint is created with the new debt, or settled and re-based |
| `FarmService.Service.AccrueStake` | `backend/services/farm_service.go:823-872` | the loop settles the staker in every stream and nothing else |
| `FarmService.Service.Fund` | `backend/services/farm_service.go:637-651` | debit and budget commit together, or all rows are put back |
| `FarmService.Service.Stake` | `backend/services/farm_service.go:930-966` | as its transaction, in the source's order, or all rows are put back |
| `FarmService.Service.Unstake` | `backend/services/farm_service.go:1022-1066` | as its transaction, in the source's order |
| `FarmService.Service.PayStream` | `backend/services/farm_service.go:1157-1187` | one stream's accrued reward moves to claimed and to the ledger |
| `FarmService.Service.PayStreams` | `backend/services/farm_service.go:1157-1188` | the loop pays every selected stream once |
| `FarmService.Service.Claim` | `backend/services/farm_service.go:1133-1190` | as its transaction: settle every stream, then pay |
| `NftMarket.FeeLeavesProceeds` | `backend/services/nft_service.go:82-135` | within the fee ceiling the split is complete, the fee is the floored share, and the seller always receives something |
| `NftRuns.ApplyKeeps` | `backend/services/nft_service.go:181-1141` | every step, a delete on an old count included, keeps the marketplace invariant and the money supply |
| `NftRuns.MoneyConserved` | `backend/services/nft_service.go:435-1141` | over every run, balances plus live offers are constant per chain and token, and nothing is negative |
| `NftRuns.EscrowBijection` | `backend/services/nft_service.go:583-1077` | in every reachable state a token is with the sentinel iff it records a listing iff exactly one live listing sells it |
| `NftRuns.NotStranded` | `backend/services/nft_service.go:742-776` | the seller of the listing that holds a token can always cancel it and gets the token |
| `NftRuns.SaleIff` | `backend/services/nft_service.go:655-719` | a listing sells if and only if it is live, unexpired, in a collection not deleted, not the buyer's own and affordable; no other guard can stop it |
| `NftRuns.SaleMoves` | `backend/services/nft_service.go:707-718` | a sale takes the price from the buyer, gives the seller the price less the fee and the fee account the fee, and touches no other balance |
| `NftRuns.OfferHonoured` | `backend/services/nft_service.go:1017-1141` | a live offer is accepted exactly by the free owner in time, and refunded in full, exactly while its collection is not deleted |
| `NftRuns.AcceptMoves` | `backend/services/nft_service.go:1049-1077` | an acceptance pays seller and fee account out of the escrowed amount, touches no other balance, and hands the token over |
| `NftRuns.StuckForever` | `backend/services/nft_service.go:1017-1141` | once a collection is deleted an offer still live in it can never be accepted or refunded, whatever follows |
| `NftRuns.ClosedOnce` | `backend/services/nft_service.go:655-776` | a listing is sold or cancelled at most once, whatever happens in between |
| `NftIds.MintIff` | `backend/services/nft_service.go:435-476` | a default mint commits exactly below the largest id and never collides; an explicit mint exactly for a new id in range |
| `NftIds.IdsBounded` | `backend/services/nft_service.go:435-476` | every token's collection row exists and its id is positive and at most the supply |
| `NftIds.ExhaustedForever` | `backend/services/nft_service.go:443-476` | once the supply is the largest id, no default mint commits again, whatever follows |
| `NftIds.GaplessIff` | `backend/services/nft_service.go:391-476` | in every reachable state the supply is at least the number of tokens, and every id up to it is minted if and only if it is that number |
| `NftIds.MintGaps` | `backend/services/nft_service.go:443-476` | a mint within the supply fills one gap, a mint past it opens one for each id it skips |
| `NftIds.KeepsGaplessIff` | `backend/services/nft_service.go:443-476` | a mint in a gapless collection keeps it gapless if and only if it is a default mint or names the next id |
| `NftWitnesses.GapLeft` | `backend/services/nft_service.go:443-476` | a run whose one explicit mint of id two leaves id one unminted |
| `NftWitnesses.DefaultMintBlocked` | `backend/services/nft_service.go:443-476` | a run with one explicit mint of the largest id, after which every default mint fails for good |
| `NftWitnesses.RefundLost` | `backend/services/nft_service.go:349-386` | a run in which a mint and an offer land between the count and the delete, and the refund fails |
| `NftService.Service.Mint` | `backend/services/nft_service.go:411-476` | the handler leaves exactly its transaction's rows |
| `NftService.Service.ListNFT` | `backend/services/nft_service.go:583-619` | as its transaction: listing recorded and token escrowed together |
| `NftService.Service.PaySeller` | `backend/services/nft_service.go:707-718` | seller first, then the fee account when there is a fee |
| `NftService.Service.BuyNFT` | `backend/services/nft_service.go:655-719` | as its transaction, status and token written first, all put back when a payment fails |
| `NftService.Service.CancelListing` | `backend/services/nft_service.go:752-776` | as its transaction: the token returns to the seller |
| `NftService.Service.MakeOffer` | `backend/services/nft_service.go:930-971` | as its transaction, on a collection read before it: offer and debit together |
| `NftService.Service.AcceptOffer` | `backend/services/nft_service.go:1017-1077` | as its transaction: token to the buyer, escrowed money to seller and fee account |
| `NftService.Service.CancelOffer` | `backend/services/nft_service.go:1113-1141` | as its transaction: the escrowed amount back to the buyer |
| `Deposits.FeedSound` | `backend/services/deposit_watcher.go:177-263` | selection yields positive amounts only, each recorded under its own block |
| `Deposits.ScanRecords` | `backend/services/deposit_watcher.go:271-316` | a scan processes exactly the keys of its candidates, each with the first candidate's record |
| `Deposits.NextCredits` | `backend/services/deposit_watcher.go:271-316` | a transaction credits an account with exactly what it adds to that account's records |
| `Deposits.AllCreditedIff` | `backend/services/deposit_watcher.go:271-316` | a scan of candidates not seen before credits every one if and only if no two share a key |
| `Deposits.ScanKeySet` | `backend/services/deposit_watcher.go:271-316` | a scan adds exactly its candidates' keys to the records |
| `Deposits.TxKeyCount` | `backend/services/deposit_watcher.go:190-263` | a transaction has one key fewer than deposits exactly when a native deposit meets a depositing first log |
| `Deposits.TxCredited` | `backend/services/deposit_watcher.go:190-316` | from any store that has not seen it, a transaction is credited in full, less one deposit in exactly that case |
| `Deposits.FirstLogLost` | `backend/services/deposit_watcher.go:190-316` | the deposit lost is the first log's: its key holds the native one |
| `Deposits.FailedTxCredited` | `backend/services/deposit_watcher.go:190-263` | an unsuccessful transaction credits its native value if it qualifies, and nothing else |
| `DepositRuns.RunKeeps` | `backend/services/deposit_watcher.go:117-316` | every schedule has recorded exactly one scan of some first part of the chain, at or beyond the cursor and every worker |
| `DepositRuns.MatchesOneScan` | `backend/services/deposit_watcher.go:141-316` | under any crashes, restarts, races and cursor rollbacks the blocks up to the cursor hold exactly one uninterrupted scan's records |
| `DepositRuns.ScheduleIndependent` | `backend/services/deposit_watcher.go:141-316` | two schedules with one start and one cursor have recorded the same deposits |
| `DepositRuns.RecordsStay` | `backend/services/deposit_watcher.go:293-314` | no run drops or rewrites a record |
| `DepositRuns.CreditedOnce` | `backend/services/deposit_watcher.go:271-316` | over every run each balance is its opening value plus what other services moved plus the sum of its records |
| `DepositLosses.LossCount` | `backend/services/deposit_watcher.go:141-316` | over every run the blocks up to the cursor have exactly as many records as deposits, less one for each colliding transaction |
| `DepositLosses.AllRecordedIff` | `backend/services/deposit_watcher.go:141-316` | all of them are recorded if and only if no transaction there collides |
| `DepositLosses.FailedRecordedIff` | `backend/services/deposit_watcher.go:141-316` | over every run an unsuccessful transaction has a record if and only if its native value qualifies |
| `DepositProgress.LoneWatcherFinishes` | `backend/services/deposit_watcher.go:92-175` | a watcher that meets no failure brings the cursor from any starting head to any block that lies deep enough |
| `DepositProgress.DepositLost` | `backend/services/deposit_watcher.go:190-316` | a completed run that has lost a deposit |
| `DepositProgress.FailedCredited` | `backend/services/deposit_watcher.go:190-206` | a completed run that has credited an unsuccessful transaction |
| `DepositWatcher.Watcher.CreditDeposit` | `backend/services/deposit_watcher.go:293-315` | record and credit commit together, a known key is a no-op |
| `DepositWatcher.Watcher.ScanReceiptLogs` | `backend/services/deposit_watcher.go:210-263` | the log loop credits exactly the selected logs of a successful receipt, in order |
| `DepositWatcher.Watcher.ScanTx` | `backend/services/deposit_watcher.go:190-204` | native transfer first, then the logs |
| `DepositWatcher.Watcher.ScanBlock` | `backend/services/deposit_watcher.go:177-206` | the transaction loop credits exactly the block's candidates |
| `DepositWatcher.Watcher.EnsureCursor` | `backend/services/deposit_watcher.go:117-137` | the stored cursor, or one created at the head |
| `DepositWatcher.Watcher.ScanChain` | `backend/services/deposit_watcher.go:141-175` | one uninterrupted scan credits every candidate up to the safe head and leaves the cursor there |

## Left out

- Times are exact nanoseconds. The float rounding of `Duration.Seconds` before it is truncated, the saturation of a `Duration` at 292 years and the microsecond resolution of stored timestamps are not modelled.
- The farm boost is fixed at 1x, as without a boost source; with a varying boost the staked total is not the sum of boosted shares and the solvency bound is not claimed.
- Farms, series, collections and ledgers live in one chain of one database; each farm and each series is modelled alone with its ledger, since their transactions touch no other farm or series.
- The put cover results do not extend to calls: the call lock uses a mark price that later edits change, and the payout is unbounded. The accounting identity covers both.
- The accuracy of ln, exp, the root and the normal distribution against the real functions; only order, algebraic and range properties are proved.
- The greeks, the series and farm views, the APR estimate, and all list endpoints.
- HTTP binding, authentication, admin logs, symbols, decimals, token-key normalisation and string parsing of amounts; wad columns are held as integers, which the text round trip justifies.
- A watcher's failed reads of a block, a receipt or token metadata are modelled as a crash at that point; a receipt the node cannot find is a fixed unsuccessful receipt.
- The deposit chain and the address owners are fixed for a run; reorganisations deeper than the confirmation depth are not modelled.
- Creation of a collection's, series' or farm's identifiers: ids are arguments and a reused id aborts, that of a deleted collection included.
- Two settlements of one series may both land, as the code allows; which price an operator should enter is not modelled.
- Handlers that only edit descriptive columns, and the price refresh, which writes a mark price as an edit does.
- The in-place service classes do not repeat operator edits (series, farm, listing and collection updates); these are steps of the run models.
- Margin, perpetual, bridge, liquidity-pool, fee-collector and the remaining services.
