/** Farm money over whole runs: a claim pays exactly what the read-only view shows, and
    tokens are conserved between the ledger and the farm's escrow. */
module FarmMoney {
  import opened Outcomes
  import opened Sums
  import opened Ledgers
  import opened FixedPoint
  import opened FarmAccumulator
  import opened FarmRuns
  import opened FarmSolvency

  // ---- Projection and claim ----

  lemma {:induction false} PayOutOne(balances: Balances, books: seq<Book>, n: nat, user: string, chain: int,
                                       only: Option<string>, i: nat)
    requires n <= |books| && i < |books| && DistinctTokens(books)
    requires forall j :: 0 <= j < |books| ==> 0 <= Payable(books[j], user, only)
    ensures var a := Account(user, chain, books[i].stream.token);
            Available(PayOut(balances, books, n, user, chain, only), a) ==
            Available(balances, a) + if i < n then Payable(books[i], user, only) else 0
  {
    if n != 0 {
      PayOutOne(balances, books, n - 1, user, chain, only, i);
      assert n - 1 != i ==> books[n - 1].stream.token != books[i].stream.token;
    }
  }

  lemma AccruedIsProjected(s: State, user: string, now: int, i: nat)
    requires Valid(s) && user in s.stakes && i < |s.books|
    ensures user in s.books[i].marks
    ensures var share := Share(s.stakes[user]);
            var b := AccrueStake(s.books, s.farm, user, share, share, now)[i];
            && user in b.marks
            && b.marks[user].accrued == ProjectedPending(s, user, i, now)
            && b.marks[user].claimed == s.books[i].marks[user].claimed
            && b.stream.token == s.books[i].stream.token
  {
    TotalAtLeast(s.stakes);
    AdvanceSpec(s.books[i].stream, s.farm.totalStaked, now, s.farm.end);
    ProjectionAgrees(s.books[i].stream, s.farm.totalStaked, now, s.farm.end);
  }

  lemma ClaimPaysAccrued(s: State, user: string, only: Option<string>, now: int, i: nat)
    requires Valid(s) && user in s.stakes && i < |s.books|
    ensures var share := Share(s.stakes[user]);
            var books := AccrueStake(s.books, s.farm, user, share, share, now);
            var a := Account(user, s.farm.chain, books[i].stream.token);
            Available(Claim(s, user, only, now).state.balances, a) ==
            Available(s.balances, a) + Payable(books[i], user, only)
  {
    var share := Share(s.stakes[user]);
    var books := AccrueStake(s.books, s.farm, user, share, share, now);
    AccrueAllValid(s, user, s.stakes[user], now);
    assert s.stakes[user := s.stakes[user]] == s.stakes;
    forall j | 0 <= j < |books| ensures 0 <= Payable(books[j], user, only) {
      assert ValidBook(books[j], s.stakes);
    }
    PayOutOne(s.balances, books, |books|, user, s.farm.chain, only, i);
  }

  lemma ProjectionNonNegative(s: State, user: string, now: int, i: nat)
    requires Valid(s) && user in s.stakes && i < |s.books|
    ensures user in s.books[i].marks && 0 <= ProjectedPending(s, user, i, now)
  {
    assert ValidBook(s.books[i], s.stakes);
  }

  /** At any instant the pending figure GetStakes shows for a stream is exactly what
      a claim at that instant moves to the claimer's balance and records as
      claimed; a filtered-out stream keeps it accrued. */
  lemma ClaimPaysProjection(s: State, user: string, only: Option<string>, now: int, i: nat)
    requires Valid(s) && user in s.stakes && i < |s.books|
    ensures var r := Claim(s, user, only, now);
            var token := s.books[i].stream.token;
            var due := ProjectedPending(s, user, i, now);
            var a := Account(user, s.farm.chain, token);
            var selected := only.None? || only.value == token;
            && r.Commit? && i < |r.state.books| && user in r.state.books[i].marks
            && var m := r.state.books[i].marks[user];
            && m.claimed == s.books[i].marks[user].claimed + (if selected then due else 0)
            && m.accrued == (if selected then 0 else due)
            && Available(r.state.balances, a) == Available(s.balances, a) + (if selected then due else 0)
  {
    AccruedIsProjected(s, user, now, i);
    ProjectionNonNegative(s, user, now, i);
    ClaimPaysAccrued(s, user, only, now, i);
  }

  // ---- Stake and unstake ----

  /** Settling to another share and straight back is settling once. */
  lemma AccrueTwice(b: Book, f: Farm, g: Farm, user: string, held: int, more: int, now: int)
    requires Sound(b.stream) && 0 <= held && 0 <= more && 0 <= f.totalStaked && g.end == f.end
    ensures AccrueBook(AccrueBook(b, f, user, held, more, now), g, user, more, held, now) ==
            AccrueBook(b, f, user, held, held, now)
  {
    var once := AccrueBook(b, f, user, held, more, now);
    var t := AdvanceReward(b.stream, f.totalStaked, now, f.end);
    assert AdvanceReward(t, g.totalStaked, now, f.end) == t;
    var twice := AccrueBook(once, g, user, more, held, now);
    assert twice.marks == b.marks[user := twice.marks[user]];
  }

  /** Unstaking at the instant of staking leaves exactly a plain settlement: the same
      stakes and balances, and no reward for having been in. */
  lemma UnstakeUndoesStake(s: State, user: string, amount: int, now: int)
    requires Valid(s) && Stake(s, user, amount, now).Commit?
    ensures var r := Unstake(Stake(s, user, amount, now).state, user, amount, now);
            var share := Share(Held(s.stakes, user));
            && r.Commit? && r.state.farm == s.farm
            && r.state.books == AccrueStake(s.books, s.farm, user, share, share, now)
            && (forall u :: Held(r.state.stakes, u) == Held(s.stakes, u))
            && (forall a :: Available(r.state.balances, a) == Available(s.balances, a))
  {
    var t, held := Stake(s, user, amount, now).state, Held(s.stakes, user);
    TotalAtLeast(s.stakes);
    ShareIsStake(held);
    ShareIsStake(held + amount);
    forall i | 0 <= i < |s.books|
      ensures AccrueBook(t.books[i], t.farm, user, held + amount, held, now) ==
              AccrueBook(s.books[i], s.farm, user, held, held, now)
    {
      AccrueTwice(s.books[i], s.farm, t.farm, user, held, held + amount, now);
    }
  }

  // ---- Conservation ----

  /** What the first `n` streams hold of one token: funded and not yet claimed. */
  ghost function Reserves(books: seq<Book>, n: nat, token: string): int
    requires n <= |books|
  {
    if n == 0 then 0 else
      Reserves(books, n - 1, token) +
      if books[n - 1].stream.token == token then books[n - 1].stream.totalReward - Claimed(books[n - 1]) else 0
  }

  /** Everything the farm holds of one token in escrow. */
  ghost function Escrow(s: State, token: string): int
  {
    (if s.farm.stakingToken == token then s.farm.totalStaked else 0) + Reserves(s.books, |s.books|, token)
  }

  lemma AccrueClaimed(b: Book, f: Farm, user: string, before: int, after: int, now: int)
    ensures Claimed(AccrueBook(b, f, user, before, after, now)) == Claimed(b)
  {
    var c := AccrueBook(b, f, user, before, after, now);
    var was := map u | u in b.marks :: b.marks[u].claimed;
    assert (map u | u in c.marks :: c.marks[u].claimed) == was[user := c.marks[user].claimed];
    TotalUpdate(was, user, c.marks[user].claimed);
  }

  lemma PayClaimed(b: Book, user: string, only: Option<string>)
    ensures Claimed(PayBook(b, user, only)) == Claimed(b) + Max(Payable(b, user, only), 0)
  {
    if 0 < Payable(b, user, only) {
      var c := PayBook(b, user, only);
      var was := map u | u in b.marks :: b.marks[u].claimed;
      assert (map u | u in c.marks :: c.marks[u].claimed) == was[user := c.marks[user].claimed];
      TotalUpdate(was, user, c.marks[user].claimed);
    }
  }

  lemma {:induction false} ReservesAccrue(books: seq<Book>, n: nat, f: Farm, user: string, before: int, after: int,
                                            now: int, token: string)
    requires n <= |books|
    ensures Reserves(AccrueStake(books, f, user, before, after, now), n, token) == Reserves(books, n, token)
  {
    if n != 0 {
      ReservesAccrue(books, n - 1, f, user, before, after, now, token);
      AccrueClaimed(books[n - 1], f, user, before, after, now);
    }
  }

  /** What one stream pays leaves its reserve and enters the ledger. */
  lemma PayStep(before: Balances, b: Book, user: string, chain: int, only: Option<string>, token: string)
    ensures var paid := Payable(b, user, only);
            var after := if paid <= 0 then before else Credit(before, Account(user, chain, b.stream.token), paid).state;
            AssetTotal(after, chain, token) == AssetTotal(before, chain, token)
            + if b.stream.token == token then Claimed(PayBook(b, user, only)) - Claimed(b) else 0
  {
    var paid := Payable(b, user, only);
    PayClaimed(b, user, only);
    if 0 < paid {
      CreditMoves(before, Account(user, chain, b.stream.token), paid, chain, token);
    }
  }

  /** Paying moves tokens from the reserves to the ledger one for one. */
  lemma {:induction false} ReservesPay(balances: Balances, books: seq<Book>, n: nat, user: string, chain: int,
                                         only: Option<string>, token: string)
    requires n <= |books|
    ensures AssetTotal(PayOut(balances, books, n, user, chain, only), chain, token)
            + Reserves(PayBooks(books, user, only), n, token) ==
            AssetTotal(balances, chain, token) + Reserves(books, n, token)
  {
    if n != 0 {
      ReservesPay(balances, books, n - 1, user, chain, only, token);
      PayStep(PayOut(balances, books, n - 1, user, chain, only), books[n - 1], user, chain, only, token);
    }
  }

  lemma {:induction false} ReservesFund(books: seq<Book>, n: nat, k: nat, amount: int, token: string)
    requires n <= |books| && k < |books|
    ensures var b := books[k];
            var funded := books[k := b.(stream := b.stream.(totalReward := b.stream.totalReward + amount))];
            Reserves(funded, n, token) ==
            Reserves(books, n, token) + if k < n && b.stream.token == token then amount else 0
  {
    if n != 0 { ReservesFund(books, n - 1, k, amount, token); }
  }

  /** What ledger and escrow hold together. */
  ghost function Supply(s: State, token: string): int
  {
    AssetTotal(s.balances, s.farm.chain, token) + Escrow(s, token)
  }

  lemma FundConserves(s: State, op: Op, token: string)
    requires op.FundOp? && Attempted(s, op).Commit?
    ensures Supply(Apply(s, op), token) == Supply(s, token)
  {
    DebitMoves(s.balances, Account(op.user, s.farm.chain, op.token), op.amount, s.farm.chain, token);
    ReservesFund(s.books, |s.books|, StreamIndex(s.books, op.token), op.amount, token);
  }

  lemma StakeConserves(s: State, op: Op, token: string)
    requires op.StakeOp? && Attempted(s, op).Commit?
    ensures Supply(Apply(s, op), token) == Supply(s, token)
  {
    var held := Held(s.stakes, op.user);
    DebitMoves(s.balances, Account(op.user, s.farm.chain, s.farm.stakingToken), op.amount, s.farm.chain, token);
    ReservesAccrue(s.books, |s.books|, s.farm, op.user, Share(held), Share(held + op.amount), op.now, token);
  }

  lemma UnstakeConserves(s: State, op: Op, token: string)
    requires Valid(s) && op.UnstakeOp? && Attempted(s, op).Commit?
    ensures Supply(Apply(s, op), token) == Supply(s, token)
  {
    var held := s.stakes[op.user];
    CreditMoves(s.balances, Account(op.user, s.farm.chain, s.farm.stakingToken), op.amount, s.farm.chain, token);
    ReservesAccrue(s.books, |s.books|, s.farm, op.user, Share(held), Share(held - op.amount), op.now, token);
    TotalAtLeast(s.stakes);
  }

  lemma ClaimConserves(s: State, op: Op, token: string)
    requires op.ClaimOp? && Attempted(s, op).Commit?
    ensures Supply(Apply(s, op), token) == Supply(s, token)
  {
    var share, n := Share(s.stakes[op.user]), |s.books|;
    var books := AccrueStake(s.books, s.farm, op.user, share, share, op.now);
    ReservesAccrue(s.books, n, s.farm, op.user, share, share, op.now, token);
    ReservesPay(s.balances, books, n, op.user, s.farm.chain, op.only, token);
  }

  /** Every step keeps ledger plus escrow constant, token by token. */
  lemma StepConserves(s: State, op: Op, token: string)
    requires Valid(s)
    ensures Apply(s, op).farm.chain == s.farm.chain
    ensures Supply(Apply(s, op), token) == Supply(s, token)
  {
    if Attempted(s, op).Commit? {
      match op
      case FundOp(u, paid, a) => FundConserves(s, op, token);
      case StakeOp(u, a, now) => StakeConserves(s, op, token);
      case UnstakeOp(u, a, now) => UnstakeConserves(s, op, token);
      case ClaimOp(u, only, now) => ClaimConserves(s, op, token);
      case UpdateOp(_, _, _) =>
    }
  }

  /** Over any run, the ledger and the farm's escrow together hold a constant amount
      of every token. */
  lemma {:induction false} RunConserves(s: State, ops: seq<Op>, token: string)
    requires Genesis(s)
    ensures Run(s, ops).farm.chain == s.farm.chain
    ensures Supply(Run(s, ops), token) == Supply(s, token)
    decreases |ops|
  {
    if ops != [] {
      RunConserves(s, ops[..|ops| - 1], token);
      RunValid(s, ops[..|ops| - 1]);
      StepConserves(Run(s, ops[..|ops| - 1]), ops[|ops| - 1], token);
    }
  }

  lemma {:induction false} ReservesFloor(s: State, ops: seq<Op>, n: nat, token: string)
    requires Genesis(s) && n <= |s.books| == |Run(s, ops).books|
    requires DistinctTokens(Run(s, ops).books)
    ensures var t := Run(s, ops);
            && -(Changes(s, ops) as int) <= Reserves(t.books, n, token)
            && ((forall j :: 0 <= j < n ==> t.books[j].stream.token != token) ==> Reserves(t.books, n, token) == 0)
  {
    if n != 0 {
      ReservesFloor(s, ops, n - 1, token);
      Solvency(s, ops, n - 1);
    }
  }

  /** No token is ever issued beyond the opening supply by more than one unit for
      each stake-amount change: a farm pays out what was funded, up to dust. */
  lemma SupplyBound(s: State, ops: seq<Op>, token: string)
    requires Genesis(s)
    ensures AssetTotal(Run(s, ops).balances, s.farm.chain, token) <=
            AssetTotal(s.balances, s.farm.chain, token) + Changes(s, ops)
  {
    var t := Run(s, ops);
    RunValid(s, ops);
    RunConserves(s, ops, token);
    ReservesFloor(s, ops, |s.books|, token);
    TotalAtLeast(t.stakes);
    GenesisEscrow(s, |s.books|, token);
  }

  lemma ClaimedOfNone(b: Book)
    requires b.marks == map[]
    ensures Claimed(b) == 0
  {
    var claimed := map u | u in b.marks :: b.marks[u].claimed;
    TotalOfZeros(claimed);
  }

  lemma {:induction false} GenesisEscrow(s: State, n: nat, token: string)
    requires Genesis(s) && n <= |s.books|
    ensures Reserves(s.books, n, token) == 0
  {
    if n != 0 {
      GenesisEscrow(s, n - 1, token);
      ClaimedOfNone(s.books[n - 1]);
    }
  }
}
