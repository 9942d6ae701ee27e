/** The farm transactions of backend/services/farm_service.go as atomic steps on the
    stored rows, and whole runs of them. */
module FarmRuns {
  import opened Outcomes
  import opened Sums
  import opened Ledgers
  import opened FixedPoint
  import opened FarmAccumulator

  /** A farm_stake_rewards row: one staker's checkpoint in one stream. */
  datatype Mark = Mark(debt: int, accrued: int, claimed: int)

  /** A stream with the checkpoints of every staker in it. */
  datatype Book = Book(stream: Stream, marks: map<string, Mark>)

  datatype Status = Active | Paused | Closed

  datatype Farm = Farm(chain: int, stakingToken: string, totalStaked: int, start: int, end: int, status: Status)

  datatype State = State(farm: Farm, books: seq<Book>, stakes: map<string, int>, balances: Balances)

  datatype FarmError = BadAmount | NotOpen | NoStake | NoStream | Money(cause: LedgerError)

  /** A user's staked amount; the row may be absent. */
  function Held(stakes: map<string, int>, user: string): int
  {
    if user in stakes then stakes[user] else 0
  }

  function Share(amount: int): int
  {
    EffectiveAmount(amount, BASE_BOOST_BPS)
  }

  // ---- Settlement ----

  function AccrueMark(b: Book, user: string, oldEffective: int, newEffective: int, acc: int): Mark
  {
    var nextDebt := (newEffective * acc) / SCALE;
    if user in b.marks then
      var m := b.marks[user];
      Mark(nextDebt, m.accrued + PendingFor(oldEffective, acc, m.debt), m.claimed)
    else Mark(nextDebt, 0, 0)
  }

  function AccrueBook(b: Book, f: Farm, user: string, oldEffective: int, newEffective: int, now: int): Book
  {
    var stream := AdvanceReward(b.stream, f.totalStaked, now, f.end);
    Book(stream, b.marks[user := AccrueMark(b, user, oldEffective, newEffective, stream.acc)])
  }

  function AccrueStake(books: seq<Book>, f: Farm, user: string, oldEffective: int, newEffective: int, now: int)
    : (r: seq<Book>)
    ensures |r| == |books|
    ensures forall i :: 0 <= i < |books| ==> r[i] == AccrueBook(books[i], f, user, oldEffective, newEffective, now)
  {
    seq(|books|, i requires 0 <= i < |books| => AccrueBook(books[i], f, user, oldEffective, newEffective, now))
  }

  // ---- Transactions ----

  function StreamIndex(books: seq<Book>, token: string): (i: nat)
    ensures i <= |books|
    ensures i < |books| ==> books[i].stream.token == token
    ensures forall j :: 0 <= j < i ==> books[j].stream.token != token
  {
    if books == [] || books[0].stream.token == token then 0 else 1 + StreamIndex(books[1..], token)
  }

  function Fund(s: State, user: string, token: string, amount: int): Attempt<State, FarmError>
  {
    if amount <= 0 then Abort(BadAmount) else
      var i := StreamIndex(s.books, token);
      if i == |s.books| then Abort(NoStream) else
        match Debit(s.balances, Account(user, s.farm.chain, token), amount)
        case Abort(e) => Abort(Money(e))
        case Commit(balances) =>
          var b := s.books[i];
          var funded := b.(stream := b.stream.(totalReward := b.stream.totalReward + amount));
          Commit(s.(books := s.books[i := funded], balances := balances))
  }

  function Stake(s: State, user: string, amount: int, now: int): Attempt<State, FarmError>
  {
    if amount <= 0 then Abort(BadAmount)
    else if s.farm.status != Active || now < s.farm.start || s.farm.end <= now then Abort(NotOpen)
    else
      match Debit(s.balances, Account(user, s.farm.chain, s.farm.stakingToken), amount)
      case Abort(e) => Abort(Money(e))
      case Commit(balances) =>
        var held := Held(s.stakes, user);
        Commit(State(
                 s.farm.(totalStaked := s.farm.totalStaked + amount),
                 AccrueStake(s.books, s.farm, user, Share(held), Share(held + amount), now),
                 s.stakes[user := held + amount],
                 balances))
  }

  function Unstake(s: State, user: string, amount: int, now: int): Attempt<State, FarmError>
  {
    if amount <= 0 then Abort(BadAmount)
    else if user !in s.stakes then Abort(NoStake)
    else if s.stakes[user] < amount then Abort(Money(InsufficientBalance))
    else
      var current := s.stakes[user];
      match Credit(s.balances, Account(user, s.farm.chain, s.farm.stakingToken), amount)
      case Abort(e) => Abort(Money(e))
      case Commit(balances) =>
        Commit(State(
                 s.farm.(totalStaked := Max(s.farm.totalStaked - amount, 0)),
                 AccrueStake(s.books, s.farm, user, Share(current), Share(current - amount), now),
                 s.stakes[user := current - amount],
                 balances))
  }

  /** What one stream pays a claimer: everything accrued, unless filtered out. */
  function Payable(b: Book, user: string, only: Option<string>): int
  {
    if user in b.marks && (only.None? || only.value == b.stream.token) then b.marks[user].accrued else 0
  }

  function PayBook(b: Book, user: string, only: Option<string>): Book
  {
    var paid := Payable(b, user, only);
    if paid <= 0 then b else
      var m := b.marks[user];
      b.(marks := b.marks[user := m.(accrued := 0, claimed := m.claimed + paid)])
  }

  function PayBooks(books: seq<Book>, user: string, only: Option<string>): (r: seq<Book>)
    ensures |r| == |books|
    ensures forall i :: 0 <= i < |books| ==> r[i] == PayBook(books[i], user, only)
  {
    seq(|books|, i requires 0 <= i < |books| => PayBook(books[i], user, only))
  }

  /** The ledger after the first `n` streams have paid. */
  function PayOut(balances: Balances, books: seq<Book>, n: nat, user: string, chain: int, only: Option<string>)
    : Balances
    requires n <= |books|
  {
    if n == 0 then balances else
      var before := PayOut(balances, books, n - 1, user, chain, only);
      var paid := Payable(books[n - 1], user, only);
      if paid <= 0 then before
      else Credit(before, Account(user, chain, books[n - 1].stream.token), paid).state
  }

  function Claim(s: State, user: string, only: Option<string>, now: int): Attempt<State, FarmError>
  {
    if user !in s.stakes then Abort(NoStake) else
      var share := Share(s.stakes[user]);
      var books := AccrueStake(s.books, s.farm, user, share, share, now);
      Commit(s.(books := PayBooks(books, user, only),
                balances := PayOut(s.balances, books, |books|, user, s.farm.chain, only)))
  }

  /** An operator edit; its checks are made on an earlier read, so any values may land. */
  function Update(s: State, start: int, end: int, status: Status): State
  {
    s.(farm := s.farm.(start := start, end := end, status := status))
  }

  /** The pending figure GetStakes reports for one stream. */
  function ProjectedPending(s: State, user: string, i: nat, now: int): int
    requires i < |s.books| && user in s.books[i].marks
  {
    var b := s.books[i];
    var step := RewardStep(b.stream, s.farm.totalStaked, now, s.farm.end);
    b.marks[user].accrued + PendingFor(Share(Held(s.stakes, user)), step.acc, b.marks[user].debt)
  }

  // ---- Runs ----

  datatype Op =
    | FundOp(user: string, token: string, amount: int)
    | StakeOp(user: string, amount: int, now: int)
    | UnstakeOp(user: string, amount: int, now: int)
    | ClaimOp(user: string, only: Option<string>, now: int)
    | UpdateOp(start: int, end: int, status: Status)

  function Attempted(s: State, op: Op): Attempt<State, FarmError>
  {
    match op
    case FundOp(u, t, a) => Fund(s, u, t, a)
    case StakeOp(u, a, now) => Stake(s, u, a, now)
    case UnstakeOp(u, a, now) => Unstake(s, u, a, now)
    case ClaimOp(u, only, now) => Claim(s, u, only, now)
    case UpdateOp(start, end, status) => Commit(Update(s, start, end, status))
  }

  function Apply(s: State, op: Op): State
  {
    var r := Attempted(s, op);
    if r.Commit? then r.state else s
  }

  function Run(s: State, ops: seq<Op>): State
  {
    if ops == [] then s else Apply(Run(s, ops[..|ops| - 1]), ops[|ops| - 1])
  }

  /** A farm as created: streams with a rate, nothing funded, nothing staked. */
  ghost predicate Genesis(s: State)
  {
    && s.farm.totalStaked == 0 && s.stakes == map[] && NonNegative(s.balances)
    && (forall i :: 0 <= i < |s.books| ==>
          var t := s.books[i].stream;
          s.books[i].marks == map[] && 0 <= t.rate && t.acc == t.totalReward == t.distributed == 0)
    && (forall i, j :: 0 <= i < j < |s.books| ==> s.books[i].stream.token != s.books[j].stream.token)
  }

  ghost predicate ValidBook(b: Book, stakes: map<string, int>)
  {
    && Sound(b.stream)
    && b.marks.Keys == stakes.Keys
    && forall u :: u in b.marks ==>
         && 0 <= b.marks[u].debt <= (stakes[u] * b.stream.acc) / SCALE
         && 0 <= b.marks[u].accrued && 0 <= b.marks[u].claimed
  }

  ghost predicate ValidBooks(books: seq<Book>, stakes: map<string, int>)
  {
    forall i :: 0 <= i < |books| ==> ValidBook(books[i], stakes)
  }

  ghost predicate DistinctTokens(books: seq<Book>)
  {
    forall i, j :: 0 <= i < j < |books| ==> books[i].stream.token != books[j].stream.token
  }

  ghost predicate ValidStakes(farm: Farm, stakes: map<string, int>)
  {
    farm.totalStaked == Total(stakes) && forall u :: u in stakes ==> 0 <= stakes[u]
  }

  /** What every reachable state satisfies. */
  ghost predicate Valid(s: State)
  {
    && ValidStakes(s.farm, s.stakes)
    && NonNegative(s.balances)
    && ValidBooks(s.books, s.stakes)
    && DistinctTokens(s.books)
  }

  lemma ShareIsStake(amount: int)
    ensures Share(amount) == amount
  {
    UnboostedIsExact(amount);
  }

  lemma AccrueValid(b: Book, f: Farm, stakes: map<string, int>, user: string, after: int, now: int)
    requires ValidBook(b, stakes) && ValidStakes(f, stakes) && 0 <= after
    ensures ValidBook(AccrueBook(b, f, user, Held(stakes, user), after, now), stakes[user := after])
  {
    TotalAtLeast(stakes);
    AdvanceSpec(b.stream, f.totalStaked, now, f.end);
    var t := AdvanceReward(b.stream, f.totalStaked, now, f.end);
    forall u | u in stakes
      ensures (stakes[u] * b.stream.acc) / SCALE <= (stakes[u] * t.acc) / SCALE
    {
      MulMono(b.stream.acc, t.acc, stakes[u]);
      FloorMono(stakes[u] * b.stream.acc, stakes[u] * t.acc, SCALE);
    }
    MulMono(0, after, t.acc);
    FloorMono(0, after * t.acc, SCALE);
  }

  lemma PayValid(b: Book, stakes: map<string, int>, user: string, only: Option<string>)
    requires ValidBook(b, stakes)
    ensures ValidBook(PayBook(b, user, only), stakes)
  {
  }

  lemma {:induction false} PayOutNonNegative(balances: Balances, books: seq<Book>, n: nat, user: string, chain: int,
                                               only: Option<string>)
    requires n <= |books| && NonNegative(balances)
    ensures NonNegative(PayOut(balances, books, n, user, chain, only))
  {
    if n != 0 { PayOutNonNegative(balances, books, n - 1, user, chain, only); }
  }

  /** All streams settle together. */
  lemma AccrueAllValid(s: State, user: string, after: int, now: int)
    requires Valid(s) && 0 <= after
    ensures var books := AccrueStake(s.books, s.farm, user, Share(Held(s.stakes, user)), Share(after), now);
            ValidBooks(books, s.stakes[user := after]) && DistinctTokens(books)
  {
    ShareIsStake(Held(s.stakes, user));
    ShareIsStake(after);
    forall i | 0 <= i < |s.books|
      ensures ValidBook(AccrueBook(s.books[i], s.farm, user, Held(s.stakes, user), after, now), s.stakes[user := after])
    {
      AccrueValid(s.books[i], s.farm, s.stakes, user, after, now);
    }
  }

  lemma FundValid(s: State, user: string, token: string, amount: int)
    requires Valid(s) && Fund(s, user, token, amount).Commit?
    ensures Valid(Fund(s, user, token, amount).state)
  {
  }

  lemma StakeValid(s: State, user: string, amount: int, now: int)
    requires Valid(s) && Stake(s, user, amount, now).Commit?
    ensures Valid(Stake(s, user, amount, now).state)
  {
    var after := Held(s.stakes, user) + amount;
    TotalUpdate(s.stakes, user, after);
    AccrueAllValid(s, user, after, now);
  }

  lemma UnstakeValid(s: State, user: string, amount: int, now: int)
    requires Valid(s) && Unstake(s, user, amount, now).Commit?
    ensures Valid(Unstake(s, user, amount, now).state)
  {
    var after := s.stakes[user] - amount;
    TotalUpdate(s.stakes, user, after);
    TotalAtLeast(s.stakes[user := after]);
    AccrueAllValid(s, user, after, now);
  }

  lemma PaidBooksValid(books: seq<Book>, stakes: map<string, int>, user: string, only: Option<string>)
    requires ValidBooks(books, stakes) && DistinctTokens(books)
    ensures ValidBooks(PayBooks(books, user, only), stakes) && DistinctTokens(PayBooks(books, user, only))
  {
    forall i | 0 <= i < |books| ensures ValidBook(PayBook(books[i], user, only), stakes) {
      PayValid(books[i], stakes, user, only);
    }
  }

  lemma ClaimValid(s: State, user: string, only: Option<string>, now: int)
    requires Valid(s) && Claim(s, user, only, now).Commit?
    ensures Valid(Claim(s, user, only, now).state)
  {
    AccrueAllValid(s, user, s.stakes[user], now);
    assert s.stakes[user := s.stakes[user]] == s.stakes;
    var share := Share(s.stakes[user]);
    var books := AccrueStake(s.books, s.farm, user, share, share, now);
    PaidBooksValid(books, s.stakes, user, only);
    PayOutNonNegative(s.balances, books, |books|, user, s.farm.chain, only);
  }

  lemma ApplyValid(s: State, op: Op)
    requires Valid(s)
    ensures Valid(Apply(s, op))
    ensures |Apply(s, op).books| == |s.books|
  {
    if Attempted(s, op).Commit? {
      match op
      case FundOp(u, t, a) => FundValid(s, u, t, a);
      case StakeOp(u, a, now) => StakeValid(s, u, a, now);
      case UnstakeOp(u, a, now) => UnstakeValid(s, u, a, now);
      case ClaimOp(u, only, now) => ClaimValid(s, u, only, now);
      case UpdateOp(_, _, _) =>
    }
  }

  /** In every reachable state total_staked is the sum of the stakes, no stream
      distributes more than it was funded, and no balance is negative. */
  lemma {:induction false} RunValid(s: State, ops: seq<Op>)
    requires Genesis(s)
    ensures Valid(Run(s, ops)) && |Run(s, ops).books| == |s.books|
    decreases |ops|
  {
    if ops != [] {
      RunValid(s, ops[..|ops| - 1]);
      ApplyValid(Run(s, ops[..|ops| - 1]), ops[|ops| - 1]);
    }
  }
}
