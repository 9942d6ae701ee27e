/** Rounding dust in the farm can be paid out: a stake change rounds its new debt down,
    and what that gives the staker is not taken from anyone. */
module FarmDust {
  import opened Outcomes
  import opened Sums
  import opened Ledgers
  import opened FixedPoint
  import opened FarmAccumulator
  import opened FarmRuns
  import opened FarmSolvency

  /** No step of the run lets the acting staker's fraction grow. Whether a stake or
      unstake would do so is known before it is made. */
  ghost predicate GainFree(s: State, ops: seq<Op>, i: nat)
    requires i < |s.books|
  {
    ops == [] ||
    var front := ops[..|ops| - 1];
    && GainFree(s, front, i)
    && (RunBooks(s, front);
        BooksKept(Run(s, front), ops[|ops| - 1]);
        GainedIn(Run(s, front), ops[|ops| - 1], i) <= 0)
  }

  lemma {:induction false} GainFreeTotal(s: State, ops: seq<Op>, i: nat)
    requires i < |s.books| && GainFree(s, ops, i)
    ensures GainedOver(s, ops, i) <= 0
    decreases |ops|
  {
    if ops != [] { GainFreeTotal(s, ops[..|ops| - 1], i); }
  }

  /** Runs whose stake changes never gain a fraction are solvent to the unit: all that
      is claimed, accrued and pending was distributed, hence funded. */
  lemma GainFreeSolvent(s: State, ops: seq<Op>, i: nat)
    requires Genesis(s) && i < |s.books| && GainFree(s, ops, i)
    ensures var t := Run(s, ops);
            && |t.books| == |s.books|
            && Owed(t.books[i], t.stakes) <= t.books[i].stream.distributed <= t.books[i].stream.totalReward
  {
    GainFreeTotal(s, ops, i);
    Solvency(s, ops, i);
    SolventIff(s, ops, i);
    RunSlack(s, ops, i);
    RunValid(s, ops);
    SlackMeaning(Run(s, ops).books[i], Run(s, ops).stakes);
  }

  // ---- A run that pays out more than was funded ----

  // The accumulator after each emission.
  const AFTER_TWO := 666_666_666_666_666_666
  const AFTER_THREE := 833_333_333_333_333_332
  const AFTER_FOUR := 1_033_333_333_333_333_332

  function Wallets(funder: int, aLp: int, bLp: int): Balances
  {
    map[Account("funder", 1, "rwd") := funder, Account("a", 1, "lp") := aLp, Account("b", 1, "lp") := bLp]
  }

  function Rewards(acc: int, last: int, funded: int, distributed: int): Stream
  {
    Stream("rwd", 1, acc, last * SECOND, funded, distributed)
  }

  function At(stream: Stream, marks: map<string, Mark>, stakes: map<string, int>, staked: int, balances: Balances)
    : State
  {
    State(Farm(1, "lp", staked, SECOND, 100 * SECOND, Active), [Book(stream, marks)], stakes, balances)
  }

  function Opened(): State
  {
    At(Rewards(0, 1, 0, 0), map[], map[], 0, Wallets(4, 6, 3))
  }

  function Funded(): State
  {
    At(Rewards(0, 1, 4, 0), map[], map[], 0, Wallets(0, 6, 3))
  }

  function OneIn(): State
  {
    At(Rewards(0, 1, 4, 0), map["a" := Mark(0, 0, 0)], map["a" := 3], 3, Wallets(0, 3, 3))
  }

  function BothIn(): State
  {
    At(Rewards(AFTER_TWO, 3, 4, 2), map["a" := Mark(0, 0, 0), "b" := Mark(1, 0, 0)], map["a" := 3, "b" := 3], 6,
       Wallets(0, 3, 0))
  }

  function Trimmed(): State
  {
    At(Rewards(AFTER_THREE, 4, 4, 3), map["a" := Mark(1, 2, 0), "b" := Mark(1, 0, 0)], map["a" := 2, "b" := 3], 5,
       Wallets(0, 4, 0))
  }

  function Raised(): State
  {
    At(Rewards(AFTER_FOUR, 5, 4, 4), map["a" := Mark(5, 3, 0), "b" := Mark(1, 0, 0)], map["a" := 5, "b" := 3], 8,
       Wallets(0, 1, 0))
  }

  lemma Opening()
    ensures Apply(Opened(), FundOp("funder", "rwd", 4)) == Funded()
  {
    var t := Apply(Opened(), FundOp("funder", "rwd", 4));
    assert t.balances == Funded().balances;
    assert t.books == Funded().books;
  }

  lemma FirstIn()
    ensures Apply(Funded(), StakeOp("a", 3, 1 * SECOND)) == OneIn()
  {
    var t := Apply(Funded(), StakeOp("a", 3, 1 * SECOND));
    assert t.balances == OneIn().balances;
    assert t.books[0] == OneIn().books[0];
    assert t.books == OneIn().books;
  }

  lemma SecondIn()
    ensures Apply(OneIn(), StakeOp("b", 3, 3 * SECOND)) == BothIn()
  {
    var t := Apply(OneIn(), StakeOp("b", 3, 3 * SECOND));
    assert t.balances == BothIn().balances;
    assert t.books[0] == BothIn().books[0];
    assert t.books == BothIn().books;
  }

  lemma Trim()
    ensures Apply(BothIn(), UnstakeOp("a", 1, 4 * SECOND)) == Trimmed()
  {
    var t := Apply(BothIn(), UnstakeOp("a", 1, 4 * SECOND));
    assert t.balances == Trimmed().balances;
    assert t.books[0] == Trimmed().books[0];
    assert t.books == Trimmed().books;
  }

  lemma Raise()
    ensures Apply(Trimmed(), StakeOp("a", 3, 5 * SECOND)) == Raised()
  {
    var t := Apply(Trimmed(), StakeOp("a", 3, 5 * SECOND));
    assert t.balances == Raised().balances;
    assert t.books[0] == Raised().books[0];
    assert t.books == Raised().books;
  }

  function OnePaid(): State
  {
    var s := Raised();
    At(Rewards(AFTER_FOUR, 5, 4, 4), map["a" := Mark(5, 0, 3), "b" := Mark(1, 0, 0)], s.stakes, 8,
       s.balances[Account("a", 1, "rwd") := 3])
  }

  function BothPaid(): State
  {
    var s := OnePaid();
    At(Rewards(AFTER_FOUR, 5, 4, 4), map["a" := Mark(5, 0, 3), "b" := Mark(3, 0, 2)], s.stakes, 8,
       s.balances[Account("b", 1, "rwd") := 2])
  }

  lemma OneStreamPays(s: State, user: string, now: int)
    requires user in s.stakes && |s.books| == 1
    ensures var share := Share(s.stakes[user]);
            var b := AccrueBook(s.books[0], s.farm, user, share, share, now);
            var paid := b.marks[user].accrued;
            0 < paid ==>
              Claim(s, user, None, now).state.balances ==
              Credit(s.balances, Account(user, s.farm.chain, b.stream.token), paid).state
  {
    var share := Share(s.stakes[user]);
    var books := AccrueStake(s.books, s.farm, user, share, share, now);
    assert PayOut(s.balances, books, 0, user, s.farm.chain, None) == s.balances;
    assert Claim(s, user, None, now).state.balances == PayOut(s.balances, books, 1, user, s.farm.chain, None);
  }

  lemma PayFirst()
    ensures Apply(Raised(), ClaimOp("a", None, 5 * SECOND)) == OnePaid()
  {
    var s, t := Raised(), Apply(Raised(), ClaimOp("a", None, 5 * SECOND));
    OneStreamPays(s, "a", 5 * SECOND);
    assert t.books[0] == OnePaid().books[0];
    assert t.books == OnePaid().books;
    assert t.balances == OnePaid().balances;
  }

  lemma PaySecond()
    ensures Apply(OnePaid(), ClaimOp("b", None, 5 * SECOND)) == BothPaid()
  {
    var s, t := OnePaid(), Apply(OnePaid(), ClaimOp("b", None, 5 * SECOND));
    OneStreamPays(s, "b", 5 * SECOND);
    assert t.books[0] == BothPaid().books[0];
    assert t.books == BothPaid().books;
    assert t.balances == BothPaid().balances;
  }

  lemma Snoc(s: State, ops: seq<Op>, op: Op, next: State)
    requires Apply(Run(s, ops), op) == next
    ensures Run(s, ops + [op]) == next
  {
    assert (ops + [op])[..|ops|] == ops;
  }

  lemma StakesMoved() returns (ops: seq<Op>)
    ensures Run(Opened(), ops) == Raised()
  {
    ops := [];
    Opening();
    Snoc(Opened(), ops, FundOp("funder", "rwd", 4), Funded());
    ops := ops + [FundOp("funder", "rwd", 4)];
    FirstIn();
    Snoc(Opened(), ops, StakeOp("a", 3, 1 * SECOND), OneIn());
    ops := ops + [StakeOp("a", 3, 1 * SECOND)];
    SecondIn();
    Snoc(Opened(), ops, StakeOp("b", 3, 3 * SECOND), BothIn());
    ops := ops + [StakeOp("b", 3, 3 * SECOND)];
    Trim();
    Snoc(Opened(), ops, UnstakeOp("a", 1, 4 * SECOND), Trimmed());
    ops := ops + [UnstakeOp("a", 1, 4 * SECOND)];
    Raise();
    Snoc(Opened(), ops, StakeOp("a", 3, 5 * SECOND), Raised());
    ops := ops + [StakeOp("a", 3, 5 * SECOND)];
  }

  lemma ClaimedPair(b: Book, x: int, y: int)
    requires b.marks.Keys == {"a", "b"} && b.marks["a"].claimed == x && b.marks["b"].claimed == y
    ensures Claimed(b) == x + y
  {
    var none: map<string, int> := map[];
    TotalUpdate(none, "a", x);
    TotalUpdate(none["a" := x], "b", y);
    assert (map u | u in b.marks :: b.marks[u].claimed) == none["a" := x]["b" := y];
  }

  lemma AllPaid() returns (ops: seq<Op>)
    ensures Run(Opened(), ops) == BothPaid()
  {
    ops := StakesMoved();
    PayFirst();
    Snoc(Opened(), ops, ClaimOp("a", None, 5 * SECOND), OnePaid());
    ops := ops + [ClaimOp("a", None, 5 * SECOND)];
    PaySecond();
    Snoc(Opened(), ops, ClaimOp("b", None, 5 * SECOND), BothPaid());
    ops := ops + [ClaimOp("b", None, 5 * SECOND)];
  }

  /** Exact solvency is false of the code: a run that funds a stream with four units
      and pays five of them out, both claims committing. */
  lemma PaysMoreThanFunded() returns (s: State, ops: seq<Op>)
    ensures Genesis(s) && |s.books| == 1 && |Run(s, ops).books| == 1
    ensures Run(s, ops).books[0].stream.totalReward == 4
    ensures Claimed(Run(s, ops).books[0]) == 5
  {
    s := Opened();
    ops := AllPaid();
    ClaimedPair(BothPaid().books[0], 3, 2);
  }
}
