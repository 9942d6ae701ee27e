/** What whole farm runs promise about money: the exact account of rounding dust,
    solvency up to it, and agreement with a pro-rata split. */
module FarmSolvency {
  import opened Outcomes
  import opened Sums
  import opened FixedPoint
  import opened FarmAccumulator
  import opened FarmRuns

  // ---- What stakers are owed ----

  /** Claimed, accrued and pending reward of one staker in one stream. */
  function Earned(b: Book, stakes: map<string, int>, user: string): int
    requires user in b.marks
  {
    var m := b.marks[user];
    m.claimed + m.accrued + PendingFor(Held(stakes, user), b.stream.acc, m.debt)
  }

  ghost function Owed(b: Book, stakes: map<string, int>): int
  {
    Total(map u | u in b.marks :: Earned(b, stakes, u))
  }

  ghost function Claimed(b: Book): int
  {
    Total(map u | u in b.marks :: b.marks[u].claimed)
  }

  /** The part of a staker's accumulated share that flooring holds back for now. */
  function Fraction(b: Book, stakes: map<string, int>, user: string): int
  {
    (Held(stakes, user) * b.stream.acc) % SCALE
  }

  ghost function Fractions(b: Book, stakes: map<string, int>): int
  {
    Total(map u | u in b.marks :: Fraction(b, stakes, u))
  }

  /** A staker's unrounded entitlement, scaled. */
  function Potential(m: Mark, stake: int, acc: int): int
  {
    SCALE * (m.claimed + m.accrued - m.debt) + stake * acc
  }

  ghost function Potentials(b: Book, stakes: map<string, int>): map<string, int>
  {
    map u | u in b.marks :: Potential(b.marks[u], Held(stakes, u), b.stream.acc)
  }

  /** Distributed reward not yet owed to anyone, scaled. */
  ghost function Slack(b: Book, stakes: map<string, int>): int
  {
    SCALE * b.stream.distributed - Total(Potentials(b, stakes))
  }

  lemma EarnedPotential(b: Book, stakes: map<string, int>, u: string)
    requires ValidBook(b, stakes) && u in b.marks
    ensures SCALE * Earned(b, stakes, u) + Fraction(b, stakes, u) ==
            Potential(b.marks[u], stakes[u], b.stream.acc)
  {
  }

  /** Slack is what remains of the distributed total after the owed units and the
      fractions still held back. */
  lemma SlackMeaning(b: Book, stakes: map<string, int>)
    requires ValidBook(b, stakes)
    ensures Slack(b, stakes) == SCALE * (b.stream.distributed - Owed(b, stakes)) - Fractions(b, stakes)
    ensures 0 <= Fractions(b, stakes)
  {
    var owed := map u | u in b.marks :: Earned(b, stakes, u);
    var fractions := map u | u in b.marks :: Fraction(b, stakes, u);
    forall u | u in b.marks
      ensures Potentials(b, stakes)[u] == SCALE * owed[u] + 1 * fractions[u]
    {
      EarnedPotential(b, stakes, u);
    }
    TotalCombine(owed, fractions, SCALE, 1, Potentials(b, stakes));
    TotalAtLeast(fractions);
  }

  // ---- One settlement ----

  /** What the accumulator's floor drops from an emission. */
  function Dropped(emission: int, totalStaked: int): int
  {
    if totalStaked <= 0 then 0 else (emission * SCALE) % totalStaked
  }

  /** What an amount change adds to, or takes from, the fraction held back. */
  function FractionStep(before: int, after: int, acc: int): int
  {
    (after * acc) % SCALE - (before * acc) % SCALE
  }

  lemma AdvanceSlack(b: Book, f: Farm, stakes: map<string, int>, now: int)
    requires ValidBook(b, stakes) && ValidStakes(f, stakes)
    ensures var t := AdvanceReward(b.stream, f.totalStaked, now, f.end);
            Slack(b.(stream := t), stakes) ==
            Slack(b, stakes) + Dropped(Emitted(b.stream, t), f.totalStaked)
  {
    var t := AdvanceReward(b.stream, f.totalStaked, now, f.end);
    TotalAtLeast(stakes);
    AdvanceSpec(b.stream, f.totalStaked, now, f.end);
    var d, x := t.acc - b.stream.acc, Emitted(b.stream, t);
    var before, after := Potentials(b, stakes), Potentials(b.(stream := t), stakes);
    forall u | u in after ensures after[u] == 1 * before[u] + d * stakes[u] {
      Distribute(stakes[u], b.stream.acc, d);
    }
    TotalCombine(before, stakes, 1, d, after);
    AccumulatorDust(d, x, f.totalStaked);
    Distribute(SCALE, b.stream.distributed, x);
  }

  /** The accumulator's rise, spread over the whole stake, is the emission less the
      dropped dust. */
  lemma AccumulatorDust(d: int, emission: int, totalStaked: int)
    requires 0 <= totalStaked
    requires if totalStaked == 0 then d == 0 && emission == 0 else d == (emission * SCALE) / totalStaked
    ensures d * totalStaked == SCALE * emission - Dropped(emission, totalStaked)
  {
  }

  /** Settling a staker moves the slack by exactly the dropped emission less the
      growth of the staker's fraction: nothing else is created or lost. */
  lemma AccrueSlack(b: Book, f: Farm, stakes: map<string, int>, user: string, after: int, now: int)
    requires ValidBook(b, stakes) && ValidStakes(f, stakes) && 0 <= after
    ensures var c := AccrueBook(b, f, user, Held(stakes, user), after, now);
            Slack(c, stakes[user := after]) ==
            Slack(b, stakes) + Dropped(Emitted(b.stream, c.stream), f.totalStaked)
            - FractionStep(Held(stakes, user), after, c.stream.acc)
  {
    var c := AccrueBook(b, f, user, Held(stakes, user), after, now);
    AdvanceSlack(b, f, stakes, now);
    TotalAtLeast(stakes);
    AdvanceSpec(b.stream, f.totalStaked, now, f.end);
    var mid := b.(stream := c.stream);
    var p := Potential(c.marks[user], after, c.stream.acc);
    assert Potentials(c, stakes[user := after]) == Potentials(mid, stakes)[user := p];
    TotalUpdate(Potentials(mid, stakes), user, p);
    MarkPotential(b, f, stakes, user, after, now);
  }

  lemma MarkPotential(b: Book, f: Farm, stakes: map<string, int>, user: string, after: int, now: int)
    requires ValidBook(b, stakes) && ValidStakes(f, stakes) && 0 <= after
    ensures var c := AccrueBook(b, f, user, Held(stakes, user), after, now);
            && Potential(c.marks[user], after, c.stream.acc) ==
               (if user in b.marks then Potential(b.marks[user], stakes[user], c.stream.acc) else 0)
               + FractionStep(Held(stakes, user), after, c.stream.acc)
  {
    var acc := AdvanceReward(b.stream, f.totalStaked, now, f.end).acc;
    TotalAtLeast(stakes);
    AdvanceSpec(b.stream, f.totalStaked, now, f.end);
    assert after * acc == ((after * acc) / SCALE) * SCALE + (after * acc) % SCALE;
    if user in b.marks {
      var a := stakes[user];
      MulMono(b.stream.acc, acc, a);
      FloorMono(a * b.stream.acc, a * acc, SCALE);
      assert a * acc == ((a * acc) / SCALE) * SCALE + (a * acc) % SCALE;
    }
  }

  lemma PaySlack(b: Book, stakes: map<string, int>, user: string, only: Option<string>)
    ensures Slack(PayBook(b, user, only), stakes) == Slack(b, stakes)
  {
    var c := PayBook(b, user, only);
    assert Potentials(c, stakes) == Potentials(b, stakes);
  }

  // ---- Runs ----

  /** Dust dropped by stream `i`'s accumulator in one step. */
  function DroppedIn(s: State, op: Op, i: nat): int
    requires i < |s.books| == |Apply(s, op).books|
  {
    Dropped(Emitted(s.books[i].stream, Apply(s, op).books[i].stream), s.farm.totalStaked)
  }

  /** Growth of the acting staker's fraction in stream `i`; zero unless their
      amount changes. */
  function GainedIn(s: State, op: Op, i: nat): int
    requires i < |s.books| == |Apply(s, op).books|
  {
    if op.StakeOp? || op.UnstakeOp? then
      var t := Apply(s, op);
      FractionStep(Held(s.stakes, op.user), Held(t.stakes, op.user), t.books[i].stream.acc)
    else 0
  }

  function ChangedIn(s: State, op: Op): nat
  {
    if Apply(s, op).stakes != s.stakes then 1 else 0
  }

  lemma BooksKept(s: State, op: Op)
    ensures |Apply(s, op).books| == |s.books|
  {
  }

  lemma {:induction false} RunBooks(s: State, ops: seq<Op>)
    ensures |Run(s, ops).books| == |s.books|
    decreases |ops|
  {
    if ops != [] {
      RunBooks(s, ops[..|ops| - 1]);
      BooksKept(Run(s, ops[..|ops| - 1]), ops[|ops| - 1]);
    }
  }

  ghost function DroppedOver(s: State, ops: seq<Op>, i: nat): int
    requires i < |s.books|
  {
    if ops == [] then 0 else
      var front := ops[..|ops| - 1];
      RunBooks(s, front);
      BooksKept(Run(s, front), ops[|ops| - 1]);
      DroppedOver(s, front, i) + DroppedIn(Run(s, front), ops[|ops| - 1], i)
  }

  ghost function GainedOver(s: State, ops: seq<Op>, i: nat): int
    requires i < |s.books|
  {
    if ops == [] then 0 else
      var front := ops[..|ops| - 1];
      RunBooks(s, front);
      BooksKept(Run(s, front), ops[|ops| - 1]);
      GainedOver(s, front, i) + GainedIn(Run(s, front), ops[|ops| - 1], i)
  }

  /** How many committed stake-amount changes a run holds. */
  ghost function Changes(s: State, ops: seq<Op>): nat
  {
    if ops == [] then 0 else
      Changes(s, ops[..|ops| - 1]) + ChangedIn(Run(s, ops[..|ops| - 1]), ops[|ops| - 1])
  }

  lemma SettleSlack(s: State, i: nat, user: string, after: int, now: int)
    requires Valid(s) && i < |s.books| && 0 <= after
    ensures var b := AccrueStake(s.books, s.farm, user, Share(Held(s.stakes, user)), Share(after), now)[i];
            Slack(b, s.stakes[user := after]) ==
            Slack(s.books[i], s.stakes) + Dropped(Emitted(s.books[i].stream, b.stream), s.farm.totalStaked)
            - FractionStep(Held(s.stakes, user), after, b.stream.acc)
  {
    ShareIsStake(Held(s.stakes, user));
    ShareIsStake(after);
    AccrueSlack(s.books[i], s.farm, s.stakes, user, after, now);
  }

  lemma NothingEmitted(b: Book, c: Book, totalStaked: int)
    requires b.stream.distributed == c.stream.distributed
    ensures Dropped(Emitted(b.stream, c.stream), totalStaked) == 0
  {
  }

  lemma FundSlack(s: State, op: Op, i: nat)
    requires Valid(s) && i < |s.books| && op.FundOp? && Attempted(s, op).Commit?
    ensures Slack(Apply(s, op).books[i], Apply(s, op).stakes) ==
            Slack(s.books[i], s.stakes) + DroppedIn(s, op, i) - GainedIn(s, op, i)
  {
    var t := Apply(s, op);
    NothingEmitted(s.books[i], t.books[i], s.farm.totalStaked);
    assert Potentials(t.books[i], t.stakes) == Potentials(s.books[i], s.stakes);
  }

  lemma StakeSlack(s: State, op: Op, i: nat)
    requires Valid(s) && i < |s.books| && op.StakeOp? && Attempted(s, op).Commit?
    ensures Slack(Apply(s, op).books[i], Apply(s, op).stakes) ==
            Slack(s.books[i], s.stakes) + DroppedIn(s, op, i) - GainedIn(s, op, i)
  {
    SettleSlack(s, i, op.user, Held(s.stakes, op.user) + op.amount, op.now);
  }

  lemma UnstakeSlack(s: State, op: Op, i: nat)
    requires Valid(s) && i < |s.books| && op.UnstakeOp? && Attempted(s, op).Commit?
    ensures Slack(Apply(s, op).books[i], Apply(s, op).stakes) ==
            Slack(s.books[i], s.stakes) + DroppedIn(s, op, i) - GainedIn(s, op, i)
  {
    SettleSlack(s, i, op.user, s.stakes[op.user] - op.amount, op.now);
  }

  lemma ClaimSlack(s: State, op: Op, i: nat)
    requires Valid(s) && i < |s.books| && op.ClaimOp? && Attempted(s, op).Commit?
    ensures Slack(Apply(s, op).books[i], Apply(s, op).stakes) ==
            Slack(s.books[i], s.stakes) + DroppedIn(s, op, i) - GainedIn(s, op, i)
  {
    var stake := s.stakes[op.user];
    SettleSlack(s, i, op.user, stake, op.now);
    assert s.stakes[op.user := stake] == s.stakes;
    var share := Share(stake);
    PaySlack(AccrueStake(s.books, s.farm, op.user, share, share, op.now)[i], s.stakes, op.user, op.only);
  }

  /** Every step moves a stream's slack by exactly what its accumulator dropped less
      what the acting staker's fraction gained. */
  lemma StepSlack(s: State, op: Op, i: nat)
    requires Valid(s) && i < |s.books| == |Apply(s, op).books|
    ensures Slack(Apply(s, op).books[i], Apply(s, op).stakes) ==
            Slack(s.books[i], s.stakes) + DroppedIn(s, op, i) - GainedIn(s, op, i)
  {
    var t := Apply(s, op);
    if Attempted(s, op).Commit? {
      match op
      case FundOp(u, token, a) => FundSlack(s, op, i);
      case StakeOp(u, a, now) => StakeSlack(s, op, i);
      case UnstakeOp(u, a, now) => UnstakeSlack(s, op, i);
      case ClaimOp(u, only, now) => ClaimSlack(s, op, i);
      case UpdateOp(_, _, _) => NothingEmitted(s.books[i], t.books[i], s.farm.totalStaked);
    } else {
      NothingEmitted(s.books[i], t.books[i], s.farm.totalStaked);
    }
  }

  lemma StepGain(s: State, op: Op, i: nat)
    requires Valid(s) && i < |s.books| == |Apply(s, op).books|
    ensures 0 <= DroppedIn(s, op, i)
    ensures GainedIn(s, op, i) <= ChangedIn(s, op) * (SCALE - 1)
  {
  }

  /** The dust account of a stream over any run, exactly: the distributed total less
      what all stakers are owed is the emission the accumulator dropped, less the
      fractions that stake changes gained, plus the fractions held back now. */
  lemma {:induction false} DustAccount(s: State, ops: seq<Op>, i: nat)
    requires Genesis(s) && i < |s.books|
    ensures var t := Run(s, ops);
            && |t.books| == |s.books| && Valid(t)
            && SCALE * (t.books[i].stream.distributed - Owed(t.books[i], t.stakes)) ==
               DroppedOver(s, ops, i) - GainedOver(s, ops, i) + Fractions(t.books[i], t.stakes)
    decreases |ops|
  {
    RunValid(s, ops);
    RunSlack(s, ops, i);
    var t := Run(s, ops);
    SlackMeaning(t.books[i], t.stakes);
  }

  lemma {:induction false} RunSlack(s: State, ops: seq<Op>, i: nat)
    requires Genesis(s) && i < |s.books|
    ensures var t := Run(s, ops);
            && |t.books| == |s.books|
            && Slack(t.books[i], t.stakes) == DroppedOver(s, ops, i) - GainedOver(s, ops, i)
            && 0 <= DroppedOver(s, ops, i)
            && GainedOver(s, ops, i) <= Changes(s, ops) * (SCALE - 1)
    decreases |ops|
  {
    if ops == [] {
      assert Potentials(s.books[i], s.stakes) == map[];
    } else {
      var front := ops[..|ops| - 1];
      RunSlack(s, front, i);
      RunValid(s, front);
      BooksKept(Run(s, front), ops[|ops| - 1]);
      StepSlack(Run(s, front), ops[|ops| - 1], i);
      StepGain(Run(s, front), ops[|ops| - 1], i);
    }
  }

  /** Solvency of every stream over every run: nothing is distributed beyond the
      funding, and everything owed is covered by what was distributed, up to one
      unit for each stake-amount change. */
  lemma Solvency(s: State, ops: seq<Op>, i: nat)
    requires Genesis(s) && i < |s.books|
    ensures var t := Run(s, ops);
            && |t.books| == |s.books|
            && t.books[i].stream.distributed <= t.books[i].stream.totalReward
            && Owed(t.books[i], t.stakes) <= t.books[i].stream.distributed + Changes(s, ops)
            && Claimed(t.books[i]) <= t.books[i].stream.totalReward + Changes(s, ops)
  {
    DustAccount(s, ops, i);
    RunSlack(s, ops, i);
    var t := Run(s, ops);
    var b := t.books[i];
    SlackMeaning(b, t.stakes);
    TotalMono(map u | u in b.marks :: b.marks[u].claimed, map u | u in b.marks :: Earned(b, t.stakes, u));
  }

  /** Full solvency exactly: the owed total is covered outright if and only if the
      gained fractions do not exceed the dropped dust and the fractions held back. */
  lemma SolventIff(s: State, ops: seq<Op>, i: nat)
    requires Genesis(s) && i < |s.books|
    ensures var t := Run(s, ops);
            && |t.books| == |s.books|
            && (Owed(t.books[i], t.stakes) <= t.books[i].stream.distributed <==>
                  GainedOver(s, ops, i) <= DroppedOver(s, ops, i) + Fractions(t.books[i], t.stakes))
  {
    DustAccount(s, ops, i);
  }
}
