/** The accumulator against a naive pro-rata split, over whole farm runs. */
module FarmFairness {
  import opened Sums
  import opened FixedPoint
  import opened FarmAccumulator
  import opened FarmRuns
  import opened FarmSolvency

  // ---- The naive split ----

  /** One interval's exact share: emission times stake over total stake. */
  function Portion(emission: int, stake: int, totalStaked: int): real
  {
    if totalStaked <= 0 then 0.0 else (emission as real) * (stake as real) / (totalStaked as real)
  }

  function FairIn(s: State, op: Op, i: nat, user: string): real
    requires i < |s.books| == |Apply(s, op).books|
  {
    Portion(Emitted(s.books[i].stream, Apply(s, op).books[i].stream), Held(s.stakes, user), s.farm.totalStaked)
  }

  /** The naive ledger: every interval's emission split exactly by stake. */
  ghost function Fair(s: State, ops: seq<Op>, i: nat, user: string): real
    requires i < |s.books|
  {
    if ops == [] then 0.0 else
      var front := ops[..|ops| - 1];
      RunBooks(s, front);
      BooksKept(Run(s, front), ops[|ops| - 1]);
      Fair(s, front, i, user) + FairIn(Run(s, front), ops[|ops| - 1], i, user)
  }

  /** Units of stake times accumulator advances: the exposure to its floor. */
  function DragIn(s: State, op: Op, i: nat, user: string): int
    requires i < |s.books| == |Apply(s, op).books|
  {
    if Emitted(s.books[i].stream, Apply(s, op).books[i].stream) == 0 then 0 else Held(s.stakes, user)
  }

  ghost function Drag(s: State, ops: seq<Op>, i: nat, user: string): int
    requires i < |s.books|
  {
    if ops == [] then 0 else
      var front := ops[..|ops| - 1];
      RunBooks(s, front);
      BooksKept(Run(s, front), ops[|ops| - 1]);
      Drag(s, front, i, user) + DragIn(Run(s, front), ops[|ops| - 1], i, user)
  }

  function ChangedBy(s: State, op: Op, user: string): nat
  {
    if Held(Apply(s, op).stakes, user) != Held(s.stakes, user) then 1 else 0
  }

  /** How often a staker's own amount changed. */
  ghost function ChangesBy(s: State, ops: seq<Op>, user: string): nat
  {
    if ops == [] then 0 else
      ChangesBy(s, ops[..|ops| - 1], user) + ChangedBy(Run(s, ops[..|ops| - 1]), ops[|ops| - 1], user)
  }

  /** The scaled entitlement of a staker, zero before their first stake. */
  function Entitled(b: Book, stakes: map<string, int>, user: string): int
  {
    if user in b.marks then Potential(b.marks[user], Held(stakes, user), b.stream.acc) else 0
  }

  function FractionChange(s: State, op: Op, i: nat, user: string): int
    requires i < |s.books| == |Apply(s, op).books|
  {
    var t := Apply(s, op);
    FractionStep(Held(s.stakes, user), Held(t.stakes, user), t.books[i].stream.acc)
  }

  function Rise(s: State, op: Op, i: nat): int
    requires i < |s.books| == |Apply(s, op).books|
  {
    Apply(s, op).books[i].stream.acc - s.books[i].stream.acc
  }

  lemma AccrueEntitled(b: Book, f: Farm, stakes: map<string, int>, actor: string, after: int, now: int, user: string)
    requires ValidBook(b, stakes) && ValidStakes(f, stakes) && 0 <= after
    ensures var c := AccrueBook(b, f, actor, Held(stakes, actor), after, now);
            Entitled(c, stakes[actor := after], user) ==
            Entitled(b, stakes, user) + Held(stakes, user) * (c.stream.acc - b.stream.acc)
            + FractionStep(Held(stakes, user), Held(stakes[actor := after], user), c.stream.acc)
  {
    var c := AccrueBook(b, f, actor, Held(stakes, actor), after, now);
    MarkPotential(b, f, stakes, actor, after, now);
    Distribute(Held(stakes, user), b.stream.acc, c.stream.acc - b.stream.acc);
  }

  lemma StreamUntouched(s: State, op: Op, i: nat)
    requires i < |s.books| && (Attempted(s, op).Abort? || op.FundOp? || op.UpdateOp?)
    ensures var t := Apply(s, op);
            && t.stakes == s.stakes && t.books[i].marks == s.books[i].marks
            && t.books[i].stream.acc == s.books[i].stream.acc
            && Emitted(s.books[i].stream, t.books[i].stream) == 0
  {
  }

  /** A settlement of the whole farm, seen from one stream. */
  lemma SettledEntitled(s: State, i: nat, actor: string, after: int, now: int, user: string)
    requires Valid(s) && i < |s.books| && 0 <= after
    ensures var c := AccrueStake(s.books, s.farm, actor, Share(Held(s.stakes, actor)), Share(after), now)[i];
            Entitled(c, s.stakes[actor := after], user) ==
            Entitled(s.books[i], s.stakes, user) + Held(s.stakes, user) * (c.stream.acc - s.books[i].stream.acc)
            + FractionStep(Held(s.stakes, user), Held(s.stakes[actor := after], user), c.stream.acc)
  {
    ShareIsStake(Held(s.stakes, actor));
    ShareIsStake(after);
    AccrueEntitled(s.books[i], s.farm, s.stakes, actor, after, now, user);
  }

  lemma StakeEntitled(s: State, op: Op, i: nat, user: string)
    requires Valid(s) && i < |s.books| && op.StakeOp? && Attempted(s, op).Commit?
    ensures var t := Apply(s, op);
            Entitled(t.books[i], t.stakes, user) ==
            Entitled(s.books[i], s.stakes, user) + Held(s.stakes, user) * Rise(s, op, i)
            + FractionChange(s, op, i, user)
  {
    SettledEntitled(s, i, op.user, Held(s.stakes, op.user) + op.amount, op.now, user);
  }

  lemma UnstakeEntitled(s: State, op: Op, i: nat, user: string)
    requires Valid(s) && i < |s.books| && op.UnstakeOp? && Attempted(s, op).Commit?
    ensures var t := Apply(s, op);
            Entitled(t.books[i], t.stakes, user) ==
            Entitled(s.books[i], s.stakes, user) + Held(s.stakes, user) * Rise(s, op, i)
            + FractionChange(s, op, i, user)
  {
    SettledEntitled(s, i, op.user, s.stakes[op.user] - op.amount, op.now, user);
  }

  lemma ClaimEntitled(s: State, op: Op, i: nat, user: string)
    requires Valid(s) && i < |s.books| && op.ClaimOp? && Attempted(s, op).Commit?
    ensures var t := Apply(s, op);
            Entitled(t.books[i], t.stakes, user) ==
            Entitled(s.books[i], s.stakes, user) + Held(s.stakes, user) * Rise(s, op, i)
            + FractionChange(s, op, i, user)
  {
    var stake := s.stakes[op.user];
    var share := Share(stake);
    SettledEntitled(s, i, op.user, stake, op.now, user);
    assert s.stakes[op.user := stake] == s.stakes;
    var c := AccrueStake(s.books, s.farm, op.user, share, share, op.now)[i];
    var d := PayBook(c, op.user, op.only);
    assert Apply(s, op).books[i] == d && Apply(s, op).stakes == s.stakes;
    assert Entitled(d, s.stakes, user) == Entitled(c, s.stakes, user);
  }

  /** In every step a staker's entitlement grows by stake times the accumulator's
      rise, plus the change of their held fraction. */
  lemma StepEntitled(s: State, op: Op, i: nat, user: string)
    requires Valid(s) && i < |s.books| == |Apply(s, op).books|
    ensures var t := Apply(s, op);
            Entitled(t.books[i], t.stakes, user) ==
            Entitled(s.books[i], s.stakes, user) + Held(s.stakes, user) * Rise(s, op, i)
            + FractionChange(s, op, i, user)
  {
    if Attempted(s, op).Abort? || op.FundOp? || op.UpdateOp? {
      StreamUntouched(s, op, i);
    } else if op.StakeOp? {
      StakeEntitled(s, op, i, user);
    } else if op.UnstakeOp? {
      UnstakeEntitled(s, op, i, user);
    } else {
      ClaimEntitled(s, op, i, user);
    }
  }

  lemma StreamAdvanced(s: State, op: Op, i: nat)
    requires i < |s.books| && (op.StakeOp? || op.UnstakeOp? || op.ClaimOp?) && Attempted(s, op).Commit?
    ensures i < |Apply(s, op).books|
    ensures Apply(s, op).books[i].stream ==
            AdvanceReward(s.books[i].stream, s.farm.totalStaked, op.now, s.farm.end)
  {
  }

  lemma RiseOfAdvance(s: Stream, totalStaked: int, now: int, endTime: int)
    requires Sound(s) && 0 <= totalStaked
    ensures var t := AdvanceReward(s, totalStaked, now, endTime);
            var e := Emitted(s, t);
            && 0 <= e
            && t.acc - s.acc == if totalStaked == 0 || e == 0 then 0 else (e * SCALE) / totalStaked
  {
    AdvanceSpec(s, totalStaked, now, endTime);
    if 0 < totalStaked { assert (0 * SCALE) / totalStaked == 0; }
  }

  /** A step emits nothing or advances the stream to its own instant. */
  lemma StepRise(s: State, op: Op, i: nat)
    requires Valid(s) && i < |s.books| == |Apply(s, op).books|
    ensures var e := Emitted(s.books[i].stream, Apply(s, op).books[i].stream);
            && 0 <= e && 0 <= s.farm.totalStaked
            && if s.farm.totalStaked == 0 || e == 0 then Rise(s, op, i) == 0
               else Rise(s, op, i) == (e * SCALE) / s.farm.totalStaked
  {
    TotalAtLeast(s.stakes);
    if Attempted(s, op).Abort? || op.FundOp? || op.UpdateOp? {
      StreamUntouched(s, op, i);
    } else {
      StreamAdvanced(s, op, i);
      RiseOfAdvance(s.books[i].stream, s.farm.totalStaked, op.now, s.farm.end);
    }
  }

  /** The accumulator's rise brackets the exact share of the emission. */
  lemma RiseBracket(s: State, op: Op, i: nat, user: string)
    requires Valid(s) && i < |s.books| == |Apply(s, op).books|
    ensures var grown := (Held(s.stakes, user) * Rise(s, op, i)) as real;
            var fair := (SCALE as real) * FairIn(s, op, i, user);
            && grown <= fair <= grown + DragIn(s, op, i, user) as real
            && 0 <= DragIn(s, op, i, user)
  {
    StepRise(s, op, i);
    PortionBracket(Emitted(s.books[i].stream, Apply(s, op).books[i].stream), Held(s.stakes, user),
                   s.farm.totalStaked, Rise(s, op, i));
  }

  lemma PortionOfNothing(stake: int, totalStaked: int)
    ensures Portion(0, stake, totalStaked) == 0.0
  {
    if 0 < totalStaked {
      assert 0.0 * (stake as real) == 0.0;
      assert 0.0 / (totalStaked as real) == 0.0;
    }
  }

  lemma PortionBracket(emission: int, stake: int, totalStaked: int, d: int)
    requires 0 <= emission && 0 <= stake && 0 <= totalStaked
    requires if totalStaked == 0 || emission == 0 then d == 0 else d == (emission * SCALE) / totalStaked
    ensures (stake * d) as real <= (SCALE as real) * Portion(emission, stake, totalStaked)
    ensures (SCALE as real) * Portion(emission, stake, totalStaked)
            <= (stake * d) as real + (if emission == 0 then 0 else stake) as real
  {
    if totalStaked == 0 || emission == 0 {
      if emission == 0 { PortionOfNothing(stake, totalStaked); }
      assert stake * d == 0;
    } else {
      var product := emission * stake * SCALE;
      FloorSpec(emission * SCALE, totalStaked, d);
      StakeTimes(emission, stake, totalStaked, d);
      RealQuotient(stake * d, product, totalStaked);
      RealQuotientBelow(product, stake * d + stake, totalStaked);
      ScaledPortion(emission, stake, totalStaked);
    }
  }

  lemma StakeTimes(emission: int, stake: int, totalStaked: int, d: int)
    requires 0 <= stake && d * totalStaked <= emission * SCALE < (d + 1) * totalStaked
    ensures (stake * d) * totalStaked <= emission * stake * SCALE <= (stake * d + stake) * totalStaked
  {
    MulMono(d * totalStaked, emission * SCALE, stake);
    MulMono(emission * SCALE, (d + 1) * totalStaked, stake);
    assert (stake * d) * totalStaked == (d * totalStaked) * stake;
    assert (stake * d + stake) * totalStaked == ((d + 1) * totalStaked) * stake;
    assert emission * stake * SCALE == (emission * SCALE) * stake;
  }

  lemma RealQuotient(low: int, product: int, t: int)
    requires 0 < t && low * t <= product
    ensures low as real <= product as real / t as real
  {
    assert (low as real) * (t as real) == (low * t) as real;
  }

  lemma RealQuotientBelow(product: int, high: int, t: int)
    requires 0 < t && product <= high * t
    ensures product as real / t as real <= high as real
  {
    assert (high as real) * (t as real) == (high * t) as real;
  }

  lemma ScaledPortion(emission: int, stake: int, totalStaked: int)
    requires 0 < totalStaked
    ensures (SCALE as real) * Portion(emission, stake, totalStaked) ==
            (emission * stake * SCALE) as real / totalStaked as real
  {
    assert (emission * stake * SCALE) as real == (emission as real) * (stake as real) * (SCALE as real);
  }

  /** How far a scaled entitlement may stray from the naive split after `n` amount
      changes and `drag` exposure. */
  ghost predicate Tracks(entitled: int, present: bool, fair: real, drag: int, n: nat)
  {
    var gap := entitled as real - (SCALE as real) * fair;
    if present then
      && 1 <= n
      && gap <= (n * (SCALE - 1)) as real
      && -(drag as real) - ((n - 1) * (SCALE - 1)) as real <= gap
    else fair == 0.0 && drag == 0 && n == 0 && entitled == 0
  }

  lemma StepTracks(s: State, op: Op, i: nat, user: string, fair: real, drag: int, n: nat)
    requires Valid(s) && i < |s.books| == |Apply(s, op).books|
    requires Tracks(Entitled(s.books[i], s.stakes, user), user in s.stakes, fair, drag, n)
    ensures var t := Apply(s, op);
            Tracks(Entitled(t.books[i], t.stakes, user), user in t.stakes,
                   fair + FairIn(s, op, i, user), drag + DragIn(s, op, i, user), n + ChangedBy(s, op, user))
  {
    StepEntitled(s, op, i, user);
    RiseBracket(s, op, i, user);
    var g := FractionChange(s, op, i, user);
    var c := ChangedBy(s, op, user);
    assert (n + c) * (SCALE - 1) == n * (SCALE - 1) + c * (SCALE - 1);
    assert -(SCALE - 1) <= g <= SCALE - 1 && (c == 0 ==> g == 0);
    Distributes(fair, FairIn(s, op, i, user));
    if user !in s.stakes {
      FirstFraction(s, op, i, user);
    }
  }

  lemma Distributes(x: real, y: real)
    ensures (SCALE as real) * (x + y) == (SCALE as real) * x + (SCALE as real) * y
  {
  }

  lemma PortionOfNobody(emission: int, totalStaked: int)
    ensures Portion(emission, 0, totalStaked) == 0.0
  {
    if 0 < totalStaked {
      assert (emission as real) * 0.0 == 0.0;
    }
  }

  /** A user without a stake row gets a fraction only by making a first stake. */
  lemma FirstFraction(s: State, op: Op, i: nat, user: string)
    requires Valid(s) && i < |s.books| == |Apply(s, op).books| && user !in s.stakes
    ensures FairIn(s, op, i, user) == 0.0 && DragIn(s, op, i, user) == 0
    ensures 0 <= FractionChange(s, op, i, user)
    ensures user in Apply(s, op).stakes <==> ChangedBy(s, op, user) == 1
  {
    PortionOfNobody(Emitted(s.books[i].stream, Apply(s, op).books[i].stream), s.farm.totalStaked);
    FractionFromZero(Held(Apply(s, op).stakes, user), Apply(s, op).books[i].stream.acc);
    FirstChange(s, op, user);
  }

  lemma FractionFromZero(after: int, acc: int)
    ensures 0 <= FractionStep(0, after, acc)
  {
    assert 0 * acc == 0;
  }

  lemma FirstChange(s: State, op: Op, user: string)
    requires user !in s.stakes
    ensures user in Apply(s, op).stakes <==> ChangedBy(s, op, user) == 1
  {
  }

  lemma {:induction false} RunTracks(s: State, ops: seq<Op>, i: nat, user: string)
    requires Genesis(s) && i < |s.books|
    ensures var t := Run(s, ops);
            && |t.books| == |s.books|
            && Tracks(Entitled(t.books[i], t.stakes, user), user in t.stakes,
                      Fair(s, ops, i, user), Drag(s, ops, i, user), ChangesBy(s, ops, user))
    decreases |ops|
  {
    if ops != [] {
      var front := ops[..|ops| - 1];
      RunTracks(s, front, i, user);
      RunValid(s, front);
      BooksKept(Run(s, front), ops[|ops| - 1]);
      StepTracks(Run(s, front), ops[|ops| - 1], i, user, Fair(s, front, i, user),
                 Drag(s, front, i, user), ChangesBy(s, front, user));
    }
  }

  /** The accumulator refines the naive split: over any run each staker's claimed,
      accrued and pending reward exceeds the exact pro-rata sum by less than one
      unit per own amount change, and falls short of it by less than that plus
      stake/1e18 for each accumulator advance. */
  lemma RefinesProRata(s: State, ops: seq<Op>, i: nat, user: string)
    requires Genesis(s) && i < |s.books| && user in Run(s, ops).stakes
    ensures var t := Run(s, ops);
            && |t.books| == |s.books| && user in t.books[i].marks
            && var earned, fair := Earned(t.books[i], t.stakes, user) as real, Fair(s, ops, i, user);
            var n := ChangesBy(s, ops, user) as real;
            && earned < fair + n
            && fair - n - Drag(s, ops, i, user) as real / SCALE as real < earned
  {
    RunValid(s, ops);
    RunTracks(s, ops, i, user);
    var t := Run(s, ops);
    var b := t.books[i];
    EarnedPotential(b, t.stakes, user);
    var n := ChangesBy(s, ops, user);
    Unscale(Earned(b, t.stakes, user), Fraction(b, t.stakes, user), Fair(s, ops, i, user), Drag(s, ops, i, user), n);
  }

  lemma Unscale(earned: int, fraction: int, fair: real, drag: int, n: nat)
    requires 0 <= fraction < SCALE && Tracks(SCALE * earned + fraction, true, fair, drag, n)
    ensures earned as real < fair + n as real
    ensures fair - n as real - drag as real / SCALE as real < earned as real
  {
    var unit := SCALE as real;
    assert (SCALE * earned) as real == unit * (earned as real);
    assert (n * (SCALE - 1)) as real == unit * (n as real) - n as real;
    assert ((n - 1) * (SCALE - 1)) as real == unit * (n as real) - unit - n as real + 1.0;
    assert unit * (earned as real) < unit * (fair + n as real);
    assert drag as real == unit * (drag as real / unit);
    assert unit * (fair - n as real - drag as real / unit) < unit * (earned as real);
  }

  /** A staker's first stake is owed nothing, in any stream, for anything emitted
      before it. */
  lemma FirstStakeOwedNothing(s: State, user: string, amount: int, now: int, i: nat)
    requires Valid(s) && i < |s.books| && user !in s.stakes && Stake(s, user, amount, now).Commit?
    ensures var t := Stake(s, user, amount, now).state;
            user in t.books[i].marks && Earned(t.books[i], t.stakes, user) == 0
  {
    ShareIsStake(0 + amount);
  }
}
