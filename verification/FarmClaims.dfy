/** Exactly when claims alone can take more out of a stream than was put in: a condition on
    the rows as they stand. */
module FarmClaims {
  import opened Outcomes
  import opened Sums
  import opened FixedPoint
  import opened FarmAccumulator
  import opened FarmRuns
  import opened FarmSolvency

  predicate AllClaims(ops: seq<Op>)
  {
    forall i :: 0 <= i < |ops| ==> ops[i].ClaimOp?
  }

  /** Some run of claims pays out more than the stream was funded. */
  ghost predicate CanOverpay(s: State, i: nat)
    requires i < |s.books|
  {
    exists ops :: AllClaims(ops) && Overpaid(s, ops, i)
  }

  ghost predicate Overpaid(s: State, ops: seq<Op>, i: nat)
    requires i < |s.books|
  {
    i < |Run(s, ops).books| && s.books[i].stream.totalReward < Claimed(Run(s, ops).books[i])
  }

  /** The stream advanced once, to the farm's end. */
  function AtEnd(s: State, i: nat): Book
    requires i < |s.books|
  {
    var b := s.books[i];
    b.(stream := AdvanceReward(b.stream, s.farm.totalStaked, s.farm.end, s.farm.end))
  }

  // ---- What a claim leaves of a staker's total ----

  /** What a staker's total is besides the accumulated share. */
  function Base(m: Mark): int
  {
    m.claimed + m.accrued - m.debt
  }

  function ShareOf(stake: int, acc: int): int
  {
    (stake * acc) / SCALE
  }

  lemma EarnedIs(b: Book, stakes: map<string, int>, u: string)
    requires ValidBook(b, stakes) && u in b.marks
    ensures Earned(b, stakes, u) == Base(b.marks[u]) + ShareOf(stakes[u], b.stream.acc)
    ensures 0 <= b.marks[u].claimed <= Earned(b, stakes, u)
  {
  }

  /** A claim advances the stream and keeps every staker's base; claiming everything
      leaves the claimer's whole total claimed. */
  ghost predicate ClaimedTo(b: Book, c: Book, stream: Stream, stake: int, user: string, all: bool)
  {
    && c.stream == stream && user in b.marks && c.marks.Keys == b.marks.Keys
    && (forall u :: u in b.marks && u != user ==> c.marks[u] == b.marks[u])
    && Base(c.marks[user]) == Base(b.marks[user])
    && (all ==> c.marks[user].claimed == Base(b.marks[user]) + ShareOf(stake, stream.acc))
  }

  lemma PendingIs(stake: int, acc: int, now: int, debt: int)
    requires 0 <= stake && acc <= now && debt <= ShareOf(stake, acc)
    ensures PendingFor(stake, now, debt) == ShareOf(stake, now) - debt
  {
    MulMono(acc, now, stake);
    FloorMono(stake * acc, stake * now, SCALE);
  }

  lemma SettleBook(b: Book, f: Farm, stakes: map<string, int>, user: string, now: int)
    requires ValidBook(b, stakes) && ValidStakes(f, stakes) && user in stakes
    ensures var stream := AdvanceReward(b.stream, f.totalStaked, now, f.end);
            var c := AccrueBook(b, f, user, stakes[user], stakes[user], now);
            && ClaimedTo(b, c, stream, stakes[user], user, false)
            && c.marks[user].debt == ShareOf(stakes[user], stream.acc) && 0 <= c.marks[user].accrued
  {
    TotalAtLeast(stakes);
    AdvanceSpec(b.stream, f.totalStaked, now, f.end);
    PendingIs(stakes[user], b.stream.acc, AdvanceReward(b.stream, f.totalStaked, now, f.end).acc, b.marks[user].debt);
  }

  lemma PaidBook(b: Book, user: string, only: Option<string>)
    requires user in b.marks && 0 <= b.marks[user].accrued
    ensures var c := PayBook(b, user, only);
            && c.stream == b.stream && c.marks.Keys == b.marks.Keys
            && (forall u :: u in b.marks && u != user ==> c.marks[u] == b.marks[u])
            && Base(c.marks[user]) == Base(b.marks[user]) && c.marks[user].debt == b.marks[user].debt
            && (only.None? ==> c.marks[user].accrued == 0)
  {
  }

  lemma ClaimBook(s: State, user: string, only: Option<string>, now: int, i: nat)
    requires Valid(s) && user in s.stakes && i < |s.books|
    ensures var t := Claim(s, user, only, now).state;
            && Claim(s, user, only, now).Commit? && |t.books| == |s.books| && t.stakes == s.stakes && t.farm == s.farm
            && ClaimedTo(s.books[i], t.books[i],
                         AdvanceReward(s.books[i].stream, s.farm.totalStaked, now, s.farm.end),
                         s.stakes[user], user, only.None?)
  {
    ShareIsStake(s.stakes[user]);
    SettleBook(s.books[i], s.farm, s.stakes, user, now);
    PaidBook(AccrueBook(s.books[i], s.farm, user, s.stakes[user], s.stakes[user], now), user, only);
  }

  // ---- No run of claims beats one advance ----

  /** The instants at which a run's committed claims advanced the streams. */
  ghost function Instants(s: State, ops: seq<Op>): seq<int>
  {
    if ops == [] then [] else
      var op := ops[|ops| - 1];
      Instants(s, ops[..|ops| - 1]) + if op.ClaimOp? && op.user in s.stakes then [op.now] else []
  }

  lemma {:induction false} ClaimRun(s: State, ops: seq<Op>, i: nat)
    requires Valid(s) && AllClaims(ops) && i < |s.books|
    ensures var t := Run(s, ops);
            && Valid(t) && |t.books| == |s.books| && t.stakes == s.stakes && t.farm == s.farm
            && t.books[i].stream == AdvanceThrough(s.books[i].stream, s.farm.totalStaked, Instants(s, ops), s.farm.end)
            && t.books[i].marks.Keys == s.books[i].marks.Keys
            && forall u :: u in s.books[i].marks ==> Base(t.books[i].marks[u]) == Base(s.books[i].marks[u])
    decreases |ops|
  {
    if ops != [] {
      var front, op := ops[..|ops| - 1], ops[|ops| - 1];
      ClaimRun(s, front, i);
      var t := Run(s, front);
      ApplyValid(t, op);
      if op.user in s.stakes {
        ClaimBook(t, op.user, op.only, op.now, i);
        assert Instants(s, ops)[..|Instants(s, front)|] == Instants(s, front);
      } else {
        assert Instants(s, ops) == Instants(s, front);
      }
    }
  }

  lemma RunningMono(s: Stream, now: int, endTime: int)
    ensures Running(s, now, endTime) <= Running(s, endTime, endTime)
  {
  }

  /** No later instant, and no cutting, raises the accumulator past one advance to the
      end. */
  lemma EndIsHighest(s: Stream, totalStaked: int, times: seq<int>, endTime: int)
    requires Sound(s) && 0 <= totalStaked && ZERO_TIME < s.last
    ensures AdvanceThrough(s, totalStaked, times, endTime).acc <= AdvanceReward(s, totalStaked, endTime, endTime).acc
  {
    AdvanceSpec(s, totalStaked, endTime, endTime);
    if times != [] {
      SplitInvariant(s, totalStaked, times, endTime);
      AdvanceMono(s, totalStaked, Latest(times), endTime);
    }
  }

  lemma AdvanceMono(s: Stream, totalStaked: int, now: int, endTime: int)
    requires Sound(s) && 0 <= totalStaked
    ensures AdvanceReward(s, totalStaked, now, endTime).acc <= AdvanceReward(s, totalStaked, endTime, endTime).acc
  {
    AdvanceSpec(s, totalStaked, now, endTime);
    AdvanceSpec(s, totalStaked, endTime, endTime);
    if 0 < totalStaked {
      var low, high := AdvanceReward(s, totalStaked, now, endTime), AdvanceReward(s, totalStaked, endTime, endTime);
      RunningMono(s, now, endTime);
      MulMono(Running(s, now, endTime), Running(s, endTime, endTime), s.rate);
      MulMono(Emitted(s, low), Emitted(s, high), SCALE);
      FloorMono(Emitted(s, low) * SCALE, Emitted(s, high) * SCALE, totalStaked);
    }
  }

  lemma AtEndValid(s: State, i: nat)
    requires Valid(s) && i < |s.books|
    ensures ValidBook(AtEnd(s, i), s.stakes)
  {
    TotalAtLeast(s.stakes);
    AdvanceSpec(s.books[i].stream, s.farm.totalStaked, s.farm.end, s.farm.end);
    var acc := AtEnd(s, i).stream.acc;
    forall u | u in s.stakes ensures ShareOf(s.stakes[u], s.books[i].stream.acc) <= ShareOf(s.stakes[u], acc) {
      MulMono(s.books[i].stream.acc, acc, s.stakes[u]);
      FloorMono(s.stakes[u] * s.books[i].stream.acc, s.stakes[u] * acc, SCALE);
    }
  }

  /** A staker has never claimed more than their total after one advance to the end. */
  lemma ClaimedByEnd(s: State, ops: seq<Op>, i: nat, u: string)
    requires Valid(s) && AllClaims(ops) && i < |s.books| && ZERO_TIME < s.books[i].stream.last
    requires u in s.books[i].marks
    ensures i < |Run(s, ops).books| && u in Run(s, ops).books[i].marks
    ensures Run(s, ops).books[i].marks[u].claimed <= Earned(AtEnd(s, i), s.stakes, u)
  {
    ClaimRun(s, ops, i);
    AtEndValid(s, i);
    TotalAtLeast(s.stakes);
    var b, c := Run(s, ops).books[i], AtEnd(s, i);
    EarnedIs(b, s.stakes, u);
    EarnedIs(c, s.stakes, u);
    EndIsHighest(s.books[i].stream, s.farm.totalStaked, Instants(s, ops), s.farm.end);
    MulMono(b.stream.acc, c.stream.acc, s.stakes[u]);
    FloorMono(s.stakes[u] * b.stream.acc, s.stakes[u] * c.stream.acc, SCALE);
  }

  lemma ClaimsBounded(s: State, ops: seq<Op>, i: nat)
    requires Valid(s) && AllClaims(ops) && i < |s.books| && ZERO_TIME < s.books[i].stream.last
    ensures i < |Run(s, ops).books| && Claimed(Run(s, ops).books[i]) <= Owed(AtEnd(s, i), s.stakes)
  {
    ClaimRun(s, ops, i);
    var b := Run(s, ops).books[i];
    var claimed := map u | u in b.marks :: b.marks[u].claimed;
    var earned := map u | u in AtEnd(s, i).marks :: Earned(AtEnd(s, i), s.stakes, u);
    forall u | u in claimed ensures claimed[u] <= earned[u] {
      ClaimedByEnd(s, ops, i, u);
    }
    TotalMono(claimed, earned);
  }

  // ---- Everybody claims at the end ----

  /** A staker has claimed everything they could ever have by the end. */
  ghost predicate Settled(s: State, ops: seq<Op>, i: nat, u: string)
    requires i < |s.books|
  {
    && i < |Run(s, ops).books| && u in Run(s, ops).books[i].marks && u in s.books[i].marks
    && Run(s, ops).books[i].marks[u].claimed == Earned(AtEnd(s, i), s.stakes, u)
  }

  lemma AdvanceStops(s: Stream, totalStaked: int, endTime: int)
    requires ZERO_TIME < s.last
    ensures var t := AdvanceReward(s, totalStaked, endTime, endTime);
            AdvanceReward(t, totalStaked, endTime, endTime) == t
  {
  }

  /** One more staker claims, at the end. */
  lemma OneClaims(s: State, ops: seq<Op>, i: nat, user: string)
    requires Valid(s) && AllClaims(ops) && i < |s.books| && ZERO_TIME < s.books[i].stream.last
    requires user in s.stakes
    requires i < |Run(s, ops).books| && AtEnd(Run(s, ops), i).stream == AtEnd(s, i).stream
    ensures var next := ops + [ClaimOp(user, None, s.farm.end)];
            && AllClaims(next) && i < |Run(s, next).books| && AtEnd(Run(s, next), i).stream == AtEnd(s, i).stream
            && Settled(s, next, i, user)
            && forall u :: u != user && Settled(s, ops, i, u) ==> Settled(s, next, i, u)
  {
    var op := ClaimOp(user, None, s.farm.end);
    assert (ops + [op])[..|ops|] == ops;
    ClaimRun(s, ops, i);
    LastClaim(s, Run(s, ops), i, user);
  }

  lemma LastClaim(s: State, t: State, i: nat, user: string)
    requires Valid(s) && Valid(t) && i < |s.books| && i < |t.books| && user in s.stakes
    requires t.farm == s.farm && t.stakes == s.stakes && ZERO_TIME < s.books[i].stream.last
    requires user in s.books[i].marks && user in t.books[i].marks
    requires Base(t.books[i].marks[user]) == Base(s.books[i].marks[user])
    requires AtEnd(t, i).stream == AtEnd(s, i).stream
    ensures var u := Apply(t, ClaimOp(user, None, s.farm.end));
            && i < |u.books| && u.farm == s.farm && AtEnd(u, i).stream == AtEnd(s, i).stream
            && u.books[i].marks.Keys == t.books[i].marks.Keys
            && u.books[i].marks[user].claimed == Earned(AtEnd(s, i), s.stakes, user)
            && forall v :: v in t.books[i].marks && v != user ==> u.books[i].marks[v] == t.books[i].marks[v]
  {
    ClaimBook(t, user, None, s.farm.end, i);
    AtEndValid(s, i);
    EarnedIs(AtEnd(s, i), s.stakes, user);
    AdvanceStops(s.books[i].stream, s.farm.totalStaked, s.farm.end);
  }

  lemma {:induction false} EverybodyClaims(s: State, ops: seq<Op>, i: nat, left: set<string>) returns (all: seq<Op>)
    requires Valid(s) && AllClaims(ops) && i < |s.books| && ZERO_TIME < s.books[i].stream.last
    requires left <= s.stakes.Keys
    requires i < |Run(s, ops).books| && AtEnd(Run(s, ops), i).stream == AtEnd(s, i).stream
    requires forall u :: u in s.stakes && u !in left ==> Settled(s, ops, i, u)
    ensures AllClaims(all) && forall u :: u in s.stakes ==> Settled(s, all, i, u)
    decreases left
  {
    if left == {} {
      all := ops;
    } else {
      var user :| user in left;
      OneClaims(s, ops, i, user);
      all := EverybodyClaims(s, ops + [ClaimOp(user, None, s.farm.end)], i, left - {user});
    }
  }

  lemma AllSettled(s: State, ops: seq<Op>, i: nat)
    requires Valid(s) && i < |s.books| && i < |Run(s, ops).books|
    requires Run(s, ops).books[i].marks.Keys == s.stakes.Keys
    requires forall u :: u in s.stakes ==> Settled(s, ops, i, u)
    ensures Claimed(Run(s, ops).books[i]) == Owed(AtEnd(s, i), s.stakes)
  {
    var b := Run(s, ops).books[i];
    forall u | u in s.stakes ensures b.marks[u].claimed == Earned(AtEnd(s, i), s.stakes, u) {
      assert Settled(s, ops, i, u);
    }
    assert (map u | u in b.marks :: b.marks[u].claimed) ==
           (map u | u in AtEnd(s, i).marks :: Earned(AtEnd(s, i), s.stakes, u));
  }

  /** From any reachable state with the stakes as they are, some run of claims alone pays a
      started stream out beyond its funding if and only if what everybody is owed after
      one advance to the end exceeds it. */
  lemma OverpayIff(s: State, i: nat)
    requires Valid(s) && i < |s.books| && ZERO_TIME < s.books[i].stream.last
    ensures CanOverpay(s, i) <==> s.books[i].stream.totalReward < Owed(AtEnd(s, i), s.stakes)
  {
    if CanOverpay(s, i) {
      var ops :| AllClaims(ops) && Overpaid(s, ops, i);
      ClaimsBounded(s, ops, i);
    }
    if s.books[i].stream.totalReward < Owed(AtEnd(s, i), s.stakes) {
      var ops := EverybodyClaims(s, [], i, s.stakes.Keys);
      ClaimRun(s, ops, i);
      AllSettled(s, ops, i);
      assert Overpaid(s, ops, i);
    }
  }
}
