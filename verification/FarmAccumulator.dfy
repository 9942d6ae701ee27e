/** The reward accumulator of backend/services/farm_service.go: one emission stream
    row and its advance. Times are nanoseconds; zero is Go's zero time. */
module FarmAccumulator {
  import opened FixedPoint
  import opened Sums

  const SCALE: int := WAD
  const BASE_BOOST_BPS: int := 10_000
  const ZERO_TIME: int := 0

  /** A farm_rewards row. */
  datatype Stream = Stream(
    token: string,
    rate: int,
    acc: int,
    last: int,
    totalReward: int,
    distributed: int)

  function EffectiveAmount(amount: int, boostBps: int): int
  {
    (amount * boostBps) / 10_000
  }

  /** Without a boost source the effective amount is the staked amount. */
  lemma UnboostedIsExact(amount: int)
    ensures EffectiveAmount(amount, BASE_BOOST_BPS) == amount
  {
    FloorExact(amount, 10_000);
  }

  function PendingFor(effective: int, acc: int, debt: int): int
  {
    var pending := (effective * acc) / SCALE - debt;
    if pending < 0 then 0 else pending
  }

  datatype StepResult = StepResult(acc: int, distributed: int, elapsed: int)

  function RewardStep(s: Stream, totalStaked: int, now: int, endTime: int): StepResult
  {
    var idle := StepResult(s.acc, s.distributed, 0);
    if s.last == ZERO_TIME then idle else
      var elapsed := Quo(Min(now, endTime) - s.last, SECOND);
      if elapsed <= 0 || totalStaked <= 0 then idle
      else if s.rate <= 0 then idle
      else if s.totalReward - s.distributed <= 0 then idle
      else
        var emission := Min(s.rate * elapsed, s.totalReward - s.distributed);
        StepResult(s.acc + (emission * SCALE) / totalStaked, s.distributed + emission, elapsed)
  }

  function Checkpoint(s: Stream, now: int, endTime: int): int
  {
    Max(Min(now, endTime), s.last)
  }

  function AdvanceReward(s: Stream, totalStaked: int, now: int, endTime: int): Stream
  {
    var checkpoint := Checkpoint(s, now, endTime);
    var step := RewardStep(s, totalStaked, checkpoint, endTime);
    if s.last == ZERO_TIME || checkpoint == s.last then s.(last := checkpoint)
    else s.(acc := step.acc, distributed := step.distributed, last := checkpoint)
  }

  /** The read-only projection agrees with the state change at every instant: past
      the end time, behind the last checkpoint, and on a stream never started. */
  lemma ProjectionAgrees(s: Stream, totalStaked: int, now: int, endTime: int)
    ensures var step, t := RewardStep(s, totalStaked, now, endTime), AdvanceReward(s, totalStaked, now, endTime);
            step.acc == t.acc && step.distributed == t.distributed
  {
  }

  ghost predicate Sound(s: Stream)
  {
    0 <= s.rate && 0 <= s.acc && 0 <= s.distributed <= s.totalReward
  }

  function Emitted(before: Stream, after: Stream): int
  {
    after.distributed - before.distributed
  }

  /** Whole seconds of the farm's life between a stream's checkpoint and now. */
  function Running(s: Stream, now: int, endTime: int): int
  {
    if s.last == ZERO_TIME then 0 else Max(Min(now, endTime) - s.last, 0) / SECOND
  }

  lemma ElapsedIsRunning(s: Stream, now: int, endTime: int)
    requires s.last != ZERO_TIME
    ensures Max(Quo(Min(now, endTime) - s.last, SECOND), 0) == Running(s, now, endTime)
    ensures Max(Quo(Min(Checkpoint(s, now, endTime), endTime) - s.last, SECOND), 0) == Running(s, now, endTime)
  {
  }

  /** What an advance emits: the rate for every whole running second, up to the remaining
      budget, while something is staked. */
  lemma StepSpec(s: Stream, totalStaked: int, now: int, endTime: int)
    requires Sound(s) && 0 < totalStaked
    ensures var step, emission := RewardStep(s, totalStaked, now, endTime),
                                  Min(s.rate * Running(s, now, endTime), s.totalReward - s.distributed);
            && 0 <= emission && step.distributed == s.distributed + emission
            && step.acc == s.acc + (emission * SCALE) / totalStaked && s.acc <= step.acc
  {
    assert (0 * SCALE) / totalStaked == 0;
    var running := Running(s, now, endTime);
    MulMono(0, running, s.rate);
    if s.last != ZERO_TIME { ElapsedIsRunning(s, now, endTime); }
    if 0 < running && 0 < s.rate { MulMono(1, running, s.rate); }
    var emission := Min(s.rate * running, s.totalReward - s.distributed);
    FloorMono(0, emission * SCALE, totalStaked);
  }

  /** An advance over a staked farm emits the rate for every whole running second up to
      the remaining budget; it never moves the accumulator or the checkpoint back, and
      raises the accumulator by exactly the floor of its emission per staked unit. */
  lemma AdvanceSpec(s: Stream, totalStaked: int, now: int, endTime: int)
    requires Sound(s) && 0 <= totalStaked
    ensures var t := AdvanceReward(s, totalStaked, now, endTime);
            && Sound(t) && s.last <= t.last
            && t.token == s.token && t.rate == s.rate && t.totalReward == s.totalReward
            && 0 <= Emitted(s, t)
            && (totalStaked == 0 ==> Emitted(s, t) == 0 && t.acc == s.acc)
            && (0 < totalStaked ==>
                  && Emitted(s, t) == Min(s.rate * Running(s, now, endTime), s.totalReward - s.distributed)
                  && t.acc - s.acc == (Emitted(s, t) * SCALE) / totalStaked)
            && s.acc <= t.acc
  {
    if 0 < totalStaked {
      ProjectionAgrees(s, totalStaked, now, endTime);
      StepSpec(s, totalStaked, now, endTime);
    }
  }

  // ---- Cutting an interval ----

  /** A run of advances at the given instants, in the order they happen. */
  function AdvanceThrough(s: Stream, totalStaked: int, times: seq<int>, endTime: int): Stream
  {
    if times == [] then s else
      AdvanceReward(AdvanceThrough(s, totalStaked, times[..|times| - 1], endTime), totalStaked,
                    times[|times| - 1], endTime)
  }

  function Latest(times: seq<int>): int
    requires times != []
  {
    if |times| == 1 then times[0] else Max(Latest(times[..|times| - 1]), times[|times| - 1])
  }

  /** The checkpoint after advances at the given instants. */
  function Reach(last: int, times: seq<int>, endTime: int): int
  {
    if times == [] then last else
      Max(Min(times[|times| - 1], endTime), Reach(last, times[..|times| - 1], endTime))
  }

  /** Whole seconds between successive checkpoints, added up. */
  function WholeSeconds(last: int, times: seq<int>, endTime: int): int
  {
    if times == [] then 0 else
      var front := times[..|times| - 1];
      WholeSeconds(last, front, endTime) + (Reach(last, times, endTime) - Reach(last, front, endTime)) / SECOND
  }

  lemma {:induction false} ReachLatest(last: int, times: seq<int>, endTime: int)
    requires times != []
    ensures Reach(last, times, endTime) == Max(Min(Latest(times), endTime), last)
    ensures last <= Reach(last, times, endTime)
    decreases |times|
  {
    var front := times[..|times| - 1];
    if front == [] {
      assert Reach(last, front, endTime) == last;
    } else {
      ReachLatest(last, front, endTime);
    }
  }

  lemma {:induction false} ReachUp(last: int, times: seq<int>, endTime: int)
    ensures last <= Reach(last, times, endTime)
    decreases |times|
  {
    if times != [] { ReachUp(last, times[..|times| - 1], endTime); }
  }

  /** Every cut but the last lies a whole number of seconds after the checkpoint, or does
      not get past it. */
  ghost predicate WholeCuts(last: int, times: seq<int>, endTime: int)
  {
    forall i :: 0 <= i < |times| - 1 ==>
      Min(times[i], endTime) <= last || (Min(times[i], endTime) - last) % SECOND == 0
  }

  lemma {:induction false} WholeReach(last: int, times: seq<int>, endTime: int)
    requires forall i :: 0 <= i < |times| ==>
               Min(times[i], endTime) <= last || (Min(times[i], endTime) - last) % SECOND == 0
    ensures (Reach(last, times, endTime) - last) % SECOND == 0
    decreases |times|
  {
    if times != [] {
      WholeReach(last, times[..|times| - 1], endTime);
      ReachUp(last, times[..|times| - 1], endTime);
    }
  }

  /** Cutting loses less than a second per extra cut, and nothing at whole cuts. */
  lemma {:induction false} SecondsLost(last: int, times: seq<int>, endTime: int)
    requires times != []
    ensures var whole := (Reach(last, times, endTime) - last) / SECOND;
            && 0 <= WholeSeconds(last, times, endTime)
            && whole - (|times| - 1) <= WholeSeconds(last, times, endTime) <= whole
            && (WholeCuts(last, times, endTime) ==> WholeSeconds(last, times, endTime) == whole)
    decreases |times|
  {
    var front := times[..|times| - 1];
    ReachUp(last, front, endTime);
    var x, y := Reach(last, front, endTime) - last, Reach(last, times, endTime) - Reach(last, front, endTime);
    FloorSum(x, y, SECOND);
    if front == [] {
      assert x == 0 && WholeSeconds(last, front, endTime) == 0;
    } else {
      SecondsLost(last, front, endTime);
      if WholeCuts(last, times, endTime) {
        assert forall i :: 0 <= i < |front| ==> front[i] == times[i];
        WholeReach(last, front, endTime);
      }
    }
  }

  /** What `advances` advances leave, at least one: the checkpoint reached, the rate for
      every whole second between successive checkpoints up to the budget, and an
      accumulator short of that emission per staked unit by less than one per advance. */
  ghost predicate Advanced(s: Stream, t: Stream, totalStaked: int, seconds: int, last: int, advances: nat)
    requires 0 < totalStaked
  {
    && Sound(t) && t.last == last
    && t.token == s.token && t.rate == s.rate && t.totalReward == s.totalReward
    && 0 <= Emitted(s, t) == Min(s.rate * seconds, s.totalReward - s.distributed)
    && t.acc - s.acc <= (Emitted(s, t) * SCALE) / totalStaked < t.acc - s.acc + advances
  }

  lemma OneMoreAdvance(s: Stream, mid: Stream, totalStaked: int, seconds: int, now: int, endTime: int, advances: nat)
    requires Sound(s) && 0 < totalStaked && 0 <= seconds && ZERO_TIME < mid.last
    requires Advanced(s, mid, totalStaked, seconds, mid.last, advances)
    ensures var last := Max(Min(now, endTime), mid.last);
            Advanced(s, AdvanceReward(mid, totalStaked, now, endTime), totalStaked,
                     seconds + (last - mid.last) / SECOND, last, advances + 1)
  {
    var t, more := AdvanceReward(mid, totalStaked, now, endTime), Running(mid, now, endTime);
    AdvanceSpec(mid, totalStaked, now, endTime);
    Distribute(s.rate, seconds, more);
    MulMono(0, seconds, s.rate);
    MulMono(0, more, s.rate);
    var x, y := Emitted(s, mid), Emitted(mid, t);
    assert (x + y) * SCALE == x * SCALE + y * SCALE;
    FloorSum(x * SCALE, y * SCALE, totalStaked);
  }

  /** The exact account of any cutting of an interval. */
  lemma {:induction false} SplitAccount(s: Stream, totalStaked: int, times: seq<int>, endTime: int)
    requires Sound(s) && 0 < totalStaked && ZERO_TIME < s.last && times != []
    ensures Advanced(s, AdvanceThrough(s, totalStaked, times, endTime), totalStaked,
                     WholeSeconds(s.last, times, endTime), Reach(s.last, times, endTime), |times|)
    decreases |times|
  {
    var front, now := times[..|times| - 1], times[|times| - 1];
    if front == [] {
      assert AdvanceThrough(s, totalStaked, front, endTime) == s;
      assert Reach(s.last, front, endTime) == s.last && WholeSeconds(s.last, front, endTime) == 0;
      AdvanceSpec(s, totalStaked, now, endTime);
    } else {
      SplitAccount(s, totalStaked, front, endTime);
      SecondsLost(s.last, front, endTime);
      ReachUp(s.last, front, endTime);
      OneMoreAdvance(s, AdvanceThrough(s, totalStaked, front, endTime), totalStaked,
                     WholeSeconds(s.last, front, endTime), now, endTime, |front|);
    }
  }

  lemma {:induction false} IdleThrough(s: Stream, times: seq<int>, endTime: int)
    requires Sound(s) && ZERO_TIME < s.last
    ensures AdvanceThrough(s, 0, times, endTime) == s.(last := Reach(s.last, times, endTime))
    decreases |times|
  {
    if times != [] {
      IdleThrough(s, times[..|times| - 1], endTime);
      ReachUp(s.last, times[..|times| - 1], endTime);
    }
  }

  lemma CappedLoss(rate: int, budget: int, whole: int, seconds: int, cuts: int)
    requires 0 <= rate && 0 <= cuts && whole - cuts <= seconds <= whole
    ensures Min(rate * whole, budget) - cuts * rate <= Min(rate * seconds, budget) <= Min(rate * whole, budget)
  {
    MulMono(seconds, whole, rate);
    MulMono(whole - cuts, seconds, rate);
    Distribute(rate, whole, -cuts);
  }

  lemma SplitEmission(s: Stream, totalStaked: int, times: seq<int>, endTime: int)
    requires Sound(s) && 0 < totalStaked && ZERO_TIME < s.last && times != []
    ensures var once := AdvanceReward(s, totalStaked, Latest(times), endTime);
            var split := AdvanceThrough(s, totalStaked, times, endTime);
            && Emitted(s, once) - (|times| - 1) * s.rate <= Emitted(s, split) <= Emitted(s, once)
            && (WholeCuts(s.last, times, endTime) ==> Emitted(s, split) == Emitted(s, once))
            && Advanced(s, once, totalStaked, Running(s, Latest(times), endTime), split.last, 1)
            && Advanced(s, split, totalStaked, WholeSeconds(s.last, times, endTime), split.last, |times|)
  {
    ReachLatest(s.last, times, endTime);
    AdvanceSpec(s, totalStaked, Latest(times), endTime);
    SplitAccount(s, totalStaked, times, endTime);
    SecondsLost(s.last, times, endTime);
    CappedLoss(s.rate, s.totalReward - s.distributed, Running(s, Latest(times), endTime),
               WholeSeconds(s.last, times, endTime), |times| - 1);
  }

  /** Less emission in more steps never means a higher accumulator. */
  lemma AccumulatorOrder(once: int, split: int, totalStaked: int)
    requires 0 < totalStaked && split <= once
    ensures (split * SCALE) / totalStaked <= (once * SCALE) / totalStaked
  {
    MulMono(split, once, SCALE);
    FloorMono(split * SCALE, once * SCALE, totalStaked);
  }

  /** Cutting an interval at any instants, clocks behind and past the end included, never
      distributes more than one advance to the latest instant does, and loses at most
      one second's emission per extra cut. At whole-second cuts it distributes exactly
      the same, budget cap included, with the accumulator at most one lower per extra
      cut. */
  lemma SplitInvariant(s: Stream, totalStaked: int, times: seq<int>, endTime: int)
    requires Sound(s) && 0 <= totalStaked && ZERO_TIME < s.last && times != []
    ensures var once := AdvanceReward(s, totalStaked, Latest(times), endTime);
            var split := AdvanceThrough(s, totalStaked, times, endTime);
            && split == once.(acc := split.acc, distributed := split.distributed)
            && once.distributed - (|times| - 1) * s.rate <= split.distributed <= once.distributed
            && split.acc <= once.acc
            && (WholeCuts(s.last, times, endTime) ==>
                  split.distributed == once.distributed && once.acc - (|times| - 1) <= split.acc)
  {
    if totalStaked == 0 {
      ReachLatest(s.last, times, endTime);
      IdleThrough(s, times, endTime);
      MulMono(0, |times| - 1, s.rate);
    } else {
      SplitEmission(s, totalStaked, times, endTime);
      var once := AdvanceReward(s, totalStaked, Latest(times), endTime);
      var split := AdvanceThrough(s, totalStaked, times, endTime);
      AccumulatorOrder(Emitted(s, once), Emitted(s, split), totalStaked);
    }
  }

  /** Successive checkpoints are less than a second apart. */
  ghost predicate Crowded(last: int, times: seq<int>, endTime: int)
  {
    forall n :: 0 <= n < |times| ==>
      Reach(last, times[..n + 1], endTime) - Reach(last, times[..n], endTime) < SECOND
  }

  lemma {:induction false} CrowdedSeconds(last: int, times: seq<int>, endTime: int)
    requires Crowded(last, times, endTime)
    ensures WholeSeconds(last, times, endTime) == 0
    decreases |times|
  {
    if times != [] {
      var front := times[..|times| - 1];
      assert times[..|front| + 1] == times;
      forall n | 0 <= n < |front|
        ensures Reach(last, front[..n + 1], endTime) - Reach(last, front[..n], endTime) < SECOND
      {
        assert front[..n + 1] == times[..n + 1] && front[..n] == times[..n];
      }
      CrowdedSeconds(last, front, endTime);
      ReachUp(last, times, endTime);
    }
  }

  /** Advances less than a second apart emit nothing, however long they go on. */
  lemma CrowdedStarves(s: Stream, totalStaked: int, times: seq<int>, endTime: int)
    requires Sound(s) && 0 <= totalStaked && ZERO_TIME < s.last && Crowded(s.last, times, endTime)
    ensures AdvanceThrough(s, totalStaked, times, endTime).distributed == s.distributed
  {
    if times != [] && 0 < totalStaked {
      CrowdedSeconds(s.last, times, endTime);
      SplitAccount(s, totalStaked, times, endTime);
    } else if totalStaked == 0 {
      IdleThrough(s, times, endTime);
    }
  }

  /** So cuts do cost emission: two advances half a second apart emit nothing where one
      emits a second's worth. */
  lemma HalvesLose(s: Stream, totalStaked: int, endTime: int)
    requires Sound(s) && 0 < totalStaked && 0 < s.rate && s.distributed < s.totalReward
    requires ZERO_TIME < s.last && s.last + SECOND <= endTime
    ensures var half, whole := s.last + SECOND / 2, s.last + SECOND;
            && AdvanceThrough(s, totalStaked, [half, whole], endTime).distributed == s.distributed
            && s.distributed < AdvanceReward(s, totalStaked, whole, endTime).distributed
  {
    var half, whole := s.last + SECOND / 2, s.last + SECOND;
    var times := [half, whole];
    assert times[..0] == [] && times[..1] == [half] && times[..2] == times && [half][..0] == [];
    assert Reach(s.last, [half], endTime) == half;
    assert Reach(s.last, times, endTime) == whole;
    CrowdedStarves(s, totalStaked, times, endTime);
    AdvanceSpec(s, totalStaked, whole, endTime);
  }
}
