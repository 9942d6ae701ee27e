/** A watcher left alone gets there, and two runs of it that show the losses. */
module DepositProgress {
  import opened Outcomes
  import opened Deposits
  import opened DepositRuns
  import opened DepositLosses

  lemma OneMore(f: Feed, s: System, ops: seq<Op>, op: Op)
    ensures Run(f, s, ops + [op]) == Apply(f, Run(f, s, ops), op)
    ensures Start(f, s, ops).Some? ==> Start(f, s, ops + [op]) == Start(f, s, ops)
  {
    assert (ops + [op])[..|ops|] == ops;
  }

  /** Where a lone watcher is on its way. */
  ghost predicate OnTheWay(f: Feed, s: System, ops: seq<Op>, start: nat, target: nat)
  {
    && Start(f, s, ops) == Some(start)
    && Run(f, s, ops).cursor.Some?
    && match WorkerOf(Run(f, s, ops), 0)
       case Idle => Run(f, s, ops).cursor == Some(target)
       case Scanning(block, done, t) =>
         t == target && block <= target < |f.blocks| && done <= |f.blocks[block]|
  }

  function Left(x: Worker): nat
  {
    match x
    case Idle => 0
    case Scanning(block, _, target) => if block <= target then target + 1 - block else 0
  }

  function LeftInBlock(f: Feed, x: Worker): nat
  {
    match x
    case Idle => 0
    case Scanning(block, done, _) =>
      if block < |f.blocks| && done <= |f.blocks[block]| then |f.blocks[block]| - done else 0
  }

  lemma {:induction false} Finish(f: Feed, s: System, ops: seq<Op>, start: nat, target: nat) returns (all: seq<Op>)
    requires OnTheWay(f, s, ops, start, target)
    ensures Start(f, s, all) == Some(start) && Run(f, s, all).cursor == Some(target)
    decreases Left(WorkerOf(Run(f, s, ops), 0)), LeftInBlock(f, WorkerOf(Run(f, s, ops), 0))
  {
    var x := WorkerOf(Run(f, s, ops), 0);
    if x.Idle? {
      all := ops;
    } else if x.done < |f.blocks[x.block]| {
      OneMore(f, s, ops, CreditOp(0));
      all := Finish(f, s, ops + [CreditOp(0)], start, target);
    } else {
      OneMore(f, s, ops, AdvanceOp(0));
      all := Finish(f, s, ops + [AdvanceOp(0)], start, target);
    }
  }

  /** From a chain never watched, a watcher that meets no failure brings the cursor from
      any starting head to any block that later lies deep enough. */
  lemma LoneWatcherFinishes(f: Feed, s: System, start: nat, target: nat) returns (ops: seq<Op>)
    requires Genesis(s) && start < target && target + CONFIRMATIONS < |f.blocks|
    ensures Start(f, s, ops) == Some(start) && Run(f, s, ops).cursor == Some(target)
  {
    var boot, begin := BootOp(start), BeginOp(0, start, target + CONFIRMATIONS);
    assert Run(f, s, []) == s && Start(f, s, []) == None;
    OneMore(f, s, [], boot);
    assert [] + [boot] == [boot];
    assert [boot][..0] == [];
    assert Start(f, s, [boot]) == Some(start);
    OneMore(f, s, [boot], begin);
    ops := Finish(f, s, [boot] + [begin], start, target);
  }

  /** A chain whose block one holds a single transaction. */
  function Lone(tx: Tx, owner: string): World
  {
    World(1, seq(14, b => if b == 1 then [tx] else []), map["addr" := owner])
  }

  lemma LoneDistinct(tx: Tx, owner: string)
    ensures DistinctHashes(Lone(tx, owner))
  {
  }

  /** A receivable chain on which a completed run has lost a deposit: the transaction pays
      the address natively and through its first log, and one of the two is recorded. */
  lemma DepositLost(owner: string) returns (w: World, s: System, ops: seq<Op>)
    ensures Genesis(s) && DistinctHashes(w)
    ensures Start(FeedOf(w), s, ops) == Some(0) && Run(FeedOf(w), s, ops).cursor == Some(1)
    ensures |w.blocks| == 14 && |w.blocks[1]| == 1 && Collides(w, w.blocks[1][0])
    ensures |RecordsUpTo(Run(FeedOf(w), s, ops).store.processed, 1)| < |Through(FeedOf(w), 0, 1)|
  {
    var tx := Tx("t", Some("addr"), 5, true, [Log(3, true, "addr", 32, 7, "erc")]);
    w := Lone(tx, owner);
    s := System(None, Store(map[], map[]), map[]);
    LoneDistinct(tx, owner);
    ops := LoneWatcherFinishes(FeedOf(w), s, 0, 1);
    assert w.blocks[1] == [tx];
    assert Collides(w, w.blocks[1][0]);
    LossCount(w, s, ops);
    AllRecordedIff(w, s, ops);
  }

  /** A receivable chain on which a completed run has credited a failed transaction. */
  lemma FailedCredited(owner: string) returns (w: World, s: System, ops: seq<Op>)
    ensures Genesis(s) && DistinctHashes(w)
    ensures Start(FeedOf(w), s, ops) == Some(0) && Run(FeedOf(w), s, ops).cursor == Some(1)
    ensures |w.blocks| == 14 && |w.blocks[1]| == 1 && !w.blocks[1][0].succeeded
    ensures Key(w.blocks[1][0].hash, 0) in Run(FeedOf(w), s, ops).store.processed
  {
    var tx := Tx("t", Some("addr"), 5, false, []);
    w := Lone(tx, owner);
    s := System(None, Store(map[], map[]), map[]);
    LoneDistinct(tx, owner);
    ops := LoneWatcherFinishes(FeedOf(w), s, 0, 1);
    assert w.blocks[1] == [tx];
    assert NativeQualifies(w, tx);
    FailedRecordedIff(w, s, ops, 1, 0, Key(tx.hash, 0));
  }
}
