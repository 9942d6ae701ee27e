/** Any number of watchers over one chain, interleaved transaction by transaction, with
    crashes, restarts, and other services moving the same balances. The dedup record
    and the credit commit together; the cursor is written on its own. */
module DepositRuns {
  import opened Outcomes
  import opened Sums
  import opened Ledgers
  import opened Deposits

  /** Where a watcher is: `done` candidates into `block`, on its way to `target`. */
  datatype Worker = Idle | Scanning(block: nat, done: nat, target: nat)

  datatype System = System(cursor: Option<nat>, store: Store, workers: map<int, Worker>)

  datatype Op =
    | BootOp(head: nat)
    | BeginOp(worker: int, seeded: nat, head: nat)
    | CreditOp(worker: int)
    | AdvanceOp(worker: int)
    | CrashOp(worker: int)
    | OutsideOp(account: Account, delta: int)

  function WorkerOf(s: System, x: int): Worker
  {
    if x in s.workers then s.workers[x] else Idle
  }

  /** Creates the cursor at the current head when absent. A head past the chain is a
      failed read. */
  function EnsureCursor(f: Feed, s: System, head: nat): System
  {
    if s.cursor.None? && head < |f.blocks| then s.(cursor := Some(head)) else s
  }

  /** The start of a scan: the cursor, then the head, then the first block to read. */
  function Begin(f: Feed, s: System, x: int, seeded: nat, head: nat): System
  {
    var t := EnsureCursor(f, s, seeded);
    if WorkerOf(s, x) != Idle || t.cursor.None? || |f.blocks| <= head then t
    else if head < CONFIRMATIONS || head - CONFIRMATIONS <= t.cursor.value then t
    else t.(workers := t.workers[x := Scanning(t.cursor.value + 1, 0, head - CONFIRMATIONS)])
  }

  /** One credit transaction of the block being scanned. */
  function CreditNext(f: Feed, s: System, x: int): System
  {
    match WorkerOf(s, x)
    case Idle => s
    case Scanning(block, done, target) =>
      if |f.blocks| <= block || |f.blocks[block]| <= done then s
      else s.(store := Next(f.chain, s.store, f.blocks[block][done]),
              workers := s.workers[x := Scanning(block, done + 1, target)])
  }

  /** A finished block moves the cursor to it, wherever the cursor is by now. */
  function Advance(f: Feed, s: System, x: int): System
  {
    match WorkerOf(s, x)
    case Idle => s
    case Scanning(block, done, target) =>
      if |f.blocks| <= block || done < |f.blocks[block]| then s
      else s.(cursor := Some(block),
              workers := s.workers[x := if block < target then Scanning(block + 1, 0, target) else Idle])
  }

  function Apply(f: Feed, s: System, op: Op): System
  {
    match op
    case BootOp(head) => EnsureCursor(f, s, head)
    case BeginOp(x, seeded, head) => Begin(f, s, x, seeded, head)
    case CreditOp(x) => CreditNext(f, s, x)
    case AdvanceOp(x) => Advance(f, s, x)
    case CrashOp(x) => s.(workers := s.workers[x := Idle])
    case OutsideOp(a, delta) =>
      s.(store := s.store.(balances := s.store.balances[a := Available(s.store.balances, a) + delta]))
  }

  function Run(f: Feed, s: System, ops: seq<Op>): System
  {
    if ops == [] then s else Apply(f, Run(f, s, ops[..|ops| - 1]), ops[|ops| - 1])
  }

  /** A chain never watched before. */
  ghost predicate Genesis(s: System)
  {
    s.cursor == None && s.store.processed == map[] && s.workers == map[]
  }

  /** The block a run first put the cursor at. */
  function Start(f: Feed, s: System, ops: seq<Op>): Option<nat>
  {
    if ops == [] then s.cursor else
      var front := ops[..|ops| - 1];
      if Start(f, s, front).Some? then Start(f, s, front) else Run(f, s, ops).cursor
  }

  // ---- The chain as one list of candidates ----

  function All(f: Feed, start: nat): seq<Candidate>
    requires start < |f.blocks|
  {
    Through(f, start, |f.blocks| - 1)
  }

  lemma {:induction false} ThroughPrefix(f: Feed, start: nat, b: nat, end: nat)
    requires start <= b <= end < |f.blocks|
    ensures |Through(f, start, b)| <= |Through(f, start, end)|
    ensures Through(f, start, end)[..|Through(f, start, b)|] == Through(f, start, b)
    decreases end
  {
    if b < end { ThroughPrefix(f, start, b, end - 1); }
  }

  /** The candidate a worker credits next, by its place in the whole list. */
  lemma PositionOf(f: Feed, start: nat, block: nat, done: nat)
    requires start < block < |f.blocks| && done < |f.blocks[block]|
    ensures var i := |Through(f, start, block - 1)| + done;
            i < |All(f, start)| && All(f, start)[i] == f.blocks[block][done]
  {
    ThroughPrefix(f, start, block, |f.blocks| - 1);
    var i := |Through(f, start, block - 1)| + done;
    assert All(f, start)[i] == Through(f, start, block)[i];
  }

  /** Candidates come in block order: the list through `b` holds exactly the
      candidates of blocks up to `b`. */
  lemma {:induction false} BlockOrder(f: Feed, start: nat, b: nat, end: nat)
    requires Sound(f) && start <= b <= end < |f.blocks|
    ensures |Through(f, start, b)| <= |Through(f, start, end)|
    ensures Within(Through(f, start, b), start, b)
    ensures Within(Through(f, start, end)[|Through(f, start, b)|..], b, end)
    decreases end
  {
    if b < end {
      BlockOrder(f, start, b, end - 1);
      var n := |Through(f, start, b)|;
      assert Through(f, start, end)[n..] == Through(f, start, end - 1)[n..] + f.blocks[end];
    } else if start < end {
      BlockOrder(f, start, end - 1, end - 1);
    }
  }

  // ---- What every schedule keeps ----

  /** A worker's next candidate is at most the high-water mark `n`. */
  ghost predicate Placed(f: Feed, start: nat, n: nat, x: Worker)
    requires start < |f.blocks|
  {
    x.Scanning? ==>
      && start < x.block <= x.target < |f.blocks|
      && x.done <= |f.blocks[x.block]|
      && |Through(f, start, x.block - 1)| + x.done <= n
  }

  ghost predicate AllPlaced(f: Feed, start: nat, n: nat, workers: map<int, Worker>)
    requires start < |f.blocks|
  {
    forall x :: x in workers ==> Placed(f, start, n, workers[x])
  }

  /** The records are those of one scan of the first `n` candidates; the cursor and
      every worker are at or behind that mark. */
  ghost predicate Valid(f: Feed, s: Store, t: System, start: nat, n: nat)
  {
    && start < |f.blocks| && n <= |All(f, start)|
    && t.cursor.Some? && start <= t.cursor.value < |f.blocks|
    && |Through(f, start, t.cursor.value)| <= n
    && t.store.processed == Scan(f.chain, s, All(f, start)[..n]).processed
    && AllPlaced(f, start, n, t.workers)
  }

  /** Before the cursor exists nothing has been scanned. */
  ghost predicate Untouched(t: System)
  {
    && t.cursor == None && t.store.processed == map[]
    && forall x :: x in t.workers ==> t.workers[x] == Idle
  }

  /** Crediting at the mark moves it by one; crediting behind it repeats a known key
      and changes nothing. */
  lemma CreditAt(chain: int, s: Store, cs: seq<Candidate>, n: nat, i: nat, m: nat, t: Store, c: Candidate)
    requires s.processed == map[] && Positive(cs) && i <= n <= |cs| && i < |cs| && c == cs[i]
    requires m == if i == n then n + 1 else n
    requires t.processed == Scan(chain, s, cs[..n]).processed
    ensures Next(chain, t, c).processed == Scan(chain, s, cs[..m]).processed
  {
    NextRecord(chain, t, cs[i]);
    if i == n {
      assert cs[..n + 1][..n] == cs[..n];
      NextRecord(chain, Scan(chain, s, cs[..n]), cs[i]);
    } else {
      ScanRecords(chain, s, cs[..n], cs[i].key);
      assert cs[..n][i] == cs[i];
    }
  }

  lemma Replaced(f: Feed, start: nat, n: nat, m: nat, workers: map<int, Worker>, x: int, next: Worker)
    requires start < |f.blocks| && n <= m && Placed(f, start, m, next)
    requires AllPlaced(f, start, n, workers)
    ensures AllPlaced(f, start, m, workers[x := next])
  {
  }

  /** The mark after a worker's credit. */
  function Reached(f: Feed, start: nat, n: nat, x: Worker): nat
    requires x.Scanning? && start < x.block < |f.blocks|
  {
    var i := |Through(f, start, x.block - 1)| + x.done;
    if i == n then n + 1 else n
  }

  lemma AllPositive(f: Feed, start: nat)
    requires Sound(f) && start < |f.blocks|
    ensures Positive(All(f, start))
  {
    BlockOrder(f, start, |f.blocks| - 1, |f.blocks| - 1);
  }

  lemma MarkBounds(f: Feed, start: nat, n: nat, x: Worker)
    requires start < |f.blocks| && n <= |All(f, start)|
    requires x.Scanning? && Placed(f, start, n, x) && x.done < |f.blocks[x.block]|
    ensures n <= Reached(f, start, n, x) <= |All(f, start)|
    ensures Placed(f, start, Reached(f, start, n, x), x.(done := x.done + 1))
  {
    PositionOf(f, start, x.block, x.done);
  }

  lemma CreditMarks(f: Feed, s: Store, t: Store, start: nat, n: nat, m: nat, x: Worker, all: seq<Candidate>)
    requires Sound(f) && s.processed == map[] && start < |f.blocks| && all == All(f, start) && n <= |all|
    requires x.Scanning? && Placed(f, start, n, x) && x.done < |f.blocks[x.block]|
    requires m == Reached(f, start, n, x) <= |all|
    requires t.processed == Scan(f.chain, s, all[..n]).processed
    ensures Next(f.chain, t, f.blocks[x.block][x.done]).processed == Scan(f.chain, s, all[..m]).processed
  {
    var i := |Through(f, start, x.block - 1)| + x.done;
    assert i < |all| && all[i] == f.blocks[x.block][x.done] && Positive(all) by {
      PositionOf(f, start, x.block, x.done);
      AllPositive(f, start);
    }
    CreditAt(f.chain, s, all, n, i, m, t, f.blocks[x.block][x.done]);
  }

  lemma CreditKeeps(f: Feed, s: Store, t: System, start: nat, n: nat, x: int) returns (m: nat)
    requires Sound(f) && s.processed == map[] && Valid(f, s, t, start, n)
    ensures Valid(f, s, CreditNext(f, t, x), start, m)
  {
    m := n;
    var worker := WorkerOf(t, x);
    if worker.Scanning? && worker.done < |f.blocks[worker.block]| {
      m := Reached(f, start, n, worker);
      MarkBounds(f, start, n, worker);
      CreditMarks(f, s, t.store, start, n, m, worker, All(f, start));
      Replaced(f, start, n, m, t.workers, x, worker.(done := worker.done + 1));
    }
  }

  lemma AdvanceKeeps(f: Feed, s: Store, t: System, start: nat, n: nat, x: int)
    requires Valid(f, s, t, start, n)
    ensures Valid(f, s, Advance(f, t, x), start, n)
  {
  }

  lemma BeginKeeps(f: Feed, s: Store, t: System, start: nat, n: nat, x: int, seeded: nat, head: nat)
    requires Valid(f, s, t, start, n)
    ensures Valid(f, s, Begin(f, t, x, seeded, head), start, n)
  {
  }

  lemma StepKeeps(f: Feed, s: Store, t: System, start: nat, n: nat, op: Op) returns (m: nat)
    requires Sound(f) && s.processed == map[] && Valid(f, s, t, start, n)
    ensures Valid(f, s, Apply(f, t, op), start, m)
  {
    m := n;
    match op
    case BootOp(head) =>
    case BeginOp(x, seeded, head) => BeginKeeps(f, s, t, start, n, x, seeded, head);
    case CreditOp(x) => m := CreditKeeps(f, s, t, start, n, x);
    case AdvanceOp(x) => AdvanceKeeps(f, s, t, start, n, x);
    case CrashOp(x) =>
    case OutsideOp(a, delta) =>
  }

  lemma FirstStep(f: Feed, s: Store, t: System, op: Op)
    requires s.processed == map[] && Untouched(t)
    ensures var u := Apply(f, t, op);
            Untouched(u) || (u.cursor.Some? && Valid(f, s, u, u.cursor.value, 0))
  {
    var u := Apply(f, t, op);
    if u.cursor.Some? {
      assert Through(f, u.cursor.value, u.cursor.value) == [];
      assert All(f, u.cursor.value)[..0] == [];
    }
  }

  /** Every run of every schedule has recorded exactly one scan of some first part
      of the chain, from the block where the cursor was first put. */
  lemma {:induction false} RunKeeps(f: Feed, s: System, ops: seq<Op>) returns (n: nat)
    requires Sound(f) && Genesis(s)
    ensures var t, start := Run(f, s, ops), Start(f, s, ops);
            if start.None? then Untouched(t) else Valid(f, s.store, t, start.value, n)
    decreases |ops|
  {
    n := 0;
    if ops != [] {
      var front, op := ops[..|ops| - 1], ops[|ops| - 1];
      n := RunKeeps(f, s, front);
      var t := Run(f, s, front);
      if Start(f, s, front).Some? {
        n := StepKeeps(f, s.store, t, Start(f, s, front).value, n, op);
      } else {
        FirstStep(f, s.store, t, op);
        n := 0;
      }
    }
  }

  // ---- Consequences ----

  function RecordsUpTo(processed: map<Key, Record>, block: nat): map<Key, Record>
  {
    map k | k in processed && processed[k].block <= block :: processed[k]
  }

  lemma FirstInPrefix(cs: seq<Candidate>, m: nat, k: Key)
    requires m <= |cs|
    ensures FirstIndex(cs[..m], k) < m ==> FirstIndex(cs, k) == FirstIndex(cs[..m], k)
    ensures FirstIndex(cs[..m], k) == m ==> m <= FirstIndex(cs, k)
  {
    var i, j := FirstIndex(cs[..m], k), FirstIndex(cs, k);
    assert forall l :: 0 <= l < m ==> cs[..m][l] == cs[l];
    if j < m { assert cs[..m][j].key == k; }
    if i < m { assert cs[i].key == k; }
  }

  /** Whatever the crashes, restarts, races and cursor rollbacks, the blocks up to the
      cursor hold exactly the records of one uninterrupted scan of them. */
  lemma MatchesOneScan(w: World, s: System, ops: seq<Op>)
    requires Genesis(s) && Run(FeedOf(w), s, ops).cursor.Some?
    ensures var f := FeedOf(w);
            var start, cursor := Start(f, s, ops), Run(f, s, ops).cursor.value;
            && start.Some? && start.value <= cursor < |w.blocks|
            && RecordsUpTo(Run(f, s, ops).store.processed, cursor) ==
               Scan(w.chain, s.store, Through(f, start.value, cursor)).processed
  {
    FeedSound(w);
    FeedMatches(FeedOf(w), s, ops);
  }

  lemma FeedMatches(f: Feed, s: System, ops: seq<Op>)
    requires Sound(f) && Genesis(s) && Run(f, s, ops).cursor.Some?
    ensures var start, cursor := Start(f, s, ops), Run(f, s, ops).cursor.value;
            && start.Some? && start.value <= cursor < |f.blocks|
            && RecordsUpTo(Run(f, s, ops).store.processed, cursor) ==
               Scan(f.chain, s.store, Through(f, start.value, cursor)).processed
  {
    var n := RunKeeps(f, s, ops);
    var t, start := Run(f, s, ops), Start(f, s, ops).value;
    var cursor := t.cursor.value;
    forall k
      ensures var p, q := RecordsUpTo(t.store.processed, cursor),
                          Scan(f.chain, s.store, Through(f, start, cursor)).processed;
              (k in p <==> k in q) && (k in q ==> p[k] == q[k])
    {
      SameRecord(f, s.store, start, cursor, n, k);
    }
  }

  /** Cutting a scan where the blocks pass the cursor keeps the records up to it. */
  lemma RecordCut(chain: int, s: Store, cs: seq<Candidate>, m: nat, cursor: nat, k: Key)
    requires s.processed == map[] && Positive(cs) && m <= |cs|
    requires forall i :: 0 <= i < |cs| ==> (cs[i].record.block <= cursor <==> i < m)
    ensures var p := RecordsUpTo(Scan(chain, s, cs).processed, cursor);
            var q := Scan(chain, s, cs[..m]).processed;
            (k in p <==> k in q) && (k in q ==> p[k] == q[k])
  {
    ScanRecords(chain, s, cs, k);
    ScanRecords(chain, s, cs[..m], k);
    FirstInPrefix(cs, m, k);
  }

  /** The candidates up to the mark pass the cursor exactly where its block ends. */
  lemma MarkCut(f: Feed, start: nat, cursor: nat, n: nat)
    requires Sound(f) && start <= cursor < |f.blocks|
    requires |Through(f, start, cursor)| <= n <= |All(f, start)|
    ensures var some, m := All(f, start)[..n], |Through(f, start, cursor)|;
            && Positive(some) && some[..m] == Through(f, start, cursor)
            && forall i :: 0 <= i < n ==> (some[i].record.block <= cursor <==> i < m)
  {
    var all, m := All(f, start), |Through(f, start, cursor)|;
    ThroughPrefix(f, start, cursor, |f.blocks| - 1);
    BlockOrder(f, start, cursor, |f.blocks| - 1);
    assert all[..n][..m] == all[..m];
    forall i | 0 <= i < n ensures 0 < all[i].record.amount && (all[i].record.block <= cursor <==> i < m) {
      if i < m {
        assert all[i] == all[..m][i];
      } else {
        assert all[i] == all[m..][i - m];
      }
    }
  }

  lemma SameRecord(f: Feed, s: Store, start: nat, cursor: nat, n: nat, k: Key)
    requires Sound(f) && s.processed == map[] && start <= cursor < |f.blocks|
    requires |Through(f, start, cursor)| <= n <= |All(f, start)|
    ensures var p := RecordsUpTo(Scan(f.chain, s, All(f, start)[..n]).processed, cursor);
            var q := Scan(f.chain, s, Through(f, start, cursor)).processed;
            (k in p <==> k in q) && (k in q ==> p[k] == q[k])
  {
    MarkCut(f, start, cursor, n);
    RecordCut(f.chain, s, All(f, start)[..n], |Through(f, start, cursor)|, cursor, k);
  }

  /** Two schedules that started at one block and now show one cursor have recorded
      the same deposits up to it. */
  lemma ScheduleIndependent(w: World, s: System, ops: seq<Op>, others: seq<Op>)
    requires Genesis(s)
    requires Start(FeedOf(w), s, ops) == Start(FeedOf(w), s, others)
    requires Run(FeedOf(w), s, ops).cursor == Run(FeedOf(w), s, others).cursor
    requires Run(FeedOf(w), s, ops).cursor.Some?
    ensures var f := FeedOf(w);
            var cursor := Run(f, s, ops).cursor.value;
            RecordsUpTo(Run(f, s, ops).store.processed, cursor) ==
            RecordsUpTo(Run(f, s, others).store.processed, cursor)
  {
    MatchesOneScan(w, s, ops);
    MatchesOneScan(w, s, others);
  }

  /** No run ever drops or rewrites a record. */
  lemma {:induction false} RecordsStay(f: Feed, s: System, ops: seq<Op>)
    ensures var p, q := s.store.processed, Run(f, s, ops).store.processed;
            forall k :: k in p ==> k in q && q[k] == p[k]
    decreases |ops|
  {
    if ops != [] { RecordsStay(f, s, ops[..|ops| - 1]); }
  }

  /** What other services have added to an account over a run. */
  function Moved(ops: seq<Op>, a: Account): int
  {
    if ops == [] then 0 else
      var op := ops[|ops| - 1];
      Moved(ops[..|ops| - 1], a) + if op.OutsideOp? && op.account == a then op.delta else 0
  }

  /** Every account's balance is what it was, plus what others moved, plus the sum of
      its deposit records: each record was credited exactly once, and no credit was
      made without one. */
  lemma {:induction false} CreditedOnce(f: Feed, s: System, ops: seq<Op>, a: Account)
    requires Genesis(s)
    ensures var t := Run(f, s, ops).store;
            Available(t.balances, a) ==
            Available(s.store.balances, a) + Moved(ops, a) + Total(Received(f.chain, t.processed, a))
    decreases |ops|
  {
    if ops == [] {
      assert Received(f.chain, s.store.processed, a) == map[];
    } else {
      var front, op := ops[..|ops| - 1], ops[|ops| - 1];
      CreditedOnce(f, s, front, a);
      StepCredits(f, Run(f, s, front), op, a);
    }
  }

  lemma StepCredits(f: Feed, t: System, op: Op, a: Account)
    ensures var u := Apply(f, t, op);
            Available(u.store.balances, a) - Available(t.store.balances, a) ==
            (if op.OutsideOp? && op.account == a then op.delta else 0)
            + Total(Received(f.chain, u.store.processed, a)) - Total(Received(f.chain, t.store.processed, a))
  {
    if op.CreditOp? {
      var x := WorkerOf(t, op.worker);
      if x.Scanning? && x.block < |f.blocks| && x.done < |f.blocks[x.block]| {
        NextCredits(f.chain, t.store, f.blocks[x.block][x.done], a);
      }
    }
  }
}
