/** What the shared log index and the unread receipt status cost over whole runs: exactly
    how many deposits are never credited, and exactly which failed transactions are. */
module DepositLosses {
  import opened Deposits
  import opened DepositRuns

  /** Transaction hashes identify transactions. */
  ghost predicate DistinctHashes(w: World)
  {
    forall b, i, c, j |
      0 <= b < |w.blocks| && 0 <= i < |w.blocks[b]| && 0 <= c < |w.blocks| && 0 <= j < |w.blocks[c]| ::
      w.blocks[b][i].hash == w.blocks[c][j].hash ==> b == c && i == j
  }

  // ---- Lists of candidates with keys of their own ----

  function Flat(parts: seq<seq<Candidate>>): seq<Candidate>
  {
    if parts == [] then [] else Flat(parts[..|parts| - 1]) + parts[|parts| - 1]
  }

  ghost function KeyTotal(parts: seq<seq<Candidate>>): nat
  {
    if parts == [] then 0 else KeyTotal(parts[..|parts| - 1]) + |KeysOf(parts[|parts| - 1])|
  }

  /** Every part's keys carry its own hash. */
  ghost predicate Tagged(parts: seq<seq<Candidate>>, hashes: seq<string>)
  {
    && |parts| == |hashes|
    && (forall i, j :: 0 <= i < j < |hashes| ==> hashes[i] != hashes[j])
    && (forall i :: 0 <= i < |parts| ==> PartTagged(parts[i], hashes[i]))
  }

  ghost predicate PartTagged(part: seq<Candidate>, hash: string)
  {
    forall k :: k in KeysOf(part) ==> k.hash == hash
  }

  lemma TaggedFront(parts: seq<seq<Candidate>>, hashes: seq<string>)
    requires Tagged(parts, hashes) && parts != []
    ensures Tagged(parts[..|parts| - 1], hashes[..|parts| - 1])
  {
  }

  /** A key of a list of parts comes from the part with its hash. */
  lemma {:induction false} OwnPart(parts: seq<seq<Candidate>>, hashes: seq<string>, k: Key)
    requires Tagged(parts, hashes)
    ensures k in KeysOf(Flat(parts)) ==> k.hash in hashes
    ensures forall i :: 0 <= i < |parts| && hashes[i] == k.hash ==>
              (k in KeysOf(Flat(parts)) <==> k in KeysOf(parts[i]))
    decreases |parts|
  {
    if parts != [] {
      var n := |parts| - 1;
      TaggedFront(parts, hashes);
      OwnPart(parts[..n], hashes[..n], k);
      KeysConcat(Flat(parts[..n]), parts[n]);
      assert PartTagged(parts[n], hashes[n]);
      forall i | 0 <= i < |parts| && hashes[i] == k.hash
        ensures k in KeysOf(Flat(parts)) <==> k in KeysOf(parts[i])
      {
        if i < n {
          assert hashes[..n][i] == k.hash && parts[..n][i] == parts[i];
        }
      }
    }
  }

  lemma {:induction false} FlatKeyCount(parts: seq<seq<Candidate>>, hashes: seq<string>)
    requires Tagged(parts, hashes)
    ensures |KeysOf(Flat(parts))| == KeyTotal(parts)
    decreases |parts|
  {
    if parts != [] {
      var n := |parts| - 1;
      var front := Flat(parts[..n]);
      TaggedFront(parts, hashes);
      FlatKeyCount(parts[..n], hashes[..n]);
      forall k | k in KeysOf(front) ensures k !in KeysOf(parts[n]) {
        OwnPart(parts[..n], hashes[..n], k);
        assert PartTagged(parts[n], hashes[n]);
      }
      KeysConcat(front, parts[n]);
    }
  }

  lemma Associates(a: seq<Candidate>, b: seq<Candidate>, c: seq<Candidate>)
    ensures (a + b) + c == a + (b + c)
  {
  }

  lemma FlatLast(parts: seq<seq<Candidate>>, last: seq<Candidate>)
    ensures Flat(parts + [last]) == Flat(parts) + last
  {
    assert (parts + [last])[..|parts|] == parts;
  }

  lemma {:induction false} FlatConcat(a: seq<seq<Candidate>>, b: seq<seq<Candidate>>)
    ensures Flat(a + b) == Flat(a) + Flat(b)
    decreases |b|
  {
    if b == [] {
      assert a + b == a;
    } else {
      var front, last := b[..|b| - 1], b[|b| - 1];
      assert b == front + [last] && a + b == (a + front) + [last];
      FlatConcat(a, front);
      FlatLast(a + front, last);
      FlatLast(front, last);
      Associates(Flat(a), Flat(front), last);
    }
  }

  // ---- The chain as a list of transactions ----

  datatype Located = Located(tx: Tx, block: nat)

  function Row(w: World, b: nat): (r: seq<Located>)
    requires b < |w.blocks|
    ensures |r| == |w.blocks[b]|
    ensures forall i :: 0 <= i < |r| ==> r[i] == Located(w.blocks[b][i], b)
  {
    seq(|w.blocks[b]|, i requires 0 <= i < |w.blocks[b]| => Located(w.blocks[b][i], b))
  }

  /** The transactions of the blocks after `start` through `end`, in order. */
  function Span(w: World, start: nat, end: nat): seq<Located>
    requires start <= end < |w.blocks|
  {
    if end == start then [] else Span(w, start, end - 1) + Row(w, end)
  }

  function Parts(w: World, l: seq<Located>): (r: seq<seq<Candidate>>)
    ensures |r| == |l|
    ensures forall i :: 0 <= i < |l| ==> r[i] == TxCandidates(w, l[i].tx, l[i].block)
  {
    seq(|l|, i requires 0 <= i < |l| => TxCandidates(w, l[i].tx, l[i].block))
  }

  function Hashes(l: seq<Located>): (r: seq<string>)
    ensures |r| == |l|
    ensures forall i :: 0 <= i < |l| ==> r[i] == l[i].tx.hash
  {
    seq(|l|, i requires 0 <= i < |l| => l[i].tx.hash)
  }

  /** How many of the transactions collide. */
  ghost function Collisions(w: World, l: seq<Located>): nat
  {
    if l == [] then 0 else
      Collisions(w, l[..|l| - 1]) + if Collides(w, l[|l| - 1].tx) then 1 else 0
  }

  lemma {:induction false} RowFlat(w: World, b: nat, n: nat)
    requires b < |w.blocks| && n <= |w.blocks[b]|
    ensures Flat(Parts(w, Row(w, b))[..n]) == TxsCandidates(w, w.blocks[b], n, b)
  {
    if n != 0 {
      RowFlat(w, b, n - 1);
      var parts := Parts(w, Row(w, b));
      assert parts[..n][..n - 1] == parts[..n - 1];
    }
  }

  lemma PartsConcat(w: World, a: seq<Located>, b: seq<Located>)
    ensures Parts(w, a + b) == Parts(w, a) + Parts(w, b)
  {
  }

  lemma RowCandidates(w: World, b: nat)
    requires b < |w.blocks|
    ensures Flat(Parts(w, Row(w, b))) == BlockCandidates(w, b)
  {
    RowFlat(w, b, |w.blocks[b]|);
    assert Parts(w, Row(w, b))[..|w.blocks[b]|] == Parts(w, Row(w, b));
  }

  lemma SpanStep(w: World, front: seq<Located>, b: nat, cs: seq<Candidate>, row: seq<Candidate>)
    requires b < |w.blocks| && cs == Flat(Parts(w, front)) && row == Flat(Parts(w, Row(w, b)))
    ensures Flat(Parts(w, front + Row(w, b))) == cs + row
  {
    PartsConcat(w, front, Row(w, b));
    FlatConcat(Parts(w, front), Parts(w, Row(w, b)));
  }

  /** The chain's candidates, read as one list of transactions or block by block. */
  lemma {:induction false} SpanFlat(w: World, f: Feed, start: nat, end: nat)
    requires |f.blocks| == |w.blocks| && start <= end < |w.blocks|
    requires forall b :: 0 <= b < |w.blocks| ==> f.blocks[b] == Flat(Parts(w, Row(w, b)))
    ensures Through(f, start, end) == Flat(Parts(w, Span(w, start, end)))
    decreases end
  {
    if start < end {
      SpanFlat(w, f, start, end - 1);
      SpanStep(w, Span(w, start, end - 1), end, Through(f, start, end - 1), f.blocks[end]);
    }
  }

  lemma FeedFlat(w: World, start: nat, end: nat)
    requires start <= end < |w.blocks|
    ensures Through(FeedOf(w), start, end) == Flat(Parts(w, Span(w, start, end)))
  {
    forall b | 0 <= b < |w.blocks| ensures FeedOf(w).blocks[b] == Flat(Parts(w, Row(w, b))) {
      RowCandidates(w, b);
    }
    SpanFlat(w, FeedOf(w), start, end);
  }

  /** Every listed transaction is where it says, and every one of the range is listed. */
  lemma {:induction false} SpanMembers(w: World, start: nat, end: nat)
    requires start <= end < |w.blocks|
    ensures forall p :: p in Span(w, start, end) ==> start < p.block <= end && p.tx in w.blocks[p.block]
    ensures forall b, i :: start < b <= end && 0 <= i < |w.blocks[b]| ==>
              Located(w.blocks[b][i], b) in Span(w, start, end)
    decreases end
  {
    if start < end {
      SpanMembers(w, start, end - 1);
      forall b, i | start < b <= end && 0 <= i < |w.blocks[b]|
        ensures Located(w.blocks[b][i], b) in Span(w, start, end)
      {
        if b == end { assert Row(w, end)[i] == Located(w.blocks[b][i], b); }
      }
    }
  }

  lemma {:induction false} SpanDistinct(w: World, start: nat, end: nat)
    requires DistinctHashes(w) && start <= end < |w.blocks|
    ensures forall i, j :: 0 <= i < j < |Span(w, start, end)| ==>
              Span(w, start, end)[i].tx.hash != Span(w, start, end)[j].tx.hash
    decreases end
  {
    if start < end {
      SpanDistinct(w, start, end - 1);
      SpanMembers(w, start, end - 1);
      var front, row := Span(w, start, end - 1), Row(w, end);
      var all: seq<Located> := front + row;
      forall i, j | 0 <= i < j < |all| ensures all[i].tx.hash != all[j].tx.hash {
        if i < |front| <= j {
          assert front[i] in front;
          var p, q := front[i], row[j - |front|];
          var k :| 0 <= k < |w.blocks[p.block]| && w.blocks[p.block][k] == p.tx;
        }
      }
    }
  }

  lemma SpanTagged(w: World, start: nat, end: nat)
    requires DistinctHashes(w) && start <= end < |w.blocks|
    ensures Tagged(Parts(w, Span(w, start, end)), Hashes(Span(w, start, end)))
  {
    var l := Span(w, start, end);
    SpanDistinct(w, start, end);
    forall i | 0 <= i < |l| ensures PartTagged(Parts(w, l)[i], Hashes(l)[i]) {
      TxKeyCount(w, l[i].tx, l[i].block);
    }
  }

  lemma {:induction false} KeyTotalOf(w: World, l: seq<Located>)
    ensures KeyTotal(Parts(w, l)) == |Flat(Parts(w, l))| - Collisions(w, l)
    decreases |l|
  {
    if l != [] {
      var n := |l| - 1;
      KeyTotalOf(w, l[..n]);
      TxKeyCount(w, l[n].tx, l[n].block);
      assert Parts(w, l)[..n] == Parts(w, l[..n]);
      assert Parts(w, l)[n] == TxCandidates(w, l[n].tx, l[n].block);
    }
  }

  // ---- Lost deposits ----

  lemma OneScanKeys(w: World, f: Feed, s: Store, start: nat, end: nat)
    requires f == FeedOf(w) && s.processed == map[] && start <= end < |w.blocks|
    ensures Scan(w.chain, s, Through(f, start, end)).processed.Keys == KeysOf(Flat(Parts(w, Span(w, start, end))))
  {
    FeedSound(w);
    BlockOrder(f, start, end, end);
    ScanKeySet(w.chain, s, Through(f, start, end));
    FeedFlat(w, start, end);
  }

  lemma SpanCount(w: World, start: nat, end: nat)
    requires DistinctHashes(w) && start <= end < |w.blocks|
    ensures var l := Span(w, start, end);
            |KeysOf(Flat(Parts(w, l)))| == |Flat(Parts(w, l))| - Collisions(w, l)
  {
    var l := Span(w, start, end);
    SpanTagged(w, start, end);
    FlatKeyCount(Parts(w, l), Hashes(l));
    KeyTotalOf(w, l);
  }

  lemma SizeOfKeys(p: map<Key, Record>)
    ensures |p| == |p.Keys|
  {
  }

  /** Over every run of every schedule the deposits of the blocks up to the cursor are all
      recorded, less exactly one for each transaction that collides. */
  lemma LossCount(w: World, s: System, ops: seq<Op>)
    requires Genesis(s) && DistinctHashes(w) && Run(FeedOf(w), s, ops).cursor.Some?
    ensures var f := FeedOf(w);
            var start, cursor := Start(f, s, ops), Run(f, s, ops).cursor.value;
            && start.Some? && start.value <= cursor < |w.blocks|
            && |RecordsUpTo(Run(f, s, ops).store.processed, cursor)| ==
               |Through(f, start.value, cursor)| - Collisions(w, Span(w, start.value, cursor))
  {
    MatchesOneScan(w, s, ops);
    var f := FeedOf(w);
    var start, cursor := Start(f, s, ops).value, Run(f, s, ops).cursor.value;
    OneScanKeys(w, f, s.store, start, cursor);
    SizeOfKeys(Scan(w.chain, s.store, Through(f, start, cursor)).processed);
    FeedFlat(w, start, cursor);
    SpanCount(w, start, cursor);
  }

  lemma {:induction false} NoneIff(w: World, l: seq<Located>)
    ensures Collisions(w, l) == 0 <==> forall p :: p in l ==> !Collides(w, p.tx)
    decreases |l|
  {
    if l != [] {
      NoneIff(w, l[..|l| - 1]);
      assert l == l[..|l| - 1] + [l[|l| - 1]];
    }
  }

  /** Every deposit of the blocks up to the cursor is recorded if and only if no
      transaction there carries a native deposit and also deposits through its first
      log. */
  lemma AllRecordedIff(w: World, s: System, ops: seq<Op>)
    requires Genesis(s) && DistinctHashes(w) && Run(FeedOf(w), s, ops).cursor.Some?
    ensures var f := FeedOf(w);
            var start, cursor := Start(f, s, ops), Run(f, s, ops).cursor.value;
            && start.Some? && start.value <= cursor < |w.blocks|
            && (|RecordsUpTo(Run(f, s, ops).store.processed, cursor)| == |Through(f, start.value, cursor)| <==>
                  forall b, i :: start.value < b <= cursor && 0 <= i < |w.blocks[b]| ==>
                    !Collides(w, w.blocks[b][i]))
  {
    LossCount(w, s, ops);
    var start, cursor := Start(FeedOf(w), s, ops).value, Run(FeedOf(w), s, ops).cursor.value;
    NoneInRange(w, start, cursor);
  }

  lemma NoneInRange(w: World, start: nat, end: nat)
    requires start <= end < |w.blocks|
    ensures Collisions(w, Span(w, start, end)) == 0 <==>
            forall b, i :: start < b <= end && 0 <= i < |w.blocks[b]| ==> !Collides(w, w.blocks[b][i])
  {
    var l := Span(w, start, end);
    NoneIff(w, l);
    SpanMembers(w, start, end);
    if forall b, i :: start < b <= end && 0 <= i < |w.blocks[b]| ==> !Collides(w, w.blocks[b][i]) {
      forall p | p in l ensures !Collides(w, p.tx) {
        var i :| 0 <= i < |w.blocks[p.block]| && w.blocks[p.block][i] == p.tx;
      }
    } else {
      var b, i :| start < b <= end && 0 <= i < |w.blocks[b]| && Collides(w, w.blocks[b][i]);
      assert Located(w.blocks[b][i], b) in l;
    }
  }

  // ---- Failed transactions ----

  lemma FailedKeys(w: World, tx: Tx, block: nat, k: Key)
    requires !tx.succeeded && k.hash == tx.hash
    ensures k in KeysOf(TxCandidates(w, tx, block)) <==> NativeQualifies(w, tx) && k.logIndex == 0
  {
    if NativeQualifies(w, tx) {
      var c := Candidate(Key(tx.hash, 0), Record(w.owners[tx.to.value], NATIVE, tx.value, block));
      assert TxCandidates(w, tx, block) == [c];
      KeysOne(c);
    } else {
      assert TxCandidates(w, tx, block) == [];
    }
  }

  lemma SpanOwn(w: World, start: nat, end: nat, p: Located, k: Key)
    requires DistinctHashes(w) && start <= end < |w.blocks|
    requires p in Span(w, start, end) && k.hash == p.tx.hash
    ensures k in KeysOf(Flat(Parts(w, Span(w, start, end)))) <==> k in KeysOf(TxCandidates(w, p.tx, p.block))
  {
    var l := Span(w, start, end);
    SpanTagged(w, start, end);
    OwnPart(Parts(w, l), Hashes(l), k);
    var i :| 0 <= i < |l| && l[i] == p;
    assert Hashes(l)[i] == k.hash && Parts(w, l)[i] == TxCandidates(w, p.tx, p.block);
  }

  /** Over every run, an unsuccessful transaction of a block up to the cursor has a record
      if and only if its native value qualifies: a value that never moved is credited. */
  lemma FailedRecordedIff(w: World, s: System, ops: seq<Op>, b: nat, i: nat, k: Key)
    requires Genesis(s) && DistinctHashes(w) && Run(FeedOf(w), s, ops).cursor.Some?
    requires Start(FeedOf(w), s, ops).Some? && Start(FeedOf(w), s, ops).value < b
    requires b <= Run(FeedOf(w), s, ops).cursor.value < |w.blocks|
    requires i < |w.blocks[b]| && !w.blocks[b][i].succeeded && k.hash == w.blocks[b][i].hash
    ensures k in RecordsUpTo(Run(FeedOf(w), s, ops).store.processed, Run(FeedOf(w), s, ops).cursor.value) <==>
            NativeQualifies(w, w.blocks[b][i]) && k.logIndex == 0
  {
    MatchesOneScan(w, s, ops);
    var f, tx := FeedOf(w), w.blocks[b][i];
    var start, cursor := Start(f, s, ops).value, Run(f, s, ops).cursor.value;
    OneScanKeys(w, f, s.store, start, cursor);
    SpanMembers(w, start, cursor);
    SpanOwn(w, start, cursor, Located(tx, b), k);
    FailedKeys(w, tx, b, k);
  }
}
