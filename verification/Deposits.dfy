/** Which on-chain transfers backend/services/deposit_watcher.go credits, and the one
    transaction that credits them. The chain and the address owners are fixed. */
module Deposits {
  import opened Outcomes
  import opened Sums
  import opened Ledgers

  const CONFIRMATIONS: nat := 12
  const NATIVE: string := "native"

  /** An event of a receipt, as far as the watcher looks at it. */
  datatype Log = Log(topics: nat, isTransfer: bool, to: string, dataLength: nat, amount: int, token: string)

  datatype Tx = Tx(hash: string, to: Option<string>, value: int, succeeded: bool, logs: seq<Log>)

  /** The blocks by number, and the owner of every deposit address. */
  datatype World = World(chain: int, blocks: seq<seq<Tx>>, owners: map<string, string>)

  datatype Key = Key(hash: string, logIndex: nat)

  /** A processed_deposits row. */
  datatype Record = Record(user: string, token: string, amount: int, block: nat)

  datatype Candidate = Candidate(key: Key, record: Record)

  // ---- Selection ----

  predicate NativeQualifies(w: World, tx: Tx)
  {
    tx.to.Some? && tx.to.value in w.owners && 0 < tx.value
  }

  predicate LogQualifies(w: World, l: Log)
  {
    l.topics == 3 && l.isTransfer && l.dataLength == 32 && l.to in w.owners && 0 < l.amount
  }

  function NativeCandidate(w: World, tx: Tx, block: nat): seq<Candidate>
  {
    if NativeQualifies(w, tx) then
      [Candidate(Key(tx.hash, 0), Record(w.owners[tx.to.value], NATIVE, tx.value, block))]
    else []
  }

  /** Candidates of the first `n` logs of a receipt, keyed by position. */
  function LogCandidates(w: World, tx: Tx, n: nat, block: nat): seq<Candidate>
    requires n <= |tx.logs|
  {
    if n == 0 then [] else
      var l := tx.logs[n - 1];
      LogCandidates(w, tx, n - 1, block) +
      if LogQualifies(w, l) then
        [Candidate(Key(tx.hash, n - 1), Record(w.owners[l.to], l.token, l.amount, block))]
      else []
  }

  /** The logs of a successful receipt. */
  function ReceiptCandidates(w: World, tx: Tx, block: nat): seq<Candidate>
  {
    if tx.succeeded then LogCandidates(w, tx, |tx.logs|, block) else []
  }

  /** Native first, then the logs of a successful receipt. The native transfer is not
      held to the receipt's status, and shares index zero with the first log. */
  function TxCandidates(w: World, tx: Tx, block: nat): seq<Candidate>
  {
    NativeCandidate(w, tx, block) + ReceiptCandidates(w, tx, block)
  }

  function TxsCandidates(w: World, txs: seq<Tx>, n: nat, block: nat): seq<Candidate>
    requires n <= |txs|
  {
    if n == 0 then [] else TxsCandidates(w, txs, n - 1, block) + TxCandidates(w, txs[n - 1], block)
  }

  function BlockCandidates(w: World, block: nat): seq<Candidate>
    requires block < |w.blocks|
  {
    TxsCandidates(w, w.blocks[block], |w.blocks[block]|, block)
  }

  /** What there is to credit, block by block. */
  datatype Feed = Feed(chain: int, blocks: seq<seq<Candidate>>)

  function FeedOf(w: World): (f: Feed)
    ensures |f.blocks| == |w.blocks|
    ensures forall b :: 0 <= b < |w.blocks| ==> f.blocks[b] == BlockCandidates(w, b)
  {
    Feed(w.chain, seq(|w.blocks|, b requires 0 <= b < |w.blocks| => BlockCandidates(w, b)))
  }

  /** Every candidate after block `start`, up to and including block `end`. */
  function Through(f: Feed, start: nat, end: nat): seq<Candidate>
    requires start <= end < |f.blocks|
  {
    if end == start then [] else Through(f, start, end - 1) + f.blocks[end]
  }

  // ---- Crediting ----

  /** The dedup records and the ledger, which commit together. */
  datatype Store = Store(processed: map<Key, Record>, balances: Balances)

  /** One transaction: a known key is left alone, a new one is recorded and credited. */
  function CreditDeposit(chain: int, s: Store, c: Candidate): Attempt<Store, LedgerError>
  {
    if c.key in s.processed then Commit(s) else
      var balances :- Credit(s.balances, Account(c.record.user, chain, c.record.token), c.record.amount);
      Commit(Store(s.processed[c.key := c.record], balances))
  }

  /** The store after one candidate; an aborted transaction changes nothing. */
  function Next(chain: int, s: Store, c: Candidate): Store
  {
    var r := CreditDeposit(chain, s, c);
    if r.Commit? then r.state else s
  }

  /** One uninterrupted scan of a list of candidates. */
  function Scan(chain: int, s: Store, cs: seq<Candidate>): Store
  {
    if cs == [] then s else Next(chain, Scan(chain, s, cs[..|cs| - 1]), cs[|cs| - 1])
  }

  /** A list of candidates worth crediting, all from blocks in (lo, hi]. */
  ghost predicate Within(cs: seq<Candidate>, lo: int, hi: int)
  {
    forall i :: 0 <= i < |cs| ==> 0 < cs[i].record.amount && lo < cs[i].record.block <= hi
  }

  lemma WithinConcat(a: seq<Candidate>, b: seq<Candidate>, lo: int, hi: int)
    requires Within(a, lo, hi) && Within(b, lo, hi)
    ensures Within(a + b, lo, hi)
  {
  }

  lemma {:induction false} LogsWithin(w: World, tx: Tx, n: nat, block: nat)
    requires n <= |tx.logs|
    ensures Within(LogCandidates(w, tx, n, block), block - 1, block)
  {
    if n != 0 { LogsWithin(w, tx, n - 1, block); }
  }

  lemma TxWithin(w: World, tx: Tx, block: nat)
    ensures Within(TxCandidates(w, tx, block), block - 1, block)
  {
    LogsWithin(w, tx, |tx.logs|, block);
  }

  lemma {:induction false} TxsWithin(w: World, txs: seq<Tx>, n: nat, block: nat)
    requires n <= |txs|
    ensures Within(TxsCandidates(w, txs, n, block), block - 1, block)
  {
    if n != 0 {
      TxsWithin(w, txs, n - 1, block);
      TxWithin(w, txs[n - 1], block);
      WithinConcat(TxsCandidates(w, txs, n - 1, block), TxCandidates(w, txs[n - 1], block), block - 1, block);
    }
  }

  ghost predicate Sound(f: Feed)
  {
    forall b :: 0 <= b < |f.blocks| ==> Within(f.blocks[b], b - 1, b)
  }

  /** Selection yields positive amounts only, each recorded under its own block. */
  lemma FeedSound(w: World)
    ensures Sound(FeedOf(w))
  {
    forall b | 0 <= b < |w.blocks| ensures Within(FeedOf(w).blocks[b], b - 1, b) {
      TxsWithin(w, w.blocks[b], |w.blocks[b]|, b);
    }
  }

  ghost predicate Positive(cs: seq<Candidate>)
  {
    forall i :: 0 <= i < |cs| ==> 0 < cs[i].record.amount
  }

  lemma {:induction false} ScanConcat(chain: int, s: Store, a: seq<Candidate>, b: seq<Candidate>)
    ensures Scan(chain, s, a + b) == Scan(chain, Scan(chain, s, a), b)
    decreases |b|
  {
    if b == [] {
      assert a + b == a;
    } else {
      var front := b[..|b| - 1];
      ScanConcat(chain, s, a, front);
      assert (a + b)[..|a + b| - 1] == a + front;
    }
  }

  lemma ScanOne(chain: int, s: Store, cs: seq<Candidate>, c: Candidate)
    ensures Scan(chain, s, cs + [c]) == Next(chain, Scan(chain, s, cs), c)
  {
    assert (cs + [c])[..|cs|] == cs;
  }

  // ---- What a scan records ----

  /** Position of the first candidate with a key; the length when there is none. */
  function FirstIndex(cs: seq<Candidate>, k: Key): (i: nat)
    ensures i <= |cs|
    ensures i < |cs| ==> cs[i].key == k
    ensures forall j :: 0 <= j < i ==> cs[j].key != k
  {
    if cs == [] then 0 else
      var front := cs[..|cs| - 1];
      var i := FirstIndex(front, k);
      if i < |front| then i else if cs[|front|].key == k then |front| else |cs|
  }

  lemma NextRecord(chain: int, s: Store, c: Candidate)
    requires 0 < c.record.amount
    ensures Next(chain, s, c).processed == if c.key in s.processed then s.processed else s.processed[c.key := c.record]
  {
  }

  /** A scan from an empty record table processes exactly the keys of its candidates,
      each with the record of the first candidate that has it. */
  lemma {:induction false} ScanRecords(chain: int, s: Store, cs: seq<Candidate>, k: Key)
    requires s.processed == map[] && Positive(cs)
    ensures var i, p := FirstIndex(cs, k), Scan(chain, s, cs).processed;
            && (k in p <==> i < |cs|)
            && (i < |cs| ==> p[k] == cs[i].record)
    decreases |cs|
  {
    if cs != [] {
      var front, c := cs[..|cs| - 1], cs[|cs| - 1];
      ScanRecords(chain, s, front, k);
      NextRecord(chain, Scan(chain, s, front), c);
    }
  }

  /** What the records say one account has received. */
  ghost function Received(chain: int, processed: map<Key, Record>, a: Account): map<Key, int>
  {
    map k | k in processed ::
      if Account(processed[k].user, chain, processed[k].token) == a then processed[k].amount else 0
  }

  /** A transaction credits an account with exactly what it adds to that account's
      records: a recorded deposit is credited once, and nothing else is. */
  lemma NextCredits(chain: int, s: Store, c: Candidate, a: Account)
    ensures var t := Next(chain, s, c);
            Available(t.balances, a) - Available(s.balances, a) ==
            Total(Received(chain, t.processed, a)) - Total(Received(chain, s.processed, a))
  {
    var t := Next(chain, s, c);
    if t != s {
      var v := if Account(c.record.user, chain, c.record.token) == a then c.record.amount else 0;
      assert Received(chain, t.processed, a) == Received(chain, s.processed, a)[c.key := v];
      TotalUpdate(Received(chain, s.processed, a), c.key, v);
    }
  }

  // ---- What the shared index costs ----

  ghost predicate DistinctKeys(cs: seq<Candidate>)
  {
    forall i, j :: 0 <= i < j < |cs| ==> cs[i].key != cs[j].key
  }

  ghost function KeysOf(cs: seq<Candidate>): set<Key>
  {
    set i | 0 <= i < |cs| :: cs[i].key
  }

  lemma KeysConcat(a: seq<Candidate>, b: seq<Candidate>)
    ensures KeysOf(a + b) == KeysOf(a) + KeysOf(b)
  {
    forall k | k in KeysOf(a) + KeysOf(b) ensures k in KeysOf(a + b) {
      if k in KeysOf(a) {
        var i :| 0 <= i < |a| && a[i].key == k;
        assert (a + b)[i].key == k;
      } else {
        var i :| 0 <= i < |b| && b[i].key == k;
        assert (a + b)[|a| + i].key == k;
      }
    }
  }

  lemma KeysLast(cs: seq<Candidate>)
    requires cs != []
    ensures KeysOf(cs) == KeysOf(cs[..|cs| - 1]) + {cs[|cs| - 1].key}
  {
    KeysConcat(cs[..|cs| - 1], [cs[|cs| - 1]]);
    assert cs == cs[..|cs| - 1] + [cs[|cs| - 1]];
    KeysOne(cs[|cs| - 1]);
  }

  lemma KeysOne(c: Candidate)
    ensures KeysOf([c]) == {c.key}
  {
    assert [c][0].key in KeysOf([c]);
  }

  lemma DistinctLast(cs: seq<Candidate>)
    requires cs != []
    ensures var front := cs[..|cs| - 1];
            DistinctKeys(cs) <==> DistinctKeys(front) && cs[|cs| - 1].key !in KeysOf(front)
  {
    var front, last := cs[..|cs| - 1], |cs| - 1;
    assert forall i :: 0 <= i < last ==> cs[i] == front[i];
    if cs[last].key in KeysOf(front) {
      var i :| 0 <= i < last && front[i].key == cs[last].key;
      assert cs[i].key == cs[last].key;
    } else {
      forall i | 0 <= i < last ensures cs[i].key != cs[last].key {
        assert front[i].key in KeysOf(front);
      }
    }
  }

  /** A scan adds exactly the keys of its candidates to the records. */
  lemma {:induction false} ScanKeySet(chain: int, s: Store, cs: seq<Candidate>)
    requires Positive(cs)
    ensures Scan(chain, s, cs).processed.Keys == s.processed.Keys + KeysOf(cs)
    decreases |cs|
  {
    if cs != [] {
      var front, c := cs[..|cs| - 1], cs[|cs| - 1];
      ScanKeySet(chain, s, front);
      NextRecord(chain, Scan(chain, s, front), c);
      KeysLast(cs);
    }
  }

  /** There are as many keys as candidates exactly when no two share one. */
  lemma {:induction false} KeyCount(cs: seq<Candidate>)
    ensures |KeysOf(cs)| <= |cs|
    ensures |KeysOf(cs)| == |cs| <==> DistinctKeys(cs)
    decreases |cs|
  {
    if cs != [] {
      var front, k := cs[..|cs| - 1], cs[|cs| - 1].key;
      KeyCount(front);
      KeysLast(cs);
      DistinctLast(cs);
    }
  }

  lemma Growth(chain: int, s: Store, cs: seq<Candidate>)
    requires Positive(cs) && s.processed.Keys !! KeysOf(cs)
    ensures |Scan(chain, s, cs).processed| == |s.processed| + |KeysOf(cs)|
  {
    ScanKeySet(chain, s, cs);
    assert |Scan(chain, s, cs).processed| == |Scan(chain, s, cs).processed.Keys|;
    assert |s.processed| == |s.processed.Keys|;
  }

  /** A scan of candidates not seen before credits every one of them if and only if no
      two share a key. */
  lemma AllCreditedIff(chain: int, s: Store, cs: seq<Candidate>)
    requires Positive(cs) && s.processed.Keys !! KeysOf(cs)
    ensures |Scan(chain, s, cs).processed| <= |s.processed| + |cs|
    ensures |Scan(chain, s, cs).processed| == |s.processed| + |cs| <==> DistinctKeys(cs)
  {
    Growth(chain, s, cs);
    KeyCount(cs);
  }

  lemma {:induction false} LogKeys(w: World, tx: Tx, n: nat, block: nat)
    requires n <= |tx.logs|
    ensures var cs := LogCandidates(w, tx, n, block);
            && (forall i :: 0 <= i < |cs| ==> cs[i].key.hash == tx.hash && cs[i].key.logIndex < n)
            && DistinctKeys(cs)
            && ((exists i :: 0 <= i < |cs| && cs[i].key.logIndex == 0) <==> 0 < n && LogQualifies(w, tx.logs[0]))
  {
    if n != 0 {
      LogKeys(w, tx, n - 1, block);
      var before, cs := LogCandidates(w, tx, n - 1, block), LogCandidates(w, tx, n, block);
      assert forall i :: 0 <= i < |before| ==> cs[i] == before[i];
      if n == 1 && LogQualifies(w, tx.logs[0]) { assert cs[0].key.logIndex == 0; }
      assert 1 < n ==> |cs| <= |before| + 1;
    }
  }

  /** A successful transaction that carries a native deposit and also deposits through
      its first log. */
  predicate Collides(w: World, tx: Tx)
  {
    NativeQualifies(w, tx) && tx.succeeded && tx.logs != [] && LogQualifies(w, tx.logs[0])
  }

  lemma ReceiptKeys(w: World, tx: Tx, block: nat)
    ensures var logs := ReceiptCandidates(w, tx, block);
            && (forall k :: k in KeysOf(logs) ==> k.hash == tx.hash)
            && |KeysOf(logs)| == |logs|
            && (Key(tx.hash, 0) in KeysOf(logs) <==>
                  tx.succeeded && tx.logs != [] && LogQualifies(w, tx.logs[0]))
  {
    LogKeys(w, tx, |tx.logs|, block);
    KeyCount(ReceiptCandidates(w, tx, block));
    FirstLogKey(w, tx, block);
  }

  /** One candidate before others: one more key, unless they already have it. */
  lemma KeysBefore(c: Candidate, cs: seq<Candidate>)
    ensures KeysOf([c] + cs) == {c.key} + KeysOf(cs)
    ensures |KeysOf([c] + cs)| == |KeysOf(cs)| + if c.key in KeysOf(cs) then 0 else 1
  {
    KeysConcat([c], cs);
    KeysOne(c);
    if c.key in KeysOf(cs) { assert {c.key} + KeysOf(cs) == KeysOf(cs); }
  }

  lemma TxSplit(w: World, tx: Tx, block: nat)
    ensures TxCandidates(w, tx, block) ==
            if NativeQualifies(w, tx) then
              [Candidate(Key(tx.hash, 0), Record(w.owners[tx.to.value], NATIVE, tx.value, block))]
              + ReceiptCandidates(w, tx, block)
            else ReceiptCandidates(w, tx, block)
  {
  }

  /** A transaction's keys are its own, and one fewer than its candidates exactly when it
      collides. */
  lemma TxKeyCount(w: World, tx: Tx, block: nat)
    ensures forall k :: k in KeysOf(TxCandidates(w, tx, block)) ==> k.hash == tx.hash
    ensures |KeysOf(TxCandidates(w, tx, block))| ==
            |TxCandidates(w, tx, block)| - if Collides(w, tx) then 1 else 0
  {
    TxSplit(w, tx, block);
    ReceiptKeys(w, tx, block);
    if NativeQualifies(w, tx) {
      var c := Candidate(Key(tx.hash, 0), Record(w.owners[tx.to.value], NATIVE, tx.value, block));
      KeysBefore(c, ReceiptCandidates(w, tx, block));
    }
  }

  lemma FirstLogKey(w: World, tx: Tx, block: nat)
    ensures Key(tx.hash, 0) in KeysOf(LogCandidates(w, tx, |tx.logs|, block)) <==>
            tx.logs != [] && LogQualifies(w, tx.logs[0])
  {
    LogKeys(w, tx, |tx.logs|, block);
    var logs := LogCandidates(w, tx, |tx.logs|, block);
    if tx.logs != [] && LogQualifies(w, tx.logs[0]) {
      var i :| 0 <= i < |logs| && logs[i].key.logIndex == 0;
      assert logs[i].key == Key(tx.hash, 0);
    }
  }

  /** From any store without the transaction's hash, crediting a transaction records every
      deposit it makes, less one exactly when it collides. */
  lemma TxCredited(w: World, s: Store, tx: Tx, block: nat)
    requires forall k :: k in s.processed ==> k.hash != tx.hash
    ensures var cs := TxCandidates(w, tx, block);
            |Scan(w.chain, s, cs).processed| == |s.processed| + |cs| - if Collides(w, tx) then 1 else 0
  {
    TxWithin(w, tx, block);
    TxKeyCount(w, tx, block);
    Growth(w.chain, s, TxCandidates(w, tx, block));
  }

  /** Of a colliding transaction the first log is the one lost: its key holds the native
      deposit, whatever logs follow. */
  lemma FirstLogLost(w: World, s: Store, tx: Tx, block: nat)
    requires Collides(w, tx) && forall k :: k in s.processed ==> k.hash != tx.hash
    ensures var p := Scan(w.chain, s, TxCandidates(w, tx, block)).processed;
            && Key(tx.hash, 0) in p
            && p[Key(tx.hash, 0)] == Record(w.owners[tx.to.value], NATIVE, tx.value, block)
  {
    var c := Candidate(Key(tx.hash, 0), Record(w.owners[tx.to.value], NATIVE, tx.value, block));
    var logs := LogCandidates(w, tx, |tx.logs|, block);
    assert TxCandidates(w, tx, block) == [c] + logs;
    ScanConcat(w.chain, s, [c], logs);
    assert [] + [c] == [c];
    ScanOne(w.chain, s, [], c);
    LogsWithin(w, tx, |tx.logs|, block);
    ScanKeepsRecords(w.chain, Scan(w.chain, s, [c]), logs);
  }

  lemma {:induction false} ScanKeepsRecords(chain: int, s: Store, cs: seq<Candidate>)
    ensures forall k :: k in s.processed ==>
              k in Scan(chain, s, cs).processed && Scan(chain, s, cs).processed[k] == s.processed[k]
    decreases |cs|
  {
    if cs != [] { ScanKeepsRecords(chain, s, cs[..|cs| - 1]); }
  }

  /** What an unsuccessful transaction does, exactly: its native value is credited if it
      qualifies, although it never moved; nothing else is. */
  lemma FailedTxCredited(w: World, s: Store, tx: Tx, block: nat)
    requires !tx.succeeded && forall k :: k in s.processed ==> k.hash != tx.hash
    ensures var t := Scan(w.chain, s, TxCandidates(w, tx, block));
            if NativeQualifies(w, tx) then
              var r := Record(w.owners[tx.to.value], NATIVE, tx.value, block);
              && t.processed == s.processed[Key(tx.hash, 0) := r]
              && Credit(s.balances, Account(r.user, w.chain, NATIVE), tx.value) == Commit(t.balances)
            else t == s
  {
    if NativeQualifies(w, tx) {
      var c := Candidate(Key(tx.hash, 0), Record(w.owners[tx.to.value], NATIVE, tx.value, block));
      assert TxCandidates(w, tx, block) == [] + [c];
      ScanOne(w.chain, s, [], c);
    } else {
      assert TxCandidates(w, tx, block) == [];
    }
  }
}
