/** The watcher's loops in place: blocks, transactions and logs in order, each credit its
    own transaction, the cursor written after each block. */
module DepositWatcher {
  import opened Outcomes
  import opened Ledgers
  import opened Deposits

  class Watcher {
    const ledger: Ledger
    var cursor: Option<nat>
    var processed: map<Key, Record>

    constructor (ledger: Ledger)
      ensures this.ledger == ledger
      ensures cursor == None && Rows() == Store(map[], ledger.available)
    {
      this.ledger := ledger;
      this.cursor := None;
      this.processed := map[];
    }

    function Rows(): Store
      reads this, ledger
    {
      Store(processed, ledger.available)
    }

    /** The insert and the credit commit together. */
    method CreditDeposit(w: World, c: Candidate) returns (r: Outcome<LedgerError>)
      modifies this`processed, ledger
      ensures Follows(Deposits.CreditDeposit(w.chain, old(Rows()), c), old(Rows()), r, Rows())
    {
      if c.key in processed {
        return Pass;
      }
      var saved := processed;
      processed := processed[c.key := c.record];
      r := ledger.CreditWithin(Account(c.record.user, w.chain, c.record.token), c.record.amount);
      if r.Fail? {
        processed := saved;
      }
    }

    method ScanReceiptLogs(w: World, tx: Tx, block: nat)
      modifies this`processed, ledger
      ensures Rows() == Scan(w.chain, old(Rows()), ReceiptCandidates(w, tx, block))
    {
      if !tx.succeeded {
        return;
      }
      for i := 0 to |tx.logs|
        invariant Rows() == Scan(w.chain, old(Rows()), LogCandidates(w, tx, i, block))
      {
        var l := tx.logs[i];
        ghost var before := LogCandidates(w, tx, i, block);
        assert before + [] == before;
        if l.topics != 3 || !l.isTransfer {
          continue;
        }
        if l.dataLength != 32 {
          continue;
        }
        if l.to !in w.owners {
          continue;
        }
        if l.amount <= 0 {
          continue;
        }
        var c := Candidate(Key(tx.hash, i), Record(w.owners[l.to], l.token, l.amount, block));
        var credited := CreditDeposit(w, c);
        ScanOne(w.chain, old(Rows()), before, c);
      }
    }

    /** One transaction: its native transfer, then its logs. */
    method ScanTx(w: World, tx: Tx, block: nat)
      modifies this`processed, ledger
      ensures Rows() == Scan(w.chain, old(Rows()), TxCandidates(w, tx, block))
    {
      if tx.to.Some? && tx.to.value in w.owners && 0 < tx.value {
        var c := Candidate(Key(tx.hash, 0), Record(w.owners[tx.to.value], NATIVE, tx.value, block));
        var credited := CreditDeposit(w, c);
        ScanOne(w.chain, old(Rows()), [], c);
      }
      ghost var native := NativeCandidate(w, tx, block);
      ScanReceiptLogs(w, tx, block);
      ScanConcat(w.chain, old(Rows()), native, ReceiptCandidates(w, tx, block));
    }

    method ScanBlock(w: World, block: nat)
      requires block < |w.blocks|
      modifies this`processed, ledger
      ensures Rows() == Scan(w.chain, old(Rows()), BlockCandidates(w, block))
    {
      var txs := w.blocks[block];
      for i := 0 to |txs|
        invariant Rows() == Scan(w.chain, old(Rows()), TxsCandidates(w, txs, i, block))
      {
        ScanTx(w, txs[i], block);
        ScanConcat(w.chain, old(Rows()), TxsCandidates(w, txs, i, block), TxCandidates(w, txs[i], block));
      }
    }

    method EnsureCursor(head: nat) returns (last: nat)
      modifies this`cursor
      ensures cursor == Some(last)
      ensures last == if old(cursor).Some? then old(cursor).value else head
    {
      if cursor.None? {
        cursor := Some(head);
      }
      last := cursor.value;
    }

    method ScanTo(w: World, from: nat, safe: nat)
      requires from <= safe < |w.blocks| && cursor == Some(from)
      modifies this, ledger
      ensures cursor == Some(safe)
      ensures Rows() == Scan(w.chain, old(Rows()), Through(FeedOf(w), from, safe))
    {
      ScanBlocks(w, FeedOf(w), from, safe);
    }

    /** One uninterrupted scan credits every candidate between the cursor and the safe
        head, each once, and leaves the cursor at the safe head. */
    method ScanChain(w: World, seeded: nat, head: nat)
      requires head < |w.blocks|
      modifies this, ledger
      ensures var from := if old(cursor).Some? then old(cursor).value else seeded;
              var safe := head - CONFIRMATIONS;
              if safe <= from then cursor == Some(from) && Rows() == old(Rows())
              else cursor == Some(safe) &&
                   Rows() == Scan(w.chain, old(Rows()), Through(FeedOf(w), from, safe))
    {
      var from := EnsureCursor(seeded);
      if head < CONFIRMATIONS {
        return;
      }
      var safe := head - CONFIRMATIONS;
      if safe <= from {
        return;
      }
      ScanTo(w, from, safe);
    }

    /** One round of the block loop: the block's candidates, then the cursor. */
    method ScanRound(w: World, ghost f: Feed, ghost origin: Store, from: nat, block: nat)
      requires f.chain == w.chain && |f.blocks| == |w.blocks|
      requires from <= block && block + 1 < |w.blocks| && f.blocks[block + 1] == BlockCandidates(w, block + 1)
      requires Rows() == Scan(f.chain, origin, Through(f, from, block))
      modifies this, ledger
      ensures cursor == Some(block + 1)
      ensures Rows() == Scan(f.chain, origin, Through(f, from, block + 1))
    {
      ScanNext(f, origin, from, block);
      ScanBlock(w, block + 1);
      cursor := Some(block + 1);
    }

    method ScanBlocks(w: World, ghost f: Feed, from: nat, safe: nat)
      requires f.chain == w.chain && |f.blocks| == |w.blocks|
      requires forall b :: 0 <= b < |f.blocks| ==> f.blocks[b] == BlockCandidates(w, b)
      requires from <= safe < |w.blocks| && cursor == Some(from)
      modifies this, ledger
      ensures cursor == Some(safe)
      ensures Rows() == Scan(f.chain, old(Rows()), Through(f, from, safe))
    {
      var block := from;
      while block < safe
        invariant from <= block <= safe && cursor == Some(block)
        invariant Rows() == Scan(f.chain, old(Rows()), Through(f, from, block))
      {
        ScanRound(w, f, old(Rows()), from, block);
        block := block + 1;
      }
    }
  }

  lemma ScanNext(f: Feed, s: Store, from: nat, block: nat)
    requires from <= block && block + 1 < |f.blocks|
    ensures Scan(f.chain, s, Through(f, from, block + 1)) ==
            Scan(f.chain, Scan(f.chain, s, Through(f, from, block)), f.blocks[block + 1])
  {
    ScanConcat(f.chain, s, Through(f, from, block), f.blocks[block + 1]);
  }
}
