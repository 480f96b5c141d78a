/** Popping the block just added, over whole blocks. */
module ChainBlocks {
  import opened Basics
  import opened ChainTables
  import opened ChainSteps
  import opened ChainUndo

  predicate WellFormed(t: Tables) {
    |t.ledger.blockInfo| == |t.ledger.blocks| && NoEmptyLists(t.outputs)
  }

  predicate AllAgree(e: Entry) {
    forall n :: 0 <= n <= |e.txs| ==> Agrees(TxAt(e, n).base)
  }

  function Stored(tx: Transaction): StoredTx {
    StoredTx(tx.base, Some(tx.prunable))
  }

  function Reversed(txs: seq<Transaction>): seq<StoredTx> {
    if txs == [] then [] else [Stored(txs[|txs| - 1])] + Reversed(txs[..|txs| - 1])
  }

  lemma ReversedStep(popped: seq<StoredTx>, txs: seq<Transaction>, n: nat)
    requires 0 < n <= |txs|
    ensures popped + [Stored(txs[n - 1])] + Reversed(txs[..n - 1]) == popped + Reversed(txs[..n])
  {
    assert txs[..n][..n - 1] == txs[..n - 1];
  }

  lemma NoneReversed(popped: seq<StoredTx>, txs: seq<Transaction>)
    ensures popped + Reversed(txs[..0]) == popped
  {
  }

  lemma TransactionKeeps(c: Crypto, t: Tables, tx: Transaction, hash: Hash)
    requires AddTransaction(c, t, tx, hash).Ok?
    ensures var t' := AddTransaction(c, t, tx, hash).value;
            && t'.ledger.blocks == t.ledger.blocks && t'.ledger.blockInfo == t.ledger.blockInfo
            && t'.ledger.blockHeights == t.ledger.blockHeights
            && (NoEmptyLists(t.outputs) ==> NoEmptyLists(t'.outputs))
  {
    hide AddTxToLedger, AddOutputs, IsLatest, Images, GetPrunedTx, GetPrunablePart;
    TxLedgerAdded(c, t.ledger, tx, hash);
    if NoEmptyLists(t.outputs) {
      OutputsAdded(c, t.outputs, tx.base, hash, |t.ledger.blocks|, |tx.base.vout|);
    }
  }

  lemma {:induction false} TxsKeep(c: Crypto, t: Tables, e: Entry, n: nat)
    requires SizesMatch(e) && n <= |e.txs| && AddTxs(c, t, e, n).Ok?
    ensures var t' := AddTxs(c, t, e, n).value;
            && t'.ledger.blocks == t.ledger.blocks && t'.ledger.blockInfo == t.ledger.blockInfo
            && t'.ledger.blockHeights == t.ledger.blockHeights
            && (NoEmptyLists(t.outputs) ==> NoEmptyLists(t'.outputs))
  {
    hide AddTransaction, NoEmptyLists;
    if n == 0 {
      TransactionKeeps(c, t, TxAt(e, 0), HashAt(c, e.blk, 0));
    } else {
      TxsKeep(c, t, e, n - 1);
      TransactionKeeps(c, AddTxs(c, t, e, n - 1).value, TxAt(e, n), HashAt(c, e.blk, n));
    }
  }

  /** Adding a block keeps the tables well-formed and puts the block on top. */
  lemma BlockAdded(c: Crypto, t: Tables, e: Entry)
    requires WellFormed(t) && AddBlock(c, t, e).Ok?
    ensures WellFormed(AddBlock(c, t, e).value)
    ensures AddBlock(c, t, e).value.ledger.blocks == t.ledger.blocks + [e.blk]
  {
    hide AddTxs, NoEmptyLists;
    TxsKeep(c, t, e, |e.txs|);
  }

  /** Taking the block's own record away leaves the tables as its transactions left them. */
  lemma BlockDataUndone(t: Ledger, blk: Block, meta: BlockMeta, numRct: nat, hash: Hash, missing: set<KeyImage>)
    requires |t.blockInfo| == |t.blocks| && AddBlockData(t, blk, meta, numRct, hash).Ok?
    ensures RemoveBlock(Drop(AddBlockData(t, blk, meta, numRct, hash).value, missing)) == Ok(Drop(t, missing))
  {
    var t' := AddBlockData(t, blk, meta, numRct, hash).value;
    InsertRemoved(t.blockHeights, hash, |t.blocks|);
    assert t'.blocks[..|t.blocks|] == t.blocks;
    assert t'.blockInfo[..|t.blocks|] == t.blockInfo;
  }

  // ----- The transactions of a block, last to first -----

  /** The ledger side of adding the miner transaction and the first `n` others. */
  function AddTxsToLedger(c: Crypto, l: Ledger, e: Entry, n: nat): Result<Ledger>
    requires SizesMatch(e) && n <= |e.txs|
  {
    if n == 0 then AddTxToLedger(c, l, TxAt(e, 0), HashAt(c, e.blk, 0))
    else
      match AddTxsToLedger(c, l, e, n - 1)
      case Err(x) => Err(x)
      case Ok(l') => AddTxToLedger(c, l', TxAt(e, n), HashAt(c, e.blk, n))
  }

  /** The ledger side of adding a block. */
  function AddBlockToLedger(c: Crypto, l: Ledger, e: Entry): Result<Ledger> {
    if !SizesMatch(e) then Err(InconsistentSizes)
    else
      match AddTxsToLedger(c, l, e, |e.txs|)
      case Err(x) => Err(x)
      case Ok(l') => AddBlockData(l', e.blk, e.meta, NumRctOuts(e, |e.txs|), c.blockHash(e.blk))
  }

  lemma {:induction false} LedgerOfTxs(c: Crypto, t: Tables, e: Entry, n: nat)
    requires SizesMatch(e) && n <= |e.txs| && AddTxs(c, t, e, n).Ok?
    ensures AddTxsToLedger(c, t.ledger, e, n) == Ok(AddTxs(c, t, e, n).value.ledger)
  {
    hide AddTxToLedger, AddTxToOutputs;
    if n > 0 {
      LedgerOfTxs(c, t, e, n - 1);
    }
  }

  /** The outputs never influence the ledger. */
  lemma LedgerOfBlock(c: Crypto, t: Tables, e: Entry)
    requires AddBlock(c, t, e).Ok?
    ensures AddBlockToLedger(c, t.ledger, e) == Ok(AddBlock(c, t, e).value.ledger)
  {
    hide AddTxs, AddTxsToLedger, AddBlockData;
    LedgerOfTxs(c, t, e, |e.txs|);
  }

  lemma {:induction false} LedgerTxsKeep(c: Crypto, l: Ledger, e: Entry, n: nat)
    requires SizesMatch(e) && n <= |e.txs| && AddTxsToLedger(c, l, e, n).Ok?
    ensures var l' := AddTxsToLedger(c, l, e, n).value;
            l'.blocks == l.blocks && l'.blockInfo == l.blockInfo && l'.blockHeights == l.blockHeights
  {
    hide AddTxToLedger, IsLatest, Images, GetPrunedTx, GetPrunablePart;
    if n == 0 {
      TxLedgerAdded(c, l, TxAt(e, 0), HashAt(c, e.blk, 0));
    } else {
      LedgerTxsKeep(c, l, e, n - 1);
      TxLedgerAdded(c, AddTxsToLedger(c, l, e, n - 1).value, TxAt(e, n), HashAt(c, e.blk, n));
    }
  }

  /** Whenever it gets through, the ledger side comes out as it was before, and the transactions are the block's. */
  lemma {:induction false} TxsPopped(c: Crypto, l: Ledger, e: Entry, n: nat, now: Tables, missing: set<KeyImage>,
                                     popped: seq<StoredTx>)
    requires SizesMatch(e) && n <= |e.txs| && AddTxsToLedger(c, l, e, n).Ok?
    requires now.ledger == Drop(AddTxsToLedger(c, l, e, n).value, missing)
    requires PopTxs(now, e.blk.txHashes, n, popped).Ok?
    ensures AddTxsToLedger(c, l, e, 0).Ok?
    ensures var (t', txs) := PopTxs(now, e.blk.txHashes, n, popped).value;
            t'.ledger == Drop(AddTxsToLedger(c, l, e, 0).value, missing) && txs == popped + Reversed(e.txs[..n])
    decreases n
  {
    hide AddTxToLedger, RemoveTxFromLedger, RemoveTxOutputs, IsLatest, Images, Reversed;
    if n > 0 {
      var before := AddTxsToLedger(c, l, e, n - 1).value;
      var hash := HashAt(c, e.blk, n);
      TxLedgerAdded(c, before, e.txs[n - 1], hash);
      TxLedgerUndone(c, before, e.txs[n - 1], hash, missing);
      var tx := Stored(e.txs[n - 1]);
      TxsPopped(c, l, e, n - 1, RemoveTransaction(now, hash).value, missing, popped + [tx]);
      ReversedStep(popped, e.txs, n);
    } else {
      NoneReversed(popped, e.txs);
    }
  }

  /** With agreeing transactions, popping passes back through exactly the tables that adding passed through. */
  lemma {:induction false} TxsUndone(c: Crypto, t: Tables, e: Entry, n: nat, missing: set<KeyImage>, popped: seq<StoredTx>)
    requires SizesMatch(e) && n <= |e.txs| && AddTxs(c, t, e, n).Ok? && NoEmptyLists(t.outputs) && AllAgree(e)
    ensures AddTxs(c, t, e, 0).Ok?
    ensures var from, to := AddTxs(c, t, e, n).value, AddTxs(c, t, e, 0).value;
            PopTxs(Tables(Drop(from.ledger, missing), from.outputs), e.blk.txHashes, n, popped)
            == Ok((Tables(Drop(to.ledger, missing), to.outputs), popped + Reversed(e.txs[..n])))
  {
    hide AddTxToLedger, AddTxToOutputs, RemoveTransaction, IsLatest, Images, NoEmptyLists, Agrees, Reversed;
    if n > 0 {
      TxsKeep(c, t, e, n - 1);
      var before := AddTxs(c, t, e, n - 1).value;
      var hash := HashAt(c, e.blk, n);
      TxLedgerAdded(c, before.ledger, e.txs[n - 1], hash);
      assert Agrees(TxAt(e, n).base);
      TransactionUndone(c, before, e.txs[n - 1], hash, missing);
      var tx := Stored(e.txs[n - 1]);
      TxsUndone(c, t, e, n - 1, missing, popped + [tx]);
      ReversedStep(popped, e.txs, n);
    } else {
      NoneReversed(popped, e.txs);
    }
  }

  // ----- The whole block -----

  /** A pop that gets through takes exactly the block's own effect off the ledger. */
  lemma PopRestoresLedger(c: Crypto, l: Ledger, e: Entry, now: Tables, missing: set<KeyImage>)
    requires |l.blockInfo| == |l.blocks| && AddBlockToLedger(c, l, e).Ok?
    requires now.ledger == Drop(AddBlockToLedger(c, l, e).value, missing) && PopBlock(c, now).Ok?
    ensures var p := PopBlock(c, now).value;
            p.tables.ledger == Drop(l, missing) && p.blk == e.blk && p.txs == Reversed(e.txs)
  {
    hide AddTxToLedger, RemoveTxFromLedger, RemoveTxOutputs, RemoveBlock, AddTxsToLedger, PopTxs, IsLatest, Images,
      Reversed, NumRctOuts;
    var n := |e.txs|;
    LedgerTxsKeep(c, l, e, n);
    var added := AddTxsToLedger(c, l, e, n).value;
    BlockDataUndone(added, e.blk, e.meta, NumRctOuts(e, n), c.blockHash(e.blk), missing);
    TxsPopped(c, l, e, n, now.(ledger := Drop(added, missing)), missing, []);
    MinerFirstInLedger(c, l, e);
    TxLedgerUndone(c, l, e.blk.minerTx, HashAt(c, e.blk, 0), missing);
    assert e.txs[..n] == e.txs;
    assert [] + Reversed(e.txs) == Reversed(e.txs);
  }

  lemma MinerFirstInLedger(c: Crypto, l: Ledger, e: Entry)
    requires SizesMatch(e)
    ensures AddTxsToLedger(c, l, e, 0) == AddTxToLedger(c, l, e.blk.minerTx, c.txHash(e.blk.minerTx))
  {
  }

  lemma MinerFirst(c: Crypto, t: Tables, e: Entry)
    requires SizesMatch(e)
    ensures AddTxs(c, t, e, 0) == AddTransaction(c, t, e.blk.minerTx, c.txHash(e.blk.minerTx))
  {
  }

  /** Popping the block just added restores every table, even when some key images have gone missing meanwhile. */
  lemma PopUndoesAddDespite(c: Crypto, t: Tables, e: Entry, missing: set<KeyImage>)
    requires WellFormed(t) && AddBlock(c, t, e).Ok? && AllAgree(e)
    ensures var t' := AddBlock(c, t, e).value;
            PopBlock(c, Tables(Drop(t'.ledger, missing), t'.outputs))
            == Ok(Popped(Tables(Drop(t.ledger, missing), t.outputs), e.blk, Reversed(e.txs)))
  {
    hide AddTransaction, RemoveTransaction, RemoveBlock, AddTxs, PopTxs, Reversed, NumRctOuts, NoEmptyLists;
    var n := |e.txs|;
    TxsKeep(c, t, e, n);
    var added := AddTxs(c, t, e, n).value;
    BlockDataUndone(added.ledger, e.blk, e.meta, NumRctOuts(e, n), c.blockHash(e.blk), missing);
    TxsUndone(c, t, e, n, missing, []);
    MinerFirst(c, t, e);
    assert Agrees(TxAt(e, 0).base);
    TransactionUndone(c, t, e.blk.minerTx, HashAt(c, e.blk, 0), missing);
    assert e.txs[..n] == e.txs;
    assert [] + Reversed(e.txs) == Reversed(e.txs);
  }

  /** Popping the block just added restores every table and returns the block, its transactions reversed. */
  lemma PopUndoesAdd(c: Crypto, t: Tables, e: Entry)
    requires WellFormed(t) && AddBlock(c, t, e).Ok? && AllAgree(e)
    ensures PopBlock(c, AddBlock(c, t, e).value) == Ok(Popped(t, e.blk, Reversed(e.txs)))
  {
    hide AddBlock, PopBlock, WellFormed, AllAgree;
    PopUndoesAddDespite(c, t, e, {});
    var t' := AddBlock(c, t, e).value;
    assert Drop(t'.ledger, {}) == t'.ledger && Drop(t.ledger, {}) == t.ledger;
  }

  /** In any block, the transaction to be removed next is the one added last, and removing it goes back one step. */
  lemma RemovalIsLatest(c: Crypto, l: Ledger, e: Entry, n: nat)
    requires SizesMatch(e) && n <= |e.txs| && AddTxsToLedger(c, l, e, n).Ok?
    ensures IsLatest(AddTxsToLedger(c, l, e, n).value, HashAt(c, e.blk, n))
    ensures RemoveTxFromLedger(AddTxsToLedger(c, l, e, n).value, HashAt(c, e.blk, n))
            == if n == 0 then Ok(l) else AddTxsToLedger(c, l, e, n - 1)
  {
    hide AddTxToLedger, RemoveTxFromLedger, Images, IsLatest;
    var before := if n == 0 then l else AddTxsToLedger(c, l, e, n - 1).value;
    TxLedgerAdded(c, before, TxAt(e, n), HashAt(c, e.blk, n));
    TxLedgerUndone(c, before, TxAt(e, n), HashAt(c, e.blk, n), {});
    var after := AddTxsToLedger(c, l, e, n).value;
    assert Drop(after, {}) == after && Drop(before, {}) == before;
  }

  // ----- Exactly when a block is undone -----

  function StoredTotal(e: Entry, n: nat): nat
    requires n <= |e.txs|
  {
    var tx := TxAt(e, n).base;
    StoredZeros(tx, |tx.vout|) + if n == 0 then 0 else StoredTotal(e, n - 1)
  }

  function RemovedTotal(e: Entry, n: nat): nat
    requires n <= |e.txs|
  {
    var tx := TxAt(e, n).base;
    RemovedZeros(tx, |tx.vout|) + if n == 0 then 0 else RemovedTotal(e, n - 1)
  }

  lemma {:induction false} TxsCounted(c: Crypto, t: Tables, e: Entry, n: nat)
    requires SizesMatch(e) && n <= |e.txs| && AddTxs(c, t, e, n).Ok?
    ensures ZeroCount(AddTxs(c, t, e, n).value.outputs) == ZeroCount(t.outputs) + StoredTotal(e, n)
  {
    hide AddTransaction, ZeroCount, StoredZeros;
    if n == 0 {
      TransactionCounted(c, t, TxAt(e, 0), HashAt(c, e.blk, 0));
    } else {
      TxsCounted(c, t, e, n - 1);
      TransactionCounted(c, AddTxs(c, t, e, n - 1).value, TxAt(e, n), HashAt(c, e.blk, n));
    }
  }

  lemma {:induction false} TxsDiscounted(c: Crypto, t: Tables, e: Entry, n: nat, now: Tables, popped: seq<StoredTx>)
    requires SizesMatch(e) && n <= |e.txs| && AddTxs(c, t, e, n).Ok?
    requires now.ledger == AddTxs(c, t, e, n).value.ledger && PopTxs(now, e.blk.txHashes, n, popped).Ok?
    ensures ZeroCount(PopTxs(now, e.blk.txHashes, n, popped).value.0.outputs) + RemovedTotal(e, n)
            == ZeroCount(now.outputs) + RemovedTotal(e, 0)
    decreases n
  {
    hide AddTxToLedger, AddTxToOutputs, RemoveTxFromLedger, RemoveTxOutputs, IsLatest, Images, ZeroCount, RemovedZeros;
    if n > 0 {
      var before := AddTxs(c, t, e, n - 1).value;
      var hash := HashAt(c, e.blk, n);
      TxLedgerAdded(c, before.ledger, e.txs[n - 1], hash);
      TxLedgerUndone(c, before.ledger, e.txs[n - 1], hash, {});
      assert Drop(now.ledger, {}) == now.ledger && Drop(before.ledger, {}) == before.ledger;
      TransactionDiscounted(now, hash);
      TxsDiscounted(c, t, e, n - 1, RemoveTransaction(now, hash).value, popped + [Stored(e.txs[n - 1])]);
    }
  }

  /** Popping what was just added, if it gets through, changes the number of amount-0 outputs by the difference of the totals. */
  lemma PopCounted(c: Crypto, t: Tables, e: Entry)
    requires |t.ledger.blockInfo| == |t.ledger.blocks| && AddBlock(c, t, e).Ok? && PopBlock(c, AddBlock(c, t, e).value).Ok?
    ensures ZeroCount(PopBlock(c, AddBlock(c, t, e).value).value.tables.outputs) + RemovedTotal(e, |e.txs|)
            == ZeroCount(t.outputs) + StoredTotal(e, |e.txs|)
  {
    hide AddTxToLedger, AddTxToOutputs, RemoveTxFromLedger, RemoveTxOutputs, RemoveBlock, AddTxs, AddTxsToLedger, PopTxs,
      IsLatest, Images, Reversed, NumRctOuts, ZeroCount, RemovedZeros, StoredTotal;
    var n := |e.txs|;
    TxsKeep(c, t, e, n);
    var added := AddTxs(c, t, e, n).value;
    var t' := AddBlock(c, t, e).value;
    BlockDataUndone(added.ledger, e.blk, e.meta, NumRctOuts(e, n), c.blockHash(e.blk), {});
    assert Drop(t'.ledger, {}) == t'.ledger && Drop(added.ledger, {}) == added.ledger;
    TxsCounted(c, t, e, n);
    TxsDiscounted(c, t, e, n, added, []);
    LedgerOfTxs(c, t, e, n);
    TxsPopped(c, t.ledger, e, n, added, {}, []);
    MinerFirst(c, t, e);
    MinerFirstInLedger(c, t.ledger, e);
    var miner := AddTxsToLedger(c, t.ledger, e, 0).value;
    assert Drop(miner, {}) == miner;
    TxLedgerAdded(c, t.ledger, e.blk.minerTx, c.txHash(e.blk.minerTx));
    TransactionDiscounted(PopTxs(added, e.blk.txHashes, n, []).value.0, c.txHash(e.blk.minerTx));
  }

  lemma AcceptedSerializes(c: Crypto, l: Ledger, tx: Transaction, hash: Hash)
    requires AddTxToLedger(c, l, tx, hash).Ok?
    ensures Serializes(tx.base)
  {
  }

  lemma {:induction false} AcceptedSerialize(c: Crypto, l: Ledger, e: Entry, n: nat, j: nat)
    requires SizesMatch(e) && j <= n <= |e.txs| && AddTxsToLedger(c, l, e, n).Ok?
    ensures Serializes(TxAt(e, j).base)
    decreases n
  {
    hide AddTxToLedger, Serializes;
    if j < n {
      AcceptedSerialize(c, l, e, n - 1, j);
    } else {
      AcceptedSerializes(c, if n == 0 then l else AddTxsToLedger(c, l, e, n - 1).value, TxAt(e, n), HashAt(c, e.blk, n));
    }
  }

  /** Among transactions that can be written out, whatever is looked for under amount 0 was stored there. */
  lemma OneSided(tx: TxBase)
    requires Serializes(tx) && IsPseudoRct(tx)
    ensures StoredAsRct(tx)
  {
    assert tx.vin[0].Gen?;
  }

  lemma {:induction false} EqualTotalsAgree(e: Entry, n: nat)
    requires n <= |e.txs| && forall j :: 0 <= j <= n ==> Serializes(TxAt(e, j).base)
    ensures StoredTotal(e, n) >= RemovedTotal(e, n)
    ensures StoredTotal(e, n) == RemovedTotal(e, n) ==> forall j :: 0 <= j <= n ==> Agrees(TxAt(e, j).base)
  {
    hide StoredAsRct, IsPseudoRct, StoredZeros, RemovedZeros, Serializes;
    var tx := TxAt(e, n).base;
    ZerosDiffer(tx, |tx.vout|);
    if IsPseudoRct(tx) {
      OneSided(tx);
    }
    if n > 0 {
      EqualTotalsAgree(e, n - 1);
    }
  }

  /** The block just added is undone exactly if and only if its transactions agree on where their outputs live. */
  lemma PopUndoesAddIff(c: Crypto, t: Tables, e: Entry)
    requires WellFormed(t) && AddBlock(c, t, e).Ok?
    ensures PopBlock(c, AddBlock(c, t, e).value) == Ok(Popped(t, e.blk, Reversed(e.txs))) <==> AllAgree(e)
  {
    hide PopBlock, Agrees, StoredTotal, RemovedTotal, AddTxsToLedger, AddTxs, Serializes, NumRctOuts;
    if AllAgree(e) {
      PopUndoesAdd(c, t, e);
    } else if PopBlock(c, AddBlock(c, t, e).value) == Ok(Popped(t, e.blk, Reversed(e.txs))) {
      PopCounted(c, t, e);
      LedgerOfTxs(c, t, e, |e.txs|);
      forall j | 0 <= j <= |e.txs| ensures Serializes(TxAt(e, j).base) {
        AcceptedSerialize(c, t.ledger, e, |e.txs|, j);
      }
      EqualTotalsAgree(e, |e.txs|);
      assert false;
    }
  }
}
