/** Everything on the chain can be read back from the tables as it was handed in. */
module ChainReads {
  import opened Basics
  import opened ChainTables
  import opened ChainSteps
  import opened ChainUndo
  import opened ChainBlocks
  import opened ChainRuns

  // ----- Tables only grow when blocks are added -----

  predicate MapGrows<K, V(==)>(m: map<K, V>, m': map<K, V>) {
    forall k :: k in m ==> k in m' && m'[k] == m[k]
  }

  predicate ListsGrow(m: map<nat, seq<OutKey>>, m': map<nat, seq<OutKey>>) {
    forall a :: a in m ==> a in m' && m[a] <= m'[a]
  }

  predicate OutputsGrow(o: Outputs, o': Outputs) {
    o.outputTxs <= o'.outputTxs && ListsGrow(o.outputAmounts, o'.outputAmounts) && MapGrows(o.txOutputs, o'.txOutputs)
  }

  predicate LedgerGrows(l: Ledger, l': Ledger) {
    && l.blocks <= l'.blocks && l.blockInfo <= l'.blockInfo && MapGrows(l.blockHeights, l'.blockHeights)
    && MapGrows(l.txIndices, l'.txIndices) && MapGrows(l.txsPruned, l'.txsPruned)
    && MapGrows(l.txsPrunable, l'.txsPrunable) && MapGrows(l.txsPrunableHash, l'.txsPrunableHash)
  }

  predicate Grows(t: Tables, t': Tables) {
    LedgerGrows(t.ledger, t'.ledger) && OutputsGrow(t.outputs, t'.outputs)
  }

  lemma GrowsOn(t: Tables, t': Tables, t'': Tables)
    requires Grows(t, t') && Grows(t', t'')
    ensures Grows(t, t'')
  {
    LedgerGrowsOn(t.ledger, t'.ledger, t''.ledger);
    OutputsGrowOn(t.outputs, t'.outputs, t''.outputs);
  }

  lemma LedgerGrowsOn(l: Ledger, l': Ledger, l'': Ledger)
    requires LedgerGrows(l, l') && LedgerGrows(l', l'')
    ensures LedgerGrows(l, l'')
  {
  }

  lemma OutputsGrowOn(o: Outputs, o': Outputs, o'': Outputs)
    requires OutputsGrow(o, o') && OutputsGrow(o', o'')
    ensures OutputsGrow(o, o'')
  {
  }

  // ----- What it means to be on record -----

  /** Global output numbers count up from zero. */
  predicate Dense(o: Outputs) {
    forall k :: 0 <= k < |o.outputTxs| ==> o.outputTxs[k].outputId == k
  }

  /**
    * Output `i` is found at `index` under its own amount, without a commitment if that is not zero and
    * with its own one if it is; but an output of a version 2 transaction that generates is found under
    * amount 0, with a commitment to its amount. Its global number leads back to it.
    */
  predicate OutputRecorded(c: Crypto, o: Outputs, tx: TxBase, hash: Hash, height: nat, i: nat, index: nat)
    requires i < |tx.vout|
  {
    var generates := exists k :: 0 <= k < |tx.vin| && tx.vin[k].Gen?;
    var amount := tx.vout[i].amount;
    var s := OutputsAt(o, if generates && tx.version == 2 then 0 else amount);
    && index < |s| && tx.vout[i].key == Some(s[index].key)
    && s[index].amountIndex == index && s[index].unlockTime == tx.unlockTime && s[index].height == height
    && (if generates && tx.version == 2 then s[index].commitment == Some(c.zeroCommit(amount))
        else if amount == 0 then tx.version > 1 && i < |tx.outPk| && s[index].commitment == Some(tx.outPk[i])
        else s[index].commitment == None)
    && s[index].outputId < |o.outputTxs| && o.outputTxs[s[index].outputId] == OutTx(s[index].outputId, hash, i)
  }

  predicate OutputsRecorded(c: Crypto, o: Outputs, tx: TxBase, hash: Hash, height: nat, indices: seq<nat>, n: nat)
    requires n <= |tx.vout|
  {
    |indices| == n && forall i :: 0 <= i < n ==> OutputRecorded(c, o, tx, hash, height, i, indices[i])
  }

  predicate TxRecorded(c: Crypto, t: Tables, tx: Transaction, hash: Hash, height: nat) {
    && hash in t.ledger.txIndices
    && var id := t.ledger.txIndices[hash].txId;
    && t.ledger.txIndices[hash] == TxIndex(id, tx.base.unlockTime, height)
    && GetPrunedTx(t.ledger, hash) == Some(tx.base) && GetPrunablePart(t.ledger, hash) == Some(tx.prunable)
    && (tx.base.version > 1 ==> id in t.ledger.txsPrunableHash && t.ledger.txsPrunableHash[id] == c.prunableHash(tx))
    && id in t.outputs.txOutputs
    && OutputsRecorded(c, t.outputs, tx.base, hash, height, t.outputs.txOutputs[id], |tx.base.vout|)
  }

  predicate BlockRecorded(c: Crypto, t: Tables, e: Entry, height: nat)
    requires SizesMatch(e)
  {
    && height < |t.ledger.blocks| && t.ledger.blocks[height] == e.blk
    && height < |t.ledger.blockInfo| && t.ledger.blockInfo[height].hash == c.blockHash(e.blk)
    && t.ledger.blockInfo[height].meta == e.meta
    && c.blockHash(e.blk) in t.ledger.blockHeights && t.ledger.blockHeights[c.blockHash(e.blk)] == height
    && forall j :: 0 <= j <= |e.txs| ==> TxRecorded(c, t, TxAt(e, j), HashAt(c, e.blk, j), height)
  }

  // ----- Records stay -----

  lemma OutputRecordStays(c: Crypto, o: Outputs, o': Outputs, tx: TxBase, hash: Hash, height: nat, i: nat, index: nat)
    requires i < |tx.vout| && OutputRecorded(c, o, tx, hash, height, i, index) && OutputsGrow(o, o')
    ensures OutputRecorded(c, o', tx, hash, height, i, index)
  {
    var generates := exists k :: 0 <= k < |tx.vin| && tx.vin[k].Gen?;
    var amount := if generates && tx.version == 2 then 0 else tx.vout[i].amount;
    assert OutputsAt(o, amount) <= OutputsAt(o', amount);
  }

  lemma OutputRecordsStay(c: Crypto, o: Outputs, o': Outputs, tx: TxBase, hash: Hash, height: nat, indices: seq<nat>, n: nat)
    requires n <= |tx.vout| && OutputsRecorded(c, o, tx, hash, height, indices, n) && OutputsGrow(o, o')
    ensures OutputsRecorded(c, o', tx, hash, height, indices, n)
  {
    hide OutputsGrow, OutputRecorded;
    forall i | 0 <= i < n ensures OutputRecorded(c, o', tx, hash, height, i, indices[i]) {
      OutputRecordStays(c, o, o', tx, hash, height, i, indices[i]);
    }
  }

  lemma TxRecordStays(c: Crypto, t: Tables, t': Tables, tx: Transaction, hash: Hash, height: nat)
    requires TxRecorded(c, t, tx, hash, height) && Grows(t, t')
    ensures TxRecorded(c, t', tx, hash, height)
  {
    hide OutputsRecorded;
    var id := t.ledger.txIndices[hash].txId;
    OutputRecordsStay(c, t.outputs, t'.outputs, tx.base, hash, height, t.outputs.txOutputs[id], |tx.base.vout|);
  }

  lemma BlockRecordStays(c: Crypto, t: Tables, t': Tables, e: Entry, height: nat)
    requires SizesMatch(e) && BlockRecorded(c, t, e, height) && Grows(t, t')
    ensures BlockRecorded(c, t', e, height)
  {
    hide TxRecorded, OutputsGrow;
    forall j | 0 <= j <= |e.txs| ensures TxRecorded(c, t', TxAt(e, j), HashAt(c, e.blk, j), height) {
      TxRecordStays(c, t, t', TxAt(e, j), HashAt(c, e.blk, j), height);
    }
  }

  // ----- Adding puts on record -----

  lemma OutputPutOnRecord(c: Crypto, o: Outputs, tx: TxBase, hash: Hash, height: nat, i: nat)
    requires Dense(o) && i < |tx.vout|
    requires AddOutput(o, hash, StoredAmount(tx, i), tx.vout[i].key, i, tx.unlockTime, height, CommitmentOf(c, tx, i)).Ok?
    ensures var o' := AddOutput(o, hash, StoredAmount(tx, i), tx.vout[i].key, i, tx.unlockTime, height,
                                CommitmentOf(c, tx, i)).value;
            && OutputsGrow(o, o') && Dense(o') && o'.txOutputs == o.txOutputs
            && OutputRecorded(c, o', tx, hash, height, i, |OutputsAt(o, StoredAmount(tx, i))|)
  {
    var o' := AddOutput(o, hash, StoredAmount(tx, i), tx.vout[i].key, i, tx.unlockTime, height, CommitmentOf(c, tx, i)).value;
    assert NextOutputId(o) == |o.outputTxs|;
    assert o.outputTxs <= o'.outputTxs;
  }

  lemma {:induction false} OutputsPutOnRecord(c: Crypto, o: Outputs, tx: TxBase, hash: Hash, height: nat, n: nat)
    requires Dense(o) && n <= |tx.vout| && AddOutputs(c, o, tx, hash, height, n).Ok?
    ensures var (o', indices) := AddOutputs(c, o, tx, hash, height, n).value;
            && OutputsGrow(o, o') && Dense(o') && o'.txOutputs == o.txOutputs
            && OutputsRecorded(c, o', tx, hash, height, indices, n)
  {
    hide AddOutput, OutputsGrow, Dense, OutputRecorded, CommitmentOf, StoredAmount, OutputsAt;
    if n > 0 {
      OutputsPutOnRecord(c, o, tx, hash, height, n - 1);
      var (o1, indices) := AddOutputs(c, o, tx, hash, height, n - 1).value;
      OutputPutOnRecord(c, o1, tx, hash, height, n - 1);
      var (o2, indices') := AddOutputs(c, o, tx, hash, height, n).value;
      OutputsGrowOn(o, o1, o2);
      OutputRecordsStay(c, o1, o2, tx, hash, height, indices, n - 1);
      forall i | 0 <= i < n ensures OutputRecorded(c, o2, tx, hash, height, i, indices'[i]) {
        if i < n - 1 {
          assert indices'[i] == indices[i];
        }
      }
    } else {
      OutputsGrowSelf(o);
    }
  }

  lemma OutputsGrowSelf(o: Outputs)
    ensures OutputsGrow(o, o)
  {
  }

  lemma LedgerPutsOnRecord(c: Crypto, l: Ledger, tx: Transaction, hash: Hash)
    requires AddTxToLedger(c, l, tx, hash).Ok?
    ensures var l' := AddTxToLedger(c, l, tx, hash).value; var id := |l.txsPruned|;
            && LedgerGrows(l, l')
            && hash in l'.txIndices && l'.txIndices[hash] == TxIndex(id, tx.base.unlockTime, |l.blocks|)
            && GetPrunedTx(l', hash) == Some(tx.base) && GetPrunablePart(l', hash) == Some(tx.prunable)
            && (tx.base.version > 1 ==> id in l'.txsPrunableHash && l'.txsPrunableHash[id] == c.prunableHash(tx))
  {
    hide Images;
    var vin := tx.base.vin;
    InputsAdded(l, vin, |vin|);
  }

  lemma IndicesPutOnRecord(c: Crypto, o: Outputs, tx: TxBase, hash: Hash, id: nat, height: nat)
    requires Dense(o) && AddTxToOutputs(c, o, tx, hash, id, height).Ok?
    ensures var o' := AddTxToOutputs(c, o, tx, hash, id, height).value;
            && OutputsGrow(o, o') && Dense(o') && id in o'.txOutputs
            && OutputsRecorded(c, o', tx, hash, height, o'.txOutputs[id], |tx.vout|)
  {
    hide AddOutputs, OutputRecorded;
    OutputsPutOnRecord(c, o, tx, hash, height, |tx.vout|);
    var (o1, indices) := AddOutputs(c, o, tx, hash, height, |tx.vout|).value;
    var o' := AddTxToOutputs(c, o, tx, hash, id, height).value;
    assert OutputsGrow(o1, o');
    OutputRecordsStay(c, o1, o', tx, hash, height, indices, |tx.vout|);
  }

  lemma TxPutOnRecord(c: Crypto, t: Tables, tx: Transaction, hash: Hash)
    requires Dense(t.outputs) && AddTransaction(c, t, tx, hash).Ok?
    ensures var t' := AddTransaction(c, t, tx, hash).value;
            Grows(t, t') && Dense(t'.outputs) && TxRecorded(c, t', tx, hash, |t.ledger.blocks|)
  {
    hide AddTxToLedger, AddTxToOutputs, LedgerGrows, OutputsGrow, Dense, OutputsRecorded, GetPrunedTx, GetPrunablePart;
    LedgerPutsOnRecord(c, t.ledger, tx, hash);
    IndicesPutOnRecord(c, t.outputs, tx.base, hash, |t.ledger.txsPruned|, |t.ledger.blocks|);
  }

  lemma {:induction false} TxsPutOnRecord(c: Crypto, t: Tables, e: Entry, n: nat)
    requires Dense(t.outputs) && SizesMatch(e) && n <= |e.txs| && AddTxs(c, t, e, n).Ok?
    ensures var t' := AddTxs(c, t, e, n).value;
            && Grows(t, t') && Dense(t'.outputs)
            && forall j :: 0 <= j <= n ==> TxRecorded(c, t', TxAt(e, j), HashAt(c, e.blk, j), |t.ledger.blocks|)
  {
    hide AddTransaction, Grows, Dense, TxRecorded, NoEmptyLists;
    if n == 0 {
      TxPutOnRecord(c, t, TxAt(e, 0), HashAt(c, e.blk, 0));
    } else {
      TxsPutOnRecord(c, t, e, n - 1);
      var t1, t2 := AddTxs(c, t, e, n - 1).value, AddTxs(c, t, e, n).value;
      TxsKeep(c, t, e, n - 1);
      TxPutOnRecord(c, t1, TxAt(e, n), HashAt(c, e.blk, n));
      GrowsOn(t, t1, t2);
      forall j | 0 <= j <= n ensures TxRecorded(c, t2, TxAt(e, j), HashAt(c, e.blk, j), |t.ledger.blocks|) {
        if j < n {
          TxRecordStays(c, t1, t2, TxAt(e, j), HashAt(c, e.blk, j), |t.ledger.blocks|);
        }
      }
    }
  }

  lemma BlockPutOnRecord(c: Crypto, t: Tables, e: Entry)
    requires WellFormed(t) && Dense(t.outputs) && AddBlock(c, t, e).Ok?
    ensures var t' := AddBlock(c, t, e).value;
            Grows(t, t') && Dense(t'.outputs) && BlockRecorded(c, t', e, |t.ledger.blocks|)
  {
    hide AddTxs, Dense, TxRecorded, NoEmptyLists, NumRctOuts, OutputsGrow;
    TxsKeep(c, t, e, |e.txs|);
    TxsPutOnRecord(c, t, e, |e.txs|);
    var t1, t2 := AddTxs(c, t, e, |e.txs|).value, AddBlock(c, t, e).value;
    OutputsGrowSelf(t1.outputs);
    assert LedgerGrows(t1.ledger, t2.ledger);
    LedgerGrowsOn(t.ledger, t1.ledger, t2.ledger);
    forall j | 0 <= j <= |e.txs| ensures TxRecorded(c, t2, TxAt(e, j), HashAt(c, e.blk, j), |t.ledger.blocks|) {
      TxRecordStays(c, t1, t2, TxAt(e, j), HashAt(c, e.blk, j), |t.ledger.blocks|);
    }
  }

  /** Every block of the chain, with all its transactions and outputs, is on record at its height. */
  lemma {:induction false} ChainIsOnRecord(c: Crypto, chain: seq<Entry>, height: nat)
    requires Replay(c, chain).Ok? && height < |chain|
    ensures SizesMatch(chain[height]) && BlockRecorded(c, Replay(c, chain).value, chain[height], height)
  {
    hide AddBlock, Grows, Dense, BlockRecorded, WellFormed, ReplayLedger, SizesMatch;
    var before, e := chain[..|chain| - 1], chain[|chain| - 1];
    ReplayWellFormed(c, before);
    ReplayedHeight(c, before);
    ReplayIsDense(c, before);
    var t, t' := Replay(c, before).value, Replay(c, chain).value;
    BlockPutOnRecord(c, t, e);
    AddedSizesMatch(c, t, e);
    if height < |before| {
      ChainIsOnRecord(c, before, height);
      BlockRecordStays(c, t, t', chain[height], height);
    }
  }

  lemma AddedSizesMatch(c: Crypto, t: Tables, e: Entry)
    requires AddBlock(c, t, e).Ok?
    ensures SizesMatch(e)
  {
  }

  lemma {:induction false} ReplayIsDense(c: Crypto, chain: seq<Entry>)
    requires Replay(c, chain).Ok?
    ensures Dense(Replay(c, chain).value.outputs)
  {
    hide AddBlock, Grows, BlockRecorded, WellFormed;
    if chain != [] {
      ReplayIsDense(c, chain[..|chain| - 1]);
      ReplayWellFormed(c, chain[..|chain| - 1]);
      BlockPutOnRecord(c, Replay(c, chain[..|chain| - 1]).value, chain[|chain| - 1]);
    }
  }

  /** After any run of agreeing blocks, whatever is on the chain is on record. */
  lemma RunIsOnRecord(c: Crypto, ops: seq<Op>, height: nat)
    requires OpsAgree(ops) && height < |Run(c, ops).chain|
    ensures SizesMatch(Run(c, ops).chain[height])
    ensures BlockRecorded(c, Run(c, ops).tables, Run(c, ops).chain[height], height)
  {
    hide Run, BlockRecorded, Replay;
    RunIsReplay(c, ops);
    ChainIsOnRecord(c, Run(c, ops).chain, height);
  }
}
