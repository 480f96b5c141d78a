/** The recorded number of amount-0 outputs of a block against the number actually stored. */
module ChainRct {
  import opened ChainTables
  import opened ChainSteps
  import opened ChainUndo
  import opened ChainBlocks

  lemma {:induction false} StoredZerosExactly(tx: TxBase, n: nat)
    requires n <= |tx.vout|
    ensures StoredZeros(tx, n) == if StoredAsRct(tx) then n else ZeroOutputs(tx.vout[..n])
  {
    if n > 0 {
      StoredZerosExactly(tx, n - 1);
      assert tx.vout[..n][..n - 1] == tx.vout[..n - 1];
    }
  }

  /** Outputs of the miner transaction that are stored under amount 0 but not recorded. */
  function MinerUnrecorded(tx: TxBase): nat {
    if tx.version == 2 then 0 else ZeroOutputs(tx.vout)
  }

  /** Outputs of the miner transaction that are recorded but not stored under amount 0. */
  function MinerOverRecorded(tx: TxBase): int {
    if tx.version == 2 && !HasGen(tx.vin) then |tx.vout| - ZeroOutputs(tx.vout) else 0
  }

  /** Outputs of the first `n` other transactions that are stored under amount 0 but not recorded. */
  function OthersUnrecorded(e: Entry, n: nat): int
    requires n <= |e.txs|
  {
    if n == 0 then 0
    else
      var tx := e.txs[n - 1].base;
      OthersUnrecorded(e, n - 1) + if StoredAsRct(tx) then |tx.vout| - ZeroOutputs(tx.vout) else 0
  }

  /** For any block at all, how far the record is off. */
  lemma {:induction false} RecordIsOffBy(e: Entry, n: nat)
    requires n <= |e.txs|
    ensures StoredTotal(e, n)
            == NumRctOuts(e, n) + MinerUnrecorded(e.blk.minerTx.base) - MinerOverRecorded(e.blk.minerTx.base)
               + OthersUnrecorded(e, n)
  {
    var tx := TxAt(e, n).base;
    StoredZerosExactly(tx, |tx.vout|);
    assert tx.vout[..|tx.vout|] == tx.vout;
    if n > 0 {
      RecordIsOffBy(e, n - 1);
    }
  }

  lemma {:induction false} NoUncommittedZeros(c: Crypto, o: Outputs, tx: TxBase, hash: Hash, height: nat, n: nat)
    requires n <= |tx.vout| && tx.version < 2 && AddOutputs(c, o, tx, hash, height, n).Ok?
    ensures ZeroOutputs(tx.vout[..n]) == 0
  {
    if n > 0 {
      NoUncommittedZeros(c, o, tx, hash, height, n - 1);
      assert tx.vout[..n][..n - 1] == tx.vout[..n - 1];
    }
  }

  /** The usual shape of a block: only the miner transaction has a generation input. */
  predicate OnlyMinerGenerates(e: Entry) {
    HasGen(e.blk.minerTx.base.vin) && forall i :: 0 <= i < |e.txs| ==> !HasGen(e.txs[i].base.vin)
  }

  lemma {:induction false} NothingUnrecorded(e: Entry, n: nat)
    requires OnlyMinerGenerates(e) && n <= |e.txs|
    ensures OthersUnrecorded(e, n) == 0
  {
    if n > 0 {
      NothingUnrecorded(e, n - 1);
    }
  }

  lemma {:induction false} AddedMiner(c: Crypto, t: Tables, e: Entry, n: nat)
    requires SizesMatch(e) && n <= |e.txs| && AddTxs(c, t, e, n).Ok?
    ensures AddTxs(c, t, e, 0).Ok?
  {
    hide AddTransaction;
    if n > 0 {
      AddedMiner(c, t, e, n - 1);
    }
  }

  /** The number of amount-0 outputs a block adds is the total over its transactions. */
  lemma BlockCounted(c: Crypto, t: Tables, e: Entry)
    requires AddBlock(c, t, e).Ok?
    ensures ZeroCount(AddBlock(c, t, e).value.outputs) == ZeroCount(t.outputs) + StoredTotal(e, |e.txs|)
  {
    hide AddTxs, StoredTotal, ZeroCount;
    TxsCounted(c, t, e, |e.txs|);
  }

  /** Exactly when the recorded number of an accepted block is the number of its outputs stored under amount 0. */
  lemma RecordIsExactIff(c: Crypto, t: Tables, e: Entry)
    requires AddBlock(c, t, e).Ok?
    ensures ZeroCount(AddBlock(c, t, e).value.outputs) == ZeroCount(t.outputs) + NumRctOuts(e, |e.txs|)
            <==> MinerOverRecorded(e.blk.minerTx.base) == OthersUnrecorded(e, |e.txs|)
  {
    hide AddTxs, AddTxsToLedger, StoredTotal, ZeroCount, ZeroOutputs, OthersUnrecorded, NumRctOuts;
    var n := |e.txs|;
    var tx := e.blk.minerTx.base;
    BlockCounted(c, t, e);
    RecordIsOffBy(e, n);
    LedgerOfTxs(c, t, e, n);
    AcceptedSerialize(c, t.ledger, e, n, 0);
    if tx.version < 2 {
      AddedMiner(c, t, e, n);
      MinerFirst(c, t, e);
      NoUncommittedZeros(c, t.outputs, tx, c.txHash(e.blk.minerTx), |t.ledger.blocks|, |tx.vout|);
      assert tx.vout[..|tx.vout|] == tx.vout;
    }
  }

  /** For every accepted block of the usual shape the recorded number is exact. */
  lemma RecordIsExact(c: Crypto, t: Tables, e: Entry)
    requires AddBlock(c, t, e).Ok? && OnlyMinerGenerates(e)
    ensures ZeroCount(AddBlock(c, t, e).value.outputs) == ZeroCount(t.outputs) + NumRctOuts(e, |e.txs|)
  {
    hide AddBlock, ZeroCount, NumRctOuts;
    RecordIsExactIff(c, t, e);
    NothingUnrecorded(e, |e.txs|);
  }
}
