/** Concrete blocks on which adding and popping part ways. */
module ChainCases {
  import opened Basics
  import opened ChainTables
  import opened ChainSteps
  import opened ChainUndo
  import opened ChainBlocks
  import opened ChainRemovals
  import opened ChainRuns
  import opened ChainPops

  /** A version 2 transaction with two generation inputs: its output is stored under 0 and looked for under 5. */
  function TwinGenerator(): Transaction {
    Transaction(TxBase(2, 60, [Gen(0), Gen(0)], [TxOut(5, Some(1))], true, []), 0)
  }

  /** An ordinary version 1 miner transaction: its output is stored and looked for under 5. */
  function PlainGenerator(): Transaction {
    Transaction(TxBase(1, 60, [Gen(0)], [TxOut(5, Some(2))], true, []), 0)
  }

  function MinerOnly(tx: Transaction, prevId: Hash): Entry {
    Entry(Block(16, prevId, tx, [], 0), BlockMeta(1, 1, 1, 5), [])
  }

  /** What storing a transaction's only output does. */
  lemma SingleOutputAdded(c: Crypto, o: Outputs, tx: TxBase, hash: Hash, id: nat, height: nat)
    requires |tx.vout| == 1 && Appendable(o.txOutputs, id)
    requires var r := AddOutput(o, hash, StoredAmount(tx, 0), tx.vout[0].key, 0, tx.unlockTime, height, CommitmentOf(c, tx, 0));
             r.Ok? && r.value.txOutputs == o.txOutputs
    ensures var r := AddOutput(o, hash, StoredAmount(tx, 0), tx.vout[0].key, 0, tx.unlockTime, height, CommitmentOf(c, tx, 0));
            AddTxToOutputs(c, o, tx, hash, id, height)
            == Ok(r.value.(txOutputs := o.txOutputs[id := [|OutputsAt(o, StoredAmount(tx, 0))|]]))
  {
    hide AddOutput, StoredAmount, CommitmentOf, OutputsAt;
    assert AddOutputs(c, o, tx, hash, height, 0) == Ok((o, []));
    assert [] + [|OutputsAt(o, StoredAmount(tx, 0))|] == [|OutputsAt(o, StoredAmount(tx, 0))|];
  }

  /** Generation inputs alone leave the ledger as it is. */
  lemma {:induction false} GenerationIsFree(l: Ledger, vin: seq<TxIn>, n: nat)
    requires n <= |vin| && forall i :: 0 <= i < |vin| ==> vin[i].Gen?
    ensures AddInputs(l, vin, n) == Ok(l)
  {
    if n > 0 {
      GenerationIsFree(l, vin, n - 1);
    }
  }

  // ----- A pop that fails -----

  lemma TwinAdded(c: Crypto, t: Tables, hash: Hash)
    requires hash !in t.ledger.txIndices && Appendable(t.ledger.txsPruned, |t.ledger.txsPruned|)
    requires Appendable(t.ledger.txsPrunable, |t.ledger.txsPruned|) && Appendable(t.outputs.txOutputs, |t.ledger.txsPruned|)
    requires t.ledger.txsPrunableHash == map[] && OutputsAt(t.outputs, 0) == []
    ensures AddTransaction(c, t, TwinGenerator(), hash).Ok?
    ensures var o' := AddTransaction(c, t, TwinGenerator(), hash).value.outputs;
            && |OutputsAt(o', 0)| == 1 && OutputsAt(o', 0)[0].amountIndex == 0
            && OutputsAt(o', 5) == OutputsAt(t.outputs, 5)
            && o'.txOutputs == t.outputs.txOutputs[|t.ledger.txsPruned| := [0]]
  {
    var tx := TwinGenerator();
    assert tx.base.vin[0].Gen?;
    GenerationIsFree(t.ledger, tx.base.vin, 2);
    SingleOutputAdded(c, t.outputs, tx.base, hash, |t.ledger.txsPruned|, |t.ledger.blocks|);
  }

  lemma TwinLookedForUnderFive(o: Outputs, id: nat)
    requires id in o.txOutputs && o.txOutputs[id] == [0]
    ensures Filed(o, id, TwinGenerator().base) && TxLookups(o, id, TwinGenerator().base) == [(5, 0)]
  {
    var tx := TwinGenerator().base;
    assert Lookups(tx, [0], 0) == [];
    assert Lookups(tx, [0], 1) == [(5, 0)];
  }

  /** A block with such a miner transaction can be added to the empty store and then cannot be popped. */
  lemma PopCanFail(c: Crypto)
    ensures var e := MinerOnly(TwinGenerator(), 0);
            AddBlock(c, EMPTY, e).Ok? && PopBlock(c, AddBlock(c, EMPTY, e).value) == Err(OutputMissing)
  {
    hide AddTxToLedger, AddTxToOutputs, RemoveTxFromLedger, IsLatest, Images;
    var tx, e := TwinGenerator(), MinerOnly(TwinGenerator(), 0);
    var hash := c.txHash(tx);
    TwinAdded(c, EMPTY, hash);
    MinerFirst(c, EMPTY, e);
    var t := AddTransaction(c, EMPTY, tx, hash).value;
    TxLedgerAdded(c, EMPTY.ledger, tx, hash);
    TxLedgerUndone(c, EMPTY.ledger, tx, hash, {});
    var t' := AddBlock(c, EMPTY, e).value;
    BlockDataUndone(t.ledger, e.blk, e.meta, NumRctOuts(e, 0), c.blockHash(e.blk), {});
    assert Drop(t'.ledger, {}) == t'.ledger && Drop(t.ledger, {}) == t.ledger;
    assert RemoveOutput(t.outputs, 5, 0) == Err(OutputMissing);
    assert RemoveOutputs(t.outputs, tx.base, [0], 1) == Err(OutputMissing);
    assert RemoveTransaction(t, hash) == Err(OutputMissing);
  }

  // ----- A pop that takes an earlier block's output -----

  lemma PlainAdded(c: Crypto)
    ensures var e := MinerOnly(PlainGenerator(), 0);
            && AddBlock(c, EMPTY, e).Ok?
            && var t := AddBlock(c, EMPTY, e).value;
            && t.ledger.txIndices.Keys == {c.txHash(PlainGenerator())} && t.ledger.txsPruned.Keys == {0}
            && t.ledger.txsPrunable.Keys == {0} && t.ledger.txsPrunableHash == map[] && t.outputs.txOutputs.Keys == {0}
            && t.ledger.blockHeights == map[c.blockHash(e.blk) := 0]
            && OutputsAt(t.outputs, 0) == [] && Held(t.outputs, (5, 0))
  {
    var tx, e := PlainGenerator(), MinerOnly(PlainGenerator(), 0);
    var hash := c.txHash(tx);
    GenerationIsFree(EMPTY.ledger, tx.base.vin, 1);
    SingleOutputAdded(c, EMPTY.outputs, tx.base, hash, 0, 0);
    MinerFirst(c, EMPTY, e);
    var t := AddTransaction(c, EMPTY, tx, hash).value;
    assert OutputsAt(t.outputs, 5)[0].amountIndex == 0;
  }

  /**
    * A pop can succeed and yet take away an output of an earlier block: after the plain block and
    * the twin one, popping restores the ledger, but the plain block's output has gone and the twin
    * block's output has stayed.
    */
  lemma PopCanTakeEarlierOutput(c: Crypto)
    requires c.txHash(PlainGenerator()) != c.txHash(TwinGenerator())
    requires var first := MinerOnly(PlainGenerator(), 0).blk;
             c.blockHash(first) != c.blockHash(MinerOnly(TwinGenerator(), c.blockHash(first)).blk)
    ensures var e0 := MinerOnly(PlainGenerator(), 0); var e1 := MinerOnly(TwinGenerator(), c.blockHash(e0.blk));
            && Replay(c, [e0]).Ok? && Replay(c, [e0, e1]).Ok?
            && var t0 := Replay(c, [e0]).value;
            && Held(t0.outputs, (5, 0)) && !Held(t0.outputs, (0, 0))
            && var popped := PopBlock(c, Replay(c, [e0, e1]).value);
            && popped.Ok? && popped.value.tables.ledger == t0.ledger
            && !Held(popped.value.tables.outputs, (5, 0)) && Held(popped.value.tables.outputs, (0, 0))
  {
    hide AddBlock, PopBlock, Linked, TxLookups, AddBlockToLedger, Drop;
    var e0 := MinerOnly(PlainGenerator(), 0);
    var e1 := MinerOnly(TwinGenerator(), c.blockHash(e0.blk));
    PlainAdded(c);
    assert Replay(c, []) == Ok(EMPTY) && [e0][..0] == [];
    var t0 := AddBlock(c, EMPTY, e0).value;
    assert Replay(c, [e0]) == Ok(t0);
    ReplayWellFormed(c, [e0]);
    ReplayedHeight(c, [e0]);
    TwinOnTop(c, t0, e1);
    assert [e0, e1][..1] == [e0];
    var t1 := AddBlock(c, t0, e1).value;
    assert Replay(c, [e0, e1]) == Ok(t1);
    ReplayWellFormed(c, [e0, e1]);
    EmptyIsLinked();
    AddTopFiled(c, EMPTY, [], e0);
    assert [] + [e0] == [e0] && [e0] + [e1] == [e0, e1];
    ReplayNumbers(c, [e0]);
    AddTopFiled(c, t0, [e0], e1);
    SameLedger(t0.ledger);
    SameLedger(t1.ledger);
    PopTopIff(c, [e0, e1], t1, {});
    TwinLookedForUnderFive(t1.outputs, 1);
    assert TopLookups(t1.outputs, [e0, e1]) == [(5, 0)] by {
      assert ButLast([e0, e1]) == [e0] && ButLast([e0]) == [];
      assert TxTotal([]) == 0 && TxTotal([e0]) == 1;
    }
  }

  lemma SameLedger(l: Ledger)
    ensures Drop(l, {}) == l
  {
  }

  lemma TwinOnTop(c: Crypto, t: Tables, e: Entry)
    requires |t.ledger.blocks| == 1 && |t.ledger.blockInfo| == 1 && c.txHash(TwinGenerator()) !in t.ledger.txIndices
    requires t.ledger.txsPruned.Keys == {0} && t.ledger.txsPrunable.Keys == {0} && t.outputs.txOutputs.Keys == {0}
    requires t.ledger.txsPrunableHash == map[] && OutputsAt(t.outputs, 0) == [] && Held(t.outputs, (5, 0))
    requires e == MinerOnly(TwinGenerator(), e.blk.prevId) && c.blockHash(e.blk) !in t.ledger.blockHeights
    requires e.blk.prevId in t.ledger.blockHeights && t.ledger.blockHeights[e.blk.prevId] == 0
    ensures AddBlock(c, t, e).Ok?
    ensures var o := AddBlock(c, t, e).value.outputs;
            1 in o.txOutputs && o.txOutputs[1] == [0] && Held(o, (5, 0)) && Held(o, (0, 0))
  {
    hide AddTransaction;
    assert |t.ledger.txsPruned.Keys| == 1;
    TwinAdded(c, t, c.txHash(TwinGenerator()));
    MinerFirst(c, t, e);
    TransactionKeeps(c, t, TwinGenerator(), c.txHash(TwinGenerator()));
  }
}
