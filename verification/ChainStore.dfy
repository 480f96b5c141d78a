/** The store itself: the operations that change its tables step by step. */
module ChainStore {
  import opened Basics
  import opened ChainTables
  import Steps = ChainSteps
  import Fix = ChainFixup

  // ----- A loop that fails early fails as a whole -----

  lemma {:induction false} InputErrorStays(t: Ledger, vin: seq<TxIn>, i: nat, n: nat)
    requires i <= n <= |vin| && Steps.AddInputs(t, vin, i).Err?
    ensures Steps.AddInputs(t, vin, n) == Steps.AddInputs(t, vin, i)
    decreases n
  {
    if i < n {
      InputErrorStays(t, vin, i, n - 1);
    }
  }

  lemma {:induction false} OutputErrorStays(c: Crypto, o: Outputs, tx: TxBase, hash: Hash, height: nat, i: nat, n: nat)
    requires i <= n <= |tx.vout| && Steps.AddOutputs(c, o, tx, hash, height, i).Err?
    ensures Steps.AddOutputs(c, o, tx, hash, height, n) == Steps.AddOutputs(c, o, tx, hash, height, i)
    decreases n
  {
    if i < n {
      OutputErrorStays(c, o, tx, hash, height, i, n - 1);
    }
  }

  lemma {:induction false} TxErrorStays(c: Crypto, t: Tables, e: Steps.Entry, i: nat, n: nat)
    requires Steps.SizesMatch(e) && i <= n <= |e.txs| && Steps.AddTxs(c, t, e, i).Err?
    ensures Steps.AddTxs(c, t, e, n) == Steps.AddTxs(c, t, e, i)
    decreases n
  {
    hide Steps.AddTransaction;
    if i < n {
      TxErrorStays(c, t, e, i, n - 1);
    }
  }

  class BlockchainStore {
    const crypto: Crypto
    var tables: Tables

    constructor (crypto: Crypto)
      ensures this.crypto == crypto && tables == EMPTY
    {
      this.crypto := crypto;
      tables := EMPTY;
    }

    /** Marks the inputs' key images as spent and says whether one of the inputs generates. */
    method SpendInputs(vin: seq<TxIn>) returns (r: Result<bool>)
      modifies this
      ensures tables.outputs == old(tables.outputs)
      ensures r.Ok? ==> Steps.AddInputs(old(tables.ledger), vin, |vin|) == Ok(tables.ledger) && r.value == Steps.HasGen(vin)
      ensures r.Err? ==> Steps.AddInputs(old(tables.ledger), vin, |vin|) == Err(r.error)
    {
      var minerTx := false;
      var i := 0;
      while i < |vin|
        invariant 0 <= i <= |vin|
        invariant tables.outputs == old(tables.outputs)
        invariant Steps.AddInputs(old(tables.ledger), vin, i) == Ok(tables.ledger)
        invariant minerTx <==> exists k :: 0 <= k < i && vin[k].Gen?
      {
        match vin[i] {
          case ToKey(image) =>
            var added := AddSpentKey(tables.ledger, image);
            if added.Err? {
              InputErrorStays(old(tables.ledger), vin, i + 1, |vin|);
              return Err(added.error);
            }
            tables := tables.(ledger := added.value);
          case Gen(_) =>
            minerTx := true;
          case OtherIn =>
            InputErrorStays(old(tables.ledger), vin, i + 1, |vin|);
            return Err(UnsupportedInput);
        }
        i := i + 1;
      }
      r := Ok(minerTx);
    }

    /** Stores the outputs one by one and returns their amount indices. */
    method StoreOutputs(tx: TxBase, minerTx: bool, hash: Hash) returns (r: Result<seq<nat>>)
      requires minerTx == Steps.HasGen(tx.vin)
      modifies this
      ensures tables.ledger == old(tables.ledger)
      ensures r.Ok? ==> Steps.AddOutputs(crypto, old(tables.outputs), tx, hash, |tables.ledger.blocks|, |tx.vout|)
                        == Ok((tables.outputs, r.value))
      ensures r.Err? ==> Steps.AddOutputs(crypto, old(tables.outputs), tx, hash, |tables.ledger.blocks|, |tx.vout|)
                         == Err(r.error)
    {
      hide AddOutput, OutputsAt;
      var indices: seq<nat> := [];
      var height := |tables.ledger.blocks|;
      var i := 0;
      while i < |tx.vout|
        invariant 0 <= i <= |tx.vout|
        invariant tables.ledger == old(tables.ledger)
        invariant Steps.AddOutputs(crypto, old(tables.outputs), tx, hash, height, i) == Ok((tables.outputs, indices))
      {
        var amount := tx.vout[i].amount;
        var commitment := if tx.version > 1 && i < |tx.outPk| then Some(tx.outPk[i]) else None;
        if minerTx && tx.version == 2 {
          commitment := Some(crypto.zeroCommit(amount));
          amount := 0;
        }
        var index := |OutputsAt(tables.outputs, amount)|;
        var added := AddOutput(tables.outputs, hash, amount, tx.vout[i].key, i, tx.unlockTime, height, commitment);
        assert amount == Steps.StoredAmount(tx, i) && commitment == Steps.CommitmentOf(crypto, tx, i);
        if added.Err? {
          OutputErrorStays(crypto, old(tables.outputs), tx, hash, height, i + 1, |tx.vout|);
          return Err(added.error);
        }
        tables := tables.(outputs := added.value);
        indices := indices + [index];
        i := i + 1;
      }
      r := Ok(indices);
    }

    /** Adds a transaction; the hash is computed when none is given. */
    method AddTransaction(tx: Transaction, given: Option<Hash>) returns (r: Result<()>)
      modifies this
      ensures var hash := if given.Some? then given.value else crypto.txHash(tx);
              && (r.Ok? ==> Steps.AddTransaction(crypto, old(tables), tx, hash) == Ok(tables))
              && (r.Err? ==> Steps.AddTransaction(crypto, old(tables), tx, hash) == Err(r.error))
    {
      hide Steps.AddInputs, Steps.AddOutputs, AddTransactionData;
      var hash := if given.Some? then given.value else crypto.txHash(tx);
      var id := |tables.ledger.txsPruned|;
      var inputs := SpendInputs(tx.base.vin);
      if inputs.Err? {
        return Err(inputs.error);
      }
      InputsKeepCounts(old(tables.ledger), tx.base.vin, |tx.base.vin|);
      var data := AddTransactionData(crypto, tables.ledger, tx, hash);
      if data.Err? {
        return Err(data.error);
      }
      DataKeepsHeight(crypto, tables.ledger, tx, hash);
      tables := tables.(ledger := data.value);
      var outputs := StoreOutputs(tx.base, inputs.value, hash);
      if outputs.Err? {
        return Err(outputs.error);
      }
      var indexed := AddTxAmountOutputIndices(tables.outputs, id, outputs.value);
      if indexed.Err? {
        return Err(indexed.error);
      }
      tables := tables.(outputs := indexed.value);
      r := Ok(());
    }

    /** Adds a block with its transactions and returns the height it got. */
    method AddBlock(blk: Block, meta: BlockMeta, txs: seq<Transaction>) returns (r: Result<nat>)
      modifies this
      ensures r.Ok? ==> Steps.AddBlock(crypto, old(tables), Steps.Entry(blk, meta, txs)) == Ok(tables)
                        && r.value == |old(tables.ledger.blocks)|
      ensures r.Err? ==> Steps.AddBlock(crypto, old(tables), Steps.Entry(blk, meta, txs)) == Err(r.error)
    {
      hide Steps.AddTransaction, AddBlockData;
      ghost var e := Steps.Entry(blk, meta, txs);
      if |blk.txHashes| != |txs| {
        return Err(InconsistentSizes);
      }
      var hash := crypto.blockHash(blk);
      var prevHeight := |tables.ledger.blocks|;
      var numRctOuts := 0;
      var added := AddTransaction(blk.minerTx, None);
      if added.Err? {
        TxErrorStays(crypto, old(tables), e, 0, |txs|);
        return Err(added.error);
      }
      if blk.minerTx.base.version == 2 {
        numRctOuts := numRctOuts + |blk.minerTx.base.vout|;
      }
      var i := 0;
      while i < |txs|
        invariant 0 <= i <= |txs|
        invariant Steps.AddTxs(crypto, old(tables), e, i) == Ok(tables)
        invariant numRctOuts == Steps.NumRctOuts(e, i)
      {
        added := AddTransaction(txs[i], Some(blk.txHashes[i]));
        if added.Err? {
          TxErrorStays(crypto, old(tables), e, i + 1, |txs|);
          return Err(added.error);
        }
        var zeros := CountZeroOutputs(txs[i].base.vout);
        numRctOuts := numRctOuts + zeros;
        i := i + 1;
      }
      var data := AddBlockData(tables.ledger, blk, meta, numRctOuts, hash);
      if data.Err? {
        return Err(data.error);
      }
      tables := tables.(ledger := data.value);
      r := Ok(prevHeight);
    }

    /** Removes a transaction, its key images, and its outputs. */
    method RemoveTransaction(hash: Hash) returns (r: Result<()>)
      modifies this
      ensures r.Ok? ==> Steps.RemoveTransaction(old(tables), hash) == Ok(tables)
      ensures r.Err? ==> Steps.RemoveTransaction(old(tables), hash) == Err(r.error)
    {
      hide RemoveOutputs;
      var found := GetPrunedTx(tables.ledger, hash);
      if found.None? {
        return Err(TxMissing);
      }
      var tx := found.value;
      var id := tables.ledger.txIndices[hash].txId;
      var i := 0;
      while i < |tx.vin|
        invariant 0 <= i <= |tx.vin|
        invariant tables.outputs == old(tables.outputs)
        invariant tables.ledger == Steps.RemoveInputs(old(tables.ledger), tx.vin, i)
      {
        if tx.vin[i].ToKey? {
          tables := tables.(ledger := RemoveSpentKey(tables.ledger, tx.vin[i].image));
        }
        i := i + 1;
      }
      var data := RemoveTransactionData(tables.ledger, hash, tx);
      if data.Err? {
        return Err(data.error);
      }
      tables := tables.(ledger := data.value);
      var outputs := RemoveTxOutputs(tables.outputs, id, tx);
      if outputs.Err? {
        return Err(outputs.error);
      }
      tables := tables.(outputs := outputs.value);
      r := Ok(());
    }

    /** Takes off the top block and returns it with its transactions, last first. */
    method PopBlock() returns (r: Result<(Block, seq<Steps.StoredTx>)>)
      modifies this
      ensures r.Ok? ==> Steps.PopBlock(crypto, old(tables)) == Ok(Steps.Popped(tables, r.value.0, r.value.1))
      ensures r.Err? ==> Steps.PopBlock(crypto, old(tables)) == Err(r.error)
    {
      hide Steps.RemoveTransaction;
      var removed := RemoveBlock(tables.ledger);
      if removed.Err? {
        return Err(removed.error);
      }
      var blk := tables.ledger.blocks[|tables.ledger.blocks| - 1];
      tables := tables.(ledger := removed.value);
      ghost var start := tables;
      var txs: seq<Steps.StoredTx> := [];
      var n := |blk.txHashes|;
      while n > 0
        invariant 0 <= n <= |blk.txHashes|
        invariant Steps.PopTxs(tables, blk.txHashes, n, txs) == Steps.PopTxs(start, blk.txHashes, |blk.txHashes|, [])
      {
        var hash := blk.txHashes[n - 1];
        var base := GetPrunedTx(tables.ledger, hash);
        if base.None? {
          return Err(DbFailure);
        }
        txs := txs + [Steps.StoredTx(base.value, GetPrunablePart(tables.ledger, hash))];
        var gone := RemoveTransaction(hash);
        if gone.Err? {
          return Err(gone.error);
        }
        n := n - 1;
      }
      var gone := RemoveTransaction(crypto.txHash(blk.minerTx));
      if gone.Err? {
        return Err(gone.error);
      }
      r := Ok((blk, txs));
    }

    /** Pops a mainnet store that lacks the first missing key image back to the last sound height. */
    method Fixup(readOnly: bool) returns (r: Result<()>)
      modifies this
      ensures r.Ok? ==> Fix.Fixup(crypto, old(tables), readOnly) == Ok(tables)
      ensures r.Err? ==> Fix.Fixup(crypto, old(tables), readOnly) == Err(r.error)
    {
      hide Steps.PopBlock;
      if readOnly {
        return Ok(());
      }
      if tables.ledger.blockInfo == [] {
        return Err(BlockMissing);
      }
      if tables.ledger.blockInfo[0].hash == Fix.MAINNET_GENESIS {
        if |tables.ledger.blocks| > Fix.LAST_SOUND_HEIGHT {
          if Fix.FIRST_MISSING_IMAGE !in tables.ledger.spentKeys {
            while |tables.ledger.blocks| > Fix.LAST_SOUND_HEIGHT
              invariant Fix.PopTo(crypto, tables, Fix.LAST_SOUND_HEIGHT)
                        == Fix.PopTo(crypto, old(tables), Fix.LAST_SOUND_HEIGHT)
              decreases |tables.ledger.blocks|
            {
              ghost var before := tables;
              var popped := PopBlock();
              if popped.Err? {
                return Err(popped.error);
              }
              Fix.PopShortens(crypto, before);
            }
          }
        }
      }
      r := Ok(());
    }
  }

  lemma {:induction false} InputsKeepCounts(t: Ledger, vin: seq<TxIn>, n: nat)
    requires n <= |vin| && Steps.AddInputs(t, vin, n).Ok?
    ensures var t' := Steps.AddInputs(t, vin, n).value; t'.txsPruned == t.txsPruned && t'.blocks == t.blocks
  {
    if n > 0 {
      InputsKeepCounts(t, vin, n - 1);
    }
  }

  lemma DataKeepsHeight(c: Crypto, t: Ledger, tx: Transaction, hash: Hash)
    requires AddTransactionData(c, t, tx, hash).Ok?
    ensures AddTransactionData(c, t, tx, hash).value.blocks == t.blocks
  {
  }

  method CountZeroOutputs(vout: seq<TxOut>) returns (zeros: nat)
    ensures zeros == Steps.ZeroOutputs(vout)
  {
    zeros := 0;
    var i := 0;
    while i < |vout|
      invariant 0 <= i <= |vout|
      invariant zeros == Steps.ZeroOutputs(vout[..i])
    {
      assert vout[..i + 1][..i] == vout[..i];
      if vout[i].amount == 0 {
        zeros := zeros + 1;
      }
      i := i + 1;
    }
    assert vout[..|vout|] == vout;
  }
}
