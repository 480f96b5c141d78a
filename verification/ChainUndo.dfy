/** Removing what was just added: exact undo of transactions and blocks, and when it fails. */
module ChainUndo {
  import opened Basics
  import opened ChainTables
  import opened ChainSteps

  // ----- Outputs -----

  /** Adding and removing put every output of the transaction under the same amount. */
  predicate Agrees(tx: TxBase) {
    StoredAsRct(tx) == IsPseudoRct(tx) || forall i :: 0 <= i < |tx.vout| ==> tx.vout[i].amount == 0
  }

  /**
    * Outputs are looked for under their own amounts, but under 0 if a generation input is the only one
    * of a version 2 transaction; the two sides disagree only if it is one of several.
    */
  lemma AgreesMeans(tx: TxBase)
    requires Serializes(tx)
    ensures forall i :: 0 <= i < |tx.vout| ==>
              RemovedAmount(tx, i) == if tx.version == 2 && |tx.vin| == 1 && tx.vin[0].Gen? then 0 else tx.vout[i].amount
    ensures Agrees(tx)
            <==> (tx.version == 2 && |tx.vin| > 1 && (exists k :: 0 <= k < |tx.vin| && tx.vin[k].Gen?)
                  ==> forall i :: 0 <= i < |tx.vout| ==> tx.vout[i].amount == 0)
  {
    if |tx.vin| == 1 && tx.vin[0].Gen? {
      assert HasGen(tx.vin);
    }
  }

  predicate NoEmptyLists(o: Outputs) {
    forall a :: a in o.outputAmounts ==> o.outputAmounts[a] != []
  }

  /** Removing the output just added restores the tables, whatever the index table holds. */
  lemma OutputUndone(o: Outputs, hash: Hash, amount: nat, key: Option<Key>, localIndex: nat, unlockTime: nat,
                     height: nat, commitment: Option<Key>, m: map<nat, seq<nat>>)
    requires NoEmptyLists(o)
    requires AddOutput(o, hash, amount, key, localIndex, unlockTime, height, commitment).Ok?
    ensures var o' := AddOutput(o, hash, amount, key, localIndex, unlockTime, height, commitment).value;
            RemoveOutput(o'.(txOutputs := m), amount, |OutputsAt(o, amount)|) == Ok(o.(txOutputs := m))
  {
    var o' := AddOutput(o, hash, amount, key, localIndex, unlockTime, height, commitment).value;
    var s := OutputsAt(o, amount);
    var s' := OutputsAt(o'.(txOutputs := m), amount);
    assert FindOutKey(s', |s|) == Some(|s|);
    assert FindOutTx(o'.outputTxs, s'[|s|].outputId) == Some(|o.outputTxs|);
    assert Without(s', |s|) == s;
    assert Without(o'.outputTxs, |o.outputTxs|) == o.outputTxs;
    if s == [] {
      assert o'.outputAmounts - {amount} == o.outputAmounts;
    } else {
      assert o'.outputAmounts[amount := s] == o.outputAmounts;
    }
  }

  /** One list entry per output; every amount that was there keeps its list as a prefix. */
  lemma {:induction false} OutputsAdded(c: Crypto, o: Outputs, tx: TxBase, hash: Hash, height: nat, n: nat)
    requires NoEmptyLists(o) && n <= |tx.vout| && AddOutputs(c, o, tx, hash, height, n).Ok?
    ensures var (o', indices) := AddOutputs(c, o, tx, hash, height, n).value;
            |indices| == n && NoEmptyLists(o') && o'.txOutputs == o.txOutputs
  {
    if n > 0 {
      OutputsAdded(c, o, tx, hash, height, n - 1);
    }
  }

  lemma AmountsAgree(tx: TxBase, i: nat)
    requires Agrees(tx) && i < |tx.vout|
    ensures StoredAmount(tx, i) == RemovedAmount(tx, i)
  {
  }

  lemma {:induction false} OutputsUndone(c: Crypto, o: Outputs, tx: TxBase, hash: Hash, height: nat, n: nat,
                                         indices: seq<nat>, m: map<nat, seq<nat>>)
    requires NoEmptyLists(o) && Agrees(tx)
    requires n <= |tx.vout| && n <= |indices| && AddOutputs(c, o, tx, hash, height, n).Ok?
    requires AddOutputs(c, o, tx, hash, height, n).value.1 == indices[..n]
    ensures RemoveOutputs(AddOutputs(c, o, tx, hash, height, n).value.0.(txOutputs := m), tx, indices, n)
            == Ok(o.(txOutputs := m))
  {
    hide AddOutput, RemoveOutput, StoredAmount, RemovedAmount, CommitmentOf, Agrees, NoEmptyLists, OutputsAt;
    if n > 0 {
      AmountsAgree(tx, n - 1);
      OutputsAdded(c, o, tx, hash, height, n - 1);
      var (o', before) := AddOutputs(c, o, tx, hash, height, n - 1).value;
      var amount := StoredAmount(tx, n - 1);
      assert before == indices[..n][..n - 1] == indices[..n - 1];
      assert indices[n - 1] == indices[..n][n - 1] == |OutputsAt(o', amount)|;
      OutputUndone(o', hash, amount, tx.vout[n - 1].key, n - 1, tx.unlockTime, height, CommitmentOf(c, tx, n - 1), m);
      OutputsUndone(c, o, tx, hash, height, n - 1, indices, m);
    }
  }

  lemma TxOutputsUndone(c: Crypto, o: Outputs, tx: TxBase, hash: Hash, id: nat, height: nat)
    requires NoEmptyLists(o) && Agrees(tx) && AddTxToOutputs(c, o, tx, hash, id, height).Ok?
    ensures RemoveTxOutputs(AddTxToOutputs(c, o, tx, hash, id, height).value, id, tx) == Ok(o)
  {
    OutputsAdded(c, o, tx, hash, height, |tx.vout|);
    var (o', indices) := AddOutputs(c, o, tx, hash, height, |tx.vout|).value;
    var m := o.txOutputs[id := indices];
    assert indices[..|tx.vout|] == indices;
    OutputsUndone(c, o, tx, hash, height, |tx.vout|, indices, m);
    assert m - {id} == o.txOutputs;
  }

  // ----- Counting outputs under amount 0 -----

  function ZeroCount(o: Outputs): nat {
    |OutputsAt(o, 0)|
  }

  function StoredZeros(tx: TxBase, n: nat): nat
    requires n <= |tx.vout|
  {
    if n == 0 then 0 else StoredZeros(tx, n - 1) + if StoredAmount(tx, n - 1) == 0 then 1 else 0
  }

  function RemovedZeros(tx: TxBase, n: nat): nat
    requires n <= |tx.vout|
  {
    if n == 0 then 0 else RemovedZeros(tx, n - 1) + if RemovedAmount(tx, n - 1) == 0 then 1 else 0
  }

  lemma {:induction false} OutputsCounted(c: Crypto, o: Outputs, tx: TxBase, hash: Hash, height: nat, n: nat)
    requires n <= |tx.vout| && AddOutputs(c, o, tx, hash, height, n).Ok?
    ensures ZeroCount(AddOutputs(c, o, tx, hash, height, n).value.0) == ZeroCount(o) + StoredZeros(tx, n)
  {
    if n > 0 {
      OutputsCounted(c, o, tx, hash, height, n - 1);
    }
  }

  lemma RemovalDiscounted(o: Outputs, amount: nat, index: nat)
    requires RemoveOutput(o, amount, index).Ok?
    ensures ZeroCount(RemoveOutput(o, amount, index).value) + (if amount == 0 then 1 else 0) == ZeroCount(o)
  {
  }

  lemma {:induction false} OutputsDiscounted(o: Outputs, tx: TxBase, indices: seq<nat>, n: nat)
    requires n <= |tx.vout| && RemoveOutputs(o, tx, indices, n).Ok?
    ensures ZeroCount(RemoveOutputs(o, tx, indices, n).value) + RemovedZeros(tx, n) == ZeroCount(o)
    decreases n
  {
    hide RemoveOutput, ZeroCount, RemovedAmount;
    if n > 0 {
      RemovalDiscounted(o, RemovedAmount(tx, n - 1), indices[n - 1]);
      var o' := RemoveOutput(o, RemovedAmount(tx, n - 1), indices[n - 1]).value;
      OutputsDiscounted(o', tx, indices, n - 1);
    }
  }

  /** Outputs counted one way are at most those counted the other way, strictly fewer on disagreement. */
  lemma {:induction false} ZerosDiffer(tx: TxBase, n: nat)
    requires n <= |tx.vout|
    ensures StoredAsRct(tx) ==> RemovedZeros(tx, n) <= StoredZeros(tx, n) == n
    ensures IsPseudoRct(tx) ==> StoredZeros(tx, n) <= RemovedZeros(tx, n) == n
    ensures StoredAsRct(tx) == IsPseudoRct(tx) ==> StoredZeros(tx, n) == RemovedZeros(tx, n)
    ensures StoredAsRct(tx) != IsPseudoRct(tx) ==>
              (StoredZeros(tx, n) == RemovedZeros(tx, n) <==> forall i :: 0 <= i < n ==> tx.vout[i].amount == 0)
  {
    if n > 0 {
      ZerosDiffer(tx, n - 1);
    }
  }

  // ----- One transaction -----

  function Images(vin: seq<TxIn>): set<KeyImage> {
    set i | 0 <= i < |vin| && vin[i].ToKey? :: vin[i].image
  }

  lemma {:induction false} InputsAdded(t: Ledger, vin: seq<TxIn>, n: nat)
    requires n <= |vin| && AddInputs(t, vin, n).Ok?
    ensures AddInputs(t, vin, n).value == t.(spentKeys := t.spentKeys + Images(vin[..n]))
    ensures t.spentKeys !! Images(vin[..n])
  {
    if n > 0 {
      InputsAdded(t, vin, n - 1);
      ImagesStep(vin, n);
    }
  }

  lemma ImagesStep(vin: seq<TxIn>, n: nat)
    requires 0 < n <= |vin|
    ensures Images(vin[..n]) == Images(vin[..n - 1]) + if vin[n - 1].ToKey? then {vin[n - 1].image} else {}
  {
    var s, s' := vin[..n - 1], vin[..n];
    assert forall i :: 0 <= i < |s| ==> s[i] == s'[i];
    assert s'[n - 1] == vin[n - 1];
    assert forall i :: 0 <= i < |s| && s[i].ToKey? ==> s'[i].image in Images(s');
  }

  lemma {:induction false} InputsRemoved(t: Ledger, vin: seq<TxIn>, n: nat)
    requires n <= |vin|
    ensures RemoveInputs(t, vin, n) == t.(spentKeys := t.spentKeys - Images(vin[..n]))
  {
    if n > 0 {
      InputsRemoved(t, vin, n - 1);
      ImagesStep(vin, n);
    }
  }

  /** The transaction that was added last, and so has the greatest number. */
  predicate IsLatest(t: Ledger, hash: Hash) {
    && hash in t.txIndices
    && t.txIndices[hash].txId in t.txsPruned
    && forall k :: k in t.txsPruned ==> k <= t.txIndices[hash].txId
  }

  lemma InsertRemoved<K, V>(m: map<K, V>, k: K, v: V)
    requires k !in m
    ensures m[k := v] - {k} == m
  {
  }

  /** Removing the data just added restores the tables; `keys` is what the spent keys are by then. */
  lemma DataUndone(c: Crypto, t: Ledger, tx: Transaction, hash: Hash, keys: set<KeyImage>)
    requires AddTransactionData(c, t, tx, hash).Ok?
    ensures RemoveTransactionData(AddTransactionData(c, t, tx, hash).value.(spentKeys := keys), hash, tx.base)
            == Ok(t.(spentKeys := keys))
  {
    var t' := AddTransactionData(c, t, tx, hash).value;
    var id := |t.txsPruned|;
    InsertRemoved(t.txIndices, hash, TxIndex(id, tx.base.unlockTime, |t.blocks|));
    InsertRemoved(t.txsPruned, id, tx.base);
    InsertRemoved(t.txsPrunable, id, tx.prunable);
    if tx.base.version > 1 {
      InsertRemoved(t.txsPrunableHash, id, c.prunableHash(tx));
    }
  }

  /** What adding a transaction does to the ledger, as far as a reader can tell. */
  lemma TxLedgerAdded(c: Crypto, t: Ledger, tx: Transaction, hash: Hash)
    requires AddTxToLedger(c, t, tx, hash).Ok?
    ensures var t' := AddTxToLedger(c, t, tx, hash).value;
            && GetPrunedTx(t', hash) == Some(tx.base) && GetPrunablePart(t', hash) == Some(tx.prunable)
            && IsLatest(t', hash) && t'.txIndices[hash].txId == |t.txsPruned|
            && t'.blocks == t.blocks && t'.blockInfo == t.blockInfo && t'.blockHeights == t.blockHeights
            && t'.spentKeys == t.spentKeys + Images(tx.base.vin) && t.spentKeys !! Images(tx.base.vin)
  {
    hide Images;
    var vin := tx.base.vin;
    assert vin[..|vin|] == vin;
    InputsAdded(t, vin, |vin|);
  }

  /** The ledger with the key images in `missing` taken out. */
  function Drop(t: Ledger, missing: set<KeyImage>): Ledger {
    t.(spentKeys := t.spentKeys - missing)
  }

  /** The ledger side of a transaction is always undone, even when some key images have gone missing. */
  lemma TxLedgerUndone(c: Crypto, t: Ledger, tx: Transaction, hash: Hash, missing: set<KeyImage>)
    requires AddTxToLedger(c, t, tx, hash).Ok?
    ensures RemoveTxFromLedger(Drop(AddTxToLedger(c, t, tx, hash).value, missing), hash) == Ok(Drop(t, missing))
  {
    hide Images, AddTransactionData, RemoveTransactionData, IsLatest, GetPrunablePart;
    var vin := tx.base.vin;
    assert vin[..|vin|] == vin;
    InputsAdded(t, vin, |vin|);
    TxLedgerAdded(c, t, tx, hash);
    var t' := AddTxToLedger(c, t, tx, hash).value;
    InputsRemoved(Drop(t', missing), vin, |vin|);
    assert t'.spentKeys - missing - Images(vin) == t.spentKeys - missing;
    DataUndone(c, AddInputs(t, vin, |vin|).value, tx, hash, t.spentKeys - missing);
  }

  /** Removing a transaction whose adding and removing agree restores every table. */
  lemma TransactionUndone(c: Crypto, t: Tables, tx: Transaction, hash: Hash, missing: set<KeyImage>)
    requires NoEmptyLists(t.outputs) && Agrees(tx.base) && AddTransaction(c, t, tx, hash).Ok?
    ensures var t' := AddTransaction(c, t, tx, hash).value;
            RemoveTransaction(Tables(Drop(t'.ledger, missing), t'.outputs), hash) == Ok(Tables(Drop(t.ledger, missing), t.outputs))
  {
    hide AddTxToLedger, AddTxToOutputs, RemoveTxFromLedger, RemoveTxOutputs, IsLatest, NoEmptyLists, Agrees, Images;
    TxLedgerAdded(c, t.ledger, tx, hash);
    TxLedgerUndone(c, t.ledger, tx, hash, missing);
    TxOutputsUndone(c, t.outputs, tx.base, hash, |t.ledger.txsPruned|, |t.ledger.blocks|);
  }

  /**
    * Removing a transaction right after adding it restores every table if and only if adding and
    * removing agree on where its outputs live.
    */
  lemma TransactionUndoneIff(c: Crypto, t: Tables, tx: Transaction, hash: Hash)
    requires NoEmptyLists(t.outputs) && AddTransaction(c, t, tx, hash).Ok?
    ensures RemoveTransaction(AddTransaction(c, t, tx, hash).value, hash) == Ok(t) <==> Agrees(tx.base)
  {
    hide AddTxToLedger, AddTxToOutputs, RemoveTxFromLedger, RemoveTxOutputs, IsLatest, NoEmptyLists, Images;
    var t' := AddTransaction(c, t, tx, hash).value;
    if Agrees(tx.base) {
      assert Drop(t'.ledger, {}) == t'.ledger && Drop(t.ledger, {}) == t.ledger;
      TransactionUndone(c, t, tx, hash, {});
    } else if RemoveTransaction(t', hash) == Ok(t) {
      TxLedgerAdded(c, t.ledger, tx, hash);
      TransactionCounted(c, t, tx, hash);
      TransactionDiscounted(t', hash);
      ZerosDiffer(tx.base, |tx.base.vout|);
      assert false;
    }
  }

  lemma TransactionCounted(c: Crypto, t: Tables, tx: Transaction, hash: Hash)
    requires AddTransaction(c, t, tx, hash).Ok?
    ensures ZeroCount(AddTransaction(c, t, tx, hash).value.outputs)
            == ZeroCount(t.outputs) + StoredZeros(tx.base, |tx.base.vout|)
  {
    OutputsCounted(c, t.outputs, tx.base, hash, |t.ledger.blocks|, |tx.base.vout|);
  }

  lemma TransactionDiscounted(t: Tables, hash: Hash)
    requires RemoveTransaction(t, hash).Ok?
    ensures GetPrunedTx(t.ledger, hash).Some?
    ensures var tx := GetPrunedTx(t.ledger, hash).value;
            ZeroCount(RemoveTransaction(t, hash).value.outputs) + RemovedZeros(tx, |tx.vout|) == ZeroCount(t.outputs)
  {
    var tx := GetPrunedTx(t.ledger, hash).value;
    var id := t.ledger.txIndices[hash].txId;
    OutputsDiscounted(t.outputs, tx, if id in t.outputs.txOutputs then t.outputs.txOutputs[id] else [], |tx.vout|);
  }
}
