/** The tables of the blockchain store and the storage primitives of the LMDB backend. */
module ChainTables {
  import opened Basics

  type Hash = nat
  type KeyImage = nat
  type Key = nat

  datatype DbError =
    | KeyImageExists | TxExists | TxMissing | OutputMissing | BlockExists | BlockParentMissing | BlockMissing
    | DbFailure | UnsupportedInput | InconsistentSizes

  type Result<+T> = Outcome<T, DbError>

  datatype TxIn = ToKey(image: KeyImage) | Gen(height: nat) | OtherIn

  /** `key` is missing for targets that hold no public key. */
  datatype TxOut = TxOut(amount: nat, key: Option<Key>)

  /** A transaction without its prunable part; `rctNull` says that its ring signature is of the null type. */
  datatype TxBase = TxBase(version: nat, unlockTime: nat, vin: seq<TxIn>, vout: seq<TxOut>, rctNull: bool, outPk: seq<Key>)

  datatype Transaction = Transaction(base: TxBase, prunable: nat)

  datatype Block = Block(majorVersion: nat, prevId: Hash, minerTx: Transaction, txHashes: seq<Hash>, nonce: nat)

  datatype BlockMeta = BlockMeta(weight: nat, longTermWeight: nat, difficulty: nat, coins: nat)

  datatype BlockInfo = BlockInfo(hash: Hash, meta: BlockMeta, cumRct: nat)

  datatype TxIndex = TxIndex(txId: nat, unlockTime: nat, blockId: nat)

  datatype OutTx = OutTx(outputId: nat, txHash: Hash, localIndex: nat)

  datatype OutKey = OutKey(amountIndex: nat, outputId: nat, key: Key, unlockTime: nat, height: nat, commitment: Option<Key>)

  /** Hashing and commitments, taken as given. */
  datatype Crypto = Crypto(
    txHash: Transaction -> Hash, prunableHash: Transaction -> Hash, blockHash: Block -> Hash, zeroCommit: nat -> Key)

  /** Blocks, transactions and spent key images. */
  datatype Ledger = Ledger(
    blocks: seq<Block>,
    blockInfo: seq<BlockInfo>,
    blockHeights: map<Hash, nat>,
    txIndices: map<Hash, TxIndex>,
    txsPruned: map<nat, TxBase>,
    txsPrunable: map<nat, nat>,
    txsPrunableHash: map<nat, Hash>,
    spentKeys: set<KeyImage>)

  /** Outputs: global list, list per amount, and the amount indices of each transaction. */
  datatype Outputs = Outputs(outputTxs: seq<OutTx>, outputAmounts: map<nat, seq<OutKey>>, txOutputs: map<nat, seq<nat>>)

  datatype Tables = Tables(ledger: Ledger, outputs: Outputs)

  const EMPTY: Tables := Tables(Ledger([], [], map[], map[], map[], map[], map[], {}), Outputs([], map[], map[]))

  // ----- Spent keys -----

  function AddSpentKey(t: Ledger, image: KeyImage): Result<Ledger> {
    if image in t.spentKeys then Err(KeyImageExists) else Ok(t.(spentKeys := t.spentKeys + {image}))
  }

  /** Removing an image that is not there is not an error. */
  function RemoveSpentKey(t: Ledger, image: KeyImage): Ledger {
    t.(spentKeys := t.spentKeys - {image})
  }

  // ----- Transactions -----

  /** Appending under `id` needs every present key to be smaller. */
  predicate Appendable<T>(m: map<nat, T>, id: nat) {
    forall k :: k in m ==> k < id
  }

  const CURRENT_TRANSACTION_VERSION: nat := 2

  /** The transaction can be written out: a known version, and a commitment for each output of a ring signature. */
  predicate Serializes(tx: TxBase) {
    && 1 <= tx.version <= CURRENT_TRANSACTION_VERSION
    && (tx.version == 1 || tx.vin == [] || tx.rctNull || |tx.outPk| == |tx.vout|)
  }

  /** The new transaction's number is the number of stored transactions. */
  function AddTransactionData(c: Crypto, t: Ledger, tx: Transaction, hash: Hash): Result<Ledger> {
    var id := |t.txsPruned|;
    if hash in t.txIndices then Err(TxExists)
    else if !Serializes(tx.base) then Err(DbFailure)
    else if !Appendable(t.txsPruned, id) || !Appendable(t.txsPrunable, id) then Err(DbFailure)
    else if tx.base.version > 1 && !Appendable(t.txsPrunableHash, id) then Err(DbFailure)
    else Ok(t.(txIndices := t.txIndices[hash := TxIndex(id, tx.base.unlockTime, |t.blocks|)],
               txsPruned := t.txsPruned[id := tx.base],
               txsPrunable := t.txsPrunable[id := tx.prunable],
               txsPrunableHash := if tx.base.version > 1 then t.txsPrunableHash[id := c.prunableHash(tx)]
                                  else t.txsPrunableHash))
  }

  function GetPrunedTx(t: Ledger, hash: Hash): Option<TxBase> {
    if hash in t.txIndices && t.txIndices[hash].txId in t.txsPruned then Some(t.txsPruned[t.txIndices[hash].txId]) else None
  }

  /** The prunable part, when it has not been pruned away. */
  function GetPrunablePart(t: Ledger, hash: Hash): Option<nat> {
    if hash in t.txIndices && t.txIndices[hash].txId in t.txsPrunable
    then Some(t.txsPrunable[t.txIndices[hash].txId]) else None
  }

  function RemoveTransactionData(t: Ledger, hash: Hash, tx: TxBase): Result<Ledger> {
    if hash !in t.txIndices then Err(TxMissing)
    else
      var id := t.txIndices[hash].txId;
      if id !in t.txsPruned then Err(DbFailure)
      else if tx.version > 1 && id !in t.txsPrunableHash then Err(DbFailure)
      else Ok(t.(txsPruned := t.txsPruned - {id}, txsPrunable := t.txsPrunable - {id},
                 txsPrunableHash := if tx.version > 1 then t.txsPrunableHash - {id} else t.txsPrunableHash,
                 txIndices := t.txIndices - {hash}))
  }

  // ----- Outputs -----

  function OutputsAt(o: Outputs, amount: nat): seq<OutKey> {
    if amount in o.outputAmounts then o.outputAmounts[amount] else []
  }

  function NextOutputId(o: Outputs): nat {
    if o.outputTxs == [] then 0 else o.outputTxs[|o.outputTxs| - 1].outputId + 1
  }

  /** Stores an output under `amount`; its index there is the number of outputs already there. */
  function AddOutput(o: Outputs, hash: Hash, amount: nat, key: Option<Key>, localIndex: nat, unlockTime: nat,
                     height: nat, commitment: Option<Key>): Result<Outputs> {
    var s := OutputsAt(o, amount);
    if key.None? || (amount == 0 && commitment.None?) then Err(DbFailure)
    else if s != [] && s[|s| - 1].amountIndex >= |s| then Err(DbFailure)
    else
      var id := NextOutputId(o);
      var out := OutKey(|s|, id, key.value, unlockTime, height, if amount == 0 then commitment else None);
      Ok(o.(outputTxs := o.outputTxs + [OutTx(id, hash, localIndex)],
            outputAmounts := o.outputAmounts[amount := s + [out]]))
  }

  function FindOutKey(s: seq<OutKey>, index: nat): (r: Option<nat>)
    ensures r.Some? ==> r.value < |s| && s[r.value].amountIndex == index
    ensures r.None? ==> forall i :: 0 <= i < |s| ==> s[i].amountIndex != index
  {
    if s == [] then None
    else if s[|s| - 1].amountIndex == index then Some(|s| - 1)
    else FindOutKey(s[..|s| - 1], index)
  }

  function FindOutTx(s: seq<OutTx>, id: nat): (r: Option<nat>)
    ensures r.Some? ==> r.value < |s| && s[r.value].outputId == id
    ensures r.None? ==> forall i :: 0 <= i < |s| ==> s[i].outputId != id
  {
    if s == [] then None
    else if s[|s| - 1].outputId == id then Some(|s| - 1)
    else FindOutTx(s[..|s| - 1], id)
  }

  function Without<T>(s: seq<T>, i: nat): seq<T>
    requires i < |s|
  {
    s[..i] + s[i + 1..]
  }

  /** An amount whose last output goes away disappears from the table. */
  function RemoveOutput(o: Outputs, amount: nat, index: nat): Result<Outputs> {
    var s := OutputsAt(o, amount);
    match FindOutKey(s, index)
    case None => Err(OutputMissing)
    case Some(p) =>
      match FindOutTx(o.outputTxs, s[p].outputId)
      case None => Err(DbFailure)
      case Some(q) =>
        var rest := Without(s, p);
        Ok(o.(outputTxs := Without(o.outputTxs, q),
              outputAmounts := if rest == [] then o.outputAmounts - {amount} else o.outputAmounts[amount := rest]))
  }

  function AddTxAmountOutputIndices(o: Outputs, id: nat, indices: seq<nat>): Result<Outputs> {
    if !Appendable(o.txOutputs, id) then Err(DbFailure) else Ok(o.(txOutputs := o.txOutputs[id := indices]))
  }

  /** The backend's own test for a transaction whose outputs are stored under amount 0. */
  predicate IsPseudoRct(tx: TxBase) {
    tx.version >= 2 && |tx.vin| == 1 && tx.vin[0].Gen?
  }

  function RemovedAmount(tx: TxBase, i: nat): nat
    requires i < |tx.vout|
  {
    if IsPseudoRct(tx) then 0 else tx.vout[i].amount
  }

  /** Removes the first `n` outputs of a transaction, the last of them first. */
  function RemoveOutputs(o: Outputs, tx: TxBase, indices: seq<nat>, n: nat): Result<Outputs>
    requires n <= |tx.vout|
    decreases n
  {
    if n == 0 then Ok(o)
    else if n > |indices| then Err(DbFailure)
    else
      match RemoveOutput(o, RemovedAmount(tx, n - 1), indices[n - 1])
      case Err(e) => Err(e)
      case Ok(o') => RemoveOutputs(o', tx, indices, n - 1)
  }

  function RemoveTxOutputs(o: Outputs, id: nat, tx: TxBase): Result<Outputs> {
    match RemoveOutputs(o, tx, if id in o.txOutputs then o.txOutputs[id] else [], |tx.vout|)
    case Err(e) => Err(e)
    case Ok(o') => Ok(o'.(txOutputs := o'.txOutputs - {id}))
  }

  // ----- Blocks -----

  function AddBlockData(t: Ledger, blk: Block, meta: BlockMeta, numRct: nat, hash: Hash): Result<Ledger> {
    var height := |t.blocks|;
    if hash in t.blockHeights then Err(BlockExists)
    else if height > 0 && blk.prevId !in t.blockHeights then Err(DbFailure)
    else if height > 0 && t.blockHeights[blk.prevId] != height - 1 then Err(BlockParentMissing)
    else if blk.majorVersion >= 4 && height > 0 && |t.blockInfo| < height then Err(BlockMissing)
    else
      var before := if blk.majorVersion >= 4 && height > 0 then t.blockInfo[height - 1].cumRct else 0;
      Ok(t.(blocks := t.blocks + [blk],
            blockInfo := t.blockInfo + [BlockInfo(hash, meta, numRct + before)],
            blockHeights := t.blockHeights[hash := height]))
  }

  /** Removes the top block, which the caller has just read. */
  function RemoveBlock(t: Ledger): Result<Ledger> {
    var height := |t.blocks|;
    if height == 0 || |t.blockInfo| != height then Err(BlockMissing)
    else if t.blockInfo[height - 1].hash !in t.blockHeights then Err(DbFailure)
    else Ok(t.(blocks := t.blocks[..height - 1], blockInfo := t.blockInfo[..height - 1],
               blockHeights := t.blockHeights - {t.blockInfo[height - 1].hash}))
  }
}
