/** What adding and removing transactions and blocks does to the tables. */
module ChainSteps {
  import opened Basics
  import opened ChainTables

  /** A block as it is handed to the store. */
  datatype Entry = Entry(blk: Block, meta: BlockMeta, txs: seq<Transaction>)

  /** A transaction read back from the store; `prunable` is missing when it was pruned. */
  datatype StoredTx = StoredTx(base: TxBase, prunable: Option<nat>)

  // ----- Adding a transaction -----

  function AddInputs(t: Ledger, vin: seq<TxIn>, n: nat): Result<Ledger>
    requires n <= |vin|
  {
    if n == 0 then Ok(t)
    else
      match AddInputs(t, vin, n - 1)
      case Err(e) => Err(e)
      case Ok(t') =>
        match vin[n - 1]
        case ToKey(image) => AddSpentKey(t', image)
        case Gen(_) => Ok(t')
        case OtherIn => Err(UnsupportedInput)
  }

  predicate HasGen(vin: seq<TxIn>) {
    exists i :: 0 <= i < |vin| && vin[i].Gen?
  }

  /** Outputs of a version 2 transaction with a generation input go under amount 0. */
  predicate StoredAsRct(tx: TxBase) {
    HasGen(tx.vin) && tx.version == 2
  }

  function StoredAmount(tx: TxBase, i: nat): nat
    requires i < |tx.vout|
  {
    if StoredAsRct(tx) then 0 else tx.vout[i].amount
  }

  function CommitmentOf(c: Crypto, tx: TxBase, i: nat): Option<Key>
    requires i < |tx.vout|
  {
    if StoredAsRct(tx) then Some(c.zeroCommit(tx.vout[i].amount))
    else if tx.version > 1 && i < |tx.outPk| then Some(tx.outPk[i])
    else None
  }

  /** Stores the first `n` outputs and returns their amount indices. */
  function AddOutputs(c: Crypto, o: Outputs, tx: TxBase, hash: Hash, height: nat, n: nat): Result<(Outputs, seq<nat>)>
    requires n <= |tx.vout|
  {
    if n == 0 then Ok((o, []))
    else
      match AddOutputs(c, o, tx, hash, height, n - 1)
      case Err(e) => Err(e)
      case Ok((o', indices)) =>
        var amount := StoredAmount(tx, n - 1);
        match AddOutput(o', hash, amount, tx.vout[n - 1].key, n - 1, tx.unlockTime, height, CommitmentOf(c, tx, n - 1))
        case Err(e) => Err(e)
        case Ok(o'') => Ok((o'', indices + [|OutputsAt(o', amount)|]))
  }

  function AddTxToLedger(c: Crypto, t: Ledger, tx: Transaction, hash: Hash): Result<Ledger> {
    match AddInputs(t, tx.base.vin, |tx.base.vin|)
    case Err(e) => Err(e)
    case Ok(t') => AddTransactionData(c, t', tx, hash)
  }

  function AddTxToOutputs(c: Crypto, o: Outputs, tx: TxBase, hash: Hash, id: nat, height: nat): Result<Outputs> {
    match AddOutputs(c, o, tx, hash, height, |tx.vout|)
    case Err(e) => Err(e)
    case Ok((o', indices)) => AddTxAmountOutputIndices(o', id, indices)
  }

  function AddTransaction(c: Crypto, t: Tables, tx: Transaction, hash: Hash): Result<Tables> {
    match AddTxToLedger(c, t.ledger, tx, hash)
    case Err(e) => Err(e)
    case Ok(ledger) =>
      match AddTxToOutputs(c, t.outputs, tx.base, hash, |t.ledger.txsPruned|, |t.ledger.blocks|)
      case Err(e) => Err(e)
      case Ok(outputs) => Ok(Tables(ledger, outputs))
  }

  // ----- Removing a transaction -----

  function RemoveInputs(t: Ledger, vin: seq<TxIn>, n: nat): Ledger
    requires n <= |vin|
  {
    if n == 0 then t
    else
      var t' := RemoveInputs(t, vin, n - 1);
      if vin[n - 1].ToKey? then RemoveSpentKey(t', vin[n - 1].image) else t'
  }

  function RemoveTxFromLedger(t: Ledger, hash: Hash): Result<Ledger> {
    match GetPrunedTx(t, hash)
    case None => Err(TxMissing)
    case Some(tx) => RemoveTransactionData(RemoveInputs(t, tx.vin, |tx.vin|), hash, tx)
  }

  function RemoveTransaction(t: Tables, hash: Hash): Result<Tables> {
    match RemoveTxFromLedger(t.ledger, hash)
    case Err(e) => Err(e)
    case Ok(ledger) =>
      match RemoveTxOutputs(t.outputs, t.ledger.txIndices[hash].txId, GetPrunedTx(t.ledger, hash).value)
      case Err(e) => Err(e)
      case Ok(outputs) => Ok(Tables(ledger, outputs))
  }

  // ----- Adding a block -----

  function TxAt(e: Entry, n: nat): Transaction
    requires n <= |e.txs|
  {
    if n == 0 then e.blk.minerTx else e.txs[n - 1]
  }

  function HashAt(c: Crypto, blk: Block, n: nat): Hash
    requires n <= |blk.txHashes|
  {
    if n == 0 then c.txHash(blk.minerTx) else blk.txHashes[n - 1]
  }

  predicate SizesMatch(e: Entry) {
    |e.blk.txHashes| == |e.txs|
  }

  /** Adds the miner transaction and the first `n` others. */
  function AddTxs(c: Crypto, t: Tables, e: Entry, n: nat): Result<Tables>
    requires SizesMatch(e) && n <= |e.txs|
  {
    if n == 0 then AddTransaction(c, t, TxAt(e, 0), HashAt(c, e.blk, 0))
    else
      match AddTxs(c, t, e, n - 1)
      case Err(x) => Err(x)
      case Ok(t') => AddTransaction(c, t', TxAt(e, n), HashAt(c, e.blk, n))
  }

  function ZeroOutputs(vout: seq<TxOut>): nat {
    if vout == [] then 0 else ZeroOutputs(vout[..|vout| - 1]) + if vout[|vout| - 1].amount == 0 then 1 else 0
  }

  /** The count of amount-0 outputs that is recorded for the block, over the first `n` transactions. */
  function NumRctOuts(e: Entry, n: nat): nat
    requires n <= |e.txs|
  {
    if n == 0 then if e.blk.minerTx.base.version == 2 then |e.blk.minerTx.base.vout| else 0
    else NumRctOuts(e, n - 1) + ZeroOutputs(e.txs[n - 1].base.vout)
  }

  function AddBlock(c: Crypto, t: Tables, e: Entry): Result<Tables> {
    if !SizesMatch(e) then Err(InconsistentSizes)
    else
      match AddTxs(c, t, e, |e.txs|)
      case Err(x) => Err(x)
      case Ok(t') =>
        match AddBlockData(t'.ledger, e.blk, e.meta, NumRctOuts(e, |e.txs|), c.blockHash(e.blk))
        case Err(x) => Err(x)
        case Ok(ledger) => Ok(t'.(ledger := ledger))
  }

  // ----- Popping a block -----

  /** Removes the first `n` listed transactions, the last of them first, adding each to `popped`. */
  function PopTxs(t: Tables, hashes: seq<Hash>, n: nat, popped: seq<StoredTx>): Result<(Tables, seq<StoredTx>)>
    requires n <= |hashes|
    decreases n
  {
    if n == 0 then Ok((t, popped))
    else
      var hash := hashes[n - 1];
      match GetPrunedTx(t.ledger, hash)
      case None => Err(DbFailure)
      case Some(base) =>
        match RemoveTransaction(t, hash)
        case Err(x) => Err(x)
        case Ok(t') => PopTxs(t', hashes, n - 1, popped + [StoredTx(base, GetPrunablePart(t.ledger, hash))])
  }

  datatype Popped = Popped(tables: Tables, blk: Block, txs: seq<StoredTx>)

  function PopBlock(c: Crypto, t: Tables): Result<Popped> {
    match RemoveBlock(t.ledger)
    case Err(x) => Err(x)
    case Ok(ledger) =>
      var blk := t.ledger.blocks[|t.ledger.blocks| - 1];
      match PopTxs(t.(ledger := ledger), blk.txHashes, |blk.txHashes|, [])
      case Err(x) => Err(x)
      case Ok((t', txs)) =>
        match RemoveTransaction(t', c.txHash(blk.minerTx))
        case Err(x) => Err(x)
        case Ok(t'') => Ok(Popped(t'', blk, txs))
  }
}
