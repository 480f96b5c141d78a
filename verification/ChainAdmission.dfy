/** Exactly which blocks the store accepts. */
module ChainAdmission {
  import opened Basics
  import opened ChainTables
  import opened ChainSteps
  import opened ChainUndo
  import opened ChainBlocks

  /** The elements of `s` differ from each other and from those of `used`. */
  predicate Fresh(s: seq<nat>, used: set<nat>) {
    && (forall i :: 0 <= i < |s| ==> s[i] !in used)
    && (forall i, j :: 0 <= i < j < |s| ==> s[i] != s[j])
  }

  function Elements(s: seq<nat>): set<nat> {
    set i | 0 <= i < |s| :: s[i]
  }

  lemma FreshAppended(a: seq<nat>, b: seq<nat>, used: set<nat>)
    ensures Fresh(a + b, used) <==> Fresh(a, used) && Fresh(b, used + Elements(a))
    ensures Elements(a + b) == Elements(a) + Elements(b)
  {
    var s := a + b;
    assert forall i :: 0 <= i < |a| ==> s[i] == a[i];
    assert forall i :: 0 <= i < |b| ==> s[|a| + i] == b[i];
    assert Elements(s) == Elements(a) + Elements(b) by {
      forall x | x in Elements(a) + Elements(b) ensures x in Elements(s) {
        if x in Elements(a) {
          var i :| 0 <= i < |a| && a[i] == x;
          assert s[i] == x;
        } else {
          var i :| 0 <= i < |b| && b[i] == x;
          assert s[|a| + i] == x;
        }
      }
    }
    if Fresh(s, used) {
      forall i | 0 <= i < |b| ensures b[i] !in used + Elements(a) {
        assert s[|a| + i] !in used;
      }
      forall i, j | 0 <= i < j < |b| ensures b[i] != b[j] {
        assert s[|a| + i] != s[|a| + j];
      }
    }
    if Fresh(a, used) && Fresh(b, used + Elements(a)) {
      forall i, j | 0 <= i < j < |s| ensures s[i] != s[j] {
        if i < |a| <= j {
          assert s[i] in Elements(a) && s[j] == b[j - |a|];
        }
      }
    }
  }

  // ----- Inputs -----

  function ImageList(vin: seq<TxIn>, n: nat): seq<KeyImage>
    requires n <= |vin|
  {
    if n == 0 then [] else ImageList(vin, n - 1) + if vin[n - 1].ToKey? then [vin[n - 1].image] else []
  }

  predicate Supported(vin: seq<TxIn>) {
    forall i :: 0 <= i < |vin| ==> !vin[i].OtherIn?
  }

  lemma {:induction false} InputsAdmittedIff(t: Ledger, vin: seq<TxIn>, n: nat)
    requires n <= |vin|
    ensures AddInputs(t, vin, n).Ok?
            <==> (forall i :: 0 <= i < n ==> !vin[i].OtherIn?) && Fresh(ImageList(vin, n), t.spentKeys)
    ensures AddInputs(t, vin, n).Ok? ==>
              AddInputs(t, vin, n).value == t.(spentKeys := t.spentKeys + Elements(ImageList(vin, n)))
  {
    hide Fresh;
    if n > 0 {
      InputsAdmittedIff(t, vin, n - 1);
      var last := if vin[n - 1].ToKey? then [vin[n - 1].image] else [];
      FreshAppended(ImageList(vin, n - 1), last, t.spentKeys);
      FreshFew(last, t.spentKeys + Elements(ImageList(vin, n - 1)));
    } else {
      FreshFew([], t.spentKeys);
    }
  }

  lemma FreshFew(s: seq<nat>, used: set<nat>)
    requires |s| <= 1
    ensures Fresh(s, used) <==> s == [] || s[0] !in used
    ensures Elements(s) == if s == [] then {} else {s[0]}
  {
  }

  // ----- Outputs -----

  /** Amount indices count up from zero and no list is empty. */
  predicate Counted(o: Outputs) {
    forall a :: a in o.outputAmounts ==>
      o.outputAmounts[a] != [] && forall i :: 0 <= i < |o.outputAmounts[a]| ==> o.outputAmounts[a][i].amountIndex == i
  }

  predicate OutputStorable(c: Crypto, tx: TxBase, i: nat)
    requires i < |tx.vout|
  {
    tx.vout[i].key.Some? && (StoredAmount(tx, i) != 0 || CommitmentOf(c, tx, i).Some?)
  }

  predicate Storable(c: Crypto, tx: TxBase) {
    forall i :: 0 <= i < |tx.vout| ==> OutputStorable(c, tx, i)
  }

  lemma OutputAdmittedIff(o: Outputs, hash: Hash, amount: nat, key: Option<Key>, localIndex: nat, unlockTime: nat,
                          height: nat, commitment: Option<Key>)
    requires Counted(o)
    ensures var r := AddOutput(o, hash, amount, key, localIndex, unlockTime, height, commitment);
            && (r.Ok? <==> key.Some? && (amount != 0 || commitment.Some?))
            && (r.Ok? ==> Counted(r.value) && r.value.txOutputs == o.txOutputs)
  {
  }

  lemma {:induction false} OutputsAdmittedIff(c: Crypto, o: Outputs, tx: TxBase, hash: Hash, height: nat, n: nat)
    requires Counted(o) && n <= |tx.vout|
    ensures AddOutputs(c, o, tx, hash, height, n).Ok? <==> forall i :: 0 <= i < n ==> OutputStorable(c, tx, i)
    ensures AddOutputs(c, o, tx, hash, height, n).Ok? ==>
              var o' := AddOutputs(c, o, tx, hash, height, n).value.0; Counted(o') && o'.txOutputs == o.txOutputs
  {
    hide AddOutput, Counted, StoredAmount, CommitmentOf;
    if n > 0 {
      OutputsAdmittedIff(c, o, tx, hash, height, n - 1);
      if AddOutputs(c, o, tx, hash, height, n - 1).Ok? {
        var o' := AddOutputs(c, o, tx, hash, height, n - 1).value.0;
        OutputAdmittedIff(o', hash, StoredAmount(tx, n - 1), tx.vout[n - 1].key, n - 1, tx.unlockTime, height,
                          CommitmentOf(c, tx, n - 1));
        assert OutputStorable(c, tx, n - 1) <==> AddOutputs(c, o, tx, hash, height, n).Ok?;
      }
    }
  }

  // ----- Transactions -----

  /** Transaction numbers are below the number of transactions. */
  predicate Numbered(t: Tables) {
    var n := |t.ledger.txsPruned|;
    && Appendable(t.ledger.txsPruned, n) && Appendable(t.ledger.txsPrunable, n)
    && Appendable(t.ledger.txsPrunableHash, n) && Appendable(t.outputs.txOutputs, n)
  }

  predicate WellKept(t: Tables) {
    WellFormed(t) && Numbered(t) && Counted(t.outputs)
  }

  predicate TxAdmissible(c: Crypto, l: Ledger, tx: Transaction, hash: Hash) {
    && Supported(tx.base.vin) && Serializes(tx.base) && Storable(c, tx.base)
    && Fresh(ImageList(tx.base.vin, |tx.base.vin|), l.spentKeys) && hash !in l.txIndices
  }

  lemma LedgerAdmittedIff(c: Crypto, t: Tables, tx: Transaction, hash: Hash)
    requires Numbered(t)
    ensures var r := AddTxToLedger(c, t.ledger, tx, hash);
            && (r.Ok? <==> Supported(tx.base.vin) && Fresh(ImageList(tx.base.vin, |tx.base.vin|), t.ledger.spentKeys)
                           && hash !in t.ledger.txIndices && Serializes(tx.base))
            && (r.Ok? ==>
                  && |r.value.txsPruned| == |t.ledger.txsPruned| + 1
                  && Appendable(r.value.txsPruned, |r.value.txsPruned|) && Appendable(r.value.txsPrunable, |r.value.txsPruned|)
                  && Appendable(r.value.txsPrunableHash, |r.value.txsPruned|)
                  && r.value.txIndices.Keys == t.ledger.txIndices.Keys + {hash}
                  && r.value.spentKeys == t.ledger.spentKeys + Elements(ImageList(tx.base.vin, |tx.base.vin|)))
  {
    hide Fresh, ImageList, Elements, AddInputs, Serializes;
    InputsAdmittedIff(t.ledger, tx.base.vin, |tx.base.vin|);
  }

  /** A transaction is accepted if and only if it is admissible; what the next one will meet follows. */
  lemma TransactionAdmittedIff(c: Crypto, t: Tables, tx: Transaction, hash: Hash)
    requires WellKept(t)
    ensures var r := AddTransaction(c, t, tx, hash);
            && (r.Ok? <==> TxAdmissible(c, t.ledger, tx, hash))
            && (r.Ok? ==>
                  && WellKept(r.value)
                  && r.value.ledger.txIndices.Keys == t.ledger.txIndices.Keys + {hash}
                  && r.value.ledger.spentKeys == t.ledger.spentKeys + Elements(ImageList(tx.base.vin, |tx.base.vin|)))
  {
    hide Fresh, ImageList, Elements, AddTxToLedger, AddOutputs, Counted, OutputStorable, NoEmptyLists, Serializes;
    LedgerAdmittedIff(c, t, tx, hash);
    OutputsAdmittedIff(c, t.outputs, tx.base, hash, |t.ledger.blocks|, |tx.base.vout|);
    if AddTransaction(c, t, tx, hash).Ok? {
      TransactionKeeps(c, t, tx, hash);
      CountedIgnoresIndices(AddOutputs(c, t.outputs, tx.base, hash, |t.ledger.blocks|, |tx.base.vout|).value.0,
                            AddTransaction(c, t, tx, hash).value.outputs.txOutputs);
    }
  }

  lemma CountedIgnoresIndices(o: Outputs, m: map<nat, seq<nat>>)
    requires Counted(o)
    ensures Counted(o.(txOutputs := m))
  {
  }

  // ----- Blocks -----

  function HashList(c: Crypto, blk: Block, n: nat): seq<Hash>
    requires n <= |blk.txHashes|
  {
    (if n == 0 then [] else HashList(c, blk, n - 1)) + [HashAt(c, blk, n)]
  }

  function BlockImageList(e: Entry, n: nat): seq<KeyImage>
    requires n <= |e.txs|
  {
    var vin := TxAt(e, n).base.vin;
    (if n == 0 then [] else BlockImageList(e, n - 1)) + ImageList(vin, |vin|)
  }

  predicate TxShapesFit(c: Crypto, e: Entry, n: nat)
    requires n <= |e.txs|
  {
    forall j :: 0 <= j <= n ==>
      Supported(TxAt(e, j).base.vin) && Serializes(TxAt(e, j).base) && Storable(c, TxAt(e, j).base)
  }

  lemma {:induction false} TxsAdmittedIff(c: Crypto, t: Tables, e: Entry, n: nat)
    requires WellKept(t) && SizesMatch(e) && n <= |e.txs|
    ensures AddTxs(c, t, e, n).Ok?
            <==> TxShapesFit(c, e, n) && Fresh(BlockImageList(e, n), t.ledger.spentKeys)
                 && Fresh(HashList(c, e.blk, n), t.ledger.txIndices.Keys)
    ensures AddTxs(c, t, e, n).Ok? ==>
              && WellKept(AddTxs(c, t, e, n).value)
              && AddTxs(c, t, e, n).value.ledger.txIndices.Keys == t.ledger.txIndices.Keys + Elements(HashList(c, e.blk, n))
              && AddTxs(c, t, e, n).value.ledger.spentKeys == t.ledger.spentKeys + Elements(BlockImageList(e, n))
  {
    hide AddTransaction, WellKept, Supported, Serializes, Storable, Fresh, Elements, ImageList;
    var before := if n == 0 then Ok(t) else AddTxs(c, t, e, n - 1);
    var tx, hash := TxAt(e, n), HashAt(c, e.blk, n);
    var images, hashes := if n == 0 then [] else BlockImageList(e, n - 1), if n == 0 then [] else HashList(c, e.blk, n - 1);
    if n > 0 {
      TxsAdmittedIff(c, t, e, n - 1);
    } else {
      FreshFew([], t.ledger.spentKeys);
      FreshFew([], t.ledger.txIndices.Keys);
      assert t.ledger.spentKeys + Elements([]) == t.ledger.spentKeys;
      assert t.ledger.txIndices.Keys + Elements([]) == t.ledger.txIndices.Keys;
    }
    FreshAppended(images, ImageList(tx.base.vin, |tx.base.vin|), t.ledger.spentKeys);
    FreshAppended(hashes, [hash], t.ledger.txIndices.Keys);
    FreshFew([hash], t.ledger.txIndices.Keys + Elements(hashes));
    if before.Ok? {
      TransactionAdmittedIff(c, before.value, tx, hash);
      assert TxShapesFit(c, e, n)
             <==> (n > 0 ==> TxShapesFit(c, e, n - 1))
                  && Supported(tx.base.vin) && Serializes(tx.base) && Storable(c, tx.base);
    }
  }

  /** A block the store should accept: well-formed transactions, nothing spent or stored twice, on top of the chain. */
  predicate Admissible(c: Crypto, t: Tables, e: Entry) {
    && SizesMatch(e) && TxShapesFit(c, e, |e.txs|)
    && Fresh(BlockImageList(e, |e.txs|), t.ledger.spentKeys)
    && Fresh(HashList(c, e.blk, |e.txs|), t.ledger.txIndices.Keys)
    && c.blockHash(e.blk) !in t.ledger.blockHeights
    && var height := |t.ledger.blocks|;
       height == 0 || (e.blk.prevId in t.ledger.blockHeights && t.ledger.blockHeights[e.blk.prevId] == height - 1)
  }

  /** A block is accepted if and only if it is admissible, and the tables stay fit for the next one. */
  lemma BlockAdmittedIff(c: Crypto, t: Tables, e: Entry)
    requires WellKept(t)
    ensures AddBlock(c, t, e).Ok? <==> Admissible(c, t, e)
    ensures AddBlock(c, t, e).Ok? ==> WellKept(AddBlock(c, t, e).value)
  {
    hide AddTxs, TxShapesFit, Fresh, Elements, BlockImageList, HashList, NumRctOuts, NoEmptyLists, Counted;
    if SizesMatch(e) {
      TxsAdmittedIff(c, t, e, |e.txs|);
      if AddTxs(c, t, e, |e.txs|).Ok? {
        TxsKeep(c, t, e, |e.txs|);
      }
    }
  }

  // ----- Which error a refusal comes with -----

  lemma {:induction false} InputsRefused(t: Ledger, vin: seq<TxIn>, n: nat)
    requires n <= |vin| && AddInputs(t, vin, n).Err?
    ensures match AddInputs(t, vin, n).error
            case UnsupportedInput => exists i :: 0 <= i < n && vin[i].OtherIn?
            case KeyImageExists => exists i :: 0 <= i < n && vin[i].ToKey?
                                               && (vin[i].image in t.spentKeys || vin[i].image in ImageList(vin, i))
            case _ => false
  {
    if AddInputs(t, vin, n - 1).Err? {
      InputsRefused(t, vin, n - 1);
    } else {
      InputsAdmittedIff(t, vin, n - 1);
      var last := vin[n - 1];
      assert last.ToKey? ==> last.image in t.spentKeys + Elements(ImageList(vin, n - 1));
    }
  }

  lemma {:induction false} OutputsRefused(c: Crypto, o: Outputs, tx: TxBase, hash: Hash, height: nat, n: nat)
    requires n <= |tx.vout| && AddOutputs(c, o, tx, hash, height, n).Err?
    ensures AddOutputs(c, o, tx, hash, height, n).error == DbFailure
  {
    if AddOutputs(c, o, tx, hash, height, n - 1).Err? {
      OutputsRefused(c, o, tx, hash, height, n - 1);
    }
  }

  /** Why a well-kept store refuses a transaction, read off the error. */
  lemma TransactionRefused(c: Crypto, t: Tables, tx: Transaction, hash: Hash)
    requires WellKept(t) && AddTransaction(c, t, tx, hash).Err?
    ensures var vin := tx.base.vin;
            match AddTransaction(c, t, tx, hash).error
            case UnsupportedInput => exists i :: 0 <= i < |vin| && vin[i].OtherIn?
            case KeyImageExists => exists i :: 0 <= i < |vin| && vin[i].ToKey?
                                               && (vin[i].image in t.ledger.spentKeys || vin[i].image in ImageList(vin, i))
            case TxExists => hash in t.ledger.txIndices
            case DbFailure => hash !in t.ledger.txIndices && (!Serializes(tx.base) || !Storable(c, tx.base))
            case _ => false
  {
    hide AddInputs, AddOutputs, ImageList, OutputStorable, Serializes, Fresh, Elements, Counted, NoEmptyLists;
    var vin := tx.base.vin;
    if AddInputs(t.ledger, vin, |vin|).Err? {
      InputsRefused(t.ledger, vin, |vin|);
    } else {
      InputsAdmittedIff(t.ledger, vin, |vin|);
      OutputsAdmittedIff(c, t.outputs, tx.base, hash, |t.ledger.blocks|, |tx.base.vout|);
      if AddOutputs(c, t.outputs, tx.base, hash, |t.ledger.blocks|, |tx.base.vout|).Err? {
        OutputsRefused(c, t.outputs, tx.base, hash, |t.ledger.blocks|, |tx.base.vout|);
      }
    }
  }

  /** Why a well-kept store refuses a block all of whose transactions it takes, read off the error. */
  lemma BlockRefused(c: Crypto, t: Tables, e: Entry)
    requires WellKept(t) && AddBlock(c, t, e).Err? && (SizesMatch(e) ==> AddTxs(c, t, e, |e.txs|).Ok?)
    ensures var heights, hash, parent := t.ledger.blockHeights, c.blockHash(e.blk), e.blk.prevId;
            match AddBlock(c, t, e).error
            case InconsistentSizes => |e.blk.txHashes| != |e.txs|
            case BlockExists => hash in heights
            case DbFailure => hash !in heights && t.ledger.blocks != [] && parent !in heights
            case BlockParentMissing => hash !in heights && parent in heights && heights[parent] != |t.ledger.blocks| - 1
            case _ => false
  {
    hide AddTxs, NumRctOuts, NoEmptyLists, Counted;
    if SizesMatch(e) {
      TxsKeep(c, t, e, |e.txs|);
    }
  }
}
