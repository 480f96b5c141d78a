/** The repair of stores that lack key images: popping back to the last sound height. */
module ChainFixup {
  import opened Basics
  import opened ChainTables
  import opened ChainSteps
  import opened ChainUndo
  import opened ChainBlocks
  import opened ChainRuns
  import opened ChainRemovals
  import opened ChainPops

  const MAINNET_GENESIS: Hash := 0x418015bb9ae982a1975da7d79277c2705727a56894ba0fb246adaabb1f4632e3
  const FIRST_MISSING_IMAGE: KeyImage := 0x121bf6ae1596983b703d62fecf60ea7dd3c3909acf1e0911652e7dadb420ed12
  const LAST_SOUND_HEIGHT: nat := 202612

  lemma {:induction false} PopTxsKeepsBlocks(t: Tables, hashes: seq<Hash>, n: nat, popped: seq<StoredTx>)
    requires n <= |hashes| && PopTxs(t, hashes, n, popped).Ok?
    ensures PopTxs(t, hashes, n, popped).value.0.ledger.blocks == t.ledger.blocks
    decreases n
  {
    hide RemoveTransaction, GetPrunedTx, GetPrunablePart;
    if n > 0 {
      RemovalKeepsBlocks(t, hashes[n - 1]);
      PopTxsKeepsBlocks(RemoveTransaction(t, hashes[n - 1]).value, hashes, n - 1,
                        popped + [StoredTx(GetPrunedTx(t.ledger, hashes[n - 1]).value, GetPrunablePart(t.ledger, hashes[n - 1]))]);
    }
  }

  lemma RemovalKeepsBlocks(t: Tables, hash: Hash)
    requires RemoveTransaction(t, hash).Ok?
    ensures RemoveTransaction(t, hash).value.ledger.blocks == t.ledger.blocks
  {
    hide Images;
    var tx := GetPrunedTx(t.ledger, hash).value;
    InputsRemoved(t.ledger, tx.vin, |tx.vin|);
  }

  /** A pop that gets through takes off exactly one block. */
  lemma PopShortens(c: Crypto, t: Tables)
    requires PopBlock(c, t).Ok?
    ensures |PopBlock(c, t).value.tables.ledger.blocks| + 1 == |t.ledger.blocks|
  {
    hide RemoveTransaction, PopTxs;
    var ledger := RemoveBlock(t.ledger).value;
    var blk := t.ledger.blocks[|t.ledger.blocks| - 1];
    var t1 := t.(ledger := ledger);
    PopTxsKeepsBlocks(t1, blk.txHashes, |blk.txHashes|, []);
    RemovalKeepsBlocks(PopTxs(t1, blk.txHashes, |blk.txHashes|, []).value.0, c.txHash(blk.minerTx));
  }

  /** Pops blocks while there are more than `height`. */
  function PopTo(c: Crypto, t: Tables, height: nat): Result<Tables>
    decreases |t.ledger.blocks|
  {
    if |t.ledger.blocks| <= height then Ok(t)
    else
      match PopBlock(c, t)
      case Err(x) => Err(x)
      case Ok(p) => PopShortens(c, t); PopTo(c, p.tables, height)
  }

  predicate NeedsFixup(t: Ledger) {
    && t.blockInfo != [] && t.blockInfo[0].hash == MAINNET_GENESIS
    && |t.blocks| > LAST_SOUND_HEIGHT && FIRST_MISSING_IMAGE !in t.spentKeys
  }

  function Fixup(c: Crypto, t: Tables, readOnly: bool): Result<Tables> {
    if readOnly then Ok(t)
    else if t.ledger.blockInfo == [] then Err(BlockMissing)
    else if NeedsFixup(t.ledger) then PopTo(c, t, LAST_SOUND_HEIGHT)
    else Ok(t)
  }

  /** The repair leaves alone every store but a writable mainnet one above block 202612 that lacks the key image. */
  lemma FixupLeavesAlone(c: Crypto, t: Tables, readOnly: bool)
    requires || readOnly
             || (t.ledger.blockInfo != []
                 && (|| t.ledger.blockInfo[0].hash != 0x418015bb9ae982a1975da7d79277c2705727a56894ba0fb246adaabb1f4632e3
                     || |t.ledger.blocks| <= 202612
                     || 0x121bf6ae1596983b703d62fecf60ea7dd3c3909acf1e0911652e7dadb420ed12 in t.ledger.spentKeys))
    ensures Fixup(c, t, readOnly) == Ok(t)
  {
  }

  /**
    * Popping back gets through if and only if the places of all outputs of the blocks to be popped
    * are distinct and held; it leaves the ledger of the chain's first blocks.
    */
  lemma {:induction false} PopToIff(c: Crypto, chain: seq<Entry>, now: Tables, missing: set<KeyImage>, height: nat)
    requires ReplayLedger(c, chain).Ok? && now.ledger == Drop(ReplayLedger(c, chain).value, missing)
    requires Linked(now.outputs) && ChainFiled(now.outputs, chain) && height <= |chain|
    ensures PopTo(c, now, height).Ok? <==> Fits(now.outputs, ChainLookups(now.outputs, chain, height))
    ensures ReplayLedger(c, chain[..height]).Ok?
    ensures PopTo(c, now, height).Ok? ==>
              PopTo(c, now, height).value.ledger == Drop(ReplayLedger(c, chain[..height]).value, missing)
    decreases |chain|
  {
    hide PopBlock, AddBlockToLedger, Linked, Fits, Taken, BlockFiled, BlockLookups;
    ReplayedHeight(c, chain);
    if |chain| == height {
      assert chain[..height] == chain;
      NothingTaken(now.outputs);
    } else {
      assert ButLast(chain)[..height] == chain[..height];
      ShorterReplayed(c, chain, height);
      PopTopIff(c, chain, now, missing);
      var places, rest := TopLookups(now.outputs, chain), ChainLookups(now.outputs, ButLast(chain), height);
      if PopBlock(c, now).Ok? {
        var t' := PopBlock(c, now).value.tables;
        PopToIff(c, ButLast(chain), t', missing, height);
        LookupsSame(now.outputs, t'.outputs, ButLast(chain), height);
        FitsSplit(now.outputs, t'.outputs, places, rest);
      } else if Fits(now.outputs, places + rest) {
        FitsFront(now.outputs, places, rest);
      }
    }
  }

  /** Popping back an agreeing chain gets through and leaves exactly the tables of its first blocks. */
  lemma {:induction false} PopToTables(c: Crypto, chain: seq<Entry>, missing: set<KeyImage>, height: nat)
    requires Replay(c, chain).Ok? && ChainAgrees(chain) && height <= |chain|
    ensures Replay(c, chain[..height]).Ok?
    ensures var t, t' := Replay(c, chain).value, Replay(c, chain[..height]).value;
            PopTo(c, Tables(Drop(t.ledger, missing), t.outputs), height) == Ok(Tables(Drop(t'.ledger, missing), t'.outputs))
    decreases |chain|
  {
    hide PopBlock, AddBlock, AllAgree, Reversed;
    ReplayWellFormed(c, chain);
    ReplayedHeight(c, chain);
    if |chain| == height {
      assert chain[..height] == chain;
    } else {
      PopFromAgreeingChain(c, chain, missing);
      assert ButLast(chain)[..height] == chain[..height];
      PopToTables(c, ButLast(chain), missing, height);
    }
  }

  lemma {:induction false} ShorterReplayed(c: Crypto, chain: seq<Entry>, height: nat)
    requires ReplayLedger(c, chain).Ok? && height <= |chain|
    ensures ReplayLedger(c, chain[..height]).Ok?
  {
    hide AddBlockToLedger;
    if height == |chain| {
      assert chain[..height] == chain;
    } else {
      ShorterReplayed(c, chain[..|chain| - 1], height);
      assert chain[..|chain| - 1][..height] == chain[..height];
    }
  }

  lemma NothingMissing(c: Crypto, chain: seq<Entry>, missing: set<KeyImage>)
    requires ReplayLedger(c, chain).Ok? && missing !! ChainImages(chain)
    ensures Drop(ReplayLedger(c, chain).value, missing) == ReplayLedger(c, chain).value
  {
    hide ReplayLedger, ChainImages;
    ReplaySpends(c, chain);
    var l := ReplayLedger(c, chain).value;
    assert l.spentKeys - missing == l.spentKeys;
  }

  /**
    * A store that lacks key images only from block 202612 on gets through the repair if and only if
    * the places of the outputs to be popped are distinct and held. Its blocks, transactions and spent
    * keys are then those of the chain's first 202612 blocks.
    */
  lemma FixupRepairsLedger(c: Crypto, chain: seq<Entry>, now: Tables, missing: set<KeyImage>)
    requires ReplayLedger(c, chain).Ok? && now.ledger == Drop(ReplayLedger(c, chain).value, missing)
    requires Linked(now.outputs) && ChainFiled(now.outputs, chain) && NeedsFixup(now.ledger)
    requires |chain| >= 202612 && missing !! ChainImages(chain[..202612])
    ensures Fixup(c, now, false).Ok? <==> Fits(now.outputs, ChainLookups(now.outputs, chain, 202612))
    ensures Fixup(c, now, false).Ok? ==>
              ReplayLedger(c, chain[..202612]) == Ok(Fixup(c, now, false).value.ledger)
  {
    hide PopTo, ChainImages, Linked, ChainFiled, Fits, ChainLookups, ReplayLedger;
    PopToIff(c, chain, now, missing, 202612);
    NothingMissing(c, chain[..202612], missing);
  }

  /** The same for every table, for a chain of agreeing blocks; the repair then always gets through. */
  lemma FixupRepairs(c: Crypto, chain: seq<Entry>, missing: set<KeyImage>)
    requires Replay(c, chain).Ok? && ChainAgrees(chain)
    requires NeedsFixup(Drop(Replay(c, chain).value.ledger, missing))
    requires |chain| >= 202612 && missing !! ChainImages(chain[..202612])
    ensures var t := Replay(c, chain).value;
            Fixup(c, Tables(Drop(t.ledger, missing), t.outputs), false) == Replay(c, chain[..202612])
  {
    hide PopTo, ChainImages, ChainAgrees, Replay, ReplayLedger, WellFormed;
    PopToTables(c, chain, missing, 202612);
    ReplayWellFormed(c, chain[..202612]);
    NothingMissing(c, chain[..202612], missing);
  }
}
