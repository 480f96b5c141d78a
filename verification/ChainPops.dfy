/** Which pops succeed, and what they remove, in runs of any blocks at all. */
module ChainPops {
  import opened ChainTables
  import opened ChainSteps
  import opened ChainUndo
  import opened ChainBlocks
  import opened ChainRemovals
  import opened ChainRuns

  /** The number of transactions on the chain. */
  function TxTotal(chain: seq<Entry>): nat {
    if chain == [] then 0 else TxTotal(ButLast(chain)) + |chain[|chain| - 1].txs| + 1
  }

  lemma {:induction false} ReplayNumbers(c: Crypto, chain: seq<Entry>)
    requires ReplayLedger(c, chain).Ok?
    ensures |ReplayLedger(c, chain).value.txsPruned| == TxTotal(chain)
  {
    hide AddTxsToLedger, NumRctOuts;
    if chain != [] {
      ReplayNumbers(c, ButLast(chain));
      var e := chain[|chain| - 1];
      TxsNumbered(c, ReplayLedger(c, ButLast(chain)).value, e, |e.txs|);
    }
  }

  /** The amount indices of every transaction on the chain are filed. */
  predicate ChainFiled(o: Outputs, chain: seq<Entry>) {
    chain != [] ==>
      var e := chain[|chain| - 1];
      ChainFiled(o, ButLast(chain)) && BlockFiled(o, e, TxTotal(ButLast(chain)), |e.txs|)
  }

  /** The places of the top block's outputs. */
  function TopLookups(o: Outputs, chain: seq<Entry>): seq<Place>
    requires chain != [] && ChainFiled(o, chain)
  {
    BlockLookups(o, chain[|chain| - 1], TxTotal(ButLast(chain)))
  }

  /** The places of the outputs of all blocks from `height` on, in the order pops go through them. */
  function ChainLookups(o: Outputs, chain: seq<Entry>, height: nat): seq<Place>
    requires ChainFiled(o, chain)
  {
    if |chain| <= height then [] else TopLookups(o, chain) + ChainLookups(o, ButLast(chain), height)
  }

  lemma {:induction false} FiledStays(o: Outputs, o': Outputs, chain: seq<Entry>)
    requires ChainFiled(o, chain) && Untouched(o, o', TxTotal(chain) - 1)
    ensures ChainFiled(o', chain)
  {
    if chain != [] {
      var e, first := chain[|chain| - 1], TxTotal(ButLast(chain));
      FiledStays(o, o', ButLast(chain));
      forall j | 0 <= j <= |e.txs| ensures Filed(o', first + j, TxAt(e, j).base) {
        assert Filed(o, first + j, TxAt(e, j).base);
      }
    }
  }

  lemma {:induction false} LookupsSame(o: Outputs, o': Outputs, chain: seq<Entry>, height: nat)
    requires ChainFiled(o, chain) && Untouched(o, o', TxTotal(chain) - 1)
    ensures ChainFiled(o', chain) && ChainLookups(o', chain, height) == ChainLookups(o, chain, height)
  {
    FiledStays(o, o', chain);
    if |chain| > height {
      LookupsSame(o, o', ButLast(chain), height);
      TopSame(o, o', chain);
    }
  }

  lemma TopSame(o: Outputs, o': Outputs, chain: seq<Entry>)
    requires chain != [] && ChainFiled(o, chain) && ChainFiled(o', chain) && Untouched(o, o', TxTotal(chain) - 1)
    ensures TopLookups(o', chain) == TopLookups(o, chain)
  {
    hide Lookups, OthersLookups;
    var e, first := chain[|chain| - 1], TxTotal(ButLast(chain));
    OthersSame(o, o', e, first, |e.txs|);
    assert Filed(o, first + 0, TxAt(e, 0).base) && Filed(o', first + 0, TxAt(e, 0).base);
  }

  /** Popping the top block of a chain, some key images possibly missing. */
  lemma PopTopIff(c: Crypto, chain: seq<Entry>, now: Tables, missing: set<KeyImage>)
    requires chain != [] && ReplayLedger(c, chain).Ok? && now.ledger == Drop(ReplayLedger(c, chain).value, missing)
    requires Linked(now.outputs) && ChainFiled(now.outputs, chain)
    ensures ReplayLedger(c, ButLast(chain)).Ok?
    ensures PopBlock(c, now).Ok? <==> Fits(now.outputs, TopLookups(now.outputs, chain))
    ensures PopBlock(c, now).Ok? ==>
              var t' := PopBlock(c, now).value.tables;
              && t'.ledger == Drop(ReplayLedger(c, ButLast(chain)).value, missing)
              && Linked(t'.outputs) && ChainFiled(t'.outputs, ButLast(chain))
              && Taken(now.outputs, t'.outputs, TopLookups(now.outputs, chain))
              && Untouched(now.outputs, t'.outputs, TxTotal(ButLast(chain)) - 1)
  {
    hide AddBlockToLedger, PopBlock, Linked, Fits, Taken, BlockLookups, BlockFiled, Untouched;
    var before, e := ButLast(chain), chain[|chain| - 1];
    ReplayedHeight(c, before);
    ReplayNumbers(c, before);
    PopBlockIff(c, ReplayLedger(c, before).value, e, now, missing);
    if PopBlock(c, now).Ok? {
      FiledStays(now.outputs, PopBlock(c, now).value.tables.outputs, before);
    }
  }

  lemma AddTopFiled(c: Crypto, t: Tables, chain: seq<Entry>, e: Entry)
    requires Linked(t.outputs) && ChainFiled(t.outputs, chain) && |t.ledger.txsPruned| == TxTotal(chain)
    requires AddBlock(c, t, e).Ok?
    ensures Linked(AddBlock(c, t, e).value.outputs) && ChainFiled(AddBlock(c, t, e).value.outputs, chain + [e])
  {
    hide AddTxs, Linked, BlockFiled;
    TxsKeepLinked(c, t, e, |e.txs|);
    FiledStays(t.outputs, AddBlock(c, t, e).value.outputs, chain);
    assert ButLast(chain + [e]) == chain;
  }

  /** After any run, lists rise, global numbers are unique, and the chain's amount indices are filed. */
  lemma {:induction false} RunStaysLinked(c: Crypto, ops: seq<Op>)
    ensures Linked(Run(c, ops).tables.outputs) && ChainFiled(Run(c, ops).tables.outputs, Run(c, ops).chain)
  {
    hide AddBlock, PopBlock, Linked, Taken, BlockFiled, BlockLookups, ChainFiled;
    if ops == [] {
      EmptyIsLinked();
    } else {
      var before := ops[..|ops| - 1];
      RunStaysLinked(c, before);
      RunLedger(c, before);
      var s := Run(c, before);
      ReplayNumbers(c, s.chain);
      match ops[|ops| - 1]
      case Add(e) =>
        if AddBlock(c, s.tables, e).Ok? {
          AddTopFiled(c, s.tables, s.chain, e);
        }
      case Pop =>
        if PopBlock(c, s.tables).Ok? {
          PopNeedsBlock(c, s.tables);
          ReplayedHeight(c, s.chain);
          assert Drop(s.tables.ledger, {}) == s.tables.ledger;
          PopTopIff(c, s.chain, s.tables, {});
        }
    }
  }

  lemma EmptyIsLinked()
    ensures Linked(EMPTY.outputs) && ChainFiled(EMPTY.outputs, [])
  {
  }

  /**
    * After any run at all, a pop succeeds if and only if there is a block and the places its outputs
    * are looked for are distinct and held.
    */
  lemma RunPopIff(c: Crypto, ops: seq<Op>)
    ensures var s := Run(c, ops);
            && ChainFiled(s.tables.outputs, s.chain)
            && (PopBlock(c, s.tables).Ok? <==>
                  s.chain != [] && Fits(s.tables.outputs, TopLookups(s.tables.outputs, s.chain)))
            && (PopBlock(c, s.tables).Ok? ==>
                  Taken(s.tables.outputs, PopBlock(c, s.tables).value.tables.outputs, TopLookups(s.tables.outputs, s.chain)))
  {
    hide Run, PopBlock, Linked, Fits, Taken, ChainFiled, TopLookups;
    RunStaysLinked(c, ops);
    RunLedger(c, ops);
    var s := Run(c, ops);
    if s.chain != [] {
      assert Drop(s.tables.ledger, {}) == s.tables.ledger;
      PopTopIff(c, s.chain, s.tables, {});
    } else if PopBlock(c, s.tables).Ok? {
      PopNeedsBlock(c, s.tables);
    }
  }

  /** After any run at all, the `n`-th removal of a pop takes the transaction that was added last. */
  lemma RunRemovesLatest(c: Crypto, ops: seq<Op>, n: nat)
    requires Run(c, ops).chain != [] && n <= |Run(c, ops).chain[|Run(c, ops).chain| - 1].txs|
    ensures var s := Run(c, ops); var e := s.chain[|s.chain| - 1]; var before := ReplayLedger(c, ButLast(s.chain));
            && before.Ok? && SizesMatch(e) && AddTxsToLedger(c, before.value, e, n).Ok?
            && RemoveBlock(s.tables.ledger) == AddTxsToLedger(c, before.value, e, |e.txs|)
            && var l := AddTxsToLedger(c, before.value, e, n).value;
            && IsLatest(l, HashAt(c, e.blk, n))
            && RemoveTxFromLedger(l, HashAt(c, e.blk, n))
               == if n == 0 then before else AddTxsToLedger(c, before.value, e, n - 1)
  {
    hide Run, AddTxsToLedger, IsLatest, RemoveTxFromLedger, RemoveBlock, NumRctOuts;
    RunLedger(c, ops);
    var s := Run(c, ops);
    var e := s.chain[|s.chain| - 1];
    var before := ReplayLedger(c, ButLast(s.chain)).value;
    ReplayedHeight(c, ButLast(s.chain));
    LedgerTxsKeep(c, before, e, |e.txs|);
    var added := AddTxsToLedger(c, before, e, |e.txs|).value;
    BlockDataUndone(added, e.blk, e.meta, NumRctOuts(e, |e.txs|), c.blockHash(e.blk), {});
    assert Drop(s.tables.ledger, {}) == s.tables.ledger && Drop(added, {}) == added;
    EarlierAdded(c, before, e, |e.txs|, n);
    RemovalIsLatest(c, before, e, n);
  }

  lemma {:induction false} EarlierAdded(c: Crypto, l: Ledger, e: Entry, m: nat, n: nat)
    requires SizesMatch(e) && n <= m <= |e.txs| && AddTxsToLedger(c, l, e, m).Ok?
    ensures AddTxsToLedger(c, l, e, n).Ok?
    decreases m
  {
    hide AddTxToLedger;
    if n < m {
      EarlierAdded(c, l, e, m - 1, n);
    }
  }
}
