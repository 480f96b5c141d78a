/** Whole runs of additions and pops, and the repair of old stores. */
module ChainRuns {
  import opened Basics
  import opened ChainTables
  import opened ChainSteps
  import opened ChainUndo
  import opened ChainBlocks
  import opened ChainRct
  import opened ChainAdmission

  datatype Op = Add(e: Entry) | Pop

  /** The store together with the blocks that are on the chain. */
  datatype State = State(tables: Tables, chain: seq<Entry>)

  function ButLast<T>(s: seq<T>): seq<T> {
    if s == [] then [] else s[..|s| - 1]
  }

  /** An operation that fails is rolled back by the surrounding database transaction. */
  function Step(c: Crypto, s: State, op: Op): State {
    match op
    case Add(e) =>
      (match AddBlock(c, s.tables, e)
       case Err(_) => s
       case Ok(t) => State(t, s.chain + [e]))
    case Pop =>
      (match PopBlock(c, s.tables)
       case Err(_) => s
       case Ok(p) => State(p.tables, ButLast(s.chain)))
  }

  function Run(c: Crypto, ops: seq<Op>): State {
    if ops == [] then State(EMPTY, []) else Step(c, Run(c, ops[..|ops| - 1]), ops[|ops| - 1])
  }

  /** The tables obtained by adding the blocks of the chain one after the other. */
  function Replay(c: Crypto, chain: seq<Entry>): Result<Tables> {
    if chain == [] then Ok(EMPTY)
    else
      match Replay(c, chain[..|chain| - 1])
      case Err(x) => Err(x)
      case Ok(t) => AddBlock(c, t, chain[|chain| - 1])
  }

  function ReplayLedger(c: Crypto, chain: seq<Entry>): Result<Ledger> {
    if chain == [] then Ok(EMPTY.ledger)
    else
      match ReplayLedger(c, chain[..|chain| - 1])
      case Err(x) => Err(x)
      case Ok(l) => AddBlockToLedger(c, l, chain[|chain| - 1])
  }

  // ----- Every run keeps the ledger equal to that of its chain -----

  lemma BlockOnLedger(c: Crypto, l: Ledger, e: Entry)
    requires |l.blockInfo| == |l.blocks| && AddBlockToLedger(c, l, e).Ok?
    ensures var l' := AddBlockToLedger(c, l, e).value;
            |l'.blockInfo| == |l'.blocks| && l'.blocks == l.blocks + [e.blk]
  {
    hide AddTxsToLedger;
    LedgerTxsKeep(c, l, e, |e.txs|);
  }

  lemma {:induction false} ReplayedHeight(c: Crypto, chain: seq<Entry>)
    requires ReplayLedger(c, chain).Ok?
    ensures var l := ReplayLedger(c, chain).value; |l.blockInfo| == |l.blocks| == |chain|
  {
    hide AddBlockToLedger;
    if chain != [] {
      ReplayedHeight(c, ButLast(chain));
      BlockOnLedger(c, ReplayLedger(c, ButLast(chain)).value, chain[|chain| - 1]);
    }
  }

  lemma ReplayExtended(c: Crypto, chain: seq<Entry>, e: Entry)
    ensures Replay(c, chain).Ok? ==> Replay(c, chain + [e]) == AddBlock(c, Replay(c, chain).value, e)
    ensures ReplayLedger(c, chain).Ok? ==> ReplayLedger(c, chain + [e]) == AddBlockToLedger(c, ReplayLedger(c, chain).value, e)
  {
    hide AddBlock, AddBlockToLedger;
    assert (chain + [e])[..|chain|] == chain;
  }

  /** Popping the top block of a chain, some key images possibly missing, leaves the ledger of the shorter chain. */
  lemma PopFromChain(c: Crypto, chain: seq<Entry>, now: Tables, missing: set<KeyImage>)
    requires ReplayLedger(c, chain).Ok? && now.ledger == Drop(ReplayLedger(c, chain).value, missing) && PopBlock(c, now).Ok?
    ensures chain != [] && ReplayLedger(c, ButLast(chain)).Ok?
    ensures var p := PopBlock(c, now).value;
            && p.tables.ledger == Drop(ReplayLedger(c, ButLast(chain)).value, missing)
            && p.blk == chain[|chain| - 1].blk && p.txs == Reversed(chain[|chain| - 1].txs)
  {
    hide AddBlockToLedger, PopBlock, Reversed;
    ReplayedHeight(c, chain);
    PopNeedsBlock(c, now);
    ReplayedHeight(c, ButLast(chain));
    PopRestoresLedger(c, ReplayLedger(c, ButLast(chain)).value, chain[|chain| - 1], now, missing);
  }

  lemma PopNeedsBlock(c: Crypto, t: Tables)
    requires PopBlock(c, t).Ok?
    ensures t.ledger.blocks != []
  {
  }

  /** After any run at all, blocks, transactions and spent keys are those of the chain. */
  lemma {:induction false} RunLedger(c: Crypto, ops: seq<Op>)
    ensures ReplayLedger(c, Run(c, ops).chain) == Ok(Run(c, ops).tables.ledger)
  {
    hide AddBlock, AddBlockToLedger, PopBlock, Reversed;
    if ops != [] {
      RunLedger(c, ops[..|ops| - 1]);
      var s := Run(c, ops[..|ops| - 1]);
      match ops[|ops| - 1]
      case Add(e) =>
        if AddBlock(c, s.tables, e).Ok? {
          LedgerOfBlock(c, s.tables, e);
          ReplayExtended(c, s.chain, e);
        }
      case Pop =>
        if PopBlock(c, s.tables).Ok? {
          assert Drop(s.tables.ledger, {}) == s.tables.ledger;
          PopFromChain(c, s.chain, s.tables, {});
          var l := ReplayLedger(c, ButLast(s.chain)).value;
          assert Drop(l, {}) == l;
        }
    }
  }

  // ----- Spent keys -----

  function BlockImages(e: Entry, n: nat): set<KeyImage>
    requires n <= |e.txs|
  {
    Images(TxAt(e, n).base.vin) + if n == 0 then {} else BlockImages(e, n - 1)
  }

  /** The key images of all inputs of all transactions on the chain. */
  function ChainImages(chain: seq<Entry>): set<KeyImage> {
    if chain == [] then {} else ChainImages(chain[..|chain| - 1]) + BlockImages(chain[|chain| - 1], |chain[|chain| - 1].txs|)
  }

  lemma {:induction false} TxsSpend(c: Crypto, l: Ledger, e: Entry, n: nat)
    requires SizesMatch(e) && n <= |e.txs| && AddTxsToLedger(c, l, e, n).Ok?
    ensures AddTxsToLedger(c, l, e, n).value.spentKeys == l.spentKeys + BlockImages(e, n)
    ensures l.spentKeys !! BlockImages(e, n)
  {
    hide AddTxToLedger, IsLatest, Images, GetPrunedTx, GetPrunablePart;
    if n == 0 {
      TxLedgerAdded(c, l, TxAt(e, 0), HashAt(c, e.blk, 0));
    } else {
      TxsSpend(c, l, e, n - 1);
      TxLedgerAdded(c, AddTxsToLedger(c, l, e, n - 1).value, TxAt(e, n), HashAt(c, e.blk, n));
    }
  }

  lemma {:induction false} ReplaySpends(c: Crypto, chain: seq<Entry>)
    requires ReplayLedger(c, chain).Ok?
    ensures ReplayLedger(c, chain).value.spentKeys == ChainImages(chain)
  {
    hide AddTxsToLedger, BlockImages, NumRctOuts;
    if chain != [] {
      ReplaySpends(c, chain[..|chain| - 1]);
      var e := chain[|chain| - 1];
      TxsSpend(c, ReplayLedger(c, chain[..|chain| - 1]).value, e, |e.txs|);
    }
  }

  /** After any run at all, a key image is spent if and only if some transaction on the chain has it as input. */
  lemma SpentKeysAreChainImages(c: Crypto, ops: seq<Op>)
    ensures Run(c, ops).tables.ledger.spentKeys == ChainImages(Run(c, ops).chain)
  {
    hide Run, ChainImages, ReplayLedger;
    RunLedger(c, ops);
    ReplaySpends(c, Run(c, ops).chain);
  }

  // ----- Runs of agreeing blocks keep all tables -----

  predicate OpsAgree(ops: seq<Op>) {
    forall i :: 0 <= i < |ops| && ops[i].Add? ==> AllAgree(ops[i].e)
  }

  predicate ChainAgrees(chain: seq<Entry>) {
    forall i :: 0 <= i < |chain| ==> AllAgree(chain[i])
  }

  lemma {:induction false} ReplayWellFormed(c: Crypto, chain: seq<Entry>)
    requires Replay(c, chain).Ok?
    ensures WellFormed(Replay(c, chain).value) && ReplayLedger(c, chain) == Ok(Replay(c, chain).value.ledger)
  {
    hide AddBlock, AddBlockToLedger;
    if chain != [] {
      ReplayWellFormed(c, chain[..|chain| - 1]);
      var t := Replay(c, chain[..|chain| - 1]).value;
      BlockAdded(c, t, chain[|chain| - 1]);
      LedgerOfBlock(c, t, chain[|chain| - 1]);
    }
  }

  /** Popping the top block of an agreeing chain succeeds and leaves the tables of the shorter chain. */
  lemma PopFromAgreeingChain(c: Crypto, chain: seq<Entry>, missing: set<KeyImage>)
    requires chain != [] && Replay(c, chain).Ok? && AllAgree(chain[|chain| - 1])
    ensures Replay(c, ButLast(chain)).Ok?
    ensures var t, t' := Replay(c, chain).value, Replay(c, ButLast(chain)).value;
            PopBlock(c, Tables(Drop(t.ledger, missing), t.outputs))
            == Ok(Popped(Tables(Drop(t'.ledger, missing), t'.outputs), chain[|chain| - 1].blk, Reversed(chain[|chain| - 1].txs)))
  {
    hide AddBlock, PopBlock, Reversed, WellFormed, AllAgree;
    ReplayWellFormed(c, ButLast(chain));
    PopUndoesAddDespite(c, Replay(c, ButLast(chain)).value, chain[|chain| - 1], missing);
  }

  /** After any run of agreeing blocks, every table is as if the chain's blocks had been added and nothing else. */
  lemma {:induction false} RunIsReplay(c: Crypto, ops: seq<Op>)
    requires OpsAgree(ops)
    ensures Replay(c, Run(c, ops).chain) == Ok(Run(c, ops).tables) && ChainAgrees(Run(c, ops).chain)
  {
    hide AddBlock, PopBlock, Reversed, AllAgree;
    if ops != [] {
      var before := ops[..|ops| - 1];
      assert forall i :: 0 <= i < |before| ==> before[i] == ops[i];
      RunIsReplay(c, before);
      var s := Run(c, before);
      match ops[|ops| - 1]
      case Add(e) =>
        if AddBlock(c, s.tables, e).Ok? {
          ReplayExtended(c, s.chain, e);
        }
      case Pop =>
        if PopBlock(c, s.tables).Ok? {
          PoppedState(c, s);
        }
    }
  }

  lemma PoppedState(c: Crypto, s: State)
    requires Replay(c, s.chain) == Ok(s.tables) && ChainAgrees(s.chain) && PopBlock(c, s.tables).Ok?
    ensures Replay(c, ButLast(s.chain)) == Ok(PopBlock(c, s.tables).value.tables)
  {
    hide AddBlock, PopBlock, Reversed, AllAgree;
    ReplayWellFormed(c, s.chain);
    ReplayedHeight(c, s.chain);
    PopNeedsBlock(c, s.tables);
    PopFromAgreeingChain(c, s.chain, {});
    var t := Replay(c, ButLast(s.chain)).value;
    assert Drop(s.tables.ledger, {}) == s.tables.ledger && Drop(t.ledger, {}) == t.ledger;
  }

  /** In such a run, a pop succeeds exactly when the chain is not empty. */
  lemma PopSucceedsIff(c: Crypto, ops: seq<Op>)
    requires OpsAgree(ops)
    ensures PopBlock(c, Run(c, ops).tables).Ok? <==> Run(c, ops).chain != []
  {
    hide Run, AddBlock, PopBlock, Reversed, AllAgree;
    RunIsReplay(c, ops);
    var s := Run(c, ops);
    ReplayWellFormed(c, s.chain);
    ReplayedHeight(c, s.chain);
    if s.chain != [] {
      PopFromAgreeingChain(c, s.chain, {});
      assert Drop(s.tables.ledger, {}) == s.tables.ledger;
    } else if PopBlock(c, s.tables).Ok? {
      PopNeedsBlock(c, s.tables);
    }
  }

  lemma {:induction false} ReplayWellKept(c: Crypto, chain: seq<Entry>)
    requires Replay(c, chain).Ok?
    ensures WellKept(Replay(c, chain).value)
  {
    hide AddBlock, Admissible;
    if chain != [] {
      ReplayWellKept(c, chain[..|chain| - 1]);
      BlockAdmittedIff(c, Replay(c, chain[..|chain| - 1]).value, chain[|chain| - 1]);
    }
  }

  /** In such a run, a block is accepted exactly when it is admissible. */
  lemma AddSucceedsIff(c: Crypto, ops: seq<Op>, e: Entry)
    requires OpsAgree(ops)
    ensures AddBlock(c, Run(c, ops).tables, e).Ok? <==> Admissible(c, Run(c, ops).tables, e)
  {
    hide Run, AddBlock, Admissible, WellKept;
    RunIsReplay(c, ops);
    ReplayWellKept(c, Run(c, ops).chain);
    BlockAdmittedIff(c, Run(c, ops).tables, e);
  }

  // ----- The cumulative count of amount-0 outputs -----

  /** Only miner transactions generate, and the running count is not restarted once it has begun. */
  predicate CountsCarry(c: Crypto, chain: seq<Entry>)
    requires Replay(c, chain).Ok?
  {
    chain != [] ==>
      var before, e := chain[..|chain| - 1], chain[|chain| - 1];
      && CountsCarry(c, before) && OnlyMinerGenerates(e)
      && (e.blk.majorVersion >= 4 || ZeroCount(Replay(c, before).value.outputs) == 0)
  }

  lemma RecordedCount(c: Crypto, t: Tables, e: Entry)
    requires WellFormed(t) && AddBlock(c, t, e).Ok?
    ensures var l := AddBlock(c, t, e).value.ledger;
            && |l.blockInfo| == |t.ledger.blocks| + 1
            && l.blockInfo[|t.ledger.blocks|].cumRct
               == NumRctOuts(e, |e.txs|) + if e.blk.majorVersion >= 4 && t.ledger.blocks != []
                                           then t.ledger.blockInfo[|t.ledger.blocks| - 1].cumRct else 0
  {
    hide AddTxs, NumRctOuts, NoEmptyLists;
    TxsKeep(c, t, e, |e.txs|);
  }

  /** The count recorded with the top block is the number of outputs stored under amount 0. */
  lemma {:induction false} CumulativeCountIsExact(c: Crypto, chain: seq<Entry>)
    requires chain != [] && Replay(c, chain).Ok? && CountsCarry(c, chain)
    ensures var t := Replay(c, chain).value;
            |t.ledger.blockInfo| == |chain| && t.ledger.blockInfo[|chain| - 1].cumRct == ZeroCount(t.outputs)
  {
    hide AddBlock, NumRctOuts, ZeroCount, OnlyMinerGenerates, WellFormed;
    var before, e := chain[..|chain| - 1], chain[|chain| - 1];
    var t := Replay(c, before).value;
    ReplayWellFormed(c, before);
    ReplayedHeight(c, before);
    RecordedCount(c, t, e);
    RecordIsExact(c, t, e);
    if before != [] {
      CumulativeCountIsExact(c, before);
    } else {
      NothingStored();
    }
  }

  lemma NothingStored()
    ensures ZeroCount(EMPTY.outputs) == 0
  {
  }
}
