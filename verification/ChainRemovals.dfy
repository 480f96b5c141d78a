/** Exactly when a block can be popped, whatever its transactions: removal goes by amount and index. */
module ChainRemovals {
  import opened Basics
  import opened ChainTables
  import opened ChainSteps
  import opened ChainUndo
  import opened ChainBlocks

  /** Where an output is looked for: an amount, and an index under it. */
  type Place = (nat, nat)

  predicate Held(o: Outputs, p: Place) {
    exists k :: 0 <= k < |OutputsAt(o, p.0)| && OutputsAt(o, p.0)[k].amountIndex == p.1
  }

  // ----- Outputs and their global numbers -----

  predicate HasId(s: seq<OutTx>, id: nat) {
    exists q :: 0 <= q < |s| && s[q].outputId == id
  }

  predicate RisingIds(s: seq<OutTx>) {
    forall i, j :: 0 <= i < j < |s| ==> s[i].outputId < s[j].outputId
  }

  predicate Rising(s: seq<OutKey>) {
    forall i, j :: 0 <= i < j < |s| ==> s[i].amountIndex < s[j].amountIndex
  }

  /** No two outputs share a global number. */
  ghost predicate Owned(o: Outputs) {
    forall a: nat, b: nat, k, j | 0 <= k < |OutputsAt(o, a)| && 0 <= j < |OutputsAt(o, b)| ::
      OutputsAt(o, a)[k].outputId == OutputsAt(o, b)[j].outputId ==> a == b && k == j
  }

  ghost predicate Known(o: Outputs) {
    forall a: nat, k :: 0 <= k < |OutputsAt(o, a)| ==> HasId(o.outputTxs, OutputsAt(o, a)[k].outputId)
  }

  /** Lists rise, and every output has a global number of its own. */
  ghost predicate Linked(o: Outputs) {
    RisingIds(o.outputTxs) && (forall a: nat :: Rising(OutputsAt(o, a))) && Known(o) && Owned(o)
  }

  /** What one removal does to the tables. */
  lemma RemoveEffect(o: Outputs, a: nat, i: nat) returns (p: nat, q: nat)
    requires RemoveOutput(o, a, i).Ok?
    ensures p < |OutputsAt(o, a)| && OutputsAt(o, a)[p].amountIndex == i
    ensures q < |o.outputTxs| && o.outputTxs[q].outputId == OutputsAt(o, a)[p].outputId
    ensures var o' := RemoveOutput(o, a, i).value;
            && o'.outputTxs == Without(o.outputTxs, q) && o'.txOutputs == o.txOutputs
            && OutputsAt(o', a) == Without(OutputsAt(o, a), p)
            && forall b: nat :: b != a ==> OutputsAt(o', b) == OutputsAt(o, b)
  {
    p := FindOutKey(OutputsAt(o, a), i).value;
    q := FindOutTx(o.outputTxs, OutputsAt(o, a)[p].outputId).value;
  }

  lemma WithoutAt<T>(s: seq<T>, p: nat, k: nat)
    requires p < |s| && k < |s| - 1
    ensures Without(s, p)[k] == s[if k >= p then k + 1 else k]
  {
  }

  /** Where an output that is still there after a removal was before it. */
  lemma Before(o: Outputs, a: nat, i: nat, p: nat, b: nat, k: nat) returns (k': nat)
    requires RemoveOutput(o, a, i).Ok? && p < |OutputsAt(o, a)|
    requires var o' := RemoveOutput(o, a, i).value;
             && OutputsAt(o', a) == Without(OutputsAt(o, a), p)
             && (b != a ==> OutputsAt(o', b) == OutputsAt(o, b)) && k < |OutputsAt(o', b)|
    ensures k' == if b == a && k >= p then k + 1 else k
    ensures k' < |OutputsAt(o, b)| && OutputsAt(RemoveOutput(o, a, i).value, b)[k] == OutputsAt(o, b)[k']
  {
    hide RemoveOutput, OutputsAt;
    k' := if b == a && k >= p then k + 1 else k;
    if b == a {
      WithoutAt(OutputsAt(o, a), p, k);
    }
  }

  lemma RemovalKeepsKnown(o: Outputs, a: nat, i: nat)
    requires Known(o) && Owned(o) && RemoveOutput(o, a, i).Ok?
    ensures Known(RemoveOutput(o, a, i).value)
  {
    hide RemoveOutput, OutputsAt, Without, HasId;
    var p, q := RemoveEffect(o, a, i);
    var o' := RemoveOutput(o, a, i).value;
    forall b: nat, k | 0 <= k < |OutputsAt(o', b)|
      ensures HasId(o'.outputTxs, OutputsAt(o', b)[k].outputId)
    {
      var k' := Before(o, a, i, p, b, k);
      assert b != a || k' != p;
      StillThere(o.outputTxs, q, OutputsAt(o, b)[k'].outputId);
    }
  }

  lemma StillThere(s: seq<OutTx>, q: nat, id: nat)
    requires q < |s| && HasId(s, id) && id != s[q].outputId
    ensures HasId(Without(s, q), id)
  {
    var r :| 0 <= r < |s| && s[r].outputId == id;
    assert Without(s, q)[if r < q then r else r - 1].outputId == id;
  }

  lemma RemovalKeepsOwned(o: Outputs, a: nat, i: nat)
    requires Owned(o) && RemoveOutput(o, a, i).Ok?
    ensures Owned(RemoveOutput(o, a, i).value)
  {
    hide RemoveOutput, OutputsAt, Without;
    var p, q := RemoveEffect(o, a, i);
    var o' := RemoveOutput(o, a, i).value;
    forall b: nat, d: nat, k, j | 0 <= k < |OutputsAt(o', b)| && 0 <= j < |OutputsAt(o', d)|
      ensures OutputsAt(o', b)[k].outputId == OutputsAt(o', d)[j].outputId ==> b == d && k == j
    {
      var k' := Before(o, a, i, p, b, k);
      var j' := Before(o, a, i, p, d, j);
    }
  }

  lemma RemovalKeepsLinked(o: Outputs, a: nat, i: nat)
    requires Linked(o) && RemoveOutput(o, a, i).Ok?
    ensures Linked(RemoveOutput(o, a, i).value)
  {
    hide RemoveOutput, OutputsAt, Known, Owned;
    RemovalKeepsKnown(o, a, i);
    RemovalKeepsOwned(o, a, i);
    var p, q := RemoveEffect(o, a, i);
    var o' := RemoveOutput(o, a, i).value;
    forall b: nat ensures Rising(OutputsAt(o', b)) {
      assert Rising(OutputsAt(o, b));
    }
  }

  /** An output can be removed if and only if it is held where it is looked for; only that place changes. */
  lemma RemoveOutputIff(o: Outputs, a: nat, i: nat)
    requires Linked(o)
    ensures RemoveOutput(o, a, i).Ok? <==> Held(o, (a, i))
    ensures RemoveOutput(o, a, i).Ok? ==>
              && Linked(RemoveOutput(o, a, i).value) && RemoveOutput(o, a, i).value.txOutputs == o.txOutputs
              && Taken(o, RemoveOutput(o, a, i).value, [(a, i)])
  {
    hide Owned, OutputsAt;
    var s := OutputsAt(o, a);
    var found := FindOutKey(s, i);
    if found.Some? {
      assert HasId(o.outputTxs, s[found.value].outputId);
      assert FindOutTx(o.outputTxs, s[found.value].outputId).Some?;
      assert RemoveOutput(o, a, i).Ok?;
      RemovalKeepsLinked(o, a, i);
      RemovalTakes(o, a, i);
    }
  }

  /** From `o` to `o'`, exactly the given places have gone. */
  ghost predicate Taken(o: Outputs, o': Outputs, places: seq<Place>) {
    forall p: Place :: Held(o', p) <==> Held(o, p) && p !in places
  }

  lemma RemovalTakes(o: Outputs, a: nat, i: nat)
    requires (forall b: nat :: Rising(OutputsAt(o, b))) && RemoveOutput(o, a, i).Ok?
    ensures Taken(o, RemoveOutput(o, a, i).value, [(a, i)])
  {
    hide RemoveOutput, OutputsAt, Without;
    var p, q := RemoveEffect(o, a, i);
    var o' := RemoveOutput(o, a, i).value;
    forall x: Place
      ensures Held(o', x) <==> Held(o, x) && x !in [(a, i)]
    {
      if x.0 == a {
        assert Rising(OutputsAt(o, a));
        IndexTaken(OutputsAt(o, a), p, x.1);
      } else {
        assert OutputsAt(o', x.0) == OutputsAt(o, x.0);
      }
    }
  }

  lemma IndexTaken(s: seq<OutKey>, p: nat, index: nat)
    requires p < |s| && Rising(s)
    ensures (exists k :: 0 <= k < |Without(s, p)| && Without(s, p)[k].amountIndex == index)
            <==> (exists k :: 0 <= k < |s| && s[k].amountIndex == index) && index != s[p].amountIndex
  {
    var s' := Without(s, p);
    if k :| 0 <= k < |s'| && s'[k].amountIndex == index {
      assert s[if k >= p then k + 1 else k].amountIndex == index;
    }
    if k :| 0 <= k < |s| && s[k].amountIndex == index && k != p {
      assert s'[if k > p then k - 1 else k].amountIndex == index;
    }
  }

  // ----- Several removals -----

  /** The places are distinct and all held. */
  predicate Fits(o: Outputs, places: seq<Place>) {
    && (forall i :: 0 <= i < |places| ==> Held(o, places[i]))
    && (forall i, j :: 0 <= i < j < |places| ==> places[i] != places[j])
  }

  lemma FitsSplit(o: Outputs, o': Outputs, first: seq<Place>, rest: seq<Place>)
    requires Fits(o, first) && Taken(o, o', first)
    ensures Fits(o, first + rest) <==> Fits(o', rest)
  {
    hide Held;
    var all := first + rest;
    if Fits(o, all) {
      forall i | 0 <= i < |rest| ensures Held(o', rest[i]) {
        assert all[|first| + i] == rest[i];
        assert forall j :: 0 <= j < |first| ==> all[j] == first[j] && all[j] != all[|first| + i];
      }
      forall i, j | 0 <= i < j < |rest| ensures rest[i] != rest[j] {
        assert all[|first| + i] == rest[i] && all[|first| + j] == rest[j];
      }
    }
    if Fits(o', rest) {
      forall i | 0 <= i < |all| ensures Held(o, all[i]) {
        if i >= |first| {
          assert all[i] == rest[i - |first|];
        }
      }
      forall i, j | 0 <= i < j < |all| ensures all[i] != all[j] {
        if i < |first| <= j {
          assert all[j] == rest[j - |first|] && all[i] == first[i];
          assert Held(o', all[j]);
        } else if i >= |first| {
          assert all[i] == rest[i - |first|] && all[j] == rest[j - |first|];
        }
      }
    }
  }

  lemma FitsFront(o: Outputs, first: seq<Place>, rest: seq<Place>)
    requires Fits(o, first + rest)
    ensures Fits(o, first)
  {
    hide Held;
    var all := first + rest;
    assert forall i :: 0 <= i < |first| ==> first[i] == all[i];
  }

  lemma TakenOn(o: Outputs, o': Outputs, o'': Outputs, first: seq<Place>, rest: seq<Place>)
    requires Taken(o, o', first) && Taken(o', o'', rest)
    ensures Taken(o, o'', first + rest)
  {
    hide Held;
  }

  /** The places of the first `n` outputs of a transaction, the last of them first. */
  function Lookups(tx: TxBase, indices: seq<nat>, n: nat): seq<Place>
    requires n <= |tx.vout| && n <= |indices|
  {
    if n == 0 then [] else [(RemovedAmount(tx, n - 1), indices[n - 1])] + Lookups(tx, indices, n - 1)
  }

  lemma {:induction false} RemoveOutputsIff(o: Outputs, tx: TxBase, indices: seq<nat>, n: nat)
    requires Linked(o) && n <= |tx.vout| && n <= |indices|
    ensures RemoveOutputs(o, tx, indices, n).Ok? <==> Fits(o, Lookups(tx, indices, n))
    ensures RemoveOutputs(o, tx, indices, n).Ok? ==>
              var o' := RemoveOutputs(o, tx, indices, n).value;
              Linked(o') && o'.txOutputs == o.txOutputs && Taken(o, o', Lookups(tx, indices, n))
    decreases n
  {
    hide RemoveOutput, RemovedAmount, Linked, Held;
    if n > 0 {
      var place := (RemovedAmount(tx, n - 1), indices[n - 1]);
      RemoveOutputIff(o, place.0, place.1);
      var rest := Lookups(tx, indices, n - 1);
      if Held(o, place) {
        var o' := RemoveOutput(o, place.0, place.1).value;
        RemoveOutputsIff(o', tx, indices, n - 1);
        assert Fits(o, [place]);
        FitsSplit(o, o', [place], rest);
        if Fits(o', rest) {
          TakenOn(o, o', RemoveOutputs(o', tx, indices, n - 1).value, [place], rest);
        }
      } else {
        assert ([place] + rest)[0] == place;
      }
    }
  }

  /** The amount indices of the transaction numbered `id` are filed. */
  predicate Filed(o: Outputs, id: nat, tx: TxBase) {
    id in o.txOutputs && |o.txOutputs[id]| == |tx.vout|
  }

  function TxLookups(o: Outputs, id: nat, tx: TxBase): seq<Place>
    requires Filed(o, id, tx)
  {
    Lookups(tx, o.txOutputs[id], |tx.vout|)
  }

  lemma RemoveTxOutputsIff(o: Outputs, id: nat, tx: TxBase)
    requires Linked(o) && Filed(o, id, tx)
    ensures RemoveTxOutputs(o, id, tx).Ok? <==> Fits(o, TxLookups(o, id, tx))
    ensures RemoveTxOutputs(o, id, tx).Ok? ==>
              var o' := RemoveTxOutputs(o, id, tx).value;
              Linked(o') && o'.txOutputs == o.txOutputs - {id} && Taken(o, o', TxLookups(o, id, tx))
  {
    hide RemoveOutputs, Linked, Fits, Taken, Lookups;
    RemoveOutputsIff(o, tx, o.txOutputs[id], |tx.vout|);
    if RemoveTxOutputs(o, id, tx).Ok? {
      var o1 := RemoveOutputs(o, tx, o.txOutputs[id], |tx.vout|).value;
      IndicesDoNotMatter(o, o1, o1.txOutputs - {id}, TxLookups(o, id, tx));
    }
  }

  lemma IndicesDoNotMatter(o: Outputs, o': Outputs, m: map<nat, seq<nat>>, places: seq<Place>)
    ensures Linked(o') ==> Linked(o'.(txOutputs := m))
    ensures Taken(o, o', places) ==> Taken(o, o'.(txOutputs := m), places)
  {
    var o'' := o'.(txOutputs := m);
    assert forall a: nat :: OutputsAt(o'', a) == OutputsAt(o', a);
    assert forall p: Place :: Held(o'', p) <==> Held(o', p);
  }

  // ----- Adding keeps the links -----

  lemma AddOutputKeepsLinked(o: Outputs, hash: Hash, amount: nat, key: Option<Key>, localIndex: nat, unlockTime: nat,
                             height: nat, commitment: Option<Key>)
    requires Linked(o)
    requires AddOutput(o, hash, amount, key, localIndex, unlockTime, height, commitment).Ok?
    ensures var o' := AddOutput(o, hash, amount, key, localIndex, unlockTime, height, commitment).value;
            Linked(o') && o'.txOutputs == o.txOutputs
  {
    hide Known, Owned;
    var o' := AddOutput(o, hash, amount, key, localIndex, unlockTime, height, commitment).value;
    var s, s' := OutputsAt(o, amount), OutputsAt(o', amount);
    assert Rising(s) && s' == s + [s'[|s|]] && s'[|s|].outputId == NextOutputId(o);
    assert forall b: nat :: b != amount ==> OutputsAt(o', b) == OutputsAt(o, b);
    assert o'.outputTxs[|o.outputTxs|].outputId == NextOutputId(o);
    KnownStays(o, o', amount);
    OwnedStays(o, o', amount);
    forall b: nat ensures Rising(OutputsAt(o', b)) {
      assert Rising(OutputsAt(o, b));
    }
  }

  lemma KnownStays(o: Outputs, o': Outputs, amount: nat)
    requires Known(o) && |o'.outputTxs| == |o.outputTxs| + 1 && o.outputTxs == o'.outputTxs[..|o.outputTxs|]
    requires |OutputsAt(o', amount)| == |OutputsAt(o, amount)| + 1
    requires OutputsAt(o, amount) == OutputsAt(o', amount)[..|OutputsAt(o, amount)|]
    requires OutputsAt(o', amount)[|OutputsAt(o, amount)|].outputId == o'.outputTxs[|o.outputTxs|].outputId
    requires forall b: nat :: b != amount ==> OutputsAt(o', b) == OutputsAt(o, b)
    ensures Known(o')
  {
    hide OutputsAt;
    forall b: nat, k | 0 <= k < |OutputsAt(o', b)|
      ensures HasId(o'.outputTxs, OutputsAt(o', b)[k].outputId)
    {
      if b == amount && k == |OutputsAt(o, amount)| {
        assert o'.outputTxs[|o.outputTxs|].outputId == OutputsAt(o', b)[k].outputId;
      } else {
        assert OutputsAt(o', b)[k] == OutputsAt(o, b)[k];
        var id := OutputsAt(o, b)[k].outputId;
        assert HasId(o.outputTxs, id);
        var q :| 0 <= q < |o.outputTxs| && o.outputTxs[q].outputId == id;
        assert o'.outputTxs[q].outputId == id;
      }
    }
  }

  lemma OwnedStays(o: Outputs, o': Outputs, amount: nat)
    requires Known(o) && Owned(o) && RisingIds(o.outputTxs)
    requires |OutputsAt(o', amount)| == |OutputsAt(o, amount)| + 1
    requires OutputsAt(o, amount) == OutputsAt(o', amount)[..|OutputsAt(o, amount)|]
    requires OutputsAt(o', amount)[|OutputsAt(o, amount)|].outputId == NextOutputId(o)
    requires forall b: nat :: b != amount ==> OutputsAt(o', b) == OutputsAt(o, b)
    ensures Owned(o')
  {
    hide OutputsAt;
    var n := |OutputsAt(o, amount)|;
    forall b: nat, d: nat, k, j | 0 <= k < |OutputsAt(o', b)| && 0 <= j < |OutputsAt(o', d)|
      && OutputsAt(o', b)[k].outputId == OutputsAt(o', d)[j].outputId
      ensures b == d && k == j
    {
      if !(b == amount && k == n) {
        assert OutputsAt(o', b)[k] == OutputsAt(o, b)[k];
        OldId(o, b, k);
      }
      if !(d == amount && j == n) {
        assert OutputsAt(o', d)[j] == OutputsAt(o, d)[j];
        OldId(o, d, j);
      }
    }
  }

  lemma OldId(o: Outputs, a: nat, k: nat)
    requires Known(o) && RisingIds(o.outputTxs) && k < |OutputsAt(o, a)|
    ensures OutputsAt(o, a)[k].outputId < NextOutputId(o)
  {
    assert HasId(o.outputTxs, OutputsAt(o, a)[k].outputId);
  }

  /** Every entry of the first list is in the second. */
  predicate Extends(m: map<nat, seq<nat>>, m': map<nat, seq<nat>>) {
    forall id :: id in m ==> id in m' && m'[id] == m[id]
  }

  lemma {:induction false} OutputsKeepLinked(c: Crypto, o: Outputs, tx: TxBase, hash: Hash, height: nat, n: nat)
    requires Linked(o) && n <= |tx.vout| && AddOutputs(c, o, tx, hash, height, n).Ok?
    ensures var (o', indices) := AddOutputs(c, o, tx, hash, height, n).value;
            Linked(o') && o'.txOutputs == o.txOutputs && |indices| == n
  {
    hide AddOutput, Linked, StoredAmount, CommitmentOf;
    if n > 0 {
      OutputsKeepLinked(c, o, tx, hash, height, n - 1);
      AddOutputKeepsLinked(AddOutputs(c, o, tx, hash, height, n - 1).value.0, hash, StoredAmount(tx, n - 1),
                           tx.vout[n - 1].key, n - 1, tx.unlockTime, height, CommitmentOf(c, tx, n - 1));
    }
  }

  lemma TxKeepsLinked(c: Crypto, o: Outputs, tx: TxBase, hash: Hash, id: nat, height: nat)
    requires Linked(o) && AddTxToOutputs(c, o, tx, hash, id, height).Ok?
    ensures var o' := AddTxToOutputs(c, o, tx, hash, id, height).value;
            Linked(o') && Filed(o', id, tx) && Extends(o.txOutputs, o'.txOutputs)
  {
    hide AddOutputs, Linked, Taken;
    OutputsKeepLinked(c, o, tx, hash, height, |tx.vout|);
    var (o1, indices) := AddOutputs(c, o, tx, hash, height, |tx.vout|).value;
    IndicesDoNotMatter(o, o1, AddTxToOutputs(c, o, tx, hash, id, height).value.txOutputs, []);
  }

  // ----- Blocks -----

  /** The amount indices of the first transactions of a block are filed, from the number `first` on. */
  predicate BlockFiled(o: Outputs, e: Entry, first: nat, n: nat)
    requires n <= |e.txs|
  {
    forall j :: 0 <= j <= n ==> Filed(o, first + j, TxAt(e, j).base)
  }

  lemma {:induction false} TxsNumbered(c: Crypto, l: Ledger, e: Entry, n: nat)
    requires SizesMatch(e) && n <= |e.txs| && AddTxsToLedger(c, l, e, n).Ok?
    ensures |AddTxsToLedger(c, l, e, n).value.txsPruned| == |l.txsPruned| + n + 1
  {
    hide AddTxToLedger;
    var before := if n == 0 then l else AddTxsToLedger(c, l, e, n - 1).value;
    if n > 0 {
      TxsNumbered(c, l, e, n - 1);
    }
    OneMore(c, before, TxAt(e, n), HashAt(c, e.blk, n));
  }

  lemma OneMore(c: Crypto, l: Ledger, tx: Transaction, hash: Hash)
    requires AddTxToLedger(c, l, tx, hash).Ok?
    ensures |AddTxToLedger(c, l, tx, hash).value.txsPruned| == |l.txsPruned| + 1
  {
    hide Images;
    InputsAdded(l, tx.base.vin, |tx.base.vin|);
  }

  lemma {:induction false} TxsKeepLinked(c: Crypto, t: Tables, e: Entry, n: nat)
    requires Linked(t.outputs) && SizesMatch(e) && n <= |e.txs| && AddTxs(c, t, e, n).Ok?
    ensures var o' := AddTxs(c, t, e, n).value.outputs;
            Linked(o') && BlockFiled(o', e, |t.ledger.txsPruned|, n) && Extends(t.outputs.txOutputs, o'.txOutputs)
  {
    hide AddTxToLedger, AddTxToOutputs, Linked;
    var before := if n == 0 then t else AddTxs(c, t, e, n - 1).value;
    if n > 0 {
      TxsKeepLinked(c, t, e, n - 1);
      LedgerOfTxs(c, t, e, n - 1);
      TxsNumbered(c, t.ledger, e, n - 1);
    }
    TxKeepsLinked(c, before.outputs, TxAt(e, n).base, HashAt(c, e.blk, n), |before.ledger.txsPruned|, |before.ledger.blocks|);
  }

  /** The places of all transactions but the miner's, in the order a pop goes through them. */
  function OthersLookups(o: Outputs, e: Entry, first: nat, n: nat): seq<Place>
    requires n <= |e.txs| && BlockFiled(o, e, first, n)
  {
    if n == 0 then [] else TxLookups(o, first + n, TxAt(e, n).base) + OthersLookups(o, e, first, n - 1)
  }

  /** The places of all outputs of a block whose transactions are numbered from `first` on. */
  function BlockLookups(o: Outputs, e: Entry, first: nat): seq<Place>
    requires BlockFiled(o, e, first, |e.txs|)
  {
    OthersLookups(o, e, first, |e.txs|) + TxLookups(o, first, TxAt(e, 0).base)
  }

  lemma {:induction false} OthersSame(o: Outputs, o': Outputs, e: Entry, first: nat, n: nat)
    requires n <= |e.txs| && BlockFiled(o, e, first, n) && BlockFiled(o', e, first, n)
    requires forall j :: first <= j <= first + n && j in o.txOutputs && j in o'.txOutputs ==> o.txOutputs[j] == o'.txOutputs[j]
    ensures OthersLookups(o, e, first, n) == OthersLookups(o', e, first, n)
  {
    hide Lookups;
    if n > 0 {
      OthersSame(o, o', e, first, n - 1);
      assert Filed(o, first + n, TxAt(e, n).base) && Filed(o', first + n, TxAt(e, n).base);
    }
  }

  /** Entries numbered below `first` or at it are as they were. */
  predicate Untouched(o: Outputs, o': Outputs, first: int) {
    forall id :: id in o.txOutputs && id <= first ==> id in o'.txOutputs && o'.txOutputs[id] == o.txOutputs[id]
  }

  /** Removing one more transaction of the block. */
  lemma RemoveTxIff(c: Crypto, l: Ledger, tx: Transaction, hash: Hash, now: Tables, missing: set<KeyImage>)
    requires AddTxToLedger(c, l, tx, hash).Ok? && now.ledger == Drop(AddTxToLedger(c, l, tx, hash).value, missing)
    requires Linked(now.outputs) && Filed(now.outputs, |l.txsPruned|, tx.base)
    ensures GetPrunedTx(now.ledger, hash) == Some(tx.base)
    ensures RemoveTransaction(now, hash).Ok? <==> Fits(now.outputs, TxLookups(now.outputs, |l.txsPruned|, tx.base))
    ensures RemoveTransaction(now, hash).Ok? ==>
              var t' := RemoveTransaction(now, hash).value;
              && t'.ledger == Drop(l, missing) && Linked(t'.outputs)
              && t'.outputs.txOutputs == now.outputs.txOutputs - {|l.txsPruned|}
              && Taken(now.outputs, t'.outputs, TxLookups(now.outputs, |l.txsPruned|, tx.base))
  {
    hide AddTxToLedger, RemoveTxFromLedger, RemoveTxOutputs, Linked, Fits, Taken, TxLookups, Images, IsLatest, GetPrunablePart;
    TxLedgerAdded(c, l, tx, hash);
    TxLedgerUndone(c, l, tx, hash, missing);
    RemoveTxOutputsIff(now.outputs, |l.txsPruned|, tx.base);
  }

  /** The transactions but the miner's can be removed if and only if their places are distinct and held. */
  lemma {:induction false} PopTxsIff(c: Crypto, l: Ledger, e: Entry, n: nat, now: Tables, missing: set<KeyImage>,
                                     popped: seq<StoredTx>)
    requires SizesMatch(e) && n <= |e.txs| && AddTxsToLedger(c, l, e, n).Ok?
    requires now.ledger == Drop(AddTxsToLedger(c, l, e, n).value, missing)
    requires Linked(now.outputs) && BlockFiled(now.outputs, e, |l.txsPruned|, n)
    ensures var places := OthersLookups(now.outputs, e, |l.txsPruned|, n);
            && (PopTxs(now, e.blk.txHashes, n, popped).Ok? <==> Fits(now.outputs, places))
            && (PopTxs(now, e.blk.txHashes, n, popped).Ok? ==>
                  var o' := PopTxs(now, e.blk.txHashes, n, popped).value.0.outputs;
                  Linked(o') && Taken(now.outputs, o', places) && Untouched(now.outputs, o', |l.txsPruned|))
    decreases n
  {
    hide AddTxToLedger, RemoveTransaction, Linked, Fits, Taken, TxLookups, GetPrunablePart, GetPrunedTx, Filed;
    var first := |l.txsPruned|;
    if n > 0 {
      var hash, tx := HashAt(c, e.blk, n), TxAt(e, n);
      var before := AddTxsToLedger(c, l, e, n - 1).value;
      TxsNumbered(c, l, e, n - 1);
      RemoveTxIff(c, before, tx, hash, now, missing);
      var head := TxLookups(now.outputs, first + n, tx.base);
      var rest := OthersLookups(now.outputs, e, first, n - 1);
      if RemoveTransaction(now, hash).Ok? {
        var t' := RemoveTransaction(now, hash).value;
        StillFiled(now.outputs, t'.outputs, e, first, n);
        var popped' := popped + [StoredTx(tx.base, GetPrunablePart(now.ledger, hash))];
        PopTxsIff(c, l, e, n - 1, t', missing, popped');
        FitsSplit(now.outputs, t'.outputs, head, rest);
        if Fits(t'.outputs, rest) {
          TakenOn(now.outputs, t'.outputs, PopTxs(t', e.blk.txHashes, n - 1, popped').value.0.outputs, head, rest);
        }
      } else if Fits(now.outputs, head + rest) {
        FitsFront(now.outputs, head, rest);
      }
    } else {
      NothingTaken(now.outputs);
    }
  }

  lemma NothingTaken(o: Outputs)
    ensures Fits(o, []) && Taken(o, o, [])
  {
  }

  lemma StillFiled(o: Outputs, o': Outputs, e: Entry, first: nat, n: nat)
    requires 0 < n <= |e.txs| && BlockFiled(o, e, first, n) && o'.txOutputs == o.txOutputs - {first + n}
    ensures BlockFiled(o, e, first, n - 1) && BlockFiled(o', e, first, n - 1)
    ensures OthersLookups(o', e, first, n - 1) == OthersLookups(o, e, first, n - 1)
    ensures Untouched(o, o', first)
  {
    forall j | 0 <= j <= n - 1 ensures Filed(o', first + j, TxAt(e, j).base) {
      assert Filed(o, first + j, TxAt(e, j).base);
    }
    OthersSame(o, o', e, first, n - 1);
  }

  /**
    * A block can be popped if and only if the places its outputs are looked for are distinct and
    * all held; the pop then takes exactly those places, whoever's outputs they hold.
    */
  lemma PopBlockIff(c: Crypto, l: Ledger, e: Entry, now: Tables, missing: set<KeyImage>)
    requires |l.blockInfo| == |l.blocks| && AddBlockToLedger(c, l, e).Ok?
    requires now.ledger == Drop(AddBlockToLedger(c, l, e).value, missing)
    requires Linked(now.outputs) && BlockFiled(now.outputs, e, |l.txsPruned|, |e.txs|)
    ensures var places := BlockLookups(now.outputs, e, |l.txsPruned|);
            && (PopBlock(c, now).Ok? <==> Fits(now.outputs, places))
            && (PopBlock(c, now).Ok? ==>
                  var t' := PopBlock(c, now).value.tables;
                  && t'.ledger == Drop(l, missing) && Linked(t'.outputs) && Taken(now.outputs, t'.outputs, places)
                  && Untouched(now.outputs, t'.outputs, |l.txsPruned| - 1))
  {
    hide AddTxToLedger, RemoveTransaction, RemoveBlock, AddTxsToLedger, PopTxs, Reversed, NumRctOuts, Linked, Fits, Taken,
      TxLookups, OthersLookups, Filed;
    var n, first := |e.txs|, |l.txsPruned|;
    LedgerTxsKeep(c, l, e, n);
    var added := AddTxsToLedger(c, l, e, n).value;
    BlockDataUndone(added, e.blk, e.meta, NumRctOuts(e, n), c.blockHash(e.blk), missing);
    var now' := now.(ledger := Drop(added, missing));
    PopTxsIff(c, l, e, n, now', missing, []);
    var head, rest := OthersLookups(now.outputs, e, first, n), TxLookups(now.outputs, first, TxAt(e, 0).base);
    if PopTxs(now', e.blk.txHashes, n, []).Ok? {
      var t1 := PopTxs(now', e.blk.txHashes, n, []).value.0;
      TxsPopped(c, l, e, n, now', missing, []);
      MinerFirstInLedger(c, l, e);
      MinerFiled(now.outputs, t1.outputs, e, first);
      RemoveTxIff(c, l, e.blk.minerTx, HashAt(c, e.blk, 0), t1, missing);
      FitsSplit(now.outputs, t1.outputs, head, rest);
      if Fits(t1.outputs, rest) {
        TakenOn(now.outputs, t1.outputs, PopBlock(c, now).value.tables.outputs, head, rest);
      }
    } else if Fits(now.outputs, head + rest) {
      FitsFront(now.outputs, head, rest);
    }
  }

  lemma MinerFiled(o: Outputs, o': Outputs, e: Entry, first: nat)
    requires BlockFiled(o, e, first, |e.txs|) && Untouched(o, o', first)
    ensures Filed(o', first, TxAt(e, 0).base) && TxLookups(o', first, TxAt(e, 0).base) == TxLookups(o, first, TxAt(e, 0).base)
  {
    assert Filed(o, first + 0, TxAt(e, 0).base);
  }
}
