/**
 * LockedTXN, the scope guard around a database batch. Stopping a batch can be refused before
 * anything happens, or can fail in the commit, after which the batch is gone; both surface as
 * an exception that the guard swallows while staying active.
 */
module BatchGuards {
  import opened Basics

  type Write = nat

  /** An open batch: who opened it, the contents committed at that time, and the writes since. */
  datatype Batch = Batch(opener: nat, base: seq<Write>, writes: seq<Write>)

  datatype Db = Db(committed: seq<Write>, batch: Option<Batch>)

  datatype Guard = Guard(id: nat, batch: bool, active: bool)

  /** How batch_stop or batch_abort ends when a batch is in progress. */
  datatype Fate = Done | Refused | CommitFailed

  /** The end of a batch: whose call ended it, who had opened it, and what became of its writes. */
  datatype Ending = Ending(ender: nat, batch: Batch, kept: bool)

  // ----- The database -----

  function Started(db: Db, id: nat): Db {
    if db.batch.Some? then db else db.(batch := Some(Batch(id, db.committed, [])))
  }

  /** The database after batch_stop; None if the call threw before doing anything. */
  function Stopped(db: Db, fate: Fate): (r: Option<Db>)
    ensures r.Some? <==> db.batch.Some? && fate != Refused
  {
    if db.batch.None? || fate == Refused then None
    else if fate == CommitFailed then Some(Db(db.committed, None))
    else Some(Db(db.batch.value.base + db.batch.value.writes, None))
  }

  function Aborted(db: Db, fate: Fate): (r: Option<Db>)
    ensures r.Some? <==> db.batch.Some? && fate != Refused
  {
    if db.batch.None? || fate == Refused then None else Some(Db(db.committed, None))
  }

  class Database {
    var committed: seq<Write>
    var batch: Option<Batch>

    function State(): Db
      reads this
    {
      Db(committed, batch)
    }

    constructor ()
      ensures State() == Db([], None)
    {
      committed := [];
      batch := None;
    }

    method BatchStart(id: nat) returns (started: bool)
      modifies this
      ensures State() == Started(old(State()), id) && started == old(batch).None?
    {
      if batch.Some? {
        return false;
      }
      batch := Some(Batch(id, committed, []));
      return true;
    }

    method Put(w: Write)
      requires batch.Some?
      modifies this
      ensures committed == old(committed)
      ensures batch == Some(old(batch).value.(writes := old(batch).value.writes + [w]))
    {
      batch := Some(batch.value.(writes := batch.value.writes + [w]));
    }

    /** Commits the batch. A failing commit throws with the batch already cleaned up. */
    method BatchStop(fate: Fate) returns (threw: bool)
      modifies this
      ensures State() == (if Stopped(old(State()), fate).Some? then Stopped(old(State()), fate).value else old(State()))
      ensures threw <==> old(batch).None? || fate != Done
    {
      if batch.None? || fate == Refused {
        return true;
      }
      if fate == CommitFailed {
        batch := None;
        return true;
      }
      committed := batch.value.base + batch.value.writes;
      batch := None;
      return false;
    }

    method BatchAbort(fate: Fate) returns (threw: bool)
      modifies this
      ensures State() == (if Aborted(old(State()), fate).Some? then Aborted(old(State()), fate).value else old(State()))
      ensures threw <==> old(batch).None? || fate == Refused
    {
      if batch.None? || fate == Refused {
        return true;
      }
      batch := None;
      return false;
    }
  }

  // ----- The guard -----

  predicate Holds(g: Guard) {
    g.batch && g.active
  }

  function DbAfterCommit(db: Db, g: Guard, fate: Fate): Db {
    if Holds(g) && Stopped(db, fate).Some? then Stopped(db, fate).value else db
  }

  /** Only a stop that returns normally makes the guard inactive. */
  function GuardAfterCommit(db: Db, g: Guard, fate: Fate): Guard {
    if Holds(g) && db.batch.Some? && fate == Done then g.(active := false) else g
  }

  function DbAfterAbort(db: Db, g: Guard, fate: Fate): Db {
    if Holds(g) && Aborted(db, fate).Some? then Aborted(db, fate).value else db
  }

  function GuardAfterAbort(db: Db, g: Guard, fate: Fate): Guard {
    if Holds(g) && Aborted(db, fate).Some? then g.(active := false) else g
  }

  class LockedTxn {
    const db: Database
    const id: nat
    var batch: bool
    var active: bool

    function State(): Guard
      reads this
    {
      Guard(id, batch, active)
    }

    constructor (database: Database, serial: nat)
      modifies database
      ensures db == database && State() == Guard(serial, old(database.batch).None?, true)
      ensures database.State() == Started(old(database.State()), serial)
    {
      db := database;
      id := serial;
      batch := false;
      active := false;
      new;
      batch := db.BatchStart(serial);
      active := true;
    }

    method Commit(fate: Fate)
      modifies this, db
      ensures db.State() == DbAfterCommit(old(db.State()), old(State()), fate)
      ensures State() == GuardAfterCommit(old(db.State()), old(State()), fate)
    {
      if batch && active {
        var threw := db.BatchStop(fate);
        if !threw {
          active := false;
        }
      }
    }

    method Abort(fate: Fate)
      modifies this, db
      ensures db.State() == DbAfterAbort(old(db.State()), old(State()), fate)
      ensures State() == GuardAfterAbort(old(db.State()), old(State()), fate)
    {
      if batch && active {
        var threw := db.BatchAbort(fate);
        if !threw {
          active := false;
        }
      }
    }

    /** The destructor. */
    method Destroy(fate: Fate)
      modifies this, db
      ensures db.State() == DbAfterAbort(old(db.State()), old(State()), fate)
    {
      Abort(fate);
    }
  }

  // ----- Properly nested runs -----

  /** Calls name live guards by their depth; only the innermost guard can be destroyed. */
  datatype Op =
    | Create
    | Put(write: Write)
    | Commit(depth: nat, fate: Fate)
    | Abort(depth: nat, fate: Fate)
    | Destroy(fate: Fate)

  /** `lost` holds the guards whose commit failed; `endings` is the history of batch ends. */
  datatype World = World(db: Db, guards: seq<Guard>, next: nat, lost: set<nat>, endings: seq<Ending>)

  function Initial(contents: seq<Write>): World {
    World(Db(contents, None), [], 0, {}, [])
  }

  predicate Enabled(w: World, op: Op) {
    match op
    case Create => true
    case Put(_) => w.db.batch.Some?
    case Commit(k, _) => k < |w.guards|
    case Abort(k, _) => k < |w.guards|
    case Destroy(_) => w.guards != []
  }

  /** The guard whose member function the call runs. */
  function Called(w: World, op: Op): Guard
    requires Enabled(w, op) && !op.Create? && !op.Put?
  {
    match op
    case Commit(k, _) => w.guards[k]
    case Abort(k, _) => w.guards[k]
    case Destroy(_) => w.guards[|w.guards| - 1]
  }

  /** The call ends the batch in progress. */
  predicate Ends(w: World, op: Op)
    requires Enabled(w, op)
  {
    !op.Create? && !op.Put? && Holds(Called(w, op)) && w.db.batch.Some? && op.fate != Refused
  }

  function EndingOf(w: World, op: Op): Ending
    requires Enabled(w, op) && Ends(w, op)
  {
    Ending(Called(w, op).id, w.db.batch.value, op.Commit? && op.fate == Done)
  }

  function Step(w: World, op: Op): World
    requires Enabled(w, op)
  {
    var endings := if Ends(w, op) then w.endings + [EndingOf(w, op)] else w.endings;
    match op
    case Create =>
      w.(db := Started(w.db, w.next), guards := w.guards + [Guard(w.next, w.db.batch.None?, true)], next := w.next + 1)
    case Put(x) =>
      w.(db := w.db.(batch := Some(w.db.batch.value.(writes := w.db.batch.value.writes + [x]))))
    case Commit(k, fate) =>
      var g := w.guards[k];
      var lost := if Ends(w, op) && fate == CommitFailed then w.lost + {g.id} else w.lost;
      World(DbAfterCommit(w.db, g, fate), w.guards[k := GuardAfterCommit(w.db, g, fate)], w.next, lost, endings)
    case Abort(k, fate) =>
      var g := w.guards[k];
      World(DbAfterAbort(w.db, g, fate), w.guards[k := GuardAfterAbort(w.db, g, fate)], w.next, w.lost, endings)
    case Destroy(fate) =>
      var k := |w.guards| - 1;
      World(DbAfterAbort(w.db, w.guards[k], fate), w.guards[..k], w.next, w.lost, endings)
  }

  /** The run is possible: each call is made on a live guard. */
  predicate Possible(w: World, ops: seq<Op>)
    decreases |ops|
  {
    ops == [] || (Enabled(w, ops[0]) && Possible(Step(w, ops[0]), ops[1..]))
  }

  function After(w: World, ops: seq<Op>): World
    requires Possible(w, ops)
    decreases |ops|
  {
    if ops == [] then w else After(Step(w, ops[0]), ops[1..])
  }

  // ----- What every run keeps -----

  /** The writes of the batches that were kept, in the order they ended. */
  function Kept(endings: seq<Ending>): seq<Write> {
    if endings == [] then []
    else
      var e := endings[|endings| - 1];
      Kept(endings[..|endings| - 1]) + (if e.kept then e.batch.writes else [])
  }

  ghost predicate Invariant(w: World, contents: seq<Write>) {
    && w.db.committed == contents + Kept(w.endings)
    && (w.db.batch.Some? ==> w.db.batch.value.base == w.db.committed && w.db.batch.value.opener < w.next)
    && (forall i :: 0 <= i < |w.guards| ==> w.guards[i].id < w.next)
    && (forall i, j :: 0 <= i < j < |w.guards| ==> w.guards[i].id < w.guards[j].id)
    && (forall i :: 0 <= i < |w.endings| ==> w.endings[i].batch.opener < w.next)
    && (forall i :: 0 <= i < |w.endings| && w.db.batch.Some? ==> w.endings[i].batch.opener != w.db.batch.value.opener)
    && (forall i, j :: 0 <= i < j < |w.endings| ==> w.endings[i].batch.opener != w.endings[j].batch.opener)
  }

  lemma KeptStep(endings: seq<Ending>, e: Ending)
    ensures Kept(endings + [e]) == Kept(endings) + (if e.kept then e.batch.writes else [])
  {
    assert (endings + [e])[..|endings|] == endings;
  }

  lemma StepKeepsInvariant(w: World, op: Op, contents: seq<Write>)
    requires Invariant(w, contents) && Enabled(w, op)
    ensures Invariant(Step(w, op), contents)
  {
    hide Kept;
    if Ends(w, op) {
      KeptStep(w.endings, EndingOf(w, op));
    }
  }

  /**
   * From any contents, every run keeps the committed contents equal to the initial ones plus the
   * writes of whole kept batches, ends each batch at most once, and leaves the committed contents
   * alone while a batch is open.
   */
  lemma {:induction false} RunsKeepInvariant(w: World, ops: seq<Op>, contents: seq<Write>)
    requires Invariant(w, contents) && Possible(w, ops)
    ensures Invariant(After(w, ops), contents)
    decreases |ops|
  {
    hide Step, Invariant, Enabled;
    if ops != [] {
      StepKeepsInvariant(w, ops[0], contents);
      RunsKeepInvariant(Step(w, ops[0]), ops[1..], contents);
    }
  }

  lemma InitialInvariant(contents: seq<Write>)
    ensures Invariant(Initial(contents), contents)
  {
    assert contents + [] == contents;
  }

  /** An owner that ends its batch without a commit leaves what was committed when it opened. */
  lemma UncommittedBatchLeavesNoTrace(contents: seq<Write>, ops: seq<Op>, op: Op)
    requires Possible(Initial(contents), ops) && Enabled(After(Initial(contents), ops), op)
    requires var w := After(Initial(contents), ops); Ends(w, op) && !EndingOf(w, op).kept
    ensures var w := After(Initial(contents), ops);
            && Step(w, op).db.committed == w.db.batch.value.base
            && Step(w, op).db.batch.None?
  {
    InitialInvariant(contents);
    RunsKeepInvariant(Initial(contents), ops, contents);
  }

  /** Calls on a guard that found a batch open are without effect. */
  lemma InnerCallsDoNothing(w: World, op: Op)
    requires Enabled(w, op) && !op.Create? && !op.Put? && !Called(w, op).batch
    ensures !Ends(w, op) && Step(w, op).db == w.db && Step(w, op).endings == w.endings
    ensures !op.Destroy? ==> Step(w, op) == w
  {
    if op.Commit? || op.Abort? {
      var k := op.depth;
      assert w.guards[k := w.guards[k]] == w.guards;
    }
  }

  // ----- Who ends a batch -----

  /** Every batch was ended by the guard that opened it. */
  predicate OwnEndings(w: World) {
    forall i :: 0 <= i < |w.endings| ==> w.endings[i].ender == w.endings[i].batch.opener
  }

  /** A call on a guard whose commit failed earlier, while a later batch is open, that is not refused. */
  predicate Careless(w: World, op: Op)
    requires Enabled(w, op)
  {
    !op.Create? && !op.Put? && op.fate != Refused && Called(w, op).id in w.lost && w.db.batch.Some?
  }

  predicate Careful(w: World, ops: seq<Op>)
    requires Possible(w, ops)
    decreases |ops|
  {
    ops == [] || (!Careless(w, ops[0]) && Careful(Step(w, ops[0]), ops[1..]))
  }

  /** A live guard that still holds a batch opened the current one, or lost its own to a failed commit. */
  ghost predicate Accounted(w: World) {
    && (forall i :: 0 <= i < |w.guards| ==> w.guards[i].id < w.next)
    && (forall i, j :: 0 <= i < j < |w.guards| ==> w.guards[i].id < w.guards[j].id)
    && (forall i :: i in w.lost ==> i < w.next)
    && (w.db.batch.Some? ==> w.db.batch.value.opener !in w.lost && w.db.batch.value.opener < w.next)
    && (forall i :: 0 <= i < |w.guards| && Holds(w.guards[i]) ==>
          (w.db.batch.Some? && w.db.batch.value.opener == w.guards[i].id) || w.guards[i].id in w.lost)
    && (forall i :: 0 <= i < |w.guards| && w.guards[i].id in w.lost ==> Holds(w.guards[i]))
  }

  lemma CarefulEnding(w: World, op: Op)
    requires Enabled(w, op) && Accounted(w) && OwnEndings(w)
    ensures OwnEndings(Step(w, op)) <==> !Careless(w, op)
  {
    if !op.Create? && !op.Put? {
      var g := Called(w, op);
      assert g in w.guards;
      if Ends(w, op) {
        var e := EndingOf(w, op);
        assert Step(w, op).endings == w.endings + [e];
        assert Step(w, op).endings[|w.endings|] == e;
      }
    }
  }

  lemma CarefulKeepsAccount(w: World, op: Op)
    requires Enabled(w, op) && Accounted(w) && !Careless(w, op)
    ensures Accounted(Step(w, op))
  {
    hide Accounted, Step;
    match op
    case Create => OpeningKeepsAccount(w, op);
    case Put(_) => OpeningKeepsAccount(w, op);
    case Commit(_, _) => CommitKeepsAccount(w, op);
    case Abort(_, _) => AbortKeepsAccount(w, op);
    case Destroy(_) => DestroyKeepsAccount(w, op);
  }

  lemma OpeningKeepsAccount(w: World, op: Op)
    requires Enabled(w, op) && Accounted(w) && (op.Create? || op.Put?)
    ensures Accounted(Step(w, op))
  {
  }

  lemma CommitKeepsAccount(w: World, op: Op)
    requires Enabled(w, op) && Accounted(w) && !Careless(w, op) && op.Commit?
    ensures Accounted(Step(w, op))
  {
  }

  lemma AbortKeepsAccount(w: World, op: Op)
    requires Enabled(w, op) && Accounted(w) && !Careless(w, op) && op.Abort?
    ensures Accounted(Step(w, op))
  {
  }

  lemma DestroyKeepsAccount(w: World, op: Op)
    requires Enabled(w, op) && Accounted(w) && !Careless(w, op) && op.Destroy?
    ensures Accounted(Step(w, op))
  {
  }

  lemma {:induction false} EndingsOnlyGrow(w: World, ops: seq<Op>)
    requires Possible(w, ops)
    ensures OwnEndings(After(w, ops)) ==> OwnEndings(w)
    decreases |ops|
  {
    if ops != [] {
      EndingsOnlyGrow(Step(w, ops[0]), ops[1..]);
      var w' := Step(w, ops[0]);
      assert forall i :: 0 <= i < |w.endings| ==> w'.endings[i] == w.endings[i];
    }
  }

  lemma {:induction false} CarefulRun(w: World, ops: seq<Op>)
    requires Possible(w, ops) && Accounted(w) && OwnEndings(w)
    ensures OwnEndings(After(w, ops)) <==> Careful(w, ops)
    decreases |ops|
  {
    hide Step, Accounted, OwnEndings, Careless, Enabled;
    if ops != [] {
      CarefulEnding(w, ops[0]);
      if Careless(w, ops[0]) {
        EndingsOnlyGrow(Step(w, ops[0]), ops[1..]);
      } else {
        CarefulKeepsAccount(w, ops[0]);
        CarefulRun(Step(w, ops[0]), ops[1..]);
      }
    }
  }

  /**
   * Exactly when only openers end batches: no unrefused call is made on a guard whose commit
   * failed while another batch is open.
   */
  lemma OnlyOpenersEndBatchesIff(contents: seq<Write>, ops: seq<Op>)
    requires Possible(Initial(contents), ops)
    ensures OwnEndings(After(Initial(contents), ops)) <==> Careful(Initial(contents), ops)
  {
    CarefulRun(Initial(contents), ops);
  }

  predicate NoFailedCommit(ops: seq<Op>) {
    forall i :: 0 <= i < |ops| && ops[i].Commit? ==> ops[i].fate != CommitFailed
  }

  lemma {:induction false} NothingIsLost(w: World, ops: seq<Op>)
    requires Possible(w, ops) && w.lost == {} && NoFailedCommit(ops)
    ensures Careful(w, ops)
    decreases |ops|
  {
    if ops != [] {
      assert ops[0] in ops;
      NothingIsLost(Step(w, ops[0]), ops[1..]);
    }
  }

  /** As long as no commit fails, only openers end batches. */
  lemma OpenersEndBatches(contents: seq<Write>, ops: seq<Op>)
    requires Possible(Initial(contents), ops) && NoFailedCommit(ops)
    ensures OwnEndings(After(Initial(contents), ops))
  {
    NothingIsLost(Initial(contents), ops);
    OnlyOpenersEndBatchesIff(contents, ops);
  }

  /** After a failed commit the outer guard can commit the batch of an inner one. */
  lemma FailedCommitCanEndInnerBatch()
    ensures var ops := [Create, Commit(0, CommitFailed), Create, Put(7), Commit(0, Done)];
            && Possible(Initial([]), ops)
            && After(Initial([]), ops).endings[1] == Ending(0, Batch(1, [], [7]), true)
  {
    var w0 := Initial([]);
    var w1 := Step(w0, Create);
    var w2 := Step(w1, Commit(0, CommitFailed));
    var w3 := Step(w2, Create);
    var w4 := Step(w3, Put(7));
    var w5 := Step(w4, Commit(0, Done));
    assert w5.endings[1] == Ending(0, Batch(1, [], [7]), true);
    var ops := [Create, Commit(0, CommitFailed), Create, Put(7), Commit(0, Done)];
    assert ops[1..] == [Commit(0, CommitFailed), Create, Put(7), Commit(0, Done)];
    assert ops[1..][1..] == [Create, Put(7), Commit(0, Done)];
    assert ops[1..][1..][1..] == [Put(7), Commit(0, Done)];
    assert ops[1..][1..][1..][1..] == [Commit(0, Done)];
    assert ops[1..][1..][1..][1..][1..] == [];
    assert Possible(w5, []) && After(w5, []) == w5;
    assert Possible(w4, [Commit(0, Done)]) && After(w4, [Commit(0, Done)]) == w5;
    assert Possible(w3, [Put(7), Commit(0, Done)]) && After(w3, [Put(7), Commit(0, Done)]) == w5;
    assert Possible(w2, ops[1..][1..]) && After(w2, ops[1..][1..]) == w5;
    assert Possible(w1, ops[1..]) && After(w1, ops[1..]) == w5;
  }
}
