/** Crash-safe export: over every run of deliveries, stops and restarts, what is stored
    below the cursor is complete, and nothing depends on the interruptions. */
module ConduitLaws {
  import opened Wrappers
  import opened Decimals
  import opened ConduitExporter

  /** The chain, and how the exporter is set up. Round r of the chain is block r. */
  datatype Setup = Setup(chain: nat -> Block, flatten: Flatten, cfg: Config, start: nat)

  ghost predicate IsChain(s: Setup) {
    forall r :: s.chain(r).round == r
  }

  // ---------- Executing a batch twice ----------

  function Overlay(t: Tables, w: Tables): Tables {
    Tables(t.blocks + w.blocks, t.byRound + w.byRound, t.byId + w.byId,
           t.bySender + w.bySender, t.byReceiver + w.byReceiver)
  }

  lemma SumTwice<K, V>(a: map<K, V>, b: map<K, V>)
    ensures (a + b) + b == a + b
  {
  }

  lemma InsertedOverlays(t: Tables, w: Tables, s: Statement)
    ensures Inserted(Overlay(t, w), s) == Overlay(t, Inserted(w, s))
  {
    var row := s.row;
    match s
    case ByRound(_) => SumThenUpdate(t.byRound, w.byRound, (row.round, row.intra), row);
    case ById(_) => SumThenUpdate(t.byId, w.byId, row.txn.txid, row);
    case BySender(_) => SumThenUpdate(t.bySender, w.bySender, AccountKey(row.txn.sender, row.round, row.txn.txid), row);
    case ByReceiver(_) =>
      SumThenUpdate(t.byReceiver, w.byReceiver, AccountKey(row.txn.receiver, row.round, row.txn.txid), row);
  }

  /** A batch lays its own rows over whatever is there. */
  lemma {:induction false} ExecutedOverlays(t: Tables, w: Tables, batch: seq<Statement>)
    ensures Executed(Overlay(t, w), batch) == Overlay(t, Executed(w, batch))
    decreases |batch|
  {
    hide Inserted, Overlay;
    if batch != [] {
      InsertedOverlays(t, w, batch[0]);
      ExecutedOverlays(t, Inserted(w, batch[0]), batch[1..]);
    }
  }

  lemma OverlayNothing(t: Tables)
    ensures Overlay(t, NO_ROWS) == t
  {
  }

  lemma OverlayTwice(t: Tables, w: Tables)
    ensures Overlay(Overlay(t, w), w) == Overlay(t, w)
  {
    SumTwice(t.blocks, w.blocks);
    SumTwice(t.byRound, w.byRound);
    SumTwice(t.byId, w.byId);
    SumTwice(t.bySender, w.bySender);
    SumTwice(t.byReceiver, w.byReceiver);
  }

  lemma ExecutedIsOverlay(t: Tables, batch: seq<Statement>)
    ensures Executed(t, batch) == Overlay(t, Executed(NO_ROWS, batch))
  {
    hide Executed, Overlay;
    OverlayNothing(t);
    ExecutedOverlays(t, NO_ROWS, batch);
  }

  /** The tables once a block is fully in. */
  function Ingested(t: Tables, b: Block, s: Setup): Tables {
    Executed(WithBlock(t, b), Batch(b, s.flatten, s.cfg))
  }

  lemma {:induction false} BatchKeepsBlocks(t: Tables, batch: seq<Statement>)
    ensures Executed(t, batch).blocks == t.blocks
    decreases |batch|
  {
    if batch != [] {
      BatchKeepsBlocks(Inserted(t, batch[0]), batch[1..]);
    }
  }

  lemma BlockTwice(t: Tables, b: Block)
    ensures WithBlock(WithBlock(t, b), b) == WithBlock(t, b)
  {
  }

  lemma BlockAlreadyThere(t: Tables, b: Block, batch: seq<Statement>)
    ensures WithBlock(Executed(WithBlock(t, b), batch), b) == Executed(WithBlock(t, b), batch)
  {
    BatchKeepsBlocks(WithBlock(t, b), batch);
  }

  /** How far the writes of one block have got. */
  function Partly(t: Tables, b: Block, s: Setup, stage: nat): Tables {
    if stage == 0 then t else if stage == 1 then WithBlock(t, b) else Ingested(t, b, s)
  }

  /** Redelivering a block over any partial state of itself only ever moves it forward. */
  lemma RedeliveryAdvances(t: Tables, b: Block, s: Setup, stage: nat, writes: nat)
    requires stage <= 2
    ensures AfterWrites(Db(Partly(t, b, s, stage), map[]), b, s.flatten, s.cfg, writes).tables
            == Partly(t, b, s, if writes >= 2 then 2 else if writes > stage then writes else stage)
  {
    hide Executed, BatchFrom, WithBlock, Overlay, Decimal;
    var batch := Batch(b, s.flatten, s.cfg);
    BlockTwice(t, b);
    BlockAlreadyThere(t, b, batch);
    ExecutedIsOverlay(WithBlock(t, b), batch);
    ExecutedIsOverlay(Executed(WithBlock(t, b), batch), batch);
    OverlayTwice(WithBlock(t, b), Executed(NO_ROWS, batch));
  }

  /** The tables of an uninterrupted run over the rounds from the start up to n. */
  function Ideal(s: Setup, n: nat): Tables
    decreases n
  {
    if n <= s.start then NO_ROWS else Ingested(Ideal(s, n - 1), s.chain(n - 1), s)
  }

  // ---------- The process ----------

  /** The database and, while the process is up, the round it expects next. */
  datatype World = World(db: Db, expects: Option<nat>)

  /** A delivery may stop after any number of writes; `dies` says whether the process goes
      down with it or the pipeline retries the round. */
  datatype Event =
    | Deliver(writes: nat, dies: bool)
    | Die
    | Restart(genesis: Option<string>)

  /** The first start: Init on an empty database. */
  function Booted(s: Setup, genesis: Option<string>): World {
    World(Db(NO_ROWS, Initialised(map[], genesis, s.start)), Some(s.start))
  }

  /** A block with its ledger delta; the first block of a chain has none. */
  predicate IsIngestible(b: Block) {
    b.hasDelta || b.round == 0
  }

  /** Receive returns without an error. */
  predicate Accepted(b: Block, writes: nat) {
    IsIngestible(b) && writes >= 4
  }

  function Step(w: World, e: Event, s: Setup): World {
    match e
    case Deliver(writes, dies) =>
      (match w.expects
       case None => w
       case Some(r) =>
         var db := Received(w.db, s.chain(r), s.flatten, s.cfg, writes);
         World(db, if Accepted(s.chain(r), writes) then Some(r + 1) else if dies then None else Some(r)))
    case Die => World(w.db, None)
    case Restart(genesis) =>
      match Requested(w.db.meta)
      case Failure(_) => World(w.db, None)
      case Success(n) => World(Db(w.db.tables, Initialised(w.db.meta, genesis, n)), Some(n))
  }

  function Run(w: World, events: seq<Event>, s: Setup): World
    decreases |events|
  {
    if events == [] then w else Run(Step(w, events[0], s), events[1..], s)
  }

  /** What holds between any two events. `n` is the stored cursor. */
  ghost predicate Sound(w: World, s: Setup, n: nat) {
    && s.start <= n
    && (forall q :: s.start <= q < n ==> IsIngestible(s.chain(q)))
    && NEXT_ROUND in w.db.meta && w.db.meta[NEXT_ROUND] == Decimal(n)
    && (exists stage: nat :: stage <= 2 && w.db.tables == Partly(Ideal(s, n), s.chain(n), s, stage))
    && (LAST_INGESTED in w.db.meta ==>
          exists m: nat :: m < n && w.db.meta[LAST_INGESTED] == Decimal(m))
    && match w.expects
       case None => true
       case Some(r) => r == n || (r + 1 == n && s.start <= r && w.db.tables == Ideal(s, n))
  }

  lemma AfterWritesTables(db: Db, b: Block, s: Setup, writes: nat)
    ensures AfterWrites(db, b, s.flatten, s.cfg, writes).tables
            == AfterWrites(Db(db.tables, map[]), b, s.flatten, s.cfg, writes).tables
    ensures var meta := AfterWrites(db, b, s.flatten, s.cfg, writes).meta;
            && (writes < 3 ==> meta == db.meta)
            && (writes >= 3 ==>
                  NEXT_ROUND in meta && meta[NEXT_ROUND] == Decimal(b.round + 1))
            && (writes == 3 ==>
                  (LAST_INGESTED in meta <==> LAST_INGESTED in db.meta)
                  && (LAST_INGESTED in meta ==> meta[LAST_INGESTED] == db.meta[LAST_INGESTED]))
            && (writes >= 4 ==> LAST_INGESTED in meta && meta[LAST_INGESTED] == Decimal(b.round))
  {
  }

  lemma IdealStep(s: Setup, n: nat)
    requires s.start <= n
    ensures Ideal(s, n + 1) == Ingested(Ideal(s, n), s.chain(n), s)
  {
  }

  /** Where a delivery of the expected round leaves the tables. */
  lemma DeliveryTables(w: World, s: Setup, n: nat, r: nat, writes: nat)
    requires Sound(w, s, n) && w.expects == Some(r)
    ensures var t := AfterWrites(w.db, s.chain(r), s.flatten, s.cfg, writes).tables;
            && (writes >= 2 ==> t == Ideal(s, r + 1))
            && (r + 1 == n ==> t == Ideal(s, n))
            && (r == n ==> exists stage: nat :: stage <= 2 && t == Partly(Ideal(s, n), s.chain(n), s, stage))
  {
    hide Ingested, WithBlock, AfterWrites, Decimal;
    var stage: nat;
    if r == n {
      stage :| stage <= 2 && w.db.tables == Partly(Ideal(s, n), s.chain(n), s, stage);
    } else {
      stage := 2;
      assert w.db.tables == Partly(Ideal(s, r), s.chain(r), s, 2) by {
        IdealStep(s, r);
      }
    }
    AfterWritesTables(w.db, s.chain(r), s, writes);
    RedeliveryAdvances(Ideal(s, r), s.chain(r), s, stage, writes);
    IdealStep(s, r);
  }

  lemma SoundStart(s: Setup, genesis: Option<string>)
    ensures Sound(Booted(s, genesis), s, s.start)
  {
    hide Ingested, Decimal;
    var w := Booted(s, genesis);
    assert w.db.tables == Partly(Ideal(s, s.start), s.chain(s.start), s, 0);
    assert NEXT_ROUND[0] != LAST_INGESTED[0] && GENESIS[0] != LAST_INGESTED[0];
  }

  lemma DeltaTold(b: Block)
    ensures MissingDelta(b) <==> !IsIngestible(b)
  {
  }

  lemma SoundDelivery(w: World, s: Setup, n: nat, r: nat, writes: nat, dies: bool) returns (next: nat)
    requires IsChain(s) && Sound(w, s, n) && w.expects == Some(r)
    ensures Sound(Step(w, Deliver(writes, dies), s), s, next) && n <= next <= n + 1
    ensures Accepted(s.chain(r), writes) ==>
              next == r + 1 && Step(w, Deliver(writes, dies), s).db.tables == Ideal(s, r + 1)
  {
    hide Ingested, AfterWrites, Ideal, Decimal, MissingDelta, IsIngestible;
    DeltaTold(s.chain(r));
    AfterWritesTables(w.db, s.chain(r), s, writes);
    DeliveryTables(w, s, n, r, writes);
    var after := Step(w, Deliver(writes, dies), s);
    next := if writes >= 3 && IsIngestible(s.chain(r)) then r + 1 else n;
    assert next == r + 1 && IsIngestible(s.chain(r)) && writes >= 3 ==>
        after.db.tables == Partly(Ideal(s, next), s.chain(next), s, 0);
  }

  lemma SoundRestart(w: World, s: Setup, n: nat, genesis: Option<string>)
    requires Sound(w, s, n) && n <= INT64_MAX
    ensures Sound(Step(w, Restart(genesis), s), s, n)
    ensures Step(w, Restart(genesis), s).expects == Some(n)
  {
    hide Ingested, Ideal, Decimal, ParseInt64;
    DecimalRoundTrip(n);
    assert NEXT_ROUND[0] != LAST_INGESTED[0] && GENESIS[0] != LAST_INGESTED[0];
  }

  /** Every delivery, stop and restart keeps the invariant. */
  lemma SoundStep(w: World, e: Event, s: Setup, n: nat) returns (next: nat)
    requires IsChain(s) && Sound(w, s, n) && n <= INT64_MAX
    ensures Sound(Step(w, e, s), s, next) && n <= next <= n + 1
  {
    hide AfterWrites, Ideal, Decimal, Requested, Partly;
    next := n;
    match e
    case Deliver(writes, dies) =>
      if w.expects.Some? {
        next := SoundDelivery(w, s, n, w.expects.value, writes, dies);
      }
    case Die =>
    case Restart(genesis) => SoundRestart(w, s, n, genesis);
  }

  lemma {:induction false} SoundRun(w: World, events: seq<Event>, s: Setup, n: nat) returns (next: nat)
    requires IsChain(s) && Sound(w, s, n) && n + |events| <= INT64_MAX
    ensures Sound(Run(w, events, s), s, next) && n <= next <= n + |events|
    decreases |events|
  {
    hide Step, Sound;
    if events == [] {
      next := n;
    } else {
      var mid := SoundStep(w, events[0], s, n);
      next := SoundRun(Step(w, events[0], s), events[1..], s, mid);
    }
  }

  // ---------- Completeness ----------

  function TxnAt(s: Setup, r: nat, i: nat): Option<FlatTxn> {
    if i < |s.chain(r).payset| then s.flatten(s.chain(r).payset[i], r, i) else None
  }

  ghost predicate UniqueTxids(s: Setup) {
    forall r, i, q, j | TxnAt(s, r, i).Some? && TxnAt(s, q, j).Some? ::
      TxnAt(s, r, i).value.txid == TxnAt(s, q, j).value.txid ==> r == q && i == j
  }

  /** The row a statement writes is the one stored under its key. */
  predicate Shows(t: Tables, st: Statement) {
    var row := st.row;
    match st
    case ByRound(_) => (row.round, row.intra) in t.byRound && t.byRound[(row.round, row.intra)] == row
    case ById(_) => row.txn.txid in t.byId && t.byId[row.txn.txid] == row
    case BySender(_) =>
      var k := AccountKey(row.txn.sender, row.round, row.txn.txid);
      k in t.bySender && t.bySender[k] == row
    case ByReceiver(_) =>
      var k := AccountKey(row.txn.receiver, row.round, row.txn.txid);
      k in t.byReceiver && t.byReceiver[k] == row
  }

  /** The transaction is stored under its round and its id, and under its sender and its
      receiver where those tables are enabled and the account is known. */
  ghost predicate HasTxn(t: Tables, row: TxnRow, cfg: Config) {
    var sent := AccountKey(row.txn.sender, row.round, row.txn.txid);
    var received := AccountKey(row.txn.receiver, row.round, row.txn.txid);
    && (row.round, row.intra) in t.byRound && t.byRound[(row.round, row.intra)] == row
    && row.txn.txid in t.byId && t.byId[row.txn.txid] == row
    && (cfg.bySender && row.txn.sender != "" ==> sent in t.bySender && t.bySender[sent] == row)
    && (cfg.byReceiver && row.txn.receiver != "" ==> received in t.byReceiver && t.byReceiver[received] == row)
  }

  /** Round r is in `blocks` and each of its transactions in every enabled table. */
  ghost predicate Complete(t: Tables, s: Setup, r: nat) {
    var b := s.chain(r);
    && r in t.blocks && t.blocks[r] == BlockRow(b.timestamp, b.proposer, |b.payset|, b.header)
    && forall i :: TxnAt(s, r, i).Some? ==> HasTxn(t, TxnRow(r, i, TxnAt(s, r, i).value), s.cfg)
  }

  /** The same, statement by statement of the round's batch. */
  ghost predicate AllShown(t: Tables, s: Setup, r: nat) {
    var b := s.chain(r);
    && r in t.blocks && t.blocks[r] == BlockRow(b.timestamp, b.proposer, |b.payset|, b.header)
    && forall i, st :: TxnAt(s, r, i).Some? && st in StatementsOf(TxnRow(r, i, TxnAt(s, r, i).value), s.cfg) ==>
         Shows(t, st)
  }

  lemma ShownTxn(t: Tables, row: TxnRow, cfg: Config)
    requires forall st :: st in StatementsOf(row, cfg) ==> Shows(t, st)
    ensures HasTxn(t, row, cfg)
  {
    var all := StatementsOf(row, cfg);
    assert ByRound(row) in all && ById(row) in all;
    assert cfg.bySender && row.txn.sender != "" ==> BySender(row) in all;
    assert cfg.byReceiver && row.txn.receiver != "" ==> ByReceiver(row) in all;
  }

  lemma ShownIsComplete(t: Tables, s: Setup, r: nat)
    requires AllShown(t, s, r)
    ensures Complete(t, s, r)
  {
    hide StatementsOf, Shows, HasTxn, TxnAt;
    forall i | TxnAt(s, r, i).Some?
      ensures HasTxn(t, TxnRow(r, i, TxnAt(s, r, i).value), s.cfg)
    {
      ShownTxn(t, TxnRow(r, i, TxnAt(s, r, i).value), s.cfg);
    }
  }

  /** A row of the chain. */
  ghost predicate IsChainRow(s: Setup, row: TxnRow) {
    TxnAt(s, row.round, row.intra) == Some(row.txn)
  }

  lemma ShowsKept(s: Setup, t: Tables, st: Statement, other: Statement)
    requires UniqueTxids(s) && IsChainRow(s, st.row) && IsChainRow(s, other.row)
    requires Shows(t, st) || st == other
    ensures Shows(Inserted(t, other), st)
  {
  }

  lemma {:induction false} ExecutedShows(s: Setup, t: Tables, batch: seq<Statement>, st: Statement)
    requires UniqueTxids(s) && IsChainRow(s, st.row)
    requires forall other :: other in batch ==> IsChainRow(s, other.row)
    requires Shows(t, st) || st in batch
    ensures Shows(Executed(t, batch), st)
    decreases |batch|
  {
    hide UniqueTxids, IsChainRow, Inserted, Shows;
    if batch != [] {
      assert batch[0] in batch;
      assert forall other :: other in batch[1..] ==> other in batch;
      if Shows(t, st) || st == batch[0] {
        ShowsKept(s, t, st, batch[0]);
      }
      ExecutedShows(s, Inserted(t, batch[0]), batch[1..], st);
    }
  }

  lemma StatementsAreRows(row: TxnRow, cfg: Config, st: Statement)
    requires st in StatementsOf(row, cfg)
    ensures st.row == row
  {
  }

  /** The batch writes rows of the chain, and every row of its round. */
  lemma {:induction false} BatchIsTheRound(s: Setup, r: nat, intra: nat)
    requires IsChain(s) && intra <= |s.chain(r).payset|
    ensures forall st :: st in BatchFrom(s.chain(r), s.flatten, s.cfg, intra) ==> IsChainRow(s, st.row)
    ensures forall i, st :: intra <= i && TxnAt(s, r, i).Some?
                            && st in StatementsOf(TxnRow(r, i, TxnAt(s, r, i).value), s.cfg) ==>
              st in BatchFrom(s.chain(r), s.flatten, s.cfg, intra)
    decreases |s.chain(r).payset| - intra
  {
    hide StatementsOf;
    var b := s.chain(r);
    if intra < |b.payset| {
      BatchIsTheRound(s, r, intra + 1);
      var txn := TxnAt(s, r, intra);
      if txn.Some? {
        forall st | st in StatementsOf(TxnRow(r, intra, txn.value), s.cfg)
          ensures IsChainRow(s, st.row)
        {
          StatementsAreRows(TxnRow(r, intra, txn.value), s.cfg, st);
        }
      }
    }
  }

  /** A block that is fully in shows all of it. */
  lemma IngestedIsShown(t: Tables, s: Setup, r: nat)
    requires IsChain(s) && UniqueTxids(s)
    ensures AllShown(Ingested(t, s.chain(r), s), s, r)
  {
    hide Executed, BatchFrom, StatementsOf, Shows, UniqueTxids, TxnAt;
    var b := s.chain(r);
    BatchIsTheRound(s, r, 0);
    BatchKeepsBlocks(WithBlock(t, b), Batch(b, s.flatten, s.cfg));
    forall i, st | TxnAt(s, r, i).Some? && st in StatementsOf(TxnRow(r, i, TxnAt(s, r, i).value), s.cfg)
      ensures Shows(Ingested(t, b, s), st)
    {
      StatementsAreRows(TxnRow(r, i, TxnAt(s, r, i).value), s.cfg, st);
      ExecutedShows(s, WithBlock(t, b), Batch(b, s.flatten, s.cfg), st);
    }
  }

  lemma BlockShows(t: Tables, b: Block, st: Statement)
    requires Shows(t, st)
    ensures Shows(WithBlock(t, b), st)
  {
  }

  /** However far another round's writes have got, a round that shows stays so. */
  lemma StaysShown(t: Tables, s: Setup, q: nat, stage: nat, r: nat)
    requires IsChain(s) && UniqueTxids(s) && q != r && AllShown(t, s, r)
    ensures AllShown(Partly(t, s.chain(q), s, stage), s, r)
  {
    hide Executed, BatchFrom, StatementsOf, Shows, UniqueTxids, TxnAt;
    var b := s.chain(q);
    BatchIsTheRound(s, q, 0);
    BatchKeepsBlocks(WithBlock(t, b), Batch(b, s.flatten, s.cfg));
    forall i, st | TxnAt(s, r, i).Some? && st in StatementsOf(TxnRow(r, i, TxnAt(s, r, i).value), s.cfg)
      ensures Shows(Partly(t, b, s, stage), st)
    {
      StatementsAreRows(TxnRow(r, i, TxnAt(s, r, i).value), s.cfg, st);
      BlockShows(t, b, st);
      ExecutedShows(s, WithBlock(t, b), Batch(b, s.flatten, s.cfg), st);
    }
  }

  lemma {:induction false} IdealIsShown(s: Setup, n: nat, r: nat)
    requires IsChain(s) && UniqueTxids(s) && s.start <= r < n
    ensures AllShown(Ideal(s, n), s, r)
    decreases n
  {
    hide AllShown, UniqueTxids, Ingested;
    IdealStep(s, n - 1);
    if r == n - 1 {
      IngestedIsShown(Ideal(s, r), s, r);
    } else {
      IdealIsShown(s, n - 1, r);
      StaysShown(Ideal(s, n - 1), s, n - 1, 2, r);
      PartlyAll(Ideal(s, n - 1), s.chain(n - 1), s);
    }
  }

  lemma PartlyAll(t: Tables, b: Block, s: Setup)
    ensures Partly(t, b, s, 2) == Ingested(t, b, s)
  {
  }

  // ---------- Nothing else is stored ----------

  ghost predicate IsRowBelow(s: Setup, row: TxnRow, n: nat) {
    IsChainRow(s, row) && s.start <= row.round < n
  }

  /** Every stored row is a row of the chain, of a round from the start below n, under its
      own key, and in a sender or receiver table only if that one is enabled. */
  ghost predicate OnlyChainRows(t: Tables, s: Setup, n: nat) {
    && (forall r :: r in t.blocks ==> s.start <= r < n)
    && (forall k :: k in t.byRound ==> var row := t.byRound[k]; IsRowBelow(s, row, n) && k == (row.round, row.intra))
    && (forall k :: k in t.byId ==> var row := t.byId[k]; IsRowBelow(s, row, n) && k == row.txn.txid)
    && (forall k :: k in t.bySender ==>
          var row := t.bySender[k];
          && IsRowBelow(s, row, n) && s.cfg.bySender && row.txn.sender != ""
          && k == AccountKey(row.txn.sender, row.round, row.txn.txid))
    && (forall k :: k in t.byReceiver ==>
          var row := t.byReceiver[k];
          && IsRowBelow(s, row, n) && s.cfg.byReceiver && row.txn.receiver != ""
          && k == AccountKey(row.txn.receiver, row.round, row.txn.txid))
  }

  /** A statement the batch of some transaction of round r may hold. */
  ghost predicate Belongs(s: Setup, st: Statement, r: nat) {
    IsChainRow(s, st.row) && st.row.round == r && st in StatementsOf(st.row, s.cfg)
  }

  lemma InsertedIsClean(t: Tables, s: Setup, n: nat, st: Statement)
    requires s.start <= n && OnlyChainRows(t, s, n + 1) && Belongs(s, st, n)
    ensures OnlyChainRows(Inserted(t, st), s, n + 1)
  {
    hide IsChainRow;
  }

  lemma {:induction false} ExecutedIsClean(t: Tables, s: Setup, n: nat, batch: seq<Statement>)
    requires s.start <= n && OnlyChainRows(t, s, n + 1)
    requires forall st :: st in batch ==> Belongs(s, st, n)
    ensures OnlyChainRows(Executed(t, batch), s, n + 1)
    decreases |batch|
  {
    hide OnlyChainRows, Inserted, Belongs;
    if batch != [] {
      assert batch[0] in batch;
      assert forall st :: st in batch[1..] ==> st in batch;
      InsertedIsClean(t, s, n, batch[0]);
      ExecutedIsClean(Inserted(t, batch[0]), s, n, batch[1..]);
    }
  }

  lemma {:induction false} BatchBelongs(s: Setup, r: nat, intra: nat)
    requires IsChain(s) && intra <= |s.chain(r).payset|
    ensures forall st :: st in BatchFrom(s.chain(r), s.flatten, s.cfg, intra) ==> Belongs(s, st, r)
    decreases |s.chain(r).payset| - intra
  {
    hide StatementsOf;
    var b := s.chain(r);
    if intra < |b.payset| {
      BatchBelongs(s, r, intra + 1);
      var txn := TxnAt(s, r, intra);
      if txn.Some? {
        forall st | st in StatementsOf(TxnRow(r, intra, txn.value), s.cfg)
          ensures Belongs(s, st, r)
        {
          StatementsAreRows(TxnRow(r, intra, txn.value), s.cfg, st);
        }
      }
    }
  }

  lemma BlockIsClean(t: Tables, s: Setup, n: nat)
    requires IsChain(s) && s.start <= n && OnlyChainRows(t, s, n)
    ensures OnlyChainRows(t, s, n + 1)
    ensures OnlyChainRows(WithBlock(t, s.chain(n)), s, n + 1)
  {
    hide IsChainRow;
  }

  /** However far the writes of round n have got, nothing above it is stored. */
  lemma PartlyIsClean(t: Tables, s: Setup, n: nat, stage: nat)
    requires IsChain(s) && s.start <= n && OnlyChainRows(t, s, n)
    ensures OnlyChainRows(Partly(t, s.chain(n), s, stage), s, n + 1)
  {
    hide OnlyChainRows, WithBlock, Executed, BatchFrom, Belongs;
    BlockIsClean(t, s, n);
    BatchBelongs(s, n, 0);
    ExecutedIsClean(WithBlock(t, s.chain(n)), s, n, Batch(s.chain(n), s.flatten, s.cfg));
  }

  lemma NothingIsClean(s: Setup, n: nat)
    ensures OnlyChainRows(NO_ROWS, s, n)
  {
  }

  lemma {:induction false} IdealIsClean(s: Setup, n: nat)
    requires IsChain(s)
    ensures OnlyChainRows(Ideal(s, n), s, n)
    decreases n
  {
    hide OnlyChainRows, Partly, Ingested;
    if n <= s.start {
      NothingIsClean(s, n);
    } else {
      IdealIsClean(s, n - 1);
      PartlyIsClean(Ideal(s, n - 1), s, n - 1, 2);
      PartlyAll(Ideal(s, n - 1), s.chain(n - 1), s);
    }
  }

  /** After any deliveries, stops and restarts: the stored cursor reads back, every round
      from the start below it is complete, nothing but rows of the chain up to it is stored,
      and the last ingested round is below it. */
  lemma CrashSafe(s: Setup, genesis: Option<string>, events: seq<Event>)
    requires IsChain(s) && UniqueTxids(s) && s.start + |events| <= INT64_MAX
    ensures var db := Run(Booted(s, genesis), events, s).db;
            && Requested(db.meta).Success?
            && var n := Requested(db.meta).value;
            && s.start <= n <= s.start + |events|
            && (forall r :: s.start <= r < n ==> Complete(db.tables, s, r))
            && OnlyChainRows(db.tables, s, n + 1)
            && (LAST_INGESTED in db.meta ==>
                  exists m: nat :: m < n && ParseInt64(db.meta[LAST_INGESTED]) == Some(m))
  {
    hide Run, Booted, Partly, Complete, AllShown, OnlyChainRows, UniqueTxids, Ideal, ParseInt64, Decimal;
    SoundStart(s, genesis);
    var n := SoundRun(Booted(s, genesis), events, s, s.start);
    var w := Run(Booted(s, genesis), events, s);
    DecimalRoundTrip(n);
    IdealIsClean(s, n);
    var stage: nat :| stage <= 2 && w.db.tables == Partly(Ideal(s, n), s.chain(n), s, stage);
    PartlyIsClean(Ideal(s, n), s, n, stage);
    forall r | s.start <= r < n
      ensures Complete(w.db.tables, s, r)
    {
      IdealIsShown(s, n, r);
      StaysShown(Ideal(s, n), s, n, stage, r);
      ShownIsComplete(w.db.tables, s, r);
    }
    if LAST_INGESTED in w.db.meta {
      var m: nat :| m < n && w.db.meta[LAST_INGESTED] == Decimal(m);
      DecimalRoundTrip(m);
    }
  }

  /** k complete deliveries and nothing else. */
  function Uninterrupted(k: nat): seq<Event> {
    seq(k, _ => Deliver(4, false))
  }

  /** k complete deliveries take in the m rounds up to the first that cannot be taken in, or
      all k rounds. */
  lemma {:induction false} UninterruptedRun(w: World, s: Setup, n: nat, m: nat, k: nat)
    requires IsChain(s) && Sound(w, s, n) && w.expects == Some(n) && w.db.tables == Ideal(s, n)
    requires forall r :: n <= r < n + m ==> IsIngestible(s.chain(r))
    requires m <= k && (m == k || !IsIngestible(s.chain(n + m)))
    ensures var end := Run(w, Uninterrupted(k), s);
            Sound(end, s, n + m) && end.expects == Some(n + m) && end.db.tables == Ideal(s, n + m)
    decreases k
  {
    hide Ideal, Sound, MissingDelta, IsIngestible, AfterWrites;
    if k > 0 {
      assert Uninterrupted(k)[1..] == Uninterrupted(k - 1);
      DeltaTold(s.chain(n));
      if m > 0 {
        var next := SoundDelivery(w, s, n, n, 4, false);
        UninterruptedRun(Step(w, Deliver(4, false), s), s, n + 1, m - 1, k - 1);
      } else {
        UninterruptedRun(w, s, n, 0, k - 1);
      }
    }
  }

  lemma BootedIsIdeal(s: Setup, genesis: Option<string>)
    ensures Booted(s, genesis).db.tables == Ideal(s, s.start) && Booted(s, genesis).expects == Some(s.start)
  {
  }

  /** Interruptions leave no trace: whenever a round's delivery completes, every table is
      what the same rounds leave without any interruption. */
  lemma SameAsUninterrupted(s: Setup, genesis: Option<string>, events: seq<Event>, writes: nat, dies: bool)
    requires IsChain(s) && s.start + |events| < INT64_MAX
    requires var w := Run(Booted(s, genesis), events, s);
             w.expects.Some? && Accepted(s.chain(w.expects.value), writes)
    ensures var w := Run(Booted(s, genesis), events, s);
            var r := w.expects.value;
            && s.start <= r
            && Step(w, Deliver(writes, dies), s).db.tables
               == Run(Booted(s, genesis), Uninterrupted(r + 1 - s.start), s).db.tables
            && Requested(Step(w, Deliver(writes, dies), s).db.meta) == Success(r + 1)
  {
    hide Run, Booted, Step, Ideal, IsIngestible, Uninterrupted, ParseInt64, Decimal;
    SoundStart(s, genesis);
    BootedIsIdeal(s, genesis);
    var n := SoundRun(Booted(s, genesis), events, s, s.start);
    var w := Run(Booted(s, genesis), events, s);
    var r := w.expects.value;
    var next := SoundDelivery(w, s, n, r, writes, dies);
    UninterruptedRun(Booted(s, genesis), s, s.start, r + 1 - s.start, r + 1 - s.start);
    DecimalRoundTrip(r + 1);
  }

  /** From the first start, k complete deliveries move the cursor by one each, up to the first
      block above round 0 that lacks its delta, and never past it; round 0 needs none. */
  lemma CleanRunAdvances(s: Setup, genesis: Option<string>, m: nat, k: nat)
    requires IsChain(s) && s.start + k <= INT64_MAX
    requires forall r :: s.start <= r < s.start + m && r > 0 ==> s.chain(r).hasDelta
    requires m <= k && (m == k || (s.start + m > 0 && !s.chain(s.start + m).hasDelta))
    ensures var db := Run(Booted(s, genesis), Uninterrupted(k), s).db;
            && Requested(db.meta) == Success(s.start + m)
            && db.tables == Ideal(s, s.start + m)
  {
    hide Run, Ideal, Uninterrupted, ParseInt64, Decimal;
    SoundStart(s, genesis);
    BootedIsIdeal(s, genesis);
    UninterruptedRun(Booted(s, genesis), s, s.start, m, k);
    DecimalRoundTrip(s.start + m);
  }

  // ---------- What the meta rows say ----------

  /** A restart resumes at the number stored under "next_round": at 0 when there is none or it is
      negative, and not at all when it is no number. */
  lemma RequestTold(meta: map<string, string>)
    ensures "next_round" !in meta ==> Requested(meta) == Success(0)
    ensures "next_round" in meta ==>
              match ParseInt64(meta["next_round"])
              case None => Requested(meta).Failure?
              case Some(n) => Requested(meta) == Success(if n >= 0 then n else 0)
  {
    hide ParseInt64;
  }

  /** A start stores the cursor and the genesis it is given, and no other row. */
  lemma InitTold(meta: map<string, string>, genesis: Option<string>, nextRound: nat)
    ensures var after := Initialised(meta, genesis, nextRound);
            && "next_round" in after && after["next_round"] == Decimal(nextRound)
            && (genesis.Some? ==> "genesis_json" in after && after["genesis_json"] == genesis.value)
            && after - {"next_round", "genesis_json"} == meta - {"next_round", "genesis_json"}
            && (genesis.None? ==> after - {"next_round"} == meta - {"next_round"})
  {
    hide Decimal;
    assert "next_round"[0] != "genesis_json"[0];
  }

  /** A complete call stores the next round and then its own, and no other meta row. */
  lemma CursorTold(db: Db, b: Block, s: Setup)
    requires IsIngestible(b)
    ensures var meta := Received(db, b, s.flatten, s.cfg, 4).meta;
            meta == db.meta["next_round" := Decimal(b.round + 1)]["last_ingested_round" := Decimal(b.round)]
  {
    hide Decimal, Executed, BatchFrom;
  }
}
