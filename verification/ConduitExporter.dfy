/** The block exporter: four ordered writes per block, a stop possible between any two,
    redelivery of the stored round afterwards. Clock columns (ingested_at, updated_at) are
    not part of this model. */
module ConduitExporter {
  import opened Wrappers
  import opened Decimals

  // ---------- Blocks and tables ----------

  /** One entry of a payset, as encoded on chain. */
  datatype Txn = Txn(encoded: string)

  datatype Block = Block(
    round: nat,
    timestamp: int,
    proposer: string,
    header: string,
    payset: seq<Txn>,
    hasDelta: bool)

  /** What `flattenSignedTxn` extracts; None where it reports an error. */
  datatype FlatTxn = FlatTxn(
    txid: string,
    sender: string,
    txnType: string,
    fee: nat,
    receiver: string,
    amount: int,
    note: string,
    json: string)

  type Flatten = (Txn, nat, nat) -> Option<FlatTxn>

  datatype Config = Config(bySender: bool, byReceiver: bool)

  datatype BlockRow = BlockRow(timestamp: int, proposer: string, txnCount: nat, header: string)

  /** A transaction row, whichever table holds it. */
  datatype TxnRow = TxnRow(round: nat, intra: nat, txn: FlatTxn)

  datatype AccountKey = AccountKey(account: string, round: nat, txid: string)

  datatype Tables = Tables(
    blocks: map<nat, BlockRow>,
    byRound: map<(nat, nat), TxnRow>,
    byId: map<string, TxnRow>,
    bySender: map<AccountKey, TxnRow>,
    byReceiver: map<AccountKey, TxnRow>)

  datatype Db = Db(tables: Tables, meta: map<string, string>)

  const NO_ROWS := Tables(map[], map[], map[], map[], map[])

  // ---------- One block's writes ----------

  function WithBlock(t: Tables, b: Block): Tables {
    t.(blocks := t.blocks[b.round := BlockRow(b.timestamp, b.proposer, |b.payset|, b.header)])
  }

  datatype Statement =
    | ByRound(row: TxnRow)
    | ById(row: TxnRow)
    | BySender(row: TxnRow)
    | ByReceiver(row: TxnRow)

  function Inserted(t: Tables, s: Statement): Tables {
    var row := s.row;
    match s
    case ByRound(_) => t.(byRound := t.byRound[(row.round, row.intra) := row])
    case ById(_) => t.(byId := t.byId[row.txn.txid := row])
    case BySender(_) => t.(bySender := t.bySender[AccountKey(row.txn.sender, row.round, row.txn.txid) := row])
    case ByReceiver(_) => t.(byReceiver := t.byReceiver[AccountKey(row.txn.receiver, row.round, row.txn.txid) := row])
  }

  /** The statements one transaction adds to the batch. */
  function StatementsOf(row: TxnRow, cfg: Config): seq<Statement> {
    [ByRound(row), ById(row)]
    + (if cfg.bySender && row.txn.sender != "" then [BySender(row)] else [])
    + (if cfg.byReceiver && row.txn.receiver != "" then [ByReceiver(row)] else [])
  }

  /** The batch of the transactions from `intra` on; those that fail to flatten are skipped. */
  function BatchFrom(b: Block, flatten: Flatten, cfg: Config, intra: nat): seq<Statement>
    requires intra <= |b.payset|
    decreases |b.payset| - intra
  {
    if intra == |b.payset| then []
    else
      (match flatten(b.payset[intra], b.round, intra)
       case None => []
       case Some(txn) => StatementsOf(TxnRow(b.round, intra, txn), cfg))
      + BatchFrom(b, flatten, cfg, intra + 1)
  }

  function Batch(b: Block, flatten: Flatten, cfg: Config): seq<Statement> {
    BatchFrom(b, flatten, cfg, 0)
  }

  function Executed(t: Tables, batch: seq<Statement>): Tables
    decreases |batch|
  {
    if batch == [] then t else Executed(Inserted(t, batch[0]), batch[1..])
  }

  const NEXT_ROUND := "next_round"
  const LAST_INGESTED := "last_ingested_round"
  const GENESIS := "genesis_json"

  /** The database after the first n of a block's four writes. */
  function AfterWrites(db: Db, b: Block, flatten: Flatten, cfg: Config, n: nat): Db {
    var t1 := if n >= 1 then WithBlock(db.tables, b) else db.tables;
    var t2 := if n >= 2 then Executed(t1, Batch(b, flatten, cfg)) else t1;
    var m3 := if n >= 3 then db.meta[NEXT_ROUND := Decimal(b.round + 1)] else db.meta;
    var m4 := if n >= 4 then m3[LAST_INGESTED := Decimal(b.round)] else m3;
    Db(t2, m4)
  }

  predicate MissingDelta(b: Block) {
    !b.hasDelta && b.round != 0
  }

  /** A call of Receive of which the store accepts the first n writes. */
  function Received(db: Db, b: Block, flatten: Flatten, cfg: Config, n: nat): Db {
    if MissingDelta(b) then db else AfterWrites(db, b, flatten, cfg, n)
  }

  /** `RoundRequest`: where to resume. */
  function Requested(meta: map<string, string>): Result<nat, string> {
    if NEXT_ROUND !in meta then Success(0)
    else match ParseInt64(meta[NEXT_ROUND])
      case None => Failure(meta[NEXT_ROUND])
      case Some(n) => Success(if n < 0 then 0 else n)
  }

  function Initialised(meta: map<string, string>, genesis: Option<string>, nextRound: nat): map<string, string> {
    (match genesis
     case None => meta
     case Some(json) => meta[GENESIS := json])[NEXT_ROUND := Decimal(nextRound)]
  }

  lemma ConcatAssociates<T>(a: seq<T>, b: seq<T>, c: seq<T>)
    ensures a + (b + c) == (a + b) + c
  {
  }

  // ---------- The exporter ----------

  class CassandraExporter {
    const cfg: Config
    const flatten: Flatten
    var tables: Tables
    var meta: map<string, string>

    constructor (cfg: Config, flatten: Flatten)
      ensures this.cfg == cfg && this.flatten == flatten
      ensures View() == Db(NO_ROWS, map[])
    {
      this.cfg, this.flatten := cfg, flatten;
      tables, meta := NO_ROWS, map[];
    }

    ghost function View(): Db
      reads this
    {
      Db(tables, meta)
    }

    method UpsertMeta(id: string, value: string)
      modifies this`meta
      ensures meta == old(meta)[id := value]
    {
      meta := meta[id := value];
    }

    method RoundRequest() returns (r: Result<nat, string>)
      ensures r == Requested(meta)
    {
      if NEXT_ROUND !in meta {
        return Success(0);
      }
      var parsed := ParseInt64(meta[NEXT_ROUND]);
      if parsed.None? {
        return Failure(meta[NEXT_ROUND]);
      }
      if parsed.value < 0 {
        return Success(0);
      }
      return Success(parsed.value);
    }

    method Init(genesis: Option<string>, nextRound: nat)
      modifies this`meta
      ensures meta == Initialised(old(meta), genesis, nextRound)
    {
      if genesis.Some? {
        UpsertMeta(GENESIS, genesis.value);
      }
      UpsertMeta(NEXT_ROUND, Decimal(nextRound));
    }

    /** `writes` is how many of the four writes the store accepts before the first failure
        or the process dies; 4 is a complete call. */
    method Receive(b: Block, writes: nat) returns (ok: bool)
      modifies this
      ensures ok <==> (b.hasDelta || b.round == 0) && writes >= 4
      ensures !b.hasDelta && b.round > 0 ==> View() == old(View())
      ensures View() == Received(old(View()), b, flatten, cfg, writes)
    {
      hide Executed, BatchFrom, Decimal;
      if !b.hasDelta && b.round != 0 {
        return false;
      }
      if writes < 1 {
        return false;
      }
      tables := WithBlock(tables, b);
      var batch := BuildBatch(b);
      if writes < 2 {
        return false;
      }
      ExecuteBatch(batch);
      if writes < 3 {
        return false;
      }
      UpsertMeta(NEXT_ROUND, Decimal(b.round + 1));
      if writes < 4 {
        return false;
      }
      UpsertMeta(LAST_INGESTED, Decimal(b.round));
      return true;
    }

    method BuildBatch(b: Block) returns (batch: seq<Statement>)
      ensures batch == Batch(b, flatten, cfg)
    {
      hide StatementsOf;
      batch := [];
      for intra := 0 to |b.payset|
        invariant batch + BatchFrom(b, flatten, cfg, intra) == Batch(b, flatten, cfg)
      {
        var flat := flatten(b.payset[intra], b.round, intra);
        if flat.Some? {
          var added := StatementsOf(TxnRow(b.round, intra, flat.value), cfg);
          ConcatAssociates(batch, added, BatchFrom(b, flatten, cfg, intra + 1));
          batch := batch + added;
        }
      }
      assert batch + [] == batch;
    }

    /** A logged batch: all of its statements or none. */
    method ExecuteBatch(batch: seq<Statement>)
      modifies this`tables
      ensures tables == Executed(old(tables), batch)
    {
      for i := 0 to |batch|
        invariant Executed(tables, batch[i..]) == Executed(old(tables), batch)
      {
        assert batch[i..][1..] == batch[i + 1..];
        tables := Inserted(tables, batch[i]);
      }
      assert batch[|batch|..] == [];
    }
  }
}
