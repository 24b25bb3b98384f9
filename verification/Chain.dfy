/**
 The chain of saved blocks (core.Service.FinalizeBlock, rdochain.BlockChain, and the linking checks of
 ValidateBlock), over a key-value store of blocks by number and hash.
 */
module Chain {
  import opened Words
  import opened Sums
  import opened Proto
  import opened Ledger
  import opened Validator
  import opened BlockValidator
  import opened Conservation
  import opened Accounts

  datatype BlockKey = BlockKey(num: u64, hash: bytes)

  /** The buckets of the store. */
  datatype Db = Db(blocks: map<BlockKey, Block>, hashByNum: map<u64, bytes>, numByHash: map<bytes, u64>)

  datatype Lookup = Found(block: Block) | NotForged | ReadError

  // ----- the chain as a value

  /** Block i of a chain: its number, its link to the block before, and how the store finds it. */
  ghost predicate Linked(chain: seq<Block>, db: Db, i: nat)
    requires i < |chain|
  {
    && chain[i].num == i
    && (i > 0 ==>
         && chain[i].parent == chain[i - 1].hash
         && chain[i - 1].timestamp < chain[i].timestamp
         && i in db.hashByNum && db.hashByNum[i] == chain[i].hash
         && chain[i].hash in db.numByHash && db.numByHash[chain[i].hash] == i
         && BlockKey(i, chain[i].hash) in db.blocks && db.blocks[BlockKey(i, chain[i].hash)] == chain[i])
  }

  /** The store knows no other block, and the genesis hash belongs to the genesis alone. */
  ghost predicate NothingElse(chain: seq<Block>, db: Db)
    requires |chain| > 0
  {
    && (forall k | k in db.blocks :: 0 < k.num < |chain| && k.hash == chain[k.num].hash)
    && (forall h | h in db.numByHash :: 0 < db.numByHash[h] < |chain| && chain[db.numByHash[h]].hash == h)
    && chain[0].hash !in db.numByHash
  }

  /** The stored chain: blocks 0 to head without gaps, each linked to the one before. */
  ghost predicate Stored(chain: seq<Block>, db: Db)
  {
    |chain| > 0 && NothingElse(chain, db) && forall i | 0 <= i < |chain| :: Linked(chain, db, i)
  }

  /** WriteBlock: refused when the key exists. */
  function Write(db: Db, b: Block): Option<Db>
  {
    if BlockKey(b.num, b.hash) in db.blocks then None
    else Some(Db(db.blocks[BlockKey(b.num, b.hash) := b], db.hashByNum[b.num := b.hash], db.numByHash[b.hash := b.num]))
  }

  /** GetBlockByNum of the store. */
  function ByNum(db: Db, num: u64): Lookup
  {
    if num !in db.hashByNum then ReadError
    else if BlockKey(num, db.hashByNum[num]) !in db.blocks then NotForged
    else Found(db.blocks[BlockKey(num, db.hashByNum[num])])
  }

  function ByHash(db: Db, hash: bytes): Lookup
  {
    if hash !in db.numByHash || BlockKey(db.numByHash[hash], hash) !in db.blocks then NotForged
    else Found(db.blocks[BlockKey(db.numByHash[hash], hash)])
  }

  /** Looking up by number and by hash finds exactly the blocks of the chain. */
  lemma LookupsFind(chain: seq<Block>, db: Db, i: nat, hash: bytes)
    requires Stored(chain, db)
    ensures 0 < i < |chain| ==> i < U64 && ByNum(db, i) == Found(chain[i])
    ensures ByHash(db, hash).Found? ==>
      var b := ByHash(db, hash).block; 0 < b.num < |chain| && chain[b.num] == b && b.hash == hash
    ensures 0 < i < |chain| ==> ByHash(db, chain[i].hash) == Found(chain[i])
    ensures !ByHash(db, hash).ReadError?
  {
    if 0 < i < |chain| {
      assert Linked(chain, db, i);
    }
    if hash in db.numByHash {
      assert Linked(chain, db, db.numByHash[hash]);
    }
  }

  /** No two blocks of the chain share a hash. */
  lemma DistinctHashes(chain: seq<Block>, db: Db, i: nat, j: nat)
    requires Stored(chain, db) && i < j < |chain|
    ensures chain[i].hash != chain[j].hash
  {
    assert Linked(chain, db, i) && Linked(chain, db, j);
  }

  /** What ValidateBlock checks about the place of a block in the chain. */
  ghost predicate Fits(chain: seq<Block>, b: Block)
    requires |chain| > 0
  {
    var head := chain[|chain| - 1];
    && b.num == |chain|
    && b.parent == head.hash
    && head.timestamp < b.timestamp
    && forall i | 0 <= i < |chain| :: chain[i].hash != b.hash
  }

  /** A block that fits is never refused by the store and extends the stored chain. */
  lemma WriteExtends(chain: seq<Block>, db: Db, b: Block)
    requires Stored(chain, db) && Fits(chain, b)
    ensures Write(db, b).Some? && Stored(chain + [b], Write(db, b).value)
  {
    assert BlockKey(b.num, b.hash) !in db.blocks && b.hash !in db.numByHash;
    var longer, db' := chain + [b], Write(db, b).value;
    forall i | 0 <= i < |longer| ensures Linked(longer, db', i) {
      if i < |chain| {
        assert Linked(chain, db, i);
        assert chain[i].hash != b.hash;
      }
    }
    assert NothingElse(longer, db') by {
      WriteAddsOne(chain, db, b);
    }
  }

  lemma WriteAddsOne(chain: seq<Block>, db: Db, b: Block)
    requires Stored(chain, db) && Fits(chain, b) && Write(db, b).Some? && b.hash !in db.numByHash
    ensures NothingElse(chain + [b], Write(db, b).value)
  {
    assert chain[0].hash != b.hash;
  }

  // ----- the object

  /** What storing a block can end with: an error of the output store, or of the block store after the outputs are in. */
  datatype StoreResult = SqlError | KvError | Done

  class BlockChain {
    var headBlockNum: u64
    var futureBlockNum: nat
    var prevHash: bytes
    var headBlock: Block
    var genesis: Block
    var genesisHash: bytes
    var db: Db
    var supply: Supply
    var nonces: Nonces
    ghost var chain: seq<Block>

    ghost predicate Valid()
      reads this
    {
      && Stored(chain, db)
      && chain[0] == genesis && genesisHash == genesis.hash
      && |chain| == headBlockNum + 1
      && futureBlockNum == headBlockNum + 1
      && headBlock == chain[headBlockNum] && prevHash == headBlock.hash
    }

    /** Init on an empty database. */
    constructor (genesis: Block, supply: Supply)
      requires genesis.num == 0
      ensures Valid() && chain == [genesis] && this.supply == supply && nonces == map[]
    {
      headBlockNum, futureBlockNum := 0, 1;
      headBlock, prevHash := genesis, genesis.hash;
      this.genesis, genesisHash := genesis, genesis.hash;
      db := Db(map[], map[], map[]);
      this.supply, nonces := supply, map[];
      chain := [genesis];
      new;
      assert Linked([genesis], db, 0);
    }

    method GetBlockByNum(num: u64) returns (r: Lookup)
      requires Valid()
      ensures r == if num < |chain| then Found(chain[num]) else NotForged
    {
      LookupsFind(chain, db, num, []);
      if num == 0 { return Found(genesis); }
      if num > headBlockNum { return NotForged; }
      return ByNum(db, num);
    }

    method GetBlockByHash(hash: bytes) returns (r: Lookup)
      requires Valid()
      ensures r.Found? <==> exists i | 0 <= i < |chain| :: chain[i].hash == hash
      ensures r.Found? ==> r.block.num < |chain| && chain[r.block.num] == r.block && r.block.hash == hash
      ensures !r.ReadError?
    {
      assert Linked(chain, db, 0);
      LookupsFind(chain, db, 0, hash);
      if hash == genesisHash { return Found(genesis); }
      r := ByHash(db, hash);
      forall i | 0 <= i < |chain| && chain[i].hash == hash ensures r.Found? {
        if i > 0 { LookupsFind(chain, db, i, hash); }
      }
    }

    /** The linking checks of ValidateBlock: they pass exactly for a block that fits at the end of the chain. */
    method CheckLinks(b: Block) returns (ok: bool)
      requires Valid() && b.num > 0
      ensures ok <==> Fits(chain, b)
    {
      var known := GetBlockByHash(b.hash);
      if known.Found? { return false; }
      known := GetBlockByNum(b.num);
      if known.Found? { return false; }
      var before := GetBlockByNum(b.num - 1);
      if !before.Found? { return false; }
      var parent := GetBlockByHash(b.parent);
      if !parent.Found? {
        assert Linked(chain, db, |chain| - 1);
        return false;
      }
      assert Linked(chain, db, parent.block.num) && Linked(chain, db, |chain| - 1);
      OnlyOne(parent.block.num, |chain| - 1);
      if parent.block.timestamp >= b.timestamp { return false; }
      return b.num - parent.block.num <= 1;
    }

    lemma OnlyOne(i: nat, j: nat)
      requires Valid() && i < |chain| && j < |chain|
      ensures chain[i].hash == chain[j].hash ==> i == j
    {
      if i < j {
        DistinctHashes(chain, db, i, j);
      } else if j < i {
        DistinctHashes(chain, db, j, i);
      }
    }

    /**
     ValidateBlock; sealed stands for the checks of header, block hash, proposer signature and votes. Failed
     standard transactions are listed without an error: such a block is answered like an accepted one.
     */
    method ValidateBlock(env: Env, b: Block, sealed: bool) returns (ok: bool, failed: seq<Transaction>)
      requires Valid() && ValidEnv(env) && b.num > 0
      ensures ok <==> sealed && Fits(chain, b) && Passable(env, b.num, b.transactions)
      ensures failed == if ok then Failed(env, b.transactions) else []
      ensures ok && failed == [] <==> sealed && Fits(chain, b) && Accepted(env, b.num, b.transactions)
    {
      ok, failed := ValidateBlockTransactions(env, b.num, b.transactions);
      if !ok { return false, []; }
      if !sealed { return false, []; }
      var linked := CheckLinks(b);
      if !linked { return false, []; }
    }

    /** SaveBlock: the store with the senders' nonces, the amount statistics, and the head; or an error and no change. */
    method SaveBlock(b: Block, rows: UtxoSet) returns (ok: bool)
      requires Valid() && Fits(chain, b)
      modifies this
      ensures Valid() && genesis == old(genesis)
      ensures ok <==> UpdateAll(old(nonces), b.transactions).Some?
      ensures ok ==> chain == old(chain) + [b] && UpdateAll(old(nonces), b.transactions) == Some(nonces)
      ensures ok ==> supply == Grown(old(supply), rows, SeqSum(b.transactions, RewardOut), SeqSum(b.transactions, FeeOut))
      ensures !ok ==> chain == old(chain) && nonces == old(nonces) && supply == old(supply)
    {
      var counted := UpdateBlockAccountState(nonces, b.transactions);
      if counted.None? { return false; }
      nonces := counted.value;
      UpdateAmountStats(b.transactions, rows);
      MoveHead(b);
      return true;
    }

    method UpdateAmountStats(ts: seq<Transaction>, rows: UtxoSet)
      modifies this`supply
      ensures supply == Grown(old(supply), rows, SeqSum(ts, RewardOut), SeqSum(ts, FeeOut))
    {
      var reward, fee := AmountStats(ts);
      supply := Supply(rows, supply.genesis, Wrap(supply.rewards + reward), Wrap(supply.fees + fee));
    }

    method MoveHead(b: Block)
      requires Valid() && Fits(chain, b)
      modifies this`db, this`headBlockNum, this`futureBlockNum, this`prevHash, this`headBlock, this`chain
      ensures Valid() && chain == old(chain) + [b]
    {
      WriteExtends(chain, db, b);
      db := Write(db, b).value;
      headBlockNum := headBlockNum + 1;
      futureBlockNum := futureBlockNum + 1;
      prevHash := b.hash;
      headBlock := b;
      chain := chain + [b];
    }

    /** CheckBalance on the stored outputs and statistics. */
    method CheckBalance() returns (ok: bool)
      ensures ok <==> BalanceCorrect(supply)
    {
      var total := SumBalance(supply.utxo);
      WrapAdd(Total(supply.utxo), supply.fees);
      return Wrap(supply.genesis + supply.rewards) == Wrap(total + supply.fees);
    }

    /**
     rdochain.Service.FinalizeBlock: the outputs first, then the block. When the block store refuses, the outputs have
     already changed.
     */
    method StoreBlock(b: Block) returns (r: StoreResult)
      requires Valid() && Fits(chain, b)
      modifies this
      ensures Valid() && genesis == old(genesis)
      ensures r == if Process(old(supply).utxo, b.transactions).None? then SqlError
                   else if UpdateAll(old(nonces), b.transactions).None? then KvError else Done
      ensures r.Done? ==>
        && chain == old(chain) + [b]
        && Finalize(old(supply), b.transactions) == Some(supply)
        && UpdateAll(old(nonces), b.transactions) == Some(nonces)
      ensures !r.Done? ==> chain == old(chain) && nonces == old(nonces)
      ensures r.SqlError? ==> supply == old(supply)
      ensures r.KvError? ==> supply == old(supply).(utxo := Process(old(supply).utxo, b.transactions).value)
    {
      var rows := ProcessBlock(supply.utxo, b.transactions);
      if rows.None? { return SqlError; }
      var ok := SaveBlock(b, rows.value);
      if ok { return Done; }
      supply := supply.(utxo := rows.value);
      return KvError;
    }

    /** Every block of the chain: numbered without gaps, linked by hash, with growing time. */
    lemma ChainIsLinear(i: nat)
      requires Valid() && 0 < i <= headBlockNum
      ensures chain[i].num == i == chain[i - 1].num + 1
      ensures chain[i].parent == chain[i - 1].hash && chain[i - 1].timestamp < chain[i].timestamp
    {
      assert Linked(chain, db, i) && Linked(chain, db, i - 1);
    }
  }
}
