/**
 The node's block handler (blockchain/core/service.go): FinalizeBlock over the chain, the transaction pool and the
 staking pool, and runs of it.
 */
module Core {
  import opened Words
  import opened Sums
  import opened Proto
  import opened Ledger
  import opened Validator
  import opened BlockValidator
  import opened Conservation
  import opened Accounts
  import opened StakeBatches
  import opened StakingPoolObject
  import opened Rewards
  import opened Chain
  import opened Survival
  import opened Nodes
  import Staking
  import TxPool
  import E = Exactness

  class Service {
    const setup: Setup
    const chain: BlockChain
    const pool: TxPool.Pool
    const stakePool: StakingPool

    ghost predicate Valid()
      reads chain, pool
    {
      && chain.Valid() && pool.Valid() && stakePool.Valid()
      && ValidSetup(setup) && setup.params == stakePool.params
    }

    /** The node as a value. */
    ghost function View(): Node
      reads chain, stakePool
    {
      Node(chain.chain, chain.supply, chain.nonces, stakePool.View())
    }

    constructor (setup: Setup, chain: BlockChain, pool: TxPool.Pool, stakePool: StakingPool)
      requires chain.Valid() && pool.Valid() && stakePool.Valid() && ValidSetup(setup) && setup.params == stakePool.params
      ensures Valid() && this.setup == setup && this.chain == chain && this.pool == pool && this.stakePool == stakePool
    {
      this.setup, this.chain, this.pool, this.stakePool := setup, chain, pool, stakePool;
    }

    /** What the validator reads at this moment, for a block with these rewards. */
    function Now(rewards: map<bytes, u64>): (env: Env)
      reads chain, stakePool
      ensures setup.params == stakePool.params ==> env == EnvOf(setup, View(), rewards)
    {
      Env(setup.cfg, chain.supply.utxo, chain.nonces, ElectorCounts(stakePool.validators),
          stakePool.slotsFilled < stakePool.params.limit, rewards, setup.signed, setup.hashOf)
    }

    /** The queue after a stored block: the block's senders are gone and nobody else. */
    twostate predicate Cleared(b: Block)
      reads pool
    {
      && (forall x | x in pool.pending :: x in old(pool.pending))
      && (forall x | x in old(pool.pending) && !TxPool.SenderIn(b.transactions, Sender(x)) :: x in pool.pending)
      && (forall i | 0 <= i < |b.transactions| && TxPool.Cleans(b.transactions[i].kind) ::
            TxPool.Gone(b.transactions[i], pool.txHashMap.Keys, pool.txSenderMap.Keys))
    }

    static lemma SystemsHaveInputs(env: Env, num: u64, ts: seq<Transaction>)
      requires ValidEnv(env) && Passable(env, num, ts)
      ensures forall t | t in ts && t.kind == SYSTEM_UNSTAKE :: t.inputs != []
    {
      forall t | t in ts && t.kind == SYSTEM_UNSTAKE ensures t.inputs != [] {
        var i :| 0 <= i < |ts| && ts[i] == t;
        assert SystemOk(env, num, ts, ts[i]);
      }
    }

    // ----- the validator's answer

    /** The checks before the transactions are verified; sealed stands for header, block hash, signature and votes. */
    method CheckFrame(b: Block, sealed: bool) returns (ok: bool)
      requires Valid() && b.num != 0
      ensures ok <==> Framed(setup.cfg.blockSize, chain.chain, b, sealed)
    {
      var size := GetTransactionsSize(b.transactions);
      if size > setup.cfg.blockSize { return false; }
      ok := CheckBlockBalance(b.transactions);
      if !ok || !sealed { return false; }
      ok := chain.CheckLinks(b);
    }

    /** verifyTransactions up to the point where it asks for the rewards. */
    static method ReachRewards(env: Env, num: u64, ts: seq<Transaction>) returns (reached: bool)
      requires ValidEnv(env)
      ensures reached <==> Asks(env, num, ts)
    {
      var k := 0;
      while k < |ts|
        invariant k <= |ts|
        invariant forall i | 0 <= i < k :: ts[i].kind != REWARD && (IsSystem(ts[i].kind) ==> SystemOk(env, num, ts, ts[i]))
      {
        if ts[k].kind == REWARD {
          reached := ts[k].num == num;
          if reached {
            assert AsksAt(env, num, ts, k);
          } else {
            NeverAsks(env, num, ts, k);
          }
          return;
        }
        if IsSystem(ts[k].kind) {
          var ok, paid := ValidateSystem(env, num, ts, ts[k], {});
          if !ok {
            NeverAsks(env, num, ts, k);
            return false;
          }
        }
        k := k + 1;
      }
      assert AsksAt(env, num, ts, k);
      return true;
    }

    static lemma NeverAsks(env: Env, num: u64, ts: seq<Transaction>, k: nat)
      requires ValidEnv(env) && k < |ts| && (forall i | 0 <= i < k :: ts[i].kind != REWARD)
      requires if ts[k].kind == REWARD then ts[k].num != num else IsSystem(ts[k].kind) && !SystemOk(env, num, ts, ts[k])
      ensures !Asks(env, num, ts)
    {
      forall j | 0 <= j <= |ts| ensures !AsksAt(env, num, ts, j) {
        if j > k && ts[k].kind != REWARD { assert !SystemOk(env, num, ts, ts[k]); }
      }
    }

    /** The validator's answer; a refused block gives up its marks in the pool. */
    method Check(b: Block, sealed: bool) returns (crashed: bool, ok: bool)
      requires Valid() && b.num != 0
      modifies pool`forged
      ensures Valid() && (crashed <==> Panics(setup, View(), b, sealed)) && (ok <==> Passes(setup, View(), b, sealed))
      ensures ok ==> forall t | t in b.transactions && t.kind == SYSTEM_UNSTAKE :: t.inputs != []
    {
      var rewards := stakePool.GetRewardMap(setup.rp, b.proposer.address);
      if rewards.None? {
        crashed := WouldPanic(b, sealed);
        ok := false;
      } else {
        crashed := false;
        var failed: seq<Transaction>;
        ok, failed := chain.ValidateBlock(Now(rewards.value), b, sealed);
        if ok { SystemsHaveInputs(Now(rewards.value), b.num, b.transactions); }
      }
      if !ok && !crashed {
        pool.ClearForged(b.transactions);
      }
    }

    /** Whether validation gets as far as the rewards, which it cannot compute. */
    method WouldPanic(b: Block, sealed: bool) returns (crashed: bool)
      requires Valid() && b.num != 0
      ensures crashed <==> Framed(setup.cfg.blockSize, chain.chain, b, sealed) && Asks(EnvOf(setup, View(), map[]), b.num, b.transactions)
    {
      crashed := CheckFrame(b, sealed);
      if crashed {
        crashed := ReachRewards(Now(map[]), b.num, b.transactions);
      }
    }

    /** ValidateGenesis; sealed stands for the header check. */
    method CheckGenesis(b: Block, sealed: bool) returns (r: Outcome)
      requires Valid() && b.num == 0
      ensures Becomes(setup, View(), b, sealed, r, View()) && (r.Known? || r.Refused? || r.Crashed?)
    {
      assert chain.chain[0] == chain.genesis;
      if b.hash != chain.genesis.hash || !sealed { return Refused; }
      if |b.transactions| > |chain.genesis.transactions| { return Crashed; }
      for k := 0 to |b.transactions|
        invariant forall i | 0 <= i < k :: b.transactions[i].hash == chain.genesis.transactions[i].hash
      {
        if b.transactions[k].hash != chain.genesis.transactions[k].hash { return Crashed; }
      }
      return Known;
    }

    // ----- storing

    /** The updates after the block is stored: the queue, the staking pool, and the balance check. */
    method Settle(b: Block) returns (r: Outcome)
      requires Valid()
      requires forall t | t in b.transactions :: t in pool.known && (t.kind == SYSTEM_UNSTAKE ==> t.inputs != [])
      modifies pool, stakePool
      ensures Valid() && Cleared(b)
      ensures r == StakeError || r == Saved(BalanceCorrect(chain.supply))
      ensures Restaked(setup.params, old(stakePool.View()), b.transactions, r.Saved?, stakePool.View())
    {
      pool.Finalize(b.transactions);
      var ok;
      ghost var orders;
      ok, orders := stakePool.FinalizeStaking(b.transactions);
      assert RestakedBy(setup.params, old(stakePool.View()), b.transactions, orders, ok, stakePool.View());
      if !ok { return StakeError; }
      var balanced := chain.CheckBalance();
      r := Saved(balanced);
    }

    /** Storing a block that passed, and what follows. */
    method Store(b: Block, ghost sealed: bool) returns (r: Outcome)
      requires Valid() && b.num != 0 && Passes(setup, View(), b, sealed)
      requires forall t | t in b.transactions :: t in pool.known && (t.kind == SYSTEM_UNSTAKE ==> t.inputs != [])
      modifies chain, pool, stakePool
      ensures Valid() && chain.genesis == old(chain.genesis)
      ensures Becomes(setup, old(View()), b, sealed, r, View())
      ensures if IsStored(r) then Cleared(b) else pool.View() == old(pool.View())
    {
      ghost var x := View();
      var stored := chain.StoreBlock(b);
      if stored.SqlError? {
        NotStored(setup, x, b, sealed, View());
        return Refused;
      }
      if stored.KvError? { return Unsaved; }
      r := Settle(b);
    }

    static lemma NotStored(setup: Setup, x: Node, b: Block, sealed: bool, x': Node)
      requires ValidSetup(setup) && |x.chain| > 0 && b.num != 0 && Passes(setup, x, b, sealed) && x' == x
      requires Process(x.supply.utxo, b.transactions).None?
      ensures Becomes(setup, x, b, sealed, Refused, x')
    {
    }

    /**
     FinalizeBlock: each outcome with its exact condition and the node it leaves. Refused blocks change nothing; a block
     that passes is stored when its inputs are there, its outputs are new and its numbers agree with the nonces; then
     the queue and the staking pool follow. The errors of the block store and of the staking pool come after the
     outputs, or the whole block, have been stored.
     */
    method FinalizeBlock(b: Block, sealed: bool) returns (r: Outcome)
      requires Valid() && forall t | t in b.transactions :: t in pool.known
      modifies chain, pool, stakePool
      ensures Valid() && chain.genesis == old(chain.genesis)
      ensures Becomes(setup, old(View()), b, sealed, r, View())
      ensures if IsStored(r) then Cleared(b) else pool.View() == old(pool.View())
    {
      if b.num == 0 {
        r := CheckGenesis(b, sealed);
        return;
      }
      var crashed, ok := Check(b, sealed);
      if crashed { return Crashed; }
      if !ok { return Refused; }
      r := Store(b, sealed);
    }

    // ----- runs

    /**
     A run over any blocks: the nodes it goes through are linked by FinalizeBlock, the chain only grows, and if every
     block is due at the node it meets, every block is stored and CheckBalance never fails.
     */
    method FinalizeAll(blocks: seq<Block>, sealed: seq<bool>) returns (outcomes: seq<Outcome>, ghost nodes: seq<Node>)
      requires Valid() && |sealed| == |blocks| && forall b, t | b in blocks && t in b.transactions :: t in pool.known
      modifies chain, pool, stakePool
      ensures Valid() && chain.genesis == old(chain.genesis)
      ensures RunOf(setup, nodes, blocks, sealed, outcomes) && nodes[0] == old(View()) && nodes[|blocks|] == View()
      ensures old(chain.chain) <= chain.chain && |chain.chain| == |old(chain.chain)| + Count(outcomes)
      ensures AllDue(setup, nodes, blocks, sealed) && BalanceCorrect(old(chain.supply)) ==>
        forall i | 0 <= i < |blocks| :: Fair(outcomes[i])
    {
      outcomes, nodes := [], [View()];
      for k := 0 to |blocks|
        invariant Valid() && chain.genesis == old(chain.genesis)
        invariant |nodes| == k + 1 && nodes[0] == old(View()) && nodes[k] == View()
        invariant RunOf(setup, nodes, blocks[..k], sealed[..k], outcomes)
      {
        assert blocks[k] in blocks;
        var r := FinalizeBlock(blocks[k], sealed[k]);
        RunOfPush(setup, nodes, blocks, sealed, outcomes, k, r, View());
        outcomes, nodes := outcomes + [r], nodes + [View()];
      }
      assert blocks[..|blocks|] == blocks && sealed[..|blocks|] == sealed;
      RunEnds(setup, nodes, blocks, sealed, outcomes);
    }

    static lemma RunEnds(setup: Setup, nodes: seq<Node>, blocks: seq<Block>, sealed: seq<bool>, outcomes: seq<Outcome>)
      requires ValidSetup(setup) && RunOf(setup, nodes, blocks, sealed, outcomes)
      ensures nodes[0].chain <= nodes[|blocks|].chain && |nodes[|blocks|].chain| == |nodes[0].chain| + Count(outcomes)
      ensures AllDue(setup, nodes, blocks, sealed) && BalanceCorrect(nodes[0].supply) ==>
        forall i | 0 <= i < |blocks| :: Fair(outcomes[i])
    {
      ChainGrows(setup, nodes, blocks, sealed, outcomes, |blocks|);
      assert outcomes[..|blocks|] == outcomes;
      if AllDue(setup, nodes, blocks, sealed) && BalanceCorrect(nodes[0].supply) {
        forall i | 0 <= i < |blocks| ensures Fair(outcomes[i]) {
          DueRunBalances(setup, nodes, blocks, sealed, outcomes, i);
        }
      }
    }

    // ----- the queue over blocks

    /** Every pending transaction that is no stake passes the validator at this moment. */
    ghost predicate AllPass()
      requires setup.cfg.stakeUnit > 0
      reads chain, pool, stakePool
    {
      Waiting(Now(map[]), pool.pending)
    }

    /** Insertion into the pool: the validator's verdict, and for stakes whether the pool has room for one more staker. */
    method Receive(t: Transaction, room: bool) returns (a: TxPool.Answer)
      requires Valid() && t in pool.known
      modifies pool
      ensures Valid() && (old(AllPass()) ==> AllPass())
      ensures a == TxPool.Added || a == TxPool.Replaced ==> StandardOk(Now(map[]), t)
    {
      var env := Now(map[]);
      var valid := ValidateStandard(env, t);
      var evicted;
      ghost var i;
      a, evicted, i := pool.Insert(t, valid && (t.kind == STAKE ==> room));
      if old(AllPass()) {
        InsertedPass(env, t, old(pool.pending), pool.pending);
      }
    }

    static lemma InsertedPass(env: Env, t: Transaction, before: seq<Transaction>, after: seq<Transaction>)
      requires ValidEnv(env) && Waiting(env, before) && forall x | x in after :: x in before || (x == t && StandardOk(env, t))
      ensures Waiting(env, after)
    {
      forall x | x in after ensures Pass(env, x) {
        if x in before { assert Pass(env, x); }
      }
    }

    lemma PendingNotDropped(ts: seq<Transaction>, x: Transaction)
      requires Valid() && x in pool.pending
      requires forall i | 0 <= i < |ts| && TxPool.Cleans(ts[i].kind) :: TxPool.Gone(ts[i], pool.txHashMap.Keys, pool.txSenderMap.Keys)
      ensures !Dropped(ts, Sender(x))
    {
      TxPool.HoldsQueued(pool.View(), x);
      assert Sender(x) in TxPool.SendersOf(x);
    }

    /**
     A due block whose collapses have one owner each leaves every pending transaction that is no stake valid: the pool
     drops exactly the senders whose coins or nonces the block may have used.
     */
    method FinalizeKeepsQueue(b: Block) returns (r: Outcome)
      requires Valid() && forall t | t in b.transactions :: t in pool.known
      modifies chain, pool, stakePool
      ensures Valid() && (old(Due(setup, View(), b)) ==> IsStored(r))
      ensures old(Due(setup, View(), b)) && SingleOwners(b.transactions) && Total(chain.supply.utxo) < U64 && old(AllPass()) ==> AllPass()
    {
      ghost var x, before := View(), pool.pending;
      ghost var env := EnvFor(setup, x, b);
      if AllPass() { RewardsNoMatter(Now(map[]), env, pool.pending); }
      r := FinalizeBlock(b, true);
      if Due(setup, x, b) {
        DueAdvances(setup, x, b, r, View());
        if SingleOwners(b.transactions) && Total(chain.supply.utxo) < U64 && old(AllPass()) {
          forall t | t in pool.pending ensures !Dropped(b.transactions, Sender(t)) {
            PendingNotDropped(b.transactions, t);
          }
          StoredFollows(setup, x, b, r, View());
          LeftoversPass(env, b.num, b.transactions, Now(map[]), before, pool.pending);
        }
      }
    }

    static lemma StoredFollows(setup: Setup, x: Node, b: Block, r: Outcome, x': Node)
      requires ValidSetup(setup) && |x.chain| > 0 && Becomes(setup, x, b, true, r, x') && IsStored(r)
      ensures Follows(EnvFor(setup, x, b), b.transactions, EnvOf(setup, x', map[]))
    {
    }

    // ----- from the genesis

    /**
     A node that starts from the genesis outputs: over any due blocks every block is stored and CheckBalance never
     fails; and if what is issued stays below 2^64, unspent outputs and fees are together exactly what was issued.
     */
    static method RunFromGenesis(setup: Setup, genesis: Block, supply: Supply, pool: TxPool.Pool, stakePool: StakingPool,
                                 blocks: seq<Block>, sealed: seq<bool>)
        returns (service: Service, outcomes: seq<Outcome>, ghost nodes: seq<Node>)
      requires genesis.num == 0 && E.Genesis(genesis.transactions) == Some(supply) && SeqSum(genesis.transactions, AllOut) < U64
      requires forall i | 0 <= i < |genesis.transactions| :: genesis.transactions[i].kind == GENESIS
      requires pool.Valid() && stakePool.Valid() && ValidSetup(setup) && setup.params == stakePool.params && |sealed| == |blocks|
      requires forall b, t | b in blocks && t in b.transactions :: t in pool.known
      modifies pool, stakePool
      ensures service.Valid() && RunOf(setup, nodes, blocks, sealed, outcomes)
      ensures nodes[0] == Node([genesis], supply, map[], old(stakePool.View())) && nodes[|blocks|] == service.View()
      ensures AllDue(setup, nodes, blocks, sealed) ==> forall i | 0 <= i < |blocks| :: Fair(outcomes[i])
      ensures AllDue(setup, nodes, blocks, sealed) && Bounded(setup, nodes, blocks) ==>
        var steps := Steps(setup, nodes, blocks);
        Total(service.chain.supply.utxo) + E.FeesUpTo(steps, |blocks|) == supply.genesis + E.RewardsUpTo(steps, |blocks|)
    {
      E.GenesisExact(genesis.transactions);
      var chain := new BlockChain(genesis, supply);
      service := new Service(setup, chain, pool, stakePool);
      outcomes, nodes := service.FinalizeAll(blocks, sealed);
      if AllDue(setup, nodes, blocks, sealed) && Bounded(setup, nodes, blocks) {
        DueRunIsExact(setup, nodes, blocks, sealed, outcomes, |blocks|);
      }
    }
  }
}
