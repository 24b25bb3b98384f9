/**
 A node as a value, what FinalizeBlock (blockchain/core/service.go) makes of it, and runs of blocks: when every block
 is stored and what the supply then is.
 */
module Nodes {
  import opened Words
  import opened Sums
  import opened Proto
  import opened Ledger
  import opened Validator
  import opened BlockValidator
  import opened Conservation
  import opened Accounts
  import opened Chain
  import opened Rewards
  import opened StakeBatches
  import Staking
  import E = Exactness

  /** What does not change: the configuration, and what signatures and hashes are right. */
  datatype Setup = Setup(
    cfg: Config, rp: RewardParams, params: Staking.Params, signed: Transaction -> bool, hashOf: Transaction -> bytes)

  ghost predicate ValidSetup(setup: Setup)
  {
    setup.cfg.stakeUnit > 0 && Staking.ValidParams(setup.params)
  }

  /** The chain, the unspent outputs with their statistics, the nonces, and the staking pool. */
  datatype Node = Node(chain: seq<Block>, supply: Supply, nonces: Nonces, stakes: Staking.Pool)

  /** How FinalizeBlock ends; Known is its answer to the genesis block, Crashed a panic. */
  datatype Outcome = Known | Refused | Crashed | Unsaved | StakeError | Saved(balanced: bool)

  /** Number of electors of each validator. */
  function ElectorCounts(validators: map<bytes, Staking.StakeData>): map<bytes, nat>
  {
    map v | v in validators :: |validators[v].electors|
  }

  /** NumberStakers: as many as the validator has electors. */
  lemma ElectorsCounted(validators: map<bytes, Staking.StakeData>, v: bytes)
    ensures v in ElectorCounts(validators) <==> v in validators
    ensures v in validators ==> ElectorCounts(validators)[v] == |validators[v].electors|
  {
  }

  /** What the validator reads, for a block with these rewards. */
  function EnvOf(setup: Setup, x: Node, rewards: map<bytes, u64>): Env
  {
    Env(setup.cfg, x.supply.utxo, x.nonces, ElectorCounts(x.stakes.validators), x.stakes.filled < setup.params.limit,
        rewards, setup.signed, setup.hashOf)
  }

  /** The rewards the code computes for a block's proposer; None when it divides by zero. */
  function RewardsFor(setup: Setup, x: Node, b: Block): Option<map<bytes, u64>>
  {
    RewardMap(setup.rp, x.stakes, b.proposer.address)
  }

  function EnvFor(setup: Setup, x: Node, b: Block): Env
  {
    var rewards := RewardsFor(setup, x, b);
    EnvOf(setup, x, if rewards.Some? then rewards.value else map[])
  }

  // ----- the validator's answer

  /** The checks before the transactions are verified. */
  ghost predicate Framed(blockSize: nat, chain: seq<Block>, b: Block, sealed: bool)
    requires |chain| > 0
  {
    NonFeeSize(b.transactions) <= blockSize && BalanceOk(b.transactions) && sealed && Fits(chain, b)
  }

  /** Verification asks for the rewards at position k: at the first reward transaction, or behind the last transaction. */
  ghost predicate AsksAt(env: Env, num: u64, ts: seq<Transaction>, k: nat)
    requires ValidEnv(env) && k <= |ts|
  {
    && (k < |ts| ==> ts[k].kind == REWARD && ts[k].num == num)
    && forall i | 0 <= i < k :: ts[i].kind != REWARD && (IsSystem(ts[i].kind) ==> SystemOk(env, num, ts, ts[i]))
  }

  ghost predicate Asks(env: Env, num: u64, ts: seq<Transaction>)
    requires ValidEnv(env)
  {
    exists k | 0 <= k <= |ts| :: AsksAt(env, num, ts, k)
  }

  /** A division by zero in the reward map is reached. */
  ghost predicate Panics(setup: Setup, x: Node, b: Block, sealed: bool)
    requires ValidSetup(setup) && |x.chain| > 0
  {
    && RewardsFor(setup, x, b).None?
    && Framed(setup.cfg.blockSize, x.chain, b, sealed)
    && Asks(EnvOf(setup, x, map[]), b.num, b.transactions)
  }

  /** A block that ValidateBlock answers without an error. */
  ghost predicate Passes(setup: Setup, x: Node, b: Block, sealed: bool)
    requires ValidSetup(setup) && |x.chain| > 0
  {
    RewardsFor(setup, x, b).Some? && sealed && Fits(x.chain, b) && Passable(EnvFor(setup, x, b), b.num, b.transactions)
  }

  /** The transactions have the hashes of the first transactions of the genesis block. */
  ghost predicate SameHashes(genesis: Block, b: Block)
  {
    |b.transactions| <= |genesis.transactions|
    && forall i | 0 <= i < |b.transactions| :: b.transactions[i].hash == genesis.transactions[i].hash
  }

  // ----- what FinalizeBlock makes of a node

  /** Everything that storing needs: the validator passes it, its outputs fit the ledger and its numbers the nonces. */
  ghost predicate Storable(setup: Setup, x: Node, b: Block, sealed: bool)
    requires ValidSetup(setup) && |x.chain| > 0
  {
    && b.num != 0 && Passes(setup, x, b, sealed)
    && Process(x.supply.utxo, b.transactions).Some? && UpdateAll(x.nonces, b.transactions).Some?
  }

  /** The staking pool after the block: its operations in order, up to the first transaction that fails. */
  ghost predicate RestakedBy(p: Staking.Params, s: Staking.Pool, ts: seq<Transaction>, orders: seq<seq<bytes>>, ok: bool, s': Staking.Pool)
    requires Staking.ValidParams(p)
  {
    && |orders| <= |ts| && (ok ==> |orders| == |ts|) && Orders(ts[..|orders|], orders)
    && Staking.Outcome(ok, s') == Replay(p, s, [Do(Staking.Release)] + BatchSteps(ts[..|orders|], orders))
  }

  ghost predicate Restaked(p: Staking.Params, s: Staking.Pool, ts: seq<Transaction>, ok: bool, s': Staking.Pool)
    requires Staking.ValidParams(p)
  {
    exists orders :: RestakedBy(p, s, ts, orders, ok, s')
  }

  ghost predicate Stores(setup: Setup, x: Node, b: Block, ok: bool, x': Node)
    requires ValidSetup(setup)
  {
    && x'.chain == x.chain + [b]
    && Finalize(x.supply, b.transactions) == Some(x'.supply)
    && UpdateAll(x.nonces, b.transactions) == Some(x'.nonces)
    && Restaked(setup.params, x.stakes, b.transactions, ok, x'.stakes)
  }

  /** Each outcome of FinalizeBlock, when it comes, and the node afterwards. */
  ghost predicate Becomes(setup: Setup, x: Node, b: Block, sealed: bool, r: Outcome, x': Node)
    requires ValidSetup(setup) && |x.chain| > 0
  {
    match r
    case Known => x' == x && b.num == 0 && sealed && b.hash == x.chain[0].hash && SameHashes(x.chain[0], b)
    case Refused =>
      && x' == x
      && if b.num == 0 then !sealed || b.hash != x.chain[0].hash
         else !Panics(setup, x, b, sealed) && (!Passes(setup, x, b, sealed) || Process(x.supply.utxo, b.transactions).None?)
    case Crashed =>
      && x' == x
      && if b.num == 0 then sealed && b.hash == x.chain[0].hash && !SameHashes(x.chain[0], b) else Panics(setup, x, b, sealed)
    case Unsaved =>
      && b.num != 0 && Passes(setup, x, b, sealed)
      && Process(x.supply.utxo, b.transactions).Some? && UpdateAll(x.nonces, b.transactions).None?
      && x' == x.(supply := x.supply.(utxo := Process(x.supply.utxo, b.transactions).value))
    case StakeError => Storable(setup, x, b, sealed) && Stores(setup, x, b, false, x')
    case Saved(balanced) =>
      Storable(setup, x, b, sealed) && Stores(setup, x, b, true, x') && (balanced <==> BalanceCorrect(x'.supply))
  }

  predicate IsStored(r: Outcome)
  {
    r.Saved? || r.StakeError?
  }

  /** The supply equation held, or the staking pool refused the block after it was stored. */
  predicate Fair(r: Outcome)
  {
    r == Saved(true) || r == StakeError
  }

  /** A block is stored exactly when it is storable, and extends the chain exactly then. */
  lemma StoredIff(setup: Setup, x: Node, b: Block, sealed: bool, r: Outcome, x': Node)
    requires ValidSetup(setup) && |x.chain| > 0 && Becomes(setup, x, b, sealed, r, x')
    ensures IsStored(r) <==> Storable(setup, x, b, sealed)
    ensures x'.chain == if IsStored(r) then x.chain + [b] else x.chain
  {
  }

  // ----- one accepted block

  /** An accepted block in its place, with new transaction hashes and no inputs outside the input-bearing kinds. */
  ghost predicate Due(setup: Setup, x: Node, b: Block)
    requires ValidSetup(setup) && |x.chain| > 0
  {
    && b.num != 0 && Fits(x.chain, b) && RewardsFor(setup, x, b).Some?
    && Accepted(EnvFor(setup, x, b), b.num, b.transactions)
    && FreshHashes(x.supply.utxo, b.transactions) && NoLooseInputs(b.transactions)
  }

  lemma AcceptedPassable(env: Env, num: u64, ts: seq<Transaction>)
    requires ValidEnv(env) && Accepted(env, num, ts)
    ensures Passable(env, num, ts)
  {
  }

  /** A due block passes validation, the output store and the block store. */
  lemma DueIsStored(setup: Setup, x: Node, b: Block)
    requires ValidSetup(setup) && |x.chain| > 0 && Due(setup, x, b)
    ensures Storable(setup, x, b, true)
  {
    var env := EnvFor(setup, x, b);
    AcceptedPassable(env, b.num, b.transactions);
    AcceptedProcesses(env, b.num, b.transactions);
    AcceptedNumbers(env, b.num, b.transactions);
    FittingStored(env.nonces, b.transactions);
  }

  function StepOf(setup: Setup, x: Node, b: Block): BlockStep
  {
    BlockStep(EnvFor(setup, x, b), b.num, b.transactions)
  }

  lemma DueAdvances(setup: Setup, x: Node, b: Block, r: Outcome, x': Node)
    requires ValidSetup(setup) && |x.chain| > 0 && Due(setup, x, b) && Becomes(setup, x, b, true, r, x')
    ensures IsStored(r) && x'.chain == x.chain + [b] && Next(x.supply, StepOf(setup, x, b), x'.supply)
    ensures r.Saved? ==> (r.balanced <==> BalanceCorrect(x'.supply))
  {
    DueIsStored(setup, x, b);
    StoredIff(setup, x, b, true, r, x');
  }

  // ----- runs

  ghost predicate RunAt(setup: Setup, nodes: seq<Node>, blocks: seq<Block>, sealed: seq<bool>, outcomes: seq<Outcome>, i: nat)
    requires ValidSetup(setup) && |nodes| == |blocks| + 1 && |sealed| == |outcomes| == |blocks| && i < |blocks|
  {
    |nodes[i].chain| > 0 && Becomes(setup, nodes[i], blocks[i], sealed[i], outcomes[i], nodes[i + 1])
  }

  /** A run of FinalizeBlock over any blocks. */
  ghost predicate RunOf(setup: Setup, nodes: seq<Node>, blocks: seq<Block>, sealed: seq<bool>, outcomes: seq<Outcome>)
    requires ValidSetup(setup)
  {
    && |nodes| == |blocks| + 1 && |sealed| == |outcomes| == |blocks|
    && forall i | 0 <= i < |blocks| :: RunAt(setup, nodes, blocks, sealed, outcomes, i)
  }

  ghost predicate DueAt(setup: Setup, nodes: seq<Node>, blocks: seq<Block>, sealed: seq<bool>, i: nat)
    requires ValidSetup(setup) && |nodes| == |blocks| + 1 && |sealed| == |blocks| && i < |blocks|
  {
    sealed[i] && |nodes[i].chain| > 0 && Due(setup, nodes[i], blocks[i])
  }

  /** Every block is sealed and due at the node it meets. */
  ghost predicate AllDue(setup: Setup, nodes: seq<Node>, blocks: seq<Block>, sealed: seq<bool>)
    requires ValidSetup(setup)
  {
    && |nodes| == |blocks| + 1 && |sealed| == |blocks|
    && forall i | 0 <= i < |blocks| :: DueAt(setup, nodes, blocks, sealed, i)
  }

  lemma RunOfPush(setup: Setup, nodes: seq<Node>, blocks: seq<Block>, sealed: seq<bool>, outcomes: seq<Outcome>, k: nat,
                   r: Outcome, x: Node)
    requires ValidSetup(setup) && k < |blocks| == |sealed| && |nodes| == k + 1 && |nodes[k].chain| > 0
    requires RunOf(setup, nodes, blocks[..k], sealed[..k], outcomes)
    requires Becomes(setup, nodes[k], blocks[k], sealed[k], r, x)
    ensures RunOf(setup, nodes + [x], blocks[..k + 1], sealed[..k + 1], outcomes + [r])
  {
    var ns, bs, ss, os := nodes + [x], blocks[..k + 1], sealed[..k + 1], outcomes + [r];
    forall i | 0 <= i < k + 1 ensures RunAt(setup, ns, bs, ss, os, i) {
      assert ns[i] == nodes[i] && bs[i] == blocks[i] && ss[i] == sealed[i];
      if i < k {
        assert RunAt(setup, nodes, blocks[..k], sealed[..k], outcomes, i);
        assert ns[i + 1] == nodes[i + 1] && os[i] == outcomes[i] && blocks[..k][i] == blocks[i] && sealed[..k][i] == sealed[i];
      }
    }
  }

  function Count(outcomes: seq<Outcome>): (n: nat)
  {
    if outcomes == [] then 0 else Count(outcomes[..|outcomes| - 1]) + (if IsStored(outcomes[|outcomes| - 1]) then 1 else 0)
  }

  /** Over any run the chain only grows, by one block for each that is stored. */
  lemma {:induction false} ChainGrows(setup: Setup, nodes: seq<Node>, blocks: seq<Block>, sealed: seq<bool>, outcomes: seq<Outcome>, k: nat)
    requires ValidSetup(setup) && RunOf(setup, nodes, blocks, sealed, outcomes) && k <= |blocks|
    ensures nodes[0].chain <= nodes[k].chain && |nodes[k].chain| == |nodes[0].chain| + Count(outcomes[..k])
  {
    if k > 0 {
      ChainGrows(setup, nodes, blocks, sealed, outcomes, k - 1);
      assert RunAt(setup, nodes, blocks, sealed, outcomes, k - 1);
      StoredIff(setup, nodes[k - 1], blocks[k - 1], sealed[k - 1], outcomes[k - 1], nodes[k]);
      assert outcomes[..k][..k - 1] == outcomes[..k - 1];
    }
  }

  function Supplies(nodes: seq<Node>): (r: seq<Supply>)
    ensures |r| == |nodes| && forall i | 0 <= i < |r| :: r[i] == nodes[i].supply
  {
    seq(|nodes|, i requires 0 <= i < |nodes| => nodes[i].supply)
  }

  function Steps(setup: Setup, nodes: seq<Node>, blocks: seq<Block>): (r: seq<BlockStep>)
    requires |nodes| == |blocks| + 1
    ensures |r| == |blocks| && forall i | 0 <= i < |r| :: r[i] == StepOf(setup, nodes[i], blocks[i])
  {
    seq(|blocks|, i requires 0 <= i < |blocks| => StepOf(setup, nodes[i], blocks[i]))
  }

  /** A run of due blocks is a run of accepted blocks in the sense of the supply. */
  lemma DueRun(setup: Setup, nodes: seq<Node>, blocks: seq<Block>, sealed: seq<bool>, outcomes: seq<Outcome>)
    requires ValidSetup(setup) && RunOf(setup, nodes, blocks, sealed, outcomes) && AllDue(setup, nodes, blocks, sealed)
    ensures Run(Supplies(nodes), Steps(setup, nodes, blocks))
    ensures forall i | 0 <= i < |blocks| :: IsStored(outcomes[i])
  {
    var states, steps := Supplies(nodes), Steps(setup, nodes, blocks);
    forall i | 0 <= i < |steps| ensures StepAt(states, steps, i) && IsStored(outcomes[i]) {
      assert RunAt(setup, nodes, blocks, sealed, outcomes, i) && DueAt(setup, nodes, blocks, sealed, i);
      DueAdvances(setup, nodes[i], blocks[i], outcomes[i], nodes[i + 1]);
    }
  }

  /** Every block of a run of due blocks is stored, and CheckBalance fails after none of them. */
  lemma DueRunBalances(setup: Setup, nodes: seq<Node>, blocks: seq<Block>, sealed: seq<bool>, outcomes: seq<Outcome>, i: nat)
    requires ValidSetup(setup) && RunOf(setup, nodes, blocks, sealed, outcomes) && AllDue(setup, nodes, blocks, sealed)
    requires BalanceCorrect(nodes[0].supply) && i < |blocks|
    ensures Fair(outcomes[i]) && BalanceCorrect(nodes[i + 1].supply)
  {
    DueRun(setup, nodes, blocks, sealed, outcomes);
    NoLooseSteps(setup, nodes, blocks, sealed);
    RunKeepsBalance(Supplies(nodes), Steps(setup, nodes, blocks), i + 1);
    assert RunAt(setup, nodes, blocks, sealed, outcomes, i) && DueAt(setup, nodes, blocks, sealed, i);
    DueAdvances(setup, nodes[i], blocks[i], outcomes[i], nodes[i + 1]);
  }

  lemma NoLooseSteps(setup: Setup, nodes: seq<Node>, blocks: seq<Block>, sealed: seq<bool>)
    requires ValidSetup(setup) && AllDue(setup, nodes, blocks, sealed)
    ensures forall i | 0 <= i < |blocks| :: NoLooseInputs(Steps(setup, nodes, blocks)[i].ts)
  {
    forall i | 0 <= i < |blocks| ensures NoLooseInputs(Steps(setup, nodes, blocks)[i].ts) {
      assert DueAt(setup, nodes, blocks, sealed, i);
    }
  }

  /** No block holds a genesis transaction, and what is issued stays below 2^64. */
  ghost predicate Bounded(setup: Setup, nodes: seq<Node>, blocks: seq<Block>)
    requires |nodes| == |blocks| + 1
  {
    && (forall i | 0 <= i < |blocks| :: E.Ordinary(blocks[i].transactions))
    && nodes[0].supply.genesis + E.RewardsUpTo(Steps(setup, nodes, blocks), |blocks|) < U64
  }

  /** Over a run of due blocks from an exact start, what is unspent and what was paid as fees is what was issued. */
  lemma DueRunIsExact(setup: Setup, nodes: seq<Node>, blocks: seq<Block>, sealed: seq<bool>, outcomes: seq<Outcome>, k: nat)
    requires ValidSetup(setup) && RunOf(setup, nodes, blocks, sealed, outcomes) && AllDue(setup, nodes, blocks, sealed)
    requires E.SupplyExact(nodes[0].supply) && nodes[0].supply.rewards == 0 && nodes[0].supply.fees == 0
    requires Bounded(setup, nodes, blocks) && k <= |blocks|
    ensures var steps := Steps(setup, nodes, blocks);
      Total(nodes[k].supply.utxo) + E.FeesUpTo(steps, k) == nodes[0].supply.genesis + E.RewardsUpTo(steps, k)
  {
    var steps := Steps(setup, nodes, blocks);
    DueRun(setup, nodes, blocks, sealed, outcomes);
    forall j | 0 <= j < |steps| ensures E.Ordinary(steps[j].ts) { }
    E.RunIsExact(Supplies(nodes), steps, k);
  }
}
