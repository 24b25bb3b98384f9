/** Blocks and runs: pool and ledger stay in agreement, and the pool invariant holds in every state. */
module StakingRuns {
  import opened Words
  import opened Sums
  import opened Proto
  import opened Ledger
  import opened Validator
  import opened BlockValidator
  import opened Conservation
  import opened Staking
  import opened StakeBatches
  import opened DepositBooks
  import opened Agreement
  import opened Rewards

  // ----- within a block

  ghost function SpentUpTo(m: UtxoSet, ts: seq<Transaction>, k: nat, a: bytes, n: bytes): nat
    requires k <= |ts|
  {
    SeqSum(BlockInputs(ts[..k]), Named(m, DepositOf(a, n)))
  }

  ghost function CreatedUpTo(ts: seq<Transaction>, k: nat, a: bytes, n: bytes): nat
    requires k <= |ts|
  {
    SeqSum(BlockEntries(ts[..k]), EntryWeight(DepositOf(a, n)))
  }

  lemma UpToStep(m: UtxoSet, ts: seq<Transaction>, k: nat, a: bytes, n: bytes)
    requires k < |ts|
    ensures SpentUpTo(m, ts, k + 1, a, n) == SpentUpTo(m, ts, k, a, n) + TxIn(m, ts[k], a, n)
    ensures CreatedUpTo(ts, k + 1, a, n) == CreatedUpTo(ts, k, a, n) + TxOut(ts[k], a, n)
  {
    assert ts[..k + 1][..k] == ts[..k];
    SeqSumConcat(BlockInputs(ts[..k]), InputsOf(ts[k]), Named(m, DepositOf(a, n)));
    SeqSumConcat(BlockEntries(ts[..k]), Entries(ts[k]), EntryWeight(DepositOf(a, n)));
  }

  /** After k transactions the pool holds what was deposited at the start, minus what was spent, plus what was created. */
  ghost predicate Booked(m: UtxoSet, ts: seq<Transaction>, k: nat, s: Pool, a: bytes, n: bytes)
    requires k <= |ts|
  {
    Held(s, a, n) + SpentUpTo(m, ts, k, a, n) == Deposited(m, a, n) + CreatedUpTo(ts, k, a, n)
  }

  /** Nobody spends more deposits in a block than there were. */
  lemma SpentAtMost(m: UtxoSet, ts: seq<Transaction>, k: nat, a: bytes, n: bytes)
    requires k <= |ts| && SpendAll(m, BlockInputs(ts)).Some?
    ensures SpentUpTo(m, ts, k, a, n) <= Deposited(m, a, n)
  {
    if SpendAll(m, BlockInputs(ts[..k])).None? {
      SpendPrefixFails(m, ts, k);
    }
    SpendAllSum(m, BlockInputs(ts[..k]), DepositOf(a, n));
  }

  lemma BookedCovers(m: UtxoSet, ts: seq<Transaction>, k: nat, s: Pool, a: bytes, n: bytes)
    requires k < |ts| && SpendAll(m, BlockInputs(ts)).Some? && Booked(m, ts, k, s, a, n)
    ensures Covers(m, ts[k], s, a, n)
  {
    SpentAtMost(m, ts, k + 1, a, n);
    UpToStep(m, ts, k, a, n);
  }

  lemma BookedStep(m: UtxoSet, ts: seq<Transaction>, k: nat, s: Pool, s': Pool, a: bytes, n: bytes)
    requires k < |ts| && Booked(m, ts, k, s, a, n) && Follows(m, ts[k], s, s', a, n)
    ensures Booked(m, ts, k + 1, s', a, n)
  {
    UpToStep(m, ts, k, a, n);
  }

  /** The pool performs a block's transactions one after the other, each tidy when its turn comes. */
  ghost predicate PoolSteps(p: Params, ts: seq<Transaction>, orders: seq<seq<bytes>>, pools: seq<Pool>)
    requires ValidParams(p)
  {
    && |orders| == |ts| && |pools| == |ts| + 1
    && forall k | 0 <= k < |ts| :: PoolStep(p, ts[k], orders[k], pools[k], pools[k + 1])
  }

  ghost predicate PoolStep(p: Params, t: Transaction, order: seq<bytes>, s: Pool, s': Pool)
    requires ValidParams(p)
  {
    && OrderOf(ElectorStakes(t.outputs), order)
    && Replay(p, s, TxSteps(t, order)) == Outcome(true, s')
    && Tidy(s, t)
  }

  ghost predicate AllBooked(m: UtxoSet, ts: seq<Transaction>, k: nat, s: Pool)
    requires k <= |ts|
  {
    forall a: bytes, n: bytes | n != [] :: Booked(m, ts, k, s, a, n)
  }

  lemma OneStep(env: Env, num: u64, ts: seq<Transaction>, p: Params, k: nat, order: seq<bytes>, s: Pool, s': Pool)
    requires ValidEnv(env) && ValidParams(p) && env.cfg.stakeUnit == p.unit && k < |ts|
    requires TxOk(env, num, ts, ts[k]) && SpendAll(env.utxo, BlockInputs(ts)).Some?
    requires WholeDeposits(p.unit, env.utxo) && PoolStep(p, ts[k], order, s, s')
    requires Inv(p, s) && Calm(s) && AllBooked(env.utxo, ts, k, s)
    ensures Inv(p, s') && Calm(s') && AllBooked(env.utxo, ts, k + 1, s')
  {
    StepCovers(env, num, ts, k, s);
    TxFollows(env, num, ts, p, s, ts[k], order, s', BLACK_HOLE, BLACK_HOLE);
    var k' := k + 1;
    forall a: bytes, n: bytes | n != [] ensures Booked(env.utxo, ts, k', s', a, n) {
      TxFollows(env, num, ts, p, s, ts[k], order, s', a, n);
      assert Booked(env.utxo, ts, k, s, a, n);
      BookedStep(env.utxo, ts, k, s, s', a, n);
    }
  }

  lemma StepCovers(env: Env, num: u64, ts: seq<Transaction>, k: nat, s: Pool)
    requires ValidEnv(env) && k < |ts| && TxOk(env, num, ts, ts[k]) && SpendAll(env.utxo, BlockInputs(ts)).Some?
    requires AllBooked(env.utxo, ts, k, s)
    ensures ts[k].kind == UNSTAKE || ts[k].kind == SYSTEM_UNSTAKE ==> Covers(env.utxo, ts[k], s, Taker(ts[k]), NodeOf(ts[k]))
  {
    if ts[k].kind == UNSTAKE || ts[k].kind == SYSTEM_UNSTAKE {
      if ts[k].kind == UNSTAKE {
        UnstakeInputs(env, ts[k]);
      } else {
        SystemUnstakeSpends(env, num, ts[k]);
      }
      assert Booked(env.utxo, ts, k, s, Taker(ts[k]), NodeOf(ts[k]));
      BookedCovers(env.utxo, ts, k, s, Taker(ts[k]), NodeOf(ts[k]));
    }
  }

  /** Through an accepted block of tidy transactions the pool stays sound and booked. */
  lemma {:induction false} BlockBooked(env: Env, num: u64, ts: seq<Transaction>, p: Params, orders: seq<seq<bytes>>, pools: seq<Pool>, k: nat)
    requires ValidEnv(env) && ValidParams(p) && env.cfg.stakeUnit == p.unit && k <= |ts|
    requires (forall i | 0 <= i < |ts| :: TxOk(env, num, ts, ts[i])) && SpendAll(env.utxo, BlockInputs(ts)).Some?
    requires WholeDeposits(p.unit, env.utxo) && PoolSteps(p, ts, orders, pools)
    requires Inv(p, pools[0]) && Calm(pools[0]) && AllBooked(env.utxo, ts, 0, pools[0])
    ensures Inv(p, pools[k]) && Calm(pools[k]) && AllBooked(env.utxo, ts, k, pools[k])
  {
    if k > 0 {
      BlockBooked(env, num, ts, p, orders, pools, k - 1);
      assert PoolStep(p, ts[k - 1], orders[k - 1], pools[k - 1], pools[k - 1 + 1]);
      OneStep(env, num, ts, p, k - 1, orders[k - 1], pools[k - 1], pools[k]);
    }
  }

  // ----- agreement

  ghost predicate AgreeOn(m: UtxoSet, s: Pool, a: bytes, n: bytes)
  {
    Deposited(m, a, n) == Held(s, a, n)
  }

  /** For every address and node the pool holds exactly what the ledger has deposited. */
  ghost predicate Agrees(m: UtxoSet, s: Pool)
  {
    forall a: bytes, n: bytes | n != [] :: AgreeOn(m, s, a, n)
  }

  lemma StartBooked(m: UtxoSet, ts: seq<Transaction>, s: Pool)
    requires Agrees(m, s)
    ensures AllBooked(m, ts, 0, s)
  {
    forall a: bytes, n: bytes | n != [] ensures Booked(m, ts, 0, s, a, n) {
      assert AgreeOn(m, s, a, n);
      assert ts[..0] == [];
    }
  }

  lemma EndAgrees(m: UtxoSet, ts: seq<Transaction>, s: Pool)
    requires Process(m, ts).Some? && AllBooked(m, ts, |ts|, s)
    ensures Agrees(Process(m, ts).value, s)
  {
    forall a: bytes, n: bytes | n != [] ensures AgreeOn(Process(m, ts).value, s, a, n) {
      assert Booked(m, ts, |ts|, s, a, n);
      assert ts[..|ts|] == ts;
      ProcessSum(m, ts, DepositOf(a, n));
    }
  }

  // ----- own deposits stay whole slots

  ghost predicate WholeEntry(unit: u64, e: Entry)
    requires unit > 0
  {
    e.utxo.node == BLACK_HOLE && (e.utxo.kind == STAKE || e.utxo.kind == UNSTAKE) ==> e.utxo.amount % unit == 0
  }

  lemma {:induction false} WholeInserted(unit: u64, m: UtxoSet, es: seq<Entry>)
    requires unit > 0 && WholeDeposits(unit, m) && InsertAll(m, es).Some?
    requires forall i | 0 <= i < |es| :: WholeEntry(unit, es[i])
    ensures WholeDeposits(unit, InsertAll(m, es).value)
  {
    if es != [] {
      WholeInserted(unit, m, es[..|es| - 1]);
      assert WholeEntry(unit, es[|es| - 1]);
    }
  }

  lemma WholeTx(env: Env, num: u64, ts: seq<Transaction>, t: Transaction, j: nat)
    requires ValidEnv(env) && TxOk(env, num, ts, t) && j < |Entries(t)|
    ensures WholeEntry(env.cfg.stakeUnit, Entries(t)[j])
  {
    assert Entries(t)[j] == EntryAt(t, j);
    if t.kind == STAKE {
      assert GoodOutput(env, t.kind, t.outputs[j]);
    } else if t.kind == UNSTAKE {
      assert IsValidatorStake(t.outputs[j]) ==> t.outputs[j].amount % env.cfg.stakeUnit == 0;
    }
  }

  lemma {:induction false} WholeEntries(env: Env, num: u64, all: seq<Transaction>, ts: seq<Transaction>)
    requires ValidEnv(env) && forall i | 0 <= i < |ts| :: TxOk(env, num, all, ts[i])
    ensures forall i | 0 <= i < |BlockEntries(ts)| :: WholeEntry(env.cfg.stakeUnit, BlockEntries(ts)[i])
  {
    if ts != [] {
      var init, t := ts[..|ts| - 1], ts[|ts| - 1];
      WholeEntries(env, num, all, init);
      forall j | 0 <= j < |Entries(t)| ensures WholeEntry(env.cfg.stakeUnit, Entries(t)[j]) {
        WholeTx(env, num, all, t, j);
      }
    }
  }

  lemma WholeAfter(env: Env, num: u64, ts: seq<Transaction>)
    requires ValidEnv(env) && (forall i | 0 <= i < |ts| :: TxOk(env, num, ts, ts[i])) && Process(env.utxo, ts).Some?
    requires WholeDeposits(env.cfg.stakeUnit, env.utxo)
    ensures WholeDeposits(env.cfg.stakeUnit, Process(env.utxo, ts).value)
  {
    SpendAllSum(env.utxo, BlockInputs(ts), Amount);
    WholeEntries(env, num, ts, ts);
    WholeInserted(env.cfg.stakeUnit, SpendAll(env.utxo, BlockInputs(ts)).value, BlockEntries(ts));
  }

  // ----- runs

  datatype Node = Node(utxo: UtxoSet, pool: Pool)

  /** A node in order: a sound pool that agrees with the ledger. */
  ghost predicate InOrder(p: Params, x: Node)
    requires ValidParams(p)
  {
    Inv(p, x.pool) && Calm(x.pool.(reserved := 0)) && Agrees(x.utxo, x.pool) && WholeDeposits(p.unit, x.utxo)
  }

  datatype Event =
    | FinalBlock(env: Env, num: u64, ts: seq<Transaction>, orders: seq<seq<bytes>>, pools: seq<Pool>)
    | Reservation(amount: u64)

  /** An accepted block is processed and performed by the pool, reservations released first; or slots are reserved. */
  ghost predicate Step(p: Params, x: Node, event: Event, x': Node)
    requires ValidParams(p)
  {
    match event
    case FinalBlock(env, num, ts, orders, pools) =>
      && ValidEnv(env) && env.cfg.stakeUnit == p.unit && env.utxo == x.utxo && Accepted(env, num, ts)
      && Process(x.utxo, ts) == Some(x'.utxo)
      && PoolSteps(p, ts, orders, pools) && pools[0] == x.pool.(reserved := 0) && x'.pool == pools[|ts|]
    case Reservation(amount) => x' == x.(pool := Reserve(p, x.pool, amount).pool)
  }

  lemma SameHeld(s: Pool, m: UtxoSet, r: int)
    ensures Agrees(m, s) <==> Agrees(m, s.(reserved := r))
  {
    forall a: bytes, n: bytes ensures AgreeOn(m, s, a, n) <==> AgreeOn(m, s.(reserved := r), a, n) { }
    if Agrees(m, s) {
      forall a: bytes, n: bytes | n != [] ensures AgreeOn(m, s.(reserved := r), a, n) { assert AgreeOn(m, s, a, n); }
    }
    if Agrees(m, s.(reserved := r)) {
      forall a: bytes, n: bytes | n != [] ensures AgreeOn(m, s, a, n) { assert AgreeOn(m, s.(reserved := r), a, n); }
    }
  }

  /** Every accepted block of tidy transactions keeps the node in order. */
  lemma BlockKeepsOrder(p: Params, x: Node, event: Event, x': Node)
    requires ValidParams(p) && InOrder(p, x) && Step(p, x, event, x') && event.FinalBlock?
    ensures InOrder(p, x')
  {
    var ts := event.ts;
    var released := x.pool.(reserved := 0);
    ApplyKeeps(p, x.pool, Release);
    SameHeld(x.pool, x.utxo, 0);
    StartBooked(x.utxo, ts, released);
    BlockBooked(event.env, event.num, ts, p, event.orders, event.pools, |ts|);
    EndAgrees(x.utxo, ts, x'.pool);
    WholeAfter(event.env, event.num, ts);
  }

  lemma StepKeepsOrder(p: Params, x: Node, event: Event, x': Node)
    requires ValidParams(p) && InOrder(p, x) && Step(p, x, event, x')
    ensures InOrder(p, x')
  {
    match event
    case FinalBlock(_, _, _, _, _) => BlockKeepsOrder(p, x, event, x');
    case Reservation(amount) =>
      ApplyKeeps(p, x.pool, ReserveSlots(amount));
      var r := x'.pool.reserved;
      assert x'.pool == x.pool.(reserved := r);
      SameHeld(x.pool, x.utxo, r);
  }

  ghost predicate Run(p: Params, nodes: seq<Node>, events: seq<Event>)
    requires ValidParams(p)
  {
    |nodes| == |events| + 1 && forall k | 0 <= k < |events| :: Step(p, nodes[k], events[k], nodes[k + 1])
  }

  /** In every run of accepted blocks of tidy transactions the pool invariant and the agreement hold in every state. */
  lemma {:induction false} RunStaysInOrder(p: Params, nodes: seq<Node>, events: seq<Event>, k: nat)
    requires ValidParams(p) && Run(p, nodes, events) && InOrder(p, nodes[0]) && k <= |events|
    ensures InOrder(p, nodes[k])
  {
    if k > 0 {
      RunStaysInOrder(p, nodes, events, k - 1);
      assert Step(p, nodes[k - 1], events[k - 1], nodes[k - 1 + 1]);
      StepKeepsOrder(p, nodes[k - 1], events[k - 1], nodes[k]);
    }
  }

  /** So in every state of such a run the rewards of a block never divide by zero and stay within the block reward. */
  lemma RunPaysRewards(p: Params, nodes: seq<Node>, events: seq<Event>, k: nat, rp: RewardParams, v: bytes)
    requires ValidParams(p) && Run(p, nodes, events) && InOrder(p, nodes[0]) && k <= |events| && ValidReward(rp)
    requires v in nodes[k].pool.validators && ElectorsStake(nodes[k].pool.validators[v]) < I64
    ensures RewardMap(rp, nodes[k].pool, v).Some? && MapSum(RewardMap(rp, nodes[k].pool, v).value, Stake) <= rp.reward
  {
    RunStaysInOrder(p, nodes, events, k);
    RewardsPaid(p, rp, nodes[k].pool, v);
  }

  /** A ledger without deposits and an empty pool are in order. */
  lemma EmptyInOrder(p: Params, m: UtxoSet)
    requires ValidParams(p) && forall k | k in m :: m[k].kind != STAKE && m[k].kind != UNSTAKE
    ensures InOrder(p, Node(m, EMPTY))
  {
    EmptyInv(p);
    forall a: bytes, n: bytes | n != [] ensures AgreeOn(m, EMPTY, a, n) {
      NoDeposits(m, a, n);
    }
  }

  lemma {:induction false} NoDeposits(m: UtxoSet, a: bytes, n: bytes)
    requires forall k | k in m :: m[k].kind != STAKE && m[k].kind != UNSTAKE
    ensures Deposited(m, a, n) == 0
    decreases |m|
  {
    if m != map[] {
      var k :| k in m;
      MapSumRemove(m, k, DepositOf(a, n));
      assert (m - {k}).Keys == m.Keys - {k};
      NoDeposits(m - {k}, a, n);
    }
  }
}
