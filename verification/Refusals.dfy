/**
 When the staking pool refuses a transaction of an accepted block, on a node whose pool agrees with its ledger: so when
 FinalizeBlock ends with an error of the staking pool.
 */
module Refusals {
  import opened Words
  import opened Sums
  import opened Proto
  import opened Ledger
  import opened Validator
  import opened BlockValidator
  import opened Conservation
  import opened Staking
  import opened StakeBatches
  import opened DepositBooks
  import opened Agreement
  import opened StakingRuns
  import N = Nodes
  import V = Survival

  // ----- one transaction

  predicate SlotsFit(p: Params, s: Pool, amount: u64)
    requires ValidParams(p)
  {
    s.filled < p.limit && s.filled + Count(p, amount) <= p.limit
  }

  /**
   What the pool performs: a stake if the slots of its own part fit; an own unstake that takes something off; an
   elector's unstake while the validator is there; a system unstake once the validator has left.
   */
  ghost predicate Performable(p: Params, s: Pool, t: Transaction)
    requires ValidParams(p)
  {
    if t.kind == STAKE then ValidatorAmount(t.outputs) > 0 ==> SlotsFit(p, s, ValidatorAmount(t.outputs))
    else if t.kind == UNSTAKE then
      if NodeOf(t) == BLACK_HOLE then Staked(t.outputs) < InSum(t) else NodeOf(t) in s.validators
    else if t.kind == SYSTEM_UNSTAKE then NodeOf(t) != BLACK_HOLE && NodeOf(t) !in s.validators
    else true
  }

  lemma WholeCount(p: Params, amount: u64)
    requires ValidParams(p) && amount % p.unit == 0
    ensures Count(p, amount) > 0 <==> amount > 0
  {
    Units(amount, p.unit);
  }

  lemma OwnUnstakeDecided(p: Params, m: UtxoSet, s: Pool, t: Transaction)
    requires ValidParams(p) && WholeDeposits(p.unit, m) && UnstakeFacts(m, p.unit, t) && StakesOn(t.outputs, Sender(t), NodeOf(t))
    requires NodeOf(t) == BLACK_HOLE && 0 < InSum(t) <= Held(s, Sender(t), BLACK_HOLE)
    ensures Perform(p, s, UnstakeStep(t)).ok <==> Staked(t.outputs) < InSum(t)
  {
    var amount := OwnAsks(p, m, t);
    OwnDecided(p, s, Sender(t), amount);
  }

  lemma OwnAsks(p: Params, m: UtxoSet, t: Transaction) returns (amount: u64)
    requires ValidParams(p) && WholeDeposits(p.unit, m) && UnstakeFacts(m, p.unit, t) && StakesOn(t.outputs, Sender(t), NodeOf(t))
    requires NodeOf(t) == BLACK_HOLE
    ensures amount == InSum(t) - Staked(t.outputs) && amount % p.unit == 0
    ensures UnstakeStep(t) == Do(UnstakeValidator(Sender(t), amount))
  {
    UnstakeIsWhole(p, m, t);
    UnstakeAsks(m, p.unit, t);
    amount := InSum(t) - Staked(t.outputs);
  }

  lemma OwnDecided(p: Params, s: Pool, v: bytes, amount: u64)
    requires ValidParams(p) && amount % p.unit == 0 && Held(s, v, BLACK_HOLE) > 0
    ensures CancelValidator(p, s, v, amount).ok <==> amount > 0
  {
    WholeCount(p, amount);
  }

  lemma ElectorUnstakeDecided(p: Params, m: UtxoSet, s: Pool, t: Transaction)
    requires ValidParams(p) && UnstakeFacts(m, p.unit, t) && NodeOf(t) != BLACK_HOLE
    requires 0 < InSum(t) <= Held(s, Sender(t), NodeOf(t))
    ensures Perform(p, s, UnstakeStep(t)).ok <==> NodeOf(t) in s.validators
  {
    UnstakeAsks(m, p.unit, t);
  }

  lemma PositiveInputs(env: Env, t: Transaction)
    requires ValidEnv(env) && StructBaseOk(env, t)
    ensures InSum(t) > 0
  {
    assert GoodInput(env, t.kind, t.inputs[0]);
    SeqSumMember(t.inputs, 0, InAmount);
  }

  lemma UnstakeDecided(env: Env, p: Params, s: Pool, t: Transaction)
    requires ValidEnv(env) && ValidParams(p) && env.cfg.stakeUnit == p.unit && StandardOk(env, t) && t.kind == UNSTAKE
    requires WholeDeposits(p.unit, env.utxo) && Tidy(s, t) && Covers(env.utxo, t, s, Sender(t), NodeOf(t))
    ensures Perform(p, s, UnstakeStep(t)).ok <==> Performable(p, s, t)
  {
    UnstakeHasFacts(env, t);
    UnstakeLedgerSide(p, env.utxo, t, Sender(t), NodeOf(t));
    PositiveInputs(env, t);
    if NodeOf(t) == BLACK_HOLE {
      OwnUnstakeDecided(p, env.utxo, s, t);
    } else {
      ElectorUnstakeDecided(p, env.utxo, s, t);
    }
  }

  lemma StakeDecided(env: Env, p: Params, s: Pool, t: Transaction, order: seq<bytes>)
    requires ValidEnv(env) && ValidParams(p) && env.cfg.stakeUnit == p.unit && StandardOk(env, t) && t.kind == STAKE
    requires OrderOf(ElectorStakes(t.outputs), order)
    ensures Replay(p, s, TxSteps(t, order)).ok <==> Performable(p, s, t)
  {
    var k := StakeHasFacts(env, t);
    if k == BLACK_HOLE {
      OwnStakeDecided(env.utxo, p, s, t, order);
    } else {
      ElectorStakeDecided(env.utxo, p, s, t, k, order);
    }
  }

  lemma OwnStakeDecided(m: UtxoSet, p: Params, s: Pool, t: Transaction, order: seq<bytes>)
    requires ValidParams(p) && t.kind == STAKE && StakeFacts(m, p.unit, t, BLACK_HOLE) && OrderOf(ElectorStakes(t.outputs), order)
    ensures Replay(p, s, TxSteps(t, order)).ok <==> Performable(p, s, t)
  {
    OwnStakeSteps(m, p.unit, t, order);
    ReplayOne(p, s, Do(StakeValidator(Sender(t), Staked(t.outputs))));
  }

  lemma ElectorStakeDecided(m: UtxoSet, p: Params, s: Pool, t: Transaction, k: bytes, order: seq<bytes>)
    requires ValidParams(p) && t.kind == STAKE && StakeFacts(m, p.unit, t, k) && k != BLACK_HOLE && OrderOf(ElectorStakes(t.outputs), order)
    ensures Replay(p, s, TxSteps(t, order)).ok <==> Performable(p, s, t)
  {
    ElectorStakeSteps(m, p.unit, t, k, order);
    ReplayOne(p, s, Do(StakeElector(Sender(t), k, Staked(t.outputs))));
  }

  lemma OwedDecided(s: Pool, v: bytes, e: bytes, amount: u64)
    requires Calm(s) && 0 < amount <= Held(s, e, v)
    ensures SystemUnstake(s, v, e, amount).ok <==> v != BLACK_HOLE && v !in s.validators
  {
    if v in s.validators {
      assert RowOf(s, v) == map[];
    }
  }

  lemma PayOutDecided(env: Env, num: u64, p: Params, s: Pool, t: Transaction)
    requires ValidEnv(env) && ValidParams(p) && SystemUnstakeOk(env, num, t) && Calm(s)
    requires |t.outputs| == 1 && Covers(env.utxo, t, s, t.outputs[0].address, NodeOf(t))
    ensures Perform(p, s, PayOutStep(t)).ok <==> Performable(p, s, t)
  {
    PayOutCovered(env, num, s, t);
    CoveredDecided(p, s, t);
  }

  lemma CoveredDecided(p: Params, s: Pool, t: Transaction)
    requires ValidParams(p) && Calm(s) && t.kind == SYSTEM_UNSTAKE && |t.outputs| == 1 && t.inputs != []
    requires 0 < t.outputs[0].amount <= Held(s, t.outputs[0].address, NodeOf(t))
    ensures Perform(p, s, PayOutStep(t)).ok <==> Performable(p, s, t)
  {
    OwedDecided(s, NodeOf(t), t.outputs[0].address, t.outputs[0].amount);
  }

  lemma PayOutCovered(env: Env, num: u64, s: Pool, t: Transaction)
    requires ValidEnv(env) && SystemUnstakeOk(env, num, t)
    requires |t.outputs| == 1 && Covers(env.utxo, t, s, t.outputs[0].address, NodeOf(t))
    ensures t.inputs != [] && 0 < t.outputs[0].amount <= Held(s, t.outputs[0].address, NodeOf(t))
  {
    var e, v := t.outputs[0].address, NodeOf(t);
    SystemUnstakeSpends(env, num, t);
    UniformIn(env.utxo, t.inputs, e, v, e, v);
    PositiveInputs(env, t);
  }

  /** The pool performs an accepted tidy transaction exactly when it is performable. */
  lemma TxDecided(env: Env, num: u64, ts: seq<Transaction>, p: Params, s: Pool, t: Transaction, order: seq<bytes>)
    requires ValidEnv(env) && ValidParams(p) && env.cfg.stakeUnit == p.unit && TxOk(env, num, ts, t)
    requires Calm(s) && WholeDeposits(p.unit, env.utxo) && Tidy(s, t) && OrderOf(ElectorStakes(t.outputs), order)
    requires t.kind == UNSTAKE || t.kind == SYSTEM_UNSTAKE ==> Covers(env.utxo, t, s, Taker(t), NodeOf(t))
    ensures Replay(p, s, TxSteps(t, order)).ok <==> Performable(p, s, t)
  {
    if t.kind == UNSTAKE {
      ReplayOne(p, s, UnstakeStep(t));
      UnstakeDecided(env, p, s, t);
    } else if t.kind == STAKE {
      StakeDecided(env, p, s, t, order);
    } else if t.kind == SYSTEM_UNSTAKE {
      ReplayOne(p, s, PayOutStep(t));
      SystemUnstakeSpends(env, num, t);
      PayOutDecided(env, num, p, s, t);
    } else {
      ReplayOne(p, s, Refuse);
    }
  }

  // ----- a block

  /** The transaction at position k has its turn unless an earlier one was refused. */
  ghost predicate TurnAt(p: Params, ts: seq<Transaction>, orders: seq<seq<bytes>>, rs: seq<Outcome>, k: nat)
    requires ValidParams(p) && |orders| == |ts| && |rs| == |ts| + 1 && k < |ts|
  {
    && OrderOf(ElectorStakes(ts[k].outputs), orders[k])
    && rs[k + 1] == if rs[k].ok then Replay(p, rs[k].pool, TxSteps(ts[k], orders[k])) else rs[k]
  }

  /** What the pool comes to, transaction after transaction, up to the one it refuses. */
  ghost predicate Turns(p: Params, s: Pool, ts: seq<Transaction>, orders: seq<seq<bytes>>, rs: seq<Outcome>)
    requires ValidParams(p)
  {
    && |orders| == |ts| && |rs| == |ts| + 1 && rs[0] == Outcome(true, s)
    && forall k | 0 <= k < |ts| :: TurnAt(p, ts, orders, rs, k)
  }

  ghost predicate TidyAt(ts: seq<Transaction>, rs: seq<Outcome>, k: nat)
    requires |rs| == |ts| + 1 && k < |ts|
  {
    rs[k].ok ==> Tidy(rs[k].pool, ts[k])
  }

  /** Every transaction whose turn comes is tidy then. */
  ghost predicate TidyTurns(ts: seq<Transaction>, rs: seq<Outcome>)
  {
    |rs| == |ts| + 1 && forall k | 0 <= k < |ts| :: TidyAt(ts, rs, k)
  }

  ghost predicate PerformsAt(p: Params, ts: seq<Transaction>, rs: seq<Outcome>, k: nat)
    requires ValidParams(p) && |rs| == |ts| + 1 && k < |ts|
  {
    rs[k].ok ==> Performable(p, rs[k].pool, ts[k])
  }

  /** Every transaction whose turn comes is performable then. */
  ghost predicate Performs(p: Params, ts: seq<Transaction>, rs: seq<Outcome>)
    requires ValidParams(p)
  {
    |rs| == |ts| + 1 && forall k | 0 <= k < |ts| :: PerformsAt(p, ts, rs, k)
  }

  ghost predicate Sound(env: Env, num: u64, ts: seq<Transaction>, p: Params)
  {
    && ValidEnv(env) && ValidParams(p) && env.cfg.stakeUnit == p.unit && WholeDeposits(p.unit, env.utxo)
    && V.AllOk(env, num, ts) && SpendAll(env.utxo, BlockInputs(ts)).Some?
  }

  /** What a block needs to be decided: accepted transactions, and a pool that is sound and agrees with the ledger. */
  ghost predicate Ready(env: Env, num: u64, ts: seq<Transaction>, p: Params, s: Pool)
  {
    Sound(env, num, ts, p) && BookedPool(env, ts, p, 0, s)
  }

  ghost predicate BookedPool(env: Env, ts: seq<Transaction>, p: Params, k: nat, s: Pool)
    requires k <= |ts|
  {
    Inv(p, s) && Calm(s) && AllBooked(env.utxo, ts, k, s)
  }

  /** As long as nothing was refused the pool is sound and booked. */
  ghost predicate BookedAt(env: Env, ts: seq<Transaction>, p: Params, rs: seq<Outcome>, k: nat)
    requires |rs| == |ts| + 1 && k <= |ts|
  {
    rs[k].ok ==> BookedPool(env, ts, p, k, rs[k].pool)
  }

  /** What holds of every position: if the pool is booked before its turn, it is booked after it. */
  ghost predicate KeepsBooked(env: Env, ts: seq<Transaction>, p: Params, rs: seq<Outcome>, k: nat)
    requires |rs| == |ts| + 1 && k < |ts|
  {
    BookedAt(env, ts, p, rs, k) ==> BookedAt(env, ts, p, rs, k + 1)
  }

  lemma {:induction false} AllBookedAt(env: Env, ts: seq<Transaction>, p: Params, rs: seq<Outcome>, k: nat)
    requires |rs| == |ts| + 1 && k <= |ts| && BookedAt(env, ts, p, rs, 0)
    requires forall j | 0 <= j < |ts| :: KeepsBooked(env, ts, p, rs, j)
    ensures BookedAt(env, ts, p, rs, k)
  {
    if k > 0 {
      AllBookedAt(env, ts, p, rs, k - 1);
      assert KeepsBooked(env, ts, p, rs, k - 1);
    }
  }

  lemma StaysBooked(env: Env, num: u64, ts: seq<Transaction>, p: Params, s: Pool, orders: seq<seq<bytes>>, rs: seq<Outcome>, k: nat)
    requires Ready(env, num, ts, p, s) && Turns(p, s, ts, orders, rs) && TidyTurns(ts, rs) && k <= |ts|
    ensures BookedAt(env, ts, p, rs, k)
  {
    forall j | 0 <= j < |ts| ensures KeepsBooked(env, ts, p, rs, j) {
      assert TurnAt(p, ts, orders, rs, j) && TidyAt(ts, rs, j);
      if rs[j + 1].ok && BookedAt(env, ts, p, rs, j) {
        OneTurn(env, num, ts, p, j, orders[j], rs[j].pool, rs[j + 1].pool);
      }
    }
    AllBookedAt(env, ts, p, rs, k);
  }

  lemma OneTurn(env: Env, num: u64, ts: seq<Transaction>, p: Params, k: nat, order: seq<bytes>, s: Pool, s': Pool)
    requires Sound(env, num, ts, p) && k < |ts| && OrderOf(ElectorStakes(ts[k].outputs), order) && Tidy(s, ts[k])
    requires Replay(p, s, TxSteps(ts[k], order)) == Outcome(true, s') && BookedPool(env, ts, p, k, s)
    ensures BookedPool(env, ts, p, k + 1, s')
  {
    assert V.OkAt(env, num, ts, k);
    OneStep(env, num, ts, p, k, order, s, s');
  }

  /** A transaction whose turn comes is performed exactly when it is performable. */
  lemma TurnDecided(env: Env, num: u64, ts: seq<Transaction>, p: Params, s: Pool, orders: seq<seq<bytes>>, rs: seq<Outcome>, k: nat)
    requires Ready(env, num, ts, p, s) && Turns(p, s, ts, orders, rs) && TidyTurns(ts, rs) && k < |ts|
    ensures rs[k + 1].ok <==> rs[k].ok && PerformsAt(p, ts, rs, k)
  {
    assert TurnAt(p, ts, orders, rs, k);
    if rs[k].ok {
      StaysBooked(env, num, ts, p, s, orders, rs, k);
      assert TidyAt(ts, rs, k);
      PoolDecided(env, num, ts, p, k, orders[k], rs[k].pool);
    }
  }

  lemma PoolDecided(env: Env, num: u64, ts: seq<Transaction>, p: Params, k: nat, order: seq<bytes>, s: Pool)
    requires Sound(env, num, ts, p) && k < |ts| && BookedPool(env, ts, p, k, s)
    requires OrderOf(ElectorStakes(ts[k].outputs), order) && Tidy(s, ts[k])
    ensures Replay(p, s, TxSteps(ts[k], order)).ok <==> Performable(p, s, ts[k])
  {
    assert V.OkAt(env, num, ts, k);
    StepCovers(env, num, ts, k, s);
    TxDecided(env, num, ts, p, s, ts[k], order);
  }

  lemma {:induction false} UpToOne(oks: seq<bool>, good: seq<bool>, k: nat)
    requires |oks| == |good| + 1 && oks[0] && forall j | 0 <= j < |good| :: oks[j + 1] == (oks[j] && good[j])
    requires k <= |good|
    ensures oks[k] <==> forall j | 0 <= j < k :: good[j]
  {
    if k > 0 {
      UpToOne(oks, good, k - 1);
      assert oks[k - 1 + 1] == (oks[k - 1] && good[k - 1]);
    }
  }

  /** The pool performs an accepted block of tidy transactions exactly when each is performable at its turn. */
  lemma BlockDecided(env: Env, num: u64, ts: seq<Transaction>, p: Params, s: Pool, orders: seq<seq<bytes>>, rs: seq<Outcome>)
    requires Ready(env, num, ts, p, s) && Turns(p, s, ts, orders, rs) && TidyTurns(ts, rs)
    ensures rs[|ts|].ok <==> Performs(p, ts, rs)
  {
    var oks := seq(|rs|, i requires 0 <= i < |rs| => rs[i].ok);
    var good := seq(|ts|, k requires 0 <= k < |ts| => PerformsAt(p, ts, rs, k));
    forall k | 0 <= k < |good| ensures oks[k + 1] == (oks[k] && good[k]) {
      TurnDecided(env, num, ts, p, s, orders, rs, k);
    }
    UpToOne(oks, good, |ts|);
    assert forall k | 0 <= k < |ts| :: good[k] <==> PerformsAt(p, ts, rs, k);
  }

  // ----- turns and replays

  lemma TurnsPush(p: Params, s: Pool, ts: seq<Transaction>, orders: seq<seq<bytes>>, rs: seq<Outcome>, t: Transaction, order: seq<bytes>, r: Outcome)
    requires ValidParams(p) && Turns(p, s, ts, orders, rs) && OrderOf(ElectorStakes(t.outputs), order)
    requires r == if rs[|ts|].ok then Replay(p, rs[|ts|].pool, TxSteps(t, order)) else rs[|ts|]
    ensures Turns(p, s, ts + [t], orders + [order], rs + [r])
  {
    var ts', os, rs' := ts + [t], orders + [order], rs + [r];
    forall k | 0 <= k < |ts'| ensures TurnAt(p, ts', os, rs', k) {
      if k < |ts| { assert TurnAt(p, ts, orders, rs, k); }
    }
  }

  lemma TurnsLast(p: Params, s: Pool, ts: seq<Transaction>, orders: seq<seq<bytes>>, before: seq<Outcome>, r: Outcome)
    requires ValidParams(p) && ts != [] && |orders| == |ts|
    requires var k := |ts| - 1;
      && Turns(p, s, ts[..k], orders[..k], before) && OrderOf(ElectorStakes(ts[k].outputs), orders[k])
      && r == if before[k].ok then Replay(p, before[k].pool, TxSteps(ts[k], orders[k])) else before[k]
    ensures Turns(p, s, ts, orders, before + [r])
  {
    var k := |ts| - 1;
    TurnsPush(p, s, ts[..k], orders[..k], before, ts[k], orders[k], r);
    assert ts[..k] + [ts[k]] == ts && orders[..k] + [orders[k]] == orders;
  }

  /** The turns of a batch end as the replay of its steps does. */
  lemma {:induction false} TurnsOf(p: Params, s: Pool, ts: seq<Transaction>, orders: seq<seq<bytes>>) returns (rs: seq<Outcome>)
    requires ValidParams(p) && Orders(ts, orders)
    ensures Turns(p, s, ts, orders, rs) && rs[|ts|] == Replay(p, s, BatchSteps(ts, orders))
  {
    if ts == [] {
      rs := [Outcome(true, s)];
    } else {
      var k := |ts| - 1;
      OrdersPrefix(ts, orders, k);
      var before := TurnsOf(p, s, ts[..k], orders[..k]);
      var r := if before[k].ok then Replay(p, before[k].pool, TxSteps(ts[k], orders[k])) else before[k];
      rs := before + [r];
      TurnsLast(p, s, ts, orders, before, r);
      LastTurn(p, s, ts, orders, before[k], r);
    }
  }

  lemma LastTurn(p: Params, s: Pool, ts: seq<Transaction>, orders: seq<seq<bytes>>, before: Outcome, r: Outcome)
    requires ValidParams(p) && Orders(ts, orders) && ts != []
    requires var k := |ts| - 1;
      && before == Replay(p, s, BatchSteps(ts[..k], orders[..k]))
      && r == if before.ok then Replay(p, before.pool, TxSteps(ts[k], orders[k])) else before
    ensures r == Replay(p, s, BatchSteps(ts, orders))
  {
    var k := |ts| - 1;
    ReplayConcat(p, s, BatchSteps(ts[..k], orders[..k]), TxSteps(ts[k], orders[k]));
  }

  lemma OrdersPrefix(ts: seq<Transaction>, orders: seq<seq<bytes>>, k: nat)
    requires Orders(ts, orders) && k < |ts|
    ensures Orders(ts[..k], orders[..k]) && OrderOf(ElectorStakes(ts[k].outputs), orders[k])
  {
  }

  lemma {:induction false} FailsOn(p: Params, s: Pool, ts: seq<Transaction>, orders: seq<seq<bytes>>, rs: seq<Outcome>, k: nat, n: nat)
    requires ValidParams(p) && Turns(p, s, ts, orders, rs) && k <= n <= |ts| && !rs[k].ok
    ensures !rs[n].ok
    decreases n
  {
    if k < n {
      FailsOn(p, s, ts, orders, rs, k, n - 1);
      assert TurnAt(p, ts, orders, rs, n - 1);
    }
  }

  /** The turns of all transactions, when only the first were performed. */
  lemma {:induction false} AllTurns(p: Params, s: Pool, ts: seq<Transaction>, k: nat, some: seq<seq<bytes>>, before: seq<Outcome>)
      returns (orders: seq<seq<bytes>>, rs: seq<Outcome>)
    requires ValidParams(p) && k <= |ts| && Turns(p, s, ts[..k], some, before)
    ensures Turns(p, s, ts, orders, rs) && rs[..k + 1] == before
    decreases |ts| - k
  {
    if k == |ts| {
      assert ts[..k] == ts;
      orders, rs := some, before;
    } else {
      var order := SomeOrder(ElectorStakes(ts[k].outputs));
      var r := if before[k].ok then Replay(p, before[k].pool, TxSteps(ts[k], order)) else before[k];
      TurnsPush(p, s, ts[..k], some, before, ts[k], order, r);
      assert ts[..k] + [ts[k]] == ts[..k + 1];
      orders, rs := AllTurns(p, s, ts, k + 1, some + [order], before + [r]);
      assert rs[..k + 1] == rs[..k + 2][..k + 1] == before;
    }
  }

  // ----- FinalizeBlock

  lemma {:induction false} SomeOrder(stakes: Stakes) returns (order: seq<bytes>)
    ensures OrderOf(stakes, order)
    decreases |stakes|
  {
    if stakes == map[] {
      order := [];
    } else {
      var v :| v in stakes;
      var rest := stakes - {v};
      assert rest.Keys == stakes.Keys - {v};
      var less := SomeOrder(rest);
      order := less + [v];
      assert forall x :: x in order <==> x in less || x == v;
      forall x ensures x in order <==> x in stakes {
        assert x in less <==> x in rest;
      }
    }
  }

  /** FinalizeStaking as turns of all transactions. */
  lemma RestakedTurns(p: Params, s: Pool, ts: seq<Transaction>, ok: bool, s': Pool) returns (orders: seq<seq<bytes>>, rs: seq<Outcome>)
    requires ValidParams(p) && N.Restaked(p, s, ts, ok, s')
    ensures Turns(p, s.(reserved := 0), ts, orders, rs) && (ok <==> rs[|ts|].ok)
  {
    var some :| N.RestakedBy(p, s, ts, some, ok, s');
    var k, released := |some|, s.(reserved := 0);
    ReleaseFirst(p, s, BatchSteps(ts[..k], some));
    var before := TurnsOf(p, released, ts[..k], some);
    orders, rs := AllTurns(p, released, ts, k, some, before);
    assert rs[k] == rs[..k + 1][k];
    if !ok {
      FailsOn(p, released, ts, orders, rs, k, |ts|);
    }
  }

  lemma ReleaseFirst(p: Params, s: Pool, steps: seq<Step>)
    requires ValidParams(p)
    ensures Replay(p, s, [Do(Release)] + steps) == Replay(p, s.(reserved := 0), steps)
  {
    ReplayConcat(p, s, [Do(Release)], steps);
    ReplayOne(p, s, Do(Release));
  }

  ghost predicate TidyIn(p: Params, s: Pool, ts: seq<Transaction>, orders: seq<seq<bytes>>, rs: seq<Outcome>)
    requires ValidParams(p)
  {
    Turns(p, s, ts, orders, rs) ==> TidyTurns(ts, rs)
  }

  /** Whatever the map orders, the transactions whose turn comes are tidy then. */
  ghost predicate AlwaysTidy(p: Params, s: Pool, ts: seq<Transaction>)
    requires ValidParams(p)
  {
    forall orders: seq<seq<bytes>>, rs: seq<Outcome> :: TidyIn(p, s, ts, orders, rs)
  }

  /** The node as ledger and pool. */
  function PairOf(x: N.Node): StakingRuns.Node
  {
    StakingRuns.Node(x.supply.utxo, x.stakes)
  }

  lemma DueIsReady(setup: N.Setup, x: N.Node, b: Block)
    requires N.ValidSetup(setup) && |x.chain| > 0 && N.Due(setup, x, b) && setup.cfg.stakeUnit == setup.params.unit
    requires InOrder(setup.params, PairOf(x))
    ensures Ready(N.EnvFor(setup, x, b), b.num, b.transactions, setup.params, x.stakes.(reserved := 0))
  {
    var p, env := setup.params, N.EnvFor(setup, x, b);
    AcceptedSpends(env, b.num, b.transactions);
    V.AcceptedAllOk(env, b.num, b.transactions);
    ApplyKeeps(p, x.stakes, Release);
    SameHeld(x.stakes, x.supply.utxo, 0);
    StartBooked(x.supply.utxo, b.transactions, x.stakes.(reserved := 0));
  }

  /**
   On a node in order, a due block of tidy transactions is saved, or ends with an error of the staking pool, exactly as
   its transactions are performable at their turns or not.
   */
  lemma SavedIffPerformed(setup: N.Setup, x: N.Node, b: Block, r: N.Outcome, x': N.Node)
      returns (orders: seq<seq<bytes>>, rs: seq<Outcome>)
    requires N.ValidSetup(setup) && |x.chain| > 0 && N.Due(setup, x, b) && N.Becomes(setup, x, b, true, r, x')
    requires setup.cfg.stakeUnit == setup.params.unit && InOrder(setup.params, PairOf(x))
    requires AlwaysTidy(setup.params, x.stakes.(reserved := 0), b.transactions)
    ensures Turns(setup.params, x.stakes.(reserved := 0), b.transactions, orders, rs) && (r.Saved? || r.StakeError?)
    ensures r.Saved? <==> Performs(setup.params, b.transactions, rs)
  {
    var p, released := setup.params, x.stakes.(reserved := 0);
    N.DueAdvances(setup, x, b, r, x');
    orders, rs := RestakedTurns(p, x.stakes, b.transactions, r.Saved?, x'.stakes);
    assert TidyIn(p, released, b.transactions, orders, rs);
    DueIsReady(setup, x, b);
    BlockDecided(N.EnvFor(setup, x, b), b.num, b.transactions, p, released, orders, rs);
  }
}
