/**
 Stake transactions as pool operations: what processStakeTx, processUnstakeTx and processSystemUnstakeTx ask of
 the pool, and why finalising exactly the stakes that were reserved cannot fail.
 */
module StakeBatches {
  import opened Words
  import opened Sums
  import opened Proto
  import opened Ledger
  import opened Staking

  // ----- reading a transaction

  /** What the outputs stake on the black hole, in 64-bit arithmetic: the sender's own validator stake. */
  function ValidatorAmount(outs: seq<TxOutput>): u64
  {
    Wrap(OwnTotal(outs))
  }

  function OwnTotal(outs: seq<TxOutput>): nat
  {
    if outs == [] then 0 else OwnTotal(outs[..|outs| - 1]) + OwnAmount(outs[|outs| - 1])
  }

  function OwnAmount(o: TxOutput): u64
  {
    if Address(o.node) == BLACK_HOLE then o.amount else 0
  }

  /** What they stake on each validator. */
  function ElectorStakes(outs: seq<TxOutput>): Stakes
  {
    if outs == [] then map[]
    else
      var o := outs[|outs| - 1];
      var rest := ElectorStakes(outs[..|outs| - 1]);
      var node := Address(o.node);
      if node == [] || node == BLACK_HOLE then rest else AddStake(rest, node, o.amount)
  }

  function AddStake(stakes: Stakes, n: bytes, amount: u64): Stakes
  {
    var before: int := if n in stakes then stakes[n] else 0;
    Put(stakes, n, Wrap(before + amount))
  }

  function From(t: Transaction): bytes
  {
    if t.inputs == [] then [] else t.inputs[0].address
  }

  // ----- operations of a transaction

  /** A step of a batch: a pool operation, or a transaction the pool refuses to read. */
  datatype Step = Do(op: Op) | Refuse

  function ElectorSteps(e: bytes, order: seq<bytes>, stakes: Stakes): seq<Step>
    requires forall v | v in order :: v in stakes
  {
    if order == [] then []
    else ElectorSteps(e, order[..|order| - 1], stakes) + [Do(StakeElector(e, order[|order| - 1], stakes[order[|order| - 1]]))]
  }

  /** A stake transaction: the own stake first, then the elected validators in the map's iteration order. */
  function StakeSteps(t: Transaction, order: seq<bytes>): seq<Step>
    requires forall v | v in order :: v in ElectorStakes(t.outputs)
  {
    var own := ValidatorAmount(t.outputs);
    (if own > 0 then [Do(StakeValidator(From(t), own))] else []) + ElectorSteps(From(t), order, ElectorStakes(t.outputs))
  }

  /** The common node of unstaking inputs, or None when they name different ones. */
  function UnstakeNode(ins: seq<TxInput>): Option<bytes>
  {
    if ins == [] then Some([])
    else
      var rest := UnstakeNode(ins[..|ins| - 1]);
      var node := Address(ins[|ins| - 1].node);
      if rest.None? then None
      else if rest.value == [] then Some(node)
      else if rest.value == node then rest
      else None
  }

  /** Inputs minus outputs that stay staked, in 64-bit arithmetic. */
  function UnstakeAmount(ins: seq<TxInput>, outs: seq<TxOutput>): u64
  {
    Wrap(UnstakeTotal(ins, outs))
  }

  function UnstakeTotal(ins: seq<TxInput>, outs: seq<TxOutput>): int
  {
    if outs != [] then
      var o := outs[|outs| - 1];
      UnstakeTotal(ins, outs[..|outs| - 1]) - (if Address(o.node) != [] then o.amount else 0)
    else if ins != [] then UnstakeTotal(ins[..|ins| - 1], []) + ins[|ins| - 1].amount
    else 0
  }

  function UnstakeStep(t: Transaction): Step
  {
    var node := UnstakeNode(t.inputs);
    var amount := UnstakeAmount(t.inputs, t.outputs);
    if node.None? || node.value == [] then Refuse
    else if node.value == BLACK_HOLE then Do(UnstakeValidator(From(t), amount))
    else Do(UnstakeElector(From(t), node.value, amount))
  }

  function PayOutStep(t: Transaction): Step
  {
    if |t.outputs| != 1 || |t.inputs| < 1 then Refuse
    else Do(PayOut(Address(t.inputs[0].node), t.outputs[0].address, t.outputs[0].amount))
  }

  /** FinalizeStaking on one transaction. */
  function TxSteps(t: Transaction, order: seq<bytes>): seq<Step>
    requires forall v | v in order :: v in ElectorStakes(t.outputs)
  {
    if t.kind == STAKE then StakeSteps(t, order)
    else if t.kind == UNSTAKE then [UnstakeStep(t)]
    else if t.kind == SYSTEM_UNSTAKE then [PayOutStep(t)]
    else []
  }

  /** Some order in which a Go map may be iterated: every key once. */
  ghost predicate OrderOf(stakes: Stakes, order: seq<bytes>)
  {
    && |order| == |stakes|
    && (forall v :: v in order <==> v in stakes)
    && (forall i, j | 0 <= i < j < |order| :: order[i] != order[j])
  }

  /** An iteration order for the elector map of each transaction. */
  ghost predicate Orders(batch: seq<Transaction>, orders: seq<seq<bytes>>)
  {
    |orders| == |batch| && forall i | 0 <= i < |batch| :: OrderOf(ElectorStakes(batch[i].outputs), orders[i])
  }

  /** The steps of a batch: those of its transactions, one after the other. */
  function BatchSteps(batch: seq<Transaction>, orders: seq<seq<bytes>>): seq<Step>
    requires Orders(batch, orders)
  {
    if batch == [] then []
    else
      var k := |batch| - 1;
      BatchSteps(batch[..k], orders[..k]) + TxSteps(batch[k], orders[k])
  }

  lemma BatchStepsPush(batch: seq<Transaction>, orders: seq<seq<bytes>>, k: nat, order: seq<bytes>)
    requires k < |batch| && Orders(batch[..k], orders) && OrderOf(ElectorStakes(batch[k].outputs), order)
    ensures Orders(batch[..k + 1], orders + [order])
    ensures BatchSteps(batch[..k + 1], orders + [order]) == BatchSteps(batch[..k], orders) + TxSteps(batch[k], order)
  {
    assert batch[..k + 1][..k] == batch[..k] && (orders + [order])[..k] == orders;
  }

  // ----- performing steps

  function Perform(p: Params, s: Pool, step: Step): Outcome
    requires ValidParams(p)
  {
    match step
    case Do(op) => Apply(p, s, op)
    case Refuse => Outcome(false, s)
  }

  /** Steps one after the other, up to the first that fails. */
  function Replay(p: Params, s: Pool, steps: seq<Step>): (r: Outcome)
    requires ValidParams(p)
  {
    if steps == [] then Outcome(true, s)
    else
      var before := Replay(p, s, steps[..|steps| - 1]);
      if !before.ok then before else Perform(p, before.pool, steps[|steps| - 1])
  }

  lemma {:induction false} ReplayConcat(p: Params, s: Pool, a: seq<Step>, b: seq<Step>)
    requires ValidParams(p)
    ensures Replay(p, s, a + b) == if Replay(p, s, a).ok then Replay(p, Replay(p, s, a).pool, b) else Replay(p, s, a)
  {
    if b == [] {
      assert a + b == a;
    } else {
      ReplayConcat(p, s, a, b[..|b| - 1]);
      assert (a + b)[..|a + b| - 1] == a + b[..|b| - 1];
    }
  }

  // ----- reserved stakes fit

  /** The validator stakes among steps, in order. */
  function OwnStakes(steps: seq<Step>): seq<u64>
  {
    if steps == [] then []
    else
      var step := steps[|steps| - 1];
      OwnStakes(steps[..|steps| - 1]) + (if step.Do? && step.op.StakeValidator? then [step.op.amount] else [])
  }

  function Slots(p: Params, amounts: seq<u64>): nat
    requires ValidParams(p)
  {
    if amounts == [] then 0 else Slots(p, amounts[..|amounts| - 1]) + Count(p, amounts[|amounts| - 1])
  }

  lemma SlotsPush(p: Params, amounts: seq<u64>, amount: u64)
    requires ValidParams(p)
    ensures Slots(p, amounts + [amount]) == Slots(p, amounts) + Count(p, amount)
  {
    assert (amounts + [amount])[..|amounts|] == amounts;
  }

  /** Steps of stake transactions only. */
  ghost predicate OnlyStakes(steps: seq<Step>)
  {
    forall i | 0 <= i < |steps| :: steps[i].Do? && (steps[i].op.StakeValidator? || steps[i].op.StakeElector?)
  }

  /** ReserveSlots for each amount in turn, all granted. */
  function ReserveAll(p: Params, s: Pool, amounts: seq<u64>): Outcome
    requires ValidParams(p)
  {
    if amounts == [] then Outcome(true, s)
    else
      var before := ReserveAll(p, s, amounts[..|amounts| - 1]);
      if !before.ok then before else Reserve(p, before.pool, amounts[|amounts| - 1])
  }

  lemma {:induction false} ReserveAllCounts(p: Params, s: Pool, amounts: seq<u64>)
    requires ValidParams(p) && s.filled + s.reserved <= p.limit && ReserveAll(p, s, amounts).ok
    ensures var r := ReserveAll(p, s, amounts).pool;
      && r == s.(reserved := s.reserved + Slots(p, amounts))
      && r.filled + r.reserved <= p.limit
    ensures forall i | 0 <= i < |amounts| :: Count(p, amounts[i]) > 0
  {
    if amounts != [] {
      ReserveAllCounts(p, s, amounts[..|amounts| - 1]);
    }
  }

  lemma {:induction false} StakesFit(p: Params, s: Pool, steps: seq<Step>)
    requires ValidParams(p) && OnlyStakes(steps)
    requires forall i | 0 <= i < |OwnStakes(steps)| :: Count(p, OwnStakes(steps)[i]) > 0
    requires s.filled + Slots(p, OwnStakes(steps)) <= p.limit
    ensures var r := Replay(p, s, steps);
      r.ok && r.pool.filled == s.filled + Slots(p, OwnStakes(steps)) && r.pool.reserved == s.reserved
  {
    if steps != [] {
      var init, step := steps[..|steps| - 1], steps[|steps| - 1];
      assert step.Do?;
      var own := OwnStakes(init);
      if step.op.StakeValidator? {
        assert OwnStakes(steps) == own + [step.op.amount];
        SlotsPush(p, own, step.op.amount);
        assert OwnStakes(steps)[|own|] == step.op.amount;
        assert forall i | 0 <= i < |own| :: own[i] == OwnStakes(steps)[i];
      } else {
        assert OwnStakes(steps) == own;
      }
      StakesFit(p, s, init);
    }
  }

  /**
   If slots were reserved for each validator stake of a batch of stake transactions, finalising that batch
   (which first releases the reservations) never fails.
   */
  lemma ReservedBatchSucceeds(p: Params, s: Pool, steps: seq<Step>, reserved: Pool)
    requires ValidParams(p) && Inv(p, s) && OnlyStakes(steps)
    requires ReserveAll(p, s, OwnStakes(steps)).ok && reserved.(reserved := 0) == s.(reserved := 0)
    ensures var r := Replay(p, reserved, [Do(Release)] + steps);
      r.ok && r.pool.filled == s.filled + Slots(p, OwnStakes(steps)) && r.pool.reserved == 0
  {
    ReserveAllCounts(p, s, OwnStakes(steps));
    ReplayConcat(p, reserved, [Do(Release)], steps);
    assert [Do(Release)][..0] == [];
    assert Replay(p, reserved, [Do(Release)]) == Outcome(true, s.(reserved := 0));
    StakesFit(p, s.(reserved := 0), steps);
  }

  lemma {:induction false} ElectorStepsOnly(e: bytes, order: seq<bytes>, stakes: Stakes)
    requires forall v | v in order :: v in stakes
    ensures OnlyStakes(ElectorSteps(e, order, stakes)) && OwnStakes(ElectorSteps(e, order, stakes)) == []
  {
    if order != [] {
      ElectorStepsOnly(e, order[..|order| - 1], stakes);
      var init := ElectorSteps(e, order[..|order| - 1], stakes);
      assert ElectorSteps(e, order, stakes)[..|init|] == init;
    }
  }

  lemma {:induction false} OwnStakesConcat(a: seq<Step>, b: seq<Step>)
    ensures OwnStakes(a + b) == OwnStakes(a) + OwnStakes(b)
  {
    if b == [] {
      assert a + b == a;
    } else {
      OwnStakesConcat(a, b[..|b| - 1]);
      assert (a + b)[..|a + b| - 1] == a + b[..|b| - 1];
    }
  }

  /** A stake transaction asks for one validator stake, the sum of its black-hole outputs, whatever the map order. */
  lemma StakeStepsShape(t: Transaction, order: seq<bytes>)
    requires t.kind == STAKE && forall v | v in order :: v in ElectorStakes(t.outputs)
    ensures OnlyStakes(TxSteps(t, order))
    ensures OwnStakes(TxSteps(t, order)) == if ValidatorAmount(t.outputs) > 0 then [ValidatorAmount(t.outputs)] else []
  {
    ElectorStepsOnly(From(t), order, ElectorStakes(t.outputs));
    OwnFirst(From(t), ValidatorAmount(t.outputs), ElectorSteps(From(t), order, ElectorStakes(t.outputs)));
  }

  lemma OwnFirst(from: bytes, own: u64, rest: seq<Step>)
    requires OnlyStakes(rest) && OwnStakes(rest) == []
    ensures var steps := (if own > 0 then [Do(StakeValidator(from, own))] else []) + rest;
      OnlyStakes(steps) && OwnStakes(steps) == if own > 0 then [own] else []
  {
    if own > 0 {
      var first := [Do(StakeValidator(from, own))];
      OwnStakesConcat(first, rest);
      assert first[..0] == [];
    } else {
      assert [] + rest == rest;
    }
  }

  /** The validator stakes of a batch, in order. */
  function Validators(batch: seq<Transaction>): seq<u64>
  {
    if batch == [] then []
    else
      var own := ValidatorAmount(batch[|batch| - 1].outputs);
      Validators(batch[..|batch| - 1]) + (if own > 0 then [own] else [])
  }

  lemma StakesJoined(a: seq<Step>, b: seq<Step>)
    requires OnlyStakes(a) && OnlyStakes(b)
    ensures OnlyStakes(a + b) && OwnStakes(a + b) == OwnStakes(a) + OwnStakes(b)
  {
    OwnStakesConcat(a, b);
  }

  /** A batch of stake transactions asks for exactly its validator stakes, whatever the map orders. */
  lemma {:induction false} StakeBatchShape(batch: seq<Transaction>, orders: seq<seq<bytes>>)
    requires Orders(batch, orders) && forall i | 0 <= i < |batch| :: batch[i].kind == STAKE
    ensures OnlyStakes(BatchSteps(batch, orders)) && OwnStakes(BatchSteps(batch, orders)) == Validators(batch)
  {
    if batch != [] {
      var k := |batch| - 1;
      StakeBatchShape(batch[..k], orders[..k]);
      StakeStepsShape(batch[k], orders[k]);
      StakesJoined(BatchSteps(batch[..k], orders[..k]), TxSteps(batch[k], orders[k]));
    }
  }
}
