/** The loops of processStakeTx and processUnstakeTx that read a transaction. */
module StakeReading {
  import opened Words
  import opened Proto
  import opened Ledger
  import opened Staking
  import opened StakeBatches

  // ----- stakes

  /** A word follows its total, step by step. */
  lemma WordStep(total: int, change: int, total': int, word: u64, word': u64)
    requires word == Wrap(total) && word' == Wrap(word + change) && total' == total + change
    ensures word' == Wrap(total')
  {
    WrapAdd(total, change);
  }

  lemma OwnPushed(outs: seq<TxOutput>, o: TxOutput, own: u64, own': u64)
    requires Address(o.node) == BLACK_HOLE && own == ValidatorAmount(outs) && own' == Wrap(own + o.amount)
    ensures own' == ValidatorAmount(outs + [o])
  {
    OwnTotalPushed(outs, o);
    WordStep(OwnTotal(outs), o.amount, OwnTotal(outs + [o]), own, own');
  }

  lemma OwnSame(outs: seq<TxOutput>, o: TxOutput)
    requires Address(o.node) != BLACK_HOLE
    ensures ValidatorAmount(outs + [o]) == ValidatorAmount(outs)
  {
    OwnTotalPushed(outs, o);
  }

  lemma OwnTotalPushed(outs: seq<TxOutput>, o: TxOutput)
    ensures OwnTotal(outs + [o]) == OwnTotal(outs) + OwnAmount(o)
  {
    assert (outs + [o])[..|outs|] == outs;
  }

  lemma ElectorsPushed(outs: seq<TxOutput>, o: TxOutput)
    ensures var node := Address(o.node);
      ElectorStakes(outs + [o]) ==
        if node == [] || node == BLACK_HOLE then ElectorStakes(outs) else AddStake(ElectorStakes(outs), node, o.amount)
  {
    assert (outs + [o])[..|outs|] == outs;
  }

  method AddElector(stakes: Stakes, node: bytes, amount: u64) returns (stakes': Stakes)
    ensures stakes' == AddStake(stakes, node, amount)
  {
    var before: int := 0;
    if node in stakes { before := stakes[node]; }
    stakes' := stakes[node := Wrap(before + amount)];
  }

  /** What one output adds to the own stake and to the stakes on validators. */
  method ReadOutput(o: TxOutput, own: u64, stakes: Stakes, ghost outs: seq<TxOutput>) returns (own': u64, stakes': Stakes)
    requires own == ValidatorAmount(outs) && stakes == ElectorStakes(outs)
    ensures own' == ValidatorAmount(outs + [o]) && stakes' == ElectorStakes(outs + [o])
  {
    own', stakes' := own, stakes;
    var node := Address(o.node);
    ElectorsPushed(outs, o);
    if |node| == 20 && node == BLACK_HOLE {
      own' := Wrap(own + o.amount);
      OwnPushed(outs, o, own, own');
    } else {
      OwnSame(outs, o);
      if |node| == 20 {
        stakes' := AddElector(stakes, node, o.amount);
      }
    }
  }

  /** The loop of processStakeTx. */
  method ReadStake(outs: seq<TxOutput>) returns (own: u64, stakes: Stakes)
    ensures own == ValidatorAmount(outs) && stakes == ElectorStakes(outs)
  {
    own, stakes := 0, map[];
    for k := 0 to |outs|
      invariant own == ValidatorAmount(outs[..k]) && stakes == ElectorStakes(outs[..k])
    {
      assert outs[..k] + [outs[k]] == outs[..k + 1];
      own, stakes := ReadOutput(outs[k], own, stakes, outs[..k]);
    }
    assert outs[..|outs|] == outs;
  }

  // ----- unstakes

  lemma NodePushed(ins: seq<TxInput>, i: TxInput)
    ensures var rest, node := UnstakeNode(ins), Address(i.node);
      UnstakeNode(ins + [i]) ==
        if rest.None? then None else if rest.value == [] then Some(node) else if rest.value == node then rest else None
  {
    assert (ins + [i])[..|ins|] == ins;
  }

  lemma {:induction false} NodeStays(ins: seq<TxInput>, k: nat)
    requires k <= |ins| && UnstakeNode(ins[..k]).None?
    ensures UnstakeNode(ins).None?
    decreases |ins|
  {
    if k < |ins| {
      var init := ins[..|ins| - 1];
      assert init[..k] == ins[..k];
      NodeStays(init, k);
    } else {
      assert ins[..k] == ins;
    }
  }

  lemma InputPushed(ins: seq<TxInput>, i: TxInput)
    ensures UnstakeTotal(ins + [i], []) == UnstakeTotal(ins, []) + i.amount
  {
    assert (ins + [i])[..|ins|] == ins;
  }

  lemma OutputPushed(ins: seq<TxInput>, outs: seq<TxOutput>, o: TxOutput)
    ensures UnstakeTotal(ins, outs + [o]) == UnstakeTotal(ins, outs) - if Address(o.node) != [] then o.amount else 0
  {
    assert (outs + [o])[..|outs|] == outs;
  }

  lemma SumGrows(ins: seq<TxInput>, i: TxInput, sum: u64, sum': u64)
    requires sum == UnstakeAmount(ins, []) && sum' == Wrap(sum + i.amount)
    ensures sum' == UnstakeAmount(ins + [i], [])
  {
    InputPushed(ins, i);
    WordStep(UnstakeTotal(ins, []), i.amount, UnstakeTotal(ins + [i], []), sum, sum');
  }

  lemma StakedAgain(ins: seq<TxInput>, outs: seq<TxOutput>, o: TxOutput, amount: u64, amount': u64)
    requires amount == UnstakeAmount(ins, outs) && amount' == if Address(o.node) != [] then Wrap(amount - o.amount) else amount
    ensures amount' == UnstakeAmount(ins, outs + [o])
  {
    OutputPushed(ins, outs, o);
    if Address(o.node) != [] {
      WordStep(UnstakeTotal(ins, outs), 0 - o.amount, UnstakeTotal(ins, outs + [o]), amount, amount');
    }
  }

  /** The loop over the inputs: their common node and their sum, or None when they name different nodes. */
  method ReadInputs(ins: seq<TxInput>) returns (node: Option<bytes>, amount: u64)
    ensures node == UnstakeNode(ins)
    ensures node.Some? ==> amount == UnstakeAmount(ins, [])
  {
    var stakeNode: bytes := [];
    amount := 0;
    for k := 0 to |ins|
      invariant UnstakeNode(ins[..k]) == Some(stakeNode) && amount == UnstakeAmount(ins[..k], [])
    {
      assert ins[..k] + [ins[k]] == ins[..k + 1];
      NodePushed(ins[..k], ins[k]);
      var n := Address(ins[k].node);
      if stakeNode == [] {
        stakeNode := n;
      } else if stakeNode != n {
        NodeStays(ins, k + 1);
        return None, amount;
      }
      var more := Wrap(amount + ins[k].amount);
      SumGrows(ins[..k], ins[k], amount, more);
      amount := more;
    }
    assert ins[..|ins|] == ins;
    return Some(stakeNode), amount;
  }

  /** The loop over the outputs: what is staked again is taken off. */
  method TakeStaked(ins: seq<TxInput>, outs: seq<TxOutput>, sum: u64) returns (amount: u64)
    requires sum == UnstakeAmount(ins, [])
    ensures amount == UnstakeAmount(ins, outs)
  {
    amount := sum;
    for k := 0 to |outs|
      invariant amount == UnstakeAmount(ins, outs[..k])
    {
      assert outs[..k] + [outs[k]] == outs[..k + 1];
      ghost var before := amount;
      if |Address(outs[k].node)| == 20 {
        amount := Wrap(amount - outs[k].amount);
      }
      StakedAgain(ins, outs[..k], outs[k], before, amount);
    }
    assert outs[..|outs|] == outs;
  }

  lemma OneStep(p: Params, s: Pool, step: Step)
    requires ValidParams(p)
    ensures Replay(p, s, [step]) == Perform(p, s, step)
  {
    assert [step][..0] == [];
  }

  lemma ReplayPush(p: Params, s: Pool, steps: seq<Step>, step: Step)
    requires ValidParams(p)
    ensures Replay(p, s, steps + [step]) == if Replay(p, s, steps).ok then Perform(p, Replay(p, s, steps).pool, step) else Replay(p, s, steps)
  {
    assert (steps + [step])[..|steps|] == steps;
  }

  lemma ElectorStepsPush(e: bytes, order: seq<bytes>, k: nat, stakes: Stakes)
    requires k < |order| && forall v | v in order :: v in stakes
    ensures ElectorSteps(e, order[..k + 1], stakes) == ElectorSteps(e, order[..k], stakes) + [Do(StakeElector(e, order[k], stakes[order[k]]))]
  {
    assert order[..k + 1][..k] == order[..k];
  }
}
