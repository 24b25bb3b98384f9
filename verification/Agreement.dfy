/**
 When accepted transactions keep the staking pool sound: how much each moves on the ledger and in the pool, and over
 whole blocks and runs, that both stay in agreement.
 */
module Agreement {
  import opened Words
  import opened Sums
  import opened Proto
  import opened Ledger
  import opened Validator
  import opened BlockValidator
  import opened Conservation
  import opened Staking
  import opened StakeBatches
  import opened DepositBooks

  // ----- what a transaction moves on the ledger

  ghost function TxIn(m: UtxoSet, t: Transaction, a: bytes, n: bytes): nat
  {
    SeqSum(InputsOf(t), Named(m, DepositOf(a, n)))
  }

  ghost function TxOut(t: Transaction, a: bytes, n: bytes): nat
  {
    SeqSum(Entries(t), EntryWeight(DepositOf(a, n)))
  }

  function StakedAmount(o: TxOutput): nat
  {
    if Address(o.node) != [] then o.amount else 0
  }

  /** What the outputs stake, on whatever node. */
  ghost function Staked(outs: seq<TxOutput>): nat
  {
    SeqSum(outs, StakedAmount)
  }

  lemma {:induction false} ZeroSum<T>(s: seq<T>, w: T -> nat)
    requires forall x | x in s :: w(x) == 0
    ensures SeqSum(s, w) == 0
  {
    if s != [] {
      ZeroSum(s[..|s| - 1], w);
    }
  }

  /** The input spends a deposit of the address on the node. */
  ghost predicate SpendsDeposit(m: UtxoSet, i: TxInput, a: bytes, n: bytes)
  {
    Key(i) in m && var u := m[Key(i)];
      u.to == a && u.node == n && (u.kind == STAKE || u.kind == UNSTAKE) && u.amount == i.amount
  }

  lemma {:induction false} UniformIn(m: UtxoSet, ins: seq<TxInput>, b: bytes, k: bytes, a: bytes, n: bytes)
    requires forall i | 0 <= i < |ins| :: SpendsDeposit(m, ins[i], b, k)
    ensures SeqSum(ins, Named(m, DepositOf(a, n))) == At(a, n, b, k, SeqSum(ins, InAmount))
  {
    if ins != [] {
      UniformIn(m, ins[..|ins| - 1], b, k, a, n);
      assert SpendsDeposit(m, ins[|ins| - 1], b, k);
    }
  }

  /** All staked outputs belong to the address and name the node. */
  ghost predicate StakesOn(outs: seq<TxOutput>, b: bytes, k: bytes)
  {
    forall i | 0 <= i < |outs| && Address(outs[i].node) != [] :: outs[i].address == b && Address(outs[i].node) == k
  }

  lemma {:induction false} UniformOut(t: Transaction, es: seq<Entry>, j: nat, b: bytes, k: bytes, a: bytes, n: bytes)
    requires (t.kind == STAKE || t.kind == UNSTAKE) && StakesOn(t.outputs, b, k) && n != []
    requires j == |es| <= |t.outputs| && forall i | 0 <= i < j :: es[i] == EntryAt(t, i)
    ensures SeqSum(es, EntryWeight(DepositOf(a, n))) == At(a, n, b, k, Staked(t.outputs[..j]))
  {
    if j > 0 {
      UniformOut(t, es[..j - 1], j - 1, b, k, a, n);
      assert t.outputs[..j][..j - 1] == t.outputs[..j - 1];
      assert es[j - 1] == EntryAt(t, j - 1);
    }
  }

  lemma StakedOut(t: Transaction, b: bytes, k: bytes, a: bytes, n: bytes)
    requires (t.kind == STAKE || t.kind == UNSTAKE) && StakesOn(t.outputs, b, k) && n != []
    ensures TxOut(t, a, n) == At(a, n, b, k, Staked(t.outputs))
  {
    UniformOut(t, Entries(t), |t.outputs|, b, k, a, n);
    assert t.outputs[..|t.outputs|] == t.outputs;
  }

  lemma NothingOut(t: Transaction, a: bytes, n: bytes)
    requires t.kind != STAKE && t.kind != UNSTAKE
    ensures TxOut(t, a, n) == 0
  {
    ZeroSum(Entries(t), EntryWeight(DepositOf(a, n)));
  }

  lemma NothingIn(m: UtxoSet, t: Transaction, a: bytes, n: bytes)
    requires n != [] && forall i | i in InputsOf(t) :: Key(i) in m && m[Key(i)].node == []
    ensures TxIn(m, t, a, n) == 0
  {
    ZeroSum(InputsOf(t), Named(m, DepositOf(a, n)));
  }

  // ----- amounts as true numbers

  lemma {:induction false} UnstakeTotalIs(ins: seq<TxInput>, outs: seq<TxOutput>)
    ensures UnstakeTotal(ins, outs) == SeqSum(ins, InAmount) - Staked(outs)
    decreases |outs|, |ins|
  {
    if outs != [] {
      UnstakeTotalIs(ins, outs[..|outs| - 1]);
    } else if ins != [] {
      UnstakeTotalIs(ins[..|ins| - 1], []);
    }
  }

  lemma {:induction false} StakedAtMost(outs: seq<TxOutput>)
    ensures Staked(outs) <= SeqSum(outs, OutAmount)
  {
    SeqSumLe(outs, StakedAmount, OutAmount);
  }

  lemma {:induction false} OneUnstakeNode(ins: seq<TxInput>, n: bytes)
    requires ins != [] && n != [] && forall i | 0 <= i < |ins| :: Address(ins[i].node) == n
    ensures UnstakeNode(ins) == Some(n)
  {
    var init := ins[..|ins| - 1];
    assert UnstakeNode([]) == Some([]);
    if init == [] {
      assert UnstakeNode(init) == Some([]);
    } else {
      OneUnstakeNode(init, n);
    }
  }

  // ----- whole slots

  lemma MultipleOf(n: nat, unit: nat)
    requires unit > 0
    ensures (n * unit) % unit == 0
  {
    if n > 0 {
      MultipleOf(n - 1, unit);
      assert n * unit == (n - 1) * unit + unit;
      PlusUnit((n - 1) * unit, unit);
    }
  }

  lemma PlusUnit(x: nat, unit: nat)
    requires unit > 0
    ensures (x + unit) % unit == x % unit
  {
    var q, q' := x / unit, (x + unit) / unit;
    assert x == q * unit + x % unit;
    assert x + unit == q' * unit + (x + unit) % unit;
    assert (q' - q - 1) * unit == x % unit - (x + unit) % unit;
    NoPart(q' - q - 1, unit);
  }

  lemma NoPart(d: int, unit: nat)
    requires unit > 0
    ensures d > 0 ==> d * unit >= unit
    ensures d < 0 ==> d * unit <= 0 - unit
  {
  }

  lemma WholePlus(a: nat, b: nat, unit: nat)
    requires unit > 0 && a % unit == 0 && b % unit == 0
    ensures (a + b) % unit == 0
  {
    assert a == (a / unit) * unit && b == (b / unit) * unit;
    assert a + b == (a / unit + b / unit) * unit;
    MultipleOf(a / unit + b / unit, unit);
  }

  lemma WholeMinus(a: nat, b: nat, unit: nat)
    requires unit > 0 && a % unit == 0 && b % unit == 0 && b <= a
    ensures (a - b) % unit == 0
  {
    var x, y := a / unit, b / unit;
    assert a == x * unit && b == y * unit;
    NoPart(x - y, unit);
    assert a - b == (x - y) * unit;
    MultipleOf(x - y, unit);
  }

  lemma {:induction false} WholeSeq<T>(s: seq<T>, w: T -> nat, unit: nat)
    requires unit > 0 && forall x | x in s :: w(x) % unit == 0
    ensures SeqSum(s, w) % unit == 0
  {
    if s != [] {
      WholeSeq(s[..|s| - 1], w, unit);
      WholePlus(SeqSum(s[..|s| - 1], w), w(s[|s| - 1]), unit);
    } else {
      MultipleOf(0, unit);
    }
  }

  /** Every deposit on the black hole is whole slots. */
  ghost predicate WholeDeposits(unit: u64, m: UtxoSet)
    requires unit > 0
  {
    forall k | k in m && m[k].node == BLACK_HOLE && (m[k].kind == STAKE || m[k].kind == UNSTAKE) :: m[k].amount % unit == 0
  }

  // ----- accepted unstakes

  function NodeOf(t: Transaction): bytes
  {
    if t.inputs == [] then [] else Address(t.inputs[0].node)
  }

  lemma UnstakeInputs(env: Env, t: Transaction)
    requires ValidEnv(env) && StandardOk(env, t) && t.kind == UNSTAKE
    ensures t.inputs != [] && NodeOf(t) != []
    ensures forall i | 0 <= i < |t.inputs| :: Address(t.inputs[i].node) == NodeOf(t) && SpendsDeposit(env.utxo, t.inputs[i], Sender(t), NodeOf(t))
  {
    forall i | 0 <= i < |t.inputs| ensures Matches(Deposits(env.utxo, Sender(t)), t.inputs[i]) && Address(t.inputs[i].node) == NodeOf(t) {
      assert Matches(Deposits(env.utxo, Sender(t)), t.inputs[0]);
      assert Matches(Deposits(env.utxo, Sender(t)), t.inputs[i]);
      assert InNodes(t.inputs)[0] == NodeOf(t) && InNodes(t.inputs)[i] == Address(t.inputs[i].node);
    }
  }

  /** What acceptance says about an unstake: deposits of the sender on one node, true sums, own stakes in whole slots. */
  ghost predicate UnstakeFacts(m: UtxoSet, unit: u64, t: Transaction)
    requires unit > 0
  {
    && t.inputs != [] && NodeOf(t) != []
    && (forall i | 0 <= i < |t.inputs| :: Address(t.inputs[i].node) == NodeOf(t))
    && (forall i | 0 <= i < |t.inputs| :: SpendsDeposit(m, t.inputs[i], Sender(t), NodeOf(t)))
    && Staked(t.outputs) <= InSum(t) < U64
    && WholeSlots(unit, t.outputs)
  }

  lemma UnstakeHasFacts(env: Env, t: Transaction)
    requires ValidEnv(env) && StandardOk(env, t) && t.kind == UNSTAKE
    ensures UnstakeFacts(env.utxo, env.cfg.stakeUnit, t)
  {
    UnstakeInputs(env, t);
    StakedAtMost(t.outputs);
  }

  /** What an accepted unstake asks of the pool: its inputs minus what stays staked, on the node of its inputs. */
  lemma UnstakeAsks(m: UtxoSet, unit: u64, t: Transaction)
    requires unit > 0 && UnstakeFacts(m, unit, t)
    ensures UnstakeStep(t) == Do(UnstakeOp(Sender(t), NodeOf(t), InSum(t) - Staked(t.outputs)))
  {
    OneUnstakeNode(t.inputs, NodeOf(t));
    ExactUnstake(t.inputs, t.outputs);
    UnstakeStepIs(t, NodeOf(t), InSum(t) - Staked(t.outputs));
  }

  lemma UnstakeStepIs(t: Transaction, n: bytes, amount: u64)
    requires UnstakeNode(t.inputs) == Some(n) && n != [] && UnstakeAmount(t.inputs, t.outputs) == amount
    ensures UnstakeStep(t) == Do(UnstakeOp(Sender(t), n, amount))
  {
  }

  lemma ExactUnstake(ins: seq<TxInput>, outs: seq<TxOutput>)
    requires Staked(outs) <= SeqSum(ins, InAmount) < U64
    ensures UnstakeAmount(ins, outs) == SeqSum(ins, InAmount) - Staked(outs)
  {
    UnstakeTotalIs(ins, outs);
    SmallWrap(SeqSum(ins, InAmount) - Staked(outs));
  }

  lemma WholeInputs(m: UtxoSet, unit: u64, ins: seq<TxInput>, a: bytes)
    requires unit > 0 && WholeDeposits(unit, m)
    requires forall i | 0 <= i < |ins| :: SpendsDeposit(m, ins[i], a, BLACK_HOLE)
    ensures SeqSum(ins, InAmount) % unit == 0
  {
    forall i | i in ins ensures InAmount(i) % unit == 0 {
      var k :| 0 <= k < |ins| && ins[k] == i;
      assert SpendsDeposit(m, ins[k], a, BLACK_HOLE);
    }
    WholeSeq(ins, InAmount, unit);
  }

  lemma UnstakeWhole(m: UtxoSet, unit: u64, t: Transaction)
    requires unit > 0 && UnstakeFacts(m, unit, t) && NodeOf(t) == BLACK_HOLE
    requires WholeDeposits(unit, m) && StakesOn(t.outputs, Sender(t), BLACK_HOLE)
    ensures (InSum(t) - Staked(t.outputs)) % unit == 0
  {
    WholeInputs(m, unit, t.inputs, Sender(t));
    WholeStakes(t.outputs, unit);
    WholeMinus(InSum(t), Staked(t.outputs), unit);
  }

  lemma WholeStakes(outs: seq<TxOutput>, unit: u64)
    requires unit > 0 && WholeSlots(unit, outs)
    requires forall i | 0 <= i < |outs| && Address(outs[i].node) != [] :: Address(outs[i].node) == BLACK_HOLE
    ensures Staked(outs) % unit == 0
  {
    forall o | o in outs ensures StakedAmount(o) % unit == 0 {
      var k :| 0 <= k < |outs| && outs[k] == o;
      MultipleOf(0, unit);
    }
    WholeSeq(outs, StakedAmount, unit);
  }

  // ----- accepted stakes

  ghost predicate OneStakeNode(outs: seq<TxOutput>, n: bytes)
  {
    n != [] && forall i | 0 <= i < |outs| && Address(outs[i].node) != [] :: Address(outs[i].node) == n
  }

  /** All stakes on the black hole: one validator stake. */
  lemma {:induction false} OwnStakeAsks(outs: seq<TxOutput>)
    requires OneStakeNode(outs, BLACK_HOLE)
    ensures OwnTotal(outs) == Staked(outs) && ElectorStakes(outs) == map[]
  {
    if outs != [] {
      OwnStakeAsks(outs[..|outs| - 1]);
    }
  }

  lemma {:induction false} NoOwnStake(outs: seq<TxOutput>, n: bytes)
    requires OneStakeNode(outs, n) && n != BLACK_HOLE
    ensures OwnTotal(outs) == 0
  {
    if outs != [] {
      NoOwnStake(outs[..|outs| - 1], n);
    }
  }

  function OneEntry(n: bytes, amount: nat): Stakes
  {
    if 0 < amount < U64 then Put(map[], n, amount) else map[]
  }

  /** One output more on the node. */
  lemma EntryGrows(n: bytes, before: nat, amount: u64)
    requires before + amount < U64 && amount > 0
    ensures AddStake(OneEntry(n, before), n, amount) == OneEntry(n, before + amount)
  {
    SmallWrap(before + amount);
  }

  /** All stakes on one validator: one elector stake. */
  lemma {:induction false} ElectorStakeAsks(outs: seq<TxOutput>, n: bytes)
    requires OneStakeNode(outs, n) && n != BLACK_HOLE && Staked(outs) < U64
    requires forall i | 0 <= i < |outs| :: outs[i].amount > 0
    ensures ElectorStakes(outs) == OneEntry(n, Staked(outs))
  {
    if outs != [] {
      var init, o := outs[..|outs| - 1], outs[|outs| - 1];
      ElectorStakeAsks(init, n);
      if Address(o.node) != [] {
        EntryGrows(n, Staked(init), o.amount);
      }
    }
  }

  lemma {:induction false} SomeStake(outs: seq<TxOutput>) returns (k: nat)
    requires StakeOutputs(outs) > 0
    ensures k < |outs| && Address(outs[k].node) != []
  {
    if outs[|outs| - 1].node != [] {
      k := |outs| - 1;
    } else {
      k := SomeStake(outs[..|outs| - 1]);
    }
  }

  // ----- one transaction

  /** Sums fit a word, and a validator comes back only when everything pending on it is paid. */
  ghost predicate Room(s: Pool, t: Transaction)
  {
    && (ValidatorAmount(t.outputs) > 0 ==>
         if Sender(t) in s.validators then s.validators[Sender(t)].cumulative + ValidatorAmount(t.outputs) < U64
         else RowOf(s, Sender(t)) == map[])
    && forall v | v in ElectorStakes(t.outputs) ::
         (if v in s.validators then s.validators[v].cumulative else EntryIn(RowOf(s, v), Sender(t))) + ElectorStakes(t.outputs)[v] < U64
  }

  /**
   What acceptance does not check: what stays staked stays the sender's own, on the node it was unstaked from; what
   is staked is staked for the sender; sums fit; and nobody signs for the black hole.
   */
  ghost predicate Tidy(s: Pool, t: Transaction)
  {
    if t.kind == UNSTAKE then StakesOn(t.outputs, Sender(t), NodeOf(t))
    else if t.kind == STAKE then
      && Sender(t) != BLACK_HOLE && Room(s, t)
      && forall i | 0 <= i < |t.outputs| && Address(t.outputs[i].node) != [] :: t.outputs[i].address == Sender(t)
    else true
  }

  /** The pool takes the step of the transaction, and what it holds moves as the ledger does. */
  ghost predicate Follows(m: UtxoSet, t: Transaction, s: Pool, s': Pool, a: bytes, n: bytes)
  {
    Held(s', a, n) + TxIn(m, t, a, n) == Held(s, a, n) + TxOut(t, a, n)
  }

  lemma ReplayOne(p: Params, s: Pool, step: Step)
    requires ValidParams(p)
    ensures Replay(p, s, [step]) == Perform(p, s, step) && Replay(p, s, []) == Outcome(true, s)
  {
    assert [step][..0] == [];
  }

  lemma UnstakeFollows(p: Params, m: UtxoSet, s: Pool, t: Transaction, s': Pool, a: bytes, n: bytes)
    requires ValidParams(p) && Inv(p, s) && Calm(s) && WholeDeposits(p.unit, m) && t.kind == UNSTAKE && n != []
    requires UnstakeFacts(m, p.unit, t) && StakesOn(t.outputs, Sender(t), NodeOf(t))
    requires Perform(p, s, UnstakeStep(t)) == Outcome(true, s') && InSum(t) <= Held(s, Sender(t), NodeOf(t))
    ensures Inv(p, s') && Calm(s') && Follows(m, t, s, s', a, n)
  {
    UnstakeLedgerSide(p, m, t, a, n);
    UnstakePoolSide(p, m, s, t, s', a, n);
  }

  lemma UnstakeLedgerSide(p: Params, m: UtxoSet, t: Transaction, a: bytes, n: bytes)
    requires ValidParams(p) && t.kind == UNSTAKE && n != []
    requires UnstakeFacts(m, p.unit, t) && StakesOn(t.outputs, Sender(t), NodeOf(t))
    ensures TxIn(m, t, a, n) == At(a, n, Sender(t), NodeOf(t), InSum(t))
    ensures TxOut(t, a, n) == At(a, n, Sender(t), NodeOf(t), Staked(t.outputs))
  {
    UniformIn(m, t.inputs, Sender(t), NodeOf(t), a, n);
    StakedOut(t, Sender(t), NodeOf(t), a, n);
  }

  lemma UnstakeIsWhole(p: Params, m: UtxoSet, t: Transaction)
    requires ValidParams(p) && WholeDeposits(p.unit, m) && UnstakeFacts(m, p.unit, t) && StakesOn(t.outputs, Sender(t), NodeOf(t))
    ensures NodeOf(t) == BLACK_HOLE ==> (InSum(t) - Staked(t.outputs)) % p.unit == 0
  {
    if NodeOf(t) == BLACK_HOLE {
      UnstakeWhole(m, p.unit, t);
    }
  }

  lemma UnstakePoolSide(p: Params, m: UtxoSet, s: Pool, t: Transaction, s': Pool, a: bytes, n: bytes)
    requires ValidParams(p) && Inv(p, s) && Calm(s) && WholeDeposits(p.unit, m)
    requires UnstakeFacts(m, p.unit, t) && StakesOn(t.outputs, Sender(t), NodeOf(t))
    requires Perform(p, s, UnstakeStep(t)) == Outcome(true, s') && InSum(t) <= Held(s, Sender(t), NodeOf(t))
    ensures Inv(p, s') && Calm(s')
    ensures Held(s', a, n) + At(a, n, Sender(t), NodeOf(t), InSum(t) - Staked(t.outputs)) == Held(s, a, n)
  {
    UnstakeAsks(m, p.unit, t);
    UnstakeIsWhole(p, m, t);
    UnstakeMoves(p, s, Sender(t), NodeOf(t), InSum(t) - Staked(t.outputs), s', a, n);
  }

  function UnstakeOp(b: bytes, k: bytes, amount: u64): Op
  {
    if k == BLACK_HOLE then UnstakeValidator(b, amount) else UnstakeElector(b, k, amount)
  }

  /** The pool's side of an unstake. */
  lemma UnstakeMoves(p: Params, s: Pool, b: bytes, k: bytes, amount: u64, s': Pool, a: bytes, n: bytes)
    requires ValidParams(p) && Inv(p, s) && Calm(s) && amount <= Held(s, b, k)
    requires k == BLACK_HOLE ==> amount % p.unit == 0
    requires Apply(p, s, UnstakeOp(b, k, amount)) == Outcome(true, s')
    ensures Inv(p, s') && Calm(s')
    ensures Held(s', a, n) + At(a, n, b, k, amount) == Held(s, a, n)
  {
    if k == BLACK_HOLE {
      OwnUnstakeMoves(p, s, b, amount, s', a, n);
    } else {
      ElectorUnstakeMoves(p, s, b, k, amount, s', a, n);
    }
  }

  lemma OwnUnstakeMoves(p: Params, s: Pool, b: bytes, amount: u64, s': Pool, a: bytes, n: bytes)
    requires ValidParams(p) && Inv(p, s) && Calm(s) && amount % p.unit == 0 && amount <= Held(s, b, BLACK_HOLE)
    requires Apply(p, s, UnstakeValidator(b, amount)) == Outcome(true, s')
    ensures Inv(p, s') && Calm(s') && Held(s', a, n) + At(a, n, b, BLACK_HOLE, amount) == Held(s, a, n)
  {
    UnstakeValidatorHeld(p, s, b, amount, a, n);
    CancelValidatorKeeps(p, s, b, amount);
  }

  lemma ElectorUnstakeMoves(p: Params, s: Pool, b: bytes, k: bytes, amount: u64, s': Pool, a: bytes, n: bytes)
    requires ValidParams(p) && Inv(p, s) && Calm(s) && k != BLACK_HOLE && amount <= Held(s, b, k)
    requires Apply(p, s, UnstakeElector(b, k, amount)) == Outcome(true, s')
    ensures Inv(p, s') && Calm(s') && Held(s', a, n) + At(a, n, b, k, amount) == Held(s, a, n)
  {
    UnstakeElectorHeld(p, s, b, k, amount, a, n);
    CancelElectorKeeps(p, s, b, k, amount);
  }

  /** What acceptance says about a stake: plain inputs, one node, positive outputs, own stakes in whole slots. */
  ghost predicate StakeFacts(m: UtxoSet, unit: u64, t: Transaction, k: bytes)
    requires unit > 0
  {
    && t.inputs != [] && (forall i | i in t.inputs :: Key(i) in m && m[Key(i)].node == [])
    && OneStakeNode(t.outputs, k) && 0 < Staked(t.outputs) < U64
    && (forall i | 0 <= i < |t.outputs| :: t.outputs[i].amount > 0)
    && WholeSlots(unit, t.outputs)
  }

  lemma StakePositive(outs: seq<TxOutput>, j: nat)
    requires j < |outs| && Address(outs[j].node) != [] && outs[j].amount > 0
    ensures Staked(outs) > 0
  {
    SeqSumMember(outs, j, StakedAmount);
  }

  lemma StakeHasFacts(env: Env, t: Transaction) returns (k: bytes)
    requires ValidEnv(env) && StandardOk(env, t) && t.kind == STAKE
    ensures StakeFacts(env.utxo, env.cfg.stakeUnit, t, k)
  {
    var j := SomeStake(t.outputs);
    k := Address(t.outputs[j].node);
    forall i | 0 <= i < |t.outputs| ensures t.outputs[i].amount > 0 && (IsValidatorStake(t.outputs[i]) ==> t.outputs[i].amount % env.cfg.stakeUnit == 0) {
      assert GoodOutput(env, t.kind, t.outputs[i]);
    }
    StakePositive(t.outputs, j);
    StakedAtMost(t.outputs);
    assert OneStakeNode(t.outputs, k) by {
      assert OutNodes(t.outputs)[j] == k;
      assert forall i | 0 <= i < |t.outputs| :: OutNodes(t.outputs)[i] == Address(t.outputs[i].node);
    }
    forall i | i in t.inputs ensures Key(i) in env.utxo && env.utxo[Key(i)].node == [] {
      var l :| 0 <= l < |t.inputs| && t.inputs[l] == i;
      assert Matches(OwnedBy(env.utxo, Sender(t)), t.inputs[l]);
    }
  }

  lemma OwnStakeSteps(m: UtxoSet, unit: u64, t: Transaction, order: seq<bytes>)
    requires unit > 0 && t.kind == STAKE && StakeFacts(m, unit, t, BLACK_HOLE) && OrderOf(ElectorStakes(t.outputs), order)
    ensures ValidatorAmount(t.outputs) == Staked(t.outputs)
    ensures TxSteps(t, order) == [Do(StakeValidator(Sender(t), Staked(t.outputs)))]
  {
    OwnStakeAsks(t.outputs);
    SmallWrap(Staked(t.outputs));
    NoKey(ElectorStakes(t.outputs), order);
  }

  lemma NoKey(stakes: Stakes, order: seq<bytes>)
    requires OrderOf(stakes, order) && stakes == map[]
    ensures order == []
  {
  }

  lemma ElectorStakeSteps(m: UtxoSet, unit: u64, t: Transaction, k: bytes, order: seq<bytes>)
    requires unit > 0 && t.kind == STAKE && StakeFacts(m, unit, t, k) && k != BLACK_HOLE && OrderOf(ElectorStakes(t.outputs), order)
    ensures ValidatorAmount(t.outputs) == 0 && ElectorStakes(t.outputs) == Put(map[], k, Staked(t.outputs))
    ensures TxSteps(t, order) == [Do(StakeElector(Sender(t), k, Staked(t.outputs)))]
  {
    NoOwnStake(t.outputs, k);
    SmallWrap(0);
    ElectorStakeAsks(t.outputs, k);
    assert ElectorStakes(t.outputs).Keys == {k};
    OneKey(ElectorStakes(t.outputs), k, order);
    OneElectorStep(Sender(t), k, ElectorStakes(t.outputs));
  }

  lemma OneElectorStep(e: bytes, k: bytes, stakes: Stakes)
    requires k in stakes
    ensures ElectorSteps(e, [k], stakes) == [Do(StakeElector(e, k, stakes[k]))]
  {
    assert [k][..0] == [];
    assert ElectorSteps(e, [k][..0], stakes) == [];
  }

  lemma OneKey(stakes: Stakes, k: bytes, order: seq<bytes>)
    requires OrderOf(stakes, order) && stakes.Keys == {k}
    ensures order == [k]
  {
    assert |stakes| == |{k}| == 1;
    assert order[0] in order;
    assert order[0] in stakes.Keys;
  }

  lemma OwnStakeFollows(p: Params, m: UtxoSet, s: Pool, t: Transaction, s': Pool, a: bytes, n: bytes)
    requires ValidParams(p) && Inv(p, s) && Calm(s) && t.kind == STAKE && n != [] && Tidy(s, t)
    requires StakeFacts(m, p.unit, t, BLACK_HOLE) && ValidatorAmount(t.outputs) == Staked(t.outputs)
    requires Apply(p, s, StakeValidator(Sender(t), Staked(t.outputs))) == Outcome(true, s')
    ensures Inv(p, s') && Calm(s') && Follows(m, t, s, s', a, n)
  {
    NothingIn(m, t, a, n);
    StakedOut(t, Sender(t), BLACK_HOLE, a, n);
    WholeStakes(t.outputs, p.unit);
    OwnStakeMoves(p, s, Sender(t), Staked(t.outputs), s', a, n);
  }

  lemma OwnStakeMoves(p: Params, s: Pool, b: bytes, amount: u64, s': Pool, a: bytes, n: bytes)
    requires ValidParams(p) && Inv(p, s) && Calm(s) && b != BLACK_HOLE && amount > 0 && amount % p.unit == 0
    requires if b in s.validators then s.validators[b].cumulative + amount < U64 else RowOf(s, b) == map[]
    requires Apply(p, s, StakeValidator(b, amount)) == Outcome(true, s')
    ensures Inv(p, s') && Calm(s') && Held(s', a, n) == Held(s, a, n) + At(a, n, b, BLACK_HOLE, amount)
  {
    StakeValidatorHeld(p, s, b, amount, a, n);
    RegisterValidatorKeeps(p, s, b, amount);
  }

  lemma ElectorStakeFollows(p: Params, m: UtxoSet, s: Pool, t: Transaction, k: bytes, s': Pool, a: bytes, n: bytes)
    requires ValidParams(p) && Inv(p, s) && Calm(s) && t.kind == STAKE && n != [] && Tidy(s, t) && k != BLACK_HOLE
    requires StakeFacts(m, p.unit, t, k) && ElectorStakes(t.outputs) == Put(map[], k, Staked(t.outputs))
    requires Apply(p, s, StakeElector(Sender(t), k, Staked(t.outputs))) == Outcome(true, s')
    ensures Inv(p, s') && Calm(s') && Follows(m, t, s, s', a, n)
  {
    NothingIn(m, t, a, n);
    StakedOut(t, Sender(t), k, a, n);
    assert k in ElectorStakes(t.outputs) && ElectorStakes(t.outputs)[k] == Staked(t.outputs);
    ElectorStakeMoves(p, s, Sender(t), k, Staked(t.outputs), s', a, n);
  }

  lemma ElectorStakeMoves(p: Params, s: Pool, b: bytes, k: bytes, amount: u64, s': Pool, a: bytes, n: bytes)
    requires ValidParams(p) && Inv(p, s) && Calm(s) && k != BLACK_HOLE && amount > 0
    requires (if k in s.validators then s.validators[k].cumulative else EntryIn(RowOf(s, k), b)) + amount < U64
    requires Apply(p, s, StakeElector(b, k, amount)) == Outcome(true, s')
    ensures Inv(p, s') && Calm(s') && Held(s', a, n) == Held(s, a, n) + At(a, n, b, k, amount)
  {
    StakeElectorHeld(p, s, b, k, amount, a, n);
    RegisterElectorKeeps(p, s, b, k, amount);
  }

  lemma PayOutFollows(p: Params, m: UtxoSet, s: Pool, t: Transaction, s': Pool, a: bytes, n: bytes)
    requires ValidParams(p) && Inv(p, s) && Calm(s) && t.kind == SYSTEM_UNSTAKE && n != []
    requires t.inputs != [] && |t.outputs| == 1 && InSum(t) == t.outputs[0].amount <= Held(s, t.outputs[0].address, NodeOf(t))
    requires forall i | 0 <= i < |t.inputs| :: SpendsDeposit(m, t.inputs[i], t.outputs[0].address, NodeOf(t))
    requires Perform(p, s, PayOutStep(t)) == Outcome(true, s')
    ensures Inv(p, s') && Calm(s') && Follows(m, t, s, s', a, n)
  {
    var e, k := t.outputs[0].address, NodeOf(t);
    UniformIn(m, t.inputs, e, k, a, n);
    NothingOut(t, a, n);
    PayOutHeld(s, k, e, t.outputs[0].amount, a, n);
  }

  /** What the transaction takes from an address on a node is still held there. */
  ghost predicate Covers(m: UtxoSet, t: Transaction, s: Pool, a: bytes, n: bytes)
  {
    TxIn(m, t, a, n) <= Held(s, a, n)
  }

  lemma StandardUnstakeFollows(env: Env, p: Params, s: Pool, t: Transaction, s': Pool, a: bytes, n: bytes)
    requires ValidEnv(env) && ValidParams(p) && env.cfg.stakeUnit == p.unit && StandardOk(env, t) && t.kind == UNSTAKE && n != []
    requires Inv(p, s) && Calm(s) && WholeDeposits(p.unit, env.utxo) && Tidy(s, t)
    requires Perform(p, s, UnstakeStep(t)) == Outcome(true, s') && Covers(env.utxo, t, s, Sender(t), NodeOf(t))
    ensures Inv(p, s') && Calm(s') && Follows(env.utxo, t, s, s', a, n)
  {
    UnstakeHasFacts(env, t);
    UnstakeLedgerSide(p, env.utxo, t, Sender(t), NodeOf(t));
    UnstakeFollows(p, env.utxo, s, t, s', a, n);
  }

  lemma StandardStakeFollows(env: Env, p: Params, s: Pool, t: Transaction, order: seq<bytes>, s': Pool, a: bytes, n: bytes)
    requires ValidEnv(env) && ValidParams(p) && env.cfg.stakeUnit == p.unit && StandardOk(env, t) && t.kind == STAKE && n != []
    requires Inv(p, s) && Calm(s) && Tidy(s, t) && OrderOf(ElectorStakes(t.outputs), order)
    requires Replay(p, s, TxSteps(t, order)) == Outcome(true, s')
    ensures Inv(p, s') && Calm(s') && Follows(env.utxo, t, s, s', a, n)
  {
    var k := StakeHasFacts(env, t);
    if k == BLACK_HOLE {
      OwnStakeSteps(env.utxo, p.unit, t, order);
      ReplayOne(p, s, Do(StakeValidator(Sender(t), Staked(t.outputs))));
      OwnStakeFollows(p, env.utxo, s, t, s', a, n);
    } else {
      ElectorStakeSteps(env.utxo, p.unit, t, k, order);
      ReplayOne(p, s, Do(StakeElector(Sender(t), k, Staked(t.outputs))));
      ElectorStakeFollows(p, env.utxo, s, t, k, s', a, n);
    }
  }

  lemma SystemUnstakeSpends(env: Env, num: u64, t: Transaction)
    requires ValidEnv(env) && SystemUnstakeOk(env, num, t)
    ensures t.inputs != [] && |t.outputs| == 1 && InSum(t) == t.outputs[0].amount && NodeOf(t) != []
    ensures forall i | 0 <= i < |t.inputs| :: SpendsDeposit(env.utxo, t.inputs[i], t.outputs[0].address, NodeOf(t))
  {
    forall i | 0 <= i < |t.inputs| ensures SpendsDeposit(env.utxo, t.inputs[i], t.outputs[0].address, NodeOf(t)) {
      assert Matches(Deposits(env.utxo, t.outputs[0].address), t.inputs[i]);
      assert Address(t.inputs[i].node) == Address(t.inputs[0].node);
    }
    assert Matches(Deposits(env.utxo, t.outputs[0].address), t.inputs[0]);
  }

  lemma SystemUnstakeFollows(env: Env, num: u64, p: Params, s: Pool, t: Transaction, s': Pool, a: bytes, n: bytes)
    requires ValidEnv(env) && ValidParams(p) && SystemUnstakeOk(env, num, t) && n != []
    requires Inv(p, s) && Calm(s) && Perform(p, s, PayOutStep(t)) == Outcome(true, s')
    requires |t.outputs| == 1 && Covers(env.utxo, t, s, t.outputs[0].address, NodeOf(t))
    ensures Inv(p, s') && Calm(s') && Follows(env.utxo, t, s, s', a, n)
  {
    SystemUnstakeSpends(env, num, t);
    UniformIn(env.utxo, t.inputs, t.outputs[0].address, NodeOf(t), t.outputs[0].address, NodeOf(t));
    PayOutFollows(p, env.utxo, s, t, s', a, n);
  }

  /** All other kinds leave deposits and pool alone. */
  lemma OtherFollows(env: Env, num: u64, ts: seq<Transaction>, t: Transaction, s: Pool, a: bytes, n: bytes)
    requires ValidEnv(env) && TxOk(env, num, ts, t) && n != []
    requires t.kind != STAKE && t.kind != UNSTAKE && t.kind != SYSTEM_UNSTAKE
    ensures Follows(env.utxo, t, s, s, a, n)
  {
    forall i | i in InputsOf(t) ensures Key(i) in env.utxo && env.utxo[Key(i)].node == [] {
      var l :| 0 <= l < |t.inputs| && t.inputs[l] == i;
      if t.kind == COLLAPSE {
        assert Matches(CollapseKnown(env.utxo, t.inputs), t.inputs[l]);
      } else {
        assert Matches(OwnedBy(env.utxo, Sender(t)), t.inputs[l]);
      }
    }
    NothingIn(env.utxo, t, a, n);
    NothingOut(t, a, n);
  }

  /** The owner and the node whose deposits a transaction spends. */
  function Taker(t: Transaction): bytes
  {
    if t.kind == SYSTEM_UNSTAKE && |t.outputs| == 1 then t.outputs[0].address else Sender(t)
  }

  /** An accepted tidy transaction that the pool performs keeps the invariant, and pool and ledger move together. */
  lemma TxFollows(env: Env, num: u64, ts: seq<Transaction>, p: Params, s: Pool, t: Transaction, order: seq<bytes>, s': Pool, a: bytes, n: bytes)
    requires ValidEnv(env) && ValidParams(p) && env.cfg.stakeUnit == p.unit && TxOk(env, num, ts, t) && n != []
    requires Inv(p, s) && Calm(s) && WholeDeposits(p.unit, env.utxo) && Tidy(s, t)
    requires OrderOf(ElectorStakes(t.outputs), order) && Replay(p, s, TxSteps(t, order)) == Outcome(true, s')
    requires t.kind == UNSTAKE || t.kind == SYSTEM_UNSTAKE ==> Covers(env.utxo, t, s, Taker(t), NodeOf(t))
    ensures Inv(p, s') && Calm(s') && Follows(env.utxo, t, s, s', a, n)
  {
    if t.kind == UNSTAKE {
      ReplayOne(p, s, UnstakeStep(t));
      StandardUnstakeFollows(env, p, s, t, s', a, n);
    } else if t.kind == STAKE {
      StandardStakeFollows(env, p, s, t, order, s', a, n);
    } else if t.kind == SYSTEM_UNSTAKE {
      ReplayOne(p, s, PayOutStep(t));
      SystemUnstakeSpends(env, num, t);
      SystemUnstakeFollows(env, num, p, s, t, s', a, n);
    } else {
      ReplayOne(p, s, Refuse);
      OtherFollows(env, num, ts, t, s, a, n);
    }
  }
}
