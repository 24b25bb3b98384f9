/**
 CryspValidator (blockchain/consensus/attestation): the checks a block's transactions must pass. Each check is
 a predicate that says what a passing transaction satisfies, and a method with the code's loops and local maps
 that decides it. Signatures and hashes are abstract functions of the environment.
 */
module Validator {
  import opened Words
  import opened Sums
  import opened Proto
  import opened Ledger

  datatype Config = Config(stakeUnit: u64, minFee: u64, maxStakers: nat, blockSize: nat)

  /** What the validator reads: unspent outputs, nonces, the staking pool, and the reward map of the block's proposer. */
  datatype Env = Env(
    cfg: Config, utxo: UtxoSet, nonces: map<bytes, u64>, electors: map<bytes, nat>, slotsOpen: bool,
    rewards: map<bytes, u64>, signed: Transaction -> bool, hashOf: Transaction -> bytes)

  ghost predicate ValidEnv(env: Env)
  {
    env.cfg.stakeUnit > 0
  }

  // ----- queries on the unspent outputs

  /** FindAllUTxO: plain coins of an address. */
  function OwnedBy(m: UtxoSet, addr: bytes): (r: UtxoSet)
    ensures forall k | k in r :: k in m && r[k] == m[k]
  {
    map k | k in m && m[k].to == addr && m[k].node == [] :: m[k]
  }

  /** FindStakeDepositsOfAddress with node "all". */
  function Deposits(m: UtxoSet, addr: bytes): (r: UtxoSet)
    ensures forall k | k in r :: k in m && r[k] == m[k]
  {
    map k | k in m && m[k].to == addr && m[k].node != [] && (m[k].kind == STAKE || m[k].kind == UNSTAKE) :: m[k]
  }

  // ----- checkInputsData

  /** The input names a known output and repeats its amount and node. */
  ghost predicate Matches(known: UtxoSet, i: TxInput)
  {
    Key(i) in known && known[Key(i)].amount == i.amount && known[Key(i)].node == Address(i.node)
  }

  ghost predicate InputsMatch(known: UtxoSet, ins: seq<TxInput>)
  {
    && (forall i | 0 <= i < |ins| :: Matches(known, ins[i]))
    && Distinct(ins)
  }

  /** checkInputsData: every input is a known output and none is spent twice. */
  method CheckInputsData(known: UtxoSet, ins: seq<TxInput>) returns (ok: bool)
    ensures ok <==> InputsMatch(known, ins)
  {
    var spent: set<OutKey> := {};
    var k := 0;
    while k < |ins|
      invariant k <= |ins|
      invariant forall i | 0 <= i < k :: Matches(known, ins[i])
      invariant Distinct(ins[..k]) && spent == Keys(ins[..k])
    {
      var key := OutKey(ins[k].hash, ins[k].index);
      if key !in known { return false; }
      if known[key].amount != ins[k].amount { return false; }
      if known[key].node != Address(ins[k].node) { return false; }
      if key in spent {
        SpentTwice(ins, k);
        return false;
      }
      SpentOnce(ins, k);
      spent := spent + {key};
      k := k + 1;
    }
    assert ins[..k] == ins;
    return true;
  }

  lemma SpentTwice(ins: seq<TxInput>, k: nat)
    requires k < |ins| && Distinct(ins[..k]) && Key(ins[k]) in Keys(ins[..k])
    ensures !Distinct(ins)
  {
    assert ins[..k] + [ins[k]] == ins[..k + 1];
    PushOne(ins[..k], ins[k]);
    assert ins[..k + 1] + ins[k + 1..] == ins;
    DistinctPrefix(ins[..k + 1], ins[k + 1..]);
  }

  lemma SpentOnce(ins: seq<TxInput>, k: nat)
    requires k < |ins| && Distinct(ins[..k]) && Key(ins[k]) !in Keys(ins[..k])
    ensures Distinct(ins[..k + 1]) && Keys(ins[..k + 1]) == Keys(ins[..k]) + {Key(ins[k])}
  {
    assert ins[..k] + [ins[k]] == ins[..k + 1];
    PushOne(ins[..k], ins[k]);
  }

  // ----- validateTxStructBase

  predicate SystemUnstakeShape(t: Transaction)
    requires t.inputs != []
  {
    && |t.outputs| == 1
    && forall i | 0 <= i < |t.inputs| ::
         Address(t.inputs[i].node) == Address(t.inputs[0].node) && t.inputs[i].address == t.outputs[0].address
  }

  ghost predicate GoodInput(env: Env, kind: u32, i: TxInput)
  {
    i.amount > 0 && (kind == UNSTAKE && Address(i.node) == BLACK_HOLE ==> i.amount >= env.cfg.stakeUnit)
  }

  ghost predicate GoodOutput(env: Env, kind: u32, o: TxOutput)
    requires ValidEnv(env)
  {
    o.amount > 0 && (kind == STAKE && Address(o.node) == BLACK_HOLE ==> o.amount % env.cfg.stakeUnit == 0)
  }

  ghost predicate GoodInputs(env: Env, t: Transaction)
  {
    forall i | 0 <= i < |t.inputs| :: GoodInput(env, t.kind, t.inputs[i])
  }

  /** The number of outputs that name a node. */
  function StakeOutputs(outs: seq<TxOutput>): nat
  {
    if outs == [] then 0 else StakeOutputs(outs[..|outs| - 1]) + (if outs[|outs| - 1].node != [] then 1 else 0)
  }

  ghost predicate GoodOutputs(env: Env, t: Transaction)
    requires ValidEnv(env)
  {
    && (forall i | 0 <= i < |t.outputs| :: GoodOutput(env, t.kind, t.outputs[i]))
    && (t.kind == STAKE ==> StakeOutputs(t.outputs) > 0)
  }

  ghost predicate Shaped(env: Env, t: Transaction)
  {
    && 0 < |t.inputs| <= MAX_OUTPUTS
    && 0 < |t.outputs| <= MAX_OUTPUTS
    && (t.kind != COLLAPSE && t.kind != SYSTEM_UNSTAKE ==> env.signed(t))
    && (t.kind == SYSTEM_UNSTAKE ==> SystemUnstakeShape(t))
  }

  /** Inputs pay for outputs and fee, in true sums that fit a word. */
  ghost predicate Balanced(t: Transaction)
  {
    InSum(t) == OutSum(t) + RealFee(t) < U64
  }

  ghost predicate StructBaseOk(env: Env, t: Transaction)
    requires ValidEnv(env)
  {
    Shaped(env, t) && GoodInputs(env, t) && GoodOutputs(env, t) && Balanced(t)
  }

  method CheckShape(env: Env, t: Transaction) returns (ok: bool)
    ensures ok <==> Shaped(env, t)
  {
    if |t.inputs| == 0 { return false; }
    if |t.outputs| == 0 { return false; }
    if |t.inputs| > MAX_OUTPUTS { return false; }
    if |t.outputs| > MAX_OUTPUTS { return false; }
    if t.kind != COLLAPSE && t.kind != SYSTEM_UNSTAKE && !env.signed(t) { return false; }
    if t.kind == SYSTEM_UNSTAKE {
      if |t.outputs| != 1 { return false; }
      var k := 0;
      while k < |t.inputs|
        invariant k <= |t.inputs|
        invariant forall i | 0 <= i < k ::
          Address(t.inputs[i].node) == Address(t.inputs[0].node) && t.inputs[i].address == t.outputs[0].address
      {
        if Address(t.inputs[k].node) != Address(t.inputs[0].node) { return false; }
        if t.inputs[k].address != t.outputs[0].address { return false; }
        k := k + 1;
      }
    }
    return true;
  }

  /** The input loop: None on a bad input or when the checked addition overflows. */
  method AddInputs(env: Env, t: Transaction) returns (r: Option<u64>)
    ensures r.Some? <==> GoodInputs(env, t) && InSum(t) < U64
    ensures r.Some? ==> r.value == InSum(t)
  {
    var sum: u64 := 0;
    var k := 0;
    while k < |t.inputs|
      invariant k <= |t.inputs|
      invariant forall i | 0 <= i < k :: GoodInput(env, t.kind, t.inputs[i])
      invariant sum == SeqSum(t.inputs[..k], InAmount)
    {
      SeqSumPush(t.inputs[..k], t.inputs[k], InAmount);
      assert t.inputs[..k] + [t.inputs[k]] == t.inputs[..k + 1];
      if t.inputs[k].amount == 0 { return None; }
      if t.kind == UNSTAKE && Address(t.inputs[k].node) == BLACK_HOLE && t.inputs[k].amount < env.cfg.stakeUnit { return None; }
      var next := Add64(t.inputs[k].amount, sum);
      if next.1 {
        PrefixSum(t.inputs, k + 1, InAmount);
        return None;
      }
      sum := next.0;
      k := k + 1;
    }
    assert t.inputs[..k] == t.inputs;
    return Some(sum);
  }

  lemma PrefixSum<T>(s: seq<T>, k: nat, w: T -> nat)
    requires k <= |s|
    ensures SeqSum(s[..k], w) <= SeqSum(s, w)
  {
    SeqSumConcat(s[..k], s[k..], w);
    assert s[..k] + s[k..] == s;
  }

  lemma OutputStep(outs: seq<TxOutput>, k: nat)
    requires k < |outs|
    ensures SeqSum(outs[..k + 1], OutAmount) == SeqSum(outs[..k], OutAmount) + outs[k].amount
    ensures StakeOutputs(outs[..k + 1]) == StakeOutputs(outs[..k]) + if outs[k].node != [] then 1 else 0
  {
    assert outs[..k + 1][..k] == outs[..k];
  }

  method AddOutputs(env: Env, t: Transaction) returns (r: Option<u64>)
    requires ValidEnv(env)
    ensures r.Some? <==> GoodOutputs(env, t) && OutSum(t) < U64
    ensures r.Some? ==> r.value == OutSum(t)
  {
    var sum: u64 := 0;
    var stakes := 0;
    var k := 0;
    while k < |t.outputs|
      invariant k <= |t.outputs|
      invariant forall i | 0 <= i < k :: GoodOutput(env, t.kind, t.outputs[i])
      invariant sum == SeqSum(t.outputs[..k], OutAmount)
      invariant stakes == StakeOutputs(t.outputs[..k])
    {
      OutputStep(t.outputs, k);
      PrefixSum(t.outputs, k + 1, OutAmount);
      if t.outputs[k].amount == 0 { return None; }
      if t.kind == STAKE && Address(t.outputs[k].node) == BLACK_HOLE && t.outputs[k].amount % env.cfg.stakeUnit != 0 { return None; }
      if t.outputs[k].node != [] { stakes := stakes + 1; }
      var next := Add64(t.outputs[k].amount, sum);
      if next.1 { return None; }
      sum := next.0;
      k := k + 1;
    }
    assert t.outputs[..k] == t.outputs;
    return if t.kind == STAKE && stakes == 0 then None else Some(sum);
  }

  /** validateTxStructBase accepts exactly the well-shaped transactions whose true sums balance. */
  method ValidateTxStructBase(env: Env, t: Transaction) returns (ok: bool)
    requires ValidEnv(env)
    ensures ok <==> StructBaseOk(env, t)
  {
    ok := CheckShape(env, t);
    if !ok { return false; }
    var ins := AddInputs(env, t);
    if ins.None? { return false; }
    var outs := AddOutputs(env, t);
    if outs.None? { return false; }
    var spent := Add64(outs.value, RealFee(t));
    if spent.1 { return false; }
    return ins.value == spent.0;
  }

  // ----- validateTransaction for standard kinds

  function Sender(t: Transaction): bytes
  {
    if t.inputs == [] then [] else t.inputs[0].address
  }

  ghost predicate StandardStructOk(env: Env, t: Transaction)
    requires ValidEnv(env)
  {
    && IsStandard(t.kind)
    && t.fee >= env.cfg.minFee
    && env.hashOf(t) == t.hash
    && (forall i | 0 <= i < |t.inputs| :: t.inputs[i].address == Sender(t))
    && StructBaseOk(env, t)
  }

  ghost function Spendable(env: Env, t: Transaction): UtxoSet
  {
    if t.kind == UNSTAKE then Deposits(env.utxo, Sender(t)) else OwnedBy(env.utxo, Sender(t))
  }

  /** GetTransactionsCount plus one, in 64-bit arithmetic. */
  ghost function NextNonce(env: Env, from: bytes): u64
  {
    var count: int := if from in env.nonces then env.nonces[from] else 0;
    Wrap(count + 1)
  }

  ghost predicate TxInputsOk(env: Env, t: Transaction)
  {
    && t.num != 0
    && t.num == NextNonce(env, Sender(t))
    && Spendable(env, t) != map[]
    && Wrap(Total(Spendable(env, t))) != 0
    && InputsMatch(Spendable(env, t), t.inputs)
  }

  function InNodes(ins: seq<TxInput>): (r: seq<bytes>)
    ensures |r| == |ins| && forall i | 0 <= i < |ins| :: r[i] == Address(ins[i].node)
  {
    seq(|ins|, i requires 0 <= i < |ins| => Address(ins[i].node))
  }

  function OutNodes(outs: seq<TxOutput>): (r: seq<bytes>)
    ensures |r| == |outs| && forall i | 0 <= i < |outs| :: r[i] == Address(outs[i].node)
  {
    seq(|outs|, i requires 0 <= i < |outs| => Address(outs[i].node))
  }

  /** Once an unstaking input names a node, all later ones must name the same. */
  ghost predicate OneNode(ns: seq<bytes>)
  {
    forall i, j | 0 <= i < j < |ns| :: ns[i] != [] ==> ns[j] == ns[i]
  }

  ghost predicate WholeSlots(unit: u64, outs: seq<TxOutput>)
    requires unit > 0
  {
    forall i | 0 <= i < |outs| :: IsValidatorStake(outs[i]) ==> outs[i].amount % unit == 0
  }

  ghost predicate UnstakeOk(env: Env, t: Transaction)
    requires ValidEnv(env)
  {
    OneNode(InNodes(t.inputs)) && WholeSlots(env.cfg.stakeUnit, t.outputs)
  }

  ghost function NumberStakers(env: Env, validator: bytes): nat
  {
    if validator in env.electors then env.electors[validator] else 0
  }

  ghost predicate IsValidatorStake(o: TxOutput)
  {
    Address(o.node) == BLACK_HOLE
  }

  /** All stake outputs go to one node: the black hole, or a known validator that can take more electors. */
  ghost predicate StakeNodesOk(electors: map<bytes, nat>, ns: seq<bytes>)
  {
    && (forall i | 0 <= i < |ns| && ns[i] != [] && ns[i] != BLACK_HOLE :: ns[i] in electors)
    && (forall i, j | 0 <= i < |ns| && 0 <= j < |ns| && ns[i] != [] && ns[j] != [] :: ns[i] == ns[j])
  }

  ghost predicate StakeTypeOk(env: Env, t: Transaction)
  {
    var ns := OutNodes(t.outputs);
    && StakeNodesOk(env.electors, ns)
    && (forall i | 0 <= i < |ns| :: NumberStakers(env, ns[i]) < env.cfg.maxStakers)
    && (BLACK_HOLE in ns ==> env.slotsOpen)
  }

  ghost predicate StandardOk(env: Env, t: Transaction)
    requires ValidEnv(env)
  {
    && StandardStructOk(env, t)
    && (t.kind == UNSTAKE ==> UnstakeOk(env, t))
    && (t.kind == STAKE ==> StakeTypeOk(env, t))
    && TxInputsOk(env, t)
  }

  method ValidateTransactionStruct(env: Env, t: Transaction) returns (ok: bool)
    requires ValidEnv(env)
    ensures ok <==> StandardStructOk(env, t)
  {
    if t.kind != NORMAL && t.kind != STAKE && t.kind != UNSTAKE { return false; }
    if t.fee < env.cfg.minFee { return false; }
    if env.hashOf(t) != t.hash { return false; }
    var k := 0;
    while k < |t.inputs|
      invariant k <= |t.inputs|
      invariant forall i | 0 <= i < k :: t.inputs[i].address == Sender(t)
    {
      if t.inputs[k].address != Sender(t) { return false; }
      k := k + 1;
    }
    ok := ValidateTxStructBase(env, t);
  }

  method SumBalance(m: UtxoSet) returns (balance: u64)
    ensures balance == Wrap(Total(m))
  {
    balance := 0;
    var todo := m;
    while todo != map[]
      invariant Wrap(balance + Total(todo)) == Wrap(Total(m))
      decreases |todo|
    {
      var k :| k in todo;
      MapSumRemove(todo, k, Amount);
      WrapAdd(balance + todo[k].amount, Total(todo - {k}));
      assert (todo - {k}).Keys == todo.Keys - {k};
      balance := Wrap(balance + todo[k].amount);
      todo := todo - {k};
    }
  }

  /** validateTxInputs: nonce, a non-empty purse, and inputs taken from it. */
  method ValidateTxInputs(env: Env, t: Transaction) returns (ok: bool)
    ensures ok <==> TxInputsOk(env, t)
  {
    if t.num == 0 { return false; }
    var from := Sender(t);
    var count: int := 0;
    if from in env.nonces { count := env.nonces[from]; }
    if t.num != Wrap(count + 1) { return false; }
    var known: UtxoSet;
    if t.kind == UNSTAKE {
      known := Deposits(env.utxo, from);
    } else {
      known := OwnedBy(env.utxo, from);
    }
    if |known| == 0 {
      assert known == map[];
      return false;
    }
    var balance := SumBalance(known);
    if balance == 0 { return false; }
    ok := CheckInputsData(known, t.inputs);
  }

  method CheckOneNode(ns: seq<bytes>) returns (ok: bool)
    ensures ok <==> OneNode(ns)
  {
    var node: bytes := [];
    var k := 0;
    while k < |ns|
      invariant k <= |ns|
      invariant forall i | 0 <= i < k :: ns[i] != [] ==> node == ns[i]
      invariant node != [] ==> exists i | 0 <= i < k :: ns[i] == node
      invariant forall i, j | 0 <= i < j < k :: ns[i] != [] ==> ns[j] == ns[i]
    {
      if node == [] {
        node := ns[k];
      } else if node != ns[k] {
        return false;
      }
      k := k + 1;
    }
    return true;
  }

  method ValidateUnstakeTx(env: Env, t: Transaction) returns (ok: bool)
    requires ValidEnv(env)
    ensures ok <==> UnstakeOk(env, t)
  {
    ok := CheckOneNode(InNodes(t.inputs));
    if !ok { return false; }
    var k := 0;
    while k < |t.outputs|
      invariant k <= |t.outputs|
      invariant forall i | 0 <= i < k :: IsValidatorStake(t.outputs[i]) ==> t.outputs[i].amount % env.cfg.stakeUnit == 0
    {
      if Address(t.outputs[k].node) == BLACK_HOLE && t.outputs[k].amount % env.cfg.stakeUnit != 0 { return false; }
      k := k + 1;
    }
    return true;
  }

  method CheckStakeNodes(electors: map<bytes, nat>, ns: seq<bytes>) returns (ok: bool, hasValidatorStaking: bool)
    ensures ok <==> StakeNodesOk(electors, ns)
    ensures ok ==> (hasValidatorStaking <==> BLACK_HOLE in ns)
  {
    hasValidatorStaking := false;
    var validator: bytes := [];
    var k := 0;
    while k < |ns|
      invariant k <= |ns|
      invariant hasValidatorStaking <==> BLACK_HOLE in ns[..k]
      invariant forall i | 0 <= i < k && ns[i] != [] && ns[i] != BLACK_HOLE :: ns[i] in electors && ns[i] == validator
      invariant validator != [] ==> validator in ns[..k] && validator != BLACK_HOLE
    {
      if ns[k] != [] {
        if ns[k] == BLACK_HOLE {
          hasValidatorStaking := true;
        } else {
          if ns[k] !in electors { return false, false; }
          if validator == [] {
            validator := ns[k];
          } else if validator != ns[k] {
            return false, false;
          }
        }
      }
      k := k + 1;
    }
    assert ns[..k] == ns;
    return !hasValidatorStaking || validator == [], hasValidatorStaking;
  }

  /** checkStakeType followed by the slot check of ValidateTransaction. */
  method CheckStakeType(env: Env, t: Transaction) returns (ok: bool)
    ensures ok <==> StakeTypeOk(env, t)
  {
    var ns := OutNodes(t.outputs);
    var hasValidatorStaking: bool;
    ok, hasValidatorStaking := CheckStakeNodes(env.electors, ns);
    if !ok { return false; }
    var k := 0;
    while k < |ns|
      invariant k <= |ns|
      invariant forall i | 0 <= i < k :: NumberStakers(env, ns[i]) < env.cfg.maxStakers
    {
      var stakers := 0;
      if ns[k] in env.electors { stakers := env.electors[ns[k]]; }
      if stakers >= env.cfg.maxStakers { return false; }
      k := k + 1;
    }
    return hasValidatorStaking ==> env.slotsOpen;
  }

  /** ValidateTransactionStruct and ValidateTransaction on one standard transaction. */
  method ValidateStandard(env: Env, t: Transaction) returns (ok: bool)
    requires ValidEnv(env)
    ensures ok <==> StandardOk(env, t)
  {
    ok := ValidateTransactionStruct(env, t);
    if !ok { return false; }
    if t.kind == UNSTAKE {
      ok := ValidateUnstakeTx(env, t);
      if !ok { return false; }
    } else if t.kind == STAKE {
      ok := CheckStakeType(env, t);
      if !ok { return false; }
    }
    ok := ValidateTxInputs(env, t);
  }

  // ----- system transactions

  ghost predicate FeeTxOk(num: u64, ts: seq<Transaction>, t: Transaction)
  {
    && t.kind == FEE
    && |t.outputs| == 1
    && t.num == num
    && t.outputs[0].amount == Wrap(SeqSum(ts, FeeOf))
  }

  lemma FeeStep(ts: seq<Transaction>, k: nat)
    requires k < |ts|
    ensures Wrap(Wrap(SeqSum(ts[..k], FeeOf)) + FeeOf(ts[k])) == Wrap(SeqSum(ts[..k + 1], FeeOf))
  {
    SeqSumPush(ts[..k], ts[k], FeeOf);
    assert ts[..k] + [ts[k]] == ts[..k + 1];
    WrapAdd(SeqSum(ts[..k], FeeOf), FeeOf(ts[k]));
  }

  /** validateFeeTx: the amount is compared with an unchecked 64-bit sum of all fees of the block. */
  method ValidateFeeTx(num: u64, ts: seq<Transaction>, t: Transaction) returns (ok: bool)
    ensures ok <==> FeeTxOk(num, ts, t)
  {
    if t.kind != FEE { return false; }
    if |t.outputs| != 1 { return false; }
    if t.num != num { return false; }
    var amount: u64 := 0;
    var k := 0;
    while k < |ts|
      invariant k <= |ts|
      invariant amount == Wrap(SeqSum(ts[..k], FeeOf))
    {
      FeeStep(ts, k);
      amount := Wrap(amount + RealFee(ts[k]));
      k := k + 1;
    }
    assert ts[..k] == ts;
    return amount == t.outputs[0].amount;
  }

  ghost predicate RewardTxOk(env: Env, num: u64, t: Transaction)
  {
    && t.num == num
    && (forall i, j | 0 <= i < j < |t.outputs| :: t.outputs[i].address != t.outputs[j].address)
    && (forall i | 0 <= i < |t.outputs| ::
         t.outputs[i].amount == if t.outputs[i].address in env.rewards then env.rewards[t.outputs[i].address] else 0)
  }

  method ValidateRewardTx(env: Env, num: u64, t: Transaction, record: set<bytes>) returns (ok: bool, paid: set<bytes>)
    ensures ok <==> RewardTxOk(env, num, t)
    ensures ok ==> paid == record + Recipients(t)
  {
    paid := record;
    if t.num != num { return false, paid; }
    var processed: set<bytes> := {};
    var k := 0;
    while k < |t.outputs|
      invariant k <= |t.outputs|
      invariant forall i | 0 <= i < k :: t.outputs[i].address in processed
      invariant forall a | a in processed :: exists i | 0 <= i < k :: t.outputs[i].address == a
      invariant forall i, j | 0 <= i < j < k :: t.outputs[i].address != t.outputs[j].address
      invariant forall i | 0 <= i < k ::
         t.outputs[i].amount == if t.outputs[i].address in env.rewards then env.rewards[t.outputs[i].address] else 0
      invariant paid == record + processed
    {
      var staker := t.outputs[k].address;
      if staker in processed { return false, paid; }
      var expected := if staker in env.rewards then env.rewards[staker] else 0;
      if expected != t.outputs[k].amount { return false, paid; }
      processed := processed + {staker};
      paid := paid + {staker};
      k := k + 1;
    }
    assert processed == Recipients(t);
    return true, paid;
  }

  ghost function Recipients(t: Transaction): set<bytes>
  {
    set i | 0 <= i < |t.outputs| :: t.outputs[i].address
  }

  ghost predicate SystemUnstakeOk(env: Env, num: u64, t: Transaction)
    requires ValidEnv(env)
  {
    && t.kind == SYSTEM_UNSTAKE
    && t.num == num
    && StructBaseOk(env, t)
    && InSum(t) == t.outputs[0].amount
    && InputsMatch(Deposits(env.utxo, t.outputs[0].address), t.inputs)
  }

  method ValidateSystemUnstakeTx(env: Env, num: u64, t: Transaction) returns (ok: bool)
    requires ValidEnv(env) && t.kind == SYSTEM_UNSTAKE
    ensures ok <==> SystemUnstakeOk(env, num, t)
  {
    if t.num != num { return false; }
    ok := ValidateTxStructBase(env, t);
    if !ok { return false; }
    var sum := AddInputs(env, t);
    if sum.None? || sum.value != t.outputs[0].amount { return false; }
    ok := CheckInputsData(Deposits(env.utxo, t.outputs[0].address), t.inputs);
  }

  // ----- collapse transactions

  function Owners(ins: seq<TxInput>): set<bytes>
  {
    set i | 0 <= i < |ins| :: ins[i].address
  }

  function LastOwner(ins: seq<TxInput>): bytes
    requires ins != []
  {
    ins[|ins| - 1].address
  }

  /** The outputs named by the inputs that claim the last owner. */
  function LastKeys(ins: seq<TxInput>): set<OutKey>
    requires ins != []
  {
    set i | 0 <= i < |ins| && ins[i].address == LastOwner(ins) :: Key(ins[i])
  }

  function ClaimWeight(a: bytes): (r: TxInput -> nat)
    ensures forall i: TxInput :: r(i) == if i.address == a then i.amount else 0
  {
    (i: TxInput) => if i.address == a then i.amount else 0
  }

  /** What the inputs claim to take from an address. */
  ghost function Claimed(ins: seq<TxInput>, a: bytes): nat
  {
    SeqSum(ins, ClaimWeight(a))
  }

  /** All plain coins of the claimed owners, except coins of the last owner that are not among the inputs. */
  function CollapseKnown(m: UtxoSet, ins: seq<TxInput>): (r: UtxoSet)
    requires ins != []
    ensures forall k | k in r :: k in m && r[k] == m[k]
  {
    map k | k in m && m[k].node == [] && m[k].to in Owners(ins)
            && (m[k].to == LastOwner(ins) ==> k in LastKeys(ins)) :: m[k]
  }

  ghost predicate OneOutputEach(t: Transaction)
  {
    && (forall i | 0 <= i < |t.outputs| ::
         t.outputs[i].address in Owners(t.inputs) && t.outputs[i].amount == Claimed(t.inputs, t.outputs[i].address))
    && (forall i, j | 0 <= i < j < |t.outputs| :: t.outputs[i].address != t.outputs[j].address)
  }

  ghost predicate CollapseOk(env: Env, num: u64, t: Transaction)
    requires ValidEnv(env)
  {
    && t.num == num
    && StructBaseOk(env, t)
    && OneOutputEach(t)
    && InputsMatch(CollapseKnown(env.utxo, t.inputs), t.inputs)
    && (forall k | k in CollapseKnown(env.utxo, t.inputs) :: k in Keys(t.inputs))
  }

  /** The first loop: balances by claimed address, with a checked addition. */
  method CollectBalances(ins: seq<TxInput>) returns (r: Option<map<bytes, u64>>)
    requires SeqSum(ins, InAmount) < U64
    ensures r.Some? && r.value.Keys == Owners(ins)
    ensures forall a | a in r.value :: r.value[a] == Claimed(ins, a)
  {
    var balances: map<bytes, u64> := map[];
    var k := 0;
    while k < |ins|
      invariant k <= |ins|
      invariant balances.Keys == Owners(ins[..k])
      invariant forall a | a in balances :: balances[a] == Claimed(ins[..k], a)
    {
      ghost var before := balances;
      var a := ins[k].address;
      assert ins[..k] + [ins[k]] == ins[..k + 1];
      OwnersPush(ins[..k], ins[k]);
      if a in balances {
        var next := Add64(balances[a], ins[k].amount);
        if next.1 {
          ClaimedBound(ins, k, a);
          assert false;
        }
        balances := balances[a := next.0];
      } else {
        NotClaimed(ins[..k], a);
        balances := balances[a := ins[k].amount];
      }
      forall b | b in balances ensures balances[b] == Claimed(ins[..k + 1], b) {
        SeqSumPush(ins[..k], ins[k], ClaimWeight(b));
      }
      k := k + 1;
    }
    assert ins[..k] == ins;
    return Some(balances);
  }

  lemma OwnersPush(ins: seq<TxInput>, i: TxInput)
    ensures Owners(ins + [i]) == Owners(ins) + {i.address}
  {
    forall j | 0 <= j < |ins| + 1 ensures (ins + [i])[j].address in Owners(ins) + {i.address} { }
    forall j | 0 <= j < |ins| ensures ins[j].address in Owners(ins + [i]) {
      assert (ins + [i])[j] == ins[j];
    }
    assert (ins + [i])[|ins|] == i;
  }

  lemma ClaimedBound(ins: seq<TxInput>, k: nat, a: bytes)
    requires k < |ins| && ins[k].address == a
    ensures Claimed(ins[..k], a) + ins[k].amount <= SeqSum(ins, InAmount)
  {
    ClaimedStep(ins, k, a);
    SeqSumLe(ins[..k + 1], ClaimWeight(a), InAmount);
    PrefixSum(ins, k + 1, InAmount);
  }

  lemma ClaimedStep(ins: seq<TxInput>, k: nat, a: bytes)
    requires k < |ins| && ins[k].address == a
    ensures Claimed(ins[..k + 1], a) == Claimed(ins[..k], a) + ins[k].amount
  {
    assert ins[..k] + [ins[k]] == ins[..k + 1];
    SeqSumPush(ins[..k], ins[k], ClaimWeight(a));
  }

  lemma {:induction false} NotClaimed(ins: seq<TxInput>, a: bytes)
    requires a !in Owners(ins)
    ensures Claimed(ins, a) == 0
  {
    if ins != [] {
      var init, last := ins[..|ins| - 1], ins[|ins| - 1];
      assert ins == init + [last];
      OwnersPush(init, last);
      NotClaimed(init, a);
    }
  }

  /** The second loop: one output for each address, with the sum claimed from it. */
  method CheckCollapseOutputs(t: Transaction, balances: map<bytes, u64>) returns (ok: bool)
    requires balances.Keys == Owners(t.inputs)
    requires forall a | a in balances :: balances[a] == Claimed(t.inputs, a)
    ensures ok <==> OneOutputEach(t)
  {
    var read: set<bytes> := {};
    var k := 0;
    while k < |t.outputs|
      invariant k <= |t.outputs|
      invariant forall i | 0 <= i < k ::
        t.outputs[i].address in Owners(t.inputs) && t.outputs[i].amount == Claimed(t.inputs, t.outputs[i].address)
      invariant forall i | 0 <= i < k :: t.outputs[i].address in read
      invariant forall a | a in read :: exists i | 0 <= i < k :: t.outputs[i].address == a
      invariant forall i, j | 0 <= i < j < k :: t.outputs[i].address != t.outputs[j].address
    {
      var a := t.outputs[k].address;
      if a !in balances {
        assert a !in Owners(t.inputs);
        return false;
      }
      if balances[a] != t.outputs[k].amount { return false; }
      if a in read { return false; }
      read := read + {a};
      k := k + 1;
    }
    return true;
  }

  /** The third part: the union, owner by owner, of what the database lists for each. */
  method CollectSpendable(m: UtxoSet, ins: seq<TxInput>, owners: set<bytes>) returns (known: UtxoSet)
    requires ins != [] && owners == Owners(ins)
    ensures known == CollapseKnown(m, ins)
  {
    var last := ins[|ins| - 1].address;
    var lastKeys := set i | 0 <= i < |ins| && ins[i].address == last :: OutKey(ins[i].hash, ins[i].index);
    known := map[];
    var todo := owners;
    while todo != {}
      invariant todo <= owners
      invariant known == map k | k in m && m[k].node == [] && m[k].to in owners - todo && (m[k].to == last ==> k in lastKeys) :: m[k]
      decreases todo
    {
      var a :| a in todo;
      var listed := OwnedBy(m, a);
      known := known + (map k | k in listed && (a == last ==> k in lastKeys) :: listed[k]);
      todo := todo - {a};
    }
  }

  /** validateCollapseTx. */
  method ValidateCollapseTx(env: Env, num: u64, t: Transaction) returns (ok: bool)
    requires ValidEnv(env)
    ensures ok <==> CollapseOk(env, num, t)
  {
    if t.num != num { return false; }
    ok := ValidateTxStructBase(env, t);
    if !ok { return false; }
    var balances := CollectBalances(t.inputs);
    if balances.None? { return false; }
    ok := CheckCollapseOutputs(t, balances.value);
    if !ok { return false; }
    var known := CollectSpendable(env.utxo, t.inputs, balances.value.Keys);
    ok := CheckInputsData(known, t.inputs);
    if !ok { return false; }
    ok := known.Keys <= set i | 0 <= i < |t.inputs| :: Key(t.inputs[i]);
    KeysByIndex(t.inputs);
  }

  lemma KeysByIndex(ins: seq<TxInput>)
    ensures Keys(ins) == set i | 0 <= i < |ins| :: Key(ins[i])
  {
    forall i | i in ins ensures Key(i) in (set j | 0 <= j < |ins| :: Key(ins[j])) {
      var j :| 0 <= j < |ins| && ins[j] == i;
    }
  }
}
