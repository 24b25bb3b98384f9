/**
 When the unchecked 64-bit sums are the true sums, and what then follows: the fee transaction is unique and
 carries exactly the fees paid, and the supply equation holds over the integers for whole runs from genesis.
 */
module Exactness {
  import opened Words
  import opened Sums
  import opened Proto
  import opened Ledger
  import opened Validator
  import opened BlockValidator
  import opened Conservation

  /** The fee an input-bearing transaction pays. */
  function PaidFee(t: Transaction): nat { if HasInputs(t.kind) then RealFee(t) else 0 }

  /** A fee price put on a transaction that has nothing to pay with. */
  function IdleFee(t: Transaction): nat { if HasInputs(t.kind) then 0 else RealFee(t) }

  ghost function KeptOut(t: Transaction): nat { if HasInputs(t.kind) then OutSum(t) else 0 }

  function CountFee(t: Transaction): nat { if t.kind == FEE then 1 else 0 }

  /** The shape every block has after genesis: only input-bearing kinds have inputs, and no genesis-type transaction. */
  ghost predicate Ordinary(ts: seq<Transaction>)
  {
    && NoLooseInputs(ts)
    && forall i | 0 <= i < |ts| :: ts[i].kind != GENESIS
  }

  lemma TxSums(env: Env, num: u64, ts: seq<Transaction>, t: Transaction)
    requires ValidEnv(env) && TxOk(env, num, ts, t) && t.kind != GENESIS
    ensures SpentBy(t) == KeptOut(t) + PaidFee(t)
    ensures BalanceOut(t) == KeptOut(t) + FeeOut(t)
    ensures t.kind == FEE ==> FeeTxOk(num, ts, t)
  {
    if HasInputs(t.kind) {
      TxInputsExist(env, num, ts, t);
    }
  }

  lemma AcceptedSums(env: Env, num: u64, ts: seq<Transaction>)
    requires ValidEnv(env) && Accepted(env, num, ts) && Ordinary(ts)
    ensures SeqSum(ts, SpentBy) == SeqSum(ts, KeptOut) + SeqSum(ts, PaidFee)
    ensures SeqSum(ts, BalanceOut) == SeqSum(ts, KeptOut) + SeqSum(ts, FeeOut)
    ensures SeqSum(ts, BalanceIn) == SeqSum(ts, SpentBy)
    ensures forall i | 0 <= i < |ts| && ts[i].kind == FEE :: FeeTxOk(num, ts, ts[i])
  {
    forall i | 0 <= i < |ts|
      ensures SpentBy(ts[i]) == KeptOut(ts[i]) + PaidFee(ts[i])
      ensures BalanceOut(ts[i]) == KeptOut(ts[i]) + FeeOut(ts[i])
      ensures ts[i].kind == FEE ==> FeeTxOk(num, ts, ts[i])
    {
      TxSums(env, num, ts, ts[i]);
    }
    SeqSumAdd(ts, KeptOut, PaidFee, SpentBy);
    SeqSumAdd(ts, KeptOut, FeeOut, BalanceOut);
    NoLooseSum(ts);
    BlockSums(ts);
  }

  lemma WrappedGap(spent: nat, kept: nat, paid: nat, burnt: nat)
    requires spent == kept + paid < U64
    requires Wrap(spent) == Wrap(kept + burnt)
    ensures spent == kept + burnt <==> burnt < U64
    ensures burnt < U64 ==> burnt == paid
  {
    WrapDiff(spent, kept + burnt);
    assert Wrap(paid - burnt) == 0;
  }

  /** The sums of a block, related as acceptance relates them. */
  ghost predicate Related(m: UtxoSet, ts: seq<Transaction>)
  {
    && SeqSum(ts, SpentBy) == SeqSum(ts, KeptOut) + SeqSum(ts, PaidFee)
    && SeqSum(ts, BalanceOut) == SeqSum(ts, KeptOut) + SeqSum(ts, FeeOut)
    && SeqSum(ts, BalanceIn) == SeqSum(ts, SpentBy) <= Total(m)
    && Wrap(SeqSum(ts, BalanceIn)) == Wrap(SeqSum(ts, BalanceOut))
  }

  lemma AcceptedRelated(env: Env, num: u64, ts: seq<Transaction>)
    requires ValidEnv(env) && Accepted(env, num, ts) && Ordinary(ts)
    ensures Related(env.utxo, ts)
  {
    AcceptedSums(env, num, ts);
    AcceptedSpends(env, num, ts);
  }

  lemma RelatedExact(m: UtxoSet, ts: seq<Transaction>)
    requires Related(m, ts) && Total(m) < U64
    ensures SeqSum(ts, BalanceIn) < U64
    ensures SeqSum(ts, BalanceIn) == SeqSum(ts, BalanceOut) <==> SeqSum(ts, FeeOut) < U64
    ensures SeqSum(ts, FeeOut) < U64 ==> SeqSum(ts, FeeOut) == SeqSum(ts, PaidFee)
  {
    WrappedGap(SeqSum(ts, SpentBy), SeqSum(ts, KeptOut), SeqSum(ts, PaidFee), SeqSum(ts, FeeOut));
  }

  /**
   The input sum of checkBlockBalance never wraps, since distinct existing inputs are worth at most the supply.
   Its two sums agree as integers exactly when the fee outputs together fit a word; those then burn exactly the fees paid.
   */
  lemma SumsAreExact(env: Env, num: u64, ts: seq<Transaction>)
    requires ValidEnv(env) && Accepted(env, num, ts) && Ordinary(ts) && Total(env.utxo) < U64
    ensures SeqSum(ts, BalanceIn) < U64
    ensures SeqSum(ts, BalanceIn) == SeqSum(ts, BalanceOut) <==> SeqSum(ts, FeeOut) < U64
    ensures SeqSum(ts, FeeOut) < U64 ==> SeqSum(ts, FeeOut) == SeqSum(ts, PaidFee)
  {
    AcceptedRelated(env, num, ts);
    RelatedExact(env.utxo, ts);
  }

  // ----- the fee transaction

  lemma {:induction false} FeeOutputsEqual(ts: seq<Transaction>, amount: nat)
    requires forall i | 0 <= i < |ts| && ts[i].kind == FEE :: OutSum(ts[i]) == amount
    ensures SeqSum(ts, FeeOut) == Times(SeqSum(ts, CountFee), amount)
  {
    if ts != [] {
      FeeOutputsEqual(ts[..|ts| - 1], amount);
    }
  }

  lemma OneOutput(t: Transaction)
    requires |t.outputs| == 1
    ensures OutSum(t) == t.outputs[0].amount
  {
    assert t.outputs[..0] == [];
    assert SeqSum(t.outputs, OutAmount) == SeqSum(t.outputs[..0], OutAmount) + OutAmount(t.outputs[0]);
  }

  lemma OnlyOneFits(count: nat, paid: nat, idle: nat)
    requires Times(count, paid + idle) == paid && paid > 0
    ensures count == 1 && idle == 0
  {
    TimesTwice(count, paid + idle);
  }

  /**
   If any transaction of an accepted block pays a fee and the fee sums do not wrap, there is exactly one fee
   transaction, it burns exactly the fees paid, and no reward or fee transaction carries a fee price of its own.
   */
  lemma FeeTransactionUnique(env: Env, num: u64, ts: seq<Transaction>)
    requires ValidEnv(env) && Accepted(env, num, ts) && Ordinary(ts) && Total(env.utxo) < U64
    requires SeqSum(ts, FeeOut) < U64 && SeqSum(ts, FeeOf) < U64
    requires SeqSum(ts, PaidFee) > 0
    ensures SeqSum(ts, CountFee) == 1
    ensures SeqSum(ts, FeeOut) == SeqSum(ts, PaidFee)
    ensures forall i | 0 <= i < |ts| && !HasInputs(ts[i].kind) :: RealFee(ts[i]) == 0
  {
    SumsAreExact(env, num, ts);
    FeeAmounts(env, num, ts);
    FeeParts(ts);
    UniqueFee(ts, FeeOf, PaidFee, IdleFee);
    NoIdleFees(ts);
  }

  lemma FeeAmounts(env: Env, num: u64, ts: seq<Transaction>)
    requires ValidEnv(env) && Accepted(env, num, ts) && Ordinary(ts) && SeqSum(ts, FeeOf) < U64
    ensures forall i | 0 <= i < |ts| && ts[i].kind == FEE :: OutSum(ts[i]) == SeqSum(ts, FeeOf)
  {
    AcceptedSums(env, num, ts);
    SmallWrap(SeqSum(ts, FeeOf));
    forall i | 0 <= i < |ts| && ts[i].kind == FEE ensures OutSum(ts[i]) == SeqSum(ts, FeeOf) {
      assert FeeTxOk(num, ts, ts[i]);
      OneOutput(ts[i]);
    }
  }

  /** The counting argument, for any way to split the fee of a transaction. */
  lemma UniqueFee(ts: seq<Transaction>, fee: Transaction -> nat, paid: Transaction -> nat, idle: Transaction -> nat)
    requires SeqSum(ts, fee) == SeqSum(ts, paid) + SeqSum(ts, idle)
    requires SeqSum(ts, FeeOut) == SeqSum(ts, paid) > 0
    requires forall i | 0 <= i < |ts| && ts[i].kind == FEE :: OutSum(ts[i]) == SeqSum(ts, fee)
    ensures SeqSum(ts, CountFee) == 1 && SeqSum(ts, idle) == 0
  {
    FeeOutputsEqual(ts, SeqSum(ts, fee));
    OnlyOneFits(SeqSum(ts, CountFee), SeqSum(ts, paid), SeqSum(ts, idle));
  }

  lemma FeeParts(ts: seq<Transaction>)
    ensures SeqSum(ts, FeeOf) == SeqSum(ts, PaidFee) + SeqSum(ts, IdleFee)
  {
    SeqSumAdd(ts, PaidFee, IdleFee, FeeOf);
  }

  lemma NoIdleFees(ts: seq<Transaction>)
    requires SeqSum(ts, IdleFee) == 0
    ensures forall i | 0 <= i < |ts| && !HasInputs(ts[i].kind) :: RealFee(ts[i]) == 0
  {
    forall i | 0 <= i < |ts| && !HasInputs(ts[i].kind) ensures RealFee(ts[i]) == 0 {
      SeqSumMember(ts, i, IdleFee);
    }
  }

  // ----- exact supply over runs

  /** The supply equation over the integers. */
  ghost predicate SupplyExact(s: Supply)
  {
    s.genesis + s.rewards == Total(s.utxo) + s.fees
  }

  /** Even when fee outputs wrap, what they add to the 64-bit statistics is exactly the fees paid. */
  lemma BurntIsPaid(m: UtxoSet, ts: seq<Transaction>)
    requires Related(m, ts) && Total(m) < U64
    ensures Wrap(SeqSum(ts, FeeOut)) == SeqSum(ts, PaidFee)
  {
    var kept: int, paid: int, burnt: int := SeqSum(ts, KeptOut), SeqSum(ts, PaidFee), SeqSum(ts, FeeOut);
    WrapDiff(kept + paid, kept + burnt);
    WrapDiff(paid, burnt);
    assert (kept + paid) - (kept + burnt) == paid - burnt;
    SmallWrap(paid);
  }

  lemma StepExact(s: Supply, step: BlockStep, s': Supply)
    requires Next(s, step, s') && SupplyExact(s) && Ordinary(step.ts)
    requires s.genesis + s.rewards + SeqSum(step.ts, RewardOut) < U64
    ensures SupplyExact(s') && s'.genesis == s.genesis
    ensures s'.rewards == s.rewards + SeqSum(step.ts, RewardOut)
    ensures s'.fees == s.fees + SeqSum(step.ts, PaidFee)
  {
    AcceptedRelated(step.env, step.num, step.ts);
    BurntIsPaid(s.utxo, step.ts);
    AcceptedSound(step.env, step.num, step.ts);
    SoundTotal(s.utxo, step.ts);
    BlockSums(step.ts);
    ExactFinalize(s, step.ts, s', SeqSum(step.ts, RewardOut), SeqSum(step.ts, PaidFee));
  }

  lemma ExactFinalize(s: Supply, ts: seq<Transaction>, s': Supply, reward: nat, paid: nat)
    requires Finalize(s, ts) == Some(s') && reward == SeqSum(ts, RewardOut) && Wrap(SeqSum(ts, FeeOut)) == paid
    requires Total(s'.utxo) + paid == Total(s.utxo) + reward
    requires SupplyExact(s) && s.genesis + s.rewards + reward < U64
    ensures SupplyExact(s') && s'.genesis == s.genesis
    ensures s'.rewards == s.rewards + reward && s'.fees == s.fees + paid
  {
    GrownSmall(s, s'.utxo, reward, SeqSum(ts, FeeOut), paid);
  }

  lemma GrownSmall(s: Supply, rows: UtxoSet, reward: nat, burnt: nat, paid: nat)
    requires s.rewards + reward < U64 && Wrap(burnt) == paid && s.fees + paid < U64
    ensures Grown(s, rows, reward, burnt) == Supply(rows, s.genesis, s.rewards + reward, s.fees + paid)
  {
    SmallSum(s.rewards, reward);
    SmallWrap(s.fees + paid);
  }

  lemma SmallSum(a: nat, b: nat)
    requires a + b < U64
    ensures Wrap(a + Wrap(b)) == a + b
  {
    SmallWrap(b);
    SmallWrap(a + b);
  }

  ghost function RewardsUpTo(steps: seq<BlockStep>, k: nat): nat
    requires k <= |steps|
  {
    if k == 0 then 0 else RewardsUpTo(steps, k - 1) + SeqSum(steps[k - 1].ts, RewardOut)
  }

  ghost function FeesUpTo(steps: seq<BlockStep>, k: nat): nat
    requires k <= |steps|
  {
    if k == 0 then 0 else FeesUpTo(steps, k - 1) + SeqSum(steps[k - 1].ts, PaidFee)
  }

  lemma {:induction false} RewardsGrow(steps: seq<BlockStep>, k: nat, n: nat)
    requires k <= n <= |steps|
    ensures RewardsUpTo(steps, k) <= RewardsUpTo(steps, n)
    decreases n
  {
    if k < n {
      RewardsGrow(steps, k, n - 1);
    }
  }

  /** An exact step: the equation is kept and the statistics grow by the true amounts, as long as the supply fits. */
  ghost predicate ExactStep(s: Supply, reward: nat, fee: nat, s': Supply)
  {
    SupplyExact(s) && s.genesis + s.rewards + reward < U64 ==>
      SupplyExact(s') && s'.genesis == s.genesis && s'.rewards == s.rewards + reward && s'.fees == s.fees + fee
  }

  ghost predicate ExactSteps(states: seq<Supply>, steps: seq<BlockStep>)
  {
    && |states| == |steps| + 1
    && forall k | 0 <= k < |steps| ::
         ExactStep(states[k], SeqSum(steps[k].ts, RewardOut), SeqSum(steps[k].ts, PaidFee), states[k + 1])
  }

  lemma RunSteps(states: seq<Supply>, steps: seq<BlockStep>)
    requires Run(states, steps)
    requires forall j | 0 <= j < |steps| :: Ordinary(steps[j].ts)
    ensures ExactSteps(states, steps)
  {
    forall k | 0 <= k < |steps|
      ensures ExactStep(states[k], SeqSum(steps[k].ts, RewardOut), SeqSum(steps[k].ts, PaidFee), states[k + 1])
    {
      assert StepAt(states, steps, k);
      var reward := SeqSum(steps[k].ts, RewardOut);
      if SupplyExact(states[k]) && states[k].genesis + states[k].rewards + reward < U64 {
        StepExact(states[k], steps[k], states[k + 1]);
      }
    }
  }

  lemma {:induction false} ExactRun(states: seq<Supply>, steps: seq<BlockStep>, k: nat)
    requires ExactSteps(states, steps) && k <= |steps|
    requires SupplyExact(states[0]) && states[0].rewards == 0 && states[0].fees == 0
    requires states[0].genesis + RewardsUpTo(steps, |steps|) < U64
    ensures SupplyExact(states[k]) && states[k].genesis == states[0].genesis
    ensures states[k].rewards == RewardsUpTo(steps, k) && states[k].fees == FeesUpTo(steps, k)
  {
    if k > 0 {
      ExactRun(states, steps, k - 1);
      RewardsGrow(steps, k, |steps|);
    }
  }

  /**
   From genesis, over every run of ordinary blocks whose issued supply fits a word: unspent coins plus all fees paid
   equal the genesis supply plus all rewards, as integers, and the stored statistics are the true totals.
   */
  lemma RunIsExact(states: seq<Supply>, steps: seq<BlockStep>, k: nat)
    requires Run(states, steps) && k <= |steps|
    requires SupplyExact(states[0]) && states[0].rewards == 0 && states[0].fees == 0
    requires forall j | 0 <= j < |steps| :: Ordinary(steps[j].ts)
    requires states[0].genesis + RewardsUpTo(steps, |steps|) < U64
    ensures states[k].rewards == RewardsUpTo(steps, k)
    ensures states[k].fees == FeesUpTo(steps, k)
    ensures Total(states[k].utxo) + FeesUpTo(steps, k) == states[0].genesis + RewardsUpTo(steps, k)
  {
    RunSteps(states, steps);
    ExactRun(states, steps, k);
  }

  /** The state after inserting the genesis outputs into an empty store. */
  ghost function Genesis(ts: seq<Transaction>): (r: Option<Supply>)
  {
    var rows := InsertAll(map[], BlockEntries(ts));
    if rows.None? then None else Some(Supply(rows.value, Wrap(SeqSum(ts, AllOut)), 0, 0))
  }

  /** It satisfies the supply equation over the integers when the genesis amounts fit a word. */
  lemma GenesisExact(ts: seq<Transaction>)
    requires Genesis(ts).Some? && SeqSum(ts, AllOut) < U64
    requires forall i | 0 <= i < |ts| :: ts[i].kind == GENESIS
    ensures SupplyExact(Genesis(ts).value)
  {
    InsertAllSum(map[], BlockEntries(ts), Amount);
    BlockEntriesSum(ts);
    SmallWrap(SeqSum(ts, AllOut));
    SeqSumAdd(ts, CreatedBy, FeeOut, AllOut);
    NoFees(ts);
  }

  lemma {:induction false} NoFees(ts: seq<Transaction>)
    requires forall i | 0 <= i < |ts| :: ts[i].kind != FEE
    ensures SeqSum(ts, FeeOut) == 0
  {
    if ts != [] {
      NoFees(ts[..|ts| - 1]);
    }
  }

  // ----- a block whose two sums differ

  /** A fee transaction that claims 2^63 and puts 2^62 per byte on itself. */
  function HeavyFee(num: u64): Transaction
  {
    Transaction(num, FEE, 0, [], 0x4000_0000_0000_0000, [], [], [TxOutput(BLACK_HOLE, 0x8000_0000_0000_0000, [])], [], 0)
  }

  lemma HeavyFeeNumbers(num: u64)
    ensures TransactionSize(HeavyFee(num)) == 177
    ensures FeeOf(HeavyFee(num)) == 0x4000_0000_0000_0000 && OutSum(HeavyFee(num)) == 0x8000_0000_0000_0000
  {
    var t := HeavyFee(num);
    assert t.outputs[..0] == [];
    assert OutputsSize(t.outputs) == OutputsSize(t.outputs[..0]) + 36;
    assert 0x4000_0000_0000_0000 * 177 == 0x4000_0000_0000_0000 + 44 * U64;
    WrapShift(0x4000_0000_0000_0000, 44);
    SmallWrap(0x4000_0000_0000_0000);
    assert OutSum(t) == SeqSum(t.outputs[..0], OutAmount) + t.outputs[0].amount;
  }

  lemma TwoOf(t: Transaction, w: Transaction -> nat)
    ensures SeqSum([t, t], w) == w(t) + w(t)
  {
    assert [t, t][..1] == [t] && [t][..0] == [];
    assert SeqSum([t], w) == SeqSum([t][..0], w) + w(t);
  }

  /**
   An accepted ordinary block whose input and output sums differ as integers: two such fee transactions claim 2^64
   together, and nothing is spent. So the condition of SumsAreExact cannot be dropped.
   */
  lemma WrappedFeesAccepted(env: Env, num: u64)
    requires ValidEnv(env) && env.rewards == map[]
    ensures var ts := [HeavyFee(num), HeavyFee(num)];
      && Accepted(env, num, ts) && Ordinary(ts)
      && SeqSum(ts, BalanceIn) == 0 && SeqSum(ts, BalanceOut) == U64
  {
    var t := HeavyFee(num);
    var ts := [t, t];
    HeavyFeeNumbers(num);
    TwoOf(t, FeeOf);
    TwoOf(t, BalanceIn);
    TwoOf(t, BalanceOut);
    SmallWrap(0x8000_0000_0000_0000);
    SmallWrap(0);
    WrapShift(0, 1);
    assert ts[..1] == [t] && [t][..0] == [];
    assert BalanceInputs([t]) == BalanceInputs([t][..0]) + t.inputs == [];
    assert BalanceInputs(ts) == BalanceInputs(ts[..1]) + t.inputs == [];
    assert NonFeeSize([t]) == NonFeeSize([t][..0]);
    assert NonFeeSize(ts) == NonFeeSize(ts[..1]) == 0;
    assert RewardRecord([t]) == RewardRecord([t][..0]) + {} && RewardRecord(ts) == RewardRecord(ts[..1]) + {};
    assert FeeTxOk(num, ts, t);
  }
}
