/** checkBlockBalance, verifyTransactions and the size check of ValidateBlock. */
module BlockValidator {
  import opened Words
  import opened Sums
  import opened Proto
  import opened Ledger
  import opened Validator

  // ----- checkBlockBalance

  /** All inputs that checkBlockBalance looks at: those of every transaction that is no reward. */
  function BalanceInputs(ts: seq<Transaction>): seq<TxInput>
  {
    if ts == [] then [] else BalanceInputs(ts[..|ts| - 1]) + (if ts[|ts| - 1].kind == REWARD then [] else ts[|ts| - 1].inputs)
  }

  ghost predicate BalanceOk(ts: seq<Transaction>)
  {
    && Distinct(BalanceInputs(ts))
    && Wrap(SeqSum(ts, BalanceIn)) == Wrap(SeqSum(ts, BalanceOut))
  }

  lemma BalanceInputsStep(ts: seq<Transaction>, k: nat)
    requires k < |ts|
    ensures BalanceInputs(ts[..k + 1]) == BalanceInputs(ts[..k]) + (if ts[k].kind == REWARD then [] else ts[k].inputs)
    ensures Wrap(Wrap(SeqSum(ts[..k], BalanceIn)) + BalanceIn(ts[k])) == Wrap(SeqSum(ts[..k + 1], BalanceIn))
    ensures Wrap(Wrap(SeqSum(ts[..k], BalanceOut)) + BalanceOut(ts[k])) == Wrap(SeqSum(ts[..k + 1], BalanceOut))
  {
    assert ts[..k + 1][..k] == ts[..k];
    WrapAdd(SeqSum(ts[..k], BalanceIn), BalanceIn(ts[k]));
    WrapAdd(SeqSum(ts[..k], BalanceOut), BalanceOut(ts[k]));
  }

  /** The inner loop over one transaction's inputs. */
  method CheckInputs(ghost seen: seq<TxInput>, exists_: set<OutKey>, ins: seq<TxInput>, sum: u64)
      returns (ok: bool, keys: set<OutKey>, total: u64)
    requires Distinct(seen) && exists_ == Keys(seen)
    ensures ok <==> Distinct(seen + ins)
    ensures ok ==> keys == Keys(seen + ins) && total == Wrap(sum + SeqSum(ins, InAmount))
  {
    keys, total := exists_, sum;
    var k := 0;
    assert seen + ins[..0] == seen;
    while k < |ins|
      invariant k <= |ins|
      invariant Distinct(seen + ins[..k]) && keys == Keys(seen + ins[..k])
      invariant total == Wrap(sum + SeqSum(ins[..k], InAmount))
    {
      var key := Key(ins[k]);
      PushStep(seen, ins, k, sum);
      if key in keys {
        DistinctPrefix(seen + ins[..k + 1], ins[k + 1..]);
        assert seen + ins == (seen + ins[..k + 1]) + ins[k + 1..];
        return false, keys, total;
      }
      keys := keys + {key};
      total := Wrap(total + ins[k].amount);
      k := k + 1;
    }
    assert ins[..k] == ins;
    return true, keys, total;
  }

  lemma PushStep(seen: seq<TxInput>, ins: seq<TxInput>, k: nat, sum: u64)
    requires k < |ins| && Distinct(seen + ins[..k])
    ensures Distinct(seen + ins[..k + 1]) <==> Key(ins[k]) !in Keys(seen + ins[..k])
    ensures Keys(seen + ins[..k + 1]) == Keys(seen + ins[..k]) + {Key(ins[k])}
    ensures Wrap(Wrap(sum + SeqSum(ins[..k], InAmount)) + ins[k].amount) == Wrap(sum + SeqSum(ins[..k + 1], InAmount))
  {
    assert (seen + ins[..k]) + [ins[k]] == seen + ins[..k + 1];
    PushOne(seen + ins[..k], ins[k]);
    assert ins[..k] + [ins[k]] == ins[..k + 1];
    SeqSumPush(ins[..k], ins[k], InAmount);
    WrapAdd(sum + SeqSum(ins[..k], InAmount), ins[k].amount);
  }

  lemma SumStep(outs: seq<TxOutput>, sum: u64, k: nat)
    requires k < |outs|
    ensures Wrap(Wrap(sum + SeqSum(outs[..k], OutAmount)) + outs[k].amount) == Wrap(sum + SeqSum(outs[..k + 1], OutAmount))
  {
    OutputStep(outs, k);
    WrapAdd(sum + SeqSum(outs[..k], OutAmount), outs[k].amount);
  }

  method SumOutputs(outs: seq<TxOutput>, sum: u64) returns (total: u64)
    ensures total == Wrap(sum + SeqSum(outs, OutAmount))
  {
    total := sum;
    var k := 0;
    while k < |outs|
      invariant k <= |outs|
      invariant total == Wrap(sum + SeqSum(outs[..k], OutAmount))
    {
      SumStep(outs, sum, k);
      total := Wrap(total + outs[k].amount);
      k := k + 1;
    }
    assert outs[..k] == outs;
  }

  lemma DistinctBlockPrefix(ts: seq<Transaction>, k: nat)
    requires k <= |ts|
    ensures Distinct(BalanceInputs(ts)) ==> Distinct(BalanceInputs(ts[..k]))
    decreases |ts|
  {
    if k < |ts| {
      var init := ts[..|ts| - 1];
      assert init[..k] == ts[..k];
      DistinctBlockPrefix(init, k);
      DistinctPrefix(BalanceInputs(init), if ts[|ts| - 1].kind == REWARD then [] else ts[|ts| - 1].inputs);
    } else {
      assert ts[..k] == ts;
    }
  }

  lemma NothingMore(ins: seq<TxInput>)
    ensures ins + [] == ins
  {
  }

  /** The body of the outer loop, for transaction k. */
  method BalanceOne(ts: seq<Transaction>, k: nat, keys0: set<OutKey>, in0: u64, out0: u64)
      returns (ok: bool, keys: set<OutKey>, sumIn: u64, sumOut: u64)
    requires k < |ts| && Distinct(BalanceInputs(ts[..k])) && keys0 == Keys(BalanceInputs(ts[..k]))
    requires in0 == Wrap(SeqSum(ts[..k], BalanceIn)) && out0 == Wrap(SeqSum(ts[..k], BalanceOut))
    ensures ok <==> Distinct(BalanceInputs(ts[..k + 1]))
    ensures ok ==> keys == Keys(BalanceInputs(ts[..k + 1]))
    ensures ok ==> sumIn == Wrap(SeqSum(ts[..k + 1], BalanceIn)) && sumOut == Wrap(SeqSum(ts[..k + 1], BalanceOut))
  {
    ok, keys, sumIn, sumOut := true, keys0, in0, out0;
    if ts[k].kind != REWARD {
      ghost var seen := BalanceInputs(ts[..k]);
      ok, keys, sumIn := CheckInputs(seen, keys0, ts[k].inputs, in0);
      sumOut := SumOutputs(ts[k].outputs, out0);
    }
    BalanceInputsStep(ts, k);
    NothingMore(BalanceInputs(ts[..k]));
  }

  /** checkBlockBalance: no input twice in the block, and equal unchecked 64-bit sums. */
  method CheckBlockBalance(ts: seq<Transaction>) returns (ok: bool)
    ensures ok <==> BalanceOk(ts)
  {
    var keys: set<OutKey> := {};
    var sumIn: u64, sumOut: u64 := 0, 0;
    var k := 0;
    while k < |ts|
      invariant k <= |ts|
      invariant Distinct(BalanceInputs(ts[..k])) && keys == Keys(BalanceInputs(ts[..k]))
      invariant sumIn == Wrap(SeqSum(ts[..k], BalanceIn)) && sumOut == Wrap(SeqSum(ts[..k], BalanceOut))
    {
      ok, keys, sumIn, sumOut := BalanceOne(ts, k, keys, sumIn, sumOut);
      if !ok {
        DistinctBlockPrefix(ts, k + 1);
        return false;
      }
      k := k + 1;
    }
    assert ts[..k] == ts;
    return sumIn == sumOut;
  }

  // ----- verifyTransactions

  ghost predicate SystemOk(env: Env, num: u64, ts: seq<Transaction>, t: Transaction)
    requires ValidEnv(env)
  {
    if t.kind == COLLAPSE then CollapseOk(env, num, t)
    else if t.kind == FEE then FeeTxOk(num, ts, t)
    else if t.kind == REWARD then RewardTxOk(env, num, t)
    else if t.kind == SYSTEM_UNSTAKE then SystemUnstakeOk(env, num, t)
    else true
  }

  /** What a transaction must satisfy for verifyTransactions neither to fail nor to list it as failed. */
  ghost predicate TxOk(env: Env, num: u64, ts: seq<Transaction>, t: Transaction)
    requires ValidEnv(env)
  {
    if IsSystem(t.kind) then SystemOk(env, num, ts, t) else StandardOk(env, t)
  }

  ghost function RewardRecord(ts: seq<Transaction>): set<bytes>
  {
    if ts == [] then {}
    else RewardRecord(ts[..|ts| - 1]) + Paid(ts[|ts| - 1])
  }

  ghost function FailedOne(env: Env, t: Transaction): seq<Transaction>
    requires ValidEnv(env)
  {
    if !IsSystem(t.kind) && !StandardOk(env, t) then [t] else []
  }

  ghost function Failed(env: Env, ts: seq<Transaction>): seq<Transaction>
    requires ValidEnv(env)
  {
    if ts == [] then [] else Failed(env, ts[..|ts| - 1]) + FailedOne(env, ts[|ts| - 1])
  }

  ghost function Paid(t: Transaction): set<bytes>
  {
    if t.kind == REWARD then Recipients(t) else {}
  }

  ghost predicate SystemsOk(env: Env, num: u64, ts: seq<Transaction>)
    requires ValidEnv(env)
  {
    && (forall i | 0 <= i < |ts| && IsSystem(ts[i].kind) :: SystemOk(env, num, ts, ts[i]))
    && |RewardRecord(ts)| == |env.rewards|
  }

  ghost predicate SystemsUpTo(env: Env, num: u64, ts: seq<Transaction>, k: nat)
    requires ValidEnv(env) && k <= |ts|
  {
    k == 0 || (SystemsUpTo(env, num, ts, k - 1) && (IsSystem(ts[k - 1].kind) ==> SystemOk(env, num, ts, ts[k - 1])))
  }

  lemma {:induction false} SystemsUpToMeans(env: Env, num: u64, ts: seq<Transaction>, k: nat)
    requires ValidEnv(env) && k <= |ts|
    ensures SystemsUpTo(env, num, ts, k) <==> forall i | 0 <= i < k && IsSystem(ts[i].kind) :: SystemOk(env, num, ts, ts[i])
  {
    if k > 0 {
      SystemsUpToMeans(env, num, ts, k - 1);
    }
  }

  lemma {:induction false} SystemsUpToLess(env: Env, num: u64, ts: seq<Transaction>, k: nat, n: nat)
    requires ValidEnv(env) && k <= n <= |ts|
    ensures SystemsUpTo(env, num, ts, n) ==> SystemsUpTo(env, num, ts, k)
    decreases n
  {
    if k < n {
      SystemsUpToLess(env, num, ts, k, n - 1);
    }
  }

  method ValidateSystem(env: Env, num: u64, ts: seq<Transaction>, t: Transaction, record: set<bytes>)
      returns (ok: bool, paid: set<bytes>)
    requires ValidEnv(env) && IsSystem(t.kind)
    ensures ok <==> SystemOk(env, num, ts, t)
    ensures ok ==> paid == record + Paid(t)
  {
    ok, paid := true, record;
    if t.kind == COLLAPSE {
      ok := ValidateCollapseTx(env, num, t);
    } else if t.kind == FEE {
      ok := ValidateFeeTx(num, ts, t);
    } else if t.kind == REWARD {
      ok, paid := ValidateRewardTx(env, num, t, record);
    } else if t.kind == SYSTEM_UNSTAKE {
      ok := ValidateSystemUnstakeTx(env, num, t);
    }
  }

  /** The body of the loop: a wrong system transaction is an error, a wrong standard one is listed. */
  method VerifyOne(env: Env, num: u64, ts: seq<Transaction>, t: Transaction, record: set<bytes>)
      returns (ok: bool, failed: seq<Transaction>, paid: set<bytes>)
    requires ValidEnv(env)
    ensures ok <==> (IsSystem(t.kind) ==> SystemOk(env, num, ts, t))
    ensures ok ==> failed == FailedOne(env, t) && paid == record + Paid(t)
  {
    ok, failed, paid := true, [], record;
    if t.kind == GENESIS || t.kind == FEE || t.kind == REWARD || t.kind == SYSTEM_UNSTAKE || t.kind == COLLAPSE {
      ok, paid := ValidateSystem(env, num, ts, t, record);
    } else {
      var good := ValidateStandard(env, t);
      if !good { failed := [t]; }
    }
  }

  /**
   verifyTransactions: an error when a system transaction or the reward record is wrong, otherwise the list of
   failed standard transactions, in order.
   */
  method VerifyTransactions(env: Env, num: u64, ts: seq<Transaction>) returns (ok: bool, failed: seq<Transaction>)
    requires ValidEnv(env)
    ensures ok <==> SystemsOk(env, num, ts)
    ensures ok ==> failed == Failed(env, ts)
  {
    SystemsUpToMeans(env, num, ts, |ts|);
    ok, failed := true, [];
    var record: set<bytes> := {};
    var k := 0;
    while k < |ts|
      invariant k <= |ts|
      invariant SystemsUpTo(env, num, ts, k)
      invariant record == RewardRecord(ts[..k])
      invariant failed == Failed(env, ts[..k])
    {
      assert ts[..k + 1][..k] == ts[..k];
      var one: seq<Transaction>;
      ok, one, record := VerifyOne(env, num, ts, ts[k], record);
      if !ok {
        SystemsUpToLess(env, num, ts, k + 1, |ts|);
        return false, [];
      }
      failed := failed + one;
      k := k + 1;
    }
    assert ts[..k] == ts;
    return |record| == |env.rewards|, failed;
  }

  lemma {:induction false} NoneFailed(env: Env, ts: seq<Transaction>)
    requires ValidEnv(env)
    ensures Failed(env, ts) == [] <==> forall i | 0 <= i < |ts| :: FailedOne(env, ts[i]) == []
  {
    if ts != [] {
      var init, t := ts[..|ts| - 1], ts[|ts| - 1];
      NoneFailed(env, init);
      assert Failed(env, ts) == [] <==> Failed(env, init) == [] && FailedOne(env, t) == [];
      assert forall i | 0 <= i < |init| :: init[i] == ts[i];
    }
  }

  // ----- the block

  /** getTransactionsSize: the size of everything but fee transactions. */
  function NonFeeSize(ts: seq<Transaction>): nat
  {
    if ts == [] then 0
    else NonFeeSize(ts[..|ts| - 1]) + (if ts[|ts| - 1].kind == FEE then 0 else TransactionSize(ts[|ts| - 1]))
  }

  method GetTransactionsSize(ts: seq<Transaction>) returns (total: nat)
    ensures total == NonFeeSize(ts)
  {
    total := 0;
    for k := 0 to |ts|
      invariant total == NonFeeSize(ts[..k])
    {
      assert ts[..k + 1][..k] == ts[..k];
      if ts[k].kind != FEE { total := total + TransactionSize(ts[k]); }
    }
    assert ts[..|ts|] == ts;
  }

  /** The transactions of a block that ValidateBlock answers with neither an error nor a failed list. */
  ghost predicate Accepted(env: Env, num: u64, ts: seq<Transaction>)
    requires ValidEnv(env)
  {
    && NonFeeSize(ts) <= env.cfg.blockSize
    && BalanceOk(ts)
    && (forall i | 0 <= i < |ts| :: TxOk(env, num, ts, ts[i]))
    && |RewardRecord(ts)| == |env.rewards|
  }

  /** The transactions of a block that ValidateBlock answers without an error, whatever standard ones fail. */
  ghost predicate Passable(env: Env, num: u64, ts: seq<Transaction>)
    requires ValidEnv(env)
  {
    NonFeeSize(ts) <= env.cfg.blockSize && BalanceOk(ts) && SystemsOk(env, num, ts)
  }

  /** The ledger part of ValidateBlock: failed standard transactions are listed and raise no error. */
  method ValidateBlockTransactions(env: Env, num: u64, ts: seq<Transaction>) returns (ok: bool, failed: seq<Transaction>)
    requires ValidEnv(env)
    ensures ok <==> Passable(env, num, ts)
    ensures ok ==> failed == Failed(env, ts)
    ensures ok && failed == [] <==> Accepted(env, num, ts)
  {
    var size := GetTransactionsSize(ts);
    if size > env.cfg.blockSize { return false, []; }
    var balanced := CheckBlockBalance(ts);
    if !balanced { return false, []; }
    ok, failed := VerifyTransactions(env, num, ts);
    NoneFailed(env, ts);
  }
}
