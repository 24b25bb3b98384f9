/**
 Money over whole runs: the amount statistics of SaveBlock, the supply equation of CheckBalance, and how the
 per-transaction and per-block checks together keep it.
 */
module Conservation {
  import opened Words
  import opened Sums
  import opened Proto
  import opened Ledger
  import opened Validator
  import opened BlockValidator

  /** Unspent outputs and the three sums CheckBalance compares them with. */
  datatype Supply = Supply(utxo: UtxoSet, genesis: u64, rewards: u64, fees: u64)

  /** CheckBalance, with its 64-bit additions. */
  ghost predicate BalanceCorrect(s: Supply)
  {
    Wrap(s.genesis + s.rewards) == Wrap(Total(s.utxo) + s.fees)
  }

  /** The loops of SaveBlock over reward and fee outputs, in 64-bit arithmetic. */
  method AmountStats(ts: seq<Transaction>) returns (reward: u64, fee: u64)
    ensures reward == Wrap(SeqSum(ts, RewardOut))
    ensures fee == Wrap(SeqSum(ts, FeeOut))
  {
    reward, fee := 0, 0;
    var k := 0;
    while k < |ts|
      invariant k <= |ts|
      invariant reward == Wrap(SeqSum(ts[..k], RewardOut))
      invariant fee == Wrap(SeqSum(ts[..k], FeeOut))
    {
      reward, fee := StatsOne(ts, k, reward, fee);
      k := k + 1;
    }
    assert ts[..k] == ts;
  }

  method StatsOne(ts: seq<Transaction>, k: nat, reward0: u64, fee0: u64) returns (reward: u64, fee: u64)
    requires k < |ts| && reward0 == Wrap(SeqSum(ts[..k], RewardOut)) && fee0 == Wrap(SeqSum(ts[..k], FeeOut))
    ensures reward == Wrap(SeqSum(ts[..k + 1], RewardOut)) && fee == Wrap(SeqSum(ts[..k + 1], FeeOut))
  {
    reward, fee := reward0, fee0;
    StatsStep(ts, k);
    if ts[k].kind == REWARD {
      reward := SumOutputs(ts[k].outputs, reward);
    } else if ts[k].kind == FEE {
      fee := SumOutputs(ts[k].outputs, fee);
    }
  }

  lemma StatsStep(ts: seq<Transaction>, k: nat)
    requires k < |ts|
    ensures Wrap(Wrap(SeqSum(ts[..k], RewardOut)) + RewardOut(ts[k])) == Wrap(SeqSum(ts[..k + 1], RewardOut))
    ensures Wrap(Wrap(SeqSum(ts[..k], FeeOut)) + FeeOut(ts[k])) == Wrap(SeqSum(ts[..k + 1], FeeOut))
  {
    assert ts[..k + 1][..k] == ts[..k];
    WrapAdd(SeqSum(ts[..k], RewardOut), RewardOut(ts[k]));
    WrapAdd(SeqSum(ts[..k], FeeOut), FeeOut(ts[k]));
  }

  /** UpdateAmountStats after the rows have changed. */
  ghost function Grown(s: Supply, rows: UtxoSet, reward: nat, fee: nat): Supply
  {
    Supply(rows, s.genesis, Wrap(s.rewards + Wrap(reward)), Wrap(s.fees + Wrap(fee)))
  }

  /** Finalising a block: ProcessBlock, then UpdateAmountStats. */
  ghost function Finalize(s: Supply, ts: seq<Transaction>): (r: Option<Supply>)
  {
    var rows := Process(s.utxo, ts);
    if rows.None? then None else Some(Grown(s, rows.value, SeqSum(ts, RewardOut), SeqSum(ts, FeeOut)))
  }

  // ----- what acceptance gives

  lemma TxInputsExist(env: Env, num: u64, ts: seq<Transaction>, t: Transaction)
    requires ValidEnv(env) && TxOk(env, num, ts, t) && HasInputs(t.kind)
    ensures forall i | 0 <= i < |t.inputs| :: Exists(env.utxo, t.inputs[i])
    ensures Balanced(t)
  {
    if t.kind == COLLAPSE {
      KnownExist(env.utxo, CollapseKnown(env.utxo, t.inputs), t.inputs);
    } else if t.kind == SYSTEM_UNSTAKE {
      KnownExist(env.utxo, Deposits(env.utxo, t.outputs[0].address), t.inputs);
    } else {
      KnownExist(env.utxo, Spendable(env, t), t.inputs);
    }
  }

  lemma KnownExist(m: UtxoSet, known: UtxoSet, ins: seq<TxInput>)
    requires forall k | k in known :: k in m && known[k] == m[k]
    requires InputsMatch(known, ins)
    ensures forall i | 0 <= i < |ins| :: Exists(m, ins[i])
  {
    forall i | 0 <= i < |ins| ensures Exists(m, ins[i]) {
      assert Matches(known, ins[i]);
    }
  }

  lemma {:induction false} BlockInputsExist(m: UtxoSet, ts: seq<Transaction>)
    requires forall k | 0 <= k < |ts| && HasInputs(ts[k].kind) ::
      forall i | 0 <= i < |ts[k].inputs| :: Exists(m, ts[k].inputs[i])
    ensures forall i | i in BlockInputs(ts) :: Exists(m, i)
  {
    if ts != [] {
      var init, t := ts[..|ts| - 1], ts[|ts| - 1];
      BlockInputsExist(m, init);
      forall i | i in BlockInputs(ts) ensures Exists(m, i) {
        if i !in BlockInputs(init) {
          var j :| 0 <= j < |t.inputs| && t.inputs[j] == i;
          assert ts[|ts| - 1].inputs[j] == i;
        }
      }
    }
  }

  lemma AcceptedInputsExist(env: Env, num: u64, ts: seq<Transaction>)
    requires ValidEnv(env) && Accepted(env, num, ts)
    ensures forall i | i in BlockInputs(ts) :: Exists(env.utxo, i)
  {
    forall k | 0 <= k < |ts| && HasInputs(ts[k].kind)
      ensures forall i | 0 <= i < |ts[k].inputs| :: Exists(env.utxo, ts[k].inputs[i])
    {
      TxInputsExist(env, num, ts, ts[k]);
    }
    BlockInputsExist(env.utxo, ts);
  }

  lemma KeysConcat(a: seq<TxInput>, b: seq<TxInput>)
    ensures Keys(a + b) == Keys(a) + Keys(b)
  {
    forall i | i in a ensures i in a + b { }
    forall i | i in b ensures i in a + b { }
  }

  lemma DistinctParts(a: seq<TxInput>, b: seq<TxInput>)
    ensures Distinct(a + b) <==> Distinct(a) && Distinct(b) && Keys(a) !! Keys(b)
  {
    if Distinct(a + b) {
      DistinctPrefix(a, b);
      forall i, j | 0 <= i < j < |b| ensures Key(b[i]) != Key(b[j]) {
        assert (a + b)[|a| + i] == b[i] && (a + b)[|a| + j] == b[j];
      }
      forall x, y | x in a && y in b ensures Key(x) != Key(y) {
        var i :| 0 <= i < |a| && a[i] == x;
        var j :| 0 <= j < |b| && b[j] == y;
        assert (a + b)[i] == x && (a + b)[|a| + j] == y;
      }
    }
    if Distinct(a) && Distinct(b) && Keys(a) !! Keys(b) {
      forall i, j | 0 <= i < j < |a + b| ensures Key((a + b)[i]) != Key((a + b)[j]) {
        if j < |a| {
        } else if i >= |a| {
          assert Key(b[i - |a|]) != Key(b[j - |a|]);
        } else {
          assert a[i] in a && b[j - |a|] in b;
          assert Key(a[i]) in Keys(a) && Key(b[j - |a|]) in Keys(b);
        }
      }
    }
  }

  lemma {:induction false} BlockInputsDistinct(ts: seq<Transaction>)
    requires Distinct(BalanceInputs(ts))
    ensures Distinct(BlockInputs(ts))
    ensures Keys(BlockInputs(ts)) <= Keys(BalanceInputs(ts))
  {
    if ts != [] {
      var init, t := ts[..|ts| - 1], ts[|ts| - 1];
      var more := if t.kind == REWARD then [] else t.inputs;
      DistinctParts(BalanceInputs(init), more);
      KeysConcat(BalanceInputs(init), more);
      BlockInputsDistinct(init);
      DistinctParts(BlockInputs(init), InputsOf(t));
      KeysConcat(BlockInputs(init), InputsOf(t));
    }
  }

  /** What acceptance says about money: the inputs exist as stated, are distinct, and the block sums agree. */
  ghost predicate Sound(m: UtxoSet, ts: seq<Transaction>)
  {
    && (forall i | i in BlockInputs(ts) :: Exists(m, i))
    && Distinct(BlockInputs(ts))
    && Wrap(SeqSum(ts, BalanceIn)) == Wrap(SeqSum(ts, BalanceOut))
  }

  lemma AcceptedSound(env: Env, num: u64, ts: seq<Transaction>)
    requires ValidEnv(env) && Accepted(env, num, ts)
    ensures Sound(env.utxo, ts)
  {
    AcceptedInputsExist(env, num, ts);
    BlockInputsDistinct(ts);
  }

  lemma SoundSpends(m: UtxoSet, ts: seq<Transaction>)
    requires Sound(m, ts)
    ensures SpendAll(m, BlockInputs(ts)).Some?
    ensures SeqSum(ts, SpentBy) <= Total(m)
  {
    DistinctSpend(m, BlockInputs(ts));
    DistinctInputsBound(m, BlockInputs(ts));
    BlockInputsSum(ts);
  }

  /** Every input of an accepted block can be deleted: the output manager never misses a row. */
  lemma AcceptedSpends(env: Env, num: u64, ts: seq<Transaction>)
    requires ValidEnv(env) && Accepted(env, num, ts)
    ensures SpendAll(env.utxo, BlockInputs(ts)).Some?
    ensures SeqSum(ts, SpentBy) <= Total(env.utxo)
  {
    AcceptedSound(env, num, ts);
    SoundSpends(env.utxo, ts);
  }

  /** An accepted block with fresh transaction hashes is processed without error. */
  lemma AcceptedProcesses(env: Env, num: u64, ts: seq<Transaction>)
    requires ValidEnv(env) && Accepted(env, num, ts) && FreshHashes(env.utxo, ts)
    ensures Process(env.utxo, ts).Some?
  {
    AcceptedSound(env, num, ts);
    SoundProcesses(env.utxo, ts);
  }

  lemma SoundProcesses(m: UtxoSet, ts: seq<Transaction>)
    requires Sound(m, ts) && FreshHashes(m, ts)
    ensures Process(m, ts).Some?
  {
    ProcessSucceeds(m, ts);
  }

  // ----- one block

  lemma BlockSums(ts: seq<Transaction>)
    ensures SeqSum(ts, BalanceIn) == SeqSum(ts, SpentBy) + SeqSum(ts, UnprocessedIn)
    ensures SeqSum(ts, BalanceOut) + SeqSum(ts, RewardOut) == SeqSum(ts, CreatedBy) + SeqSum(ts, FeeOut)
  {
    SeqSumAdd(ts, SpentBy, UnprocessedIn, BalanceIn);
    SeqSumAdd(ts, BalanceOut, RewardOut, AllOut);
    SeqSumAdd(ts, CreatedBy, FeeOut, AllOut);
  }

  ghost function AllOut(t: Transaction): nat { OutSum(t) }

  lemma SoundTotal(m: UtxoSet, ts: seq<Transaction>)
    requires Sound(m, ts) && Process(m, ts).Some?
    ensures Total(Process(m, ts).value) + SeqSum(ts, SpentBy) == Total(m) + SeqSum(ts, CreatedBy)
  {
    ProcessSum(m, ts, Amount);
    NamedIsStated(m, BlockInputs(ts));
    BlockInputsSum(ts);
    BlockEntriesSum(ts);
  }

  lemma SoundKeepsBalance(s: Supply, ts: seq<Transaction>)
    requires Sound(s.utxo, ts) && BalanceCorrect(s) && Finalize(s, ts).Some?
    ensures BalanceCorrect(Finalize(s, ts).value) <==> Wrap(SeqSum(ts, UnprocessedIn)) == 0
  {
    SoundTotal(s.utxo, ts);
    BlockSums(ts);
    var rows := Process(s.utxo, ts).value;
    SupplyShift(s, rows,
                SeqSum(ts, SpentBy), SeqSum(ts, CreatedBy), SeqSum(ts, RewardOut), SeqSum(ts, FeeOut),
                SeqSum(ts, BalanceIn), SeqSum(ts, BalanceOut), SeqSum(ts, UnprocessedIn));
  }

  /**
   One accepted block keeps the supply equation exactly when the inputs that its fee and genesis-type transactions
   claim add up to 0 modulo 2^64: those inputs count for the block balance but are never deleted.
   */
  lemma BlockKeepsBalance(env: Env, num: u64, ts: seq<Transaction>, s: Supply)
    requires ValidEnv(env) && Accepted(env, num, ts) && env.utxo == s.utxo
    requires BalanceCorrect(s) && Finalize(s, ts).Some?
    ensures BalanceCorrect(Finalize(s, ts).value) <==> Wrap(SeqSum(ts, UnprocessedIn)) == 0
  {
    AcceptedSound(env, num, ts);
    SoundKeepsBalance(s, ts);
  }

  lemma SupplyShift(s: Supply, rows: UtxoSet,
                    spent: nat, created: nat, reward: nat, fee: nat, sumIn: nat, sumOut: nat, loose: nat)
    requires BalanceCorrect(s)
    requires Total(rows) + spent == Total(s.utxo) + created
    requires sumIn == spent + loose && sumOut + reward == created + fee
    requires Wrap(sumIn) == Wrap(sumOut)
    ensures BalanceCorrect(Grown(s, rows, reward, fee)) <==> Wrap(loose) == 0
  {
    GrownBalance(s, rows, reward, fee);
    ShiftInts(s.genesis + s.rewards, Total(s.utxo) + s.fees,
              s.genesis + s.rewards + reward, Total(rows) + s.fees + fee, sumIn, sumOut, loose);
  }

  lemma GrownBalance(s: Supply, rows: UtxoSet, reward: nat, fee: nat)
    ensures BalanceCorrect(Grown(s, rows, reward, fee))
      <==> Wrap(s.genesis + s.rewards + reward) == Wrap(Total(rows) + s.fees + fee)
  {
    NestedWrap(s.genesis, s.rewards, reward);
    NestedWrap(Total(rows), s.fees, fee);
  }

  lemma ShiftInts(left0: int, right0: int, left: int, right: int, sumIn: int, sumOut: int, loose: int)
    requires Wrap(left0) == Wrap(right0) && Wrap(sumIn) == Wrap(sumOut)
    requires right - left == (right0 - left0) + (sumOut - sumIn) + loose
    ensures Wrap(left) == Wrap(right) <==> Wrap(loose) == 0
  {
    WrapDiff(right, left);
    WrapDiff(right0, left0);
    WrapDiff(sumOut, sumIn);
    ThreeTerms(right0 - left0, sumOut - sumIn, loose);
  }

  lemma NestedWrap(a: int, b: int, c: int)
    ensures Wrap(a + Wrap(b + Wrap(c))) == Wrap(a + b + c)
  {
    WrapAdd(b, c);
    WrapAdd(a, b + c);
  }

  lemma ThreeTerms(a: int, b: int, c: int)
    requires Wrap(a) == 0 && Wrap(b) == 0
    ensures Wrap(a + b + c) == Wrap(c)
  {
    WrapAdd(a, b + c);
    WrapAdd(b, c);
  }

  // ----- a block that breaks the equation

  /** A genesis-type transaction that spends a coin nobody has. */
  function Phantom(num: u64, hash: bytes): Transaction
  {
    Transaction(num, GENESIS, 0, hash, 0, [], [TxInput([], 0, [], 1, [])], [TxOutput([], 1, [])], [], 0)
  }

  lemma PhantomNumbers(num: u64, hash: bytes)
    ensures var g := Phantom(num, hash); InSum(g) == 1 && OutSum(g) == 1 && TransactionSize(g) == 249
  {
    var g := Phantom(num, hash);
    assert g.inputs[..0] == [] && g.outputs[..0] == [];
    assert InSum(g) == SeqSum(g.inputs[..0], InAmount) + 1 && OutSum(g) == SeqSum(g.outputs[..0], OutAmount) + 1;
    assert InputsSize(g.inputs) == InputsSize(g.inputs[..0]) + 72 && OutputsSize(g.outputs) == OutputsSize(g.outputs[..0]) + 36;
  }

  lemma OneTx(t: Transaction, w: Transaction -> nat)
    ensures SeqSum([t], w) == w(t)
  {
    assert [t][..0] == [];
  }

  lemma PhantomAccepted(env: Env, num: u64, hash: bytes)
    requires ValidEnv(env) && env.rewards == map[] && env.cfg.blockSize >= 249
    ensures Accepted(env, num, [Phantom(num, hash)])
  {
    var g := Phantom(num, hash);
    PhantomNumbers(num, hash);
    OneTx(g, BalanceIn);
    OneTx(g, BalanceOut);
    assert [g][..0] == [];
    assert BalanceInputs([g]) == BalanceInputs([g][..0]) + g.inputs == g.inputs;
    assert NonFeeSize([g]) == NonFeeSize([g][..0]) + 249;
    assert RewardRecord([g]) == RewardRecord([g][..0]) + {};
  }

  lemma PhantomProcessed(m: UtxoSet, num: u64, hash: bytes)
    requires forall k | k in m :: k.hash != hash
    ensures Process(m, [Phantom(num, hash)]).Some?
  {
    var g := Phantom(num, hash);
    assert [g][..0] == [];
    assert BlockInputs([g]) == BlockInputs([g][..0]) + [] == [];
    ProcessSucceeds(m, [g]);
  }

  /**
   An accepted block after which the equation fails: the block balance counts the input, the output manager never
   deletes it. So the condition of BlockKeepsBalance cannot be dropped.
   */
  lemma PhantomBreaksBalance(env: Env, num: u64, hash: bytes, s: Supply)
    requires ValidEnv(env) && env.rewards == map[] && env.cfg.blockSize >= 249 && env.utxo == s.utxo
    requires BalanceCorrect(s) && forall k | k in s.utxo :: k.hash != hash
    ensures Accepted(env, num, [Phantom(num, hash)])
    ensures Finalize(s, [Phantom(num, hash)]).Some? && !BalanceCorrect(Finalize(s, [Phantom(num, hash)]).value)
  {
    var g := Phantom(num, hash);
    PhantomAccepted(env, num, hash);
    PhantomProcessed(s.utxo, num, hash);
    PhantomNumbers(num, hash);
    OneTx(g, UnprocessedIn);
    SmallWrap(1);
    BlockKeepsBalance(env, num, [g], s);
  }

  // ----- runs

  datatype BlockStep = BlockStep(env: Env, num: u64, ts: seq<Transaction>)

  /** A block accepted against the outputs unspent at that moment, then processed. */
  ghost predicate Next(s: Supply, step: BlockStep, s': Supply)
  {
    && ValidEnv(step.env)
    && step.env.utxo == s.utxo
    && Accepted(step.env, step.num, step.ts)
    && Finalize(s, step.ts) == Some(s')
  }

  /** A run: states linked by accepted blocks. */
  ghost predicate Run(states: seq<Supply>, steps: seq<BlockStep>)
  {
    && |states| == |steps| + 1
    && forall k | 0 <= k < |steps| :: StepAt(states, steps, k)
  }

  ghost predicate StepAt(states: seq<Supply>, steps: seq<BlockStep>, k: nat)
    requires |states| == |steps| + 1 && k < |steps|
  {
    Next(states[k], steps[k], states[k + 1])
  }

  /** No transaction outside the input-bearing kinds claims inputs. */
  ghost predicate NoLooseInputs(ts: seq<Transaction>)
  {
    forall i | 0 <= i < |ts| && !HasInputs(ts[i].kind) :: ts[i].inputs == []
  }

  lemma {:induction false} NoLooseSum(ts: seq<Transaction>)
    requires NoLooseInputs(ts)
    ensures SeqSum(ts, UnprocessedIn) == 0
  {
    if ts != [] {
      NoLooseSum(ts[..|ts| - 1]);
      assert UnprocessedIn(ts[|ts| - 1]) == 0;
    }
  }

  lemma StepKeepsBalance(s: Supply, step: BlockStep, s': Supply)
    requires BalanceCorrect(s) && Next(s, step, s')
    ensures BalanceCorrect(s') <==> Wrap(SeqSum(step.ts, UnprocessedIn)) == 0
  {
    BlockKeepsBalance(step.env, step.num, step.ts, s);
  }

  ghost predicate KeepsBalance(s: Supply, s': Supply)
  {
    BalanceCorrect(s) ==> BalanceCorrect(s')
  }

  lemma RunSteps(states: seq<Supply>, steps: seq<BlockStep>)
    requires Run(states, steps)
    requires forall j | 0 <= j < |steps| :: NoLooseInputs(steps[j].ts)
    ensures forall k | 0 <= k < |steps| :: KeepsBalance(states[k], states[k + 1])
  {
    forall k | 0 <= k < |steps| ensures KeepsBalance(states[k], states[k + 1]) {
      assert StepAt(states, steps, k);
      if BalanceCorrect(states[k]) {
        NoLooseSum(steps[k].ts);
        StepKeepsBalance(states[k], steps[k], states[k + 1]);
      }
    }
  }

  lemma {:induction false} BalanceStays(states: seq<Supply>, k: nat)
    requires k < |states| && BalanceCorrect(states[0])
    requires forall j | 0 <= j < |states| - 1 :: KeepsBalance(states[j], states[j + 1])
    ensures BalanceCorrect(states[k])
  {
    if k > 0 {
      BalanceStays(states, k - 1);
      assert KeepsBalance(states[k - 1], states[k - 1 + 1]);
    }
  }

  /** Over every run of accepted blocks without such inputs, CheckBalance never fails. */
  lemma RunKeepsBalance(states: seq<Supply>, steps: seq<BlockStep>, k: nat)
    requires Run(states, steps) && BalanceCorrect(states[0]) && k <= |steps|
    requires forall j | 0 <= j < |steps| :: NoLooseInputs(steps[j].ts)
    ensures BalanceCorrect(states[k])
  {
    RunSteps(states, steps);
    BalanceStays(states, k);
  }
}
