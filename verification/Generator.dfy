/** The transaction generator (generator/service.go) and CountTxFee: what a wallet is asked to sign balances. */
module Generator {
  import opened Words
  import opened Sums
  import opened Proto
  import opened Ledger
  import opened Validator

  datatype Options = Options(num: u64, kind: u32, fee: u64, inputs: seq<TxInput>, outputs: seq<TxOutput>)

  function Body(opts: Options): Transaction
  {
    Transaction(opts.num, opts.kind, 0, [], opts.fee, [], opts.inputs, opts.outputs, [], 0)
  }

  /** The placeholder of CountTxFee. */
  const CHANGE: TxOutput := TxOutput(Zeros(20), 200, [])

  function FeeOfOptions(opts: Options): u64
  {
    RealFee(Body(opts))
  }

  lemma StampedFee(opts: Options, t: Transaction)
    requires Stamped(Body(opts), t)
    ensures RealFee(t) == FeeOfOptions(opts) && InSum(t) == SeqSum(opts.inputs, InAmount) && OutSum(t) == SeqSum(opts.outputs, OutAmount)
  {
  }

  /** An output without a node has the size of the placeholder, whatever its amount. */
  lemma ChangeSize(opts: Options, change: TxOutput)
    requires change.node == []
    ensures FeeOfOptions(WithOutput(opts, change)) == FeeOfOptions(WithOutput(opts, CHANGE))
  {
    assert (opts.outputs + [change])[..|opts.outputs|] == opts.outputs;
    assert (opts.outputs + [CHANGE])[..|opts.outputs|] == opts.outputs;
  }

  function WithOutput(opts: Options, o: TxOutput): Options
  {
    opts.(outputs := opts.outputs + [o])
  }

  lemma SizeWithChange(opts: Options)
    ensures TransactionSize(Body(WithOutput(opts, CHANGE))) == TransactionSize(Body(opts)) + 36
  {
    assert (opts.outputs + [CHANGE])[..|opts.outputs|] == opts.outputs;
  }

  /** One more plain output costs the fee price of 36 bytes. */
  lemma ExtraCost(opts: Options)
    ensures FeeOfOptions(WithOutput(opts, CHANGE)) == Wrap(FeeOfOptions(opts) + opts.fee * 36)
  {
    var size := TransactionSize(Body(opts));
    SizeWithChange(opts);
    WrapAdd(opts.fee * size, opts.fee * 36);
    assert opts.fee * (size + 36) == opts.fee * size + opts.fee * 36;
  }

  /**
   CountTxFee: the fee of every transaction finished from the options, and of every one with a change output added,
   whoever gets it and however much.
   */
  method CountTxFee(opts: Options) returns (fee: u64, extraFee: u64)
    ensures fee == FeeOfOptions(opts) && extraFee == FeeOfOptions(WithOutput(opts, CHANGE))
    ensures forall t | Stamped(Body(opts), t) :: RealFee(t) == fee
    ensures forall change: TxOutput, t | change.node == [] && Stamped(Body(WithOutput(opts, change)), t) :: RealFee(t) == extraFee
    ensures extraFee == Wrap(fee + opts.fee * 36)
  {
    forall change: TxOutput, t | change.node == [] && Stamped(Body(WithOutput(opts, change)), t)
      ensures RealFee(t) == FeeOfOptions(WithOutput(opts, CHANGE))
    {
      ChangeSize(opts, change);
      StampedFee(WithOutput(opts, change), t);
    }
    ExtraCost(opts);
    var t := Body(opts);
    fee := RealFee(t);
    t := t.(outputs := t.outputs + [CHANGE]);
    extraFee := RealFee(t);
  }

  /** Inputs pay for outputs and fee in 64-bit arithmetic. */
  ghost predicate Pays(opts: Options)
  {
    Wrap(SeqSum(opts.inputs, InAmount)) == Wrap(SeqSum(opts.outputs, OutAmount) + FeeOfOptions(opts))
  }

  method SumInputs(ins: seq<TxInput>) returns (sum: u64)
    ensures sum == Wrap(SeqSum(ins, InAmount))
  {
    sum := 0;
    for k := 0 to |ins|
      invariant sum == Wrap(SeqSum(ins[..k], InAmount))
    {
      assert ins[..k + 1] == ins[..k] + [ins[k]];
      SeqSumPush(ins[..k], ins[k], InAmount);
      WrapAdd(SeqSum(ins[..k], InAmount), ins[k].amount);
      sum := Wrap(sum + ins[k].amount);
    }
    assert ins[..|ins|] == ins;
  }

  method SumOutputs(outs: seq<TxOutput>) returns (sum: u64)
    ensures sum == Wrap(SeqSum(outs, OutAmount))
  {
    sum := 0;
    for k := 0 to |outs|
      invariant sum == Wrap(SeqSum(outs[..k], OutAmount))
    {
      assert outs[..k + 1] == outs[..k] + [outs[k]];
      SeqSumPush(outs[..k], outs[k], OutAmount);
      WrapAdd(SeqSum(outs[..k], OutAmount), outs[k].amount);
      sum := Wrap(sum + outs[k].amount);
    }
    assert outs[..|outs|] == outs;
  }

  lemma ExactPrice(ins: nat, outs: nat, fee: u64, balance: u64, value: u64)
    requires balance == Wrap(ins) && value == Wrap(outs) && balance == Wrap(fee + value)
    ensures Wrap(ins) == Wrap(outs + fee)
  {
    WrapAdd(outs, fee);
  }

  lemma ChangePays(ins: nat, outs: nat, fee: u64, balance: u64, value: u64, change: u64)
    requires balance == Wrap(ins) && value == Wrap(outs) && change == Wrap(balance - value - fee)
    ensures Wrap(ins) == Wrap(outs + change + fee)
  {
    WrapAdd(balance - value - fee, outs + fee);
    WrapAdd(balance - value, outs);
    WrapAdd(outs, 0);
    WrapDiff(outs + balance - value, balance);
    WrapDiff(outs, value);
    SmallWrap(value);
    SmallWrap(balance);
  }

  /** The outputs asked for, and perhaps a positive change output to the sender. */
  ghost predicate WithChange(asked: seq<TxOutput>, address: bytes, outs: seq<TxOutput>)
  {
    || outs == asked
    || (|outs| == |asked| + 1 && outs[..|asked|] == asked && outs[|asked|] == TxOutput(address, outs[|asked|].amount, [])
        && outs[|asked|].amount > 0)
  }

  /** What the transaction costs: its outputs and the fee price of each of its bytes, in plain numbers. */
  ghost function Price(opts: Options): nat
  {
    SeqSum(opts.outputs, OutAmount) + opts.fee * TransactionSize(Body(opts))
  }

  /** What it costs with one more output, which is 36 bytes. */
  ghost function FullPrice(opts: Options): nat
  {
    SeqSum(opts.outputs, OutAmount) + opts.fee * (TransactionSize(Body(opts)) + 36)
  }

  lemma PriceOrder(opts: Options)
    ensures SeqSum(opts.outputs, OutAmount) <= Price(opts) <= FullPrice(opts)
  {
    var size := TransactionSize(Body(opts));
    assert opts.fee * (size + 36) == opts.fee * size + opts.fee * 36;
  }

  /** The inputs' sum and every price fit a word. */
  ghost predicate Fits(opts: Options)
  {
    SeqSum(opts.inputs, InAmount) < U64 && FullPrice(opts) < U64
  }

  /** The words for inputs, outputs and price stand in the order that pays, with nothing left over. */
  ghost predicate PaysExactly(opts: Options)
  {
    Wrap(SeqSum(opts.outputs, OutAmount)) < Wrap(SeqSum(opts.inputs, InAmount)) == Wrap(Price(opts))
  }

  /** They stand in the order that pays for one more output, with something left over. */
  ghost predicate PaysMore(opts: Options)
  {
    var balance := Wrap(SeqSum(opts.inputs, InAmount));
    balance > Wrap(SeqSum(opts.outputs, OutAmount)) && balance > Wrap(Price(opts)) && balance > Wrap(FullPrice(opts))
  }

  /** The options with a change output of what the full price leaves of the inputs. */
  ghost function Changed(opts: Options, address: bytes): Options
  {
    opts.(outputs := opts.outputs + [TxOutput(address, Wrap(SeqSum(opts.inputs, InAmount) - FullPrice(opts)), [])])
  }

  /** In plain numbers: an exact payment, or one whose last output is the change, with exactly the difference. */
  ghost predicate PlainAnswer(opts: Options, address: bytes, r: Option<seq<TxOutput>>)
  {
    var ins, outs, size := SeqSum(opts.inputs, InAmount), SeqSum(opts.outputs, OutAmount), TransactionSize(Body(opts));
    var exact := outs < ins == outs + opts.fee * size;
    var more := ins > outs + opts.fee * (size + 36);
    && (r.Some? <==> exact || more)
    && (exact ==> r == Some(opts.outputs))
    && (more ==>
         && r.Some? && |r.value| == |opts.outputs| + 1 && r.value[..|opts.outputs|] == opts.outputs
         && r.value[|opts.outputs|].address == address && r.value[|opts.outputs|].node == []
         && r.value[|opts.outputs|].amount == ins - outs - opts.fee * (size + 36))
  }

  ghost predicate Answers(opts: Options, address: bytes, r: Option<Options>)
  {
    && (r.Some? <==> PaysExactly(opts) || PaysMore(opts))
    && (PaysExactly(opts) ==> r == Some(opts))
    && (PaysMore(opts) ==> r == Some(Changed(opts, address)))
  }

  ghost function OutputsOf(r: Option<Options>): Option<seq<TxOutput>>
  {
    if r.Some? then Some(r.value.outputs) else None
  }

  /** While everything fits a word the answer is the plain one. */
  lemma FittingAnswer(opts: Options, address: bytes, r: Option<Options>)
    requires Fits(opts) && Answers(opts, address, r)
    ensures PlainAnswer(opts, address, OutputsOf(r))
  {
    PriceOrder(opts);
    SmallWrap(SeqSum(opts.inputs, InAmount));
    SmallWrap(SeqSum(opts.outputs, OutAmount));
    SmallWrap(Price(opts));
    SmallWrap(FullPrice(opts));
    if PaysMore(opts) {
      SmallWrap(SeqSum(opts.inputs, InAmount) - FullPrice(opts));
      assert Changed(opts, address).outputs[..|opts.outputs|] == opts.outputs;
    }
  }

  /** The words of the code's comparisons. */
  lemma PriceWords(opts: Options, value: u64, fee: u64, extraFee: u64)
    requires value == Wrap(SeqSum(opts.outputs, OutAmount))
    requires fee == FeeOfOptions(opts) && extraFee == FeeOfOptions(WithOutput(opts, CHANGE))
    ensures Wrap(fee + value) == Wrap(Price(opts)) && Wrap(extraFee + value) == Wrap(FullPrice(opts))
  {
    PriceIsWord(opts, value, fee);
    FullPriceIsWord(opts, value, extraFee);
  }

  lemma PriceIsWord(opts: Options, value: u64, fee: u64)
    requires value == Wrap(SeqSum(opts.outputs, OutAmount)) && fee == FeeOfOptions(opts)
    ensures Wrap(fee + value) == Wrap(Price(opts))
  {
    BothWraps(opts.fee * TransactionSize(Body(opts)), SeqSum(opts.outputs, OutAmount));
  }

  lemma FullPriceIsWord(opts: Options, value: u64, extraFee: u64)
    requires value == Wrap(SeqSum(opts.outputs, OutAmount)) && extraFee == FeeOfOptions(WithOutput(opts, CHANGE))
    ensures Wrap(extraFee + value) == Wrap(FullPrice(opts))
  {
    SizeWithChange(opts);
    BothWraps(opts.fee * (TransactionSize(Body(opts)) + 36), SeqSum(opts.outputs, OutAmount));
  }

  lemma BothWraps(a: int, b: int)
    ensures Wrap(Wrap(a) + Wrap(b)) == Wrap(b + a)
  {
    WrapAdd(a, b);
    WrapAdd(Wrap(a), b);
  }

  /**
   genTxStruct: whatever it returns pays for itself. It answers exactly when the balance is above the outputs and
   equals the price, and then with the options as they are, or is above the price of one more output, and then
   with a positive change output at the end.
   */
  method GenTxStruct(opts: Options, balance: u64, address: bytes) returns (r: Option<Options>)
    requires balance == Wrap(SeqSum(opts.inputs, InAmount))
    ensures r.Some? ==> Pays(r.value) && r.value == opts.(outputs := r.value.outputs)
    ensures r.Some? ==> WithChange(opts.outputs, address, r.value.outputs)
    ensures Answers(opts, address, r)
    ensures Fits(opts) ==> PlainAnswer(opts, address, OutputsOf(r))
  {
    var value := SumOutputs(opts.outputs);
    var realFee, extraFee := CountTxFee(opts);
    r := Settle(opts, balance, value, realFee, extraFee, address);
    if Fits(opts) { FittingAnswer(opts, address, r); }
  }

  /** The comparisons of genTxStruct. */
  method Settle(opts: Options, balance: u64, value: u64, realFee: u64, extraFee: u64, address: bytes) returns (r: Option<Options>)
    requires balance == Wrap(SeqSum(opts.inputs, InAmount)) && value == Wrap(SeqSum(opts.outputs, OutAmount))
    requires realFee == FeeOfOptions(opts) && extraFee == FeeOfOptions(WithOutput(opts, CHANGE))
    ensures r.Some? ==> Pays(r.value) && r.value == opts.(outputs := r.value.outputs)
    ensures r.Some? ==> WithChange(opts.outputs, address, r.value.outputs)
    ensures Answers(opts, address, r)
  {
    PriceWords(opts, value, realFee, extraFee);
    var price := Wrap(realFee + value);
    r := None;
    if value < balance && price <= balance {
      if balance == price {
        ExactPrice(SeqSum(opts.inputs, InAmount), SeqSum(opts.outputs, OutAmount), realFee, balance, value);
        r := Some(opts);
      } else if balance > Wrap(extraFee + value) {
        var changed := AddChange(opts, balance, value, extraFee, address);
        r := Some(changed);
      }
    }
  }

  /** The change output that makes the inputs pay exactly. */
  method AddChange(opts: Options, balance: u64, value: u64, extraFee: u64, address: bytes) returns (r: Options)
    requires balance == Wrap(SeqSum(opts.inputs, InAmount)) && value == Wrap(SeqSum(opts.outputs, OutAmount))
    requires balance > Wrap(extraFee + value) == Wrap(FullPrice(opts)) && extraFee == FeeOfOptions(WithOutput(opts, CHANGE))
    ensures Pays(r) && r == opts.(outputs := r.outputs)
    ensures WithChange(opts.outputs, address, r.outputs)
    ensures r == Changed(opts, address)
  {
    var change := Wrap(balance - value - extraFee);
    PositiveChange(balance, value, extraFee);
    var output := TxOutput(address, change, []);
    r := opts.(outputs := opts.outputs + [output]);
    ChangeCounted(opts, output, balance, value, extraFee);
    ChangeAmount(opts, balance, value, extraFee);
  }

  lemma ChangeCounted(opts: Options, output: TxOutput, balance: u64, value: u64, extraFee: u64)
    requires balance == Wrap(SeqSum(opts.inputs, InAmount)) && value == Wrap(SeqSum(opts.outputs, OutAmount))
    requires extraFee == FeeOfOptions(WithOutput(opts, CHANGE)) && output.node == []
    requires output.amount == Wrap(balance - value - extraFee)
    ensures Pays(WithOutput(opts, output))
  {
    ChangePays(SeqSum(opts.inputs, InAmount), SeqSum(opts.outputs, OutAmount), extraFee, balance, value, output.amount);
    ChangeSums(opts, output, extraFee);
  }

  lemma ChangeSums(opts: Options, output: TxOutput, extraFee: u64)
    requires extraFee == FeeOfOptions(WithOutput(opts, CHANGE)) && output.node == []
    ensures FeeOfOptions(WithOutput(opts, output)) == extraFee
    ensures SeqSum(WithOutput(opts, output).outputs, OutAmount) == SeqSum(opts.outputs, OutAmount) + output.amount
  {
    SeqSumPush(opts.outputs, output, OutAmount);
    ChangeSize(opts, output);
  }

  lemma ChangeAmount(opts: Options, balance: u64, value: u64, extraFee: u64)
    requires balance == Wrap(SeqSum(opts.inputs, InAmount)) && Wrap(extraFee + value) == Wrap(FullPrice(opts))
    ensures Wrap(balance - value - extraFee) == Wrap(SeqSum(opts.inputs, InAmount) - FullPrice(opts))
  {
    ChangeWord(SeqSum(opts.inputs, InAmount), FullPrice(opts), extraFee + value);
    assert balance - value - extraFee == balance - (extraFee + value);
  }

  lemma ChangeWord(ins: int, full: int, price: int)
    requires Wrap(full) == Wrap(price)
    ensures Wrap(Wrap(ins) - price) == Wrap(ins - full)
  {
    WrapAdd(ins, 0 - price);
    WrapDiff(full, price);
    WrapDiff(ins - price, ins - full);
  }

  lemma PositiveChange(balance: u64, value: u64, fee: u64)
    requires balance > Wrap(fee + value)
    ensures Wrap(balance - value - fee) > 0
  {
    WrapDiff(balance, fee + value);
    SmallWrap(balance);
    assert balance - (fee + value) == balance - value - fee;
  }

  /** The transaction has the inputs, the number, the kind and the fee price that were asked for, and no data. */
  ghost predicate Fills(opts: Options, t: Transaction)
  {
    t.inputs == opts.inputs && t.num == opts.num && t.kind == opts.kind && t.fee == opts.fee && t.data == []
  }

  /** createTx: the signed transaction pays for itself modulo 2^64; stamp completes it with hash and signature. */
  method CreateTx(opts: Options, address: bytes, stamp: Transaction -> Transaction) returns (r: Option<Transaction>)
    requires forall t :: Stamped(t, stamp(t))
    ensures r.Some? ==> Wrap(InSum(r.value)) == Wrap(OutSum(r.value) + RealFee(r.value)) && Fills(opts, r.value)
    ensures r.Some? ==> WithChange(opts.outputs, address, r.value.outputs)
    ensures r.Some? ==> (Balanced(r.value) <==> InSum(r.value) < U64 && OutSum(r.value) + RealFee(r.value) < U64)
    ensures r.Some? <==> PaysExactly(opts) || PaysMore(opts)
    ensures Fits(opts) ==> PlainAnswer(opts, address, if r.Some? then Some(r.value.outputs) else None)
  {
    var balance := SumInputs(opts.inputs);
    r := None;
    if balance == 0 {
      if Fits(opts) { FittingAnswer(opts, address, None); }
    } else {
      var built := GenTxStruct(opts, balance, address);
      if built.Some? {
        var t := stamp(Body(built.value));
        CreatedBalances(built.value, t);
        r := Some(t);
      }
    }
  }

  lemma CreatedBalances(opts: Options, t: Transaction)
    requires Pays(opts) && Stamped(Body(opts), t)
    ensures Wrap(InSum(t)) == Wrap(OutSum(t) + RealFee(t))
    ensures Balanced(t) <==> InSum(t) < U64 && OutSum(t) + RealFee(t) < U64
  {
    StampedFee(opts, t);
    var due := OutSum(t) + RealFee(t);
    ExactWhenSmall(InSum(t), due);
  }

  lemma ExactWhenSmall(a: nat, b: nat)
    requires Wrap(a) == Wrap(b)
    ensures a == b < U64 <==> a < U64 && b < U64
  {
    if a < U64 && b < U64 {
      SmallWrap(a);
      SmallWrap(b);
    }
  }

  // ----- unstaking

  lemma TwoOutputs(o: TxOutput, rest: seq<TxOutput>)
    ensures SeqSum([o] + rest, OutAmount) == o.amount + SeqSum(rest, OutAmount)
    ensures OutputsSize([o] + rest) == 4 + OutputSize(o) + OutputsSize(rest)
    decreases |rest|
  {
    if rest == [] {
      assert [o] + rest == [o] && [o][..0] == [];
    } else {
      var init := rest[..|rest| - 1];
      assert ([o] + rest)[..|rest|] == [o] + init;
      TwoOutputs(o, init);
    }
  }

  /** What is paid out, and what is left staked on the node again, if anything is left. */
  ghost predicate PaidAndLeft(outs: seq<TxOutput>, address: bytes, paid: u64, left: int, node: bytes)
  {
    && |outs| == (if left > 0 then 2 else 1)
    && outs[0] == TxOutput(address, paid, [])
    && (left > 0 ==>
         && outs[1].address == address && outs[1].amount == left
         && outs[1].node == if node == [] then BLACK_HOLE else node)
  }

  predicate OwnDeposit(node: bytes)
  {
    node == [] || node == BLACK_HOLE
  }

  /** Own deposits move in whole slots only. */
  ghost predicate WholeUnits(unit: u64, balance: u64, amount: u64, node: bytes)
    requires unit > 0
  {
    OwnDeposit(node) ==> amount % unit == 0 && (balance - amount) % unit == 0
  }

  /**
   GenerateUnstakeTx: an unstake of the deposits that pays the amount less the fee to the address and stakes the rest
   on the node again. It balances with a positive first output exactly when the deposits' sum fits a word and the
   amount exceeds the fee.
   */
  method GenerateUnstakeTx(opts: Options, unit: u64, address: bytes, amount: u64, node: bytes, stamp: Transaction -> Transaction)
      returns (r: Option<Transaction>)
    requires (forall t :: Stamped(t, stamp(t))) && unit > 0
    ensures r.Some? <==>
      && opts.inputs != [] && amount <= Wrap(SeqSum(opts.inputs, InAmount))
      && WholeUnits(unit, Wrap(SeqSum(opts.inputs, InAmount)), amount, node)
    ensures r.Some? ==> Fills(opts.(kind := UNSTAKE), r.value)
    ensures r.Some? ==>
      PaidAndLeft(r.value.outputs, address, Wrap(amount - RealFee(r.value)), Wrap(SeqSum(opts.inputs, InAmount)) - amount, node)
    ensures r.Some? ==>
      (Balanced(r.value) && r.value.outputs[0].amount > 0 <==> InSum(r.value) < U64 && amount > RealFee(r.value))
  {
    r := None;
    if amount % unit == 0 || !(node == [] || node == BLACK_HOLE) {
      var balance := SumInputs(opts.inputs);
      if opts.inputs != [] && amount <= balance {
        var left := balance - amount;
        if left % unit == 0 || !(node == [] || node == BLACK_HOLE) {
          var t := BuildUnstake(opts, balance, address, amount, node, stamp);
          r := Some(t);
        }
      }
    }
  }

  /** The outputs of an unstake before the fee is taken off the first. */
  method UnstakeOutputs(address: bytes, amount: u64, left: u64, node: bytes) returns (outs: seq<TxOutput>)
    ensures PaidAndLeft(outs, address, amount, left, node)
  {
    outs := [TxOutput(address, amount, [])];
    if left > 0 {
      var nodeAddress := BLACK_HOLE;
      if node != [] { nodeAddress := node; }
      outs := outs + [TxOutput(address, left, nodeAddress)];
    }
  }

  lemma LeftSum(outs: seq<TxOutput>, address: bytes, paid: u64, left: nat, node: bytes)
    requires PaidAndLeft(outs, address, paid, left, node)
    ensures SeqSum(outs[1..], OutAmount) == left
  {
    if left > 0 {
      var rest := outs[1..];
      assert rest[..0] == [];
      assert SeqSum(rest, OutAmount) == SeqSum(rest[..0], OutAmount) + left;
    }
  }

  method BuildUnstake(opts: Options, balance: u64, address: bytes, amount: u64, node: bytes, stamp: Transaction -> Transaction)
      returns (t: Transaction)
    requires (forall t :: Stamped(t, stamp(t))) && balance == Wrap(SeqSum(opts.inputs, InAmount)) && amount <= balance
    ensures Fills(opts.(kind := UNSTAKE), t)
    ensures PaidAndLeft(t.outputs, address, Wrap(amount - RealFee(t)), balance - amount, node)
    ensures Balanced(t) && t.outputs[0].amount > 0 <==> InSum(t) < U64 && amount > RealFee(t)
  {
    var left := balance - amount;
    var outs := UnstakeOutputs(address, amount, left, node);
    var unstake := opts.(kind := UNSTAKE);
    var realFee, extra := CountTxFee(unstake.(outputs := outs));
    var less := outs[0].(amount := Wrap(amount - realFee));
    t := stamp(Body(unstake.(outputs := outs[0 := less])));
    assert outs == [outs[0]] + outs[1..] && outs[0 := less] == [less] + outs[1..];
    UnstakeSums(unstake, outs[0], less, outs[1..], t);
    LeftSum(outs, address, amount, left, node);
    UnstakeExact(InSum(t), balance, amount, realFee, left, less.amount);
  }

  lemma UnstakeSums(opts: Options, first: TxOutput, less: TxOutput, rest: seq<TxOutput>, t: Transaction)
    requires Stamped(Body(opts.(outputs := [less] + rest)), t) && |first.node| == |less.node|
    ensures RealFee(t) == FeeOfOptions(opts.(outputs := [first] + rest))
    ensures InSum(t) == SeqSum(opts.inputs, InAmount) && OutSum(t) == less.amount + SeqSum(rest, OutAmount)
  {
    StampedFee(opts.(outputs := [less] + rest), t);
    TwoOutputs(first, rest);
    TwoOutputs(less, rest);
  }

  lemma UnstakeExact(ins: nat, balance: u64, amount: u64, fee: u64, left: u64, first: u64)
    requires balance == Wrap(ins) && left == balance - amount && first == Wrap(amount - fee)
    ensures (ins == first + left + fee < U64 && first > 0) <==> ins < U64 && amount > fee
  {
    if ins < U64 { SmallWrap(ins); }
    if amount >= fee {
      SmallWrap(amount - fee);
    } else {
      WrapShift(amount - fee, 1);
      SmallWrap(amount - fee + U64);
    }
  }
}
