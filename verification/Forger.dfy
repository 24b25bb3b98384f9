/** The forger (blockchain/consensus/forger/forger.go): ForgeBlock and the methods it calls. */
module ForgerObject {
  import opened Words
  import opened Sums
  import opened Proto
  import opened Ledger
  import opened Validator
  import opened BlockValidator
  import opened Conservation
  import opened Forged
  import opened Drafts
  import opened Staking
  import opened StakeBatches
  import opened StakeReading
  import opened StakeQueue
  import opened StakingPoolObject
  import TxPool

  const TX_BATCH_LIMIT: nat := 1000
  const INPUTS_PER_TX: nat := 2000
  const OUTPUTS_PER_TX: nat := 2000
  const COLLAPSE_TX_LIMIT: nat := 30
  const COLLAPSE_OUTPUTS: nat := 100

  /**
   What the forger reads from the chain: the validator's view, the next block number, how the database lists
   plain outputs of an address and deposits of an elector on a validator, and what completing a transaction
   with a timestamp, a hash and a signature gives.
   */
  datatype Chain = Chain(
    env: Env, num: u64, owned: bytes -> seq<OutKey>, deposits: (bytes, bytes) -> seq<OutKey>,
    stamp: Transaction -> Transaction, isValidator: bytes -> bool)

  ghost predicate OwnedRows(c: Chain, a: bytes)
  {
    var ks := c.owned(a);
    Rows(c.env.utxo, ks) && forall i | 0 <= i < |ks| :: c.env.utxo[ks[i]].to == a && c.env.utxo[ks[i]].node == []
  }

  ghost predicate DepositRows(c: Chain, elector: bytes, validator: bytes)
  {
    var ks := c.deposits(elector, validator);
    Rows(c.env.utxo, ks) && forall i | 0 <= i < |ks| :: IsDeposit(c.env.utxo[ks[i]], elector, validator)
  }

  datatype Promise = Ledger | Listings | Stamps

  ghost predicate Keeps(promise: Promise, c: Chain)
  {
    match promise
    case Ledger => GoodLedger(c.env.utxo)
    case Listings => (forall a :: OwnedRows(c, a)) && (forall e, v | v != [] :: DepositRows(c, e, v))
    case Stamps => forall t :: Stamped(t, c.stamp(t))
  }

  /** A consistent ledger, listings that say what it holds, and stamping that leaves the body alone. */
  ghost predicate ValidChain(c: Chain)
  {
    ValidEnv(c.env) && forall promise: Promise :: Keeps(promise, c)
  }

  /** NewPbTransaction without a key and with fee zero. */
  function New(c: Chain, kind: u32, ins: seq<TxInput>, outs: seq<TxOutput>): Transaction
  {
    c.stamp(Transaction(c.num, kind, 0, [], 0, [], ins, outs, [], 0))
  }

  lemma NewFields(c: Chain, kind: u32, ins: seq<TxInput>, outs: seq<TxOutput>)
    requires ValidChain(c)
    ensures var t := New(c, kind, ins, outs);
      t.kind == kind && t.num == c.num && t.fee == 0 && t.data == [] && t.inputs == ins && t.outputs == outs
  {
    var t := Transaction(c.num, kind, 0, [], 0, [], ins, outs, [], 0);
    assert Keeps(Stamps, c);
    assert Stamped(t, c.stamp(t));
  }

  // ----- collapse transactions

  /** The outputs a collapse transaction takes: the first 1999 that the database lists. */
  function CollapseRows(c: Chain, a: bytes): seq<OutKey>
  {
    if |c.owned(a)| < INPUTS_PER_TX then c.owned(a) else c.owned(a)[..INPUTS_PER_TX - 1]
  }

  ghost predicate Collapsible(c: Chain, a: bytes)
  {
    |c.owned(a)| >= COLLAPSE_OUTPUTS
  }

  lemma CollapseRowsGood(c: Chain, a: bytes)
    requires ValidChain(c)
    ensures var ks := CollapseRows(c, a);
      && Rows(c.env.utxo, ks) && |ks| < INPUTS_PER_TX
      && (forall i | 0 <= i < |ks| :: c.env.utxo[ks[i]].to == a && c.env.utxo[ks[i]].node == [])
      && (Collapsible(c, a) ==> |ks| > 0)
  {
    assert Keeps(Listings, c);
    assert OwnedRows(c, a);
  }

  /** The collapse transaction of an address. */
  ghost function Collapsed(c: Chain, a: bytes): Transaction
    requires Rows(c.env.utxo, CollapseRows(c, a))
  {
    var ins := Inputs(c.env.utxo, CollapseRows(c, a));
    New(c, COLLAPSE, ins, [TxOutput(a, Wrap(SeqSum(ins, InAmount)), [])])
  }

  ghost predicate IsCollapse(c: Chain, t: Transaction)
  {
    && Rows(c.env.utxo, CollapseRows(c, Sender(t)))
    && t == Collapsed(c, Sender(t)) && Collapsible(c, Sender(t))
  }

  lemma CollapsedFine(c: Chain, a: bytes)
    requires ValidChain(c) && Collapsible(c, a)
    ensures Rows(c.env.utxo, CollapseRows(c, a))
    ensures var t := Collapsed(c, a);
      && IsCollapse(c, t) && Sender(t) == a && Owners(t.inputs) == {a} && t.kind == COLLAPSE
      && Fine(c.env, c.num, t)
  {
    assert Keeps(Ledger, c);
    CollapseRowsGood(c, a);
    var ins := Inputs(c.env.utxo, CollapseRows(c, a));
    NewFields(c, COLLAPSE, ins, [TxOutput(a, Wrap(SeqSum(ins, InAmount)), [])]);
    FineCollapse(c.env, c.num, CollapseRows(c, a), a, Collapsed(c, a));
  }

  ghost function PaidTo(outs: seq<TxOutput>): set<bytes>
  {
    set i | 0 <= i < |outs| :: outs[i].address
  }

  /** The recipients to collapse, in the order of the outputs. */
  ghost function Due(c: Chain, skip: set<bytes>, outs: seq<TxOutput>): seq<bytes>
  {
    if outs == [] then []
    else
      var due, a := Due(c, skip, outs[..|outs| - 1]), outs[|outs| - 1].address;
      if IsDue(c, skip + PaidTo(outs[..|outs| - 1]), a) then due + [a] else due
  }

  /** An address that is not skipped and holds at least 100 outputs. */
  ghost predicate IsDue(c: Chain, skip: set<bytes>, a: bytes)
  {
    a !in skip && |c.owned(a)| >= 100
  }

  /** Exactly the recipients with at least 100 outputs that are not skipped, each once. */
  lemma {:induction false} DueMeans(c: Chain, skip: set<bytes>, outs: seq<TxOutput>)
    ensures forall a :: a in Due(c, skip, outs) <==> a in PaidTo(outs) && IsDue(c, skip, a)
    ensures forall i, j | 0 <= i < j < |Due(c, skip, outs)| :: Due(c, skip, outs)[i] != Due(c, skip, outs)[j]
  {
    if outs != [] {
      var init, a := outs[..|outs| - 1], outs[|outs| - 1].address;
      DueMeans(c, skip, init);
      PaidNext(outs, |init|);
      assert outs[..|init| + 1] == outs;
      DuePushed(c, skip, outs, init, a);
    }
  }

  lemma DuePushed(c: Chain, skip: set<bytes>, outs: seq<TxOutput>, init: seq<TxOutput>, a: bytes)
    requires outs != [] && init == outs[..|outs| - 1] && a == outs[|outs| - 1].address && PaidTo(outs) == PaidTo(init) + {a}
    requires forall x :: x in Due(c, skip, init) <==> x in PaidTo(init) && IsDue(c, skip, x)
    ensures forall x :: x in Due(c, skip, outs) <==> x in PaidTo(outs) && IsDue(c, skip, x)
  {
  }

  lemma PaidNext(outs: seq<TxOutput>, k: nat)
    requires k < |outs|
    ensures PaidTo(outs[..k + 1]) == PaidTo(outs[..k]) + {outs[k].address}
  {
  }

  lemma DueNext(c: Chain, skip: set<bytes>, outs: seq<TxOutput>, k: nat)
    requires k < |outs|
    ensures var a, due := outs[k].address, Due(c, skip, outs[..k]);
      Due(c, skip, outs[..k + 1]) == if IsDue(c, skip + PaidTo(outs[..k]), a) then due + [a] else due
  {
    assert outs[..k + 1][..k] == outs[..k];
  }

  lemma {:induction false} DuePrefix(c: Chain, skip: set<bytes>, outs: seq<TxOutput>, k: nat)
    requires k <= |outs|
    ensures Due(c, skip, outs[..k]) <= Due(c, skip, outs)
    decreases |outs|
  {
    if k < |outs| {
      var init := outs[..|outs| - 1];
      assert init[..k] == outs[..k];
      DuePrefix(c, skip, init, k);
    } else {
      assert outs[..k] == outs;
    }
  }

  ghost predicate CollapseFor(c: Chain, t: Transaction, a: bytes)
  {
    Rows(c.env.utxo, CollapseRows(c, a)) && t == Collapsed(c, a)
  }

  /** The transactions are the collapses of the first addresses. */
  ghost predicate Collapses(c: Chain, ts: seq<Transaction>, due: seq<bytes>)
  {
    |ts| <= |due| && forall i | 0 <= i < |ts| :: CollapseFor(c, ts[i], due[i])
  }

  /** Why the collapses end: all are built, or thirty, or the next one does not fit. */
  ghost predicate Enough(c: Chain, ts: seq<Transaction>, due: seq<bytes>, totalSize: nat, blockSize: nat)
  {
    || |ts| == |due|
    || |ts| == COLLAPSE_TX_LIMIT
    || exists next :: |ts| < |due| && CollapseFor(c, next, due[|ts|]) && totalSize + NonFeeSize(ts) + TransactionSize(next) >= blockSize
  }

  /** The addresses that a transaction's collapses leave alone: those dealt with before, and its sender. */
  ghost function Skips(skip: set<bytes>, t: Transaction): set<bytes>
  {
    if t.kind == REWARD then skip else skip + {Sender(t)}
  }

  lemma CollapsesPush(c: Chain, ts: seq<Transaction>, due: seq<bytes>, one: Transaction, a: bytes)
    requires Collapses(c, ts, due) && |ts| == |due| && CollapseFor(c, one, a)
    ensures Collapses(c, ts + [one], due + [a])
  {
  }

  lemma CollapsesNext(c: Chain, skip: set<bytes>, outs: seq<TxOutput>, k: nat, ts: seq<Transaction>, one: Option<Transaction>, ts': seq<Transaction>)
    requires k < |outs| && Collapses(c, ts, Due(c, skip, outs[..k])) && |ts| == |Due(c, skip, outs[..k])|
    requires one.Some? <==> IsDue(c, skip + PaidTo(outs[..k]), outs[k].address)
    requires one.Some? ==> CollapseFor(c, one.value, outs[k].address)
    requires ts' == if one.Some? then ts + [one.value] else ts
    ensures Collapses(c, ts', Due(c, skip, outs[..k + 1])) && |ts'| == |Due(c, skip, outs[..k + 1])|
  {
    DueNext(c, skip, outs, k);
    if one.Some? { CollapsesPush(c, ts, Due(c, skip, outs[..k]), one.value, outs[k].address); }
  }

  lemma CollapsesFirst(c: Chain, ts: seq<Transaction>, first: seq<bytes>, due: seq<bytes>)
    requires Collapses(c, ts, first) && first <= due
    ensures Collapses(c, ts, due)
  {
  }

  /** The collapses of a transaction: as many as are due, as fit, and as are allowed; the recipients seen are skipped from now on. */
  ghost predicate CollapsesDone(c: Chain, skip: set<bytes>, outs: seq<TxOutput>, totalSize: nat, blockSize: nat, ts: seq<Transaction>, seen: nat, skip': set<bytes>)
  {
    && seen <= |outs| && skip' == skip + PaidTo(outs[..seen])
    && Collapses(c, ts, Due(c, skip, outs))
    && Enough(c, ts, Due(c, skip, outs), totalSize, blockSize)
    && |ts| <= |Due(c, skip, outs[..seen])| <= |ts| + 1
  }

  /** The recipients of the transaction are collapsed, and skipped from now on. */
  ghost predicate RecipientsDone(c: Chain, skip: set<bytes>, t: Transaction, totalSize: nat, blockSize: nat, ts: seq<Transaction>, seen: nat, skip': set<bytes>)
  {
    forall n: nat | n == seen :: CollapsesDone(c, Skips(skip, t), t.outputs, totalSize, blockSize, ts, n, skip')
  }

  /** The loop ended at the last output or with thirty. */
  lemma CollapsingEnds(c: Chain, skip: set<bytes>, outs: seq<TxOutput>, totalSize: nat, blockSize: nat, k: nat, ts: seq<Transaction>, skip': set<bytes>)
    requires k <= |outs| && skip' == skip + PaidTo(outs[..k])
    requires Collapses(c, ts, Due(c, skip, outs[..k])) && |ts| == |Due(c, skip, outs[..k])|
    requires k == |outs| || |ts| == COLLAPSE_TX_LIMIT
    ensures CollapsesDone(c, skip, outs, totalSize, blockSize, ts, k, skip')
  {
    DuePrefix(c, skip, outs, k);
    CollapsesFirst(c, ts, Due(c, skip, outs[..k]), Due(c, skip, outs));
    assert k == |outs| ==> outs[..k] == outs;
  }

  /** The loop ended with a collapse that does not fit. */
  lemma CollapsingStops(c: Chain, skip: set<bytes>, outs: seq<TxOutput>, totalSize: nat, blockSize: nat, k: nat, ts: seq<Transaction>, one: Transaction, skip': set<bytes>)
    requires k < |outs| && skip' == skip + PaidTo(outs[..k]) + {outs[k].address}
    requires Collapses(c, ts, Due(c, skip, outs[..k])) && |ts| == |Due(c, skip, outs[..k])|
    requires CollapseFor(c, one, outs[k].address) && IsDue(c, skip + PaidTo(outs[..k]), outs[k].address)
    requires totalSize + NonFeeSize(ts) + TransactionSize(one) >= blockSize
    ensures CollapsesDone(c, skip, outs, totalSize, blockSize, ts, k + 1, skip')
  {
    SkipsNext(skip, outs, k);
    DueStep(c, skip, outs, k);
    NextToCollapse(c, ts, Due(c, skip, outs[..k]), one, outs[k].address, Due(c, skip, outs), totalSize, blockSize);
  }

  lemma SkipsNext(skip: set<bytes>, outs: seq<TxOutput>, k: nat)
    requires k < |outs|
    ensures skip + PaidTo(outs[..k + 1]) == skip + PaidTo(outs[..k]) + {outs[k].address}
  {
    PaidNext(outs, k);
  }

  lemma DueStep(c: Chain, skip: set<bytes>, outs: seq<TxOutput>, k: nat)
    requires k < |outs| && IsDue(c, skip + PaidTo(outs[..k]), outs[k].address)
    ensures Due(c, skip, outs[..k]) + [outs[k].address] == Due(c, skip, outs[..k + 1]) <= Due(c, skip, outs)
  {
    DueNext(c, skip, outs, k);
    DuePrefix(c, skip, outs, k + 1);
  }

  lemma NextToCollapse(c: Chain, ts: seq<Transaction>, first: seq<bytes>, one: Transaction, a: bytes, due: seq<bytes>, totalSize: nat, blockSize: nat)
    requires Collapses(c, ts, first) && |ts| == |first| && first + [a] <= due && CollapseFor(c, one, a)
    requires totalSize + NonFeeSize(ts) + TransactionSize(one) >= blockSize
    ensures Collapses(c, ts, due) && Enough(c, ts, due, totalSize, blockSize)
  {
    assert first <= due && due[|first|] == a by {
      assert (first + [a])[|first|] == a;
    }
    CollapsesFirst(c, ts, first, due);
  }

  /** Inputs and balance of the listed rows, up to a limit. */
  method TakeRows(c: Chain, ks: seq<OutKey>, limit: nat) returns (ins: seq<TxInput>, balance: u64)
    requires Rows(c.env.utxo, ks)
    ensures var n := if |ks| < limit then |ks| else limit;
      Rows(c.env.utxo, ks[..n]) && ins == Inputs(c.env.utxo, ks[..n]) && balance == Wrap(SeqSum(ins, InAmount))
  {
    ins, balance := [], 0;
    var k := 0;
    while k < |ks| && k < limit
      invariant k <= |ks| && k <= limit
      invariant Rows(c.env.utxo, ks[..k]) && ins == Inputs(c.env.utxo, ks[..k])
      invariant balance == Wrap(SeqSum(ins, InAmount))
    {
      TakeRow(c.env.utxo, ks, k);
      var input := InputFor(ks[k], c.env.utxo[ks[k]]);
      TakeAmount(ins, input);
      balance := Wrap(balance + input.amount);
      ins := ins + [input];
      k := k + 1;
    }
  }

  lemma TakeRow(m: UtxoSet, ks: seq<OutKey>, k: nat)
    requires Rows(m, ks) && k < |ks|
    ensures Rows(m, ks[..k]) && Rows(m, ks[..k + 1])
    ensures Inputs(m, ks[..k + 1]) == Inputs(m, ks[..k]) + [InputFor(ks[k], m[ks[k]])]
  {
  }

  lemma TakeAmount(ins: seq<TxInput>, input: TxInput)
    ensures Wrap(Wrap(SeqSum(ins, InAmount)) + input.amount) == Wrap(SeqSum(ins + [input], InAmount))
  {
    SeqSumPush(ins, input, InAmount);
    WrapAdd(SeqSum(ins, InAmount), input.amount);
  }

  method BuildCollapse(c: Chain, a: bytes) returns (t: Transaction)
    requires ValidChain(c)
    ensures Rows(c.env.utxo, CollapseRows(c, a)) && t == Collapsed(c, a)
  {
    CollapseRowsGood(c, a);
    assert Keeps(Listings, c);
    assert OwnedRows(c, a);
    var ins, balance := TakeRows(c, c.owned(a), INPUTS_PER_TX - 1);
    assert |c.owned(a)| < INPUTS_PER_TX - 1 ==> c.owned(a)[..|c.owned(a)|] == c.owned(a);
    assert |c.owned(a)| == INPUTS_PER_TX - 1 ==> c.owned(a)[..INPUTS_PER_TX - 1] == c.owned(a);
    t := New(c, COLLAPSE, ins, [TxOutput(a, balance, [])]);
  }

  // ----- reward transactions

  /** The outputs of a reward map in some order of iteration. */
  ghost predicate RewardOutputs(rewards: map<bytes, u64>, outs: seq<TxOutput>)
  {
    && (forall i | 0 <= i < |outs| :: outs[i].address in rewards && outs[i] == TxOutput(outs[i].address, rewards[outs[i].address], []))
    && (forall i, j | 0 <= i < j < |outs| :: outs[i].address != outs[j].address)
    && (forall a | a in rewards :: exists i | 0 <= i < |outs| :: outs[i].address == a)
  }

  lemma RewardFine(c: Chain, outs: seq<TxOutput>, lo: nat, hi: nat)
    requires ValidChain(c) && RewardOutputs(c.env.rewards, outs) && lo <= hi <= |outs|
    ensures var t := New(c, REWARD, [], outs[lo..hi]); Fine(c.env, c.num, t) && t.kind == REWARD && t.outputs == outs[lo..hi]
  {
    NewFields(c, REWARD, [], outs[lo..hi]);
    FineReward(c.env, c.num, New(c, REWARD, [], outs[lo..hi]));
  }

  ghost predicate IsReward(c: Chain, t: Transaction)
    requires ValidEnv(c.env)
  {
    Fine(c.env, c.num, t) && t.kind == REWARD
  }

  /** The outputs of a list of transactions, one after the other. */
  function AllOutputs(ts: seq<Transaction>): seq<TxOutput>
  {
    if ts == [] then [] else AllOutputs(ts[..|ts| - 1]) + ts[|ts| - 1].outputs
  }

  lemma OutputsPush(ts: seq<Transaction>, t: Transaction)
    ensures AllOutputs(ts + [t]) == AllOutputs(ts) + t.outputs
  {
    assert (ts + [t])[..|ts|] == ts;
  }

  /** Full reward transactions for the outputs up to a point. */
  ghost predicate CutUpTo(c: Chain, outs: seq<TxOutput>, ts: seq<Transaction>, start: nat)
    requires ValidEnv(c.env) && start <= |outs|
  {
    && (forall t | t in ts :: IsReward(c, t) && |t.outputs| == OUTPUTS_PER_TX)
    && AllOutputs(ts) == outs[..start]
  }

  /** A reward transaction for one stretch of the outputs. */
  lemma RewardPushed(c: Chain, outs: seq<TxOutput>, ts: seq<Transaction>, lo: nat, hi: nat, t: Transaction)
    requires ValidChain(c) && RewardOutputs(c.env.rewards, outs) && lo <= hi <= |outs| && CutUpTo(c, outs, ts, lo)
    requires t == New(c, REWARD, [], outs[lo..hi])
    ensures IsReward(c, t) && |t.outputs| == hi - lo && AllOutputs(ts + [t]) == outs[..hi]
    ensures hi - lo == OUTPUTS_PER_TX ==> CutUpTo(c, outs, ts + [t], hi)
  {
    RewardFine(c, outs, lo, hi);
    OutputsPush(ts, t);
    assert outs[..lo] + outs[lo..hi] == outs[..hi];
  }

  /** createRewardTxs: all outputs in their order, cut into transactions of 2000 with a shorter one at the end. */
  method CreateRewardTxs(c: Chain, outs: seq<TxOutput>) returns (ts: seq<Transaction>)
    requires ValidChain(c) && RewardOutputs(c.env.rewards, outs)
    ensures forall t | t in ts :: IsReward(c, t)
    ensures AllOutputs(ts) == outs
    ensures forall i | 0 <= i < |ts| :: 0 < |ts[i].outputs| <= OUTPUTS_PER_TX
    ensures forall i | 0 <= i < |ts| - 1 :: |ts[i].outputs| == OUTPUTS_PER_TX
    ensures outs == [] ==> ts == []
    ensures 0 < |outs| <= OUTPUTS_PER_TX ==> ts == [New(c, REWARD, [], outs)]
  {
    ts := [];
    var start, k := 0, 0;
    while k < |outs|
      invariant 0 <= start <= k <= |outs| && k - start <= OUTPUTS_PER_TX
      invariant CutUpTo(c, outs, ts, start)
      invariant k <= OUTPUTS_PER_TX ==> ts == [] && start == 0
      invariant k > 0 ==> start < k
    {
      if k - start >= OUTPUTS_PER_TX {
        var t := New(c, REWARD, [], outs[start..k]);
        RewardPushed(c, outs, ts, start, k, t);
        ts := ts + [t];
        start := k;
      }
      k := k + 1;
    }
    ts := FinishRewards(c, outs, ts, start);
  }

  /** The last transaction of the rewards. */
  method FinishRewards(c: Chain, outs: seq<TxOutput>, full: seq<Transaction>, start: nat) returns (ts: seq<Transaction>)
    requires ValidChain(c) && RewardOutputs(c.env.rewards, outs) && start <= |outs| <= start + OUTPUTS_PER_TX
    requires CutUpTo(c, outs, full, start) && (outs != [] ==> start < |outs|) && (|outs| <= OUTPUTS_PER_TX ==> full == [] && start == 0)
    ensures (forall t | t in ts :: IsReward(c, t)) && AllOutputs(ts) == outs
    ensures forall i | 0 <= i < |ts| :: 0 < |ts[i].outputs| <= OUTPUTS_PER_TX
    ensures forall i | 0 <= i < |ts| - 1 :: |ts[i].outputs| == OUTPUTS_PER_TX
    ensures if |outs| == 0 then ts == [] else |outs| <= OUTPUTS_PER_TX ==> ts == [New(c, REWARD, [], outs)]
  {
    ts := full;
    assert outs[..|outs|] == outs;
    if |outs| > start {
      var t := New(c, REWARD, [], outs[start..]);
      RewardPushed(c, outs, ts, start, |outs|, t);
      assert start == 0 ==> outs[start..] == outs;
      ts := ts + [t];
      forall i | 0 <= i < |ts| - 1 ensures |ts[i].outputs| == OUTPUTS_PER_TX {
        assert ts[i] in full;
      }
    }
  }

  /** The size of the reward transaction for n recipients. */
  function RewardSize(n: nat): nat
  {
    if n == 0 then 0 else 141 + 36 * n
  }

  lemma {:induction false} PlainOutputsSize(outs: seq<TxOutput>)
    requires forall i | 0 <= i < |outs| :: outs[i].node == []
    ensures OutputsSize(outs) == 36 * |outs|
  {
    if outs != [] {
      PlainOutputsSize(outs[..|outs| - 1]);
    }
  }

  lemma RewardTxSize(c: Chain, outs: seq<TxOutput>)
    requires ValidChain(c) && RewardOutputs(c.env.rewards, outs) && outs != []
    ensures TransactionSize(New(c, REWARD, [], outs)) == RewardSize(|outs|)
  {
    NewFields(c, REWARD, [], outs);
    PlainOutputsSize(outs);
  }

  lemma RewardsComplete(c: Chain, outs: seq<TxOutput>)
    requires ValidChain(c) && RewardOutputs(c.env.rewards, outs)
    ensures RewardRecord([New(c, REWARD, [], outs)]) == c.env.rewards.Keys
  {
    var t := New(c, REWARD, [], outs);
    assert outs[0..|outs|] == outs;
    RewardFine(c, outs, 0, |outs|);
    assert [t][..0] == [];
    assert RewardRecord([t]) == Recipients(t);
  }

  // ----- filing collapse transactions

  ghost function SendersUpTo(ts: seq<Transaction>, n: nat): set<bytes>
    requires n <= |ts|
  {
    set i | 0 <= i < n :: Sender(ts[i])
  }

  /** Collapse transactions that the pool has just filed. */
  ghost predicate JustFiled(c: Chain, ts: seq<Transaction>, before: set<bytes>, after: set<bytes>)
  {
    && before <= after
    && (forall t | t in ts :: IsCollapse(c, t))
    && (forall i | 0 <= i < |ts| :: TxPool.FiledBetween(ts[i], before, after))
    && (forall i, j | 0 <= i < j < |ts| :: TxPool.NoCommonOwner(ts[i], ts[j]))
  }

  lemma FiledSender(c: Chain, ts: seq<Transaction>, before: set<bytes>, after: set<bytes>, i: nat)
    requires ValidChain(c) && JustFiled(c, ts, before, after) && i < |ts|
    ensures Fine(c.env, c.num, ts[i]) && ts[i].kind == COLLAPSE
    ensures Sender(ts[i]) !in before && Sender(ts[i]) in after
    ensures forall j | 0 <= j < i :: Sender(ts[j]) != Sender(ts[i])
  {
    assert ts[i] in ts;
    CollapsedFine(c, Sender(ts[i]));
    assert TxPool.FiledBetween(ts[i], before, after);
    assert Sender(ts[i]) in Owners(ts[i].inputs);
    forall j | 0 <= j < i ensures Sender(ts[j]) != Sender(ts[i]) {
      assert ts[j] in ts;
      CollapsedFine(c, Sender(ts[j]));
      assert TxPool.NoCommonOwner(ts[j], ts[i]);
      assert Sender(ts[j]) in Owners(ts[j].inputs);
    }
  }

  /** No address of the transactions has an entry. */
  ghost predicate AllFree(ts: seq<Transaction>, senders: set<bytes>)
  {
    forall i | 0 <= i < |ts| :: Sender(ts[i]) !in senders
  }

  ghost predicate Spread(ts: seq<Transaction>)
  {
    forall i, j | 0 <= i < j < |ts| :: Sender(ts[i]) != Sender(ts[j])
  }

  lemma CollapsesSpread(c: Chain, ts: seq<Transaction>, skip: set<bytes>, outs: seq<TxOutput>)
    requires ValidChain(c) && Collapses(c, ts, Due(c, skip, outs))
    ensures Spread(ts)
  {
    var due := Due(c, skip, outs);
    DueMeans(c, skip, outs);
    forall i | 0 <= i < |ts| ensures Sender(ts[i]) == due[i] {
      assert due[i] in due && CollapseFor(c, ts[i], due[i]);
      CollapsedFine(c, due[i]);
    }
  }

  ghost predicate OneOwner(t: Transaction)
  {
    Owners(t.inputs) == {Sender(t)}
  }

  lemma {:induction false} FiledKeys(s: TxPool.Held, ts: seq<Transaction>, n: nat)
    requires n <= |ts| && forall i | 0 <= i < |ts| :: OneOwner(ts[i])
    ensures TxPool.WithCollapses(s, ts[..n]).bySender.Keys == s.bySender.Keys + SendersUpTo(ts, n)
  {
    if n > 0 {
      FiledKeys(s, ts, n - 1);
      TxPool.Pool.WithCollapsesPush(s, ts, n - 1);
      OneMoreKey(TxPool.WithCollapses(s, ts[..n - 1]), ts[n - 1]);
      OneMoreSender(ts, n - 1);
      Regroup(s.bySender.Keys, SendersUpTo(ts, n - 1), Sender(ts[n - 1]));
    }
  }

  lemma Regroup(a: set<bytes>, b: set<bytes>, x: bytes)
    ensures a + b + {x} == a + (b + {x})
  {
  }

  lemma OneMoreSender(ts: seq<Transaction>, n: nat)
    requires n < |ts|
    ensures SendersUpTo(ts, n + 1) == SendersUpTo(ts, n) + {Sender(ts[n])}
  {
  }

  lemma OneMoreKey(s: TxPool.Held, t: Transaction)
    requires OneOwner(t)
    ensures TxPool.WithCollapse(s, t).bySender.Keys == s.bySender.Keys + {Sender(t)}
  {
  }

  /** What stops the filing has an entry from before. */
  lemma StoppedByEntry(c: Chain, s: TxPool.Held, ts: seq<Transaction>, n: nat)
    requires ValidChain(c) && n < |ts| && Spread(ts) && forall t | t in ts :: IsCollapse(c, t)
    requires ts[n].kind != COLLAPSE || exists a | a in Owners(ts[n].inputs) :: a in TxPool.WithCollapses(s, ts[..n]).bySender
    ensures !AllFree(ts, s.bySender.Keys)
  {
    forall i | 0 <= i < |ts| ensures OneOwner(ts[i]) && ts[i].kind == COLLAPSE {
      assert ts[i] in ts;
      CollapsedFine(c, Sender(ts[i]));
    }
    FiledKeys(s, ts, n);
    assert Sender(ts[n]) !in SendersUpTo(ts, n);
    assert Sender(ts[n]) in s.bySender.Keys;
  }

  /** The first n of them may join the draft. */
  lemma {:induction false} FiledJoin(c: Chain, d: Draft, used: set<bytes>, ts: seq<Transaction>, before: set<bytes>, after: set<bytes>, n: nat, d': Draft)
    requires ValidChain(c) && JustFiled(c, ts, before, after) && n <= |ts|
    requires Assembled(c.env, c.num, d, used) && used <= before
    requires d'.batch == d.batch && d'.collapse == d.collapse + ts[..n]
    ensures Assembled(c.env, c.num, d', used + SendersUpTo(ts, n))
    ensures SendersUpTo(ts, n) !! before && SendersUpTo(ts, n) <= after
    decreases n
  {
    if n == 0 {
      assert d'.collapse == d.collapse;
      SameParts(c.env, c.num, d, used, d', used + SendersUpTo(ts, n));
    } else {
      var mid := d.(collapse := d.collapse + ts[..n - 1]);
      FiledJoin(c, d, used, ts, before, after, n - 1, mid);
      FiledSender(c, ts, before, after, n - 1);
      assert SendersUpTo(ts, n) == SendersUpTo(ts, n - 1) + {Sender(ts[n - 1])};
      assert d'.collapse == mid.collapse + [ts[n - 1]];
      AddToCollapse(c.env, c.num, mid, used + SendersUpTo(ts, n - 1), ts[n - 1], d', used + SendersUpTo(ts, n));
    }
  }

  /** The draft of the reward part: its size is counted exactly, and no address in use had an entry at the start. */
  ghost predicate RewardDraft(c: Chain, d: Draft, used: set<bytes>, start: set<bytes>, senders: set<bytes>)
    requires ValidEnv(c.env)
  {
    && Assembled(c.env, c.num, d, used)
    && d.total == NonFeeSize(d.batch) + NonFeeSize(d.collapse)
    && start <= senders && used <= senders && used !! start
  }

  // ----- the queue

  /** A queued transaction still waiting to be taken. */
  ghost predicate Waits(t: Transaction, used: set<bytes>, senders: set<bytes>, pending: seq<Transaction>)
  {
    Sender(t) in senders && Sender(t) !in used && t in pending
  }

  ghost predicate KeepsWaiting(x: Transaction, t: Transaction, used: set<bytes>, senders: set<bytes>, pending: seq<Transaction>,
                               used': set<bytes>, senders': set<bytes>, pending': seq<Transaction>)
  {
    Sender(x) != Sender(t) && Waits(x, used, senders, pending) ==> Waits(x, used', senders', pending')
  }

  /** Others than t go on waiting. */
  ghost predicate OthersWait(t: Transaction, used: set<bytes>, senders: set<bytes>, pending: seq<Transaction>,
                             used': set<bytes>, senders': set<bytes>, pending': seq<Transaction>)
  {
    forall x: Transaction :: KeepsWaiting(x, t, used, senders, pending, used', senders', pending')
  }

  lemma GoOnWaiting(t: Transaction, used: set<bytes>, senders: set<bytes>, pending: seq<Transaction>,
                    used': set<bytes>, senders': set<bytes>, pending': seq<Transaction>)
    requires senders - {Sender(t)} <= senders'
    requires forall a | a in used' && a !in used :: a == Sender(t) || a !in senders
    requires forall x | x in pending && x != t :: x in pending'
    ensures OthersWait(t, used, senders, pending, used', senders', pending')
  {
    forall x: Transaction ensures KeepsWaiting(x, t, used, senders, pending, used', senders', pending') {
      assert Sender(x) in senders && Sender(x) != Sender(t) ==> Sender(x) in senders - {Sender(t)};
    }
  }

  lemma NothingMoves(t: Transaction, used: set<bytes>, senders: set<bytes>, pending: seq<Transaction>)
    ensures OthersWait(t, used, senders, pending, used, senders, pending)
  {
    forall x: Transaction ensures KeepsWaiting(x, t, used, senders, pending, used, senders, pending) { }
  }

  /** The size counted covers the parts, and went beyond the rewards' size only within the block size. */
  ghost predicate Sized(d: Draft, rewardSize: nat, blockSize: nat)
  {
    && rewardSize <= NonFeeSize(d.batch) + NonFeeSize(d.collapse) <= d.total
    && (d.total == rewardSize || d.total <= blockSize)
  }

  /** No address holds enough outputs to be collapsed. */
  ghost predicate NoneCollapsible(c: Chain)
  {
    forall a: bytes :: !Collapsible(c, a)
  }

  /** The size counted is the size of the parts, unless collapse transactions were built and refused. */
  ghost predicate Exact(c: Chain, d: Draft)
  {
    NoneCollapsible(c) ==> d.total == NonFeeSize(d.batch) + NonFeeSize(d.collapse)
  }

  /** A queued transaction that was neither evicted nor a stake is in the batch. */
  ghost predicate TakenAt(queue: seq<Transaction>, dropped: set<bytes>, batch: seq<Transaction>, j: nat)
    requires j < |queue|
  {
    queue[j].hash !in dropped && queue[j].kind != STAKE ==> queue[j] in batch
  }

  ghost predicate Taken(queue: seq<Transaction>, k: nat, dropped: set<bytes>, batch: seq<Transaction>)
    requires k <= |queue|
  {
    forall j | 0 <= j < k :: TakenAt(queue, dropped, batch, j)
  }

  /** Why the loop over the queue ends early: the count is reached, or the next transaction does not fit. */
  ghost predicate Stopped(queue: seq<Transaction>, d: Draft, limit: int, blockSize: nat)
  {
    |d.batch| + |d.collapse| == limit || exists t :: t in queue && d.total + TransactionSize(t) > blockSize
  }

  /** The count is reached, or the transaction at position k does not fit. */
  ghost predicate StoppedAt(queue: seq<Transaction>, k: nat, d: Draft, limit: int, blockSize: nat)
  {
    k < |queue| && (|d.batch| + |d.collapse| == limit || d.total + TransactionSize(queue[k]) > blockSize)
  }

  /**
   Why a block with n transactions in front, of which some came with the rewards, takes nothing from position k of the
   queue on: their count, or the size of the transaction there.
   */
  ghost predicate FullAt(queue: seq<Transaction>, k: nat, rewards: nat, n: nat, total: nat, blockSize: nat)
  {
    && k < |queue|
    && (|| n == (if |queue| < 1000 then |queue| + rewards + 1 else 1000 - rewards - 1)
        || total + TransactionSize(queue[k]) > blockSize)
  }

  lemma TakenMore(queue: seq<Transaction>, k: nat, dropped: set<bytes>, batch: seq<Transaction>, batch': seq<Transaction>)
    requires k < |queue| && Taken(queue, k, dropped, batch) && TakenAt(queue, dropped, batch', k)
    requires batch' == batch || batch' == batch + [queue[k]]
    ensures Taken(queue, k + 1, dropped, batch')
  {
    forall j | 0 <= j < k + 1 ensures TakenAt(queue, dropped, batch', j) {
      if j < k { assert TakenAt(queue, dropped, batch, j); }
    }
  }

  // ----- system unstakes

  /** A transaction of the batch that keeps the elector's deposits on the validator out of this block. */
  ghost predicate Blocks(t: Transaction, validator: bytes, elector: bytes)
  {
    || t.kind == STAKE || t.kind == UNSTAKE
    || (exists i | 0 <= i < |t.outputs| :: t.outputs[i].address == elector && Address(t.outputs[i].node) == validator)
    || (exists i | 0 <= i < |t.inputs| :: t.inputs[i].address == elector && Address(t.inputs[i].node) == validator)
  }

  method KeepsOut(t: Transaction, validator: bytes, elector: bytes) returns (b: bool)
    ensures b <==> Blocks(t, validator, elector)
  {
    if t.kind == STAKE || t.kind == UNSTAKE { return true; }
    for i := 0 to |t.outputs|
      invariant forall j | 0 <= j < i :: !(t.outputs[j].address == elector && Address(t.outputs[j].node) == validator)
    {
      if Address(t.outputs[i].node) == validator && t.outputs[i].address == elector { return true; }
    }
    for i := 0 to |t.inputs|
      invariant forall j | 0 <= j < i :: !(t.inputs[j].address == elector && Address(t.inputs[j].node) == validator)
    {
      if Address(t.inputs[i].node) == validator && t.inputs[i].address == elector { return true; }
    }
    return false;
  }

  method Blocked(ts: seq<Transaction>, validator: bytes, elector: bytes) returns (b: bool)
    ensures !b <==> forall t | t in ts :: !Blocks(t, validator, elector)
  {
    for k := 0 to |ts|
      invariant forall t | t in ts[..k] :: !Blocks(t, validator, elector)
    {
      var keepsOut := KeepsOut(ts[k], validator, elector);
      if keepsOut { return true; }
      assert ts[..k + 1] == ts[..k] + [ts[k]];
    }
    assert ts[..|ts|] == ts;
    return false;
  }

  function DepositKeys(c: Chain, validator: bytes, elector: bytes): seq<OutKey>
  {
    var ks := c.deposits(elector, validator);
    if |ks| < INPUTS_PER_TX then ks[..|ks|] else ks[..INPUTS_PER_TX]
  }

  datatype Pending = Pending(validator: bytes, elector: bytes)

  function PendingClaim(p: Pending): Claim
  {
    Deposited(p.elector, p.validator)
  }

  /** The transaction that pays a pair's deposits back: with no inputs when there are none. */
  ghost function Repayment(c: Chain, p: Pending): Transaction
    requires Rows(c.env.utxo, DepositKeys(c, p.validator, p.elector))
  {
    var ins := Inputs(c.env.utxo, DepositKeys(c, p.validator, p.elector));
    New(c, SYSTEM_UNSTAKE, ins, [TxOutput(p.elector, Wrap(SeqSum(ins, InAmount)), [])])
  }

  lemma RepaymentRows(c: Chain, p: Pending)
    requires ValidChain(c) && p.validator != []
    ensures var ks := DepositKeys(c, p.validator, p.elector);
      && Rows(c.env.utxo, ks) && |ks| <= INPUTS_PER_TX && (ks == [] <==> c.deposits(p.elector, p.validator) == [])
      && forall i | 0 <= i < |ks| :: IsDeposit(c.env.utxo[ks[i]], p.elector, p.validator)
  {
    assert Keeps(Listings, c);
    assert DepositRows(c, p.elector, p.validator);
  }

  lemma RepaymentFields(c: Chain, p: Pending)
    requires ValidChain(c) && Rows(c.env.utxo, DepositKeys(c, p.validator, p.elector))
    ensures var t := Repayment(c, p);
      && t.kind == SYSTEM_UNSTAKE && t.num == c.num && t.fee == 0 && t.data == []
      && t.inputs == Inputs(c.env.utxo, DepositKeys(c, p.validator, p.elector))
      && t.outputs == [TxOutput(p.elector, Wrap(SeqSum(t.inputs, InAmount)), [])]
  {
    var ins := Inputs(c.env.utxo, DepositKeys(c, p.validator, p.elector));
    NewFields(c, SYSTEM_UNSTAKE, ins, [TxOutput(p.elector, Wrap(SeqSum(ins, InAmount)), [])]);
  }

  lemma RepaymentFine(c: Chain, p: Pending)
    requires ValidChain(c) && p.validator != [] && c.deposits(p.elector, p.validator) != []
    ensures Rows(c.env.utxo, DepositKeys(c, p.validator, p.elector))
    ensures var t := Repayment(c, p);
      !Hollow(t) && t.kind == SYSTEM_UNSTAKE && Fine(c.env, c.num, t) && ClaimOf(t) == PendingClaim(p)
  {
    assert Keeps(Promise.Ledger, c);
    RepaymentRows(c, p);
    RepaymentFields(c, p);
    FineUnstake(c.env, c.num, DepositKeys(c, p.validator, p.elector), p.validator, p.elector, Repayment(c, p));
  }

  /** Without deposits the forger builds a transaction of 177 bytes that no validator accepts. */
  lemma RepaymentHollow(c: Chain, p: Pending)
    requires ValidChain(c) && p.validator != [] && c.deposits(p.elector, p.validator) == []
    ensures Rows(c.env.utxo, DepositKeys(c, p.validator, p.elector))
    ensures var t := Repayment(c, p);
      t.kind == SYSTEM_UNSTAKE && t.inputs == [] && TransactionSize(t) == HOLLOW_SIZE && !SystemUnstakeOk(c.env, c.num, t)
  {
    RepaymentRows(c, p);
    RepaymentFields(c, p);
    PlainOutputsSize(Repayment(c, p).outputs);
  }

  /** The size of a system unstake without inputs. */
  const HOLLOW_SIZE: nat := 177

  method BuildUnstake(c: Chain, p: Pending) returns (t: Transaction)
    requires ValidChain(c) && p.validator != []
    ensures Rows(c.env.utxo, DepositKeys(c, p.validator, p.elector)) && t == Repayment(c, p)
  {
    assert Keeps(Listings, c);
    assert DepositRows(c, p.elector, p.validator);
    var ins, amount := TakeRows(c, c.deposits(p.elector, p.validator), INPUTS_PER_TX);
    t := New(c, SYSTEM_UNSTAKE, ins, [TxOutput(p.elector, amount, [])]);
  }

  ghost predicate DistinctPairs(pairs: seq<Pending>)
  {
    forall i, j | 0 <= i < j < |pairs| :: pairs[i] != pairs[j]
  }

  /** The pairs of the snapshot, in some order of iteration over both levels of the map. */
  ghost predicate Iterates(pairs: seq<Pending>, snapshot: Snapshot)
  {
    && DistinctPairs(pairs)
    && (forall p | p in pairs :: p.validator in snapshot && p.elector in snapshot[p.validator])
    && (forall v, e | v in snapshot && e in snapshot[v] :: Pending(v, e) in pairs)
  }

  method PendingPairs(snapshot: Snapshot) returns (pairs: seq<Pending>)
    ensures Iterates(pairs, snapshot)
  {
    pairs := [];
    var validators := snapshot.Keys;
    while validators != {}
      invariant validators <= snapshot.Keys && DistinctPairs(pairs)
      invariant forall p :: p in pairs <==> p.validator in snapshot && p.elector in snapshot[p.validator] && p.validator !in validators
      decreases validators
    {
      var v :| v in validators;
      var electors := snapshot[v].Keys;
      while electors != {}
        invariant electors <= snapshot[v].Keys && DistinctPairs(pairs)
        invariant forall p :: p in pairs <==>
          && p.validator in snapshot && p.elector in snapshot[p.validator]
          && (p.validator !in validators || (p.validator == v && p.elector !in electors))
        decreases electors
      {
        var e :| e in electors;
        assert Pending(v, e) !in pairs;
        pairs := pairs + [Pending(v, e)];
        electors := electors - {e};
      }
      validators := validators - {v};
    }
  }

  ghost predicate Untouched(pairs: seq<Pending>, k: nat, claims: set<Claim>)
    requires k <= |pairs|
  {
    forall i | k <= i < |pairs| :: PendingClaim(pairs[i]) !in claims
  }

  lemma TouchOne(pairs: seq<Pending>, k: nat, claims: set<Claim>)
    requires k < |pairs| && DistinctPairs(pairs) && Untouched(pairs, k, claims)
    ensures Untouched(pairs, k + 1, claims) && Untouched(pairs, k + 1, claims + {PendingClaim(pairs[k])})
  {
    forall i | k < i < |pairs| ensures PendingClaim(pairs[i]) != PendingClaim(pairs[k]) {
      assert pairs[i] != pairs[k];
    }
  }

  // ----- which repayments go into the block

  /** No transaction of the front part keeps the pair out. */
  ghost predicate Unblocked(front: seq<Transaction>, p: Pending)
  {
    forall t | t in front :: !Blocks(t, p.validator, p.elector)
  }

  ghost predicate Listed(c: Chain, pairs: seq<Pending>)
  {
    forall i | 0 <= i < |pairs| :: Rows(c.env.utxo, DepositKeys(c, pairs[i].validator, pairs[i].elector))
  }

  /** The repayments of the pairs that are not blocked and still fit, in the order of iteration. */
  ghost function Chosen(c: Chain, front: seq<Transaction>, room: Room, pairs: seq<Pending>): seq<Transaction>
    requires Listed(c, pairs)
  {
    if pairs == [] then []
    else
      var before := Chosen(c, front, room, pairs[..|pairs| - 1]);
      var t := Repayment(c, pairs[|pairs| - 1]);
      if Unblocked(front, pairs[|pairs| - 1]) && room.total + NonFeeSize(before) + TransactionSize(t) <= room.blockSize
      then before + [t] else before
  }

  /** The size counted when the repayments are built, and the limit. */
  datatype Room = Room(total: nat, blockSize: nat)

  lemma ChosenNext(c: Chain, front: seq<Transaction>, room: Room, pairs: seq<Pending>, k: nat)
    requires k < |pairs| && Listed(c, pairs)
    ensures var before, t := Chosen(c, front, room, pairs[..k]), Repayment(c, pairs[k]);
      Chosen(c, front, room, pairs[..k + 1]) ==
        if Unblocked(front, pairs[k]) && room.total + NonFeeSize(before) + TransactionSize(t) <= room.blockSize
        then before + [t] else before
  {
    assert pairs[..k + 1][..k] == pairs[..k];
  }

  /** What is chosen fits, and beside a stake or unstake nothing is. */
  lemma {:induction false} ChosenFits(c: Chain, front: seq<Transaction>, room: Room, pairs: seq<Pending>)
    requires ValidChain(c) && Listed(c, pairs)
    ensures var us := Chosen(c, front, room, pairs);
      us != [] ==> room.total + NonFeeSize(us) <= room.blockSize && forall t | t in front :: t.kind != STAKE && t.kind != UNSTAKE
  {
    if pairs != [] {
      var k := |pairs| - 1;
      ChosenFits(c, front, room, pairs[..k]);
      RepaymentFields(c, pairs[k]);
      SizePush(Chosen(c, front, room, pairs[..k]), Repayment(c, pairs[k]));
    }
  }

  /** A pair without deposits that is not blocked and whose 177 bytes fit at its turn. */
  ghost predicate GetsThrough(c: Chain, front: seq<Transaction>, room: Room, pairs: seq<Pending>, k: nat)
    requires k < |pairs| && Listed(c, pairs)
  {
    && c.deposits(pairs[k].elector, pairs[k].validator) == []
    && Unblocked(front, pairs[k])
    && room.total + NonFeeSize(Chosen(c, front, room, pairs[..k])) + HOLLOW_SIZE <= room.blockSize
  }

  ghost predicate ByName(pairs: seq<Pending>)
  {
    forall i | 0 <= i < |pairs| :: pairs[i].validator != []
  }

  lemma ByNameListed(c: Chain, pairs: seq<Pending>)
    requires ValidChain(c) && ByName(pairs)
    ensures Listed(c, pairs)
  {
    forall i | 0 <= i < |pairs| ensures Rows(c.env.utxo, DepositKeys(c, pairs[i].validator, pairs[i].elector)) {
      RepaymentRows(c, pairs[i]);
    }
  }

  ghost predicate SomeHollow(ts: seq<Transaction>)
  {
    exists i | 0 <= i < |ts| :: Hollow(ts[i])
  }

  lemma HollowConcat(a: seq<Transaction>, b: seq<Transaction>)
    ensures SomeHollow(a + b) <==> SomeHollow(a) || SomeHollow(b)
  {
    if SomeHollow(b) {
      var i :| 0 <= i < |b| && Hollow(b[i]);
      assert (a + b)[|a| + i] == b[i];
    }
    if SomeHollow(a) {
      var i :| 0 <= i < |a| && Hollow(a[i]);
      assert (a + b)[i] == a[i];
    }
  }

  /** The pair is hollow and its repayment is taken. */
  lemma TurnOf(c: Chain, front: seq<Transaction>, room: Room, pairs: seq<Pending>)
    requires ValidChain(c) && ByName(pairs) && Listed(c, pairs) && pairs != []
    ensures var k := |pairs| - 1; var before := Chosen(c, front, room, pairs[..k]);
      SomeHollow(Chosen(c, front, room, pairs)) <==> SomeHollow(before) || GetsThrough(c, front, room, pairs, k)
  {
    var p := pairs[|pairs| - 1];
    var before, t := Chosen(c, front, room, pairs[..|pairs| - 1]), Repayment(c, p);
    if c.deposits(p.elector, p.validator) == [] {
      RepaymentHollow(c, p);
    } else {
      RepaymentFine(c, p);
    }
    HollowConcat(before, [t]);
    assert SomeHollow([t]) <==> Hollow(t) by { assert [t][0] == t; }
  }

  ghost predicate Through(c: Chain, front: seq<Transaction>, room: Room, pairs: seq<Pending>)
    requires Listed(c, pairs)
  {
    exists k | 0 <= k < |pairs| :: GetsThrough(c, front, room, pairs, k)
  }

  lemma SameTurn(c: Chain, front: seq<Transaction>, room: Room, pairs: seq<Pending>, k: nat)
    requires Listed(c, pairs) && k < |pairs| - 1
    ensures GetsThrough(c, front, room, pairs[..|pairs| - 1], k) <==> GetsThrough(c, front, room, pairs, k)
  {
    assert pairs[..|pairs| - 1][..k] == pairs[..k];
  }

  lemma StillThrough(c: Chain, front: seq<Transaction>, room: Room, pairs: seq<Pending>)
    requires Listed(c, pairs) && pairs != [] && Through(c, front, room, pairs[..|pairs| - 1])
    ensures Through(c, front, room, pairs)
  {
    var k :| 0 <= k < |pairs| - 1 && GetsThrough(c, front, room, pairs[..|pairs| - 1], k);
    SameTurn(c, front, room, pairs, k);
  }

  lemma ThroughStep(c: Chain, front: seq<Transaction>, room: Room, pairs: seq<Pending>)
    requires Listed(c, pairs) && pairs != []
    ensures Through(c, front, room, pairs) <==>
      Through(c, front, room, pairs[..|pairs| - 1]) || GetsThrough(c, front, room, pairs, |pairs| - 1)
  {
    if Through(c, front, room, pairs[..|pairs| - 1]) {
      StillThrough(c, front, room, pairs);
    } else if Through(c, front, room, pairs) {
      var k :| 0 <= k < |pairs| && GetsThrough(c, front, room, pairs, k);
      if k < |pairs| - 1 { SameTurn(c, front, room, pairs, k); }
    }
  }

  /** An empty repayment is among the chosen ones exactly when some pair gets through. */
  lemma {:induction false} HollowIffThrough(c: Chain, front: seq<Transaction>, room: Room, pairs: seq<Pending>)
    requires ValidChain(c) && ByName(pairs) && Listed(c, pairs)
    ensures SomeHollow(Chosen(c, front, room, pairs)) <==> Through(c, front, room, pairs)
  {
    if pairs != [] {
      HollowIffThrough(c, front, room, pairs[..|pairs| - 1]);
      TurnOf(c, front, room, pairs);
      ThroughStep(c, front, room, pairs);
    }
  }

  /** In any order nothing gets through beside a stake or unstake, without 177 bytes of room, or when all pairs have deposits. */
  lemma NothingThrough(c: Chain, front: seq<Transaction>, room: Room, pairs: seq<Pending>, k: nat)
    requires k < |pairs| && Listed(c, pairs)
    requires
      || (exists t | t in front :: t.kind == STAKE || t.kind == UNSTAKE)
      || room.total + HOLLOW_SIZE > room.blockSize
      || (forall p | p in pairs :: c.deposits(p.elector, p.validator) != [])
    ensures !GetsThrough(c, front, room, pairs, k)
  {
    assert pairs[k] in pairs;
  }

  ghost function AllSizes(c: Chain, pairs: seq<Pending>): nat
    requires Listed(c, pairs)
  {
    if pairs == [] then 0 else AllSizes(c, pairs[..|pairs| - 1]) + TransactionSize(Repayment(c, pairs[|pairs| - 1]))
  }

  lemma {:induction false} ChosenSize(c: Chain, front: seq<Transaction>, room: Room, pairs: seq<Pending>)
    requires ValidChain(c) && Listed(c, pairs)
    ensures NonFeeSize(Chosen(c, front, room, pairs)) <= AllSizes(c, pairs)
  {
    if pairs != [] {
      var t := Repayment(c, pairs[|pairs| - 1]);
      RepaymentFields(c, pairs[|pairs| - 1]);
      ChosenSize(c, front, room, pairs[..|pairs| - 1]);
      SizePush(Chosen(c, front, room, pairs[..|pairs| - 1]), t);
    }
  }

  lemma {:induction false} SizesGrow(c: Chain, pairs: seq<Pending>, k: nat)
    requires Listed(c, pairs) && k < |pairs|
    ensures AllSizes(c, pairs[..k]) + TransactionSize(Repayment(c, pairs[k])) <= AllSizes(c, pairs)
    decreases |pairs|
  {
    if k < |pairs| - 1 {
      assert pairs[..|pairs| - 1][..k] == pairs[..k];
      SizesGrow(c, pairs[..|pairs| - 1], k);
    }
  }

  /** With room for all of them a pair without deposits that is not blocked gets through in any order. */
  lemma AlwaysThrough(c: Chain, front: seq<Transaction>, room: Room, pairs: seq<Pending>, k: nat)
    requires ValidChain(c) && ByName(pairs) && Listed(c, pairs) && k < |pairs|
    requires c.deposits(pairs[k].elector, pairs[k].validator) == [] && Unblocked(front, pairs[k])
    requires room.total + AllSizes(c, pairs) <= room.blockSize
    ensures GetsThrough(c, front, room, pairs, k)
  {
    RepaymentHollow(c, pairs[k]);
    SizesGrow(c, pairs, k);
    ChosenSize(c, front, room, pairs[..k]);
  }

  /** The system unstakes collected so far: fine or hollow, apart, and each claiming a pair that was its turn. */
  ghost predicate Unstakes(c: Chain, us: seq<Transaction>, claims: set<Claim>)
    requires ValidEnv(c.env)
  {
    && Apart(us)
    && (forall u | u in us :: Hollow(u) || Fine(c.env, c.num, u))
    && (forall u | u in us :: u.kind == SYSTEM_UNSTAKE && (Hollow(u) || (ClaimOf(u).Deposited? && ClaimOf(u) in claims)))
  }

  lemma UnstakesPush(c: Chain, us: seq<Transaction>, claims: set<Claim>, t: Transaction, claim: Claim)
    requires ValidEnv(c.env) && Unstakes(c, us, claims) && t.kind == SYSTEM_UNSTAKE
    requires Hollow(t) || (Fine(c.env, c.num, t) && ClaimOf(t) == claim)
    requires claim.Deposited? && claim !in claims
    ensures Unstakes(c, us + [t], claims + {claim})
  {
    assert Clear(us, [t]);
    PushApart(us, t);
  }

  lemma RepaymentJoins(c: Chain, us: seq<Transaction>, claims: set<Claim>, p: Pending)
    requires ValidChain(c) && Unstakes(c, us, claims) && p.validator != [] && PendingClaim(p) !in claims
    requires Rows(c.env.utxo, DepositKeys(c, p.validator, p.elector))
    ensures Unstakes(c, us + [Repayment(c, p)], claims + {PendingClaim(p)})
    ensures NonFeeSize(us + [Repayment(c, p)]) == NonFeeSize(us) + TransactionSize(Repayment(c, p))
  {
    if c.deposits(p.elector, p.validator) == [] {
      RepaymentHollow(c, p);
    } else {
      RepaymentFine(c, p);
    }
    SizePush(us, Repayment(c, p));
    UnstakesPush(c, us, claims, Repayment(c, p), PendingClaim(p));
  }

  // ----- the fee

  lemma FeeStep(ts: seq<Transaction>, k: nat)
    requires k < |ts|
    ensures Wrap(Wrap(SeqSum(ts[..k], FeeOf)) + RealFee(ts[k])) == Wrap(SeqSum(ts[..k + 1], FeeOf))
  {
    WrappedPush(ts, k, FeeOf);
  }

  lemma WrappedPush<T>(s: seq<T>, k: nat, w: T -> nat)
    requires k < |s|
    ensures Wrap(Wrap(SeqSum(s[..k], w)) + w(s[k])) == Wrap(SeqSum(s[..k + 1], w))
  {
    assert s[..k + 1] == s[..k] + [s[k]];
    SeqSumPush(s[..k], s[k], w);
    WrapAdd(SeqSum(s[..k], w), w(s[k]));
  }

  /** createFeeTx; None when there is no fee to pay out. */
  method CreateFeeTx(c: Chain, ts: seq<Transaction>) returns (r: Option<Transaction>)
    requires ValidChain(c)
    ensures r.None? <==> Wrap(SeqSum(ts, FeeOf)) == 0
    ensures r.Some? ==> FeeTxFor(c.num, ts, r.value)
  {
    var amount: u64 := 0;
    for k := 0 to |ts|
      invariant amount == Wrap(SeqSum(ts[..k], FeeOf))
    {
      FeeStep(ts, k);
      amount := Wrap(amount + RealFee(ts[k]));
    }
    assert ts[..|ts|] == ts;
    if amount == 0 { return None; }
    NewFields(c, FEE, [], [TxOutput(BLACK_HOLE, amount, [])]);
    return Some(New(c, FEE, [], [TxOutput(BLACK_HOLE, amount, [])]));
  }

  /** GetRewardOutputs: one output for each entry of the reward map. */
  method ListRewards(rewards: map<bytes, u64>) returns (outs: seq<TxOutput>)
    ensures RewardOutputs(rewards, outs) && |outs| == |rewards|
  {
    outs := [];
    var todo := rewards.Keys;
    ghost var place: map<bytes, nat> := map[];
    while todo != {}
      invariant todo <= rewards.Keys && |outs| + |todo| == |rewards|
      invariant place.Keys == rewards.Keys - todo
      invariant forall a | a in place :: place[a] < |outs| && outs[place[a]].address == a
      invariant forall i | 0 <= i < |outs| :: outs[i].address in place && place[outs[i].address] == i
      invariant forall i | 0 <= i < |outs| ::
        outs[i].address in rewards && outs[i] == TxOutput(outs[i].address, rewards[outs[i].address], [])
      decreases todo
    {
      var a :| a in todo;
      place := place[a := |outs|];
      outs := outs + [TxOutput(a, rewards[a], [])];
      todo := todo - {a};
    }
    forall a | a in rewards ensures exists i | 0 <= i < |outs| :: outs[i].address == a {
      assert a in place.Keys;
      assert outs[place[a]].address == a;
    }
  }

  /** The queue from position k on: waiting, with senders of their own. */
  ghost predicate QueueWaits(queue: seq<Transaction>, k: nat, used: set<bytes>, senders: set<bytes>, pending: seq<Transaction>)
    requires k <= |queue|
  {
    forall j | k <= j < |queue| :: Waits(queue[j], used, senders, pending)
  }

  lemma QueueGoesOn(queue: seq<Transaction>, k: nat, used: set<bytes>, senders: set<bytes>, pending: seq<Transaction>,
                    used': set<bytes>, senders': set<bytes>, pending': seq<Transaction>)
    requires k < |queue| && OwnSenders(queue) && QueueWaits(queue, k, used, senders, pending)
    requires OthersWait(queue[k], used, senders, pending, used', senders', pending')
    ensures QueueWaits(queue, k + 1, used', senders', pending')
  {
    forall j | k + 1 <= j < |queue| ensures Waits(queue[j], used', senders', pending') {
      assert Sender(queue[k]) != Sender(queue[j]);
      assert KeepsWaiting(queue[j], queue[k], used, senders, pending, used', senders', pending');
    }
  }

  /** A sorted pool queue waits as a whole: its senders are distinct and none is in use. */
  lemma PoolQueueWaits(s: TxPool.Held, used: set<bytes>, senders: set<bytes>)
    requires TxPool.Agree(s) && s.bySender.Keys <= senders && used !! s.bySender.Keys
    ensures OwnSenders(s.pending) && QueueWaits(s.pending, 0, used, senders, s.pending)
  {
    forall i, j | 0 <= i < j < |s.pending| ensures Sender(s.pending[i]) != Sender(s.pending[j]) {
      TxPool.DistinctSenders(s, i, j);
    }
    forall j | 0 <= j < |s.pending| ensures Waits(s.pending[j], used, senders, s.pending) {
      TxPool.HoldsQueued(s, s.pending[j]);
      assert Sender(s.pending[j]) in TxPool.SendersOf(s.pending[j]);
      assert Sender(s.pending[j]) in s.bySender.Keys;
    }
  }

  ghost predicate SendersFiled(queue: seq<Transaction>, senders: set<bytes>)
  {
    forall j | 0 <= j < |queue| :: Sender(queue[j]) in senders
  }

  lemma QueueStillWaits(queue: seq<Transaction>, senders: set<bytes>, used: set<bytes>, senders': set<bytes>)
    requires SendersFiled(queue, senders) && senders <= senders' && used !! senders
    ensures QueueWaits(queue, 0, used, senders', queue)
  {
    forall j | 0 <= j < |queue| ensures Waits(queue[j], used, senders', queue) {
      assert Sender(queue[j]) in senders;
    }
  }

  // ----- the finished block

  /** Collapse transactions and system unstakes follow the batch; all claims stay apart. */
  lemma WholeApart(c: Chain, d: Draft, used: set<bytes>, us: seq<Transaction>, claims: set<Claim>)
    requires ValidEnv(c.env) && Assembled(c.env, c.num, d, used) && Unstakes(c, us, claims)
    requires us != [] ==> forall t | t in d.batch + d.collapse :: t.kind != STAKE && t.kind != UNSTAKE
    ensures AllForged(c.env, c.num, d.batch + (d.collapse + us)) && Apart(d.batch + (d.collapse + us))
  {
    assert Fits(c.env, c.num, d, used);
    assert d.batch + (d.collapse + us) == d.batch + d.collapse + us;
    ApartConcat(d.batch, d.collapse);
    var both := d.batch + d.collapse;
    forall t, u | t in both && u in us ensures !Overlap(ClaimOf(t), ClaimOf(u)) {
      assert Hollow(u) || ClaimOf(u).Deposited?;
      assert t in d.batch || t in d.collapse;
    }
    ApartConcat(both, us);
  }

  lemma {:induction false} StakesConcat(a: seq<Transaction>, b: seq<Transaction>)
    requires forall t | t in b :: t.kind != STAKE
    ensures StakesOf(a + b) == StakesOf(a)
  {
    if b == [] {
      assert a + b == a;
    } else {
      var init := b[..|b| - 1];
      assert b[|b| - 1] in b;
      StakesConcat(a, init);
      assert (a + b)[..|a + b| - 1] == a + init;
      assert StakesOf(a) + [] == StakesOf(a);
    }
  }

  /** Everything after the batch leaves stakes and rewards as they are. */
  lemma WholeStakes(num: u64, batch: seq<Transaction>, rest: seq<Transaction>, all: seq<Transaction>)
    requires (forall t | t in rest :: t.kind != STAKE && t.kind != REWARD) && Finished(num, batch + rest, all)
    ensures StakesOf(all) == StakesOf(batch) && RewardRecord(all) == RewardRecord(batch)
    ensures NonFeeSize(all) == NonFeeSize(batch) + NonFeeSize(rest)
  {
    var tail := FinishedTail(num, batch, rest, all);
    StakesConcat(batch, tail);
    RecordStays(batch, tail);
    SizeConcat(batch, tail);
  }

  lemma RecordStays(batch: seq<Transaction>, tail: seq<Transaction>)
    requires forall t | t in tail :: t.kind != REWARD
    ensures RewardRecord(batch + tail) == RewardRecord(batch)
  {
    RecordConcat(batch, tail);
    NoRewards(tail);
  }

  lemma FinishedTail(num: u64, batch: seq<Transaction>, rest: seq<Transaction>, all: seq<Transaction>) returns (tail: seq<Transaction>)
    requires (forall t | t in rest :: t.kind != STAKE && t.kind != REWARD) && Finished(num, batch + rest, all)
    ensures all == batch + tail && NonFeeSize(tail) == NonFeeSize(rest)
    ensures forall t | t in tail :: t.kind != STAKE && t.kind != REWARD
  {
    if all == batch + rest {
      tail := rest;
    } else {
      var fee := all[|batch + rest|];
      tail := rest + [fee];
      assert all == batch + rest + [fee];
      assert tail[..|rest|] == rest;
      assert batch + rest + [fee] == batch + tail;
    }
  }

  // ----- the object

  ghost predicate KnownCollapse(c: Chain, known: iset<Transaction>, a: bytes)
  {
    Collapsible(c, a) ==> Rows(c.env.utxo, CollapseRows(c, a)) && Collapsed(c, a) in known
  }

  ghost predicate JudgedAt(c: Chain, ts: seq<Transaction>, i: nat)
    requires ValidEnv(c.env) && i < |ts|
  {
    TxOk(c.env, c.num, ts, ts[i]) <==> Good(c.env, ts[i])
  }

  /** The validator passes exactly the good transactions of the block; if all are good the block balances. */
  ghost predicate Judged(c: Chain, ts: seq<Transaction>)
    requires ValidEnv(c.env)
  {
    && (forall i | 0 <= i < |ts| :: JudgedAt(c, ts, i))
    && (AllGood(c.env, ts) ==> BalanceOk(ts) && NoLooseInputs(ts))
  }

  /** Every standard transaction of the list passes now. */
  ghost predicate StandardsPass(env: Env, ts: seq<Transaction>)
    requires ValidEnv(env)
  {
    forall t | t in ts && IsStandard(t.kind) :: StandardOk(env, t)
  }

  /** Every pending pair has deposits. */
  ghost predicate Payable(c: Chain, snapshot: Snapshot)
  {
    forall v, e | v in snapshot && e in snapshot[v] :: c.deposits(e, v) != []
  }

  lemma PayableNothing(c: Chain, snapshot: Snapshot, front: seq<Transaction>, room: Room, pairs: seq<Pending>)
    requires Iterates(pairs, snapshot) && Listed(c, pairs)
    ensures Payable(c, snapshot) ==> !Through(c, front, room, pairs)
  {
    if Payable(c, snapshot) {
      forall k | 0 <= k < |pairs| ensures !GetsThrough(c, front, room, pairs, k) {
        assert pairs[k] in pairs;
      }
    }
  }

  lemma AcceptedWhen(c: Chain, ts: seq<Transaction>, through: bool, fits: bool)
    requires ValidEnv(c.env) && Judged(c, ts) && (SomeHollow(ts) <==> through)
    requires RewardRecord(ts) == c.env.rewards.Keys && (NonFeeSize(ts) <= c.env.cfg.blockSize <==> fits)
    ensures Accepted(c.env, c.num, ts) <==> fits && StandardsPass(c.env, ts) && !through
  {
    GoodMeans(c.env, ts);
    assert |c.env.rewards.Keys| == |c.env.rewards|;
    assert forall i | 0 <= i < |ts| :: JudgedAt(c, ts, i) ==> (TxOk(c.env, c.num, ts, ts[i]) <==> Good(c.env, ts[i]));
  }

  lemma GoodMeans(env: Env, ts: seq<Transaction>)
    requires ValidEnv(env)
    ensures AllGood(env, ts) <==> StandardsPass(env, ts) && !SomeHollow(ts)
  {
  }

  /** Standard transactions come from the queue, and none was evicted. */
  ghost predicate FromPending(ts: seq<Transaction>, pending: seq<Transaction>, dropped: set<bytes>)
  {
    forall t | t in ts && IsStandard(t.kind) :: t in pending && t.hash !in dropped
  }

  /** Every pending transaction that was neither evicted nor a stake is in the block. */
  ghost predicate TookAll(pending: seq<Transaction>, dropped: set<bytes>, ts: seq<Transaction>)
  {
    forall t | t in pending && t.hash !in dropped && t.kind != STAKE :: t in ts
  }

  /** A queue of a thousand or more, more transactions than were pending, or one that does not fit. */
  ghost predicate IsFull(pending: seq<Transaction>, count: nat, total: nat, blockSize: nat)
  {
    || |pending| >= TX_BATCH_LIMIT
    || count > |pending|
    || exists t :: t in pending && total + TransactionSize(t) > blockSize
  }

  /** Rewards, standard and collapse transactions in front, then the chosen repayments, then perhaps the fee. */
  ghost predicate Composed(c: Chain, ts: seq<Transaction>, n: nat, room: Room, pairs: seq<Pending>)
    requires n <= |ts| && Listed(c, pairs)
  {
    && NonFeeSize(ts[..n]) <= room.total && (NoneCollapsible(c) ==> NonFeeSize(ts[..n]) == room.total)
    && (forall i | 0 <= i < n :: ts[i].kind != SYSTEM_UNSTAKE && ts[i].kind != FEE)
    && Finished(c.num, ts[..n] + Chosen(c, ts[..n], room, pairs), ts)
  }

  datatype Signal = More | Full | Failed

  class Forger {
    const blockSize: nat
    const pool: TxPool.Pool
    const stakePool: StakingPool
    var skipAddr: set<bytes>

    constructor (blockSize: nat, pool: TxPool.Pool, stakePool: StakingPool)
      ensures this.blockSize == blockSize && this.pool == pool && this.stakePool == stakePool && skipAddr == {}
    {
      this.blockSize, this.pool, this.stakePool, skipAddr := blockSize, pool, stakePool, {};
    }

    /** The part of createCollapseTx that deals with one output. */
    method CollapseAddress(c: Chain, a: bytes) returns (r: Option<Transaction>)
      requires ValidChain(c)
      modifies this`skipAddr
      ensures skipAddr == old(skipAddr) + {a}
      ensures r.Some? ==> IsCollapse(c, r.value) && CollapseFor(c, r.value, a)
      ensures r.Some? <==> IsDue(c, old(skipAddr), a)
    {
      r := None;
      if a !in skipAddr {
        skipAddr := skipAddr + {a};
        if |c.owned(a)| >= COLLAPSE_OUTPUTS {
          var t := BuildCollapse(c, a);
          CollapsedFine(c, a);
          r := Some(t);
        }
      }
      assert a in old(skipAddr) ==> old(skipAddr) + {a} == old(skipAddr);
    }

    static lemma PushCollapse(c: Chain, ts: seq<Transaction>, t: Transaction)
      requires ValidChain(c) && IsCollapse(c, t)
      ensures NonFeeSize(ts + [t]) == NonFeeSize(ts) + TransactionSize(t)
    {
      CollapsedFine(c, Sender(t));
      SizePush(ts, t);
    }

    /**
     createCollapseTx: of the recipients that hold at least 100 outputs, except the sender and those dealt with before,
     each gets its collapse in turn, until 30 are built or the next one does not fit.
     */
    method CreateCollapseTx(c: Chain, t: Transaction, totalSize: nat) returns (ts: seq<Transaction>, ghost seen: nat)
      requires ValidChain(c)
      modifies this`skipAddr
      ensures forall x | x in ts :: IsCollapse(c, x)
      ensures |ts| <= COLLAPSE_TX_LIMIT
      ensures ts != [] ==> totalSize + NonFeeSize(ts) < blockSize
      ensures RecipientsDone(c, old(skipAddr), t, totalSize, blockSize, ts, seen, skipAddr)
    {
      if t.kind != REWARD {
        skipAddr := skipAddr + {Sender(t)};
      }
      ts, seen := CollapseAll(c, t.outputs, totalSize);
    }

    /** The loop over the recipients. */
    method CollapseAll(c: Chain, outs: seq<TxOutput>, totalSize: nat) returns (ts: seq<Transaction>, ghost seen: nat)
      requires ValidChain(c)
      modifies this`skipAddr
      ensures forall x | x in ts :: IsCollapse(c, x)
      ensures |ts| <= COLLAPSE_TX_LIMIT
      ensures ts != [] ==> totalSize + NonFeeSize(ts) < blockSize
      ensures CollapsesDone(c, old(skipAddr), outs, totalSize, blockSize, ts, seen, skipAddr)
    {
      ts, seen := [], 0;
      var sizeCounter, k := 0, 0;
      while k < |outs| && |ts| < COLLAPSE_TX_LIMIT
        invariant seen == k <= |outs| && |ts| <= COLLAPSE_TX_LIMIT
        invariant forall x | x in ts :: IsCollapse(c, x)
        invariant sizeCounter == NonFeeSize(ts)
        invariant ts != [] ==> totalSize + sizeCounter < blockSize
        invariant skipAddr == old(skipAddr) + PaidTo(outs[..k])
        invariant Collapses(c, ts, Due(c, old(skipAddr), outs[..k])) && |ts| == |Due(c, old(skipAddr), outs[..k])|
      {
        SkipsNext(old(skipAddr), outs, k);
        ghost var was := ts;
        var one := CollapseAddress(c, outs[k].address);
        seen := k + 1;
        if one.Some? {
          if TransactionSize(one.value) + sizeCounter + totalSize >= blockSize {
            CollapsingStops(c, old(skipAddr), outs, totalSize, blockSize, k, ts, one.value, skipAddr);
            return;
          }
          PushCollapse(c, ts, one.value);
          ts := ts + [one.value];
          sizeCounter := sizeCounter + TransactionSize(one.value);
        }
        CollapsesNext(c, old(skipAddr), outs, k, was, one, ts);
        k := k + 1;
      }
      CollapsingEnds(c, old(skipAddr), outs, totalSize, blockSize, k, ts, skipAddr);
    }

    /** The pool and the chain the forger works on; the collapse transactions it may build have hashes of their own. */
    ghost predicate Prepared(c: Chain)
      reads pool
    {
      pool.Valid() && ValidChain(c) && forall a :: KnownCollapse(c, pool.known, a)
    }

    ghost predicate Ready(c: Chain)
      reads pool
    {
      ValidEnv(c.env) && forall x: Chain | x == c :: Prepared(x)
    }

    method FileCollapse(c: Chain, ts: seq<Transaction>) returns (ok: bool)
      requires Ready(c) && forall t | t in ts :: IsCollapse(c, t)
      modifies pool`txHashMap, pool`txSenderMap
      ensures Ready(c) && old(pool.txSenderMap).Keys <= pool.txSenderMap.Keys
      ensures ok ==> JustFiled(c, ts, old(pool.txSenderMap).Keys, pool.txSenderMap.Keys)
      ensures Spread(ts) ==> (ok <==> AllFree(ts, old(pool.txSenderMap).Keys))
    {
      assert Prepared(c);
      forall t | t in ts ensures t in pool.known {
        assert KnownCollapse(c, pool.known, Sender(t));
      }
      ghost var n;
      ghost var held := pool.View();
      ok, n := pool.InsertCollapseTx(ts);
      if ok {
        FiledAreFree(c, ts, held.bySender.Keys, pool.txSenderMap.Keys);
      } else if Spread(ts) {
        StoppedByEntry(c, held, ts, n);
      }
    }

    static lemma FiledAreFree(c: Chain, ts: seq<Transaction>, before: set<bytes>, after: set<bytes>)
      requires ValidChain(c) && JustFiled(c, ts, before, after)
      ensures AllFree(ts, before)
    {
      forall i | 0 <= i < |ts| ensures Sender(ts[i]) !in before {
        FiledSender(c, ts, before, after, i);
      }
    }

    /** The body of the loop of addRewardsTxToBatch; done is false when the collapse transactions were refused. */
    method AddReward(c: Chain, d: Draft, t: Transaction, ghost used: set<bytes>, ghost start: set<bytes>)
        returns (done: bool, d': Draft, ghost used': set<bytes>, ghost ts: seq<Transaction>, ghost seen: nat)
      requires Ready(c) && RewardDraft(c, d, used, start, pool.txSenderMap.Keys) && IsReward(c, t)
      modifies this`skipAddr, pool`txHashMap, pool`txSenderMap
      ensures Ready(c) && RewardDraft(c, d', used', start, pool.txSenderMap.Keys) && d'.batch == d.batch + [t]
      ensures d'.total == d.total + TransactionSize(t) || d.total + TransactionSize(t) <= d'.total < blockSize
      ensures RecipientsDone(c, old(skipAddr), t, d.total + TransactionSize(t), blockSize, ts, seen, skipAddr)
      ensures done <==> AllFree(ts, old(pool.txSenderMap).Keys)
      ensures d'.collapse == if done then d.collapse + ts else d.collapse
    {
      var d1 := Draft(d.batch + [t], d.collapse, d.total + TransactionSize(t));
      RewardJoins(c, d, used, start, pool.txSenderMap.Keys, t, d1);
      var collapses;
      collapses, seen := CollapseRecipients(c, t, d.total + TransactionSize(t));
      ts := collapses;
      done, d', used' := FileRewards(c, d1, collapses, used, start);
    }

    lemma DoneSpread(c: Chain, skip: set<bytes>, t: Transaction, totalSize: nat, ts: seq<Transaction>, seen: nat, skip': set<bytes>)
      requires ValidChain(c) && RecipientsDone(c, skip, t, totalSize, blockSize, ts, seen, skip')
      ensures Spread(ts)
    {
      assert CollapsesDone(c, Skips(skip, t), t.outputs, totalSize, blockSize, ts, seen, skip');
      CollapsesSpread(c, ts, Skips(skip, t), t.outputs);
    }

    /** The collapse transactions of a transaction, which have different senders. */
    method CollapseRecipients(c: Chain, t: Transaction, totalSize: nat) returns (ts: seq<Transaction>, ghost seen: nat)
      requires Ready(c)
      modifies this`skipAddr
      ensures (forall x | x in ts :: IsCollapse(c, x)) && Spread(ts) && (ts != [] ==> totalSize + NonFeeSize(ts) < blockSize)
      ensures RecipientsDone(c, old(skipAddr), t, totalSize, blockSize, ts, seen, skipAddr)
    {
      assert Prepared(c);
      ts, seen := CreateCollapseTx(c, t, totalSize);
      DoneSpread(c, old(skipAddr), t, totalSize, ts, seen, skipAddr);
    }

    /** Files the collapse transactions of a reward and takes them, or none of them. */
    method FileRewards(c: Chain, d: Draft, ts: seq<Transaction>, ghost used: set<bytes>, ghost start: set<bytes>)
        returns (done: bool, d': Draft, ghost used': set<bytes>)
      requires Ready(c) && RewardDraft(c, d, used, start, pool.txSenderMap.Keys)
      requires Spread(ts) && (forall x | x in ts :: IsCollapse(c, x)) && (ts != [] ==> d.total + NonFeeSize(ts) < blockSize)
      modifies pool`txHashMap, pool`txSenderMap
      ensures Ready(c) && RewardDraft(c, d', used', start, pool.txSenderMap.Keys)
      ensures done <==> AllFree(ts, old(pool.txSenderMap).Keys)
      ensures d' == if done then Draft(d.batch, d.collapse + ts, d.total + NonFeeSize(ts)) else d
    {
      assert Prepared(c);
      d', used' := d, used;
      ghost var before := pool.txSenderMap.Keys;
      done := FileCollapse(c, ts);
      if done {
        d' := Draft(d.batch, d.collapse + ts, d.total + SumSizes(ts));
        used' := used + SendersUpTo(ts, |ts|);
        CollapsesJoin(c, d, used, start, ts, before, pool.txSenderMap.Keys, d', used');
      }
    }

    static lemma RewardJoins(c: Chain, d: Draft, used: set<bytes>, start: set<bytes>, senders: set<bytes>, t: Transaction, d': Draft)
      requires ValidEnv(c.env) && RewardDraft(c, d, used, start, senders) && IsReward(c, t)
      requires d' == Draft(d.batch + [t], d.collapse, d.total + TransactionSize(t))
      ensures RewardDraft(c, d', used, start, senders)
    {
      AddToBatch(c.env, c.num, d, used, t, d', used);
      SizePush(d.batch, t);
    }

    static lemma CollapsesJoin(c: Chain, d: Draft, used: set<bytes>, start: set<bytes>, ts: seq<Transaction>, before: set<bytes>, after: set<bytes>,
                               d': Draft, used': set<bytes>)
      requires ValidChain(c) && RewardDraft(c, d, used, start, before) && JustFiled(c, ts, before, after)
      requires d' == Draft(d.batch, d.collapse + ts, d.total + NonFeeSize(ts)) && used' == used + SendersUpTo(ts, |ts|)
      ensures RewardDraft(c, d', used', start, after)
    {
      assert ts[..|ts|] == ts;
      FiledJoin(c, d, used, ts, before, after, |ts|, d');
      SizeConcat(d.collapse, ts);
    }

    static function SumSizes(ts: seq<Transaction>): (n: nat)
      ensures n == NonFeeSize(ts)
    {
      NonFeeSize(ts)
    }

    static lemma FirstAndNext(ts: seq<Transaction>, k: nat)
      requires k < |ts|
      ensures ts[..k + 1] == ts[..k] + [ts[k]]
    {
    }

    /** The loop of addRewardsTxToBatch, which ends early when collapse transactions are refused. */
    method AddRewardTxs(c: Chain, ts: seq<Transaction>) returns (d: Draft, ghost used: set<bytes>, ghost k: nat)
      requires Ready(c) && forall t | t in ts :: IsReward(c, t)
      modifies this`skipAddr, pool`txHashMap, pool`txSenderMap
      ensures Ready(c) && RewardDraft(c, d, used, old(pool.txSenderMap).Keys, pool.txSenderMap.Keys)
      ensures k <= |ts| && d.batch == ts[..k] && (ts != [] ==> k > 0)
      ensures ts == [] ==> d.total == 0 && d.collapse == []
      ensures |ts| == 1 ==> (d.total <= blockSize <==> TransactionSize(ts[0]) <= blockSize)
    {
      d, used, k := Draft([], [], 0), {}, 0;
      EmptyDraft(c.env, c.num);
      var i, done := 0, true;
      while i < |ts| && done
        invariant i == k <= |ts| && (!done ==> k > 0)
        invariant Ready(c) && RewardDraft(c, d, used, old(pool.txSenderMap).Keys, pool.txSenderMap.Keys)
        invariant d.batch == ts[..k]
        invariant k == 0 ==> d.total == 0 && d.collapse == []
        invariant k == 1 ==> (d.total <= blockSize <==> TransactionSize(ts[0]) <= blockSize)
      {
        FirstAndNext(ts, k);
        ghost var collapses, seen;
        done, d, used, collapses, seen := AddReward(c, d, ts[i], used, old(pool.txSenderMap).Keys);
        i, k := i + 1, k + 1;
      }
    }

    /** addRewardsTxToBatch. */
    method AddRewards(c: Chain, outs: seq<TxOutput>) returns (d: Draft, ghost used: set<bytes>)
      requires Ready(c) && RewardOutputs(c.env.rewards, outs)
      modifies this`skipAddr, pool`txHashMap, pool`txSenderMap
      ensures Ready(c) && Assembled(c.env, c.num, d, used)
      ensures d.total == NonFeeSize(d.batch) + NonFeeSize(d.collapse) && (forall t | t in d.batch :: t.kind == REWARD)
      ensures old(pool.txSenderMap).Keys <= pool.txSenderMap.Keys && used <= pool.txSenderMap.Keys
      ensures used !! old(pool.txSenderMap).Keys
      ensures |outs| <= OUTPUTS_PER_TX ==> RewardRecord(d.batch) == c.env.rewards.Keys
      ensures |outs| <= OUTPUTS_PER_TX ==> (d.total <= blockSize <==> RewardSize(|outs|) <= blockSize)
      ensures outs == [] ==> d.batch == [] && d.collapse == []
    {
      assert Prepared(c);
      var ts := CreateRewardTxs(c, outs);
      ghost var k;
      d, used, k := AddRewardTxs(c, ts);
      RecordOf(c, outs, d.batch, ts, k);
      if outs != [] {
        RewardTxSize(c, outs);
      }
    }

    lemma RecordOf(c: Chain, outs: seq<TxOutput>, batch: seq<Transaction>, ts: seq<Transaction>, k: nat)
      requires ValidChain(c) && RewardOutputs(c.env.rewards, outs) && k <= |ts| && batch == ts[..k]
      requires outs == [] ==> ts == []
      requires 0 < |outs| <= OUTPUTS_PER_TX ==> ts == [New(c, REWARD, [], outs)]
      requires k == 0 ==> ts == []
      requires forall t | t in ts :: IsReward(c, t)
      ensures |outs| <= OUTPUTS_PER_TX ==> RewardRecord(batch) == c.env.rewards.Keys
      ensures forall t | t in batch :: t.kind == REWARD
    {
      assert forall t | t in batch :: t in ts;
      if outs == [] {
        assert c.env.rewards.Keys == {};
      } else if |outs| <= OUTPUTS_PER_TX {
        RewardsComplete(c, outs);
        assert ts[..k] == ts;
      }
    }

    /** One output of a stake transaction. */
    static method CountOutput(c: Chain, from: bytes, o: TxOutput, amount: u64, ghost before: seq<TxOutput>)
        returns (bad: bool, amount': u64, stakes: bool)
      requires amount == ValidatorAmount(before)
      ensures bad <==> BadStake(c.isValidator, from, o)
      ensures stakes <==> IsStaking(o)
      ensures !bad ==> amount' == ValidatorAmount(before + [o])
      ensures !bad && !stakes ==> amount' == amount
    {
      var node := Address(o.node);
      stakes := |node| == 20;
      amount' := amount;
      var own := node == BLACK_HOLE;
      if own && !c.isValidator(from) { return true, amount, stakes; }
      if own {
        amount' := Wrap(amount + o.amount);
        OwnPushed(before, o, amount, amount');
      } else {
        OwnSame(before, o);
      }
      assert own ==> stakes;
      bad := c.isValidator(node) && c.isValidator(from);
    }

    /** What the loop has found in the first k outputs, unless it met a bad one. */
    static ghost predicate FoundAt(c: Chain, t: Transaction, k: nat, bad: bool, amount: u64, hasStake: bool)
      requires k <= |t.outputs|
    {
      && (bad <==> !NoneBad(c.isValidator, Sender(t), t.outputs[..k]))
      && (hasStake <==> SomeStake(t.outputs[..k]))
      && (!bad ==> amount == ValidatorAmount(t.outputs[..k]))
      && (!hasStake && !bad ==> amount == 0)
    }

    static ghost predicate Found(c: Chain, t: Transaction, k: nat, bad: bool, amount: u64, hasStake: bool)
      requires k <= |t.outputs|
    {
      forall n: nat | n == k :: FoundAt(c, t, n, bad, amount, hasStake)
    }

    static lemma FoundNothing(c: Chain, t: Transaction)
      ensures Found(c, t, 0, false, 0, false)
    {
      assert FoundAt(c, t, 0, false, 0, false);
    }

    static method CountNext(c: Chain, t: Transaction, k: nat, amount: u64, hasStake: bool) returns (bad: bool, amount': u64, hasStake': bool)
      requires k < |t.outputs| && Found(c, t, k, false, amount, hasStake)
      ensures Found(c, t, k + 1, bad, amount', hasStake')
    {
      assert FoundAt(c, t, k, false, amount, hasStake);
      OneMore(t.outputs, k);
      StakePushed(c.isValidator, Sender(t), t.outputs[..k], t.outputs[k]);
      bad, amount', hasStake' := CountOutput(c, Sender(t), t.outputs[k], amount, t.outputs[..k]);
      hasStake' := hasStake || hasStake';
      assert FoundAt(c, t, k + 1, bad, amount', hasStake');
    }

    static lemma FoundAll(c: Chain, t: Transaction, k: nat, bad: bool, amount: u64, hasStake: bool)
      requires k <= |t.outputs| && Found(c, t, k, bad, amount, hasStake) && (k == |t.outputs| || bad)
      ensures !bad <==> NoneBad(c.isValidator, Sender(t), t.outputs)
      ensures !bad ==> amount == ValidatorAmount(t.outputs) && (hasStake <==> SomeStake(t.outputs))
      ensures !hasStake && !bad ==> amount == 0
    {
      assert FoundAt(c, t, k, bad, amount, hasStake);
      if bad {
        var i :| 0 <= i < k && BadStake(c.isValidator, Sender(t), t.outputs[..k][i]);
        assert BadStake(c.isValidator, Sender(t), t.outputs[i]);
      } else {
        OneMore(t.outputs, k);
      }
    }

    /** The loop over the outputs of a stake transaction; bad is the error that ends it early. */
    static method CountStake(c: Chain, t: Transaction) returns (bad: bool, amount: u64, hasStake: bool)
      ensures !bad <==> NoneBad(c.isValidator, Sender(t), t.outputs)
      ensures !bad ==> amount == ValidatorAmount(t.outputs) && (hasStake <==> SomeStake(t.outputs))
      ensures !hasStake && !bad ==> amount == 0
    {
      bad, amount, hasStake := false, 0, false;
      FoundNothing(c, t);
      var k := 0;
      while k < |t.outputs| && !bad
        invariant k <= |t.outputs| && Found(c, t, k, bad, amount, hasStake)
      {
        bad, amount, hasStake := CountNext(c, t, k, amount, hasStake);
        k := k + 1;
      }
      FoundAll(c, t, k, bad, amount, hasStake);
    }

    static lemma OneMore(outs: seq<TxOutput>, k: nat)
      requires k <= |outs|
      ensures if k < |outs| then outs[..k] + [outs[k]] == outs[..k + 1] else outs[..k] == outs
    {
    }

    /**
     A stake transaction is granted exactly when its outputs are allowed, one of them stakes, its slots can be
     reserved, and no earlier one was refused: the error of an earlier one is still set and refuses this one too.
     */
    method CheckStake(c: Chain, t: Transaction, failed: bool) returns (ok: bool, failed': bool)
      requires stakePool.Valid()
      modifies stakePool`slotsReserved
      ensures ok <==> !failed && FreeToStake(c.isValidator, t) && ReserveOwn(stakePool.params, old(stakePool.View()), ValidatorAmount(t.outputs)).ok
      ensures Ruled(c.isValidator, stakePool.params, old(stakePool.View()), t, failed, ok, failed')
      ensures if ok then ReserveOwn(stakePool.params, old(stakePool.View()), ValidatorAmount(t.outputs)) == Outcome(true, stakePool.View())
              else stakePool.View() == old(stakePool.View())
    {
      var bad, amount, hasStake := CountStake(c, t);
      failed' := failed || bad;
      if amount > 0 && !failed' {
        var granted := stakePool.ReserveSlots(amount);
        failed' := !granted;
      }
      ok := !failed' && hasStake;
    }

    static lemma SizeStep(ts: seq<Transaction>, n: nat)
      requires n < |ts| && ts[n].kind != FEE
      ensures NonFeeSize(ts[..n + 1]) == NonFeeSize(ts[..n]) + TransactionSize(ts[n])
    {
      assert ts[..n + 1] == ts[..n] + [ts[n]];
      SizePush(ts[..n], ts[n]);
    }

    static lemma FirstSize(ts: seq<Transaction>, n: nat)
      requires n <= |ts|
      ensures NonFeeSize(ts[..n]) <= NonFeeSize(ts)
    {
      SizeConcat(ts[..n], ts[n..]);
      assert ts[..n] + ts[n..] == ts;
    }

    /** The collapse transactions that still fit. */
    method TakeFitting(ts: seq<Transaction>, total: nat) returns (n: nat, total': nat)
      requires forall t | t in ts :: t.kind != FEE
      ensures n <= |ts| && total' == total + NonFeeSize(ts[..n])
      ensures total' != total ==> total' <= blockSize
      ensures total + NonFeeSize(ts) < blockSize ==> n == |ts|
    {
      n, total' := 0, total;
      assert ts[..|ts|] == ts;
      while n < |ts|
        invariant n <= |ts| && total' == total + NonFeeSize(ts[..n])
        invariant total' != total ==> total' <= blockSize
      {
        SizeStep(ts, n);
        FirstSize(ts, n + 1);
        if total' + TransactionSize(ts[n]) >= blockSize { return; }
        total' := total' + TransactionSize(ts[n]);
        n := n + 1;
      }
    }

    /** Takes a transaction into the batch and collapses its recipients, unless one of them has an entry in the pool. */
    method AddStandard(c: Chain, d: Draft, t: Transaction, ghost used: set<bytes>)
        returns (d': Draft, ghost used': set<bytes>, ghost ts: seq<Transaction>, ghost seen: nat)
      requires Ready(c) && Assembled(c.env, c.num, d, used) && used <= pool.txSenderMap.Keys
      requires IsStandard(t.kind) && Waits(t, used, pool.txSenderMap.Keys, pool.pending)
      modifies this`skipAddr, pool`txHashMap, pool`txSenderMap, pool`forged
      ensures Ready(c) && Assembled(c.env, c.num, d', used') && used' <= pool.txSenderMap.Keys
      ensures old(pool.txSenderMap).Keys <= pool.txSenderMap.Keys
      ensures forall a | a in used' && a !in used + {Sender(t)} :: a !in old(pool.txSenderMap)
      ensures (forall x | x in ts :: IsCollapse(c, x)) && (ts != [] ==> d'.total < blockSize)
      ensures d'.batch == d.batch + [t]
      ensures RecipientsDone(c, old(skipAddr), t, d.total + TransactionSize(t), blockSize, ts, seen, skipAddr)
      ensures d'.collapse == if AllFree(ts, old(pool.txSenderMap).Keys) then d.collapse + ts else d.collapse
      ensures d'.total == d.total + TransactionSize(t) + NonFeeSize(ts)
      ensures pool.forged == old(pool.forged) + {t.hash}
    {
      var d1 := Append(c, d, t, used);
      ghost var used1 := used + {Sender(t)};
      var collapses;
      collapses, seen := CollapseRecipients(c, t, d.total + TransactionSize(t));
      ts := collapses;
      d', used' := FileStandard(c, d1, collapses, used1);
    }

    static lemma AppendedWaits(t: Transaction, used: set<bytes>, senders: set<bytes>, pending: seq<Transaction>, used': set<bytes>, senders': set<bytes>)
      requires senders <= senders' && forall a | a in used' && a !in used + {Sender(t)} :: a !in senders
      ensures OthersWait(t, used, senders, pending, used', senders', pending)
    {
      GoOnWaiting(t, used, senders, pending, used', senders', pending);
    }

    method Append(c: Chain, d: Draft, t: Transaction, ghost used: set<bytes>) returns (d': Draft)
      requires Ready(c) && Assembled(c.env, c.num, d, used) && IsStandard(t.kind) && Waits(t, used, pool.txSenderMap.Keys, pool.pending)
      modifies pool`forged
      ensures Ready(c) && d' == Draft(d.batch + [t], d.collapse, d.total + TransactionSize(t))
      ensures Assembled(c.env, c.num, d', used + {Sender(t)}) && pool.forged == old(pool.forged) + {t.hash}
    {
      d' := Draft(d.batch + [t], d.collapse, d.total + TransactionSize(t));
      assert Prepared(c);
      AddToBatch(c.env, c.num, d, used, t, d', used + {Sender(t)});
      pool.Forge(t);
      assert Prepared(c);
    }

    static lemma StandardSizes(c: Chain, d: Draft, t: Transaction, ts: seq<Transaction>, d': Draft)
      requires (forall x | x in ts :: IsCollapse(c, x)) && t.kind != FEE
      requires d'.batch == d.batch + [t] && d'.total == d.total + TransactionSize(t) + NonFeeSize(ts)
      requires d'.collapse == d.collapse || d'.collapse == d.collapse + ts
      ensures NonFeeSize(d.batch) + NonFeeSize(d.collapse) <= d.total ==> NonFeeSize(d'.batch) + NonFeeSize(d'.collapse) <= d'.total
      ensures NonFeeSize(d.collapse) <= NonFeeSize(d'.collapse) && d.total <= d'.total
      ensures Exact(c, d) ==> Exact(c, d')
    {
      SizePush(d.batch, t);
      StaysExact(c, d, Draft(d.batch + [t], d.collapse, d.total + TransactionSize(t)), ts, d');
    }

    /** Files the collapse transactions of a standard transaction; their size is counted even when they are refused. */
    method FileStandard(c: Chain, d: Draft, ts: seq<Transaction>, ghost used: set<bytes>) returns (d': Draft, ghost used': set<bytes>)
      requires Ready(c) && Assembled(c.env, c.num, d, used) && used <= pool.txSenderMap.Keys
      requires Spread(ts) && (forall x | x in ts :: IsCollapse(c, x)) && (ts != [] ==> d.total + NonFeeSize(ts) < blockSize)
      modifies pool`txHashMap, pool`txSenderMap
      ensures Ready(c) && Assembled(c.env, c.num, d', used') && used <= used' <= pool.txSenderMap.Keys
      ensures old(pool.txSenderMap).Keys <= pool.txSenderMap.Keys && forall a | a in used' && a !in used :: a !in old(pool.txSenderMap)
      ensures d'.batch == d.batch && d'.total == d.total + NonFeeSize(ts)
      ensures d'.collapse == if AllFree(ts, old(pool.txSenderMap).Keys) then d.collapse + ts else d.collapse
    {
      assert Prepared(c);
      NoFees(c, ts);
      var n, total := TakeFitting(ts, d.total);
      assert ts[..n] == ts;
      ghost var before := pool.txSenderMap.Keys;
      var ok := FileCollapse(c, ts);
      d', used' := JoinFiled(c, d, ts, n, total, ok, used, before, pool.txSenderMap.Keys);
    }

    static lemma StaysExact(c: Chain, d: Draft, d1: Draft, ts: seq<Transaction>, d': Draft)
      requires (forall x | x in ts :: IsCollapse(c, x)) && d1.collapse == d.collapse && d'.batch == d1.batch
      requires NonFeeSize(d1.batch) - d1.total == NonFeeSize(d.batch) - d.total && d'.total == d1.total + NonFeeSize(ts)
      requires d'.collapse == d.collapse || d'.collapse == d.collapse + ts
      ensures NonFeeSize(d.collapse) <= NonFeeSize(d'.collapse) <= NonFeeSize(d.collapse) + NonFeeSize(ts)
      ensures Exact(c, d) ==> Exact(c, d')
    {
      SizeConcat(d.collapse, ts);
      if ts != [] { SomeCollapsible(c, ts); }
      assert ts == [] ==> d.collapse + ts == d.collapse;
    }

    static lemma SomeCollapsible(c: Chain, ts: seq<Transaction>)
      requires (forall x | x in ts :: IsCollapse(c, x)) && ts != []
      ensures !NoneCollapsible(c)
    {
      assert ts[0] in ts;
      assert Collapsible(c, Sender(ts[0]));
    }

    /** Filed collapse transactions that fit join the draft; refused ones only leave their size counted. */
    static method JoinFiled(c: Chain, d: Draft, ts: seq<Transaction>, n: nat, total: nat, ok: bool,
                            ghost used: set<bytes>, ghost before: set<bytes>, ghost after: set<bytes>)
        returns (d': Draft, ghost used': set<bytes>)
      requires ValidChain(c) && Assembled(c.env, c.num, d, used) && used <= before <= after && n <= |ts|
      requires ok ==> JustFiled(c, ts, before, after)
      ensures Assembled(c.env, c.num, d', used') && used <= used' <= after && d'.batch == d.batch && d'.total == total
      ensures forall a | a in used' && a !in used :: a !in before
      ensures d'.collapse == if ok then d.collapse + ts[..n] else d.collapse
    {
      if ok {
        d', used' := Draft(d.batch, d.collapse + ts[..n], total), used + SendersUpTo(ts, n);
        FiledJoin(c, d, used, ts, before, after, n, d');
      } else {
        d', used' := Draft(d.batch, d.collapse, total), used;
        SameParts(c.env, c.num, d, used, d', used);
      }
    }

    lemma NoFees(c: Chain, ts: seq<Transaction>)
      requires ValidChain(c) && forall t | t in ts :: IsCollapse(c, t)
      ensures forall t | t in ts :: t.kind != FEE
    {
      forall t | t in ts ensures t.kind != FEE {
        CollapsedFine(c, Sender(t));
      }
    }

    /** The body of the loop over the pairs. */
    method Consider(c: Chain, batch: seq<Transaction>, total: nat, ghost pairs: seq<Pending>, ghost k: nat, p: Pending,
                    us: seq<Transaction>, ghost claims: set<Claim>, size: nat)
        returns (us': seq<Transaction>, ghost claims': set<Claim>, size': nat)
      requires ValidChain(c) && Listed(c, pairs) && k < |pairs| && p == pairs[k] && p.validator != []
      requires Unstakes(c, us, claims) && PendingClaim(p) !in claims && size == NonFeeSize(us)
      requires us == Chosen(c, batch, Room(total, blockSize), pairs[..k])
      ensures us' == Chosen(c, batch, Room(total, blockSize), pairs[..k + 1])
      ensures Unstakes(c, us', claims') && claims <= claims' <= claims + {PendingClaim(p)} && size' == NonFeeSize(us')
    {
      us', claims', size' := us, claims, size;
      ChosenNext(c, batch, Room(total, blockSize), pairs, k);
      var blocked := Blocked(batch, p.validator, p.elector);
      if !blocked {
        var t := BuildUnstake(c, p);
        if total + size + TransactionSize(t) <= blockSize {
          RepaymentJoins(c, us, claims, p);
          us', claims', size' := us + [t], claims + {PendingClaim(p)}, size + TransactionSize(t);
        }
      }
    }

    /**
     generateSystemUnstakes: in some order of the snapshot, the repayments of the pairs that the batch does not block
     and that still fit.
     */
    method GenerateSystemUnstakes(c: Chain, batch: seq<Transaction>, total: nat)
        returns (us: seq<Transaction>, ghost claims: set<Claim>, ghost pairs: seq<Pending>)
      requires ValidChain(c) && [] !in stakePool.snapshot
      ensures Iterates(pairs, stakePool.snapshot) && ByName(pairs) && Listed(c, pairs)
      ensures us == Chosen(c, batch, Room(total, blockSize), pairs) && Unstakes(c, us, claims)
      ensures us != [] ==> total + NonFeeSize(us) <= blockSize
      ensures us != [] ==> forall t | t in batch :: t.kind != STAKE && t.kind != UNSTAKE
    {
      us, claims := [], {};
      var size := 0;
      var order := PendingPairs(stakePool.snapshot);
      pairs := order;
      forall i | 0 <= i < |pairs| ensures pairs[i].validator != [] { assert pairs[i] in pairs; }
      ByNameListed(c, pairs);
      for k := 0 to |order|
        invariant Unstakes(c, us, claims) && Untouched(pairs, k, claims) && size == NonFeeSize(us)
        invariant us == Chosen(c, batch, Room(total, blockSize), pairs[..k])
      {
        TouchOne(pairs, k, claims);
        us, claims, size := Consider(c, batch, total, pairs, k, order[k], us, claims, size);
      }
      assert pairs[..|pairs|] == pairs;
      ChosenFits(c, batch, Room(total, blockSize), pairs);
    }

    /** A stake transaction whose slots cannot be reserved is deleted from the pool. */
    method DropStake(c: Chain, t: Transaction, ghost used: set<bytes>) returns (ok: bool)
      requires Ready(c) && used <= pool.txSenderMap.Keys && Waits(t, used, pool.txSenderMap.Keys, pool.pending)
      requires t.kind == STAKE
      modifies pool`txHashMap, pool`txSenderMap, pool`pending
      ensures Ready(c) && ok && used <= pool.txSenderMap.Keys
      ensures OthersWait(t, used, old(pool.txSenderMap).Keys, old(pool.pending), used, pool.txSenderMap.Keys, pool.pending)
      ensures forall x :: x in pool.pending <==> x in old(pool.pending) && x != t
    {
      assert Prepared(c);
      TxPool.HoldsQueued(pool.View(), t);
      ok := pool.DeleteTransaction(t);
      assert Prepared(c);
      assert pool.txSenderMap.Keys == old(pool.txSenderMap).Keys - {Sender(t)};
      GoOnWaiting(t, used, old(pool.txSenderMap).Keys, old(pool.pending), used, pool.txSenderMap.Keys, pool.pending);
    }

    lemma KeepsSized(d: Draft, d': Draft, t: Transaction, rewardSize: nat)
      requires Sized(d, rewardSize, blockSize) && d.total + TransactionSize(t) <= blockSize
      requires d'.batch == d.batch + [t] && t.kind != FEE && d'.total <= blockSize
      requires NonFeeSize(d'.batch) + NonFeeSize(d'.collapse) <= d'.total && NonFeeSize(d.collapse) <= NonFeeSize(d'.collapse)
      ensures Sized(d', rewardSize, blockSize)
    {
      SizePush(d.batch, t);
    }

    /** The body of the loop over the queue. */
    method ForgeOne(c: Chain, d: Draft, t: Transaction, limit: int, failed: bool,
                    ghost used: set<bytes>, ghost rewardSize: nat, ghost before: Pool)
        returns (signal: Signal, d': Draft, failed': bool, ghost used': set<bytes>)
      requires Ready(c) && stakePool.Valid() && Assembled(c.env, c.num, d, used) && used <= pool.txSenderMap.Keys
      requires Waits(t, used, pool.txSenderMap.Keys, pool.pending) && IsStandard(t.kind)
      requires Sized(d, rewardSize, blockSize) && Reserved(stakePool.params, before, d.batch, stakePool.View())
      modifies this`skipAddr, pool`txHashMap, pool`txSenderMap, pool`pending, pool`forged, stakePool`slotsReserved
      ensures Ready(c) && Assembled(c.env, c.num, d', used') && used' <= pool.txSenderMap.Keys && signal != Failed
      ensures OthersWait(t, used, old(pool.txSenderMap).Keys, old(pool.pending), used', pool.txSenderMap.Keys, pool.pending)
      ensures Sized(d', rewardSize, blockSize) && Reserved(stakePool.params, before, d'.batch, stakePool.View())
      ensures Exact(c, d) ==> Exact(c, d')
      ensures signal == More ==>
        Turn(c.isValidator, stakePool.params, old(stakePool.View()), t, pool.dropped, Stand(d.batch, failed, old(pool.pending)), Stand(d'.batch, failed', pool.pending))
      ensures signal == Full ==> failed' == failed && pool.pending == old(pool.pending)
      ensures pool.forged == if d'.batch == d.batch then old(pool.forged) else old(pool.forged) + {t.hash}
      ensures signal == More && t.hash !in pool.dropped && t.kind != STAKE ==> d'.batch == d.batch + [t]
      ensures signal == Full ==> d' == d && (|d.batch| + |d.collapse| == limit || d.total + TransactionSize(t) > blockSize)
    {
      if |d.batch| + |d.collapse| != limit && t.hash !in pool.dropped && d.total + TransactionSize(t) <= blockSize {
        signal, d', failed', used' := TakeOne(c, d, t, failed, used, rewardSize, before);
      } else {
        signal := if |d.batch| + |d.collapse| == limit || t.hash !in pool.dropped then Full else More;
        d', failed', used' := d, failed, used;
        NothingMoves(t, used, pool.txSenderMap.Keys, pool.pending);
      }
    }

    /** A transaction that is its turn and fits: stakes need slots and are deleted from the pool without them. */
    method TakeOne(c: Chain, d: Draft, t: Transaction, failed: bool,
                   ghost used: set<bytes>, ghost rewardSize: nat, ghost before: Pool)
        returns (signal: Signal, d': Draft, failed': bool, ghost used': set<bytes>)
      requires Ready(c) && stakePool.Valid() && Assembled(c.env, c.num, d, used) && used <= pool.txSenderMap.Keys
      requires Waits(t, used, pool.txSenderMap.Keys, pool.pending) && IsStandard(t.kind)
      requires Sized(d, rewardSize, blockSize) && Reserved(stakePool.params, before, d.batch, stakePool.View())
      requires d.total + TransactionSize(t) <= blockSize && t.hash !in pool.dropped
      modifies this`skipAddr, pool`txHashMap, pool`txSenderMap, pool`pending, pool`forged, stakePool`slotsReserved
      ensures Ready(c) && Assembled(c.env, c.num, d', used') && used' <= pool.txSenderMap.Keys && signal == More
      ensures Turn(c.isValidator, stakePool.params, old(stakePool.View()), t, pool.dropped, Stand(d.batch, failed, old(pool.pending)), Stand(d'.batch, failed', pool.pending))
      ensures OthersWait(t, used, old(pool.txSenderMap).Keys, old(pool.pending), used', pool.txSenderMap.Keys, pool.pending)
      ensures Sized(d', rewardSize, blockSize) && Reserved(stakePool.params, before, d'.batch, stakePool.View())
      ensures pool.forged == if d'.batch == d.batch then old(pool.forged) else old(pool.forged) + {t.hash}
      ensures (t.kind != STAKE ==> d'.batch == d.batch + [t]) && (Exact(c, d) ==> Exact(c, d'))
    {
      ghost var now, was := stakePool.View(), Stand(d.batch, failed, pool.pending);
      var ok;
      ok, failed' := MayTake(c, t, failed, d.batch, before);
      signal, d', used' := TakeOrDrop(c, d, t, ok, used, rewardSize);
      if ok {
        TurnTaken(c.isValidator, stakePool.params, now, t, pool.dropped, was, Stand(d'.batch, failed', pool.pending));
      } else {
        TurnRefused(c.isValidator, stakePool.params, now, t, pool.dropped, was, Stand(d'.batch, failed', pool.pending));
      }
    }

    /** Takes the transaction, or deletes the refused stake. */
    method TakeOrDrop(c: Chain, d: Draft, t: Transaction, ok: bool, ghost used: set<bytes>, ghost rewardSize: nat)
        returns (signal: Signal, d': Draft, ghost used': set<bytes>)
      requires Ready(c) && Assembled(c.env, c.num, d, used) && used <= pool.txSenderMap.Keys
      requires Waits(t, used, pool.txSenderMap.Keys, pool.pending) && IsStandard(t.kind) && (ok || t.kind == STAKE)
      requires Sized(d, rewardSize, blockSize) && d.total + TransactionSize(t) <= blockSize
      modifies this`skipAddr, pool`txHashMap, pool`txSenderMap, pool`pending, pool`forged
      ensures Ready(c) && Assembled(c.env, c.num, d', used') && used' <= pool.txSenderMap.Keys && signal == More
      ensures OthersWait(t, used, old(pool.txSenderMap).Keys, old(pool.pending), used', pool.txSenderMap.Keys, pool.pending)
      ensures Sized(d', rewardSize, blockSize) && (Exact(c, d) ==> Exact(c, d'))
      ensures d'.batch == if ok then d.batch + [t] else d.batch
      ensures pool.forged == if ok then old(pool.forged) + {t.hash} else old(pool.forged)
      ensures if ok then pool.pending == old(pool.pending) else forall x :: x in pool.pending <==> x in old(pool.pending) && x != t
    {
      signal, d', used' := More, d, used;
      if ok {
        d', used' := TakeGranted(c, d, t, used, rewardSize);
      } else {
        var deleted := DropStake(c, t, used);
        if !deleted { signal := Failed; }
      }
    }

    /** Whether the transaction may be taken: stakes need slots, which are reserved. */
    method MayTake(c: Chain, t: Transaction, failed: bool, ghost batch: seq<Transaction>, ghost before: Pool) returns (ok: bool, failed': bool)
      requires stakePool.Valid() && Reserved(stakePool.params, before, batch, stakePool.View())
      modifies stakePool`slotsReserved
      ensures if t.kind == STAKE then Ruled(c.isValidator, stakePool.params, old(stakePool.View()), t, failed, ok, failed') else ok && failed' == failed
      ensures Reserved(stakePool.params, before, if ok then batch + [t] else batch, stakePool.View())
    {
      ghost var now := stakePool.View();
      ok, failed' := true, failed;
      if t.kind == STAKE {
        ok, failed' := CheckStake(c, t, failed);
      }
      if ok { ReservedPush(stakePool.params, before, batch, now, t, stakePool.View()); }
    }

    method TakeGranted(c: Chain, d: Draft, t: Transaction, ghost used: set<bytes>, ghost rewardSize: nat) returns (d': Draft, ghost used': set<bytes>)
      requires Ready(c) && Assembled(c.env, c.num, d, used) && used <= pool.txSenderMap.Keys
      requires IsStandard(t.kind) && Waits(t, used, pool.txSenderMap.Keys, pool.pending)
      requires Sized(d, rewardSize, blockSize) && d.total + TransactionSize(t) <= blockSize
      modifies this`skipAddr, pool`txHashMap, pool`txSenderMap, pool`forged
      ensures Ready(c) && Assembled(c.env, c.num, d', used') && used' <= pool.txSenderMap.Keys
      ensures OthersWait(t, used, old(pool.txSenderMap).Keys, pool.pending, used', pool.txSenderMap.Keys, pool.pending)
      ensures d'.batch == d.batch + [t] && Sized(d', rewardSize, blockSize) && (Exact(c, d) ==> Exact(c, d'))
      ensures pool.forged == old(pool.forged) + {t.hash}
    {
      ghost var ts, seen;
      d', used', ts, seen := AddStandard(c, d, t, used);
      AppendedWaits(t, used, old(pool.txSenderMap).Keys, pool.pending, used', pool.txSenderMap.Keys);
      StandardSizes(c, d, t, ts, d');
      KeepsSized(d, d', t, rewardSize);
    }

    /** The loop over the queue. */
    method ForgeQueue(c: Chain, d0: Draft, queue: seq<Transaction>, limit: int,
                      ghost used0: set<bytes>, ghost rewardSize: nat, ghost before: Pool)
        returns (ok: bool, d: Draft, ghost used: set<bytes>, ghost reached: nat, ghost failed': bool)
      requires Ready(c) && stakePool.Valid() && Assembled(c.env, c.num, d0, used0) && used0 <= pool.txSenderMap.Keys
      requires OwnSenders(queue) && QueueWaits(queue, 0, used0, pool.txSenderMap.Keys, pool.pending)
      requires (forall t | t in queue :: IsStandard(t.kind)) && StakesOf(d0.batch) == [] && Ahead(queue, 0, d0.batch)
      requires forall t | t in d0.batch :: t.kind == REWARD
      requires Sized(d0, rewardSize, blockSize) && Reserved(stakePool.params, before, d0.batch, stakePool.View())
      modifies this`skipAddr, pool`txHashMap, pool`txSenderMap, pool`pending, pool`forged, stakePool`slotsReserved
      ensures Ready(c) && ok && Assembled(c.env, c.num, d, used)
      ensures Sized(d, rewardSize, blockSize) && Reserved(stakePool.params, before, d.batch, stakePool.View())
      ensures RewardRecord(d.batch) == RewardRecord(d0.batch)
      ensures FromQueue(d.batch, d0.batch, queue, pool.dropped) && (Exact(c, d0) ==> Exact(c, d))
      ensures Taken(queue, |queue|, pool.dropped, d.batch) || Stopped(queue, d, limit, blockSize)
      ensures reached <= |queue| && (reached == |queue| || StoppedAt(queue, reached, d, limit, blockSize))
      ensures pool.forged == old(pool.forged) + Marked(d.batch)
      ensures Stands(c.isValidator, stakePool.params, before, queue, pool.dropped, old(pool.pending), reached, Stand(d.batch, failed', pool.pending))
    {
      ok, d, used, reached := true, d0, used0, 0;
      var signal, failed, k := More, false, 0;
      MarkedNone(d0.batch);
      StandsFirst(c.isValidator, stakePool.params, before, queue, pool.dropped, Stand(d.batch, failed, pool.pending));
      CollectedNothing(queue, pool.dropped, d0, limit, blockSize);
      while k < |queue| && signal == More
        invariant k <= |queue| && signal != Failed
        invariant Ready(c) && Assembled(c.env, c.num, d, used) && used <= pool.txSenderMap.Keys
        invariant QueueWaits(queue, k, used, pool.txSenderMap.Keys, pool.pending)
        invariant Sized(d, rewardSize, blockSize) && Reserved(stakePool.params, before, d.batch, stakePool.View())
        invariant Exact(c, d0) ==> Exact(c, d)
        invariant Collected(queue, k, pool.dropped, d0, d, signal, limit, blockSize)
        invariant pool.forged == old(pool.forged) + Marked(d.batch)
        invariant reached <= |queue| && (signal == More ==> reached == k)
        invariant signal != More ==> StoppedAt(queue, reached, d, limit, blockSize)
        invariant Stands(c.isValidator, stakePool.params, before, queue, pool.dropped, old(pool.pending), reached, Stand(d.batch, failed, pool.pending))
      {
        signal, d, failed, used, reached := ForgeNext(c, d0, d, queue, k, limit, failed, used, rewardSize, before, old(pool.pending), old(pool.forged));
        k := k + 1;
      }
      CollectedAll(queue, k, pool.dropped, d0, d, signal, limit, blockSize);
      failed' := failed;
      ok := signal != Failed;
    }

    /** One turn of the loop. */
    method ForgeNext(c: Chain, ghost d0: Draft, d: Draft, queue: seq<Transaction>, k: nat, limit: int, failed: bool, ghost used: set<bytes>,
                     ghost rewardSize: nat, ghost before: Pool, ghost start: seq<Transaction>, ghost marks: set<bytes>)
        returns (signal: Signal, d': Draft, failed': bool, ghost used': set<bytes>, ghost reached: nat)
      requires Ready(c) && stakePool.Valid() && Assembled(c.env, c.num, d, used) && used <= pool.txSenderMap.Keys
      requires k < |queue| && OwnSenders(queue) && QueueWaits(queue, k, used, pool.txSenderMap.Keys, pool.pending) && IsStandard(queue[k].kind)
      requires Sized(d, rewardSize, blockSize) && Reserved(stakePool.params, before, d.batch, stakePool.View())
      requires Collected(queue, k, pool.dropped, d0, d, More, limit, blockSize) && pool.forged == marks + Marked(d.batch)
      requires Stands(c.isValidator, stakePool.params, before, queue, pool.dropped, start, k, Stand(d.batch, failed, pool.pending))
      modifies this`skipAddr, pool`txHashMap, pool`txSenderMap, pool`pending, pool`forged, stakePool`slotsReserved
      ensures Ready(c) && Assembled(c.env, c.num, d', used') && used' <= pool.txSenderMap.Keys && signal != Failed
      ensures QueueWaits(queue, k + 1, used', pool.txSenderMap.Keys, pool.pending) && (Exact(c, d) ==> Exact(c, d'))
      ensures Sized(d', rewardSize, blockSize) && Reserved(stakePool.params, before, d'.batch, stakePool.View())
      ensures Collected(queue, k + 1, pool.dropped, d0, d', signal, limit, blockSize) && pool.forged == marks + Marked(d'.batch)
      ensures reached == if signal == More then k + 1 else k
      ensures signal == Full ==> StoppedAt(queue, k, d', limit, blockSize)
      ensures Stands(c.isValidator, stakePool.params, before, queue, pool.dropped, start, reached, Stand(d'.batch, failed', pool.pending))
    {
      ghost var senders, pending := pool.txSenderMap.Keys, pool.pending;
      ghost var now, slots := Stand(d.batch, failed, pool.pending), stakePool.View();
      signal, d', failed', used' := ForgeOne(c, d, queue[k], limit, failed, used, rewardSize, before);
      QueueGoesOn(queue, k, used, senders, pending, used', pool.txSenderMap.Keys, pool.pending);
      CollectedNext(queue, k, pool.dropped, d0, d, d', signal, limit, blockSize);
      MarkedNext(d.batch, queue[k], d'.batch);
      reached := k;
      if signal == More {
        StandsNext(c.isValidator, stakePool.params, before, queue, pool.dropped, start, k, now, slots, Stand(d'.batch, failed', pool.pending));
        reached := k + 1;
      }
    }

    /** What the loop has done with the first k of the queue. */
    static ghost predicate CollectedAt(queue: seq<Transaction>, k: nat, dropped: set<bytes>, d0: Draft, d: Draft, signal: Signal, limit: int, blockSize: nat)
      requires k <= |queue|
    {
      && RewardRecord(d.batch) == RewardRecord(d0.batch)
      && FromQueue(d.batch, d0.batch, queue, dropped)
      && (if signal == More then Taken(queue, k, dropped, d.batch) else Stopped(queue, d, limit, blockSize))
    }

    static ghost predicate Collected(queue: seq<Transaction>, k: nat, dropped: set<bytes>, d0: Draft, d: Draft, signal: Signal, limit: int, blockSize: nat)
      requires k <= |queue|
    {
      forall n: nat | n == k :: CollectedAt(queue, n, dropped, d0, d, signal, limit, blockSize)
    }

    static lemma CollectedNothing(queue: seq<Transaction>, dropped: set<bytes>, d0: Draft, limit: int, blockSize: nat)
      ensures Collected(queue, 0, dropped, d0, d0, More, limit, blockSize)
    {
      assert CollectedAt(queue, 0, dropped, d0, d0, More, limit, blockSize);
    }

    static lemma CollectedNext(queue: seq<Transaction>, k: nat, dropped: set<bytes>, d0: Draft, d: Draft, d': Draft, signal: Signal, limit: int, blockSize: nat)
      requires k < |queue| && Collected(queue, k, dropped, d0, d, More, limit, blockSize) && IsStandard(queue[k].kind)
      requires d'.batch == d.batch || d'.batch == d.batch + [queue[k]]
      requires d'.batch != d.batch ==> queue[k].hash !in dropped
      requires signal == More && queue[k].hash !in dropped && queue[k].kind != STAKE ==> d'.batch == d.batch + [queue[k]]
      requires signal != More ==> d' == d && (|d.batch| + |d.collapse| == limit || d.total + TransactionSize(queue[k]) > blockSize)
      ensures Collected(queue, k + 1, dropped, d0, d', signal, limit, blockSize)
    {
      assert CollectedAt(queue, k, dropped, d0, d, More, limit, blockSize);
      SameRecord(d.batch, queue[k], d'.batch);
      StaysFromQueue(d.batch, d0.batch, queue, dropped, queue[k], d'.batch);
      if signal == More {
        TakenMore(queue, k, dropped, d.batch, d'.batch);
      } else {
        assert queue[k] in queue;
      }
    }

    static lemma CollectedAll(queue: seq<Transaction>, k: nat, dropped: set<bytes>, d0: Draft, d: Draft, signal: Signal, limit: int, blockSize: nat)
      requires k <= |queue| && Collected(queue, k, dropped, d0, d, signal, limit, blockSize) && (signal == More ==> k == |queue|)
      ensures RewardRecord(d.batch) == RewardRecord(d0.batch) && FromQueue(d.batch, d0.batch, queue, dropped)
      ensures if signal == More then Taken(queue, |queue|, dropped, d.batch) else Stopped(queue, d, limit, blockSize)
    {
      assert CollectedAt(queue, k, dropped, d0, d, signal, limit, blockSize);
    }

    /** What the loop added comes from the queue and was not evicted. */
    static ghost predicate FromQueue(batch: seq<Transaction>, start: seq<Transaction>, queue: seq<Transaction>, dropped: set<bytes>)
    {
      forall t | t in batch :: t in start || (t in queue && t.hash !in dropped)
    }

    static lemma StaysFromQueue(batch: seq<Transaction>, start: seq<Transaction>, queue: seq<Transaction>, dropped: set<bytes>,
                                t: Transaction, batch': seq<Transaction>)
      requires FromQueue(batch, start, queue, dropped) && t in queue
      requires batch' == batch || (batch' == batch + [t] && t.hash !in dropped)
      ensures FromQueue(batch', start, queue, dropped)
    {
    }

    static lemma SameRecord(batch: seq<Transaction>, t: Transaction, batch': seq<Transaction>)
      requires batch' == batch || (batch' == batch + [t] && t.kind != REWARD)
      ensures RewardRecord(batch') == RewardRecord(batch)
    {
      if batch' != batch {
        assert (batch + [t])[..|batch|] == batch;
        assert Paid(t) == {};
      }
    }

    /** Collapse transactions, system unstakes and the fee transaction complete the batch. */
    method Finish(c: Chain, d: Draft, ghost used: set<bytes>, ghost rewardSize: nat) 
        returns (ts: seq<Transaction>, ghost n: nat, ghost pairs: seq<Pending>)
      requires ValidChain(c) && Assembled(c.env, c.num, d, used) && [] !in stakePool.snapshot
      requires Sized(d, rewardSize, blockSize) && Exact(c, d)
      ensures Judged(c, ts)
      ensures StakesOf(ts) == StakesOf(d.batch) && RewardRecord(ts) == RewardRecord(d.batch)
      ensures NonFeeSize(ts) <= blockSize <==> rewardSize <= blockSize
      ensures n == |d.batch| + |d.collapse| <= |ts| && Iterates(pairs, stakePool.snapshot) && Listed(c, pairs)
      ensures Composed(c, ts, n, Room(d.total, blockSize), pairs) && forall t | t in d.batch :: t in ts
      ensures forall t | t in ts && IsStandard(t.kind) :: t in d.batch
      ensures SomeHollow(ts) <==> Through(c, ts[..n], Room(d.total, blockSize), pairs)
    {
      var us: seq<Transaction>;
      ghost var claims;
      us, claims, pairs := GenerateSystemUnstakes(c, d.batch + d.collapse, d.total);
      ts := AddFee(c, d.batch + (d.collapse + us));
      FinishedWell(c, d, used, us, claims, ts);
      FinishedParts(c, d, used, us, claims, ts, rewardSize);
      HollowIffThrough(c, d.batch + d.collapse, Room(d.total, blockSize), pairs);
      FinishedHollow(c, d, used, us, ts);
      FinishedStandards(c, d, used, us, ts);
      n := |d.batch| + |d.collapse|;
      FinishedComposed(c, d, used, us, ts, n, Room(d.total, blockSize), pairs, rewardSize);
    }

    static lemma FinishedComposed(c: Chain, d: Draft, used: set<bytes>, us: seq<Transaction>, ts: seq<Transaction>, n: nat,
                                  room: Room, pairs: seq<Pending>, rewardSize: nat)
      requires ValidEnv(c.env) && Assembled(c.env, c.num, d, used) && Finished(c.num, d.batch + (d.collapse + us), ts)
      requires Listed(c, pairs) && us == Chosen(c, d.batch + d.collapse, room, pairs) && room.total == d.total
      requires Sized(d, rewardSize, room.blockSize) && Exact(c, d)
      requires n == |d.batch| + |d.collapse| <= |ts| && ts[..n] == d.batch + d.collapse
      ensures Composed(c, ts, n, room, pairs) && forall t | t in d.batch :: t in ts
    {
      SizeConcat(d.batch, d.collapse);
      Regrouped(d.batch, d.collapse, us);
      FrontKinds(c, d, used, ts, n);
      FrontMembers(d.batch, d.collapse, ts, n);
    }

    static lemma Regrouped(a: seq<Transaction>, b: seq<Transaction>, us: seq<Transaction>)
      ensures a + (b + us) == a + b + us
    {
    }

    static lemma FrontMembers(a: seq<Transaction>, b: seq<Transaction>, ts: seq<Transaction>, n: nat)
      requires n <= |ts| && ts[..n] == a + b
      ensures forall t | t in a :: t in ts
    {
      forall t | t in a ensures t in ts {
        assert t in ts[..n];
      }
    }

    static lemma FrontKinds(c: Chain, d: Draft, used: set<bytes>, ts: seq<Transaction>, n: nat)
      requires ValidEnv(c.env) && Assembled(c.env, c.num, d, used) && n <= |ts| && ts[..n] == d.batch + d.collapse
      ensures forall i | 0 <= i < n :: ts[i].kind != SYSTEM_UNSTAKE && ts[i].kind != FEE
    {
      assert Fits(c.env, c.num, d, used);
      forall i | 0 <= i < n ensures ts[i].kind != SYSTEM_UNSTAKE && ts[i].kind != FEE {
        assert ts[i] == (d.batch + d.collapse)[i];
        assert ts[i] in d.batch || ts[i] in d.collapse;
      }
    }

    /** The standard transactions of the block are those of the batch. */
    static lemma FinishedStandards(c: Chain, d: Draft, used: set<bytes>, us: seq<Transaction>, ts: seq<Transaction>)
      requires ValidEnv(c.env) && Assembled(c.env, c.num, d, used) && Finished(c.num, d.batch + (d.collapse + us), ts)
      requires forall u | u in us :: u.kind == SYSTEM_UNSTAKE
      ensures forall t | t in ts && IsStandard(t.kind) :: t in d.batch
    {
      assert Fits(c.env, c.num, d, used);
      forall t | t in ts && IsStandard(t.kind) ensures t in d.batch {
        assert t in d.batch + (d.collapse + us);
      }
    }

    static lemma FinishedHollow(c: Chain, d: Draft, used: set<bytes>, us: seq<Transaction>, ts: seq<Transaction>)
      requires ValidEnv(c.env) && Assembled(c.env, c.num, d, used) && Finished(c.num, d.batch + (d.collapse + us), ts)
      ensures var n := |d.batch + d.collapse|; n <= |ts| && ts[..n] == d.batch + d.collapse && (SomeHollow(ts) <==> SomeHollow(us))
    {
      FrontHollow(c, d, used);
      Regrouped(d.batch, d.collapse, us);
      HollowBehind(c.num, d.batch + d.collapse, us, ts);
    }

    static lemma FrontHollow(c: Chain, d: Draft, used: set<bytes>)
      requires ValidEnv(c.env) && Assembled(c.env, c.num, d, used)
      ensures forall t | t in d.batch + d.collapse :: !Hollow(t)
    {
      assert Fits(c.env, c.num, d, used);
    }

    static lemma HollowBehind(num: u64, front: seq<Transaction>, us: seq<Transaction>, ts: seq<Transaction>)
      requires (forall t | t in front :: !Hollow(t)) && Finished(num, front + us, ts)
      ensures |front| <= |ts| && ts[..|front|] == front && (SomeHollow(ts) <==> SomeHollow(us))
    {
      HollowConcat(front, us);
      if ts != front + us {
        var fee := ts[|front + us|];
        assert ts == front + us + [fee];
        HollowConcat(front + us, [fee]);
        assert [fee][0] == fee;
      }
    }

    lemma FinishedParts(c: Chain, d: Draft, used: set<bytes>, us: seq<Transaction>, claims: set<Claim>, ts: seq<Transaction>, rewardSize: nat)
      requires ValidEnv(c.env) && Assembled(c.env, c.num, d, used) && Unstakes(c, us, claims)
      requires Finished(c.num, d.batch + (d.collapse + us), ts)
      requires Sized(d, rewardSize, blockSize) && (us != [] ==> d.total + NonFeeSize(us) <= blockSize)
      ensures StakesOf(ts) == StakesOf(d.batch) && RewardRecord(ts) == RewardRecord(d.batch)
      ensures NonFeeSize(ts) <= blockSize <==> rewardSize <= blockSize
    {
      RestKinds(c, d, used, us, claims);
      FinishRest(c.num, d, us, d.collapse + us, ts, rewardSize);
    }

    method AddFee(c: Chain, body: seq<Transaction>) returns (ts: seq<Transaction>)
      requires ValidChain(c)
      ensures Finished(c.num, body, ts)
    {
      ts := body;
      if ts != [] {
        var fee := CreateFeeTx(c, ts);
        if fee.Some? {
          ts := ts + [fee.value];
        }
      }
    }

    lemma FinishedWell(c: Chain, d: Draft, used: set<bytes>, us: seq<Transaction>, claims: set<Claim>, ts: seq<Transaction>)
      requires ValidEnv(c.env) && Assembled(c.env, c.num, d, used) && Unstakes(c, us, claims)
      requires us != [] ==> forall t | t in d.batch + d.collapse :: t.kind != STAKE && t.kind != UNSTAKE
      requires Finished(c.num, d.batch + (d.collapse + us), ts)
      ensures Judged(c, ts)
    {
      var body := d.batch + (d.collapse + us);
      WholeApart(c, d, used, us, claims);
      forall i | 0 <= i < |ts| ensures JudgedAt(c, ts, i) {
        FinishedJudged(c.env, c.num, body, ts, i);
      }
      if AllGood(c.env, ts) {
        GoodIsFine(c.env, c.num, body, ts);
        FinishedOrdinary(c.env, c.num, body, ts);
        FinishedBalance(c.env, c.num, body, ts);
      }
    }

    lemma FinishRest(num: u64, d: Draft, us: seq<Transaction>, rest: seq<Transaction>, ts: seq<Transaction>, rewardSize: nat)
      requires rest == d.collapse + us && forall t | t in rest :: t.kind != STAKE && t.kind != REWARD
      requires Finished(num, d.batch + rest, ts)
      requires Sized(d, rewardSize, blockSize) && (us != [] ==> d.total + NonFeeSize(us) <= blockSize)
      ensures StakesOf(ts) == StakesOf(d.batch) && RewardRecord(ts) == RewardRecord(d.batch)
      ensures NonFeeSize(ts) <= blockSize <==> rewardSize <= blockSize
    {
      WholeStakes(num, d.batch, rest, ts);
      SizeConcat(d.collapse, us);
    }

    static lemma RestKinds(c: Chain, d: Draft, used: set<bytes>, us: seq<Transaction>, claims: set<Claim>)
      requires ValidEnv(c.env) && Assembled(c.env, c.num, d, used) && Unstakes(c, us, claims)
      ensures forall t | t in d.collapse + us :: t.kind != STAKE && t.kind != REWARD
    {
      assert Fits(c.env, c.num, d, used);
    }

    /** Rewards and the queue: everything up to the system unstakes. */
    method FillBlock(c: Chain) returns (ok: bool, d: Draft, ghost used: set<bytes>, ghost rewardSize: nat,
                                       ghost queue: seq<Transaction>, ghost reached: nat, ghost front: nat)
      requires Ready(c) && stakePool.Valid()
      modifies this`skipAddr, pool`txHashMap, pool`txSenderMap, pool`pending, pool`forged, stakePool`slotsReserved
      ensures Ready(c) && ok && Assembled(c.env, c.num, d, used) && Sized(d, rewardSize, blockSize)
      ensures FromPending(d.batch, old(pool.pending), pool.dropped)
      ensures |c.env.rewards| <= OUTPUTS_PER_TX ==> RewardRecord(d.batch) == c.env.rewards.Keys
      ensures |c.env.rewards| <= OUTPUTS_PER_TX ==> (rewardSize <= blockSize <==> RewardSize(|c.env.rewards|) <= blockSize)
      ensures Reserved(stakePool.params, old(stakePool.View()), d.batch, stakePool.View())
      ensures Exact(c, d) && (TookAll(old(pool.pending), pool.dropped, d.batch) || IsFull(old(pool.pending), |d.batch| + |d.collapse|, d.total, blockSize))
      ensures InQueue(queue, old(pool.pending)) && reached <= |queue|
      ensures reached == |queue| || FullAt(queue, reached, front, |d.batch| + |d.collapse|, d.total, blockSize)
      ensures c.env.rewards == map[] ==> front == 0
      ensures StakesDone(c, old(stakePool.View()), queue, reached, old(pool.pending), d.batch)
      ensures pool.forged == old(pool.forged) + Marked(d.batch)
    {
      var sorted := SortQueue(c);
      queue := sorted;
      ghost var senders := pool.txSenderMap.Keys;
      var outs := ListRewards(c.env.rewards);
      d, used := AddRewards(c, outs);
      rewardSize, front := d.total, |d.batch| + |d.collapse|;
      QueueStillWaits(queue, senders, used, pool.txSenderMap.Keys);
      StakesConcat([], d.batch);
      assert [] + d.batch == d.batch;
      ok, d, used, reached := FillQueue(c, d, sorted, used, rewardSize, old(pool.pending));
    }

    lemma SamePendingLeft(c: Chain, slots: Pool, queue: seq<Transaction>, k: nat, pending: seq<Transaction>, start: seq<Transaction>, ts: seq<Transaction>)
      requires ValidParams(stakePool.params) && k <= |queue| && StakesDone(c, slots, queue, k, pending, ts)
      requires forall t :: t in pending <==> t in start
      ensures StakesDone(c, slots, queue, k, start, ts)
    {
    }

    /** The queue, whose senders all have entries of their own. */
    method SortQueue(c: Chain) returns (queue: seq<Transaction>)
      requires Ready(c)
      modifies pool`pending
      ensures Ready(c) && queue == pool.pending && InQueue(queue, old(pool.pending)) && OwnSenders(queue)
      ensures (forall t :: t in pool.pending <==> t in old(pool.pending)) && SendersFiled(queue, pool.txSenderMap.Keys)
    {
      assert Prepared(c);
      queue := pool.GetQueue();
      assert Prepared(c);
      forall t | t in queue ensures IsStandard(t.kind) {
        TxPool.HoldsQueued(pool.View(), t);
      }
      PoolQueueWaits(pool.View(), {}, pool.txSenderMap.Keys);
      forall j | 0 <= j < |queue| ensures Sender(queue[j]) in pool.txSenderMap.Keys {
        assert Waits(queue[j], {}, pool.txSenderMap.Keys, pool.pending);
      }
    }

    /** The pending transactions in the order of their turns. */
    static ghost predicate InQueue(queue: seq<Transaction>, pending: seq<Transaction>)
    {
      TxPool.Sorted(queue) && multiset(queue) == multiset(pending) && forall t | t in queue :: IsStandard(t.kind)
    }

    /** The hashes of the standard transactions: those that are marked as forged. */
    static ghost function Marked(ts: seq<Transaction>): set<bytes>
    {
      set i | 0 <= i < |ts| && IsStandard(ts[i].kind) :: ts[i].hash
    }

    static lemma MarkedNone(ts: seq<Transaction>)
      requires forall t | t in ts :: t.kind == REWARD
      ensures Marked(ts) == {}
    {
    }

    static lemma MarkedNext(batch: seq<Transaction>, t: Transaction, batch': seq<Transaction>)
      requires IsStandard(t.kind) && (batch' == batch || batch' == batch + [t])
      ensures Marked(batch') == Marked(batch) + if batch' == batch then {} else {t.hash}
    {
      if batch' != batch {
        assert batch'[|batch|] == t;
        assert forall i | 0 <= i < |batch| :: batch'[i] == batch[i];
      }
    }

    static lemma MarkedInBlock(batch: seq<Transaction>, ts: seq<Transaction>)
      requires SameStandards(batch, ts)
      ensures Marked(ts) == Marked(batch)
    {
      forall h ensures h in Marked(ts) <==> h in Marked(batch) {
        if h in Marked(ts) {
          var i :| 0 <= i < |ts| && IsStandard(ts[i].kind) && ts[i].hash == h;
          assert ts[i] in ts && ts[i] in batch;
        }
        if h in Marked(batch) {
          var i :| 0 <= i < |batch| && IsStandard(batch[i].kind) && batch[i].hash == h;
          assert batch[i] in batch && batch[i] in ts;
        }
      }
    }

    /** The stakes among the first k of the queue are decided, and exactly the refused ones have left the pool. */
    ghost predicate StakesDone(c: Chain, slots: Pool, queue: seq<Transaction>, k: nat, pending: seq<Transaction>, ts: seq<Transaction>)
      requires ValidParams(stakePool.params) && k <= |queue|
      reads pool
    {
      && Decided(c.isValidator, stakePool.params, slots, queue, k, pool.dropped, ts)
      && Ahead(queue, k, ts)
      && OnlyRefusedLeft(queue, k, pool.dropped, ts, pending, pool.pending)
    }

    method FillQueue(c: Chain, d0: Draft, queue: seq<Transaction>, ghost used0: set<bytes>, ghost rewardSize: nat, ghost pending: seq<Transaction>)
        returns (ok: bool, d: Draft, ghost used: set<bytes>, ghost reached: nat)
      requires Ready(c) && stakePool.Valid() && Assembled(c.env, c.num, d0, used0) && used0 <= pool.txSenderMap.Keys
      requires OwnSenders(queue) && QueueWaits(queue, 0, used0, pool.txSenderMap.Keys, pool.pending)
      requires (forall t | t in queue :: IsStandard(t.kind)) && multiset(pending) == multiset(queue)
      requires Sized(d0, rewardSize, blockSize) && Exact(c, d0) && forall t :: t in pool.pending <==> t in pending
      requires StakesOf(d0.batch) == [] && forall t | t in d0.batch :: t.kind == REWARD
      modifies this`skipAddr, pool`txHashMap, pool`txSenderMap, pool`pending, pool`forged, stakePool`slotsReserved
      ensures Ready(c) && ok && Assembled(c.env, c.num, d, used) && Sized(d, rewardSize, blockSize) && Exact(c, d)
      ensures RewardRecord(d.batch) == RewardRecord(d0.batch) && FromPending(d.batch, pending, pool.dropped)
      ensures Reserved(stakePool.params, old(stakePool.View()), d.batch, stakePool.View())
      ensures TookAll(pending, pool.dropped, d.batch) || IsFull(pending, |d.batch| + |d.collapse|, d.total, blockSize)
      ensures reached <= |queue| && (reached == |queue| || FullAt(queue, reached, |d0.batch| + |d0.collapse|, |d.batch| + |d.collapse|, d.total, blockSize))
      ensures StakesDone(c, old(stakePool.View()), queue, reached, pending, d.batch)
      ensures pool.forged == old(pool.forged) + Marked(d.batch)
    {
      var limit := if |queue| < TX_BATCH_LIMIT then |queue| + |d0.batch| + |d0.collapse| + 1
                   else TX_BATCH_LIMIT - |d0.batch| - |d0.collapse| - 1;
      ghost var failed;
      ok, d, used, reached, failed := ForgeQueue(c, d0, queue, limit, used0, rewardSize, stakePool.View());
      assert StandsAt(c.isValidator, stakePool.params, old(stakePool.View()), queue, pool.dropped, old(pool.pending), reached, Stand(d.batch, failed, pool.pending));
      SamePendingLeft(c, old(stakePool.View()), queue, reached, old(pool.pending), pending, d.batch);
      QueueDone(pending, queue, pool.dropped, d, limit, blockSize);
      QueueIsPending(d.batch, d0.batch, queue, pending, pool.dropped);
    }

    static lemma QueueIsPending(batch: seq<Transaction>, start: seq<Transaction>, queue: seq<Transaction>, pending: seq<Transaction>, dropped: set<bytes>)
      requires FromQueue(batch, start, queue, dropped) && multiset(pending) == multiset(queue) && forall t | t in start :: t.kind == REWARD
      ensures FromPending(batch, pending, dropped)
    {
      forall t | t in batch && IsStandard(t.kind) ensures t in pending && t.hash !in dropped {
        assert t in multiset(queue);
      }
    }

    static lemma QueueDone(pending: seq<Transaction>, queue: seq<Transaction>, dropped: set<bytes>, d: Draft, limit: int, blockSize: nat)
      requires multiset(pending) == multiset(queue) && (|queue| < TX_BATCH_LIMIT ==> limit > |queue|)
      requires Taken(queue, |queue|, dropped, d.batch) || Stopped(queue, d, limit, blockSize)
      ensures TookAll(pending, dropped, d.batch) || IsFull(pending, |d.batch| + |d.collapse|, d.total, blockSize)
      ensures Stopped(queue, d, limit, blockSize) ==> IsFull(pending, |d.batch| + |d.collapse|, d.total, blockSize)
    {
      assert |pending| == |multiset(pending)| == |queue|;
      assert forall t :: t in pending <==> t in multiset(pending);
      assert forall t :: t in queue <==> t in multiset(queue);
      if Taken(queue, |queue|, dropped, d.batch) {
        forall t | t in pending && t.hash !in dropped && t.kind != STAKE ensures t in d.batch {
          assert t in queue;
          var j :| 0 <= j < |queue| && queue[j] == t;
          assert TakenAt(queue, dropped, d.batch, j);
        }
      }
    }

    /**
     ForgeBlock never fails, and reserves slots for exactly the stakes it takes. Unless the block is full it takes every
     pending transaction that was not evicted, a stake exactly when its outputs are allowed, its slots are free after
     those of the stakes taken before it and no earlier one was refused with an error; exactly the refused stakes leave
     the pool. Then come the repayments that the front part does not block and that fit. The validator passes every
     reward, collapse, fee and repayment it builds, except repayments of pairs without deposits; with one reward transaction it accepts the block exactly when that transaction fits, the pending transactions
     taken still pass, and no pair without deposits gets through. In particular it accepts it when the reward fits,
     all pending transactions pass and all pairs have deposits.
     */
    method ForgeBlock(c: Chain)
        returns (ok: bool, ts: seq<Transaction>, ghost n: nat, ghost total: nat, ghost pairs: seq<Pending>,
                 ghost queue: seq<Transaction>, ghost reached: nat, ghost front: nat)
      requires Ready(c) && stakePool.Valid() && [] !in stakePool.snapshot
      modifies this`skipAddr, pool`txHashMap, pool`txSenderMap, pool`pending, pool`forged, stakePool`slotsReserved
      ensures Ready(c) && ok && skipAddr == {}
      ensures FromPending(ts, old(pool.pending), pool.dropped)
      ensures n <= |ts| && Iterates(pairs, stakePool.snapshot) && Listed(c, pairs) && Composed(c, ts, n, Room(total, blockSize), pairs)
      ensures TookAll(old(pool.pending), pool.dropped, ts) || IsFull(old(pool.pending), n, total, blockSize)
      ensures InQueue(queue, old(pool.pending)) && reached <= |queue|
      ensures reached == |queue| || FullAt(queue, reached, front, n, total, blockSize)
      ensures c.env.rewards == map[] ==> front == 0
      ensures StakesDone(c, old(stakePool.View()), queue, reached, old(pool.pending), ts)
      ensures pool.forged == old(pool.forged) + Marked(ts)
      ensures Judged(c, ts)
      ensures |c.env.rewards| <= OUTPUTS_PER_TX ==> RewardRecord(ts) == c.env.rewards.Keys
      ensures |c.env.rewards| <= OUTPUTS_PER_TX ==>
        (NonFeeSize(ts) <= blockSize <==> RewardSize(|c.env.rewards|) <= blockSize)
      ensures SomeHollow(ts) <==> Through(c, ts[..n], Room(total, blockSize), pairs)
      ensures |c.env.rewards| <= OUTPUTS_PER_TX && blockSize == c.env.cfg.blockSize ==>
        (Accepted(c.env, c.num, ts) <==>
          && RewardSize(|c.env.rewards|) <= blockSize
          && StandardsPass(c.env, ts)
          && !Through(c, ts[..n], Room(total, blockSize), pairs))
      ensures
        && RewardSize(|c.env.rewards|) <= blockSize == c.env.cfg.blockSize && |c.env.rewards| <= OUTPUTS_PER_TX
        && StandardsPass(c.env, old(pool.pending)) && Payable(c, stakePool.snapshot)
        ==> Accepted(c.env, c.num, ts)
      ensures Reserved(stakePool.params, old(stakePool.View()), ts, stakePool.View())
    {
      var d: Draft;
      ghost var used, rewardSize;
      ok, d, used, rewardSize, queue, reached, front := FillBlock(c);
      assert Prepared(c);
      ts, n, pairs := Finish(c, d, used, rewardSize);
      MarkedInBlock(d.batch, ts);
      DecidedInBlock(c.isValidator, stakePool.params, old(stakePool.View()), queue, reached, pool.dropped, old(pool.pending), pool.pending, d.batch, ts);
      total := d.total;
      if |c.env.rewards| <= OUTPUTS_PER_TX && blockSize == c.env.cfg.blockSize {
        AcceptedWhen(c, ts, Through(c, ts[..n], Room(total, blockSize), pairs), RewardSize(|c.env.rewards|) <= blockSize);
      }
      PayableNothing(c, stakePool.snapshot, ts[..n], Room(total, blockSize), pairs);
      skipAddr := {};
    }
  }
}
