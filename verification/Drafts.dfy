/** A block being forged: its parts, what they satisfy together, and why the validator accepts the result. */
module Drafts {
  import opened Words
  import opened Sums
  import opened Proto
  import opened Ledger
  import opened Validator
  import opened BlockValidator
  import opened Conservation
  import opened Forged

  /** Reward and standard transactions, collapse transactions, and the size the forger has counted so far. */
  datatype Draft = Draft(batch: seq<Transaction>, collapse: seq<Transaction>, total: nat)

  // ----- members

  ghost predicate KindFits(t: Transaction)
  {
    t.kind != FEE && t.kind != GENESIS && (t.kind == REWARD ==> t.inputs == [] && t.fee == 0)
  }

  /** A transaction that may go into a block, as far as it alone is concerned. */
  ghost predicate Fine(env: Env, num: u64, t: Transaction)
    requires ValidEnv(env)
  {
    KindFits(t) && AlwaysOk(env, num, t) && Takes(env.utxo, t)
  }

  /** It passes in whatever block. */
  ghost predicate AlwaysOk(env: Env, num: u64, t: Transaction)
    requires ValidEnv(env)
  {
    forall ts: seq<Transaction> :: TxOk(env, num, ts, t)
  }

  lemma OkAlways(env: Env, num: u64, t: Transaction)
    requires ValidEnv(env) && t.kind != FEE && TxOk(env, num, [], t)
    ensures AlwaysOk(env, num, t)
  {
    forall ts: seq<Transaction> ensures TxOk(env, num, ts, t) { }
  }

  lemma FineMeans(env: Env, num: u64, ts: seq<Transaction>, t: Transaction)
    requires ValidEnv(env) && Fine(env, num, t)
    ensures TxOk(env, num, ts, t) && Takes(env.utxo, t)
    ensures t.kind != FEE && (t.kind == REWARD ==> t.inputs == [] && t.fee == 0)
    ensures HasInputs(t.kind) || t.kind == REWARD
  {
    assert TxOk(env, num, ts, t);
  }

  lemma FineStandard(env: Env, num: u64, t: Transaction)
    requires ValidEnv(env) && StandardOk(env, t)
    ensures Fine(env, num, t) && IsStandard(t.kind)
  {
    OkAlways(env, num, t);
    StandardTakes(env, t);
  }

  lemma FineCollapse(env: Env, num: u64, ks: seq<OutKey>, to: bytes, t: Transaction)
    requires ValidEnv(env) && GoodLedger(env.utxo) && CollapseOf(env.utxo, num, ks, to, t)
    ensures Fine(env, num, t) && ClaimOf(t) == Plain(to) && Sender(t) == to && Owners(t.inputs) == {to}
  {
    CollapseAccepted(env, num, ks, to, t);
    OkAlways(env, num, t);
    CollapseTakes(env.utxo, num, ks, to, t);
    CollapseOwner(env.utxo, num, ks, to, t);
  }

  lemma FineUnstake(env: Env, num: u64, ks: seq<OutKey>, validator: bytes, elector: bytes, t: Transaction)
    requires ValidEnv(env) && GoodLedger(env.utxo) && UnstakeOf(env.utxo, num, ks, validator, elector, t)
    ensures Fine(env, num, t) && ClaimOf(t) == Deposited(elector, validator)
  {
    UnstakeAccepted(env, num, ks, validator, elector, t);
    OkAlways(env, num, t);
    UnstakeTakes(env.utxo, num, ks, validator, elector, t);
  }

  lemma FineReward(env: Env, num: u64, t: Transaction)
    requires ValidEnv(env) && t.kind == REWARD && RewardTxOk(env, num, t) && t.inputs == [] && t.fee == 0
    ensures Fine(env, num, t) && ClaimOf(t) == Nothing
  {
    OkAlways(env, num, t);
  }

  // ----- drafts

  ghost predicate AllFine(env: Env, num: u64, ts: seq<Transaction>)
    requires ValidEnv(env)
  {
    forall t | t in ts :: Fine(env, num, t)
  }

  /** Standard transactions as the queue has them, whether or not they still pass; all others are fine. */
  ghost predicate AllTaken(env: Env, num: u64, ts: seq<Transaction>)
    requires ValidEnv(env)
  {
    forall t | t in ts :: IsStandard(t.kind) || Fine(env, num, t)
  }

  /** The addresses in use: senders of standard transactions and owners of collapsed outputs. */
  ghost predicate Uses(ts: seq<Transaction>, used: set<bytes>)
  {
    forall t | t in ts :: t.kind == REWARD || (Sender(t) in used && (IsStandard(t.kind) || t.kind == COLLAPSE))
  }

  ghost predicate Members(env: Env, num: u64, d: Draft)
    requires ValidEnv(env)
  {
    AllTaken(env, num, d.batch) && AllFine(env, num, d.collapse)
  }

  ghost predicate Claims(d: Draft)
  {
    Apart(d.batch) && Apart(d.collapse) && Clear(d.batch, d.collapse)
  }

  ghost predicate Addresses(d: Draft, used: set<bytes>)
  {
    Uses(d.batch, used) && Uses(d.collapse, used) && forall t | t in d.collapse :: t.kind == COLLAPSE
  }

  /** A draft whose members claim different outputs and belong to the addresses in use. */
  ghost predicate Assembled(env: Env, num: u64, d: Draft, used: set<bytes>)
    requires ValidEnv(env)
  {
    forall x: Draft | x == d :: Fits(env, num, x, used)
  }

  ghost predicate Fits(env: Env, num: u64, d: Draft, used: set<bytes>)
    requires ValidEnv(env)
  {
    Members(env, num, d) && Claims(d) && Addresses(d, used)
  }

  lemma EmptyDraft(env: Env, num: u64)
    requires ValidEnv(env)
    ensures Assembled(env, num, Draft([], [], 0), {})
  {
  }

  /** An address not in use overlaps no claim of the list. */
  lemma UnusedIsClear(ts: seq<Transaction>, used: set<bytes>, t: Transaction)
    requires Uses(ts, used) && (t.kind == REWARD || (Sender(t) !in used && (IsStandard(t.kind) || t.kind == COLLAPSE)))
    ensures Clear(ts, [t]) && Clear([t], ts)
  {
    forall x | x in ts ensures !Overlap(ClaimOf(x), ClaimOf(t)) && !Overlap(ClaimOf(t), ClaimOf(x)) {
      assert x.kind == REWARD || Sender(x) in used;
    }
  }

  lemma PushApart(ts: seq<Transaction>, t: Transaction)
    requires Apart(ts) && Clear(ts, [t])
    ensures Apart(ts + [t])
  {
    assert Apart([t]);
    ApartConcat(ts, [t]);
  }

  /** Only the parts matter, not the counted size, and more addresses may be in use. */
  lemma SameParts(env: Env, num: u64, d: Draft, used: set<bytes>, d': Draft, used': set<bytes>)
    requires ValidEnv(env) && Assembled(env, num, d, used)
    requires d'.batch == d.batch && d'.collapse == d.collapse && used <= used'
    ensures Assembled(env, num, d', used')
  {
    assert Fits(env, num, d, used);
  }

  lemma AddToBatch(env: Env, num: u64, d: Draft, used: set<bytes>, t: Transaction, d': Draft, used': set<bytes>)
    requires ValidEnv(env) && Assembled(env, num, d, used) && (IsStandard(t.kind) || Fine(env, num, t))
    requires t.kind == REWARD || (Sender(t) !in used && IsStandard(t.kind))
    requires d'.batch == d.batch + [t] && d'.collapse == d.collapse
    requires used <= used' && (t.kind == REWARD || Sender(t) in used')
    ensures Assembled(env, num, d', used')
  {
    assert Fits(env, num, d, used);
    UnusedIsClear(d.batch, used, t);
    UnusedIsClear(d.collapse, used, t);
    PushApart(d.batch, t);
    ClearPush(d.batch, t, d.collapse);
  }

  lemma ClearPush(ts: seq<Transaction>, t: Transaction, us: seq<Transaction>)
    requires Clear(ts, us) && Clear([t], us)
    ensures Clear(ts + [t], us)
  {
    forall x, u | x in ts + [t] && u in us ensures !Overlap(ClaimOf(x), ClaimOf(u)) {
      assert x in ts || x in [t];
    }
  }

  lemma ClearPushRight(us: seq<Transaction>, ts: seq<Transaction>, t: Transaction)
    requires Clear(us, ts) && Clear(us, [t])
    ensures Clear(us, ts + [t])
  {
    forall u, x | u in us && x in ts + [t] ensures !Overlap(ClaimOf(u), ClaimOf(x)) {
      assert x in ts || x in [t];
    }
  }

  lemma AddToCollapse(env: Env, num: u64, d: Draft, used: set<bytes>, t: Transaction, d': Draft, used': set<bytes>)
    requires ValidEnv(env) && Assembled(env, num, d, used) && Fine(env, num, t) && t.kind == COLLAPSE
    requires Sender(t) !in used && used <= used' && Sender(t) in used'
    requires d'.batch == d.batch && d'.collapse == d.collapse + [t]
    ensures Assembled(env, num, d', used')
  {
    assert Fits(env, num, d, used);
    UnusedIsClear(d.batch, used, t);
    UnusedIsClear(d.collapse, used, t);
    PushApart(d.collapse, t);
    ClearPushRight(d.batch, d.collapse, t);
  }

  // ----- the finished block

  /** Sums of a list of fine transactions: what goes in comes out or is paid as a fee. */
  lemma {:induction false} FineSums(env: Env, num: u64, ts: seq<Transaction>)
    requires ValidEnv(env) && AllFine(env, num, ts)
    ensures SeqSum(ts, BalanceIn) == SeqSum(ts, BalanceOut) + SeqSum(ts, FeeOf)
  {
    if ts != [] {
      var t := ts[|ts| - 1];
      assert t in ts;
      FineSums(env, num, ts[..|ts| - 1]);
      FineOne(env, num, t);
    }
  }

  lemma FineOne(env: Env, num: u64, t: Transaction)
    requires ValidEnv(env) && Fine(env, num, t)
    ensures BalanceIn(t) == BalanceOut(t) + FeeOf(t)
  {
    FineMeans(env, num, [], t);
    if t.kind == REWARD {
      FreeOfCharge(t);
    } else {
      TxInputsExist(env, num, [], t);
    }
  }

  /** createFeeTx. */
  ghost predicate FeeTxFor(num: u64, ts: seq<Transaction>, t: Transaction)
  {
    && t.kind == FEE && t.num == num && t.fee == 0 && t.inputs == []
    && t.outputs == [TxOutput(BLACK_HOLE, Wrap(SeqSum(ts, FeeOf)), [])]
  }

  /** The finished list: a fee transaction at the end unless the fees add up to zero. */
  ghost predicate Finished(num: u64, ts: seq<Transaction>, all: seq<Transaction>)
  {
    if Wrap(SeqSum(ts, FeeOf)) == 0 then all == ts
    else |all| == |ts| + 1 && all[..|ts|] == ts && FeeTxFor(num, ts, all[|ts|])
  }

  lemma FeeSums(num: u64, ts: seq<Transaction>, t: Transaction)
    requires FeeTxFor(num, ts, t)
    ensures BalanceIn(t) == 0 && BalanceOut(t) == Wrap(SeqSum(ts, FeeOf)) && FeeOf(t) == 0
  {
    FreeOfCharge(t);
    assert t.outputs[..0] == [];
    assert OutSum(t) == SeqSum(t.outputs[..0], OutAmount) + t.outputs[0].amount;
  }

  lemma FinishedSums(num: u64, ts: seq<Transaction>, all: seq<Transaction>)
    requires Finished(num, ts, all) && SeqSum(ts, BalanceIn) == SeqSum(ts, BalanceOut) + SeqSum(ts, FeeOf)
    ensures Wrap(SeqSum(all, BalanceIn)) == Wrap(SeqSum(all, BalanceOut))
    ensures BalanceInputs(all) == BalanceInputs(ts)
  {
    WrapAdd(SeqSum(ts, BalanceOut), SeqSum(ts, FeeOf));
    if all != ts {
      FeeSums(num, ts, all[|ts|]);
    }
  }

  lemma FinishedFees(num: u64, ts: seq<Transaction>, all: seq<Transaction>)
    requires Finished(num, ts, all)
    ensures SeqSum(all, FeeOf) == SeqSum(ts, FeeOf)
  {
    if all != ts {
      FeeSums(num, ts, all[|ts|]);
    }
  }

  lemma FinishedBalance(env: Env, num: u64, ts: seq<Transaction>, all: seq<Transaction>)
    requires ValidEnv(env) && AllFine(env, num, ts) && Apart(ts) && Finished(num, ts, all)
    ensures BalanceOk(all)
  {
    forall t | t in ts ensures Takes(env.utxo, t) {
      FineMeans(env, num, [], t);
    }
    ApartIsDistinct(env.utxo, ts);
    FineSums(env, num, ts);
    FinishedSums(num, ts, all);
  }

  // ----- which of its members the validator passes

  /** A system unstake that pays nothing back. */
  predicate Hollow(t: Transaction)
  {
    t.kind == SYSTEM_UNSTAKE && t.inputs == []
  }

  /** What the validator still has to find: a standard transaction that passes now, a system unstake with inputs. */
  ghost predicate Good(env: Env, t: Transaction)
    requires ValidEnv(env)
  {
    (IsStandard(t.kind) ==> StandardOk(env, t)) && !Hollow(t)
  }

  ghost predicate AllGood(env: Env, ts: seq<Transaction>)
    requires ValidEnv(env)
  {
    forall i | 0 <= i < |ts| :: Good(env, ts[i])
  }

  /** Everything the forger puts together before the fee. */
  ghost predicate AllForged(env: Env, num: u64, ts: seq<Transaction>)
    requires ValidEnv(env)
  {
    forall t | t in ts :: IsStandard(t.kind) || Hollow(t) || Fine(env, num, t)
  }

  lemma GoodPasses(env: Env, num: u64, ts: seq<Transaction>, t: Transaction)
    requires ValidEnv(env) && (IsStandard(t.kind) || Hollow(t) || Fine(env, num, t))
    ensures TxOk(env, num, ts, t) <==> Good(env, t)
    ensures t.kind != FEE && (Good(env, t) ==> Fine(env, num, t))
  {
    if IsStandard(t.kind) {
      if StandardOk(env, t) { FineStandard(env, num, t); }
    } else if !Hollow(t) {
      FineMeans(env, num, ts, t);
    }
  }

  /** The validator passes exactly the good members: the fee transaction that is there is the one it expects. */
  lemma FinishedJudged(env: Env, num: u64, ts: seq<Transaction>, all: seq<Transaction>, i: nat)
    requires ValidEnv(env) && AllForged(env, num, ts) && Finished(num, ts, all) && i < |all|
    ensures TxOk(env, num, all, all[i]) <==> Good(env, all[i])
  {
    if i < |ts| {
      assert all[i] == ts[i] && ts[i] in ts;
      GoodPasses(env, num, all, all[i]);
    } else {
      FinishedFees(num, ts, all);
      FeePasses(env, num, ts, all, all[i]);
    }
  }

  lemma FeePasses(env: Env, num: u64, ts: seq<Transaction>, all: seq<Transaction>, t: Transaction)
    requires ValidEnv(env) && FeeTxFor(num, ts, t) && SeqSum(all, FeeOf) == SeqSum(ts, FeeOf) && Wrap(SeqSum(ts, FeeOf)) != 0
    ensures TxOk(env, num, all, t) && Good(env, t)
  {
  }

  lemma GoodIsFine(env: Env, num: u64, ts: seq<Transaction>, all: seq<Transaction>)
    requires ValidEnv(env) && AllForged(env, num, ts) && Finished(num, ts, all) && AllGood(env, all)
    ensures AllFine(env, num, ts)
  {
    forall t | t in ts ensures Fine(env, num, t) {
      var i :| 0 <= i < |ts| && ts[i] == t;
      assert all[i] == t;
      GoodPasses(env, num, [], t);
    }
  }

  /** Only input-bearing transactions have inputs, so the block keeps the supply equation. */
  lemma FinishedOrdinary(env: Env, num: u64, ts: seq<Transaction>, all: seq<Transaction>)
    requires ValidEnv(env) && AllFine(env, num, ts) && Finished(num, ts, all)
    ensures NoLooseInputs(all)
  {
    forall i | 0 <= i < |all| && !HasInputs(all[i].kind) ensures all[i].inputs == [] {
      if i < |ts| {
        assert all[i] == ts[i] && ts[i] in ts;
        FineMeans(env, num, [], all[i]);
      }
    }
  }

  // ----- sizes and rewards of concatenations

  lemma {:induction false} SizeConcat(a: seq<Transaction>, b: seq<Transaction>)
    ensures NonFeeSize(a + b) == NonFeeSize(a) + NonFeeSize(b)
  {
    if b == [] {
      assert a + b == a;
    } else {
      SizeConcat(a, b[..|b| - 1]);
      assert (a + b)[..|a + b| - 1] == a + b[..|b| - 1];
    }
  }

  lemma SizePush(a: seq<Transaction>, t: Transaction)
    requires t.kind != FEE
    ensures NonFeeSize(a + [t]) == NonFeeSize(a) + TransactionSize(t)
  {
    assert (a + [t])[..|a|] == a;
  }

  lemma {:induction false} RecordConcat(a: seq<Transaction>, b: seq<Transaction>)
    ensures RewardRecord(a + b) == RewardRecord(a) + RewardRecord(b)
  {
    if b == [] {
      assert a + b == a;
    } else {
      RecordConcat(a, b[..|b| - 1]);
      assert (a + b)[..|a + b| - 1] == a + b[..|b| - 1];
    }
  }

  lemma {:induction false} NoRewards(ts: seq<Transaction>)
    requires forall t | t in ts :: t.kind != REWARD
    ensures RewardRecord(ts) == {}
  {
    if ts != [] {
      NoRewards(ts[..|ts| - 1]);
    }
  }
}
