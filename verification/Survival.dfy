/**
 Which pending transactions a finalised block leaves valid. The pool drops the senders of the block's transactions;
 the others keep passing the validator unless a collapse of several owners took their coins, or they are stakes and
 the staking pool has changed.
 */
module Survival {
  import opened Words
  import opened Sums
  import opened Proto
  import opened Ledger
  import opened Validator
  import opened BlockValidator
  import opened Conservation
  import opened Accounts
  import TxPool

  // ----- which rows a block leaves

  lemma {:induction false} InsertAllKeeps(m: UtxoSet, es: seq<Entry>)
    requires InsertAll(m, es).Some?
    ensures forall k | k in m :: k in InsertAll(m, es).value && InsertAll(m, es).value[k] == m[k]
    ensures forall k | k in InsertAll(m, es).value :: k in m || exists e :: e in es && e.key == k
  {
    if es != [] {
      var init, last := es[..|es| - 1], es[|es| - 1];
      InsertAllKeeps(m, init);
      forall k | k in InsertAll(m, es).value ensures k in m || exists e :: e in es && e.key == k {
        if k == last.key {
          assert last in es;
        } else if k !in m {
          var e :| e in init && e.key == k;
          assert e in es;
        }
      }
    }
  }

  lemma {:induction false} EntryHash(ts: seq<Transaction>, e: Entry)
    requires e in BlockEntries(ts)
    ensures exists i | 0 <= i < |ts| :: ts[i].hash == e.key.hash
  {
    var init, t := ts[..|ts| - 1], ts[|ts| - 1];
    if e in BlockEntries(init) {
      EntryHash(init, e);
      var i :| 0 <= i < |init| && init[i].hash == e.key.hash;
      assert ts[i].hash == e.key.hash;
    } else {
      var j :| 0 <= j < |Entries(t)| && Entries(t)[j] == e;
      assert e == EntryAt(t, j);
      assert ts[|ts| - 1].hash == e.key.hash;
    }
  }

  lemma NotCreated(m: UtxoSet, ts: seq<Transaction>, k: OutKey)
    requires FreshHashes(m, ts) && k in m
    ensures forall e | e in BlockEntries(ts) :: e.key != k
  {
    forall e | e in BlockEntries(ts) ensures e.key != k {
      EntryHash(ts, e);
    }
  }

  /** An old row is there afterwards exactly when the block does not spend it. */
  lemma RowStays(m: UtxoSet, ts: seq<Transaction>, k: OutKey)
    requires Sound(m, ts) && FreshHashes(m, ts) && Process(m, ts).Some? && k in m
    ensures k in Process(m, ts).value <==> k !in Keys(BlockInputs(ts))
    ensures k in Process(m, ts).value ==> Process(m, ts).value[k] == m[k]
  {
    var left := SpendAll(m, BlockInputs(ts)).value;
    DistinctSpend(m, BlockInputs(ts));
    SpendAllSum(m, BlockInputs(ts), Amount);
    InsertAllKeeps(left, BlockEntries(ts));
    NotCreated(m, ts, k);
  }

  // ----- whose rows a block takes

  ghost predicate OkAt(env: Env, num: u64, ts: seq<Transaction>, i: nat)
    requires ValidEnv(env) && i < |ts|
  {
    TxOk(env, num, ts, ts[i])
  }

  /** Every transaction passes. */
  ghost predicate AllOk(env: Env, num: u64, ts: seq<Transaction>)
    requires ValidEnv(env)
  {
    forall i | 0 <= i < |ts| :: OkAt(env, num, ts, i)
  }

  lemma AcceptedAllOk(env: Env, num: u64, ts: seq<Transaction>)
    requires ValidEnv(env) && Accepted(env, num, ts)
    ensures AllOk(env, num, ts)
  {
  }

  /** The addresses whose outputs a transaction may spend. */
  ghost predicate Spends(t: Transaction, a: bytes)
  {
    HasInputs(t.kind) && a in Owners(t.inputs)
  }

  ghost predicate SpentIn(ts: seq<Transaction>, a: bytes)
  {
    exists i | 0 <= i < |ts| :: Spends(ts[i], a)
  }

  /** The output belongs to one of the owners the inputs name. */
  ghost predicate OwnedByOne(m: UtxoSet, ins: seq<TxInput>, i: TxInput)
  {
    Key(i) in m && m[Key(i)].to in Owners(ins)
  }

  lemma TakesFromOwners(env: Env, num: u64, ts: seq<Transaction>, t: Transaction)
    requires ValidEnv(env) && TxOk(env, num, ts, t) && HasInputs(t.kind)
    ensures forall k | 0 <= k < |t.inputs| :: OwnedByOne(env.utxo, t.inputs, t.inputs[k])
  {
    if t.kind == COLLAPSE {
      CollapseTakesOwners(env, num, t);
    } else if t.kind == SYSTEM_UNSTAKE {
      UnstakeTakesOwner(env, num, t);
    } else {
      StandardTakesOwner(env, t);
    }
  }

  lemma CollapseTakesOwners(env: Env, num: u64, t: Transaction)
    requires ValidEnv(env) && CollapseOk(env, num, t)
    ensures forall k | 0 <= k < |t.inputs| :: OwnedByOne(env.utxo, t.inputs, t.inputs[k])
  {
    forall k | 0 <= k < |t.inputs| ensures OwnedByOne(env.utxo, t.inputs, t.inputs[k]) {
      assert Matches(CollapseKnown(env.utxo, t.inputs), t.inputs[k]);
    }
  }

  lemma UnstakeTakesOwner(env: Env, num: u64, t: Transaction)
    requires ValidEnv(env) && SystemUnstakeOk(env, num, t)
    ensures forall k | 0 <= k < |t.inputs| :: OwnedByOne(env.utxo, t.inputs, t.inputs[k])
  {
    assert t.inputs[0].address == t.outputs[0].address;
    forall k | 0 <= k < |t.inputs| ensures OwnedByOne(env.utxo, t.inputs, t.inputs[k]) {
      assert Matches(Deposits(env.utxo, t.outputs[0].address), t.inputs[k]);
    }
  }

  lemma StandardTakesOwner(env: Env, t: Transaction)
    requires ValidEnv(env) && StandardOk(env, t)
    ensures forall k | 0 <= k < |t.inputs| :: OwnedByOne(env.utxo, t.inputs, t.inputs[k])
    ensures forall k | 0 <= k < |t.inputs| :: env.utxo[Key(t.inputs[k])].to == Sender(t)
  {
    forall k | 0 <= k < |t.inputs| ensures OwnedByOne(env.utxo, t.inputs, t.inputs[k]) && env.utxo[Key(t.inputs[k])].to == Sender(t) {
      assert Matches(Spendable(env, t), t.inputs[k]);
      assert t.inputs[0].address == Sender(t);
    }
  }

  lemma {:induction false} InputOf(ts: seq<Transaction>, i: TxInput) returns (k: nat, j: nat)
    requires i in BlockInputs(ts)
    ensures k < |ts| && HasInputs(ts[k].kind) && j < |ts[k].inputs| && ts[k].inputs[j] == i
  {
    var init, t := ts[..|ts| - 1], ts[|ts| - 1];
    if i in BlockInputs(init) {
      k, j := InputOf(init, i);
    } else {
      j :| 0 <= j < |InputsOf(t)| && InputsOf(t)[j] == i;
      k := |ts| - 1;
    }
  }

  /** An accepted block takes only outputs of addresses that its transactions name. */
  lemma TakenIsSpent(env: Env, num: u64, ts: seq<Transaction>, k: OutKey)
    requires ValidEnv(env) && AllOk(env, num, ts) && k in env.utxo && k in Keys(BlockInputs(ts))
    ensures SpentIn(ts, env.utxo[k].to)
  {
    var i :| i in BlockInputs(ts) && Key(i) == k;
    var n, j := InputOf(ts, i);
    assert OkAt(env, num, ts, n);
    TakesFromOwners(env, num, ts, ts[n]);
    assert OwnedByOne(env.utxo, ts[n].inputs, ts[n].inputs[j]);
    assert Spends(ts[n], env.utxo[k].to);
  }

  // ----- a transaction that waits

  /** What the validator reads after the block: the new rows and nonces, and any staking data. */
  ghost predicate Follows(env: Env, ts: seq<Transaction>, env': Env)
  {
    && env'.cfg == env.cfg && env'.signed == env.signed && env'.hashOf == env.hashOf
    && Process(env.utxo, ts) == Some(env'.utxo)
    && UpdateAll(env.nonces, ts) == Some(env'.nonces)
  }

  /** None of its inputs is spent by the block. */
  ghost predicate InputsLeft(ts: seq<Transaction>, t: Transaction)
  {
    forall i | 0 <= i < |t.inputs| :: Key(t.inputs[i]) !in Keys(BlockInputs(ts))
  }

  lemma StructSame(env: Env, env': Env, t: Transaction)
    requires ValidEnv(env) && env'.cfg == env.cfg && env'.signed == env.signed && env'.hashOf == env.hashOf
    ensures ValidEnv(env') && (StandardStructOk(env', t) <==> StandardStructOk(env, t))
    ensures UnstakeOk(env', t) <==> UnstakeOk(env, t)
  {
    assert Shaped(env', t) <==> Shaped(env, t);
    assert GoodInputs(env', t) <==> GoodInputs(env, t) by { assert forall i :: GoodInput(env', t.kind, i) <==> GoodInput(env, t.kind, i); }
    assert GoodOutputs(env', t) <==> GoodOutputs(env, t) by { assert forall o :: GoodOutput(env', t.kind, o) <==> GoodOutput(env, t.kind, o); }
  }

  lemma NonceSame(env: Env, ts: seq<Transaction>, env': Env, a: bytes)
    requires Follows(env, ts, env') && !SentBy(ts, a)
    ensures NextNonce(env', a) == NextNonce(env, a)
  {
    StoredStays(env.nonces, ts, a);
  }

  lemma {:induction false} PartOfTotal(m: UtxoSet, k: OutKey)
    requires k in m
    ensures m[k].amount <= Total(m)
  {
    MapSumRemove(m, k, Amount);
  }

  lemma InputSurvives(env: Env, num: u64, ts: seq<Transaction>, env': Env, t: Transaction, i: nat)
    requires ValidEnv(env) && Accepted(env, num, ts) && FreshHashes(env.utxo, ts) && Follows(env, ts, env')
    requires StandardOk(env, t) && i < |t.inputs|
    ensures Matches(Spendable(env', t), t.inputs[i]) <==> Key(t.inputs[i]) !in Keys(BlockInputs(ts))
  {
    assert Matches(Spendable(env, t), t.inputs[i]);
    AcceptedSound(env, num, ts);
    RowStays(env.utxo, ts, Key(t.inputs[i]));
  }

  lemma {:induction false} SubTotal(m: UtxoSet, n: UtxoSet)
    requires forall k | k in m :: k in n && n[k] == m[k]
    ensures Total(m) <= Total(n)
    decreases |m|
  {
    if m != map[] {
      var k :| k in m;
      assert (m - {k}).Keys == m.Keys - {k};
      MapSumRemove(m, k, Amount);
      MapSumRemove(n, k, Amount);
      SubTotal(m - {k}, n - {k});
    }
  }

  /** A purse with a coin in it is worth something, as long as the supply fits a word. */
  lemma PurseCounts(env: Env, t: Transaction, i: TxInput)
    requires Total(env.utxo) < U64 && Matches(Spendable(env, t), i) && i.amount > 0
    ensures Spendable(env, t) != map[] && Wrap(Total(Spendable(env, t))) != 0
  {
    SubTotal(Spendable(env, t), env.utxo);
    PartOfTotal(Spendable(env, t), Key(i));
    SmallWrap(Total(Spendable(env, t)));
  }

  lemma InputsSurvive(env: Env, num: u64, ts: seq<Transaction>, env': Env, t: Transaction)
    requires ValidEnv(env) && Accepted(env, num, ts) && FreshHashes(env.utxo, ts) && Follows(env, ts, env')
    requires StandardOk(env, t) && !SentBy(ts, Sender(t)) && Total(env'.utxo) < U64
    ensures TxInputsOk(env', t) <==> InputsLeft(ts, t)
  {
    NonceSame(env, ts, env', Sender(t));
    MatchesSurvive(env, num, ts, env', t);
    if InputsLeft(ts, t) {
      FirstInput(env, env', t);
      PurseCounts(env', t, t.inputs[0]);
    }
  }

  lemma FirstInput(env: Env, env': Env, t: Transaction)
    requires ValidEnv(env) && StandardOk(env, t) && InputsMatch(Spendable(env', t), t.inputs)
    ensures t.inputs != [] && t.inputs[0].amount > 0 && Matches(Spendable(env', t), t.inputs[0])
  {
    assert GoodInput(env, t.kind, t.inputs[0]);
  }

  lemma MatchesSurvive(env: Env, num: u64, ts: seq<Transaction>, env': Env, t: Transaction)
    requires ValidEnv(env) && Accepted(env, num, ts) && FreshHashes(env.utxo, ts) && Follows(env, ts, env')
    requires StandardOk(env, t)
    ensures InputsMatch(Spendable(env', t), t.inputs) <==> InputsLeft(ts, t)
  {
    forall i | 0 <= i < |t.inputs| ensures Matches(Spendable(env', t), t.inputs[i]) <==> Key(t.inputs[i]) !in Keys(BlockInputs(ts)) {
      InputSurvives(env, num, ts, env', t, i);
    }
  }

  /**
   A transaction that passed before an accepted block of other senders passes after it exactly when the block took
   none of its inputs and, if it is a stake, the staking pool still lets it in.
   */
  lemma SurvivesIff(env: Env, num: u64, ts: seq<Transaction>, env': Env, t: Transaction)
    requires ValidEnv(env) && Accepted(env, num, ts) && FreshHashes(env.utxo, ts) && Follows(env, ts, env')
    requires StandardOk(env, t) && !SentBy(ts, Sender(t)) && Total(env'.utxo) < U64
    ensures ValidEnv(env')
    ensures StandardOk(env', t) <==> InputsLeft(ts, t) && (t.kind == STAKE ==> StakeTypeOk(env', t))
  {
    StructSame(env, env', t);
    InputsSurvive(env, num, ts, env', t);
  }

  /** In particular when no transaction of the block names its sender as an owner. */
  lemma UntouchedSurvives(env: Env, num: u64, ts: seq<Transaction>, env': Env, t: Transaction)
    requires ValidEnv(env) && Accepted(env, num, ts) && FreshHashes(env.utxo, ts) && Follows(env, ts, env')
    requires StandardOk(env, t) && !SpentIn(ts, Sender(t)) && Total(env'.utxo) < U64
    ensures ValidEnv(env')
    ensures StandardOk(env', t) <==> (t.kind == STAKE ==> StakeTypeOk(env', t))
  {
    AcceptedAllOk(env, num, ts);
    if SentBy(ts, Sender(t)) { SentIsSpent(env, num, ts, Sender(t)); }
    StandardTakesOwner(env, t);
    forall i | 0 <= i < |t.inputs| ensures Key(t.inputs[i]) !in Keys(BlockInputs(ts)) {
      assert OwnedByOne(env.utxo, t.inputs, t.inputs[i]);
      if Key(t.inputs[i]) in Keys(BlockInputs(ts)) { TakenIsSpent(env, num, ts, Key(t.inputs[i])); }
    }
    SurvivesIff(env, num, ts, env', t);
  }

  lemma SentIsSpent(env: Env, num: u64, ts: seq<Transaction>, a: bytes)
    requires ValidEnv(env) && AllOk(env, num, ts) && SentBy(ts, a)
    ensures SpentIn(ts, a)
  {
    var i :| 0 <= i < |ts| && !IsSystem(ts[i].kind) && Sender(ts[i]) == a;
    assert OkAt(env, num, ts, i);
    StandardSpends(env, ts[i]);
  }

  lemma StandardSpends(env: Env, t: Transaction)
    requires ValidEnv(env) && StandardOk(env, t)
    ensures Spends(t, Sender(t))
  {
    assert t.inputs[0].address == Sender(t);
  }

  // ----- the pool after the block

  /** A collapse of one owner's outputs, as the forger builds them. */
  ghost predicate OneOwner(t: Transaction)
  {
    forall i | 0 <= i < |t.inputs| :: t.inputs[i].address == Sender(t)
  }

  /** The pool has no entry of the address after the block. */
  ghost predicate Dropped(ts: seq<Transaction>, a: bytes)
  {
    exists i | 0 <= i < |ts| :: TxPool.Cleans(ts[i].kind) && ts[i].inputs != [] && Sender(ts[i]) == a
  }

  ghost predicate SingleOwners(ts: seq<Transaction>)
  {
    forall i | 0 <= i < |ts| && ts[i].kind == COLLAPSE :: OneOwner(ts[i])
  }

  /** When no collapse has several owners, the pool drops every address whose outputs the block may take. */
  lemma SpentIsDropped(env: Env, num: u64, ts: seq<Transaction>, a: bytes)
    requires ValidEnv(env) && AllOk(env, num, ts) && SingleOwners(ts) && SpentIn(ts, a)
    ensures Dropped(ts, a)
  {
    var i :| 0 <= i < |ts| && Spends(ts[i], a);
    assert OkAt(env, num, ts, i);
    OneSender(env, num, ts, ts[i]);
    assert TxPool.Cleans(ts[i].kind) && ts[i].inputs != [] && Sender(ts[i]) == a;
  }

  lemma OneSender(env: Env, num: u64, ts: seq<Transaction>, t: Transaction)
    requires ValidEnv(env) && TxOk(env, num, ts, t) && HasInputs(t.kind) && (t.kind == COLLAPSE ==> OneOwner(t))
    ensures OneOwner(t)
  {
  }

  /** All pending transactions that are no stakes pass. */
  ghost predicate Waiting(env: Env, pending: seq<Transaction>)
    requires ValidEnv(env)
  {
    forall t | t in pending :: Pass(env, t)
  }

  ghost predicate Pass(env: Env, t: Transaction)
    requires ValidEnv(env)
  {
    t.kind != STAKE ==> StandardOk(env, t)
  }

  /** The rewards of a block's proposer are no matter of a standard transaction. */
  lemma RewardsIrrelevant(env: Env, env': Env, t: Transaction)
    requires ValidEnv(env) && env' == env.(rewards := env'.rewards)
    ensures ValidEnv(env') && (StandardOk(env', t) <==> StandardOk(env, t))
  {
    StructSame(env, env', t);
    InputsSame(env, env', t);
    StakeTypeSame(env, env', t);
  }

  lemma InputsSame(env: Env, env': Env, t: Transaction)
    requires env' == env.(rewards := env'.rewards)
    ensures TxInputsOk(env', t) <==> TxInputsOk(env, t)
  {
    assert Spendable(env', t) == Spendable(env, t) && NextNonce(env', Sender(t)) == NextNonce(env, Sender(t));
  }

  lemma StakeTypeSame(env: Env, env': Env, t: Transaction)
    requires env' == env.(rewards := env'.rewards)
    ensures StakeTypeOk(env', t) <==> StakeTypeOk(env, t)
  {
    assert forall n :: NumberStakers(env', n) == NumberStakers(env, n);
  }

  lemma RewardsNoMatter(env: Env, env': Env, pending: seq<Transaction>)
    requires ValidEnv(env) && env' == env.(rewards := env'.rewards) && Waiting(env, pending)
    ensures ValidEnv(env') && Waiting(env', pending)
  {
    forall t | t in pending ensures Pass(env', t) {
      assert Pass(env, t);
      RewardsIrrelevant(env, env', t);
    }
  }

  /**
   What Finalize leaves in the queue after an accepted block without collapses of several owners: every pending
   transaction that is no stake still passes.
   */
  lemma LeftoversPass(env: Env, num: u64, ts: seq<Transaction>, env': Env, before: seq<Transaction>, after: seq<Transaction>)
    requires ValidEnv(env) && Accepted(env, num, ts) && FreshHashes(env.utxo, ts) && Follows(env, ts, env')
    requires Total(env'.utxo) < U64 && SingleOwners(ts)
    requires Waiting(env, before) && forall t | t in after :: t in before && !Dropped(ts, Sender(t))
    ensures ValidEnv(env') && Waiting(env', after)
  {
    AcceptedAllOk(env, num, ts);
    forall t | t in after ensures Pass(env', t) {
      assert Pass(env, t);
      if t.kind != STAKE {
        if SpentIn(ts, Sender(t)) { SpentIsDropped(env, num, ts, Sender(t)); }
        UntouchedSurvives(env, num, ts, env', t);
      }
    }
  }
}
