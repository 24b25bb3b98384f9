/**
 What validateCollapseTx guarantees: which owners get an output, which coins are spent, and what happens to
 each address's balance. The check compares inputs with the outputs of all claimed owners together, so an input
 may name one owner's coin and claim another owner; balances are kept exactly when the claims add up per owner.
 */
module Collapse {
  import opened Words
  import opened Sums
  import opened Proto
  import opened Ledger
  import opened Validator

  // ----- sums by owner

  function Same(n: nat): nat { n }

  ghost function Claims(ins: seq<TxInput>, owners: set<bytes>): (r: map<bytes, nat>)
    ensures r.Keys == owners
    ensures forall a | a in owners :: r[a] == Claimed(ins, a)
  {
    map a | a in owners :: Claimed(ins, a)
  }

  lemma {:induction false} ClaimsTotal(ins: seq<TxInput>, owners: set<bytes>)
    requires Owners(ins) <= owners
    ensures MapSum(Claims(ins, owners), Same) == SeqSum(ins, InAmount)
  {
    if ins == [] {
      AllZero(Claims(ins, owners));
    } else {
      var init, last := ins[..|ins| - 1], ins[|ins| - 1];
      assert ins == init + [last];
      OwnersPush(init, last);
      ClaimsTotal(init, owners);
      ClaimsPush(init, last, owners);
      SeqSumPush(init, last, InAmount);
    }
  }

  lemma ClaimsPush(init: seq<TxInput>, last: TxInput, owners: set<bytes>)
    requires last.address in owners
    ensures MapSum(Claims(init + [last], owners), Same) == MapSum(Claims(init, owners), Same) + last.amount
  {
    var before, after := Claims(init, owners), Claims(init + [last], owners);
    forall a | a in owners ensures after[a] == before[a] + (if a == last.address then last.amount else 0) {
      SeqSumPush(init, last, ClaimWeight(a));
    }
    var sum: nat := before[last.address] + last.amount;
    assert after == before[last.address := sum];
    MapSumUpdate<bytes, nat>(before, last.address, sum, Same);
  }

  lemma {:induction false} AllZero(m: map<bytes, nat>)
    requires forall a | a in m :: m[a] == 0
    ensures MapSum(m, Same) == 0
    decreases |m|
  {
    if m != map[] {
      var a :| a in m;
      MapSumRemove(m, a, Same);
      assert (m - {a}).Keys == m.Keys - {a};
      AllZero(m - {a});
    }
  }

  ghost function Receivers(outs: seq<TxOutput>): set<bytes>
  {
    set i | 0 <= i < |outs| :: outs[i].address
  }

  lemma ReceiversPush(outs: seq<TxOutput>)
    requires outs != []
    ensures Receivers(outs) == Receivers(outs[..|outs| - 1]) + {outs[|outs| - 1].address}
  {
    var init := outs[..|outs| - 1];
    forall i | 0 <= i < |outs| ensures outs[i].address in Receivers(init) + {outs[|outs| - 1].address} {
      if i < |init| { assert init[i] == outs[i]; }
    }
    forall i | 0 <= i < |init| ensures init[i].address in Receivers(outs) { assert outs[i] == init[i]; }
  }

  /** Distinct receivers, each paid what was claimed from it: together, the claims of the receivers. */
  lemma {:induction false} OutputsTotal(ins: seq<TxInput>, outs: seq<TxOutput>)
    requires forall i | 0 <= i < |outs| :: outs[i].amount == Claimed(ins, outs[i].address)
    requires forall i, j | 0 <= i < j < |outs| :: outs[i].address != outs[j].address
    ensures MapSum(Claims(ins, Receivers(outs)), Same) == SeqSum(outs, OutAmount)
  {
    if outs == [] {
      AllZero(Claims(ins, Receivers(outs)));
    } else {
      var init, last := outs[..|outs| - 1], outs[|outs| - 1];
      OutputsTotal(ins, init);
      ReceiversPush(outs);
      assert last.address !in Receivers(init);
      var before, after := Claims(ins, Receivers(init)), Claims(ins, Receivers(outs));
      assert after == before[last.address := Claimed(ins, last.address)];
      MapSumInsert(before, last.address, Claimed(ins, last.address), Same);
    }
  }

  lemma ClaimedPositive(ins: seq<TxInput>, a: bytes)
    requires a in Owners(ins)
    requires forall i | 0 <= i < |ins| :: ins[i].amount > 0
    ensures Claimed(ins, a) > 0
  {
    var i :| 0 <= i < |ins| && ins[i].address == a;
    SeqSumMember(ins, i, ClaimWeight(a));
  }

  /** What the rest of this module needs of a validated collapse. */
  ghost predicate Accounted(t: Transaction)
  {
    && OneOutputEach(t)
    && InSum(t) == OutSum(t) + RealFee(t)
    && forall i | 0 <= i < |t.inputs| :: t.inputs[i].amount > 0
  }

  lemma CollapseAccounted(env: Env, num: u64, t: Transaction)
    requires ValidEnv(env) && CollapseOk(env, num, t)
    ensures Accounted(t)
  {
    assert StructBaseOk(env, t);
    forall i | 0 <= i < |t.inputs| ensures t.inputs[i].amount > 0 {
      assert GoodInput(env, t.kind, t.inputs[i]);
    }
  }

  /** A validated collapse pays every owner it claims from exactly when it charges no fee. */
  lemma EveryOwnerPaid(env: Env, num: u64, t: Transaction)
    requires ValidEnv(env) && CollapseOk(env, num, t)
    ensures Receivers(t.outputs) <= Owners(t.inputs)
    ensures Receivers(t.outputs) == Owners(t.inputs) <==> RealFee(t) == 0
  {
    CollapseAccounted(env, num, t);
    AccountedPays(t);
  }

  lemma AccountedPays(t: Transaction)
    requires Accounted(t)
    ensures Receivers(t.outputs) <= Owners(t.inputs)
    ensures Receivers(t.outputs) == Owners(t.inputs) <==> RealFee(t) == 0
  {
    ClaimsTotal(t.inputs, Owners(t.inputs));
    OutputsTotal(t.inputs, t.outputs);
    PaidOrCharged(t);
  }

  lemma PaidOrCharged(t: Transaction)
    requires Accounted(t)
    requires MapSum(Claims(t.inputs, Owners(t.inputs)), Same) == InSum(t)
    requires MapSum(Claims(t.inputs, Receivers(t.outputs)), Same) == OutSum(t)
    ensures Receivers(t.outputs) <= Owners(t.inputs)
    ensures Receivers(t.outputs) == Owners(t.inputs) <==> RealFee(t) == 0
  {
    var all, paid := Claims(t.inputs, Owners(t.inputs)), Claims(t.inputs, Receivers(t.outputs));
    assert Receivers(t.outputs) <= Owners(t.inputs);
    if Receivers(t.outputs) != Owners(t.inputs) {
      var a :| a in Owners(t.inputs) && a !in Receivers(t.outputs);
      ClaimedPositive(t.inputs, a);
      MapSumProperSubset(paid, all, Same, a);
    }
  }

  /** It spends every plain coin of every owner it claims from, except possibly the last owner. */
  lemma OtherOwnersEmptied(env: Env, num: u64, t: Transaction, k: OutKey)
    requires ValidEnv(env) && CollapseOk(env, num, t)
    requires k in env.utxo && env.utxo[k].node == []
    requires env.utxo[k].to in Owners(t.inputs) && env.utxo[k].to != LastOwner(t.inputs)
    ensures k in Keys(t.inputs)
  {
    assert k in CollapseKnown(env.utxo, t.inputs);
  }

  // ----- balances

  ghost function OwnerWeight(a: bytes): (r: Utxo -> nat)
    ensures forall u: Utxo :: r(u) == if u.to == a then u.amount else 0
  {
    (u: Utxo) => if u.to == a then u.amount else 0
  }

  /** All coins of an address, plain or staked. */
  ghost function BalanceOf(m: UtxoSet, a: bytes): nat
  {
    MapSum(m, OwnerWeight(a))
  }

  /** What the named coins take from an address, whatever the inputs claim. */
  ghost function Taken(m: UtxoSet, ins: seq<TxInput>, a: bytes): nat
  {
    SeqSum(ins, Named(m, OwnerWeight(a)))
  }

  ghost function ReceiveWeight(a: bytes): (r: TxOutput -> nat)
    ensures forall o: TxOutput :: r(o) == if o.address == a then o.amount else 0
  {
    (o: TxOutput) => if o.address == a then o.amount else 0
  }

  ghost function Received(outs: seq<TxOutput>, a: bytes): nat
  {
    SeqSum(outs, ReceiveWeight(a))
  }

  lemma {:induction false} EntriesReceived(t: Transaction, es: seq<Entry>, k: nat, a: bytes)
    requires k <= |t.outputs| && |es| == k
    requires forall j | 0 <= j < k :: es[j] == EntryAt(t, j)
    ensures SeqSum(es, EntryWeight(OwnerWeight(a))) == Received(t.outputs[..k], a)
  {
    if k > 0 {
      EntriesReceived(t, es[..k - 1], k - 1, a);
      assert t.outputs[..k][..k - 1] == t.outputs[..k - 1];
      assert es[k - 1] == EntryAt(t, k - 1);
      assert EntryWeight(OwnerWeight(a))(es[k - 1]) == OwnerWeight(a)(es[k - 1].utxo) == ReceiveWeight(a)(t.outputs[k - 1]);
    }
  }

  lemma SingleBlock(t: Transaction)
    requires t.kind == COLLAPSE
    ensures BlockInputs([t]) == t.inputs && BlockEntries([t]) == Entries(t)
  {
    assert [t][..0] == [];
    assert BlockInputs([t]) == BlockInputs([]) + InputsOf(t);
    assert BlockEntries([t]) == BlockEntries([]) + Entries(t);
  }

  /** Processing a collapse moves each balance by what it receives minus what is taken from it. */
  lemma BalanceMoves(m: UtxoSet, t: Transaction, a: bytes)
    requires t.kind == COLLAPSE && Process(m, [t]).Some?
    ensures BalanceOf(Process(m, [t]).value, a) + Taken(m, t.inputs, a) == BalanceOf(m, a) + Received(t.outputs, a)
  {
    SingleBlock(t);
    ProcessSum(m, [t], OwnerWeight(a));
    EntriesReceived(t, Entries(t), |t.outputs|, a);
    assert t.outputs[..|t.outputs|] == t.outputs;
  }

  lemma {:induction false} ReceivedNothing(outs: seq<TxOutput>, a: bytes)
    requires a !in Receivers(outs)
    ensures Received(outs, a) == 0
  {
    if outs != [] {
      ReceiversPush(outs);
      ReceivedNothing(outs[..|outs| - 1], a);
    }
  }

  lemma {:induction false} ReceivedOnce(outs: seq<TxOutput>, k: nat)
    requires k < |outs|
    requires forall i, j | 0 <= i < j < |outs| :: outs[i].address != outs[j].address
    ensures Received(outs, outs[k].address) == outs[k].amount
  {
    var init, a := outs[..|outs| - 1], outs[k].address;
    if k == |outs| - 1 {
      ReceivedNothing(init, a);
    } else {
      ReceivedOnce(init, k);
      assert outs[|outs| - 1].address != a;
    }
  }

  /** With no fee, every address receives exactly what the inputs claim from it. */
  lemma ReceivedIsClaimed(t: Transaction, a: bytes)
    requires Accounted(t) && RealFee(t) == 0
    ensures Received(t.outputs, a) == Claimed(t.inputs, a)
  {
    AccountedPays(t);
    if a in Receivers(t.outputs) {
      var k :| 0 <= k < |t.outputs| && t.outputs[k].address == a;
      ReceivedOnce(t.outputs, k);
    } else {
      ReceivedNothing(t.outputs, a);
      NotClaimed(t.inputs, a);
    }
  }

  /** A zero-fee collapse leaves a balance unchanged exactly when the coins taken from the address add up to the claims on it. */
  lemma BalanceKept(env: Env, num: u64, t: Transaction, a: bytes)
    requires ValidEnv(env) && t.kind == COLLAPSE && CollapseOk(env, num, t) && RealFee(t) == 0
    requires Process(env.utxo, [t]).Some?
    ensures BalanceOf(Process(env.utxo, [t]).value, a) == BalanceOf(env.utxo, a)
       <==> Taken(env.utxo, t.inputs, a) == Claimed(t.inputs, a)
  {
    CollapseAccounted(env, num, t);
    AccountedBalance(env.utxo, t, a);
  }

  lemma AccountedBalance(m: UtxoSet, t: Transaction, a: bytes)
    requires t.kind == COLLAPSE && Accounted(t) && RealFee(t) == 0 && Process(m, [t]).Some?
    ensures BalanceOf(Process(m, [t]).value, a) == BalanceOf(m, a) <==> Taken(m, t.inputs, a) == Claimed(t.inputs, a)
  {
    ReceivedIsClaimed(t, a);
    BalanceMoves(m, t, a);
  }

  /** Every input claims the owner of the coin it names. */
  ghost predicate Truthful(m: UtxoSet, ins: seq<TxInput>)
  {
    forall i | 0 <= i < |ins| :: Key(ins[i]) in m && m[Key(ins[i])].to == ins[i].address && m[Key(ins[i])].amount == ins[i].amount
  }

  lemma {:induction false} TruthfulTaken(m: UtxoSet, ins: seq<TxInput>, a: bytes)
    requires Truthful(m, ins)
    ensures Taken(m, ins, a) == Claimed(ins, a)
  {
    if ins != [] {
      var init, last := ins[..|ins| - 1], ins[|ins| - 1];
      assert Truthful(m, init) by {
        forall i | 0 <= i < |init| ensures Key(init[i]) in m && m[Key(init[i])].to == init[i].address && m[Key(init[i])].amount == init[i].amount {
          assert init[i] == ins[i];
        }
      }
      TruthfulTaken(m, init, a);
      assert Named(m, OwnerWeight(a))(last) == OwnerWeight(a)(m[Key(last)]) == ClaimWeight(a)(last);
    }
  }

  /** Truthful claims keep every balance. */
  lemma TruthfulKeepsBalances(env: Env, num: u64, t: Transaction, a: bytes)
    requires ValidEnv(env) && t.kind == COLLAPSE && CollapseOk(env, num, t) && RealFee(t) == 0
    requires Process(env.utxo, [t]).Some? && Truthful(env.utxo, t.inputs)
    ensures BalanceOf(Process(env.utxo, [t]).value, a) == BalanceOf(env.utxo, a)
  {
    TruthfulTaken(env.utxo, t.inputs, a);
    BalanceKept(env, num, t, a);
  }

  /** A validated collapse of a single owner, the only kind the forger builds, is truthful. */
  lemma SingleOwnerTruthful(env: Env, num: u64, t: Transaction)
    requires ValidEnv(env) && CollapseOk(env, num, t)
    requires forall i | 0 <= i < |t.inputs| :: t.inputs[i].address == t.inputs[0].address
    ensures Truthful(env.utxo, t.inputs)
  {
    var known := CollapseKnown(env.utxo, t.inputs);
    forall i | 0 <= i < |t.inputs|
      ensures Key(t.inputs[i]) in env.utxo && env.utxo[Key(t.inputs[i])].to == t.inputs[i].address
           && env.utxo[Key(t.inputs[i])].amount == t.inputs[i].amount
    {
      assert Matches(known, t.inputs[i]);
      assert known[Key(t.inputs[i])].to in Owners(t.inputs);
    }
  }

  // ----- crossed claims

  function Tag(n: byte): (r: bytes)
    ensures |r| == 20
    ensures forall i | 0 <= i < 20 :: r[i] == n
  {
    seq(20, _ => n)
  }

  function HashTag(n: byte): (r: bytes)
    ensures |r| == 32
    ensures forall i | 0 <= i < 32 :: r[i] == n
  {
    seq(32, _ => n)
  }

  function Coin(n: byte): OutKey { OutKey(HashTag(n), 0) }

  /** Coin n, claimed from address a. */
  function ClaimOn(n: byte, a: byte, amount: u64): TxInput
  {
    TxInput(HashTag(n), 0, Tag(a), amount, [])
  }

  /** Address 1 owns a coin of 4, address 2 a coin of 6, address 3 a coin of 9; the first two claims are crossed. */
  function CrossedCoins(): UtxoSet
  {
    map[Coin(1) := Utxo(Tag(1), [], 4, NORMAL), Coin(2) := Utxo(Tag(2), [], 6, NORMAL), Coin(3) := Utxo(Tag(3), [], 9, NORMAL)]
  }

  function Crossed(num: u64): Transaction
  {
    Transaction(num, COLLAPSE, 1, HashTag(7), 0, [], [ClaimOn(1, 2, 4), ClaimOn(2, 1, 6), ClaimOn(3, 3, 9)],
                [TxOutput(Tag(2), 4, []), TxOutput(Tag(1), 6, []), TxOutput(Tag(3), 9, [])], Zeros(65), 0)
  }

  lemma CrossedSums(num: u64)
    ensures InSum(Crossed(num)) == OutSum(Crossed(num)) == 19
    ensures var ins := Crossed(num).inputs; Claimed(ins, Tag(1)) == 6 && Claimed(ins, Tag(2)) == 4 && Claimed(ins, Tag(3)) == 9
  {
    var t := Crossed(num);
    TagsDiffer();
    Three(t.inputs, InAmount);
    Three(t.outputs, OutAmount);
    Three(t.inputs, ClaimWeight(Tag(1)));
    Three(t.inputs, ClaimWeight(Tag(2)));
    Three(t.inputs, ClaimWeight(Tag(3)));
  }

  lemma Three<T>(s: seq<T>, w: T -> nat)
    requires |s| == 3
    ensures SeqSum(s, w) == w(s[0]) + w(s[1]) + w(s[2])
  {
    SeqSumPush(s[..2], s[2], w);
    SeqSumPush(s[..1], s[1], w);
    SeqSumPush(s[..0], s[0], w);
    assert s[..2] + [s[2]] == s && s[..1] + [s[1]] == s[..2] && s[..0] + [s[0]] == s[..1];
  }

  lemma TagsDiffer()
    ensures Tag(1) != Tag(2) && Tag(1) != Tag(3) && Tag(2) != Tag(3)
    ensures Coin(1) != Coin(2) && Coin(1) != Coin(3) && Coin(2) != Coin(3)
  {
    assert Tag(1)[0] == 1 && Tag(2)[0] == 2 && Tag(3)[0] == 3;
    assert HashTag(1)[0] == 1 && HashTag(2)[0] == 2 && HashTag(3)[0] == 3;
  }

  lemma CrossedOwners(num: u64)
    ensures var ins := Crossed(num).inputs; Owners(ins) == {Tag(1), Tag(2), Tag(3)} && LastKeys(ins) == {Coin(3)}
  {
    var ins := Crossed(num).inputs;
    TagsDiffer();
    assert ins[0].address == Tag(2) && ins[1].address == Tag(1) && ins[2].address == Tag(3);
    assert Key(ins[2]) == Coin(3);
  }

  lemma CrossedKnown(num: u64)
    ensures CollapseKnown(CrossedCoins(), Crossed(num).inputs) == CrossedCoins()
  {
    CrossedOwners(num);
    TagsDiffer();
  }

  lemma CrossedKeys(num: u64)
    ensures var ins := Crossed(num).inputs; InputsMatch(CrossedCoins(), ins) && Keys(ins) == {Coin(1), Coin(2), Coin(3)}
  {
    var ins := Crossed(num).inputs;
    TagsDiffer();
    assert Key(ins[0]) == Coin(1) && Key(ins[1]) == Coin(2) && Key(ins[2]) == Coin(3);
    assert ins[0] in ins && ins[1] in ins && ins[2] in ins;
  }

  lemma CrossedStruct(env: Env, num: u64)
    requires ValidEnv(env)
    ensures StructBaseOk(env, Crossed(num)) && RealFee(Crossed(num)) == 0
  {
    var t := Crossed(num);
    CrossedSums(num);
    assert t.fee * TransactionSize(t) == 0;
    assert Shaped(env, t);
    assert GoodInputs(env, t);
    assert GoodOutputs(env, t);
  }

  lemma CrossedOutputs(num: u64)
    ensures OneOutputEach(Crossed(num))
  {
    var t := Crossed(num);
    CrossedSums(num);
    CrossedOwners(num);
    TagsDiffer();
    assert t.outputs[0].address == Tag(2) && t.outputs[1].address == Tag(1) && t.outputs[2].address == Tag(3);
    assert t.outputs[0].amount == 4 && t.outputs[1].amount == 6 && t.outputs[2].amount == 9;
    PaidInOrder(t, Tag(2), Tag(1), Tag(3));
  }

  lemma PaidInOrder(t: Transaction, a: bytes, b: bytes, c: bytes)
    requires |t.outputs| == 3 && a != b && a != c && b != c
    requires t.outputs[0].address == a && t.outputs[1].address == b && t.outputs[2].address == c
    requires a in Owners(t.inputs) && b in Owners(t.inputs) && c in Owners(t.inputs)
    requires t.outputs[0].amount == Claimed(t.inputs, a) && t.outputs[1].amount == Claimed(t.inputs, b)
    requires t.outputs[2].amount == Claimed(t.inputs, c)
    ensures OneOutputEach(t)
  {
  }

  lemma CrossedTaken(num: u64)
    ensures Taken(CrossedCoins(), Crossed(num).inputs, Tag(1)) == 4
  {
    var ins := Crossed(num).inputs;
    TagsDiffer();
    Three(ins, Named(CrossedCoins(), OwnerWeight(Tag(1))));
    assert Key(ins[0]) == Coin(1) && Key(ins[1]) == Coin(2) && Key(ins[2]) == Coin(3);
  }

  lemma CrossedFresh(num: u64)
    ensures FreshHashes(CrossedCoins(), [Crossed(num)])
  {
    forall k | k in CrossedCoins() ensures k.hash != Crossed(num).hash {
      assert HashTag(7)[0] == 7 && HashTag(1)[0] == 1 && HashTag(2)[0] == 2 && HashTag(3)[0] == 3;
    }
  }

  lemma CrossedProcesses(num: u64)
    ensures Process(CrossedCoins(), [Crossed(num)]).Some?
  {
    var t, m := Crossed(num), CrossedCoins();
    SingleBlock(t);
    CrossedKeys(num);
    CrossedFresh(num);
    forall i | i in t.inputs ensures Key(i) in m {
      assert Key(i) in Keys(t.inputs);
    }
    ProcessSucceeds(m, [t]);
  }

  /**
   A validated zero-fee collapse that does change balances: addresses 1 and 2 swap their coins of 4 and 6.
   So the per-owner condition of BalanceKept cannot be dropped.
   */
  lemma CrossedClaimsMoveCoins(env: Env, num: u64)
    requires ValidEnv(env) && env.utxo == CrossedCoins()
    ensures CollapseOk(env, num, Crossed(num)) && RealFee(Crossed(num)) == 0
    ensures Process(env.utxo, [Crossed(num)]).Some?
    ensures BalanceOf(Process(env.utxo, [Crossed(num)]).value, Tag(1)) != BalanceOf(env.utxo, Tag(1))
  {
    var t := Crossed(num);
    CrossedStruct(env, num);
    CrossedOutputs(num);
    CrossedKnown(num);
    CrossedKeys(num);
    CrossedSums(num);
    CrossedTaken(num);
    CrossedProcesses(num);
    BalanceKept(env, num, t, Tag(1));
  }
}
