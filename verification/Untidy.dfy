/**
 Accepted transactions that break the staking pool: the validator compares neither the node nor the owner of an
 unstake's outputs with its inputs, while the pool subtracts every output that names a node.
 */
module Untidy {
  import opened Words
  import opened Sums
  import opened Proto
  import opened Ledger
  import opened Validator
  import opened Staking
  import opened StakeBatches
  import opened Rewards

  const UNIT: u64 := 4

  const P: Params := Params(UNIT, 10)

  /** A validator's view in which every signature and hash is right. */
  function View(m: UtxoSet, nonces: map<bytes, u64>): Env
  {
    Env(Config(UNIT, 0, 10, 1000000), m, nonces, map[], true, map[], _ => true, (t: Transaction) => t.hash)
  }

  function Unstake(num: u64, ins: seq<TxInput>, outs: seq<TxOutput>): Transaction
  {
    Transaction(num, UNSTAKE, 0, [], 0, [], ins, outs, [], 0)
  }

  lemma SumOne<T>(x: T, w: T -> nat)
    ensures SeqSum([x], w) == w(x)
  {
    assert [x][..0] == [];
  }

  lemma SumTwo<T>(x: T, y: T, w: T -> nat)
    ensures SeqSum([x, y], w) == w(x) + w(y)
  {
    assert [x, y][..1] == [x];
    SumOne(x, w);
  }

  lemma Free(t: Transaction)
    requires t.fee == 0
    ensures RealFee(t) == 0
  {
    SmallWrap(0);
  }

  /** What remains to be checked of an unstake without fee that spends the sender's deposits on one node. */
  lemma UnstakePasses(m: UtxoSet, nonces: map<bytes, u64>, num: u64, a: bytes, n: bytes, hash: bytes,
                      ins: seq<TxInput>, outs: seq<TxOutput>)
    requires ins != [] && outs != [] && |ins| <= MAX_OUTPUTS && |outs| <= MAX_OUTPUTS && n != []
    requires forall i | 0 <= i < |ins| :: ins[i].address == a && Address(ins[i].node) == n && ins[i].amount >= UNIT
    requires forall i | 0 <= i < |ins| :: Matches(Deposits(m, a), ins[i])
    requires Distinct(ins)
    requires forall i | 0 <= i < |outs| :: outs[i].amount > 0 && !IsValidatorStake(outs[i])
    requires SeqSum(ins, InAmount) == SeqSum(outs, OutAmount) < U64
    requires 0 < num == NextNonce(View(m, nonces), a) && Wrap(Total(Deposits(m, a))) != 0
    ensures ValidEnv(View(m, nonces)) && StandardOk(View(m, nonces), Unstake(num, ins, outs).(hash := hash))
  {
    var env, t := View(m, nonces), Unstake(num, ins, outs).(hash := hash);
    Free(t);
    assert Shaped(env, t);
    assert GoodInputs(env, t) && GoodOutputs(env, t) && Balanced(t);
    assert Key(ins[0]) in Deposits(m, a);
    assert OneNode(InNodes(ins));
    assert WholeSlots(UNIT, outs);
  }

  // ----- an own stake that moves to another node

  const DEPOSIT: OutKey := OutKey([], 0)

  function OwnDeposit(v: bytes): UtxoSet
  {
    map[DEPOSIT := Utxo(v, BLACK_HOLE, 12, STAKE)]
  }

  /** Three slots of stake: half of it stays staked, on another node. */
  function HalfAway(v: bytes, w: bytes): Transaction
  {
    Unstake(1, [TxInput([], 0, v, 12, BLACK_HOLE)], [TxOutput(v, 6, w), TxOutput(v, 6, [])])
  }

  function ThreeSlots(v: bytes): Pool
  {
    Pool(map[v := StakeData(3, 12, map[], 12)], map[], map[], 12, 3, 0)
  }

  lemma TimesThree()
    ensures Times(3, UNIT) == 12 && Times(2, UNIT) == 8
  {
    assert Times(1, UNIT) == Times(0, UNIT) + UNIT;
    assert Times(2, UNIT) == Times(1, UNIT) + UNIT;
    assert Times(3, UNIT) == Times(2, UNIT) + UNIT;
  }

  lemma ThreeSlotsInv(v: bytes)
    ensures ValidParams(P) && Inv(P, ThreeSlots(v))
  {
    TimesThree();
    MapSumInsert<bytes, StakeData>(map[], v, StakeData(3, 12, map[], 12), SlotsOf);
  }

  lemma HalfAwayAccepted(v: bytes, w: bytes)
    requires |w| == 20 && w != BLACK_HOLE
    ensures ValidEnv(View(OwnDeposit(v), map[])) && StandardOk(View(OwnDeposit(v), map[]), HalfAway(v, w))
  {
    var m, t := OwnDeposit(v), HalfAway(v, w);
    SumOne(t.inputs[0], InAmount);
    SumTwo(t.outputs[0], t.outputs[1], OutAmount);
    OwnPurse(v);
    FullAddress(BLACK_HOLE);
    FullAddress(w);
    SmallWrap(1);
    UnstakePasses(m, map[], 1, v, BLACK_HOLE, [], t.inputs, t.outputs);
  }

  lemma FullAddress(b: bytes)
    requires |b| == 20
    ensures Address(b) == b
  {
  }

  lemma OwnPurse(v: bytes)
    ensures Deposits(OwnDeposit(v), v) == OwnDeposit(v) && Wrap(Total(OwnDeposit(v))) == 12
  {
    var m := OwnDeposit(v);
    assert Deposits(m, v) == m;
    MapSumInsert<OutKey, Utxo>(map[], DEPOSIT, m[DEPOSIT], Amount);
    SmallWrap(12);
  }

  lemma HalfAwayAsks(v: bytes, w: bytes)
    requires |w| == 20 && w != BLACK_HOLE
    ensures UnstakeStep(HalfAway(v, w)) == Do(UnstakeValidator(v, 6))
  {
    var t := HalfAway(v, w);
    FullAddress(BLACK_HOLE);
    FullAddress(w);
    OneNodeIs(t.inputs[0]);
    TotalOfTwo(t.inputs[0], t.outputs[0], t.outputs[1]);
    SmallWrap(6);
  }

  lemma OneNodeIs(i: TxInput)
    ensures UnstakeNode([i]) == Some(Address(i.node))
  {
    assert [i][..0] == [];
    assert UnstakeNode([i][..0]) == Some([]);
  }

  /** One input, a first output that stays staked, and a plain one. */
  lemma TotalOfTwo(i: TxInput, a: TxOutput, b: TxOutput)
    requires a.node != [] && b.node == []
    ensures UnstakeTotal([i], [a, b]) == i.amount - a.amount
  {
    assert [i][..0] == [] && [a, b][..1] == [a] && [a][..0] == [];
    assert UnstakeTotal([i][..0], []) == 0;
    assert UnstakeTotal([i], []) == i.amount;
    assert UnstakeTotal([i], [a][..0]) == i.amount;
    assert UnstakeTotal([i], [a]) == i.amount - a.amount;
  }

  /**
   An accepted unstake that breaks the pool invariant: of 12 coins on the black hole 6 go to another node. The pool
   takes off 6, one slot and a half.
   */
  lemma MovedNodeBreaksPool(v: bytes, w: bytes)
    requires |w| == 20 && w != BLACK_HOLE
    ensures ValidEnv(View(OwnDeposit(v), map[])) && StandardOk(View(OwnDeposit(v), map[]), HalfAway(v, w))
    ensures ValidParams(P) && Inv(P, ThreeSlots(v))
    ensures var r := Perform(P, ThreeSlots(v), UnstakeStep(HalfAway(v, w))); r.ok && !Inv(P, r.pool)
  {
    HalfAwayAccepted(v, w);
    HalfAwayAsks(v, w);
    ThreeSlotsInv(v);
    CancelValidatorKeeps(P, ThreeSlots(v), v, 6);
  }

  // ----- an elector's stake that moves between validators

  function At(h: byte): OutKey { OutKey([h], 0) }

  function Row(to: bytes, node: bytes, amount: u64, kind: u32): Utxo { Utxo(to, node, amount, kind) }

  /** An elector with 10 coins on each of two validators. */
  function TwoDeposits(e: bytes, v: bytes, w: bytes): UtxoSet
  {
    map[At(1) := Row(e, v, 10, STAKE)][At(2) := Row(e, w, 10, STAKE)]
  }

  /** First unstake: 9 of the 10 coins on w go to v instead. */
  function MoveOver(e: bytes, v: bytes, w: bytes): Transaction
  {
    Unstake(1, [TxInput([2], 0, e, 10, w)], [TxOutput(e, 9, v), TxOutput(e, 1, [])])
  }

  /** Second unstake: all 19 coins on v. */
  function TakeAll(e: bytes, v: bytes): Transaction
  {
    Unstake(2, [TxInput([1], 0, e, 10, v), TxInput([], 0, e, 9, v)], [TxOutput(e, 19, [])])
  }

  /** The ledger after the first. */
  function MovedOver(e: bytes, v: bytes): UtxoSet
  {
    map[At(1) := Row(e, v, 10, STAKE)][OutKey([], 0) := Row(e, v, 9, UNSTAKE)][OutKey([], 1) := Row(e, [], 1, UNSTAKE)]
  }

  lemma MoveOverAccepted(e: bytes, v: bytes, w: bytes)
    requires |v| == 20 && |w| == 20 && v != BLACK_HOLE && w != BLACK_HOLE
    ensures ValidEnv(View(TwoDeposits(e, v, w), map[])) && StandardOk(View(TwoDeposits(e, v, w), map[]), MoveOver(e, v, w))
  {
    var m, t := TwoDeposits(e, v, w), MoveOver(e, v, w);
    SumOne(t.inputs[0], InAmount);
    SumTwo(t.outputs[0], t.outputs[1], OutAmount);
    TwoPurse(e, v, w);
    FullAddress(v);
    FullAddress(w);
    SmallWrap(1);
    UnstakePasses(m, map[], 1, e, w, [], t.inputs, t.outputs);
  }

  lemma TwoPurse(e: bytes, v: bytes, w: bytes)
    requires v != [] && w != []
    ensures Deposits(TwoDeposits(e, v, w), e) == TwoDeposits(e, v, w) && Wrap(Total(TwoDeposits(e, v, w))) == 20
  {
    var m := TwoDeposits(e, v, w);
    assert Deposits(m, e) == m;
    MapSumInsert<OutKey, Utxo>(map[], At(1), Row(e, v, 10, STAKE), Amount);
    MapSumInsert<OutKey, Utxo>(map[At(1) := Row(e, v, 10, STAKE)], At(2), Row(e, w, 10, STAKE), Amount);
    SmallWrap(20);
  }

  lemma MoveOverProcessed(e: bytes, v: bytes, w: bytes)
    requires |v| == 20 && |w| == 20
    ensures Process(TwoDeposits(e, v, w), [MoveOver(e, v, w)]) == Some(MovedOver(e, v))
  {
    var m, t := TwoDeposits(e, v, w), MoveOver(e, v, w);
    var rows: UtxoSet := map[At(1) := Row(e, v, 10, STAKE)];
    BlockOfOne(t);
    SpendOne(m, t.inputs[0]);
    assert m - {At(2)} == rows;
    FullAddress(v);
    var a, b := Entry(OutKey([], 0), Row(e, v, 9, UNSTAKE)), Entry(OutKey([], 1), Row(e, [], 1, UNSTAKE));
    assert Entries(t) == [a, b];
    InsertTwo(rows, a, b);
  }

  lemma BlockOfOne(t: Transaction)
    requires HasInputs(t.kind)
    ensures BlockInputs([t]) == t.inputs && BlockEntries([t]) == Entries(t)
  {
    assert [t][..0] == [];
    assert [] + t.inputs == t.inputs && [] + Entries(t) == Entries(t);
  }

  lemma SpendOne(m: UtxoSet, i: TxInput)
    requires Key(i) in m
    ensures SpendAll(m, [i]) == Some(m - {Key(i)})
  {
    assert [i][..0] == [];
  }

  lemma InsertTwo(m: UtxoSet, a: Entry, b: Entry)
    requires a.key !in m && b.key !in m && a.key != b.key
    ensures InsertAll(m, [a, b]) == Some(m[a.key := a.utxo][b.key := b.utxo])
  {
    assert [a, b][..1] == [a] && [a][..0] == [];
    assert InsertAll(m, [a]) == Some(m[a.key := a.utxo]);
  }

  lemma TakeAllAccepted(e: bytes, v: bytes)
    requires |v| == 20 && v != BLACK_HOLE
    ensures ValidEnv(View(MovedOver(e, v), map[e := 1])) && StandardOk(View(MovedOver(e, v), map[e := 1]), TakeAll(e, v))
  {
    var m, t := MovedOver(e, v), TakeAll(e, v);
    SumTwo(t.inputs[0], t.inputs[1], InAmount);
    SumOne(t.outputs[0], OutAmount);
    MovedPurse(e, v);
    FullAddress(v);
    SmallWrap(2);
    UnstakePasses(m, map[e := 1], 2, e, v, [], t.inputs, t.outputs);
  }

  lemma MovedPurse(e: bytes, v: bytes)
    requires v != []
    ensures var d := Deposits(MovedOver(e, v), e);
      At(1) in d && OutKey([], 0) in d && d[At(1)] == Row(e, v, 10, STAKE) && d[OutKey([], 0)] == Row(e, v, 9, UNSTAKE)
    ensures Wrap(Total(Deposits(MovedOver(e, v), e))) == 19
  {
    var d := Deposits(MovedOver(e, v), e);
    var one: UtxoSet := map[At(1) := Row(e, v, 10, STAKE)];
    assert d == one[OutKey([], 0) := Row(e, v, 9, UNSTAKE)];
    MapSumInsert<OutKey, Utxo>(map[], At(1), Row(e, v, 10, STAKE), Amount);
    MapSumInsert<OutKey, Utxo>(one, OutKey([], 0), Row(e, v, 9, UNSTAKE), Amount);
    SmallWrap(19);
  }

  // ----- what the pool makes of it

  function TwoStakes(e: bytes, x: u64, f: bytes, y: u64): Stakes
  {
    Put(Put(map[], e, x), f, y)
  }

  /** The first validator has three slots and electors e and f, the second one slot and elector e. */
  function FullPool(e: bytes, f: bytes, v: bytes, w: bytes): Pool
  {
    Pool(map[v := StakeData(3, 27, TwoStakes(e, 10, f, 5), 12)][w := StakeData(1, 14, Put(map[], e, 10), 4)], map[], map[], 41, 4, 0)
  }

  lemma TwoStakesSum(e: bytes, x: u64, f: bytes, y: u64)
    requires e != f
    ensures MapSum(TwoStakes(e, x, f, y), Stake) == x + y
  {
    MapSumInsert<bytes, u64>(map[], e, x, Stake);
    MapSumInsert<bytes, u64>(Put(map[], e, x), f, y, Stake);
  }

  lemma FullPoolInv(e: bytes, f: bytes, v: bytes, w: bytes)
    requires e != f && v != w
    ensures ValidParams(P) && Inv(P, FullPool(e, f, v, w))
  {
    var s := FullPool(e, f, v, w);
    var a, b := s.validators[v], s.validators[w];
    TimesThree();
    assert Times(1, UNIT) == Times(0, UNIT) + UNIT;
    TwoStakesSum(e, 10, f, 5);
    MapSumInsert<bytes, u64>(map[], e, 10, Stake);
    MapSumInsert<bytes, StakeData>(map[], v, a, SlotsOf);
    MapSumInsert<bytes, StakeData>(map[v := a], w, b, SlotsOf);
  }

  lemma MoveOverAsks(e: bytes, v: bytes, w: bytes)
    requires |v| == 20 && |w| == 20 && w != BLACK_HOLE
    ensures UnstakeStep(MoveOver(e, v, w)) == Do(UnstakeElector(e, w, 1))
  {
    var t := MoveOver(e, v, w);
    FullAddress(v);
    FullAddress(w);
    OneNodeIs(t.inputs[0]);
    TotalOfTwo(t.inputs[0], t.outputs[0], t.outputs[1]);
    SmallWrap(1);
  }

  lemma TakeAllAsks(e: bytes, v: bytes)
    requires |v| == 20 && v != BLACK_HOLE
    ensures UnstakeStep(TakeAll(e, v)) == Do(UnstakeElector(e, v, 19))
  {
    var t := TakeAll(e, v);
    FullAddress(v);
    assert t.inputs[..1] == [t.inputs[0]] && t.inputs[..1][..0] == [] && t.outputs[..0] == [];
    assert UnstakeNode(t.inputs[..1][..0]) == Some([]);
    assert UnstakeNode(t.inputs[..1]) == Some(v);
    assert UnstakeTotal(t.inputs[..1][..0], []) == 0;
    assert UnstakeTotal(t.inputs[..1], []) == 10;
    assert UnstakeTotal(t.inputs, []) == 19;
    assert UnstakeTotal(t.inputs, t.outputs[..0]) == 19;
    SmallWrap(19);
  }

  /** The first validator after both: the elector's stake and the electors' total have wrapped. */
  function Wrapped(e: bytes, f: bytes): StakeData
  {
    StakeData(3, 8, TwoStakes(e, U64 - 9, f, 5), 12)
  }

  lemma LeavesWrapped(e: bytes, f: bytes)
    requires e != f
    ensures Leave(StakeData(3, 27, TwoStakes(e, 10, f, 5), 12), e, 19) == Wrapped(e, f)
  {
    LeaveIsCases(StakeData(3, 27, TwoStakes(e, 10, f, 5), 12), e, 19);
    assert Put(TwoStakes(e, 10, f, 5), e, U64 - 9) == TwoStakes(e, U64 - 9, f, 5);
  }

  lemma WrappedRewards(e: bytes, f: bytes, s: Pool, v: bytes)
    requires e != f && v != f && v in s.validators && s.validators[v] == Wrapped(e, f) && s.filled != 0
    ensures var r := RewardMap(RewardParams(4, 0), s, v); r.Some? && f in r.value && r.value[f] == U64 - 5
  {
    var rp := RewardParams(4, 0);
    var d := Wrapped(e, f);
    assert ElectorsStake(d) == U64 - 4 by { WrappedSum(8, 12); }
    assert ElectorsReward(rp) == 4;
    DivisionWraps();
    var shares := Shares(d.electors, 4, U64 - 4);
    assert f in d.electors && d.electors[f] == 5;
    assert f in shares && shares[f] == U64 - 5;
  }

  lemma DivisionWraps()
    ensures ElectorReward(5, 4, U64 - 4) == U64 - 5
  {
  }

  /** The pool after both unstakes. */
  function AfterBoth(e: bytes, f: bytes, v: bytes, w: bytes): Outcome
  {
    var s := FullPool(e, f, v, w);
    Apply(P, Apply(P, s, UnstakeElector(e, w, 1)).pool, UnstakeElector(e, v, 19))
  }

  lemma AfterBothHas(e: bytes, f: bytes, v: bytes, w: bytes)
    requires e != f && v != w
    ensures AfterBoth(e, f, v, w).ok && AfterBoth(e, f, v, w).pool.filled == 4
    ensures v in AfterBoth(e, f, v, w).pool.validators && AfterBoth(e, f, v, w).pool.validators[v] == Wrapped(e, f)
  {
    LeavesWrapped(e, f);
  }

  /**
   Two accepted unstakes of one elector that make the code pay almost 2^64 out of a reward of 4: the first moves 9
   coins of its deposit from w to v, the second takes all 19 coins from v, where the pool has 10 for it.
   */
  lemma MovedStakeOverpays(e: bytes, f: bytes, v: bytes, w: bytes)
    requires |v| == 20 && |w| == 20 && v != BLACK_HOLE && w != BLACK_HOLE && e != f && v != w && v != f
    ensures ValidEnv(View(TwoDeposits(e, v, w), map[])) && StandardOk(View(TwoDeposits(e, v, w), map[]), MoveOver(e, v, w))
    ensures Process(TwoDeposits(e, v, w), [MoveOver(e, v, w)]) == Some(MovedOver(e, v))
    ensures ValidEnv(View(MovedOver(e, v), map[e := 1])) && StandardOk(View(MovedOver(e, v), map[e := 1]), TakeAll(e, v))
    ensures UnstakeStep(MoveOver(e, v, w)) == Do(UnstakeElector(e, w, 1)) && UnstakeStep(TakeAll(e, v)) == Do(UnstakeElector(e, v, 19))
    ensures ValidParams(P) && Inv(P, FullPool(e, f, v, w)) && AfterBoth(e, f, v, w).ok
    ensures var r := RewardMap(RewardParams(4, 0), AfterBoth(e, f, v, w).pool, v); r.Some? && f in r.value && r.value[f] == U64 - 5
  {
    MoveOverAccepted(e, v, w);
    MoveOverProcessed(e, v, w);
    TakeAllAccepted(e, v);
    MoveOverAsks(e, v, w);
    TakeAllAsks(e, v);
    FullPoolInv(e, f, v, w);
    AfterBothHas(e, f, v, w);
    WrappedRewards(e, f, AfterBoth(e, f, v, w).pool, v);
  }

  // ----- a validator that returns while pay-backs are pending

  /** The elector's deposits on the validator, from before it left and after it came back. */
  function OldAndNew(e: bytes, v: bytes): UtxoSet
  {
    map[At(1) := Row(e, v, 10, STAKE)][At(2) := Row(e, v, 5, STAKE)]
  }

  function TakeBoth(e: bytes, v: bytes): Transaction
  {
    Unstake(1, [TxInput([1], 0, e, 10, v), TxInput([2], 0, e, 5, v)], [TxOutput(e, 15, [])])
  }

  lemma BothPurse(e: bytes, v: bytes)
    requires v != []
    ensures Deposits(OldAndNew(e, v), e) == OldAndNew(e, v) && Wrap(Total(OldAndNew(e, v))) == 15
  {
    var m := OldAndNew(e, v);
    assert Deposits(m, e) == m;
    MapSumInsert<OutKey, Utxo>(map[], At(1), Row(e, v, 10, STAKE), Amount);
    MapSumInsert<OutKey, Utxo>(map[At(1) := Row(e, v, 10, STAKE)], At(2), Row(e, v, 5, STAKE), Amount);
    SmallWrap(15);
  }

  lemma TakeBothAccepted(e: bytes, v: bytes)
    requires |v| == 20 && v != BLACK_HOLE
    ensures ValidEnv(View(OldAndNew(e, v), map[])) && StandardOk(View(OldAndNew(e, v), map[]), TakeBoth(e, v))
  {
    var m, t := OldAndNew(e, v), TakeBoth(e, v);
    SumTwo(t.inputs[0], t.inputs[1], InAmount);
    SumOne(t.outputs[0], OutAmount);
    BothPurse(e, v);
    FullAddress(v);
    SmallWrap(1);
    UnstakePasses(m, map[], 1, e, v, [], t.inputs, t.outputs);
  }

  /** Two inputs of one node and a plain output. */
  lemma PairAsks(i: TxInput, j: TxInput, o: TxOutput, n: bytes)
    requires Address(i.node) == Address(j.node) == n != [] && o.node == []
    ensures UnstakeNode([i, j]) == Some(n) && UnstakeTotal([i, j], [o]) == i.amount + j.amount
  {
    OneNodeIs(i);
    assert [i, j][..1] == [i] && [i][..0] == [] && [o][..0] == [];
    assert UnstakeTotal([i][..0], []) == 0;
    assert UnstakeTotal([i], []) == i.amount;
    assert UnstakeTotal([i, j], []) == i.amount + j.amount;
    assert UnstakeTotal([i, j], [o][..0]) == i.amount + j.amount;
  }

  lemma TakeBothAsks(e: bytes, v: bytes)
    requires |v| == 20 && v != BLACK_HOLE
    ensures UnstakeStep(TakeBoth(e, v)) == Do(UnstakeElector(e, v, 15))
  {
    var t := TakeBoth(e, v);
    FullAddress(v);
    PairAsks(t.inputs[0], t.inputs[1], t.outputs[0], v);
    SmallWrap(15);
  }

  /** Three slots and an elector with 10 coins. */
  function WithElector(e: bytes, v: bytes): Pool
  {
    Pool(map[v := StakeData(3, 22, Put(map[], e, 10), 12)], map[], map[], 22, 3, 0)
  }

  /** A validator with three slots and one elector. */
  lemma OneElectorInv(s: Pool, e: bytes, v: bytes, amount: u64)
    requires 0 < amount <= 10 && s.validators == map[v := StakeData(3, 12 + amount, Put(map[], e, amount), 12)]
    requires s.filled == 3 && s.reserved == 0
    ensures ValidParams(P) && Inv(P, s)
  {
    TimesThree();
    MapSumInsert<bytes, u64>(map[], e, amount, Stake);
    MapSumInsert<bytes, StakeData>(map[], v, s.validators[v], SlotsOf);
  }

  lemma WithElectorInv(e: bytes, v: bytes)
    ensures ValidParams(P) && Inv(P, WithElector(e, v))
  {
    OneElectorInv(WithElector(e, v), e, v, 10);
  }

  /** The validator leaves and returns, and the elector stakes 5 coins more. */
  function Returned(e: bytes, v: bytes): Outcome
  {
    var left := Apply(P, WithElector(e, v), UnstakeValidator(v, 12)).pool;
    var back := Apply(P, left, StakeValidator(v, 12)).pool;
    Apply(P, back, StakeElector(e, v, 5))
  }

  lemma ReturnedHas(e: bytes, v: bytes)
    ensures var s := Returned(e, v).pool;
      && v in s.validators && s.validators[v] == StakeData(3, 17, Put(map[], e, 5), 12)
      && v in s.snapshot && s.snapshot[v] == Put(map[], e, 10)
      && s.filled == 3 && s.reserved == 0 && s.validators == map[v := s.validators[v]]
  {
    SmallWrap(12);
    SmallWrap(17);
    SmallWrap(5);
    var left := Apply(P, WithElector(e, v), UnstakeValidator(v, 12)).pool;
    assert left.validators == map[];
    assert Put(map[], e, 10) + map[] == Put(map[], e, 10);
    var back := Apply(P, left, StakeValidator(v, 12)).pool;
    assert back.validators == map[v := StakeData(3, 12, map[], 12)];
  }

  lemma ReturnedInv(e: bytes, v: bytes)
    ensures ValidParams(P) && Inv(P, Returned(e, v).pool)
  {
    ReturnedHas(e, v);
    OneElectorInv(Returned(e, v).pool, e, v, 5);
  }

  /**
   An accepted unstake that breaks the pool although its outputs are in order: the validator had left with a pay-back
   of 10 pending and returned, the elector staked 5 on it again, and takes all 15 coins of its deposits. The pool has 5.
   */
  lemma ReturnBreaksPool(e: bytes, v: bytes)
    requires |v| == 20 && v != BLACK_HOLE
    ensures ValidEnv(View(OldAndNew(e, v), map[])) && StandardOk(View(OldAndNew(e, v), map[]), TakeBoth(e, v))
    ensures UnstakeStep(TakeBoth(e, v)) == Do(UnstakeElector(e, v, 15))
    ensures ValidParams(P) && Inv(P, WithElector(e, v)) && Inv(P, Returned(e, v).pool)
    ensures var r := Apply(P, Returned(e, v).pool, UnstakeElector(e, v, 15)); r.ok && !Inv(P, r.pool)
  {
    TakeBothAccepted(e, v);
    TakeBothAsks(e, v);
    WithElectorInv(e, v);
    ReturnedInv(e, v);
    ReturnedHas(e, v);
    ApplyKeeps(P, Returned(e, v).pool, UnstakeElector(e, v, 15));
  }
}
