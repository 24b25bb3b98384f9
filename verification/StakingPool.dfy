/** The staking pool object: the fields that the code updates, tied to the pool functions of Staking. */
module StakingPoolObject {
  import opened Words
  import opened Sums
  import opened Proto
  import opened Ledger
  import opened Staking
  import opened StakeBatches
  import opened StakeReading
  import opened Rewards
  import opened Leader

  /** From a pool with the invariant, the operation keeps it exactly when it is guarded. */
  ghost predicate Kept(p: Params, s: Pool, s': Pool, op: Op)
    requires ValidParams(p)
  {
    Inv(p, s) ==> (Inv(p, s') <==> Guarded(p, s, op))
  }

  lemma KeptExactly(p: Params, s: Pool, op: Op)
    requires ValidParams(p)
    ensures Kept(p, s, Apply(p, s, op).pool, op)
  {
    if Inv(p, s) {
      ApplyKeeps(p, s, op);
    }
  }

  /** Whole slots of a positive amount are at least one. */
  lemma SlotsOfAmount(amount: nat, unit: nat)
    requires unit > 0
    ensures amount % unit == 0 ==> (amount / unit > 0 <==> amount > 0)
    ensures amount / unit >= 0
  {
    Units(amount, unit);
  }

  class StakingPool {
    const params: Params
    var validators: map<bytes, StakeData>
    var electors: map<bytes, set<bytes>>
    var snapshot: Snapshot
    var cumulativeStake: u64
    var slotsFilled: int
    var slotsReserved: int

    ghost predicate Valid()
    {
      ValidParams(params)
    }

    ghost function View(): Pool
      reads this
    {
      Pool(validators, electors, snapshot, cumulativeStake, slotsFilled, slotsReserved)
    }

    constructor (params: Params)
      requires ValidParams(params)
      ensures Valid() && this.params == params && View() == EMPTY
      ensures Inv(params, View())
    {
      this.params := params;
      validators, electors, snapshot := map[], map[], map[];
      cumulativeStake, slotsFilled, slotsReserved := 0, 0, 0;
      new;
      EmptyInv(params);
    }

    method RegisterValidatorStake(v: bytes, amount: u64) returns (ok: bool)
      requires Valid()
      modifies this
      ensures Outcome(ok, View()) == RegisterValidator(params, old(View()), v, amount)
      ensures ok <==> old(slotsFilled) < params.limit && old(slotsFilled) + amount / params.unit <= params.limit
      ensures slotsFilled == old(slotsFilled) + (if ok then amount / params.unit else 0)
      ensures OthersSame(old(validators), validators, v)
      ensures snapshot == old(snapshot) && electors == old(electors) && slotsReserved == old(slotsReserved)
      ensures Kept(params, old(View()), View(), StakeValidator(v, amount))
    {
      KeptExactly(params, View(), StakeValidator(v, amount));
      var empty := params.limit - slotsFilled;
      if empty == 0 { return false; }
      if empty < 0 { return false; }
      var count := amount / params.unit;
      if empty < count { return false; }
      TakeSlots(v, amount, count);
      slotsFilled := slotsFilled + count;
      cumulativeStake := Wrap(cumulativeStake + amount);
      return true;
    }

    method TakeSlots(v: bytes, amount: u64, count: nat)
      modifies this`validators
      ensures validators == old(validators)[v := AddSelf(if v in old(validators) then old(validators)[v] else NO_STAKE, amount, count)]
      ensures OthersSame(old(validators), validators, v)
    {
      if v !in validators {
        validators := validators[v := StakeData(0, 0, map[], 0)];
      }
      var d := validators[v];
      d := d.(cumulative := Wrap(d.cumulative + amount), self := Wrap(d.self + amount), slots := d.slots + count);
      validators := validators[v := d];
    }

    /**
     cancelValidatorStake. Giving up some slots lowers own stake and slots and nothing else of the validator, so its
     cumulative stake stays; giving up all of them removes the validator, and its electors are to be paid back.
     */
    method CancelValidatorStake(v: bytes, amount: u64) returns (ok: bool)
      requires Valid()
      modifies this
      ensures Outcome(ok, View()) == CancelValidator(params, old(View()), v, amount)
      ensures ok <==> amount / params.unit > 0 && v in old(validators)
      ensures slotsFilled == old(slotsFilled) - (if ok then amount / params.unit else 0)
      ensures slotsReserved == old(slotsReserved) && electors == old(electors)
      ensures OthersSame(old(validators), validators, v)
      ensures ok && amount / params.unit != old(validators)[v].slots ==>
        && snapshot == old(snapshot) && v in validators
        && Lowered(old(validators)[v], validators[v], amount, amount / params.unit)
      ensures ok && amount / params.unit == old(validators)[v].slots ==>
        v !in validators && Listed(old(snapshot), snapshot, v, old(validators)[v].electors)
      ensures Kept(params, old(View()), View(), UnstakeValidator(v, amount))
    {
      KeptExactly(params, View(), UnstakeValidator(v, amount));
      var count := amount / params.unit;
      if count == 0 { return false; }
      if v !in validators { return false; }
      if validators[v].slots == count {
        MarkFullUnstake(v);
        validators := validators - {v};
      } else {
        GiveUp(v, amount, count);
      }
      cumulativeStake := Wrap(cumulativeStake - amount);
      slotsFilled := slotsFilled - count;
      return true;
    }

    /** No other validator comes, goes or changes. */
    static ghost predicate OthersSame(before: map<bytes, StakeData>, after: map<bytes, StakeData>, v: bytes)
    {
      forall u | u != v :: (u in after <==> u in before) && (u in after ==> after[u] == before[u])
    }

    static ghost predicate Lowered(d: StakeData, d': StakeData, amount: u64, count: nat)
    {
      && d'.cumulative == d.cumulative && d'.electors == d.electors && d'.slots == d.slots - count
      && (amount <= d.self ==> d'.self == d.self - amount)
      && (amount > d.self ==> d'.self == d.self - amount + U64)
    }

    /** Every elector not yet listed enters the validator's row with its stake; all else stays. */
    static ghost predicate Listed(before: Snapshot, after: Snapshot, v: bytes, electors: Stakes)
    {
      && (forall u | u != v :: (u in after <==> u in before) && (u in after ==> after[u] == before[u]))
      && (forall e :: e in Row(after, v) <==> e in Row(before, v) || e in electors)
      && (forall e | e in Row(after, v) :: Row(after, v)[e] == if e in Row(before, v) then Row(before, v)[e] else electors[e])
    }

    method GiveUp(v: bytes, amount: u64, count: nat)
      requires v in validators
      modifies this`validators
      ensures validators == old(validators)[v := SubSelf(old(validators)[v], amount, count)]
      ensures OthersSame(old(validators), validators, v) && Lowered(old(validators)[v], validators[v], amount, count)
    {
      var d := validators[v];
      WrappedSum(d.self, amount);
      validators := validators[v := d.(self := Wrap(d.self - amount), slots := d.slots - count)];
    }

    /** The loop over the electors of a leaving validator. */
    method MarkFullUnstake(v: bytes)
      requires v in validators
      modifies this`snapshot
      ensures snapshot == MarkFull(old(snapshot), v, validators[v].electors)
      ensures Listed(old(snapshot), snapshot, v, validators[v].electors)
    {
      var electors := validators[v].electors;
      ghost var before := snapshot;
      var todo := electors.Keys;
      Part0(electors);
      while todo != {}
        invariant todo <= electors.Keys
        invariant snapshot == MarkFull(before, v, Part(electors, todo))
        decreases todo
      {
        var e :| e in todo;
        MarkOne(before, v, electors, todo, e);
        if e !in Row(snapshot, v) {
          snapshot := snapshot[v := Put(Row(snapshot, v), e, electors[e])];
        }
        todo := todo - {e};
      }
      assert Part(electors, todo) == electors;
      MarkedIsListed(before, v, electors);
    }

    static lemma MarkedIsListed(before: Snapshot, v: bytes, electors: Stakes)
      ensures Listed(before, MarkFull(before, v, electors), v, electors)
    {
      assert electors != map[] ==> Row(MarkFull(before, v, electors), v) == electors + Row(before, v);
    }

    static lemma Part0(electors: Stakes)
      ensures Part(electors, electors.Keys) == map[]
    {
    }

    /** One turn of the loop of MarkFullUnstake. */
    static lemma MarkOne(before: Snapshot, v: bytes, electors: Stakes, todo: set<bytes>, e: bytes)
      requires todo <= electors.Keys && e in todo
      ensures var now := MarkFull(before, v, Part(electors, todo));
        MarkFull(before, v, Part(electors, todo - {e}))
        == if e in Row(now, v) then now else now[v := Put(Row(now, v), e, electors[e])]
    {
      var part := Part(electors, todo);
      assert Part(electors, todo - {e}) == Put(part, e, electors[e]);
      assert e in Put(part, e, electors[e]);
      RowMarked(before, v, part);
      UnionPut(part, Row(before, v), e, electors[e]);
    }

    static lemma RowMarked(before: Snapshot, v: bytes, electors: Stakes)
      ensures Row(MarkFull(before, v, electors), v) == electors + Row(before, v)
    {
    }

    static lemma UnionPut(part: Stakes, base: Stakes, e: bytes, x: u64)
      requires e !in part
      ensures Put(part, e, x) + base == if e in part + base then part + base else Put(part + base, e, x)
    {
    }

    static function Row(snapshot: Snapshot, v: bytes): Stakes
    {
      if v in snapshot then snapshot[v] else map[]
    }

    static ghost function Part(electors: Stakes, todo: set<bytes>): Stakes
    {
      map e | e in electors && e !in todo :: electors[e]
    }

    method RegisterElectorStake(e: bytes, v: bytes, amount: u64)
      requires Valid()
      modifies this
      ensures View() == RegisterElector(old(View()), e, v, amount)
      ensures slotsFilled == old(slotsFilled) && slotsReserved == old(slotsReserved)
      ensures if v in old(validators) then snapshot == old(snapshot) && e in electors && v in electors[e]
              else validators == old(validators) && v in snapshot && e in snapshot[v]
      ensures forall u | u in old(validators) && u != v :: u in validators && validators[u] == old(validators)[u]
      ensures v in old(validators) ==> validators[v].slots == old(validators)[v].slots && validators[v].self == old(validators)[v].self
      ensures Kept(params, old(View()), View(), StakeElector(e, v, amount))
    {
      KeptExactly(params, View(), StakeElector(e, v, amount));
      if v !in validators {
        OweElector(v, e, amount);
        return;
      }
      JoinValidator(v, e, amount);
      if e !in electors {
        electors := electors[e := {}];
      }
      electors := electors[e := electors[e] + {v}];
      cumulativeStake := Wrap(cumulativeStake + amount);
      assert electors == RegisterElector(old(View()), e, v, amount).electors;
    }

    method JoinValidator(v: bytes, e: bytes, amount: u64)
      requires v in validators
      modifies this`validators
      ensures validators == old(validators)[v := Join(old(validators)[v], e, amount)]
    {
      var d := validators[v];
      var before: int := if e in d.electors then d.electors[e] else 0;
      validators := validators[v := d.(cumulative := Wrap(d.cumulative + amount), electors := d.electors[e := Wrap(before + amount)])];
    }

    /** SystemUnstakeElector. */
    method OweElector(v: bytes, e: bytes, amount: u64)
      modifies this`snapshot
      ensures snapshot == AddUnstake(old(snapshot), v, e, amount)
    {
      if v !in snapshot {
        snapshot := snapshot[v := map[]];
      }
      var row := snapshot[v];
      var before: int := if e in row then row[e] else 0;
      SmallWrap(amount);
      snapshot := snapshot[v := Put(row, e, Wrap(before + amount))];
    }

    method CancelElectorStake(e: bytes, v: bytes, amount: u64) returns (ok: bool)
      requires Valid()
      modifies this
      ensures Outcome(ok, View()) == CancelElector(old(View()), e, v, amount)
      ensures ok <==> v in old(validators) && e in old(validators)[v].electors
      ensures slotsFilled == old(slotsFilled) && slotsReserved == old(slotsReserved) && electors == old(electors)
      ensures validators.Keys == old(validators).Keys
      ensures forall u | u in validators && u != v :: validators[u] == old(validators)[u]
      ensures ok ==> (e in validators[v].electors <==> amount != old(validators)[v].electors[e])
      ensures ok ==> forall x | x in validators[v].electors && x != e :: x in old(validators)[v].electors && validators[v].electors[x] == old(validators)[v].electors[x]
      ensures Kept(params, old(View()), View(), UnstakeElector(e, v, amount))
    {
      KeptExactly(params, View(), UnstakeElector(e, v, amount));
      if v !in validators { return false; }
      if e !in validators[v].electors { return false; }
      OweLess(v, e, amount);
      LeaveValidator(v, e, amount);
      cumulativeStake := Wrap(cumulativeStake - amount);
      return true;
    }

    method LeaveValidator(v: bytes, e: bytes, amount: u64)
      requires v in validators && e in validators[v].electors
      modifies this`validators
      ensures validators == old(validators)[v := Leave(old(validators)[v], e, amount)]
    {
      var d := validators[v];
      var left := if d.electors[e] == amount then d.electors - {e} else d.electors[e := Wrap(d.electors[e] - amount)];
      validators := validators[v := d.(electors := left, cumulative := Wrap(d.cumulative - amount))];
    }

    /** The pending system unstake shrinks with a voluntary one. */
    method OweLess(v: bytes, e: bytes, amount: u64)
      modifies this`snapshot
      ensures snapshot == ReduceUnstake(old(snapshot), v, e, amount)
    {
      if v in snapshot && e in snapshot[v] {
        var row := snapshot[v];
        if row[e] > amount {
          snapshot := snapshot[v := Put(row, e, row[e] - amount)];
        } else {
          var rest: Stakes := row - {e};
          snapshot := snapshot[v := rest];
        }
      }
    }

    method ProcessSystemUnstake(v: bytes, e: bytes, amount: u64) returns (ok: bool)
      requires Valid()
      modifies this
      ensures Outcome(ok, View()) == SystemUnstake(old(View()), v, e, amount)
      ensures ok <==> v in old(snapshot) && e in old(snapshot)[v]
      ensures validators == old(validators) && electors == old(electors)
      ensures slotsFilled == old(slotsFilled) && slotsReserved == old(slotsReserved)
      ensures snapshot.Keys == old(snapshot).Keys && forall u | u in snapshot && u != v :: snapshot[u] == old(snapshot)[u]
      ensures ok ==> (e !in snapshot[v] <==> amount == old(snapshot)[v][e])
      ensures ok && amount < old(snapshot)[v][e] ==> snapshot[v][e] == old(snapshot)[v][e] - amount
      ensures Inv(params, old(View())) ==> Inv(params, View())
    {
      if v !in snapshot || e !in snapshot[v] { return false; }
      var row := snapshot[v];
      if row[e] == amount {
        snapshot := snapshot[v := row - {e}];
      } else {
        WrappedSum(row[e], amount);
        snapshot := snapshot[v := Put(row, e, Wrap(row[e] - amount))];
      }
      cumulativeStake := Wrap(cumulativeStake - amount);
      return true;
    }

    method ReserveSlots(amount: u64) returns (ok: bool)
      requires Valid()
      modifies this`slotsReserved
      ensures Outcome(ok, View()) == Reserve(params, old(View()), amount)
      ensures ok <==>
        && amount > 0 && amount % params.unit == 0
        && old(slotsFilled) + old(slotsReserved) + amount / params.unit <= params.limit
      ensures slotsReserved == old(slotsReserved) + (if ok then amount / params.unit else 0)
      ensures Inv(params, old(View())) ==> Inv(params, View())
    {
      SlotsOfAmount(amount, params.unit);
      if slotsFilled + slotsReserved >= params.limit { return false; }
      if amount % params.unit != 0 { return false; }
      var count := amount / params.unit;
      if count == 0 { return false; }
      if params.limit - (slotsFilled + slotsReserved) < count { return false; }
      slotsReserved := slotsReserved + count;
      return true;
    }

    static method IterationOrder(stakes: Stakes) returns (order: seq<bytes>)
      ensures OrderOf(stakes, order)
    {
      order := [];
      var todo := stakes.Keys;
      while todo != {}
        invariant todo <= stakes.Keys && |order| + |todo| == |stakes|
        invariant forall v :: v in order <==> v in stakes && v !in todo
        invariant forall i, j | 0 <= i < j < |order| :: order[i] != order[j]
        decreases todo
      {
        var v :| v in todo;
        order := order + [v];
        todo := todo - {v};
      }
    }

    /** One transaction of a batch. */
    method FinalizeOne(t: Transaction) returns (ok: bool, order: seq<bytes>)
      requires Valid()
      modifies this
      ensures OrderOf(ElectorStakes(t.outputs), order)
      ensures Outcome(ok, View()) == Replay(params, old(View()), TxSteps(t, order))
    {
      var own, stakes := ReadStake(t.outputs);
      order := IterationOrder(stakes);
      ok := true;
      if t.kind == STAKE {
        ok := ProcessStakeTx(t, own, stakes, order);
      } else if t.kind == UNSTAKE {
        ok := ProcessUnstakeTx(t);
        OneStep(params, old(View()), UnstakeStep(t));
      } else if t.kind == SYSTEM_UNSTAKE {
        ok := ProcessSystemUnstakeTx(t);
        OneStep(params, old(View()), PayOutStep(t));
      }
    }

    /** processStakeTx on what the loop has read: the own stake first, then the stakes on validators. */
    method ProcessStakeTx(t: Transaction, own: u64, stakes: Stakes, order: seq<bytes>) returns (ok: bool)
      requires Valid() && own == ValidatorAmount(t.outputs) && stakes == ElectorStakes(t.outputs) && OrderOf(stakes, order)
      modifies this
      ensures Outcome(ok, View()) == Replay(params, old(View()), StakeSteps(t, order))
    {
      var from := if t.inputs == [] then [] else t.inputs[0].address;
      ghost var first: seq<Step> := if own > 0 then [Do(StakeValidator(from, own))] else [];
      ok := true;
      if own > 0 {
        ok := RegisterValidatorStake(from, own);
        OneStep(params, old(View()), Do(StakeValidator(from, own)));
      }
      ReplayConcat(params, old(View()), first, ElectorSteps(from, order, stakes));
      if !ok { return; }
      StakeOnValidators(from, stakes, order);
    }

    method StakeOnValidators(from: bytes, stakes: Stakes, order: seq<bytes>)
      requires Valid() && OrderOf(stakes, order)
      modifies this
      ensures Outcome(true, View()) == Replay(params, old(View()), ElectorSteps(from, order, stakes))
    {
      for k := 0 to |order|
        invariant Outcome(true, View()) == Replay(params, old(View()), ElectorSteps(from, order[..k], stakes))
      {
        ghost var before, steps := View(), ElectorSteps(from, order[..k], stakes);
        ElectorStepsPush(from, order, k, stakes);
        RegisterElectorStake(from, order[k], stakes[order[k]]);
        ReplayPush(params, old(View()), steps, Do(StakeElector(from, order[k], stakes[order[k]])));
      }
      assert order[..|order|] == order;
    }

    /** processUnstakeTx. */
    method ProcessUnstakeTx(t: Transaction) returns (ok: bool)
      requires Valid()
      modifies this
      ensures Outcome(ok, View()) == Perform(params, old(View()), UnstakeStep(t))
    {
      var node, sum := ReadInputs(t.inputs);
      if node.None? { return false; }
      var amount := TakeStaked(t.inputs, t.outputs, sum);
      var own := node.value == BLACK_HOLE;
      if !own && |node.value| == 0 { return false; }
      var from := if t.inputs == [] then [] else t.inputs[0].address;
      if own {
        ok := CancelValidatorStake(from, amount);
      } else {
        ok := CancelElectorStake(from, node.value, amount);
      }
    }

    /** processSystemUnstakeTx. */
    method ProcessSystemUnstakeTx(t: Transaction) returns (ok: bool)
      requires Valid()
      modifies this
      ensures Outcome(ok, View()) == Perform(params, old(View()), PayOutStep(t))
    {
      if |t.outputs| != 1 { return false; }
      if |t.inputs| < 1 { return false; }
      ok := ProcessSystemUnstake(Address(t.inputs[0].node), t.outputs[0].address, t.outputs[0].amount);
    }

    lemma BatchStep(p: Params, s: Pool, steps: seq<Step>, more: seq<Step>, mid: Pool, after: Outcome)
      requires ValidParams(p)
      requires Replay(p, s, [Do(Release)] + steps) == Outcome(true, mid) && Replay(p, mid, more) == after
      ensures Replay(p, s, [Do(Release)] + (steps + more)) == after
    {
      ReplayConcat(p, s, [Do(Release)] + steps, more);
      assert ([Do(Release)] + steps) + more == [Do(Release)] + (steps + more);
    }

    /**
     FinalizeStaking: release the reservations, then the operations of each transaction in order, up to the first
     transaction that fails; orders are the iteration orders of the elector maps that were read.
     */
    method FinalizeStaking(batch: seq<Transaction>) returns (ok: bool, ghost orders: seq<seq<bytes>>)
      requires Valid()
      modifies this
      ensures |orders| <= |batch| && (ok ==> |orders| == |batch|) && Orders(batch[..|orders|], orders)
      ensures Outcome(ok, View()) == Replay(params, old(View()), [Do(Release)] + BatchSteps(batch[..|orders|], orders))
    {
      ok, orders := true, [];
      slotsReserved := 0;
      assert [Do(Release)] + BatchSteps(batch[..0], orders) == [Do(Release)] && [Do(Release)][..0] == [];
      var k := 0;
      while ok && k < |batch|
        invariant k == |orders| <= |batch| && Orders(batch[..k], orders)
        invariant Outcome(ok, View()) == Replay(params, old(View()), [Do(Release)] + BatchSteps(batch[..k], orders))
      {
        ghost var mid := View();
        var order: seq<bytes>;
        ok, order := FinalizeOne(batch[k]);
        BatchStep(params, old(View()), BatchSteps(batch[..k], orders), TxSteps(batch[k], order), mid, Outcome(ok, View()));
        BatchStepsPush(batch, orders, k, order);
        orders := orders + [order];
        k := k + 1;
      }
    }

    /** Finalising exactly the stake transactions whose validator stakes were reserved never fails. */
    method FinalizeReserved(batch: seq<Transaction>, ghost before: Pool) returns (ok: bool)
      requires Valid() && Inv(params, before)
      requires ReserveAll(params, before, Validators(batch)) == Outcome(true, View())
      requires forall i | 0 <= i < |batch| :: batch[i].kind == STAKE
      modifies this
      ensures ok && slotsFilled == old(slotsFilled) + Slots(params, Validators(batch)) && slotsReserved == 0
    {
      ghost var reserved := View();
      ghost var orders;
      ok, orders := FinalizeStaking(batch);
      ghost var done := |orders|;
      StakeBatchShape(batch[..done], orders);
      ReservedPrefix(params, before, batch, done);
      ReserveAllCounts(params, before, Validators(batch));
      ReservedBatchSucceeds(params, before, BatchSteps(batch[..done], orders), reserved);
      assert ok && batch[..done] == batch;
    }

    /** The electors' loop; None stands for a division by zero. */
    static method PayElectors(electors: Stakes, pot: u64, total: u64) returns (rewards: Option<Stakes>)
      ensures rewards == if total != 0 then Some(Shares(electors, pot, total))
                         else if electors == map[] then Some(map[]) else None
    {
      if total == 0 {
        return if electors == map[] then Some(map[]) else None;
      }
      var paid: Stakes := map[];
      var todo := electors.Keys;
      Part0(electors);
      while todo != {}
        invariant todo <= electors.Keys
        invariant paid == Shares(Part(electors, todo), pot, total)
        decreases todo
      {
        var e :| e in todo;
        assert Part(electors, todo - {e}) == Put(Part(electors, todo), e, electors[e]);
        SharesPush(Part(electors, todo), e, electors[e], pot, total);
        var stake, all, divisor := Signed(electors[e]), Signed(pot), Signed(total);
        var reward := Wrap(stake * all / divisor);
        if reward != 0 {
          paid := Credit(paid, e, reward);
        }
        todo := todo - {e};
      }
      assert Part(electors, todo) == electors;
      return Some(paid);
    }

    /** What electors and proposer get. */
    static method PayAll(d: StakeData, rp: RewardParams, proposer: bytes) returns (rewards: Option<Stakes>)
      ensures rewards == RewardsOn(d, rp, proposer)
    {
      var own := Wrap(rp.reward * rp.percent) / 100;
      rewards := PayElectors(d.electors, Wrap(rp.reward - own), Wrap(d.cumulative - d.self));
      if rewards.Some? {
        var before: int := if proposer in rewards.value then rewards.value[proposer] else 0;
        rewards := Some(rewards.value[proposer := Wrap(before + own)]);
      }
    }

    method GetRewardMap(rp: RewardParams, proposer: bytes) returns (rewards: Option<Stakes>)
      requires Valid()
      ensures rewards == RewardMap(rp, View(), proposer)
      ensures Inv(params, View()) && ValidReward(rp) && proposer in validators && ElectorsStake(validators[proposer]) < I64
        ==> rewards.Some? && MapSum(rewards.value, Stake) <= rp.reward
      ensures Inv(params, View()) && ValidReward(rp) && proposer in validators && validators[proposer].cumulative - validators[proposer].self < I64
        ==> rewards.Some? && PaidOut(rp, validators[proposer], proposer, rewards.value)
    {
      rewards := Some(map[]);
      if slotsFilled != 0 && proposer in validators {
        rewards := PayAll(validators[proposer], rp, proposer);
      }
      PaidBound(params, rp, View(), proposer);
    }

    lemma PaidBound(p: Params, rp: RewardParams, s: Pool, proposer: bytes)
      ensures Inv(p, s) && ValidReward(rp) && proposer in s.validators && ElectorsStake(s.validators[proposer]) < I64
        ==> RewardMap(rp, s, proposer).Some? && MapSum(RewardMap(rp, s, proposer).value, Stake) <= rp.reward
      ensures Inv(p, s) && ValidReward(rp) && proposer in s.validators && s.validators[proposer].cumulative - s.validators[proposer].self < I64
        ==> RewardMap(rp, s, proposer).Some? && PaidOut(rp, s.validators[proposer], proposer, RewardMap(rp, s, proposer).value)
    {
      if Inv(p, s) && ValidReward(rp) && proposer in s.validators && ElectorsStake(s.validators[proposer]) < I64 {
        RewardsPaid(p, rp, s, proposer);
      }
      if Inv(p, s) && ValidReward(rp) && proposer in s.validators && s.validators[proposer].cumulative - s.validators[proposer].self < I64 {
        RewardsExactly(p, rp, s, proposer);
      }
    }

    /** The slot unit of the weights is the configured one, which need not be the pool's own. */
    method WeighValidators(unit: u64, premium: u64) returns (weights: Stakes, cumulative: u64)
      requires unit > 0
      ensures weights == Weights(unit, premium, validators)
      ensures cumulative == Wrap(MapSum(weights, Stake))
      ensures weights.Keys == validators.Keys
      ensures forall v | v in validators && WeighsPlainly(unit, premium, validators[v]) ::
        weights[v] == PlainWeight(unit, premium, validators[v])
    {
      weights, cumulative := WeighAll(unit, premium);
      PlainWeights(unit, premium, validators);
    }

    /** The loop over the validators, with the running sum of their weights. */
    method WeighAll(unit: u64, premium: u64) returns (weights: Stakes, cumulative: u64)
      requires unit > 0
      ensures weights == Weights(unit, premium, validators)
      ensures cumulative == Wrap(MapSum(weights, Stake))
    {
      weights, cumulative := map[], 0;
      ghost var total := 0;
      var todo := validators.Keys;
      while todo != {}
        invariant todo <= validators.Keys && total == MapSum(weights, Stake)
        invariant weights.Keys == validators.Keys - todo
        invariant forall v | v in weights :: weights[v] == Weight(unit, premium, validators[v])
        invariant cumulative == Wrap(total)
        decreases todo
      {
        var v :| v in todo;
        var w := WeighOne(unit, premium, validators[v]);
        ghost var next := MapSum(Put(weights, v, w), Stake);
        var sum := Wrap(cumulative + w);
        WeightPush(weights, v, w, total, next, cumulative, sum);
        weights := Put(weights, v, w);
        cumulative := sum;
        total := next;
        todo := todo - {v};
      }
    }

    static lemma PlainWeights(unit: u64, premium: u64, validators: map<bytes, StakeData>)
      requires unit > 0
      ensures forall v | v in validators && WeighsPlainly(unit, premium, validators[v]) ::
        Weights(unit, premium, validators)[v] == PlainWeight(unit, premium, validators[v])
    {
      forall v | v in validators && WeighsPlainly(unit, premium, validators[v])
        ensures Weights(unit, premium, validators)[v] == PlainWeight(unit, premium, validators[v])
      {
        WeightIsPlain(unit, premium, validators[v]);
      }
    }

    /** One validator's weight. */
    static method WeighOne(unit: u64, premium: u64, d: StakeData) returns (w: u64)
      requires unit > 0
      ensures w == Weight(unit, premium, d)
    {
      var own := Wrap(d.self / unit * 100);
      var others := Wrap(d.cumulative - d.self);
      others := Wrap(others / unit * premium);
      w := Wrap(own + others);
    }

    static lemma WeightPush(weights: Stakes, v: bytes, w: u64, total: nat, next: nat, word: u64, word': u64)
      requires v !in weights && total == MapSum(weights, Stake) && next == MapSum(Put(weights, v, w), Stake)
      requires word == Wrap(total) && word' == Wrap(word + w)
      ensures word' == Wrap(next)
    {
      MapSumInsert<bytes, u64>(weights, v, w, Stake);
      WordStep(total, w, next, word, word');
    }

    /** The choice loop, with its break. */
    static method Choose(proposers: seq<bytes>, weights: Stakes, draw: u64) returns (leader: Option<bytes>)
      ensures leader == Pick(proposers, weights, draw)
    {
      leader := None;
      var sum: u64 := 0;
      var k := 0;
      while k < |proposers|
        invariant k <= |proposers|
        invariant sum == Passed(proposers[..k], weights)
        invariant leader == Pick(proposers[..k], weights, draw) == None
      {
        assert proposers[..k + 1][..k] == proposers[..k];
        if proposers[k] in weights {
          var weight := weights[proposers[k]];
          if Wrap(weight + sum) >= draw {
            leader := Some(proposers[k]);
            PickStays(proposers, weights, draw, k + 1);
            return;
          }
          sum := Wrap(sum + weight);
        }
        k := k + 1;
      }
      assert proposers[..k] == proposers;
    }

    /**
     DetermineProposer; roll is what the seeded generator produces. The generator panics unless the 64-bit total is
     a positive int64, and the first proposer is read when that total is zero.
     */
    method DetermineProposer(unit: u64, premium: u64, proposers: seq<bytes>, roll: nat) returns (leader: Option<bytes>)
      requires unit > 0 && (proposers == [] ==> Wrap(MapSum(Weights(unit, premium, validators), Stake)) > 0)
      requires Wrap(MapSum(Weights(unit, premium, validators), Stake)) < I64
      ensures var weights := Weights(unit, premium, validators);
        var total := Wrap(MapSum(weights, Stake));
        && (total == 0 ==> leader == Some(proposers[0]))
        && (total > 0 ==> leader == Pick(proposers, weights, roll % total + 1))
        && (total > 0 && MapSum(weights, Stake) < U64 && OncePerStaker(proposers, weights) && (forall v | v in weights :: v in proposers) ==>
             leader.Some? && leader.value in weights && weights[leader.value] > 0)
        && (forall v | v in validators && WeighsPlainly(unit, premium, validators[v]) ::
             weights[v] == PlainWeight(unit, premium, validators[v]))
    {
      PlainWeights(unit, premium, validators);
      var weights, cumulative := WeighValidators(unit, premium);
      if cumulative == 0 {
        return Some(proposers[0]);
      }
      RollInRange(roll, cumulative);
      leader := Choose(proposers, weights, roll % cumulative + 1);
      Found(proposers, weights, roll % cumulative + 1);
    }

    static lemma RollInRange(roll: nat, total: nat)
      requires total > 0
      ensures 0 <= roll % total < total
    {
    }

    static lemma Found(proposers: seq<bytes>, weights: Stakes, draw: u64)
      requires 0 < draw <= Wrap(MapSum(weights, Stake))
      ensures MapSum(weights, Stake) < U64 && OncePerStaker(proposers, weights) && (forall v | v in weights :: v in proposers) ==>
        var leader := Pick(proposers, weights, draw);
        leader.Some? && leader.value in weights && weights[leader.value] > 0
    {
      if MapSum(weights, Stake) < U64 && OncePerStaker(proposers, weights) && forall v | v in weights :: v in proposers {
        SmallWrap(MapSum(weights, Stake));
        LeaderAlways(proposers, weights);
        LeaderExists(proposers, weights, draw);
      }
    }

    lemma {:induction false} ReservedPrefix(p: Params, s: Pool, batch: seq<Transaction>, k: nat)
      requires ValidParams(p) && k <= |batch| && ReserveAll(p, s, Validators(batch)).ok
      ensures ReserveAll(p, s, Validators(batch[..k])).ok
      decreases |batch|
    {
      if k < |batch| {
        var init := batch[..|batch| - 1];
        var own := ValidatorAmount(batch[|batch| - 1].outputs);
        if own > 0 {
          assert Validators(batch)[..|Validators(batch)| - 1] == Validators(init);
        } else {
          assert Validators(batch) == Validators(init);
        }
        ReservedPrefix(p, s, init, k);
        assert init[..k] == batch[..k];
      } else {
        assert batch[..k] == batch;
      }
    }
  }
}
