/**
 How a pending system unstake loses its deposits: the pool registers the sender of a stake as the elector, the ledger
 gives the deposit to the address of the output, and nothing ties the two.
 */
module Stray {
  import opened Words
  import opened Sums
  import opened Proto
  import opened Ledger
  import opened Validator
  import opened Forged
  import opened Staking
  import opened StakeBatches
  import U = Untidy
  import opened ForgerObject
  import opened DepositBooks
  import Runs = StakingRuns

  // ----- a stake paid into another address

  /** A validator's own deposit, and ten plain coins of the elector. */
  function Before(e: bytes, v: bytes): UtxoSet
  {
    map[U.At(1) := U.Row(v, BLACK_HOLE, 12, STAKE)][U.At(2) := U.Row(e, [], 10, NORMAL)]
  }

  function Middle(f: bytes, v: bytes): UtxoSet
  {
    map[U.At(1) := U.Row(v, BLACK_HOLE, 12, STAKE)][U.At(3) := U.Row(f, v, 10, STAKE)]
  }

  function After(f: bytes, v: bytes): UtxoSet
  {
    map[U.At(3) := U.Row(f, v, 10, STAKE)][U.At(4) := U.Row(v, [], 12, UNSTAKE)]
  }

  /** The elector stakes its coins on the validator, for another address. */
  function StrayStake(e: bytes, f: bytes, v: bytes): Transaction
  {
    Transaction(1, STAKE, 0, [3], 0, [], [TxInput([2], 0, e, 10, [])], [TxOutput(f, 10, v)], [], 0)
  }

  /** The validator takes all its stake back. */
  function LeaveAll(v: bytes): Transaction
  {
    U.Unstake(1, [TxInput([1], 0, v, 12, BLACK_HOLE)], [TxOutput(v, 12, [])]).(hash := [4])
  }

  /** A view in which the validator is known and has no electors yet. */
  function Known(m: UtxoSet, v: bytes): Env
  {
    U.View(m, map[]).(electors := map[v := 0])
  }

  lemma StrayPurse(e: bytes, v: bytes)
    requires e != v
    ensures OwnedBy(Before(e, v), e) == map[U.At(2) := U.Row(e, [], 10, NORMAL)]
    ensures Wrap(Total(OwnedBy(Before(e, v), e))) == 10
  {
    var purse: UtxoSet := map[U.At(2) := U.Row(e, [], 10, NORMAL)];
    assert OwnedBy(Before(e, v), e) == purse;
    MapSumInsert<OutKey, Utxo>(map[], U.At(2), U.Row(e, [], 10, NORMAL), Amount);
    SmallWrap(10);
  }

  lemma StrayStruct(e: bytes, f: bytes, v: bytes)
    requires |v| == 20 && v != BLACK_HOLE
    ensures var env := Known(Before(e, v), v); ValidEnv(env) && StandardStructOk(env, StrayStake(e, f, v)) && StakeTypeOk(env, StrayStake(e, f, v))
  {
    var env, t := Known(Before(e, v), v), StrayStake(e, f, v);
    U.Free(t);
    U.FullAddress(v);
    U.SumOne(t.inputs[0], InAmount);
    U.SumOne(t.outputs[0], OutAmount);
    assert t.outputs[..0] == [];
    assert StakeOutputs(t.outputs) == 1;
    assert OutNodes(t.outputs) == [v];
    assert GoodInputs(env, t) && GoodOutputs(env, t) && Balanced(t) && Shaped(env, t);
  }

  lemma StrayAccepted(e: bytes, f: bytes, v: bytes)
    requires |v| == 20 && v != BLACK_HOLE && e != v
    ensures ValidEnv(Known(Before(e, v), v)) && StandardOk(Known(Before(e, v), v), StrayStake(e, f, v))
  {
    StrayStruct(e, f, v);
    StrayPurse(e, v);
    SmallWrap(1);
  }

  lemma InsertOne(m: UtxoSet, a: Entry)
    requires a.key !in m
    ensures InsertAll(m, [a]) == Some(m[a.key := a.utxo])
  {
    assert [a][..0] == [];
  }

  lemma StrayProcessed(e: bytes, f: bytes, v: bytes)
    requires |v| == 20
    ensures Process(Before(e, v), [StrayStake(e, f, v)]) == Some(Middle(f, v))
  {
    var m, t := Before(e, v), StrayStake(e, f, v);
    var rows: UtxoSet := map[U.At(1) := U.Row(v, BLACK_HOLE, 12, STAKE)];
    U.BlockOfOne(t);
    U.SpendOne(m, t.inputs[0]);
    assert m - {U.At(2)} == rows;
    U.FullAddress(v);
    var a := Entry(U.At(3), U.Row(f, v, 10, STAKE));
    assert Entries(t) == [a];
    InsertOne(rows, a);
  }

  lemma LeavePurse(f: bytes, v: bytes)
    requires f != v
    ensures var d := Deposits(Middle(f, v), v);
      U.At(1) in d && d[U.At(1)] == U.Row(v, BLACK_HOLE, 12, STAKE) && Wrap(Total(d)) == 12
  {
    var d, row := Deposits(Middle(f, v), v), U.Row(v, BLACK_HOLE, 12, STAKE);
    assert d == (map[])[U.At(1) := row];
    MapSumInsert<OutKey, Utxo>(map[], U.At(1), row, Amount);
    SmallWrap(12);
  }

  lemma LeaveAccepted(f: bytes, v: bytes)
    requires f != v
    ensures ValidEnv(U.View(Middle(f, v), map[])) && StandardOk(U.View(Middle(f, v), map[]), LeaveAll(v))
  {
    var m, t := Middle(f, v), LeaveAll(v);
    U.SumOne(t.inputs[0], InAmount);
    U.SumOne(t.outputs[0], OutAmount);
    U.FullAddress(BLACK_HOLE);
    LeavePurse(f, v);
    SmallWrap(1);
    U.UnstakePasses(m, map[], 1, v, BLACK_HOLE, [4], t.inputs, t.outputs);
  }

  lemma LeaveProcessed(f: bytes, v: bytes)
    ensures Process(Middle(f, v), [LeaveAll(v)]) == Some(After(f, v))
  {
    var m, t := Middle(f, v), LeaveAll(v);
    var rows: UtxoSet := map[U.At(3) := U.Row(f, v, 10, STAKE)];
    U.BlockOfOne(t);
    U.SpendOne(m, t.inputs[0]);
    assert m - {U.At(1)} == rows;
    var a := Entry(U.At(4), U.Row(v, [], 12, UNSTAKE));
    assert Entries(t) == [a];
    InsertOne(rows, a);
  }

  // ----- what the pool makes of it

  lemma StrayAsks(e: bytes, f: bytes, v: bytes)
    requires |v| == 20 && v != BLACK_HOLE
    ensures OrderOf(ElectorStakes(StrayStake(e, f, v).outputs), [v])
    ensures TxSteps(StrayStake(e, f, v), [v]) == [Do(StakeElector(e, v, 10))]
  {
    var t := StrayStake(e, f, v);
    U.FullAddress(v);
    SmallWrap(0);
    SmallWrap(10);
    assert t.outputs[..0] == [];
    assert OwnTotal(t.outputs[..0]) == 0 && ElectorStakes(t.outputs[..0]) == map[];
    assert OwnTotal(t.outputs) == 0;
    assert ElectorStakes(t.outputs) == Put(map[], v, 10);
    assert [v][..0] == [];
    assert ElectorSteps(e, [v][..0], ElectorStakes(t.outputs)) == [];
  }

  lemma LeaveAsks(v: bytes)
    ensures UnstakeStep(LeaveAll(v)) == Do(UnstakeValidator(v, 12))
  {
    var t := LeaveAll(v);
    U.FullAddress(BLACK_HOLE);
    SmallWrap(12);
    assert t.inputs[..0] == [] && t.outputs[..0] == [];
    assert UnstakeNode(t.inputs[..0]) == Some([]);
    assert UnstakeTotal(t.inputs[..0], []) == 0;
    assert UnstakeTotal(t.inputs, []) == 12;
    assert UnstakeTotal(t.inputs, t.outputs[..0]) == 12;
  }

  /** The pool after both. */
  function Left(e: bytes, v: bytes): Outcome
  {
    Apply(U.P, Apply(U.P, U.ThreeSlots(v), StakeElector(e, v, 10)).pool, UnstakeValidator(v, 12))
  }

  lemma LeftMarks(e: bytes, v: bytes)
    ensures Left(e, v).ok && Left(e, v).pool.snapshot == map[v := Put(map[], e, 10)]
  {
    SmallWrap(10);
    var d := Join(U.ThreeSlots(v).validators[v], e, 10);
    assert d.electors == Put(map[], e, 10) && d.slots == 3;
    assert MarkFull(map[], v, d.electors) == map[v := d.electors + map[]];
    assert d.electors + map[] == d.electors;
  }

  lemma ListedDeposit(c: Chain, e: bytes, v: bytes)
    requires ValidChain(c) && v != [] && c.deposits(e, v) != []
    ensures exists k :: k in c.env.utxo && IsDeposit(c.env.utxo[k], e, v)
  {
    assert Keeps(Listings, c);
    assert DepositRows(c, e, v);
    assert IsDeposit(c.env.utxo[c.deposits(e, v)[0]], e, v);
  }

  /** No deposit of the elector on the validator is left on the ledger. */
  lemma NothingListed(c: Chain, e: bytes, f: bytes, v: bytes)
    requires ValidChain(c) && v != [] && e != f && c.env.utxo == After(f, v)
    ensures c.deposits(e, v) == []
  {
    if c.deposits(e, v) != [] {
      ListedDeposit(c, e, v);
    }
  }

  /**
   Two accepted transactions after which the forger builds a system unstake that no validator accepts: an elector
   stakes for another address, then the validator leaves. The pool wants the elector paid; the ledger has no deposit
   of it.
   */
  lemma StrayDepositIsHollow(c: Chain, e: bytes, f: bytes, v: bytes)
    requires |v| == 20 && v != BLACK_HOLE && e != v && f != v && e != f
    requires ValidChain(c) && c.env.utxo == After(f, v)
    ensures ValidEnv(Known(Before(e, v), v)) && StandardOk(Known(Before(e, v), v), StrayStake(e, f, v))
    ensures Process(Before(e, v), [StrayStake(e, f, v)]) == Some(Middle(f, v))
    ensures ValidEnv(U.View(Middle(f, v), map[])) && StandardOk(U.View(Middle(f, v), map[]), LeaveAll(v))
    ensures Process(Middle(f, v), [LeaveAll(v)]) == Some(After(f, v))
    ensures OrderOf(ElectorStakes(StrayStake(e, f, v).outputs), [v])
    ensures TxSteps(StrayStake(e, f, v), [v]) == [Do(StakeElector(e, v, 10))] && UnstakeStep(LeaveAll(v)) == Do(UnstakeValidator(v, 12))
    ensures Left(e, v).ok && Left(e, v).pool.snapshot == map[v := Put(map[], e, 10)]
    ensures Rows(c.env.utxo, DepositKeys(c, v, e))
    ensures var t := Repayment(c, Pending(v, e)); t.inputs == [] && !SystemUnstakeOk(c.env, c.num, t)
  {
    StrayAccepted(e, f, v);
    StrayProcessed(e, f, v);
    LeaveAccepted(f, v);
    LeaveProcessed(f, v);
    StrayAsks(e, f, v);
    LeaveAsks(v);
    LeftMarks(e, v);
    NothingListed(c, e, f, v);
    RepaymentHollow(c, Pending(v, e));
  }

  // ----- when it cannot happen

  lemma {:induction false} NoneDeposited(m: UtxoSet, a: bytes, n: bytes)
    requires forall k | k in m :: !IsDeposit(m[k], a, n)
    requires n != []
    ensures DepositBooks.Deposited(m, a, n) == 0
    decreases |m|
  {
    if m != map[] {
      var k :| k in m;
      MapSumRemove(m, k, DepositOf(a, n));
      assert (m - {k}).Keys == m.Keys - {k};
      NoneDeposited(m - {k}, a, n);
    }
  }

  /** The database lists every deposit of the elector on the validator. */
  ghost predicate AllListed(c: Chain, e: bytes, v: bytes)
  {
    forall k | k in c.env.utxo && IsDeposit(c.env.utxo[k], e, v) :: k in c.deposits(e, v)
  }

  /** On a node whose pool agrees with its ledger, whoever still has something to be paid has deposits to pay it from. */
  lemma OwedHasDeposits(p: Params, c: Chain, x: Runs.Node, e: bytes, v: bytes)
    requires ValidParams(p) && Runs.InOrder(p, x) && c.env.utxo == x.utxo && AllListed(c, e, v)
    requires v != [] && v in x.pool.snapshot && e in x.pool.snapshot[v] && x.pool.snapshot[v][e] > 0
    ensures c.deposits(e, v) != []
  {
    assert Runs.AgreeOn(x.utxo, x.pool, e, v);
    assert RowOf(x.pool.(reserved := 0), v) == x.pool.snapshot[v] != map[];
    assert v !in x.pool.validators;
    assert DepositBooks.Deposited(x.utxo, e, v) == x.pool.snapshot[v][e];
    if forall k | k in x.utxo :: !IsDeposit(x.utxo[k], e, v) {
      NoneDeposited(x.utxo, e, v);
    }
  }
}
