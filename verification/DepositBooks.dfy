/**
 The staking pool against the ledger: what the pool holds for an address on a node, what the ledger has deposited
 there, and how each pool operation moves the first.
 */
module DepositBooks {
  import opened Words
  import opened Sums
  import opened Proto
  import opened Ledger
  import opened Staking

  // ----- the ledger side

  function DepositOf(a: bytes, n: bytes): (r: Utxo -> nat)
    ensures forall u: Utxo :: r(u) == if u.to == a && u.node == n && (u.kind == STAKE || u.kind == UNSTAKE) then u.amount else 0
  {
    (u: Utxo) => if u.to == a && u.node == n && (u.kind == STAKE || u.kind == UNSTAKE) then u.amount else 0
  }

  /** What an address has deposited on a node. */
  ghost function Deposited(m: UtxoSet, a: bytes, n: bytes): nat
  {
    MapSum(m, DepositOf(a, n))
  }

  // ----- the pool side

  function RowOf(s: Pool, n: bytes): Stakes
  {
    if n in s.snapshot then s.snapshot[n] else map[]
  }

  function EntryIn(row: Stakes, a: bytes): nat
  {
    if a in row then row[a] else 0
  }

  /**
   What the pool holds for an address on a node: its own stake for the black hole, its stake with a validator, or
   what is still to be paid back once that validator has left.
   */
  function Held(s: Pool, a: bytes, n: bytes): nat
  {
    if n == BLACK_HOLE then if a in s.validators then s.validators[a].self else 0
    else if n in s.validators then EntryIn(s.validators[n].electors, a)
    else EntryIn(RowOf(s, n), a)
  }

  /** No reservation is open, nobody acts for the black hole, and no active validator has pay-backs pending. */
  ghost predicate Calm(s: Pool)
  {
    && s.reserved == 0
    && BLACK_HOLE !in s.validators && BLACK_HOLE !in s.snapshot
    && forall v | v in s.validators :: RowOf(s, v) == map[]
  }

  ghost function At(a: bytes, n: bytes, b: bytes, k: bytes, amount: nat): nat
  {
    if a == b && n == k then amount else 0
  }

  /** New data for one validator changes what is held on that validator and its own stake, and nothing else. */
  lemma ReplacedHeld(s: Pool, v: bytes, d: StakeData, s': Pool, a: bytes, n: bytes)
    requires Calm(s) && v != BLACK_HOLE && (v in s.validators || RowOf(s, v) == map[])
    requires s'.validators == s.validators[v := d] && s'.snapshot == s.snapshot && s'.reserved == 0
    ensures Calm(s')
    ensures Held(s', a, n) == if n == BLACK_HOLE && a == v then d.self
      else if n == v then EntryIn(d.electors, a) else Held(s, a, n)
  {
    assert forall u | u in s'.validators :: RowOf(s', u) == RowOf(s, u);
  }

  lemma AddSelfExact(d: StakeData, amount: u64, count: nat)
    requires d.self + amount < U64
    ensures AddSelf(d, amount, count).self == d.self + amount && AddSelf(d, amount, count).electors == d.electors
  {
    SmallWrap(d.self + amount);
  }

  lemma StakeValidatorHeld(p: Params, s: Pool, v: bytes, amount: u64, a: bytes, n: bytes)
    requires ValidParams(p) && Inv(p, s) && Calm(s) && v != BLACK_HOLE && RegisterValidator(p, s, v, amount).ok
    requires if v in s.validators then s.validators[v].cumulative + amount < U64 else RowOf(s, v) == map[]
    ensures var s' := RegisterValidator(p, s, v, amount).pool;
      Calm(s') && Held(s', a, n) == Held(s, a, n) + At(a, n, v, BLACK_HOLE, amount)
  {
    var d := if v in s.validators then s.validators[v] else NO_STAKE;
    assert v in s.validators ==> GoodData(p, s.validators[v]);
    AddSelfExact(d, amount, Count(p, amount));
    ReplacedHeld(s, v, AddSelf(d, amount, Count(p, amount)), RegisterValidator(p, s, v, amount).pool, a, n);
  }

  lemma SubSelfExact(d: StakeData, amount: u64, count: nat)
    requires amount <= d.self
    ensures SubSelf(d, amount, count).self == d.self - amount && SubSelf(d, amount, count).electors == d.electors
  {
    SmallWrap(d.self - amount);
  }

  /** Whole slots, no more than the own stake: the count is at most the slots, and the full count is the full stake. */
  lemma CountFits(p: Params, d: StakeData, amount: u64)
    requires ValidParams(p) && GoodData(p, d) && amount % p.unit == 0 && amount <= d.self
    ensures Count(p, amount) <= d.slots && (Count(p, amount) == d.slots ==> amount == d.self)
  {
    Units(amount, p.unit);
    TimesOrder(Count(p, amount), d.slots, p.unit);
  }

  lemma UnstakeValidatorHeld(p: Params, s: Pool, v: bytes, amount: u64, a: bytes, n: bytes)
    requires ValidParams(p) && Inv(p, s) && Calm(s) && CancelValidator(p, s, v, amount).ok
    requires amount % p.unit == 0 && amount <= Held(s, v, BLACK_HOLE)
    ensures var s' := CancelValidator(p, s, v, amount).pool;
      && Guarded(p, s, UnstakeValidator(v, amount)) && Calm(s')
      && Held(s', a, n) + At(a, n, v, BLACK_HOLE, amount) == Held(s, a, n)
  {
    var d, count := s.validators[v], Count(p, amount);
    assert GoodData(p, d);
    CountFits(p, d, amount);
    if d.slots == count {
      LeaversHeld(s, CancelValidator(p, s, v, amount).pool, v, a, n);
    } else {
      SubSelfExact(d, amount, count);
      ReplacedHeld(s, v, SubSelf(d, amount, count), CancelValidator(p, s, v, amount).pool, a, n);
    }
  }

  /** A leaving validator's electors are held by the snapshot instead. */
  lemma LeaversHeld(s: Pool, s': Pool, v: bytes, a: bytes, n: bytes)
    requires Calm(s) && v in s.validators && s'.reserved == 0
    requires s'.validators == s.validators - {v} && s'.snapshot == MarkFull(s.snapshot, v, s.validators[v].electors)
    ensures Calm(s')
    ensures Held(s', a, n) == if n == BLACK_HOLE && a == v then 0 else Held(s, a, n)
  {
    var electors := s.validators[v].electors;
    assert RowOf(s', v) == electors by {
      assert electors + RowOf(s, v) == electors;
    }
    assert forall u | u != v :: RowOf(s', u) == RowOf(s, u);
  }

  lemma JoinExact(d: StakeData, e: bytes, amount: u64, a: bytes)
    requires EntryIn(d.electors, e) + amount < U64
    ensures EntryIn(Join(d, e, amount).electors, a) == EntryIn(d.electors, a) + (if a == e then amount else 0)
    ensures Join(d, e, amount).self == d.self
  {
    SmallWrap(EntryIn(d.electors, e) + amount);
  }

  lemma AddUnstakeExact(snapshot: Snapshot, v: bytes, e: bytes, amount: u64, row: Stakes, row': Stakes, a: bytes)
    requires row == (if v in snapshot then snapshot[v] else map[]) && EntryIn(row, e) + amount < U64
    requires row' == AddUnstake(snapshot, v, e, amount)[v]
    ensures EntryIn(row', a) == EntryIn(row, a) + if a == e then amount else 0
  {
    SmallWrap(EntryIn(row, e) + amount);
  }

  lemma StakeElectorHeld(p: Params, s: Pool, e: bytes, v: bytes, amount: u64, a: bytes, n: bytes)
    requires ValidParams(p) && Inv(p, s) && Calm(s) && v != BLACK_HOLE
    requires v in s.validators ==> s.validators[v].cumulative + amount < U64
    requires v !in s.validators ==> EntryIn(RowOf(s, v), e) + amount < U64
    ensures var s' := RegisterElector(s, e, v, amount);
      Calm(s') && Held(s', a, n) == Held(s, a, n) + At(a, n, e, v, amount)
  {
    if v in s.validators {
      JoinHeld(p, s, e, v, amount, a, n);
    } else {
      PendHeld(s, e, v, amount, a, n);
    }
  }

  lemma JoinHeld(p: Params, s: Pool, e: bytes, v: bytes, amount: u64, a: bytes, n: bytes)
    requires Inv(p, s) && Calm(s) && v != BLACK_HOLE && v in s.validators && s.validators[v].cumulative + amount < U64
    ensures var s' := RegisterElector(s, e, v, amount);
      Calm(s') && Held(s', a, n) == Held(s, a, n) + At(a, n, e, v, amount)
  {
    var d := s.validators[v];
    assert GoodData(p, d);
    if e in d.electors { MapSumMember(d.electors, e, Stake); }
    JoinExact(d, e, amount, a);
    ReplacedHeld(s, v, Join(d, e, amount), RegisterElector(s, e, v, amount), a, n);
  }

  lemma PendHeld(s: Pool, e: bytes, v: bytes, amount: u64, a: bytes, n: bytes)
    requires Calm(s) && v != BLACK_HOLE && v !in s.validators && EntryIn(RowOf(s, v), e) + amount < U64
    ensures var s' := RegisterElector(s, e, v, amount);
      Calm(s') && Held(s', a, n) == Held(s, a, n) + At(a, n, e, v, amount)
  {
    var s' := RegisterElector(s, e, v, amount);
    AddUnstakeExact(s.snapshot, v, e, amount, RowOf(s, v), RowOf(s', v), a);
    assert forall u | u != v :: RowOf(s', u) == RowOf(s, u);
  }

  lemma UnstakeElectorHeld(p: Params, s: Pool, e: bytes, v: bytes, amount: u64, a: bytes, n: bytes)
    requires ValidParams(p) && Inv(p, s) && Calm(s) && CancelElector(s, e, v, amount).ok && v != BLACK_HOLE
    requires amount <= Held(s, e, v)
    ensures var s' := CancelElector(s, e, v, amount).pool;
      && Guarded(p, s, UnstakeElector(e, v, amount)) && Calm(s')
      && Held(s', a, n) + At(a, n, e, v, amount) == Held(s, a, n)
  {
    SmallWrap(s.validators[v].electors[e] - amount);
    assert RowOf(s, v) == map[];
    assert ReduceUnstake(s.snapshot, v, e, amount) == s.snapshot;
  }

  lemma PayOutHeld(s: Pool, v: bytes, e: bytes, amount: u64, a: bytes, n: bytes)
    requires Calm(s) && SystemUnstake(s, v, e, amount).ok && amount <= Held(s, e, v)
    ensures var s' := SystemUnstake(s, v, e, amount).pool;
      Calm(s') && Held(s', a, n) + At(a, n, e, v, amount) == Held(s, a, n)
  {
    var s' := SystemUnstake(s, v, e, amount).pool;
    assert v !in s.validators by { assert e in RowOf(s, v); }
    SmallWrap(s.snapshot[v][e] - amount);
    forall u | u != v ensures RowOf(s', u) == RowOf(s, u) { }
  }
}
