/**
 The staking pool (blockchain/consensus/staking/pool.go): validators with their own stake and their electors,
 slot counters, and the snapshot of electors still to be paid out by the system. Every operation is a function
 on pool values; the class carries the fields and its methods are proved to compute those functions.
 */
module Staking {
  import opened Words
  import opened Sums
  import opened Proto
  import opened Ledger

  datatype StakeData = StakeData(slots: int, cumulative: u64, electors: Stakes, self: u64)

  type Stakes = map<bytes, u64>

  type Snapshot = map<bytes, Stakes>

  function Put(row: Stakes, e: bytes, x: u64): Stakes { row[e := x] }

  datatype Params = Params(unit: u64, limit: int)

  datatype Pool = Pool(
    validators: map<bytes, StakeData>, electors: map<bytes, set<bytes>>, snapshot: Snapshot,
    cumulative: u64, filled: int, reserved: int)

  /** The result of an operation that may fail; a failed operation leaves the pool as the code leaves it. */
  datatype Outcome = Outcome(ok: bool, pool: Pool)

  const NO_STAKE: StakeData := StakeData(0, 0, map[], 0)

  const EMPTY: Pool := Pool(map[], map[], map[], 0, 0, 0)

  ghost predicate ValidParams(p: Params)
  {
    p.unit > 1 && p.limit >= 0
  }

  /** Slots that an amount fills. */
  function Count(p: Params, amount: u64): (r: nat)
    requires ValidParams(p)
  {
    amount / p.unit
  }

  // ----- changes to one validator's data

  function AddSelf(d: StakeData, amount: u64, count: nat): StakeData
  {
    d.(cumulative := Wrap(d.cumulative + amount), self := Wrap(d.self + amount), slots := d.slots + count)
  }

  function SubSelf(d: StakeData, amount: u64, count: nat): StakeData
  {
    d.(self := Wrap(d.self - amount), slots := d.slots - count)
  }

  function Join(d: StakeData, e: bytes, amount: u64): StakeData
  {
    var before: int := if e in d.electors then d.electors[e] else 0;
    d.(cumulative := Wrap(d.cumulative + amount), electors := Put(d.electors, e, Wrap(before + amount)))
  }

  function Leave(d: StakeData, e: bytes, amount: u64): StakeData
    requires e in d.electors
  {
    var electors := if d.electors[e] == amount then d.electors - {e} else Put(d.electors, e, Wrap(d.electors[e] - amount));
    d.(electors := electors, cumulative := Wrap(d.cumulative - amount))
  }

  // ----- operations

  function RegisterValidator(p: Params, s: Pool, v: bytes, amount: u64): Outcome
    requires ValidParams(p)
  {
    var empty := p.limit - s.filled;
    var count := Count(p, amount);
    if empty <= 0 || empty < count then Outcome(false, s)
    else
      var d := if v in s.validators then s.validators[v] else NO_STAKE;
      Outcome(true, s.(validators := s.validators[v := AddSelf(d, amount, count)], filled := s.filled + count, cumulative := Wrap(s.cumulative + amount)))
  }

  /** MarkFullUnstake: electors of a leaving validator enter the snapshot, unless they already are there. */
  function MarkFull(snapshot: Snapshot, v: bytes, electors: Stakes): Snapshot
  {
    if electors == map[] then snapshot
    else
      var old_: Stakes := if v in snapshot then snapshot[v] else map[];
      snapshot[v := electors + old_]
  }

  function CancelValidator(p: Params, s: Pool, v: bytes, amount: u64): Outcome
    requires ValidParams(p)
  {
    var count := Count(p, amount);
    if count == 0 || v !in s.validators then Outcome(false, s)
    else
      var d := s.validators[v];
      var left := s.(filled := s.filled - count, cumulative := Wrap(s.cumulative - amount));
      if d.slots == count then
        Outcome(true, left.(validators := s.validators - {v}, snapshot := MarkFull(s.snapshot, v, d.electors)))
      else
        Outcome(true, left.(validators := s.validators[v := SubSelf(d, amount, count)]))
  }

  /** SystemUnstakeElector: an elector of a missing validator is put on the snapshot. */
  function AddUnstake(snapshot: Snapshot, v: bytes, e: bytes, amount: u64): Snapshot
  {
    var row: Stakes := if v in snapshot then snapshot[v] else map[];
    snapshot[v := Put(row, e, if e in row then Wrap(row[e] + amount) else amount)]
  }

  function RegisterElector(s: Pool, e: bytes, v: bytes, amount: u64): Pool
  {
    if v !in s.validators then s.(snapshot := AddUnstake(s.snapshot, v, e, amount))
    else
      s.(validators := s.validators[v := Join(s.validators[v], e, amount)],
         electors := s.electors[e := (if e in s.electors then s.electors[e] else {}) + {v}],
         cumulative := Wrap(s.cumulative + amount))
  }

  /** The pending system unstake shrinks with a voluntary one. */
  function ReduceUnstake(snapshot: Snapshot, v: bytes, e: bytes, amount: u64): Snapshot
  {
    if v !in snapshot || e !in snapshot[v] then snapshot
    else if snapshot[v][e] > amount then snapshot[v := Put(snapshot[v], e, snapshot[v][e] - amount)]
    else snapshot[v := snapshot[v] - {e}]
  }

  function CancelElector(s: Pool, e: bytes, v: bytes, amount: u64): Outcome
  {
    if v !in s.validators || e !in s.validators[v].electors then Outcome(false, s)
    else
      Outcome(true, s.(validators := s.validators[v := Leave(s.validators[v], e, amount)], snapshot := ReduceUnstake(s.snapshot, v, e, amount),
                       cumulative := Wrap(s.cumulative - amount)))
  }

  function SystemUnstake(s: Pool, v: bytes, e: bytes, amount: u64): Outcome
  {
    if v !in s.snapshot || e !in s.snapshot[v] then Outcome(false, s)
    else
      var row := s.snapshot[v];
      var row': Stakes := if row[e] == amount then row - {e} else Put(row, e, Wrap(row[e] - amount));
      Outcome(true, s.(snapshot := s.snapshot[v := row'], cumulative := Wrap(s.cumulative - amount)))
  }

  function Reserve(p: Params, s: Pool, amount: u64): Outcome
    requires ValidParams(p)
  {
    var count := Count(p, amount);
    if s.filled + s.reserved >= p.limit || amount % p.unit != 0 || count == 0 || p.limit - (s.filled + s.reserved) < count
    then Outcome(false, s)
    else Outcome(true, s.(reserved := s.reserved + count))
  }

  // ----- what every operation keeps

  function Stake(x: u64): nat { x }

  ghost function Elected(d: StakeData): nat
  {
    MapSum(d.electors, Stake)
  }

  /** One validator: all electors positive, own stake fills its slots, and the cumulative stake covers both. */
  ghost predicate GoodData(p: Params, d: StakeData)
  {
    && (forall e | e in d.electors :: d.electors[e] > 0)
    && d.slots > 0
    && d.self == Times(d.slots, p.unit)
    && d.self + Elected(d) <= d.cumulative
  }

  function SlotsOf(d: StakeData): nat { if d.slots < 0 then 0 else d.slots }

  ghost predicate Inv(p: Params, s: Pool)
  {
    && (forall v | v in s.validators :: GoodData(p, s.validators[v]))
    && s.filled == MapSum(s.validators, SlotsOf)
    && s.reserved >= 0
    && s.filled + s.reserved <= p.limit
  }

  /** The operations a pool performs, with the amounts that validated transactions carry. */
  datatype Op =
    | StakeValidator(v: bytes, amount: u64)
    | UnstakeValidator(v: bytes, amount: u64)
    | StakeElector(e: bytes, v: bytes, amount: u64)
    | UnstakeElector(e: bytes, v: bytes, amount: u64)
    | PayOut(v: bytes, e: bytes, amount: u64)
    | ReserveSlots(amount: u64)
    | Release

  function Apply(p: Params, s: Pool, op: Op): Outcome
    requires ValidParams(p)
  {
    match op
    case StakeValidator(v, amount) => RegisterValidator(p, s, v, amount)
    case UnstakeValidator(v, amount) => CancelValidator(p, s, v, amount)
    case StakeElector(e, v, amount) => Outcome(true, RegisterElector(s, e, v, amount))
    case UnstakeElector(e, v, amount) => CancelElector(s, e, v, amount)
    case PayOut(v, e, amount) => SystemUnstake(s, v, e, amount)
    case ReserveSlots(amount) => Reserve(p, s, amount)
    case Release => Outcome(true, s.(reserved := 0))
  }

  /**
   When an operation keeps the invariant: a granted validator stake comes in whole slots that fit beside the
   reservations; a partial cancellation takes whole slots and fewer than there are; elector stakes and
   withdrawals do not wrap the cumulative stake unless they wrap the elector's own stake with it.
   */
  ghost predicate Guarded(p: Params, s: Pool, op: Op)
    requires ValidParams(p)
  {
    match op
    case StakeValidator(v, amount) =>
      RegisterValidator(p, s, v, amount).ok ==>
        && amount % p.unit == 0
        && (if v in s.validators then s.validators[v].cumulative + amount < U64 else amount > 0)
        && s.filled + Count(p, amount) + s.reserved <= p.limit
    case UnstakeValidator(v, amount) =>
      v in s.validators && Count(p, amount) > 0 && Count(p, amount) != s.validators[v].slots ==>
        Count(p, amount) < s.validators[v].slots && amount % p.unit == 0
    case StakeElector(e, v, amount) => v in s.validators ==> JoinGuard(s.validators[v], e, amount)
    case UnstakeElector(e, v, amount) =>
      v in s.validators && e in s.validators[v].electors ==>
        amount <= s.validators[v].electors[e] || amount > s.validators[v].cumulative
    case PayOut(_, _, _) => true
    case ReserveSlots(_) => true
    case Release => true
  }

  ghost predicate JoinGuard(d: StakeData, e: bytes, amount: u64)
  {
    if e in d.electors then d.cumulative + amount < U64 || d.electors[e] + amount > U64
    else amount > 0 && d.cumulative + amount < U64
  }

  lemma Units(amount: nat, unit: nat)
    requires unit > 0
    ensures amount == Times(amount / unit, unit) + amount % unit && 0 <= amount % unit < unit
    ensures amount / unit >= 0
  {
    TimesDivides(amount / unit, unit);
  }

  /** What a 64-bit addition and subtraction give. */
  lemma WrappedSum(a: u64, b: u64)
    ensures Wrap(a + b) == Plus(a, b)
    ensures Wrap(a - b) == Minus(a, b)
  {
    if a + b < U64 { SmallWrap(a + b); } else { WrapShift(a + b - U64, 1); SmallWrap(a + b - U64); }
    if b <= a { SmallWrap(a - b); } else { WrapShift(a - b, 1); SmallWrap(a - b + U64); }
  }

  /** A 64-bit addition, and a subtraction, by cases. */
  function Plus(a: u64, b: u64): u64 { if a + b < U64 then a + b else a + b - U64 }

  function Minus(a: u64, b: u64): u64 { if b <= a then a - b else a - b + U64 }

  lemma AddSelfNumbers(self: u64, elected: nat, cumulative: u64, q: nat, rem: nat)
    requires self + elected <= cumulative && q + rem < U64
    ensures Plus(self, q + rem) == self + q && Plus(self, q + rem) + elected <= Plus(cumulative, q + rem)
      <==> rem == 0 && cumulative + q < U64
  {
  }

  function AddSelfCases(d: StakeData, amount: u64, count: nat): StakeData
  {
    d.(cumulative := Plus(d.cumulative, amount), self := Plus(d.self, amount), slots := d.slots + count)
  }

  lemma AddSelfIsCases(d: StakeData, amount: u64, count: nat)
    ensures AddSelf(d, amount, count) == AddSelfCases(d, amount, count)
  {
    WrappedSum(d.cumulative, amount);
    WrappedSum(d.self, amount);
  }

  lemma AddSelfGood(p: Params, d: StakeData, amount: u64, count: nat)
    requires ValidParams(p) && (d == NO_STAKE || GoodData(p, d)) && count == Count(p, amount)
    ensures GoodData(p, AddSelf(d, amount, count)) <==>
      amount % p.unit == 0 && (if d == NO_STAKE then amount > 0 else d.cumulative + amount < U64)
  {
    Units(amount, p.unit);
    AddSelfIsCases(d, amount, count);
    AddSelfCasesGood(p, d, amount, count, Times(count, p.unit), amount % p.unit);
  }

  lemma AddSelfCasesGood(p: Params, d: StakeData, amount: u64, count: nat, q: nat, rem: nat)
    requires d == NO_STAKE || GoodData(p, d)
    requires q == Times(count, p.unit) && amount == q + rem && rem < p.unit
    ensures GoodData(p, AddSelfCases(d, amount, count)) <==>
      rem == 0 && (if d == NO_STAKE then amount > 0 else d.cumulative + amount < U64)
  {
    var slots: nat := if d == NO_STAKE then 0 else d.slots;
    TimesAdd(slots, count, p.unit);
    AddSelfNumbers(d.self, Elected(d), d.cumulative, q, rem);
  }

  lemma RegisterValidatorKeeps(p: Params, s: Pool, v: bytes, amount: u64)
    requires ValidParams(p) && Inv(p, s)
    ensures Inv(p, RegisterValidator(p, s, v, amount).pool) <==> Guarded(p, s, StakeValidator(v, amount))
  {
    var r := RegisterValidator(p, s, v, amount);
    if r.ok {
      var d := if v in s.validators then s.validators[v] else NO_STAKE;
      var d' := AddSelf(d, amount, Count(p, amount));
      AddSelfGood(p, d, amount, Count(p, amount));
      assert r.pool.validators[v] == d';
      if GoodData(p, d') {
        SlotsGrow(p, s, v, d', Count(p, amount));
      }
    }
  }

  lemma SlotsGrow(p: Params, s: Pool, v: bytes, d: StakeData, count: nat)
    requires Inv(p, s) && GoodData(p, d)
    requires d.slots == (if v in s.validators then s.validators[v].slots else 0) + count
    ensures MapSum(s.validators[v := d], SlotsOf) == s.filled + count
  {
    if v in s.validators {
      MapSumUpdate(s.validators, v, d, SlotsOf);
    } else {
      MapSumInsert(s.validators, v, d, SlotsOf);
    }
  }

  lemma SubSelfGood(p: Params, d: StakeData, amount: u64, count: nat)
    requires ValidParams(p) && GoodData(p, d) && count == Count(p, amount) && d.slots != count
    ensures GoodData(p, SubSelf(d, amount, count)) <==> count < d.slots && amount % p.unit == 0
  {
    if count < d.slots {
      Units(amount, p.unit);
      WrappedSum(d.self, amount);
      TimesAdd(count, d.slots - count, p.unit);
      TimesAtLeast(d.slots - count, p.unit);
    }
  }

  lemma TimesAtLeast(n: nat, amount: nat)
    requires n > 0
    ensures Times(n, amount) >= amount
  {
  }

  lemma CancelValidatorKeeps(p: Params, s: Pool, v: bytes, amount: u64)
    requires ValidParams(p) && Inv(p, s)
    ensures Inv(p, CancelValidator(p, s, v, amount).pool) <==> Guarded(p, s, UnstakeValidator(v, amount))
  {
    var r, count := CancelValidator(p, s, v, amount), Count(p, amount);
    if r.ok {
      if s.validators[v].slots == count {
        MapSumRemove(s.validators, v, SlotsOf);
      } else {
        var d' := SubSelf(s.validators[v], amount, count);
        SubSelfGood(p, s.validators[v], amount, count);
        assert r.pool.validators[v] == d';
        MapSumUpdate(s.validators, v, d', SlotsOf);
      }
    }
  }

  ghost predicate AllPositive(electors: Stakes)
  {
    forall e | e in electors :: electors[e] > 0
  }

  lemma PutElector(electors: Stakes, e: bytes, x: u64)
    requires AllPositive(electors)
    ensures AllPositive(Put(electors, e, x)) <==> x > 0
    ensures MapSum(Put(electors, e, x), Stake) + (if e in electors then electors[e] else 0) == MapSum(electors, Stake) + x
  {
    assert e in Put(electors, e, x) && Put(electors, e, x)[e] == x;
    if e in electors {
      MapSumUpdate<bytes, u64>(electors, e, x, Stake);
    } else {
      MapSumInsert<bytes, u64>(electors, e, x, Stake);
    }
  }

  lemma JoinNumbers(self: u64, elected: nat, cumulative: u64, before: u64, amount: u64)
    requires self + elected <= cumulative && before <= elected
    ensures Plus(before, amount) > 0 && self + (elected - before + Plus(before, amount)) <= Plus(cumulative, amount)
      <==> if before > 0 then cumulative + amount < U64 || before + amount > U64 else amount > 0 && cumulative + amount < U64
  {
  }

  lemma DataGood(p: Params, d: StakeData, electors: Stakes, cumulative: u64)
    requires GoodData(p, d)
    ensures GoodData(p, d.(electors := electors, cumulative := cumulative))
      <==> AllPositive(electors) && d.self + MapSum(electors, Stake) <= cumulative
  {
  }

  function Before(d: StakeData, e: bytes): u64
  {
    if e in d.electors then d.electors[e] else 0
  }

  function JoinCases(d: StakeData, e: bytes, amount: u64): StakeData
  {
    d.(electors := Put(d.electors, e, Plus(Before(d, e), amount)), cumulative := Plus(d.cumulative, amount))
  }

  lemma JoinIsCases(d: StakeData, e: bytes, amount: u64)
    ensures Join(d, e, amount) == JoinCases(d, e, amount)
  {
    WrappedSum(d.cumulative, amount);
    WrappedSum(Before(d, e), amount);
  }

  lemma JoinGood(p: Params, d: StakeData, e: bytes, amount: u64)
    requires GoodData(p, d)
    ensures GoodData(p, Join(d, e, amount)) <==> JoinGuard(d, e, amount)
  {
    if e in d.electors {
      MapSumMember(d.electors, e, Stake);
    }
    JoinIsCases(d, e, amount);
    var x := Plus(Before(d, e), amount);
    PutElector(d.electors, e, x);
    JoinNumbers(d.self, Elected(d), d.cumulative, Before(d, e), amount);
    DataGood(p, d, Put(d.electors, e, x), Plus(d.cumulative, amount));
  }

  /** Replacing one validator's data by data with the same slots keeps the pool invariant exactly when that data is good. */
  lemma DataChange(p: Params, s: Pool, v: bytes, d: StakeData, s': Pool)
    requires Inv(p, s) && v in s.validators && d.slots == s.validators[v].slots
    requires s'.validators == s.validators[v := d] && s'.filled == s.filled && s'.reserved == s.reserved
    ensures Inv(p, s') <==> GoodData(p, d)
  {
    MapSumUpdate(s.validators, v, d, SlotsOf);
    assert s'.validators[v] == d;
  }

  lemma RegisterElectorKeeps(p: Params, s: Pool, e: bytes, v: bytes, amount: u64)
    requires ValidParams(p) && Inv(p, s)
    ensures Inv(p, RegisterElector(s, e, v, amount)) <==> Guarded(p, s, StakeElector(e, v, amount))
  {
    if v in s.validators {
      JoinGood(p, s.validators[v], e, amount);
      DataChange(p, s, v, Join(s.validators[v], e, amount), RegisterElector(s, e, v, amount));
    }
  }

  lemma LeaveNumbers(self: u64, elected: nat, cumulative: u64, stake: u64, amount: u64)
    requires self + elected <= cumulative && 0 < stake <= elected
    ensures amount != stake ==>
      (Minus(stake, amount) > 0 && self + (elected - stake + Minus(stake, amount)) <= Minus(cumulative, amount)
       <==> amount <= stake || amount > cumulative)
    ensures amount == stake ==> self + (elected - stake) <= Minus(cumulative, amount)
  {
  }

  function LeaveCases(d: StakeData, e: bytes, amount: u64): StakeData
    requires e in d.electors
  {
    var electors := if d.electors[e] == amount then d.electors - {e} else Put(d.electors, e, Minus(d.electors[e], amount));
    d.(electors := electors, cumulative := Minus(d.cumulative, amount))
  }

  lemma LeaveIsCases(d: StakeData, e: bytes, amount: u64)
    requires e in d.electors
    ensures Leave(d, e, amount) == LeaveCases(d, e, amount)
  {
    WrappedSum(d.cumulative, amount);
    WrappedSum(d.electors[e], amount);
  }

  lemma LeaveGood(p: Params, d: StakeData, e: bytes, amount: u64)
    requires GoodData(p, d) && e in d.electors
    ensures GoodData(p, Leave(d, e, amount)) <==> amount <= d.electors[e] || amount > d.cumulative
  {
    var stake, cumulative := d.electors[e], Minus(d.cumulative, amount);
    MapSumMember(d.electors, e, Stake);
    LeaveIsCases(d, e, amount);
    LeaveNumbers(d.self, Elected(d), d.cumulative, stake, amount);
    if stake == amount {
      MapSumRemove(d.electors, e, Stake);
      DataGood(p, d, d.electors - {e}, cumulative);
    } else {
      PutElector(d.electors, e, Minus(stake, amount));
      DataGood(p, d, Put(d.electors, e, Minus(stake, amount)), cumulative);
    }
  }

  lemma CancelElectorKeeps(p: Params, s: Pool, e: bytes, v: bytes, amount: u64)
    requires ValidParams(p) && Inv(p, s)
    ensures Inv(p, CancelElector(s, e, v, amount).pool) <==> Guarded(p, s, UnstakeElector(e, v, amount))
  {
    var r := CancelElector(s, e, v, amount);
    if r.ok {
      LeaveGood(p, s.validators[v], e, amount);
      DataChange(p, s, v, Leave(s.validators[v], e, amount), r.pool);
    }
  }

  /** From a pool with the invariant, an operation keeps it exactly when it is guarded, whether it succeeds or is refused. */
  lemma ApplyKeeps(p: Params, s: Pool, op: Op)
    requires ValidParams(p) && Inv(p, s)
    ensures Inv(p, Apply(p, s, op).pool) <==> Guarded(p, s, op)
  {
    match op
    case StakeValidator(v, amount) => RegisterValidatorKeeps(p, s, v, amount);
    case UnstakeValidator(v, amount) => CancelValidatorKeeps(p, s, v, amount);
    case StakeElector(e, v, amount) => RegisterElectorKeeps(p, s, e, v, amount);
    case UnstakeElector(e, v, amount) => CancelElectorKeeps(p, s, e, v, amount);
    case PayOut(_, _, _) =>
    case ReserveSlots(_) =>
    case Release =>
  }

  /** A run of the pool: states linked by operations, from the empty pool. */
  ghost predicate Run(p: Params, states: seq<Pool>, ops: seq<Op>)
    requires ValidParams(p)
  {
    && |states| == |ops| + 1
    && states[0] == EMPTY
    && forall k | 0 <= k < |ops| :: states[k + 1] == Apply(p, states[k], ops[k]).pool
  }

  lemma EmptyInv(p: Params)
    requires ValidParams(p)
    ensures Inv(p, EMPTY)
  {
  }

  /** The invariant holds up to any state of a run exactly when every operation so far was guarded. */
  lemma {:induction false} RunKeepsInv(p: Params, states: seq<Pool>, ops: seq<Op>, k: nat)
    requires ValidParams(p) && Run(p, states, ops) && k <= |ops|
    ensures (forall j | 0 <= j <= k :: Inv(p, states[j])) <==> (forall j | 0 <= j < k :: Guarded(p, states[j], ops[j]))
  {
    EmptyInv(p);
    if k > 0 {
      RunKeepsInv(p, states, ops, k - 1);
      var j := k - 1;
      assert states[j + 1] == Apply(p, states[j], ops[j]).pool;
      if Inv(p, states[j]) {
        ApplyKeeps(p, states[j], ops[j]);
      }
    }
  }
}
