/**
 Block rewards (GetRewardMap): a share of the reward goes to the proposer, the rest to its electors in
 proportion to their stakes, rounded down.
 */
module Rewards {
  import opened Words
  import opened Sums
  import opened Staking

  datatype RewardParams = RewardParams(reward: u64, percent: u64)

  const I64: int := 0x8000_0000_0000_0000

  /** Go's conversion of an unsigned word to int64. */
  function Signed(x: u64): int
  {
    if x < I64 then x else x - U64
  }

  function ValidatorReward(rp: RewardParams): u64
  {
    Wrap(rp.reward * rp.percent) / 100
  }

  function ElectorsReward(rp: RewardParams): u64
  {
    Wrap(rp.reward - ValidatorReward(rp))
  }

  /** What the code divides by: everything staked on the validator except its own stake. */
  function ElectorsStake(d: StakeData): u64
  {
    Wrap(d.cumulative - d.self)
  }

  /** The reward of one elector; big integers divide rounding down, the result is cut to a word. */
  function ElectorReward(stake: u64, pot: u64, total: u64): u64
    requires total != 0
  {
    Wrap(Signed(stake) * Signed(pot) / Signed(total))
  }

  /** Electors whose reward rounds to zero get no entry. */
  function Shares(electors: Stakes, pot: u64, total: u64): Stakes
    requires total != 0
  {
    NonZero(electors, x => ElectorReward(x, pot, total))
  }

  function NonZero(stakes: Stakes, f: u64 -> u64): Stakes
  {
    map e | e in stakes && f(stakes[e]) != 0 :: f(stakes[e])
  }

  lemma NonZeroPush(stakes: Stakes, e: bytes, x: u64, f: u64 -> u64)
    requires e !in stakes
    ensures NonZero(Put(stakes, e, x), f)
      == if f(x) != 0 then Credit(NonZero(stakes, f), e, f(x)) else NonZero(stakes, f)
  {
    SmallWrap(f(x));
  }

  /** Adding to an entry of a reward map. */
  function Credit(rewards: Stakes, v: bytes, amount: u64): Stakes
  {
    var before: int := if v in rewards then rewards[v] else 0;
    Put(rewards, v, Wrap(before + amount))
  }

  /** The rewards of a block, or None when the code would divide by zero. */
  function RewardMap(rp: RewardParams, s: Pool, proposer: bytes): Option<Stakes>
  {
    if s.filled == 0 || proposer !in s.validators then Some(map[]) else RewardsOn(s.validators[proposer], rp, proposer)
  }

  function RewardsOn(d: StakeData, rp: RewardParams, proposer: bytes): Option<Stakes>
  {
    if ElectorsStake(d) == 0 then
      if d.electors == map[] then Some(Credit(map[], proposer, ValidatorReward(rp))) else None
    else Some(Credit(Shares(d.electors, ElectorsReward(rp), ElectorsStake(d)), proposer, ValidatorReward(rp)))
  }

  /** One elector more. */
  lemma SharesPush(electors: Stakes, e: bytes, stake: u64, pot: u64, total: u64)
    requires total != 0 && e !in electors
    ensures var reward := ElectorReward(stake, pot, total);
      Shares(Put(electors, e, stake), pot, total)
      == if reward != 0 then Credit(Shares(electors, pot, total), e, reward) else Shares(electors, pot, total)
  {
    NonZeroPush(electors, e, stake, x => ElectorReward(x, pot, total));
  }

  /** A percentage of at most 100, and a reward small enough that taking it does not overflow. */
  ghost predicate ValidReward(rp: RewardParams)
  {
    rp.percent <= 100 && rp.reward * 100 < I64
  }

  // ----- rounding

  /** The exact share, rounded down. */
  function Floor(pot: nat, total: nat): u64 -> nat
    requires total > 0
  {
    (x: u64) => x * pot / total
  }

  lemma FloorBounds(x: nat, pot: nat, total: nat)
    requires total > 0
    ensures Near(total, pot, x, x * pot / total)
  {
    var a := x * pot;
    assert a == total * (a / total) + a % total;
  }

  lemma Distribute(a: int, b: int, c: int)
    ensures a * (b + c) == a * b + a * c
  {
  }

  ghost predicate Near(total: nat, pot: nat, x: nat, q: nat)
  {
    total * q <= pot * x < total * (q + 1)
  }

  /** The floors of some stakes, against those stakes. */
  ghost predicate Between(total: nat, pot: nat, stakes: nat, floors: nat, n: nat)
  {
    total * floors <= pot * stakes <= total * (floors + n) && (n > 0 ==> pot * stakes < total * (floors + n))
  }

  /** Rounding down every share loses less than one unit per elector. */
  lemma {:induction false} FloorsSum(m: Stakes, pot: nat, total: nat, w: u64 -> nat)
    requires forall k | k in m :: Near(total, pot, m[k], w(m[k]))
    ensures Between(total, pot, MapSum(m, Stake), MapSum(m, w), |m|)
    decreases |m|
  {
    if m != map[] {
      var k :| k in m;
      var rest := m - {k};
      MapSumRemove(m, k, w);
      MapSumRemove(m, k, Stake);
      assert |rest| == |m| - 1 by { assert rest.Keys == m.Keys - {k}; }
      FloorsSum(rest, pot, total, w);
      FloorStep(total, pot, m[k], w(m[k]), MapSum(rest, Stake), MapSum(rest, w), |rest|);
    }
  }

  lemma FloorStep(total: nat, pot: nat, x: nat, q: nat, stakes: nat, floors: nat, n: nat)
    requires Near(total, pot, x, q) && Between(total, pot, stakes, floors, n)
    ensures Between(total, pot, x + stakes, q + floors, n + 1)
  {
    Distribute(total, q, floors);
    Distribute(pot, x, stakes);
    Distribute(total, q + 1, floors + n);
    assert (q + 1) + (floors + n) == q + floors + (n + 1);
  }

  lemma LessTimes(a: int, b: int, t: int)
    requires t > 0
    ensures t * a <= t * b ==> a <= b
    ensures t * a < t * b ==> a < b
  {
    if a > b { assert t * a == t * b + t * (a - b); }
    if a == b { assert t * a == t * b; }
  }

  lemma TimesMono(p: nat, a: nat, b: nat)
    requires a <= b
    ensures p * a <= p * b
  {
    assert p * b == p * a + p * (b - a);
  }

  /** With words that fit int64, the code computes the exact share. */
  lemma RewardIsFloor(stake: u64, pot: u64, total: u64)
    requires 0 < total < I64 && pot < I64 && stake <= total
    ensures ElectorReward(stake, pot, total) == Floor(pot, total)(stake)
  {
    FloorSmall(stake, pot, total);
    SmallWrap(stake * pot / total);
  }

  lemma FloorSmall(stake: nat, pot: nat, total: nat)
    requires 0 < total && stake <= total
    ensures 0 <= stake * pot / total <= pot
  {
    FloorBounds(stake, pot, total);
    TimesMono(pot, stake, total);
    var q := stake * pot / total;
    Commute(pot, total);
    LessTimes(q, pot, total);
    NonNegative(stake * pot, total);
  }

  lemma NonNegative(a: int, b: int)
    requires a >= 0 && b > 0
    ensures a / b >= 0
  {
  }

  lemma Commute(a: int, b: int)
    ensures a * b == b * a
  {
  }

  /** Entries left out because they are zero do not change the sum. */
  lemma {:induction false} SharesSum(electors: Stakes, shares: Stakes, w: u64 -> nat)
    requires forall e | e in shares :: e in electors && shares[e] == w(electors[e])
    requires forall e | e in electors :: e in shares || w(electors[e]) == 0
    ensures MapSum(shares, Stake) == MapSum(electors, w)
    decreases |electors|
  {
    if electors != map[] {
      var k :| k in electors;
      var rest := electors - {k};
      assert |rest| < |electors| by { assert rest.Keys == electors.Keys - {k}; }
      MapSumRemove(electors, k, w);
      SharesSum(rest, shares - {k}, w);
      if k in shares {
        MapSumRemove(shares, k, Stake);
      } else {
        assert shares - {k} == shares;
      }
    } else {
      assert shares == map[];
    }
  }

  lemma SharesAreFloors(electors: Stakes, pot: u64, total: u64)
    requires 0 < total < I64 && pot < I64
    requires forall e | e in electors :: electors[e] <= total
    ensures MapSum(Shares(electors, pot, total), Stake) == MapSum(electors, Floor(pot, total))
  {
    forall e | e in electors ensures ElectorReward(electors[e], pot, total) == Floor(pot, total)(electors[e]) {
      RewardIsFloor(electors[e], pot, total);
    }
    SharesSum(electors, Shares(electors, pot, total), Floor(pot, total));
  }

  lemma FloorsNear(electors: Stakes, pot: nat, total: nat)
    requires total > 0
    ensures Between(total, pot, MapSum(electors, Stake), MapSum(electors, Floor(pot, total)), |electors|)
  {
    forall e | e in electors ensures Near(total, pot, electors[e], Floor(pot, total)(electors[e])) {
      FloorBounds(electors[e], pot, total);
    }
    FloorsSum(electors, pot, total, Floor(pot, total));
  }

  lemma BetweenBounds(total: nat, pot: nat, stakes: nat, floors: nat, n: nat)
    requires total > 0 && stakes <= total && Between(total, pot, stakes, floors, n)
    ensures floors <= pot
    ensures stakes == total && n > 0 ==> pot < floors + n
  {
    TimesMono(pot, stakes, total);
    Commute(pot, total);
    LessTimes(floors, pot, total);
    LessTimes(pot, floors + n, total);
  }

  lemma {:induction false} EachAtMost(electors: Stakes)
    ensures forall e | e in electors :: electors[e] <= MapSum(electors, Stake)
  {
    forall e | e in electors ensures electors[e] <= MapSum(electors, Stake) {
      MapSumMember(electors, e, Stake);
    }
  }

  lemma CreditSum(rewards: Stakes, v: bytes, amount: u64)
    requires MapSum(rewards, Stake) + amount < U64
    ensures MapSum(Credit(rewards, v, amount), Stake) == MapSum(rewards, Stake) + amount
  {
    if v in rewards {
      MapSumMember(rewards, v, Stake);
      SmallWrap(rewards[v] + amount);
      MapSumUpdate<bytes, u64>(rewards, v, Wrap(rewards[v] + amount), Stake);
    } else {
      SmallWrap(amount);
      MapSumInsert<bytes, u64>(rewards, v, Wrap(amount), Stake);
    }
  }

  lemma RewardParts(rp: RewardParams)
    requires ValidReward(rp)
    ensures ValidatorReward(rp) + ElectorsReward(rp) == rp.reward
  {
    TimesMono(rp.reward, rp.percent, 100);
    SmallWrap(rp.reward * rp.percent);
    SmallWrap(rp.reward - ValidatorReward(rp));
  }

  /** The electors of one validator together get at most the pot, and all of it but less than one unit each. */
  lemma SharesPaid(electors: Stakes, pot: u64, total: u64)
    requires 0 < total < I64 && pot < I64 && MapSum(electors, Stake) <= total
    ensures MapSum(Shares(electors, pot, total), Stake) <= pot
    ensures MapSum(electors, Stake) == total ==> pot < MapSum(Shares(electors, pot, total), Stake) + |electors|
  {
    EachAtMost(electors);
    SharesAreFloors(electors, pot, total);
    FloorsNear(electors, pot, total);
    assert |electors| == 0 ==> electors == map[];
    BetweenBounds(total, pot, MapSum(electors, Stake), MapSum(electors, Floor(pot, total)), |electors|);
  }

  /**
   In every pool with the invariant the code never divides by zero and pays out at most the reward. Where the cumulative
   stake is exact and there are electors, rounding loses less than one unit per elector; without electors only
   the proposer's share is paid.
   */
  lemma RewardsPaid(p: Params, rp: RewardParams, s: Pool, proposer: bytes)
    requires Inv(p, s) && ValidReward(rp) && proposer in s.validators && ElectorsStake(s.validators[proposer]) < I64
    ensures RewardMap(rp, s, proposer).Some?
    ensures var d, paid := s.validators[proposer], MapSum(RewardMap(rp, s, proposer).value, Stake);
      && paid <= rp.reward
      && (d.electors == map[] ==> paid == rp.reward * rp.percent / 100)
      && (d.electors != map[] && d.cumulative == d.self + Elected(d) ==> rp.reward < paid + |d.electors|)
  {
    MapSumMember(s.validators, proposer, SlotsOf);
    DataRewards(rp, s, proposer, s.validators[proposer]);
  }

  lemma DataRewards(rp: RewardParams, s: Pool, proposer: bytes, d: StakeData)
    requires ValidReward(rp) && s.filled > 0 && proposer in s.validators && d == s.validators[proposer]
    requires ElectorsStake(d) < I64 && d.self + Elected(d) <= d.cumulative
    requires forall e | e in d.electors :: d.electors[e] > 0
    ensures RewardMap(rp, s, proposer).Some?
    ensures var paid := MapSum(RewardMap(rp, s, proposer).value, Stake);
      && paid <= rp.reward
      && (d.electors == map[] ==> paid == rp.reward * rp.percent / 100)
      && (d.electors != map[] && d.cumulative == d.self + Elected(d) ==> rp.reward < paid + |d.electors|)
  {
    var pot, total := ElectorsReward(rp), ElectorsStake(d);
    RewardParts(rp);
    OwnReward(rp);
    SmallWrap(d.cumulative - d.self);
    if d.electors == map[] {
      CreditSum(map[], proposer, ValidatorReward(rp));
      if total != 0 {
        assert Shares(d.electors, pot, total) == map[];
      }
    } else {
      PositiveTotal(d.electors);
      SharesPaid(d.electors, pot, total);
      CreditSum(Shares(d.electors, pot, total), proposer, ValidatorReward(rp));
    }
  }

  /** A stake's part of what electors get, in plain numbers: proportional to all electors' stakes and rounded down. */
  ghost function Portion(rp: RewardParams, d: StakeData, stake: nat): int
  {
    if d.cumulative <= d.self then 0
    else stake * (rp.reward - rp.reward * rp.percent / 100) / (d.cumulative - d.self)
  }

  /**
   Who gets what: the proposer its percentage and its part as an elector, every other elector its part, which is left
   out when it rounds to nothing, and nobody else anything.
   */
  ghost predicate PaidOut(rp: RewardParams, d: StakeData, proposer: bytes, rewards: Stakes)
  {
    && proposer in rewards
    && rewards[proposer] == rp.reward * rp.percent / 100 + (if proposer in d.electors then Portion(rp, d, d.electors[proposer]) else 0)
    && (forall e | e != proposer :: e in rewards <==> e in d.electors && Portion(rp, d, d.electors[e]) > 0)
    && (forall e | e in rewards && e != proposer :: rewards[e] == Portion(rp, d, d.electors[e]))
  }

  lemma OwnReward(rp: RewardParams)
    requires ValidReward(rp)
    ensures ValidatorReward(rp) == rp.reward * rp.percent / 100 && ElectorsReward(rp) == rp.reward - rp.reward * rp.percent / 100
    ensures ElectorsReward(rp) < I64 && ValidatorReward(rp) <= rp.reward
  {
    TimesMono(rp.reward, rp.percent, 100);
    SmallWrap(rp.reward * rp.percent);
    SmallWrap(rp.reward - ValidatorReward(rp));
  }

  lemma ShareIsPortion(rp: RewardParams, d: StakeData, x: u64)
    requires ValidReward(rp) && 0 < d.cumulative - d.self < I64 && x <= d.cumulative - d.self
    ensures ElectorsStake(d) == d.cumulative - d.self
    ensures ElectorReward(x, ElectorsReward(rp), ElectorsStake(d)) == Portion(rp, d, x) <= ElectorsReward(rp)
  {
    OwnReward(rp);
    SmallWrap(d.cumulative - d.self);
    RewardIsFloor(x, ElectorsReward(rp), ElectorsStake(d));
    FloorSmall(x, ElectorsReward(rp), ElectorsStake(d));
  }

  lemma CreditExact(shares: Stakes, v: bytes, amount: u64)
    requires (if v in shares then shares[v] else 0) + amount < U64
    ensures Credit(shares, v, amount) == Put(shares, v, (if v in shares then shares[v] else 0) + amount)
  {
    SmallWrap((if v in shares then shares[v] else 0) + amount);
  }

  lemma PaidByData(rp: RewardParams, d: StakeData, proposer: bytes, rewards: Stakes)
    requires ValidReward(rp) && d.cumulative - d.self < I64 && d.self + Elected(d) <= d.cumulative && ElectorsStake(d) != 0
    requires rewards == Credit(Shares(d.electors, ElectorsReward(rp), ElectorsStake(d)), proposer, ValidatorReward(rp))
    ensures PaidOut(rp, d, proposer, rewards)
  {
    SmallWrap(d.cumulative - d.self);
    EachAtMost(d.electors);
    var shares := Shares(d.electors, ElectorsReward(rp), ElectorsStake(d));
    forall e | e in d.electors ensures ElectorReward(d.electors[e], ElectorsReward(rp), ElectorsStake(d)) == Portion(rp, d, d.electors[e]) <= ElectorsReward(rp) {
      ShareIsPortion(rp, d, d.electors[e]);
    }
    OwnReward(rp);
    CreditExact(shares, proposer, ValidatorReward(rp));
  }

  /** In every pool with the invariant the code pays exactly that. */
  lemma RewardsExactly(p: Params, rp: RewardParams, s: Pool, proposer: bytes)
    requires Inv(p, s) && ValidReward(rp) && proposer in s.validators
    requires s.validators[proposer].cumulative - s.validators[proposer].self < I64
    ensures RewardMap(rp, s, proposer).Some? && PaidOut(rp, s.validators[proposer], proposer, RewardMap(rp, s, proposer).value)
  {
    var d := s.validators[proposer];
    MapSumMember(s.validators, proposer, SlotsOf);
    SmallWrap(d.cumulative - d.self);
    if ElectorsStake(d) == 0 {
      if d.electors != map[] { PositiveTotal(d.electors); }
      OwnReward(rp);
      CreditExact(map[], proposer, ValidatorReward(rp));
    } else {
      PaidByData(rp, d, proposer, RewardMap(rp, s, proposer).value);
    }
  }

  lemma PositiveTotal(electors: Stakes)
    requires electors != map[] && forall e | e in electors :: electors[e] > 0
    ensures MapSum(electors, Stake) > 0
  {
    var e :| e in electors;
    MapSumMember(electors, e, Stake);
  }

  const QUARTER: u64 := 0x4000_0000_0000_0000

  function TwoElectors(e: bytes, f: bytes): Stakes
  {
    Put(Put(map[], e, QUARTER), f, QUARTER)
  }

  lemma TwoElectorsSum(e: bytes, f: bytes)
    requires e != f
    ensures MapSum(TwoElectors(e, f), Stake) == I64
  {
    MapSumInsert<bytes, u64>(map[], e, QUARTER, Stake);
    MapSumInsert<bytes, u64>(Put(map[], e, QUARTER), f, QUARTER, Stake);
  }

  /** A validator of one slot with two electors who together stake 2^63. */
  function Rich(e: bytes, f: bytes, v: bytes): Pool
  {
    Pool(map[v := StakeData(1, I64 + 2, TwoElectors(e, f), 2)], map[], map[], 0, 1, 0)
  }

  lemma RichInv(e: bytes, f: bytes, v: bytes)
    requires e != f
    ensures Inv(Params(2, 1), Rich(e, f, v))
  {
    TwoElectorsSum(e, f);
    assert Times(1, 2) == Times(0, 2) + 2;
    MapSumInsert<bytes, StakeData>(map[], v, Rich(e, f, v).validators[v], SlotsOf);
  }

  /** Beyond int64 the conversion turns the divisor negative, and electors are credited almost 2^64. */
  lemma HugeStakeOverpays(e: bytes, f: bytes, v: bytes)
    requires e != f
    ensures var rp, s := RewardParams(4, 0), Rich(e, f, v);
      && Inv(Params(2, 1), s) && ValidReward(rp) && RewardMap(rp, s, v).Some?
      && MapSum(RewardMap(rp, s, v).value, Stake) > rp.reward
  {
    RichInv(e, f, v);
    RichDivision();
    RichEntry(e, f, v);
    RichMap(e, f, v);
    var m := RewardMap(RewardParams(4, 0), Rich(e, f, v), v).value;
    assert e in m && m[e] == U64 - 2;
    MapSumMember(m, e, Stake);
  }

  lemma RichMap(e: bytes, f: bytes, v: bytes)
    ensures RewardMap(RewardParams(4, 0), Rich(e, f, v), v) == Some(Credit(Shares(TwoElectors(e, f), 4, I64), v, 0))
    ensures ElectorsStake(Rich(e, f, v).validators[v]) == I64
  {
    assert ElectorsReward(RewardParams(4, 0)) == 4;
    assert ElectorsStake(Rich(e, f, v).validators[v]) == I64;
  }

  lemma RichDivision()
    ensures ElectorReward(QUARTER, 4, I64) == U64 - 2
  {
  }

  lemma RichEntry(e: bytes, f: bytes, v: bytes)
    requires e != f && ElectorReward(QUARTER, 4, I64) == U64 - 2
    ensures var m := Credit(Shares(TwoElectors(e, f), 4, I64), v, 0);
      e in m && m[e] == U64 - 2
  {
    var shares := Shares(TwoElectors(e, f), 4, I64);
    assert e in TwoElectors(e, f) && TwoElectors(e, f)[e] == QUARTER;
    assert e in shares && shares[e] == U64 - 2;
  }
}
