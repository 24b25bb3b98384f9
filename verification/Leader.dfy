/** Weighted choice of a block's leader (DetermineProposer). */
module Leader {
  import opened Words
  import opened Sums
  import opened Staking
  import opened Rewards

  /** The weight of a validator; premium is the code's 100 times the electors' coefficient, cut to a word. */
  function Weight(unit: u64, premium: u64, d: StakeData): u64
    requires unit > 0
  {
    Wrap(Wrap(d.self / unit * 100) + Wrap(ElectorsStake(d) / unit * premium))
  }

  /** The weight in plain numbers: 100 for each slot of own stake, the premium for each slot of the electors' stake. */
  ghost function PlainWeight(unit: u64, premium: u64, d: StakeData): int
    requires unit > 0
  {
    d.self / unit * 100 + (d.cumulative - d.self) / unit * premium
  }

  ghost predicate WeighsPlainly(unit: u64, premium: u64, d: StakeData)
    requires unit > 0
  {
    d.self <= d.cumulative && PlainWeight(unit, premium, d) < U64
  }

  lemma WeightIsPlain(unit: u64, premium: u64, d: StakeData)
    requires unit > 0 && WeighsPlainly(unit, premium, d)
    ensures Weight(unit, premium, d) == PlainWeight(unit, premium, d)
  {
    var own, others := d.self / unit, (d.cumulative - d.self) / unit;
    SmallWrap(d.cumulative - d.self);
    SlotsPositive(d.self, unit);
    SlotsPositive(d.cumulative - d.self, unit);
    TimesNat(own, 100);
    TimesNat(others, premium);
    SmallWrap(own * 100);
    SmallWrap(others * premium);
    SmallWrap(own * 100 + others * premium);
  }

  lemma SlotsPositive(a: int, unit: int)
    requires a >= 0 && unit > 0
    ensures a / unit >= 0
  {
  }

  lemma TimesNat(a: int, b: int)
    requires a >= 0 && b >= 0
    ensures a * b >= 0
  {
  }

  lemma OneUnitMore(a: int, unit: int)
    requires a >= 0 && unit > 0
    ensures (a + unit) / unit == a / unit + 1
  {
    var q, q' := a / unit, (a + unit) / unit;
    Quotient(a, unit);
    Quotient(a + unit, unit);
    Next(q, unit);
    Next(q', unit);
    Next(q + 1, unit);
    if q' > q + 1 { Below(q + 2, q', unit); }
    if q' < q + 1 { Below(q' + 1, q + 1, unit); }
  }

  lemma Quotient(a: int, unit: int)
    requires unit > 0
    ensures Product(a / unit, unit) <= a < Product(a / unit, unit) + unit
  {
  }

  ghost function Product(a: int, b: int): int
  {
    a * b
  }

  lemma Next(a: int, b: int)
    ensures Product(a + 1, b) == Product(a, b) + b
  {
  }

  lemma Below(a: int, b: int, c: int)
    requires a <= b && c > 0
    ensures Product(a, c) <= Product(b, c)
  {
    TimesNat(b - a, c);
  }

  /** While nothing wraps, one more unit of own stake weighs exactly 100 more. */
  lemma OwnSlotWeighs(unit: u64, premium: u64, d: StakeData, d': StakeData)
    requires unit > 0 && d.self + unit < U64 && d.cumulative + unit < U64
    requires d' == d.(self := d.self + unit, cumulative := d.cumulative + unit)
    requires WeighsPlainly(unit, premium, d) && WeighsPlainly(unit, premium, d')
    ensures Weight(unit, premium, d') == Weight(unit, premium, d) + 100
  {
    WeightIsPlain(unit, premium, d);
    WeightIsPlain(unit, premium, d');
    OneUnitMore(d.self, unit);
  }

  lemma SlotsWeigh(unit: u64, premium: u64, d: StakeData, own: int, others: int)
    requires unit > 0 && own == d.self / unit && others == (d.cumulative - d.self) / unit
    ensures PlainWeight(unit, premium, d) == own * 100 + Product(others, premium)
  {
  }

  /** While nothing wraps, one more unit staked by electors weighs exactly the premium more. */
  lemma ElectorSlotWeighs(unit: u64, premium: u64, d: StakeData, d': StakeData)
    requires unit > 0 && d.cumulative + unit < U64 && d' == d.(cumulative := d.cumulative + unit)
    requires WeighsPlainly(unit, premium, d) && WeighsPlainly(unit, premium, d')
    ensures Weight(unit, premium, d') == Weight(unit, premium, d) + premium
  {
    WeightIsPlain(unit, premium, d);
    WeightIsPlain(unit, premium, d');
    ElectorSlotPlain(unit, premium, d, d');
  }

  lemma ElectorSlotPlain(unit: u64, premium: u64, d: StakeData, d': StakeData)
    requires unit > 0 && d.self <= d.cumulative && d'.self == d.self && d'.cumulative == d.cumulative + unit
    ensures PlainWeight(unit, premium, d') == PlainWeight(unit, premium, d) + premium
  {
    var own, others := d.self / unit, (d.cumulative - d.self) / unit;
    OneUnitMore(d.cumulative - d.self, unit);
    SlotsWeigh(unit, premium, d, own, others);
    SlotsWeigh(unit, premium, d', own, others + 1);
    Next(others, premium);
  }

  /** Without a slot of its own or of electors a validator weighs nothing. */
  lemma NoSlotWeighsNothing(unit: u64, premium: u64, d: StakeData)
    requires unit > 0 && d.self <= d.cumulative && d.self < unit && d.cumulative - d.self < unit
    ensures Weight(unit, premium, d) == 0
  {
    NoSlot(d.self, unit);
    NoSlot(d.cumulative - d.self, unit);
    assert PlainWeight(unit, premium, d) == 0 * 100 + 0 * premium;
    WeightIsPlain(unit, premium, d);
  }

  lemma NoSlot(a: int, unit: int)
    requires 0 <= a < unit
    ensures a / unit == 0
  {
  }

  function Weights(unit: u64, premium: u64, validators: map<bytes, StakeData>): Stakes
    requires unit > 0
  {
    map v | v in validators :: Weight(unit, premium, validators[v])
  }

  function WeightOf(weights: Stakes, v: bytes): nat
  {
    if v in weights then weights[v] else 0
  }

  /** The running sum of the choice loop after the given proposers, in 64-bit arithmetic. */
  function Passed(proposers: seq<bytes>, weights: Stakes): u64
  {
    if proposers == [] then 0
    else Wrap(Passed(proposers[..|proposers| - 1], weights) + WeightOf(weights, proposers[|proposers| - 1]))
  }

  /** The first proposer with a stake whose running sum reaches the draw; None is the code's empty name. */
  function Pick(proposers: seq<bytes>, weights: Stakes, draw: u64): Option<bytes>
  {
    if proposers == [] then None
    else
      var earlier, last := Pick(proposers[..|proposers| - 1], weights, draw), proposers[|proposers| - 1];
      if earlier.Some? then earlier
      else if last in weights && Passed(proposers, weights) >= draw then Some(last)
      else None
  }

  // ----- exact sums

  ghost predicate OncePerStaker(proposers: seq<bytes>, weights: Stakes)
  {
    forall i, j | 0 <= i < j < |proposers| :: proposers[i] in weights ==> proposers[i] != proposers[j]
  }

  /** The weights of the listed proposers. */
  ghost function Listed(proposers: seq<bytes>, weights: Stakes): Stakes
  {
    map v | v in weights && v in proposers :: weights[v]
  }

  lemma ListedPush(proposers: seq<bytes>, weights: Stakes)
    requires proposers != [] && OncePerStaker(proposers, weights)
    ensures var init, last := proposers[..|proposers| - 1], proposers[|proposers| - 1];
      && OncePerStaker(init, weights)
      && MapSum(Listed(proposers, weights), Stake) == MapSum(Listed(init, weights), Stake) + WeightOf(weights, last)
  {
    var init, last := proposers[..|proposers| - 1], proposers[|proposers| - 1];
    assert forall v :: v in proposers <==> v in init || v == last by {
      assert proposers == init + [last];
    }
    if last in weights {
      assert last !in init;
      assert Listed(proposers, weights) == Put(Listed(init, weights), last, weights[last]);
      MapSumInsert<bytes, u64>(Listed(init, weights), last, weights[last], Stake);
    } else {
      assert Listed(proposers, weights) == Listed(init, weights);
    }
  }

  lemma ListedAtMost(proposers: seq<bytes>, weights: Stakes)
    ensures MapSum(Listed(proposers, weights), Stake) <= MapSum(weights, Stake)
  {
    MapSumSubset(Listed(proposers, weights), weights, Stake);
  }

  lemma ListedNobody(weights: Stakes)
    ensures MapSum(Listed([], weights), Stake) == 0
  {
    assert Listed([], weights) == map[];
  }

  /** Without repetition the 64-bit running sum is the exact sum of the listed weights. */
  lemma {:induction false} PassedExact(proposers: seq<bytes>, weights: Stakes)
    requires OncePerStaker(proposers, weights) && MapSum(weights, Stake) < U64
    ensures Passed(proposers, weights) == MapSum(Listed(proposers, weights), Stake) <= MapSum(weights, Stake)
  {
    ListedAtMost(proposers, weights);
    if proposers != [] {
      var init, last := proposers[..|proposers| - 1], proposers[|proposers| - 1];
      ListedPush(proposers, weights);
      PassedExact(init, weights);
      var sum := Passed(init, weights) + WeightOf(weights, last);
      assert sum == MapSum(Listed(proposers, weights), Stake);
      SmallWrap(sum);
    } else {
      ListedNobody(weights);
    }
  }

  lemma PassedLast(proposers: seq<bytes>, weights: Stakes)
    requires proposers != [] && OncePerStaker(proposers, weights) && MapSum(weights, Stake) < U64
    ensures var init, last := proposers[..|proposers| - 1], proposers[|proposers| - 1];
      OncePerStaker(init, weights) && Passed(proposers, weights) == Passed(init, weights) + WeightOf(weights, last)
  {
    ListedPush(proposers, weights);
    PassedExact(proposers, weights);
    PassedExact(proposers[..|proposers| - 1], weights);
  }

  lemma PassedStep(proposers: seq<bytes>, weights: Stakes, i: nat)
    requires i < |proposers| && OncePerStaker(proposers, weights) && MapSum(weights, Stake) < U64
    ensures Passed(proposers[..i + 1], weights) == Passed(proposers[..i], weights) + WeightOf(weights, proposers[i])
  {
    var upto := proposers[..i + 1];
    assert upto[..i] == proposers[..i] && OncePerStaker(upto, weights);
    PassedLast(upto, weights);
  }

  lemma {:induction false} PassedGrows(proposers: seq<bytes>, weights: Stakes, i: nat, j: nat)
    requires i <= j <= |proposers| && OncePerStaker(proposers, weights) && MapSum(weights, Stake) < U64
    ensures Passed(proposers[..i], weights) <= Passed(proposers[..j], weights)
    decreases j
  {
    if i < j {
      PassedGrows(proposers, weights, i, j - 1);
      PassedStep(proposers, weights, j - 1);
    }
  }

  // ----- who is chosen

  /** The proposer at position i is chosen exactly by the draws of its own interval. */
  lemma {:induction false} PickInterval(proposers: seq<bytes>, weights: Stakes, draw: u64, i: nat)
    requires i < |proposers| && OncePerStaker(proposers, weights) && MapSum(weights, Stake) < U64 && draw > 0
    requires Passed(proposers[..i], weights) < draw <= Passed(proposers[..i + 1], weights)
    ensures Pick(proposers, weights, draw) == Some(proposers[i]) && proposers[i] in weights
  {
    PassedStep(proposers, weights, i);
    PassedBelow(proposers[..i], weights, draw);
    assert proposers[..i + 1][..i] == proposers[..i];
    PickStays(proposers, weights, draw, i + 1);
  }

  /** Nobody is chosen as long as the running sum stays below the draw. */
  lemma {:induction false} PassedBelow(proposers: seq<bytes>, weights: Stakes, draw: u64)
    requires OncePerStaker(proposers, weights) && MapSum(weights, Stake) < U64 && Passed(proposers, weights) < draw
    ensures Pick(proposers, weights, draw).None?
  {
    if proposers != [] {
      var n := |proposers| - 1;
      assert proposers[..n + 1] == proposers;
      PassedStep(proposers, weights, n);
      PassedBelow(proposers[..n], weights, draw);
    }
  }

  lemma {:induction false} PickStays(proposers: seq<bytes>, weights: Stakes, draw: u64, k: nat)
    requires k <= |proposers| && Pick(proposers[..k], weights, draw).Some?
    ensures Pick(proposers, weights, draw) == Pick(proposers[..k], weights, draw)
    decreases |proposers|
  {
    if k < |proposers| {
      var init := proposers[..|proposers| - 1];
      assert init[..k] == proposers[..k];
      PickStays(init, weights, draw, k);
    } else {
      assert proposers[..k] == proposers;
    }
  }

  /** Every draw up to the listed total falls into one proposer's interval. */
  lemma {:induction false} FindInterval(proposers: seq<bytes>, weights: Stakes, draw: u64) returns (i: nat)
    requires OncePerStaker(proposers, weights) && MapSum(weights, Stake) < U64
    requires 0 < draw <= Passed(proposers, weights)
    ensures i < |proposers| && Passed(proposers[..i], weights) < draw <= Passed(proposers[..i + 1], weights)
  {
    var n := |proposers| - 1;
    assert proposers[..n + 1] == proposers;
    if Passed(proposers[..n], weights) < draw {
      i := n;
    } else {
      i := FindInterval(proposers[..n], weights, draw);
      assert proposers[..n][..i] == proposers[..i] && proposers[..n][..i + 1] == proposers[..i + 1];
    }
  }

  /** A leader is found exactly by the draws up to the weight that is listed, and it has a positive weight. */
  lemma LeaderExists(proposers: seq<bytes>, weights: Stakes, draw: u64)
    requires OncePerStaker(proposers, weights) && MapSum(weights, Stake) < U64 && draw > 0
    ensures Pick(proposers, weights, draw).Some? <==> draw <= MapSum(Listed(proposers, weights), Stake)
    ensures Pick(proposers, weights, draw).Some? ==>
      var v := Pick(proposers, weights, draw).value; v in proposers && v in weights && weights[v] > 0
  {
    PassedExact(proposers, weights);
    if draw <= Passed(proposers, weights) {
      var i := FindInterval(proposers, weights, draw);
      PickInterval(proposers, weights, draw, i);
      PassedStep(proposers, weights, i);
    } else {
      PassedBelow(proposers, weights, draw);
    }
  }

  /** Every draw finds a leader exactly when every validator of positive weight is listed. */
  lemma LeaderAlways(proposers: seq<bytes>, weights: Stakes)
    requires OncePerStaker(proposers, weights) && MapSum(weights, Stake) < U64
    ensures (forall draw: u64 | 0 < draw <= MapSum(weights, Stake) :: Pick(proposers, weights, draw).Some?)
      <==> (forall v | v in weights && weights[v] > 0 :: v in proposers)
  {
    var listed := Listed(proposers, weights);
    PassedExact(proposers, weights);
    if forall v | v in weights && weights[v] > 0 :: v in proposers {
      AllListed(listed, weights);
      forall draw: u64 | 0 < draw <= MapSum(weights, Stake) ensures Pick(proposers, weights, draw).Some? {
        LeaderExists(proposers, weights, draw);
      }
    } else {
      var v :| v in weights && weights[v] > 0 && v !in proposers;
      MapSumProperSubset(listed, weights, Stake, v);
      LeaderExists(proposers, weights, MapSum(weights, Stake));
    }
  }

  lemma {:induction false} AllListed(listed: Stakes, weights: Stakes)
    requires forall v | v in listed :: v in weights && listed[v] == weights[v]
    requires forall v | v in weights && weights[v] > 0 :: v in listed
    ensures MapSum(listed, Stake) == MapSum(weights, Stake)
    decreases |weights|
  {
    if weights != map[] {
      var v :| v in weights;
      var rest := weights - {v};
      assert |rest| < |weights| by { assert rest.Keys == weights.Keys - {v}; }
      MapSumRemove(weights, v, Stake);
      AllListed(listed - {v}, rest);
      if v in listed {
        MapSumRemove(listed, v, Stake);
      } else {
        assert listed - {v} == listed;
      }
    } else {
      assert listed == map[];
    }
  }

  /** The draws that choose a validator. */
  ghost function Draws(proposers: seq<bytes>, weights: Stakes, v: bytes): set<u64>
  {
    set draw: u64 | 0 < draw <= MapSum(weights, Stake) && Pick(proposers, weights, draw) == Some(v)
  }

  ghost predicate Inside(lo: nat, x: u64, hi: nat)
  {
    lo < x <= hi
  }

  ghost function Interval(lo: nat, hi: nat): set<u64>
  {
    set x: u64 | Inside(lo, x, hi)
  }

  lemma {:induction false} IntervalSize(lo: nat, hi: nat)
    requires lo <= hi < U64
    ensures |Interval(lo, hi)| == hi - lo
    decreases hi
  {
    if lo < hi {
      IntervalSize(lo, hi - 1);
      assert Interval(lo, hi) == Interval(lo, hi - 1) + {hi};
    } else {
      assert Interval(lo, hi) == {};
    }
  }

  lemma DrawsInside(proposers: seq<bytes>, weights: Stakes, i: nat, draw: u64)
    requires OncePerStaker(proposers, weights) && MapSum(weights, Stake) < U64
    requires i < |proposers| && proposers[i] in weights && draw > 0
    ensures Pick(proposers, weights, draw) == Some(proposers[i])
      <==> Passed(proposers[..i], weights) < draw <= Passed(proposers[..i + 1], weights)
  {
    PassedExact(proposers, weights);
    if Passed(proposers[..i], weights) < draw <= Passed(proposers[..i + 1], weights) {
      PickInterval(proposers, weights, draw, i);
    } else if draw <= Passed(proposers, weights) {
      var j := FindInterval(proposers, weights, draw);
      PickInterval(proposers, weights, draw, j);
    } else {
      PassedBelow(proposers, weights, draw);
    }
  }

  /** Each listed validator is chosen by exactly as many of the draws 1..total as it has weight. */
  lemma FairShare(proposers: seq<bytes>, weights: Stakes, v: bytes)
    requires OncePerStaker(proposers, weights) && MapSum(weights, Stake) < U64
    requires v in weights && v in proposers
    ensures |Draws(proposers, weights, v)| == weights[v]
  {
    var i :| 0 <= i < |proposers| && proposers[i] == v;
    var lo, hi := Passed(proposers[..i], weights), Passed(proposers[..i + 1], weights);
    PassedStep(proposers, weights, i);
    AtMostTotal(proposers, weights, i + 1);
    forall draw: u64 | draw > 0
      ensures Pick(proposers, weights, draw) == Some(v) <==> Inside(lo, draw, hi)
    {
      DrawsInside(proposers, weights, i, draw);
    }
    SameDraws(proposers, weights, v, lo, hi);
    IntervalSize(lo, hi);
  }

  lemma AtMostTotal(proposers: seq<bytes>, weights: Stakes, i: nat)
    requires i <= |proposers| && OncePerStaker(proposers, weights) && MapSum(weights, Stake) < U64
    ensures Passed(proposers[..i], weights) <= MapSum(weights, Stake)
  {
    PassedGrows(proposers, weights, i, |proposers|);
    assert proposers[..|proposers|] == proposers;
    PassedExact(proposers, weights);
  }

  lemma SameDraws(proposers: seq<bytes>, weights: Stakes, v: bytes, lo: nat, hi: nat)
    requires hi <= MapSum(weights, Stake)
    requires forall draw: u64 | draw > 0 :: Pick(proposers, weights, draw) == Some(v) <==> Inside(lo, draw, hi)
    ensures Draws(proposers, weights, v) == Interval(lo, hi)
  {
  }
}
