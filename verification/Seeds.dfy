/** The common seed of a slot (handleSeedEvent): the product of the validators' seeds modulo a prime. */
module Seeds {
  import opened Words

  const SEED_PRIME: u64 := 4294967291

  /** A received seed; signed says whether its signature verifies. */
  datatype Seed = Seed(address: bytes, seed: u32, signed: bool)

  type SeedMap = map<bytes, u32>

  /** The exact product of all seeds. */
  ghost function Product(seeds: SeedMap): nat
  {
    if seeds == map[] then 1
    else
      var k :| k in seeds;
      Times(seeds[k], Product(seeds - {k}))
  }

  ghost function Times(a: nat, b: nat): nat { a * b }

  lemma Swap(a: nat, b: nat, c: nat)
    ensures Times(a, Times(b, c)) == Times(b, Times(a, c))
  {
    assert a * (b * c) == b * (a * c);
  }

  /** The product does not depend on the seed that is taken first. */
  lemma {:induction false} ProductRemove(seeds: SeedMap, k: bytes)
    requires k in seeds
    ensures Product(seeds) == Times(seeds[k], Product(seeds - {k}))
    decreases |seeds|
  {
    var j :| j in seeds && Product(seeds) == Times(seeds[j], Product(seeds - {j}));
    if j != k {
      assert |seeds - {j}| < |seeds| && |seeds - {k}| < |seeds| by {
        assert (seeds - {j}).Keys == seeds.Keys - {j} && (seeds - {k}).Keys == seeds.Keys - {k};
      }
      ProductRemove(seeds - {j}, k);
      ProductRemove(seeds - {k}, j);
      assert seeds - {j} - {k} == seeds - {k} - {j};
      Swap(seeds[j], seeds[k], Product(seeds - {j} - {k}));
    }
  }

  ghost function CommonSeed(seeds: SeedMap): u64
  {
    Product(seeds) % SEED_PRIME
  }

  lemma ModTimes(a: nat, s: nat, p: nat)
    requires p > 0
    ensures (a % p * s) % p == (a * s) % p
  {
    var q := a / p;
    assert a * s == (a % p) * s + (q * s) * p by {
      assert a == q * p + a % p;
      assert (q * p) * s == (q * s) * p;
    }
    ModShift((a % p) * s, q * s, p);
  }

  lemma ModShift(x: nat, k: nat, p: nat)
    requires p > 0
    ensures (x + k * p) % p == x % p
  {
    if k > 0 {
      ModShift(x, k - 1, p);
      assert x + k * p == (x + (k - 1) * p) + p;
      ModOnce(x + (k - 1) * p, p);
    }
  }

  lemma ModOnce(x: nat, p: nat)
    requires p > 0
    ensures (x + p) % p == x % p
  {
    var q, r := x / p, x % p;
    assert x + p == (q + 1) * p + r;
    QuotientUnique(x + p, p, q + 1, r);
  }

  lemma QuotientUnique(x: nat, p: nat, q: nat, r: nat)
    requires 0 <= r < p && x == q * p + r
    ensures x % p == r
  {
    var d := x / p - q;
    assert x == (x / p) * p + x % p;
    assert d * p == r - x % p;
    NoMultiple(d, p);
  }

  lemma NoMultiple(d: int, p: nat)
    requires p > 0
    ensures d > 0 ==> d * p >= p
    ensures d < 0 ==> d * p <= 0 - p
  {
  }

  lemma ProductOrder(a: nat, b: nat, c: nat, d: nat)
    requires a <= c && b <= d
    ensures a * b <= c * d
  {
    assert c * d == a * b + (c - a) * b + c * (d - b);
  }

  /** Multiplying a reduced value by a 32-bit seed stays within 64 bits. */
  lemma SmallProduct(a: nat, b: nat)
    requires a < SEED_PRIME && b < U32
    ensures a * b < U64
  {
    ProductOrder(a, b, SEED_PRIME - 1, U32 - 1);
  }

  /** One turn of the multiplication loop. */
  lemma CombineStep(done: SeedMap, k: bytes, se: u32)
    requires k !in done
    ensures Wrap(CommonSeed(done) * se) % SEED_PRIME == CommonSeed(done[k := se])
  {
    var more := done[k := se];
    assert more - {k} == done;
    ProductRemove(more, k);
    ReducedStep(Product(done), se);
  }

  lemma ReducedStep(product: nat, se: u32)
    ensures Wrap(product % SEED_PRIME * se) % SEED_PRIME == Times(se, product) % SEED_PRIME
  {
    SmallProduct(product % SEED_PRIME, se);
    SmallWrap(product % SEED_PRIME * se);
    ModTimes(product, se, SEED_PRIME);
  }

  // ----- the state over a sequence of events

  /** What the events received so far leave in the map: the last signed seed of each validator. */
  ghost function Collected(events: seq<Seed>): SeedMap
  {
    if events == [] then map[]
    else
      var e, before := events[|events| - 1], Collected(events[..|events| - 1]);
      if e.signed then before[e.address := e.seed] else before
  }

  /** Each validator signs one seed only. */
  ghost predicate OneSeedEach(events: seq<Seed>)
  {
    forall i, j | 0 <= i < |events| && 0 <= j < |events| && events[i].signed && events[j].signed ::
      events[i].address == events[j].address ==> events[i].seed == events[j].seed
  }

  ghost predicate Signed(events: seq<Seed>, address: bytes, seed: u32)
  {
    Seed(address, seed, true) in events
  }

  lemma {:induction false} CollectedHolds(events: seq<Seed>, address: bytes, seed: u32)
    requires OneSeedEach(events)
    ensures address in Collected(events) && Collected(events)[address] == seed <==> Signed(events, address, seed)
  {
    if events != [] {
      var init, e := events[..|events| - 1], events[|events| - 1];
      assert events == init + [e];
      CollectedHolds(init, address, seed);
      if e.signed && e.address == address && Signed(init, address, seed) {
        var i :| 0 <= i < |init| && init[i] == Seed(address, seed, true);
        assert events[i].seed == events[|events| - 1].seed;
      }
    }
  }

  /**
   Nodes that receive the same signed seeds, one per validator, in any order and any number of times, agree on
   the common seed.
   */
  lemma SameSeed(a: seq<Seed>, b: seq<Seed>)
    requires OneSeedEach(a) && OneSeedEach(b)
    requires forall address, seed :: Signed(a, address, seed) <==> Signed(b, address, seed)
    ensures Collected(a) == Collected(b) && CommonSeed(Collected(a)) == CommonSeed(Collected(b))
  {
    var ca, cb := Collected(a), Collected(b);
    forall address: bytes
      ensures address in ca <==> address in cb
      ensures address in ca && address in cb ==> ca[address] == cb[address]
    {
      if address in ca {
        CollectedHolds(a, address, ca[address]);
        CollectedHolds(b, address, ca[address]);
      }
      if address in cb {
        CollectedHolds(a, address, cb[address]);
        CollectedHolds(b, address, cb[address]);
      }
    }
  }

  class SeedCollector {
    var seedMap: SeedMap
    var seed: u64

    ghost predicate Valid()
      reads this
    {
      seedMap != map[] ==> seed == CommonSeed(seedMap)
    }

    constructor ()
      ensures Valid() && seedMap == Collected([])
    {
      seedMap, seed := map[], 0;
    }

    /** The multiplication loop, in 64-bit arithmetic and in whatever order the map is iterated. */
    method Combine() returns (result: u64)
      ensures result == CommonSeed(seedMap)
    {
      result := 1;
      ghost var done: SeedMap := map[];
      var todo := seedMap.Keys;
      while todo != {}
        invariant todo <= seedMap.Keys
        invariant done == map k | k in seedMap && k !in todo :: seedMap[k]
        invariant result == CommonSeed(done)
        decreases todo
      {
        var k :| k in todo;
        var se := seedMap[k];
        CombineStep(done, k, se);
        result := Wrap(result * se) % SEED_PRIME;
        done := done[k := se];
        todo := todo - {k};
      }
      assert done == seedMap;
    }

    method HandleSeedEvent(e: Seed)
      requires Valid()
      modifies this
      ensures Valid()
      ensures seedMap == if e.signed || (e.address in old(seedMap) && old(seedMap)[e.address] == e.seed) then old(seedMap)[e.address := e.seed] else old(seedMap)
    {
      if e.address in seedMap && seedMap[e.address] == e.seed {
        assert seedMap[e.address := e.seed] == seedMap;
        return;
      }
      if !e.signed { return; }
      seedMap := seedMap[e.address := e.seed];
      seed := Combine();
    }

    method HandleAll(events: seq<Seed>)
      requires Valid() && seedMap == map[]
      modifies this
      ensures Valid() && seedMap == Collected(events)
    {
      var k := 0;
      while k < |events|
        invariant k <= |events| && Valid() && seedMap == Collected(events[..k])
      {
        assert events[..k + 1][..k] == events[..k];
        HandleSeedEvent(events[k]);
        k := k + 1;
      }
      assert events[..k] == events;
    }
  }
}
