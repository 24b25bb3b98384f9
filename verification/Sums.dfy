/** Weighted sums over sequences and over finite maps. */
module Sums {

  ghost function SeqSum<T>(s: seq<T>, w: T -> nat): (r: nat)
  {
    if s == [] then 0 else SeqSum(s[..|s| - 1], w) + w(s[|s| - 1])
  }

  lemma SeqSumPush<T>(s: seq<T>, x: T, w: T -> nat)
    ensures SeqSum(s + [x], w) == SeqSum(s, w) + w(x)
  {
    assert (s + [x])[..|s|] == s;
  }

  lemma {:induction false} SeqSumConcat<T>(a: seq<T>, b: seq<T>, w: T -> nat)
    ensures SeqSum(a + b, w) == SeqSum(a, w) + SeqSum(b, w)
  {
    if b == [] {
      assert a + b == a;
    } else {
      var last := |b| - 1;
      SeqSumConcat(a, b[..last], w);
      assert a + b == (a + b[..last]) + [b[last]];
      SeqSumPush(a + b[..last], b[last], w);
    }
  }

  lemma {:induction false} SeqSumAdd<T>(s: seq<T>, w: T -> nat, v: T -> nat, u: T -> nat)
    requires forall x | x in s :: u(x) == w(x) + v(x)
    ensures SeqSum(s, u) == SeqSum(s, w) + SeqSum(s, v)
  {
    if s != [] {
      SeqSumAdd(s[..|s| - 1], w, v, u);
    }
  }

  lemma {:induction false} SeqSumLe<T>(s: seq<T>, w: T -> nat, v: T -> nat)
    requires forall x | x in s :: w(x) <= v(x)
    ensures SeqSum(s, w) <= SeqSum(s, v)
  {
    if s != [] {
      SeqSumLe(s[..|s| - 1], w, v);
    }
  }

  lemma {:induction false} SeqSumMember<T>(s: seq<T>, i: nat, w: T -> nat)
    requires i < |s|
    ensures w(s[i]) <= SeqSum(s, w)
  {
    if i < |s| - 1 {
      SeqSumMember(s[..|s| - 1], i, w);
    }
  }

  /** The sum of the weights of all values held by a map. */
  ghost function MapSum<K, V>(m: map<K, V>, w: V -> nat): (r: nat)
  {
    if m == map[] then 0
    else
      var k :| k in m;
      w(m[k]) + MapSum(m - {k}, w)
  }

  /** The sum does not depend on the key that is taken out first. */
  lemma {:induction false} MapSumRemove<K, V>(m: map<K, V>, k: K, w: V -> nat)
    requires k in m
    ensures MapSum(m, w) == w(m[k]) + MapSum(m - {k}, w)
    decreases |m|
  {
    var j :| j in m && MapSum(m, w) == w(m[j]) + MapSum(m - {j}, w);
    if j != k {
      assert |m - {j}| < |m| && |m - {k}| < |m| by {
        assert (m - {j}).Keys == m.Keys - {j} && (m - {k}).Keys == m.Keys - {k};
      }
      MapSumRemove(m - {j}, k, w);
      MapSumRemove(m - {k}, j, w);
      assert m - {j} - {k} == m - {k} - {j};
    }
  }

  lemma MapSumInsert<K, V>(m: map<K, V>, k: K, v: V, w: V -> nat)
    requires k !in m
    ensures MapSum(m[k := v], w) == MapSum(m, w) + w(v)
  {
    MapSumRemove(m[k := v], k, w);
    assert m[k := v] - {k} == m;
  }

  lemma MapSumUpdate<K, V>(m: map<K, V>, k: K, v: V, w: V -> nat)
    requires k in m
    ensures MapSum(m[k := v], w) + w(m[k]) == MapSum(m, w) + w(v)
  {
    MapSumRemove(m, k, w);
    MapSumRemove(m[k := v], k, w);
    assert m[k := v] - {k} == m - {k};
  }

  lemma MapSumMember<K, V>(m: map<K, V>, k: K, w: V -> nat)
    requires k in m
    ensures w(m[k]) <= MapSum(m, w)
  {
    MapSumRemove(m, k, w);
  }

  /** Equal domains and pointwise equal weights give equal sums. */
  lemma {:induction false} MapSumCong<K, V, U>(m: map<K, V>, n: map<K, U>, w: V -> nat, u: U -> nat)
    requires m.Keys == n.Keys
    requires forall k | k in m :: w(m[k]) == u(n[k])
    ensures MapSum(m, w) == MapSum(n, u)
    decreases |m|
  {
    if m != map[] {
      var k :| k in m;
      assert k in m.Keys && k in n.Keys;
      MapSumRemove(m, k, w);
      MapSumRemove(n, k, u);
      assert (m - {k}).Keys == m.Keys - {k} == (n - {k}).Keys;
      MapSumCong(m - {k}, n - {k}, w, u);
    } else {
      assert n == map[] by { assert n.Keys == {}; }
    }
  }

  /** A smaller domain with the same values sums to no more. */
  lemma {:induction false} MapSumSubset<K, V>(small: map<K, V>, big: map<K, V>, w: V -> nat)
    requires forall k | k in small :: k in big && small[k] == big[k]
    ensures MapSum(small, w) <= MapSum(big, w)
    decreases |small|
  {
    if small != map[] {
      var k :| k in small;
      MapSumRemove(small, k, w);
      MapSumRemove(big, k, w);
      assert (small - {k}).Keys == small.Keys - {k};
      MapSumSubset(small - {k}, big - {k}, w);
    }
  }

  /** Leaving out a positive weight is noticed. */
  lemma MapSumProperSubset<K, V>(small: map<K, V>, big: map<K, V>, w: V -> nat, k: K)
    requires forall j | j in small :: j in big && small[j] == big[j]
    requires k in big && k !in small && w(big[k]) > 0
    ensures MapSum(small, w) < MapSum(big, w)
  {
    MapSumSubset(small, big - {k}, w);
    MapSumRemove(big, k, w);
  }

  // ----- repeated addition

  /** n equal amounts. */
  ghost function Times(n: nat, amount: nat): (r: nat)
  {
    if n == 0 then 0 else Times(n - 1, amount) + amount
  }

  lemma TimesTwice(n: nat, amount: nat)
    ensures n >= 2 ==> Times(n, amount) >= amount + amount
  {
    if n >= 2 {
      assert Times(n, amount) == Times(n - 2, amount) + amount + amount;
    }
  }

  lemma {:induction false} TimesAdd(m: nat, n: nat, amount: nat)
    ensures Times(m + n, amount) == Times(m, amount) + Times(n, amount)
  {
    if n > 0 {
      TimesAdd(m, n - 1, amount);
    }
  }

  lemma TimesOrder(m: nat, n: nat, amount: nat)
    requires Times(m, amount) <= Times(n, amount) && amount > 0
    ensures m <= n
  {
    var more := if m > n then m - n else 0;
    TimesAdd(n, more, amount);
  }

  lemma {:induction false} TimesDivides(n: nat, amount: nat)
    ensures Times(n, amount) == n * amount
  {
    if n > 0 {
      TimesDivides(n - 1, amount);
    }
  }
}
