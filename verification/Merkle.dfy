/** The transaction root of a block (utils/hash/merklee.go). The hash is an arbitrary function with 32-byte values. */
module Merkle {
  import opened Words
  import opened Proto

  type Hash = bytes -> bytes

  const NODE: nat := 32

  // ----- one level

  /** Half of a level size, rounded up. */
  function Half(n: nat): nat
  {
    n / 2 + n % 2
  }

  /** What is hashed into node i of the next level: two neighbours, or a last single node. */
  function Mix(nodes: seq<bytes>, i: nat): bytes
    requires i < Half(|nodes|)
  {
    if 2 * i + 1 == |nodes| then nodes[2 * i] else nodes[2 * i] + nodes[2 * i + 1]
  }

  function Level(h: Hash, nodes: seq<bytes>): (r: seq<bytes>)
    ensures |r| == Half(|nodes|)
  {
    seq(Half(|nodes|), i requires 0 <= i < Half(|nodes|) => h(Mix(nodes, i)))
  }

  function Rounds(h: Hash, nodes: seq<bytes>, k: nat): seq<bytes>
    decreases k
  {
    if k == 0 then nodes else Rounds(h, Level(h, nodes), k - 1)
  }

  /** The root: Half(n) rounds over n leaves; the code's constant for no leaves is a parameter. */
  function Root(h: Hash, empty: bytes, leaves: seq<bytes>): bytes
  {
    if leaves == [] then empty else OneLeft(h, leaves, Half(|leaves|)); Rounds(h, leaves, Half(|leaves|))[0]
  }

  /** Half(n) rounds of halving leave one node, so the code's panic cannot happen. */
  lemma {:induction false} OneLeft(h: Hash, nodes: seq<bytes>, k: nat)
    requires |nodes| == 1 || (nodes != [] && k >= Half(|nodes|))
    ensures |Rounds(h, nodes, k)| == 1
    decreases k
  {
    if |nodes| == 1 {
      StaysOne(h, nodes, k);
    } else {
      OneLeft(h, Level(h, nodes), k - 1);
    }
  }

  lemma {:induction false} StaysOne(h: Hash, nodes: seq<bytes>, k: nat)
    requires |nodes| == 1
    ensures |Rounds(h, nodes, k)| == 1
    decreases k
  {
    if k > 0 {
      StaysOne(h, Level(h, nodes), k - 1);
    }
  }

  lemma {:induction false} RoundsAdd(h: Hash, nodes: seq<bytes>, k: nat)
    ensures Rounds(h, nodes, k + 1) == Level(h, Rounds(h, nodes, k))
    decreases k
  {
    if k > 0 {
      RoundsAdd(h, Level(h, nodes), k - 1);
    }
  }

  /** The inner loop. */
  method BuildLevel(h: Hash, prev: seq<bytes>) returns (level: seq<bytes>)
    ensures level == Level(h, prev)
  {
    level := [];
    var j := 0;
    while j < |prev|
      invariant j == 2 * |level| || (j == 2 * |level| && j >= |prev|)
      invariant |level| <= Half(|prev|)
      invariant forall i | 0 <= i < |level| :: level[i] == h(Mix(prev, i))
      decreases |prev| - j
    {
      var next := j + 1;
      var mix := prev[j];
      if next != |prev| {
        mix := mix + prev[next];
      }
      assert mix == Mix(prev, |level|);
      level := level + [h(mix)];
      j := j + 2;
    }
  }

  /** MerkleeRoot with its fixed number of levels. */
  method MerkleeRoot(h: Hash, empty: bytes, data: seq<bytes>) returns (root: bytes)
    ensures root == Root(h, empty, data)
  {
    var size := |data|;
    var levels := size / 2 + size % 2;
    if levels == 0 { return empty; }
    var prev := data;
    for i := 0 to levels
      invariant prev == Rounds(h, data, i)
    {
      RoundsAdd(h, data, i);
      prev := BuildLevel(h, prev);
    }
    OneLeft(h, data, levels);
    assert |prev| == 1;
    root := prev[0];
  }

  // ----- collisions

  ghost predicate Wide(nodes: seq<bytes>)
  {
    forall i | 0 <= i < |nodes| :: |nodes[i]| == NODE
  }

  /** Something that is hashed in one of the first k rounds. */
  ghost predicate HashedIn(h: Hash, nodes: seq<bytes>, k: nat, x: bytes)
    decreases k
  {
    k > 0 && ((exists i | 0 <= i < Half(|nodes|) :: Mix(nodes, i) == x) || HashedIn(h, Level(h, nodes), k - 1, x))
  }

  /** Equal mixes of 32-byte nodes come from equal nodes. */
  lemma SameMixes(a: seq<bytes>, b: seq<bytes>)
    requires |a| == |b| && Wide(a) && Wide(b)
    requires forall i | 0 <= i < Half(|a|) :: Mix(a, i) == Mix(b, i)
    ensures a == b
  {
    forall k | 0 <= k < |a| ensures a[k] == b[k] {
      var i := k / 2;
      assert Mix(a, i) == Mix(b, i);
      SameParts(a, b, i);
    }
  }

  lemma SameParts(a: seq<bytes>, b: seq<bytes>, i: nat)
    requires |a| == |b| && Wide(a) && Wide(b) && i < Half(|a|) && Mix(a, i) == Mix(b, i)
    ensures a[2 * i] == b[2 * i] && (2 * i + 1 < |a| ==> a[2 * i + 1] == b[2 * i + 1])
  {
    if 2 * i + 1 != |a| {
      Halves(a[2 * i], a[2 * i + 1], b[2 * i], b[2 * i + 1]);
    }
  }

  lemma Halves(p: bytes, q: bytes, r: bytes, s: bytes)
    requires |p| == |r| && p + q == r + s
    ensures p == r && q == s
  {
    assert (p + q)[..|p|] == p && (r + s)[..|r|] == r;
    assert (p + q)[|p|..] == q && (r + s)[|r|..] == s;
  }

  /**
   Different lists of equal length with the same root: two different byte strings that were hashed while
   computing the two roots have the same hash.
   */
  lemma {:induction false} Collision(h: Hash, a: seq<bytes>, b: seq<bytes>, k: nat) returns (x: bytes, y: bytes)
    requires |a| == |b| && Wide(a) && Wide(b) && a != b && (forall z: bytes :: |h(z)| == NODE)
    requires Rounds(h, a, k) == Rounds(h, b, k)
    ensures x != y && h(x) == h(y) && HashedIn(h, a, k, x) && HashedIn(h, b, k, y)
    decreases k
  {
    var c, d := Level(h, a), Level(h, b);
    if c != d {
      WideLevel(h, a);
      WideLevel(h, b);
      x, y := Collision(h, c, d, k - 1);
    } else {
      var i := DifferentMix(a, b);
      x, y := Mix(a, i), Mix(b, i);
      assert c[i] == d[i];
    }
  }

  lemma WideLevel(h: Hash, nodes: seq<bytes>)
    requires forall z: bytes :: |h(z)| == NODE
    ensures Wide(Level(h, nodes))
  {
    forall i | 0 <= i < Half(|nodes|) ensures |Level(h, nodes)[i]| == NODE {
      assert Level(h, nodes)[i] == h(Mix(nodes, i));
    }
  }

  lemma DifferentMix(a: seq<bytes>, b: seq<bytes>) returns (i: nat)
    requires |a| == |b| && Wide(a) && Wide(b) && a != b
    ensures i < Half(|a|) && Mix(a, i) != Mix(b, i)
  {
    if forall j | 0 <= j < Half(|a|) :: Mix(a, j) == Mix(b, j) {
      SameMixes(a, b);
      assert false;
    }
    i :| 0 <= i < Half(|a|) && Mix(a, i) != Mix(b, i);
  }

  function Hashes(ts: seq<Transaction>): (r: seq<bytes>)
    ensures |r| == |ts| && forall i | 0 <= i < |ts| :: r[i] == ts[i].hash
  {
    seq(|ts|, i requires 0 <= i < |ts| => ts[i].hash)
  }

  method GenTxRoot(h: Hash, empty: bytes, ts: seq<Transaction>) returns (root: bytes)
    ensures root == Root(h, empty, Hashes(ts))
  {
    var data: seq<bytes> := [];
    for k := 0 to |ts|
      invariant data == Hashes(ts)[..k]
    {
      data := data + [ts[k].hash];
    }
    assert data == Hashes(ts);
    root := MerkleeRoot(h, empty, data);
  }

  /** Equal transaction roots of equally many transactions mean equal transaction hashes, or a collision that was computed. */
  lemma RootDetermines(h: Hash, empty: bytes, ts: seq<Transaction>, us: seq<Transaction>) returns (x: bytes, y: bytes)
    requires |ts| == |us| && Wide(Hashes(ts)) && Wide(Hashes(us)) && (forall z: bytes :: |h(z)| == NODE)
    requires Root(h, empty, Hashes(ts)) == Root(h, empty, Hashes(us))
    ensures Hashes(ts) == Hashes(us)
      || (x != y && h(x) == h(y) && HashedIn(h, Hashes(ts), Half(|ts|), x) && HashedIn(h, Hashes(us), Half(|us|), y))
  {
    x, y := [], [];
    var a, b := Hashes(ts), Hashes(us);
    if a != b {
      OneLeft(h, a, Half(|ts|));
      OneLeft(h, b, Half(|ts|));
      assert Rounds(h, a, Half(|ts|)) == Rounds(h, b, Half(|ts|));
      x, y := Collision(h, a, b, Half(|ts|));
    }
  }
}
