/**
 The transaction pool (blockchain/core/attestation/pool.go): transactions by hash, by sender, and a queue of
 the pending ones. Collapse transactions are held by hash and by each of their senders, but are not queued.
 */
module TxPool {
  import opened Words
  import opened Proto
  import opened Ledger
  import opened Validator

  const MAX_TX_COUNT: nat := 1000

  /** Addresses under which the pool files a transaction. */
  function SendersOf(t: Transaction): set<bytes>
  {
    if t.kind == COLLAPSE then Owners(t.inputs) else {Sender(t)}
  }

  /** txLess: a ranks before b. */
  predicate TxLess(a: Transaction, b: Transaction)
  {
    if a.fee == b.fee then a.timestamp < b.timestamp else a.fee > b.fee
  }

  // ----- the queue

  ghost predicate DistinctHashes(q: seq<Transaction>)
  {
    forall i, j | 0 <= i < j < |q| :: q[i].hash != q[j].hash
  }

  /** Fee prices never rise, and equal ones stand in order of time. */
  ghost predicate Sorted(q: seq<Transaction>)
  {
    forall i, j | 0 <= i < j < |q| :: q[i].fee > q[j].fee || (q[i].fee == q[j].fee && q[i].timestamp <= q[j].timestamp)
  }

  /** Ranks compare fee and timestamp, so not being before is transitive. */
  lemma RankTransitive(a: Transaction, b: Transaction, c: Transaction)
    requires !TxLess(b, a) && !TxLess(c, b)
    ensures !TxLess(c, a)
  {
  }

  /** Puts x into a sorted queue. */
  method InsertSorted(q: seq<Transaction>, x: Transaction) returns (r: seq<Transaction>)
    requires Sorted(q)
    ensures Sorted(r) && multiset(r) == multiset(q) + multiset{x}
  {
    var k := |q|;
    while k > 0 && TxLess(x, q[k - 1])
      invariant 0 <= k <= |q|
      invariant forall i | k <= i < |q| :: TxLess(x, q[i])
    {
      k := k - 1;
    }
    r := q[..k] + [x] + q[k..];
    Placed(q, x, k);
  }

  lemma Placed(q: seq<Transaction>, x: Transaction, k: nat)
    requires Sorted(q) && k <= |q| && (k > 0 ==> !TxLess(x, q[k - 1])) && forall i | k <= i < |q| :: TxLess(x, q[i])
    ensures Sorted(q[..k] + [x] + q[k..]) && multiset(q[..k] + [x] + q[k..]) == multiset(q) + multiset{x}
  {
    PlacedMembers(q, x, k);
    PlacedBefore(q, x, k);
    PlacedSorted(q, x, k, q[..k] + [x] + q[k..]);
  }

  lemma PlacedMembers(q: seq<Transaction>, x: Transaction, k: nat)
    requires k <= |q|
    ensures multiset(q[..k] + [x] + q[k..]) == multiset(q) + multiset{x}
  {
    assert q == q[..k] + q[k..];
  }

  lemma PlacedBefore(q: seq<Transaction>, x: Transaction, k: nat)
    requires Sorted(q) && k <= |q| && (k > 0 ==> !TxLess(x, q[k - 1]))
    ensures forall i | 0 <= i < k :: !TxLess(x, q[i])
  {
    forall i | 0 <= i < k ensures !TxLess(x, q[i]) {
      if i < k - 1 { RankTransitive(q[i], q[k - 1], x); }
    }
  }

  lemma PlacedSorted(q: seq<Transaction>, x: Transaction, k: nat, r: seq<Transaction>)
    requires Sorted(q) && k <= |q| && |r| == |q| + 1 && r[k] == x
    requires forall i | 0 <= i < k :: r[i] == q[i] && !TxLess(x, q[i])
    requires forall i | k < i < |r| :: r[i] == q[i - 1] && TxLess(x, q[i - 1])
    ensures Sorted(r)
  {
    forall i, j | 0 <= i < j < |r| ensures r[i].fee > r[j].fee || (r[i].fee == r[j].fee && r[i].timestamp <= r[j].timestamp) {
      var a, b := if i < k then i else i - 1, if j < k then j else j - 1;
      if i != k && j != k { assert !TxLess(q[b], q[a]); }
    }
  }

  /** The library's sort: some sorted rearrangement. */
  method Sort(q: seq<Transaction>) returns (r: seq<Transaction>)
    ensures Sorted(r) && multiset(r) == multiset(q)
  {
    r := [];
    for k := 0 to |q|
      invariant Sorted(r) && multiset(r) == multiset(q[..k])
    {
      assert q[..k + 1] == q[..k] + [q[k]];
      r := InsertSorted(r, q[k]);
    }
    assert q[..|q|] == q;
  }

  /** GetIndex, with None for -1. */
  method GetIndex(q: seq<Transaction>, t: Transaction) returns (r: Option<nat>)
    ensures r.Some? ==> r.value < |q| && q[r.value].hash == t.hash
    ensures r.None? ==> forall i | 0 <= i < |q| :: q[i].hash != t.hash
  {
    for k := 0 to |q|
      invariant forall i | 0 <= i < k :: q[i].hash != t.hash
    {
      if q[k].hash == t.hash { return Some(k); }
    }
    return None;
  }

  /** SwapAndRemove: the last element takes the place of the removed one. */
  ghost function SwapAndRemove(q: seq<Transaction>, i: nat): seq<Transaction>
    requires i < |q|
  {
    q[i := q[|q| - 1]][..|q| - 1]
  }

  lemma Removed(q: seq<Transaction>, i: nat)
    requires i < |q| && DistinctHashes(q)
    ensures DistinctHashes(SwapAndRemove(q, i))
    ensures forall t :: t in SwapAndRemove(q, i) <==> t in q && t != q[i]
  {
    var r, last := SwapAndRemove(q, i), |q| - 1;
    assert forall k | 0 <= k < last :: r[k] == if k == i then q[last] else q[k];
    forall t ensures t in r <==> t in q && t != q[i] {
      if t in q && t != q[i] {
        var k :| 0 <= k < |q| && q[k] == t;
        assert r[if k == last then i else k] == t;
      }
    }
  }

  lemma SameHashes(q: seq<Transaction>, r: seq<Transaction>)
    requires multiset(q) == multiset(r) && DistinctHashes(q)
    ensures DistinctHashes(r)
    ensures forall t :: t in q <==> t in r
  {
    forall t ensures t in q <==> t in r {
      assert t in multiset(q) <==> t in multiset(r);
    }
    forall i, j | 0 <= i < j < |r| ensures r[i].hash != r[j].hash {
      if r[i].hash == r[j].hash {
        Twice(r, i, j);
        TwoPlaces(q, r[i], r[j]);
      }
    }
  }

  /** Elements at two places are counted twice. */
  lemma Twice(r: seq<Transaction>, i: nat, j: nat)
    requires i < j < |r|
    ensures multiset{r[i], r[j]} <= multiset(r)
  {
    assert r == r[..j] + r[j..];
    assert r[..j][i] == r[i] && r[j..][0] == r[j];
    assert multiset{r[i]} <= multiset(r[..j]) && multiset{r[j]} <= multiset(r[j..]);
  }

  lemma TwoPlaces(q: seq<Transaction>, x: Transaction, y: Transaction)
    requires multiset{x, y} <= multiset(q) && x.hash == y.hash
    ensures !DistinctHashes(q)
  {
    assert x in multiset(q) && y in multiset(q);
    var i :| 0 <= i < |q| && q[i] == x;
    if x == y {
      assert multiset(q)[x] >= 2;
      assert q == q[..i] + [x] + q[i + 1..];
      assert x in multiset(q[..i] + q[i + 1..]);
      var k :| 0 <= k < |q| - 1 && (q[..i] + q[i + 1..])[k] == x;
      assert q[if k < i then k else k + 1] == x;
    } else {
      var j :| 0 <= j < |q| && q[j] == y;
      assert q[i].hash == q[j].hash && i != j;
    }
  }

  // ----- what every operation keeps

  datatype Held = Held(byHash: map<bytes, Transaction>, bySender: map<bytes, Transaction>, pending: seq<Transaction>)

  ghost predicate OneWithHash(known: iset<Transaction>, h: bytes)
  {
    forall a, b | a in known && b in known && a.hash == h && b.hash == h :: a == b
  }

  /** The transactions in play have hashes of their own. */
  ghost predicate Known(known: iset<Transaction>)
  {
    forall h: bytes :: OneWithHash(known, h)
  }

  ghost predicate Filed(s: Held, h: bytes)
    requires h in s.byHash
  {
    var t := s.byHash[h];
    && t.hash == h
    && (t.kind != COLLAPSE ==> t in s.pending)
    && forall a | a in SendersOf(t) :: a in s.bySender && s.bySender[a] == t
  }

  ghost predicate Points(s: Held, a: bytes)
    requires a in s.bySender
  {
    var t := s.bySender[a];
    t.hash in s.byHash && s.byHash[t.hash] == t && a in SendersOf(t)
  }

  ghost predicate Queued(s: Held, t: Transaction)
  {
    IsStandard(t.kind) && t.hash in s.byHash && s.byHash[t.hash] == t
  }

  /** The three views agree about one key, read as a hash and as an address. */
  ghost predicate AgreeAt(s: Held, x: bytes)
  {
    && (x in s.byHash ==> Filed(s, x))
    && (x in s.bySender ==> Points(s, x))
    && (forall i | 0 <= i < |s.pending| && s.pending[i].hash == x :: Queued(s, s.pending[i]))
  }

  ghost predicate Agree(s: Held)
  {
    DistinctHashes(s.pending) && forall x: bytes :: AgreeAt(s, x)
  }

  lemma HoldsQueued(s: Held, t: Transaction)
    requires Agree(s) && t in s.pending
    ensures Queued(s, t) && Filed(s, t.hash)
  {
    assert AgreeAt(s, t.hash);
  }

  lemma HoldsFiled(s: Held, h: bytes)
    requires Agree(s) && h in s.byHash
    ensures Filed(s, h)
  {
    assert AgreeAt(s, h);
  }

  lemma HoldsPoints(s: Held, a: bytes)
    requires Agree(s) && a in s.bySender
    ensures Points(s, a) && Filed(s, s.bySender[a].hash)
  {
    assert AgreeAt(s, a);
    assert AgreeAt(s, s.bySender[a].hash);
  }

  /** Pending transactions have pairwise distinct senders, each filed under its own. */
  lemma DistinctSenders(s: Held, i: nat, j: nat)
    requires Agree(s) && i < j < |s.pending|
    ensures Sender(s.pending[i]) != Sender(s.pending[j])
    ensures Sender(s.pending[i]) in s.bySender && Sender(s.pending[j]) in s.bySender
  {
    HoldsQueued(s, s.pending[i]);
    HoldsQueued(s, s.pending[j]);
    assert Sender(s.pending[i]) in SendersOf(s.pending[i]) && Sender(s.pending[j]) in SendersOf(s.pending[j]);
  }

  /** The queue holds exactly the entries of the hash map that are no collapse transactions. */
  lemma PendingIsHashMap(s: Held, t: Transaction)
    requires Agree(s)
    ensures t in s.pending <==> t.kind != COLLAPSE && t.hash in s.byHash && s.byHash[t.hash] == t
    ensures t in s.pending ==> IsStandard(t.kind)
  {
    assert AgreeAt(s, t.hash);
  }

  /** cleanTransactionMap together with the removal from the queue. */
  function Clean(s: Held, t: Transaction, pending: seq<Transaction>): Held
  {
    Held(s.byHash - {t.hash}, s.bySender - SendersOf(t), pending)
  }

  lemma CleanAgrees(s: Held, t: Transaction, pending: seq<Transaction>)
    requires Agree(s) && t.hash in s.byHash && s.byHash[t.hash] == t
    requires DistinctHashes(pending) && forall x :: x in pending <==> x in s.pending && x != t
    ensures Agree(Clean(s, t, pending))
  {
    forall x: bytes ensures AgreeAt(Clean(s, t, pending), x) {
      CleanAt(s, t, pending, x);
    }
  }

  lemma CleanAt(s: Held, t: Transaction, pending: seq<Transaction>, x: bytes)
    requires Agree(s) && t.hash in s.byHash && s.byHash[t.hash] == t
    requires forall y :: y in pending <==> y in s.pending && y != t
    ensures AgreeAt(Clean(s, t, pending), x)
  {
    var r := Clean(s, t, pending);
    assert AgreeAt(s, t.hash) && AgreeAt(s, x);
    if x in r.byHash {
      var y := s.byHash[x];
      forall a | a in SendersOf(y) ensures a !in SendersOf(t) {
        assert s.bySender[a] == y;
      }
    }
    forall i | 0 <= i < |pending| && pending[i].hash == x ensures Queued(r, pending[i]) {
      HoldsQueued(s, pending[i]);
    }
  }

  /** Filing a new transaction under its senders; standard ones also join the queue. */
  ghost predicate Files(s: Held, t: Transaction, r: Held)
  {
    && r.byHash == s.byHash[t.hash := t]
    && r.bySender.Keys == s.bySender.Keys + SendersOf(t)
    && (forall a | a in r.bySender :: r.bySender[a] == if a in SendersOf(t) then t else s.bySender[a])
    && r.pending == if t.kind == COLLAPSE then s.pending else s.pending + [t]
  }

  lemma FilesAgrees(s: Held, t: Transaction, r: Held)
    requires t.kind == COLLAPSE || IsStandard(t.kind)
    requires Agree(s) && t.hash !in s.byHash && SendersOf(t) !! s.bySender.Keys && Files(s, t, r)
    ensures Agree(r)
  {
    forall i | 0 <= i < |s.pending| ensures s.pending[i].hash != t.hash {
      HoldsQueued(s, s.pending[i]);
    }
    forall x: bytes ensures AgreeAt(r, x) {
      FilesAt(s, t, r, x);
    }
  }

  lemma FilesAt(s: Held, t: Transaction, r: Held, x: bytes)
    requires t.kind == COLLAPSE || IsStandard(t.kind)
    requires Agree(s) && t.hash !in s.byHash && SendersOf(t) !! s.bySender.Keys && Files(s, t, r)
    ensures AgreeAt(r, x)
  {
    assert AgreeAt(s, x);
    if x in r.byHash {
      FilesFiled(s, t, r, x);
    }
    if x in r.bySender && x !in SendersOf(t) {
      assert x in s.bySender;
    }
    forall i | 0 <= i < |r.pending| && r.pending[i].hash == x ensures Queued(r, r.pending[i]) {
      if i < |s.pending| { HoldsQueued(s, s.pending[i]); }
    }
  }

  lemma FilesFiled(s: Held, t: Transaction, r: Held, x: bytes)
    requires Agree(s) && t.hash !in s.byHash && SendersOf(t) !! s.bySender.Keys && Files(s, t, r) && x in r.byHash
    ensures Filed(r, x)
  {
    if x == t.hash {
      if t.kind != COLLAPSE { assert r.pending[|s.pending|] == t; }
      forall a | a in SendersOf(t) ensures a in r.bySender && r.bySender[a] == t {
        assert a in r.bySender.Keys;
      }
    } else {
      HoldsFiled(s, x);
      var y := s.byHash[x];
      forall a | a in SendersOf(y) ensures a in r.bySender && r.bySender[a] == y {
        assert a in s.bySender.Keys && a in r.bySender.Keys;
      }
    }
  }

  /** Replacing a queued transaction by another of the same sender. */
  function Exchange(s: Held, o: Transaction, t: Transaction, i: nat): Held
    requires i < |s.pending|
  {
    var less := s.byHash - {o.hash};
    Held(less[t.hash := t], s.bySender[Sender(t) := t], s.pending[i := t])
  }

  lemma ExchangeAgrees(s: Held, o: Transaction, t: Transaction, i: nat)
    requires Agree(s) && i < |s.pending| && s.pending[i] == o
    requires IsStandard(t.kind) && t.hash !in s.byHash && Sender(t) == Sender(o)
    ensures Agree(Exchange(s, o, t, i))
  {
    var r := Exchange(s, o, t, i);
    forall k | 0 <= k < |s.pending| ensures s.pending[k].hash != t.hash {
      HoldsQueued(s, s.pending[k]);
    }
    assert DistinctHashes(r.pending);
    forall x: bytes ensures AgreeAt(r, x) {
      ExchangeAt(s, o, t, i, x);
    }
  }

  lemma ExchangeAt(s: Held, o: Transaction, t: Transaction, i: nat, x: bytes)
    requires Agree(s) && i < |s.pending| && s.pending[i] == o
    requires IsStandard(t.kind) && t.hash !in s.byHash && Sender(t) == Sender(o)
    ensures AgreeAt(Exchange(s, o, t, i), x)
  {
    var r := Exchange(s, o, t, i);
    HoldsQueued(s, o);
    assert AgreeAt(s, x);
    if x in r.byHash {
      ExchangeFiled(s, o, t, i, x);
    }
    if x in r.bySender && x != Sender(t) {
      HoldsPoints(s, x);
      assert s.bySender[x] != o;
    }
    forall k | 0 <= k < |r.pending| && r.pending[k].hash == x ensures Queued(r, r.pending[k]) {
      if k != i { HoldsQueued(s, s.pending[k]); }
    }
  }

  lemma ExchangeFiled(s: Held, o: Transaction, t: Transaction, i: nat, x: bytes)
    requires Agree(s) && i < |s.pending| && s.pending[i] == o && x in Exchange(s, o, t, i).byHash
    requires IsStandard(t.kind) && t.hash !in s.byHash && Sender(t) == Sender(o)
    ensures Filed(Exchange(s, o, t, i), x)
  {
    var r := Exchange(s, o, t, i);
    HoldsQueued(s, o);
    assert r.pending[i] == t;
    if x != t.hash {
      HoldsFiled(s, x);
      var y := s.byHash[x];
      assert s.bySender[Sender(o)] == o;
      assert Sender(t) !in SendersOf(y);
      if y.kind != COLLAPSE {
        var k :| 0 <= k < |s.pending| && s.pending[k] == y;
        assert r.pending[k] == y;
      }
    }
  }

  /** Agreement depends on the queue only through its members, once their hashes are distinct. */
  lemma SamePending(s: Held, r: Held)
    requires Agree(s) && r.byHash == s.byHash && r.bySender == s.bySender
    requires forall x :: x in r.pending <==> x in s.pending
    requires DistinctHashes(r.pending)
    ensures Agree(r)
  {
    forall x: bytes ensures AgreeAt(r, x) {
      assert AgreeAt(s, x);
      forall i | 0 <= i < |r.pending| && r.pending[i].hash == x ensures Queued(r, r.pending[i]) {
        HoldsQueued(s, r.pending[i]);
      }
    }
  }

  // ----- the pool

  datatype Answer = Added | Replaced | Kept | Refused

  datatype Op =
    | DoInsert(t: Transaction, valid: bool)
    | DoInsertCollapse(ts: seq<Transaction>)
    | DoFinalize(ts: seq<Transaction>)
    | DoDelete(t: Transaction)
    | DoGetQueue
    | DoForge(t: Transaction)
    | DoClearForged(ts: seq<Transaction>)

  /** Whether Finalize looks at a transaction at all. */
  predicate Cleans(kind: u32)
  {
    kind != FEE && kind != REWARD
  }

  /** A collapse transaction none of whose owners had an entry before, and all of whose owners have one after. */
  ghost predicate FiledBetween(t: Transaction, before: set<bytes>, after: set<bytes>)
  {
    t.kind == COLLAPSE && Owners(t.inputs) !! before && Owners(t.inputs) <= after
  }

  /** A collapse transaction is filed under all its owners and stays out of the queue. */
  ghost function WithCollapse(s: Held, t: Transaction): Held
  {
    Held(s.byHash[t.hash := t], s.bySender + (map a | a in Owners(t.inputs) :: t), s.pending)
  }

  ghost function WithCollapses(s: Held, ts: seq<Transaction>): Held
  {
    if ts == [] then s else WithCollapse(WithCollapses(s, ts[..|ts| - 1]), ts[|ts| - 1])
  }

  ghost predicate NoCommonOwner(a: Transaction, b: Transaction)
  {
    Owners(a.inputs) !! Owners(b.inputs)
  }

  /** Nothing in the queue pays less, and nothing that pays as little is later. */
  ghost predicate Worst(worst: Transaction, q: seq<Transaction>)
  {
    worst in q && forall t | t in q :: worst.fee < t.fee || (worst.fee == t.fee && worst.timestamp >= t.timestamp)
  }

  lemma LastIsWorst(s: Held, queue: seq<Transaction>)
    requires Agree(s) && s.pending != [] && Sorted(queue) && multiset(queue) == multiset(s.pending)
    ensures queue != []
    ensures var last := |queue| - 1;
      && Worst(queue[last], s.pending)
      && multiset(queue[..last]) + multiset{queue[last]} == multiset(s.pending)
      && DistinctHashes(queue[..last])
      && (forall x :: x in queue[..last] <==> x in s.pending && x != queue[last])
      && Queued(s, queue[last])
  {
    SameHashes(s.pending, queue);
    assert s.pending[0] in queue;
    var last := |queue| - 1;
    assert queue == queue[..last] + [queue[last]];
    Removed(queue, last);
    assert SwapAndRemove(queue, last) == queue[..last];
    HoldsQueued(s, queue[last]);
    RanksLast(queue);
  }

  lemma RanksLast(queue: seq<Transaction>)
    requires Sorted(queue) && queue != []
    ensures Worst(queue[|queue| - 1], queue)
  {
    var worst := queue[|queue| - 1];
    forall t | t in queue ensures worst.fee < t.fee || (worst.fee == t.fee && worst.timestamp >= t.timestamp) {
      var k :| 0 <= k < |queue| && queue[k] == t;
    }
  }

  /** A stake or unstake that names the node. */
  predicate NamesNode(t: Transaction, node: bytes)
  {
    (t.kind == STAKE || t.kind == UNSTAKE) && (node in OutNodes(t.outputs) || node in InNodes(t.inputs))
  }

  /** A finalised block takes the pending transactions of these senders out of the pool. */
  ghost predicate SenderIn(ts: seq<Transaction>, a: bytes)
  {
    exists i | 0 <= i < |ts| :: Cleans(ts[i].kind) && Sender(ts[i]) == a
  }

  /** Neither the transaction nor its sender is left. */
  ghost predicate Gone(t: Transaction, hashes: set<bytes>, senders: set<bytes>)
  {
    t.hash !in hashes && (t.inputs != [] ==> Sender(t) !in senders)
  }

  class Pool {
    ghost const known: iset<Transaction>
    var txHashMap: map<bytes, Transaction>
    var txSenderMap: map<bytes, Transaction>
    var pending: seq<Transaction>
    /** Hashes of transactions marked as put into a block, and as evicted. */
    var forged: set<bytes>
    var dropped: set<bytes>

    ghost function View(): Held
      reads this
    {
      Held(txHashMap, txSenderMap, pending)
    }

    ghost predicate Valid()
      reads this
    {
      Known(known) && Agree(View()) && (forall h | h in txHashMap :: txHashMap[h] in known)
    }

    constructor (ghost known: iset<Transaction>)
      requires Known(known)
      ensures Valid() && this.known == known && View() == Held(map[], map[], []) && forged == {} && dropped == {}
    {
      this.known := known;
      txHashMap, txSenderMap, pending, forged, dropped := map[], map[], [], {}, {};
    }

    /** cleanWorst. */
    method CleanWorst() returns (worst: Transaction)
      requires Valid() && pending != []
      modifies this
      ensures Valid() && forged == old(forged) && dropped == old(dropped) + {worst.hash}
      ensures forall t | t in old(pending) :: worst.fee <= t.fee && (worst.fee == t.fee ==> worst.timestamp >= t.timestamp)
      ensures Worst(worst, old(pending)) && multiset(pending) + multiset{worst} == multiset(old(pending))
      ensures worst.hash in old(txHashMap) && txHashMap == old(txHashMap) - {worst.hash}
    {
      var queue := Sort(pending);
      LastIsWorst(View(), queue);
      var last := |queue| - 1;
      worst := queue[last];
      CleanAgrees(View(), worst, queue[..last]);
      txHashMap := txHashMap - {worst.hash};
      txSenderMap := txSenderMap - {Sender(worst)};
      pending := queue[..last];
      dropped := dropped + {worst.hash};
    }

    static lemma StillThere(q: seq<Transaction>, r: seq<Transaction>, worst: Transaction)
      requires multiset(r) + multiset{worst} == multiset(q)
      ensures forall x | x in r :: x in q
    {
      forall x | x in r ensures x in q {
        assert x in multiset(r) + multiset{worst};
      }
    }

    /** finalizeInsert and, when the hash map has grown to one below the limit, eviction of the worst. */
    method FinalizeInsert(t: Transaction) returns (evicted: Option<Transaction>)
      requires Valid() && t in known && IsStandard(t.kind) && t.hash !in txHashMap && Sender(t) !in txSenderMap
      modifies this
      ensures Valid() && forged == old(forged)
      ensures evicted.Some? <==> |old(txHashMap)| + 2 == MAX_TX_COUNT
      ensures evicted.None? ==> Files(old(View()), t, View())
      ensures evicted.Some? ==>
        && Worst(evicted.value, old(pending) + [t])
        && multiset(pending) + multiset{evicted.value} == multiset(old(pending) + [t])
      ensures |txHashMap| == |old(txHashMap)| + if evicted.None? then 1 else 0
      ensures forall x | x in pending :: x in old(pending) || x == t
    {
      txSenderMap := txSenderMap[Sender(t) := t];
      txHashMap := txHashMap[t.hash := t];
      pending := pending + [t];
      FilesAgrees(old(View()), t, View());
      evicted := None;
      if |txHashMap| + 1 == MAX_TX_COUNT {
        ghost var longer := pending;
        var worst := CleanWorst();
        StillThere(longer, pending, worst);
        evicted := Some(worst);
      }
    }

    /** swap, and SwapByHash inside it; the result says at which place the new transaction went in. */
    method Swap(o: Transaction, t: Transaction) returns (a: Answer, ghost i: nat)
      requires Valid() && t in known && o in pending && IsStandard(t.kind)
      requires t.hash !in txHashMap && Sender(t) == Sender(o)
      modifies this
      ensures Valid() && forged == old(forged) && dropped == old(dropped)
      ensures a == if o.hash in old(forged) then Kept else Replaced
      ensures a == Kept ==> View() == old(View())
      ensures a == Replaced ==> i < |old(pending)| && old(pending)[i] == o && View() == Exchange(old(View()), o, t, i)
      ensures a == Replaced ==> |txHashMap| == |old(txHashMap)|
    {
      i := 0;
      if o.hash in forged { return Kept, 0; }
      var at := GetIndex(pending, o);
      Found(View(), o, at);
      i := at.value;
      ExchangeAgrees(View(), o, t, i);
      ExchangeCount(txHashMap, o, t);
      pending := pending[at.value := t];
      txHashMap := txHashMap - {o.hash};
      txHashMap := txHashMap[t.hash := t];
      txSenderMap := txSenderMap[Sender(t) := t];
      a := Replaced;
    }

    /** Insert; valid is the verdict of the transaction validator, which passes standard kinds only. */
    method Insert(t: Transaction, valid: bool) returns (a: Answer, evicted: Option<Transaction>, ghost i: nat)
      requires Valid() && t in known && (valid ==> IsStandard(t.kind))
      modifies this
      ensures Valid() && forged == old(forged)
      ensures a == Added || a == Replaced || View() == old(View())
      ensures a == Added <==> valid && Sender(t) != [] && t.hash !in old(txHashMap) && Sender(t) !in old(txSenderMap)
      ensures a == Replaced <==>
        && valid && Sender(t) != [] && t.hash !in old(txHashMap) && Sender(t) in old(txSenderMap)
        && var o := old(txSenderMap)[Sender(t)];
           && o.kind != COLLAPSE && o.num == t.num && o.hash !in old(forged)
           && (o.fee > t.fee || (o.fee == t.fee && o.timestamp < t.timestamp))
      ensures a == Replaced ==>
        && i < |old(pending)| && old(pending)[i] == old(txSenderMap)[Sender(t)]
        && View() == Exchange(old(View()), old(pending)[i], t, i)
      ensures a == Added && evicted.None? ==> Files(old(View()), t, View())
      ensures evicted.Some? ==>
        && a == Added && Worst(evicted.value, old(pending) + [t])
        && multiset(pending) + multiset{evicted.value} == multiset(old(pending) + [t])
      ensures forall x | x in pending && x !in old(pending) :: x == t && valid
      ensures |old(txHashMap)| <= MAX_TX_COUNT - 2 ==> |txHashMap| <= MAX_TX_COUNT - 2
    {
      a, evicted, i := Refused, None, 0;
      if t.hash in txHashMap || Sender(t) == [] {
      } else if Sender(t) in txSenderMap {
        var o := txSenderMap[Sender(t)];
        HoldsPoints(View(), Sender(t));
        if o.kind != COLLAPSE {
          if o.num != t.num {
            a := Kept;
          } else if TxLess(o, t) && valid {
            a, i := Swap(o, t);
          }
        }
      } else if valid {
        evicted := FinalizeInsert(t);
        a := Added;
      }
    }

    static lemma ExchangeCount(m: map<bytes, Transaction>, o: Transaction, t: Transaction)
      requires o.hash in m && t.hash !in m
      ensures |(m - {o.hash})[t.hash := t]| == |m|
    {
      var r := (m - {o.hash})[t.hash := t];
      assert r.Keys == m.Keys - {o.hash} + {t.hash};
    }

    static lemma Found(s: Held, o: Transaction, at: Option<nat>)
      requires Agree(s) && o in s.pending
      requires at.Some? ==> at.value < |s.pending| && s.pending[at.value].hash == o.hash
      requires at.None? ==> forall i | 0 <= i < |s.pending| :: s.pending[i].hash != o.hash
      ensures at.Some? && s.pending[at.value] == o && o.hash in s.byHash
    {
      HoldsQueued(s, o);
      if at.Some? { HoldsQueued(s, s.pending[at.value]); }
    }

    /** The loop over the inputs of one collapse transaction. */
    method CollapseSenders(t: Transaction) returns (ok: bool, senders: set<bytes>)
      ensures ok <==> Owners(t.inputs) !! txSenderMap.Keys
      ensures ok ==> senders == Owners(t.inputs)
    {
      senders := {};
      for k := 0 to |t.inputs|
        invariant senders == Owners(t.inputs[..k])
        invariant Owners(t.inputs[..k]) !! txSenderMap.Keys
      {
        assert t.inputs[..k + 1] == t.inputs[..k] + [t.inputs[k]];
        OwnersPush(t.inputs[..k], t.inputs[k]);
        var from := t.inputs[k].address;
        if from !in senders {
          if from in txSenderMap {
            assert from in Owners(t.inputs);
            return false, senders;
          }
          senders := senders + {from};
        }
      }
      assert t.inputs[..|t.inputs|] == t.inputs;
      return true, senders;
    }

    static lemma CollapseFiled(known: iset<Transaction>, s: Held, t: Transaction, r: Held)
      requires Known(known) && t in known && Agree(s) && (forall h | h in s.byHash :: s.byHash[h] in known)
      requires t.kind == COLLAPSE && SendersOf(t) !! s.bySender.Keys
      requires r == WithCollapse(s, t)
      ensures Agree(r)
    {
      if t.hash in s.byHash {
        HoldsFiled(s, t.hash);
        assert OneWithHash(known, t.hash);
        assert s.byHash[t.hash] == t;
        forall a ensures a !in SendersOf(t) { }
        assert r == s;
      } else {
        FilesAgrees(s, t, r);
      }
    }

    method InsertOneCollapse(t: Transaction) returns (ok: bool)
      requires Valid() && t in known
      modifies this`txHashMap, this`txSenderMap
      ensures Valid()
      ensures ok <==> t.kind == COLLAPSE && Owners(t.inputs) !! old(txSenderMap).Keys
      ensures ok ==> View() == WithCollapse(old(View()), t) && txSenderMap.Keys == old(txSenderMap).Keys + Owners(t.inputs)
      ensures !ok ==> View() == old(View())
    {
      if t.kind != COLLAPSE { return false; }
      var senders: set<bytes>;
      ok, senders := CollapseSenders(t);
      if ok {
        txSenderMap := txSenderMap + (map a | a in senders :: t);
        txHashMap := txHashMap[t.hash := t];
        CollapseFiled(known, old(View()), t, View());
      }
    }

    /** The first n were filed between two moments and share no owner. */
    static ghost predicate FirstFiled(ts: seq<Transaction>, n: nat, before: set<bytes>, after: set<bytes>)
      requires n <= |ts|
    {
      && (forall i | 0 <= i < n :: FiledBetween(ts[i], before, after))
      && (forall i, j | 0 <= i < j < n :: NoCommonOwner(ts[i], ts[j]))
    }

    static lemma WithCollapsesPush(s: Held, ts: seq<Transaction>, k: nat)
      requires k < |ts|
      ensures WithCollapses(s, ts[..k + 1]) == WithCollapse(WithCollapses(s, ts[..k]), ts[k])
    {
      assert ts[..k + 1][..k] == ts[..k];
    }

    static lemma FiledMore(ts: seq<Transaction>, k: nat, before: set<bytes>, mid: set<bytes>, after: set<bytes>)
      requires k < |ts| && before <= mid && ts[k].kind == COLLAPSE
      requires Owners(ts[k].inputs) !! mid && after == mid + Owners(ts[k].inputs)
      requires FirstFiled(ts, k, before, mid)
      ensures FirstFiled(ts, k + 1, before, after)
    {
      forall i | 0 <= i < k ensures FiledBetween(ts[i], before, after) && NoCommonOwner(ts[i], ts[k]) {
        assert FiledBetween(ts[i], before, mid);
      }
    }

    /** Why InsertCollapseTx stops at a transaction. */
    ghost predicate CannotFile(t: Transaction)
      reads this
    {
      t.kind != COLLAPSE || exists a | a in Owners(t.inputs) :: a in txSenderMap
    }

    /** InsertCollapseTx files one after the other up to the first that cannot be filed, and keeps those before it. */
    method InsertCollapseTx(ts: seq<Transaction>) returns (ok: bool, ghost n: nat)
      requires Valid() && forall t | t in ts :: t in known
      modifies this`txHashMap, this`txSenderMap
      ensures Valid() && old(txSenderMap).Keys <= txSenderMap.Keys
      ensures n <= |ts| && View() == WithCollapses(old(View()), ts[..n])
      ensures if ok then n == |ts| else n < |ts| && CannotFile(ts[n])
      ensures FirstFiled(ts, n, old(txSenderMap).Keys, txSenderMap.Keys)
    {
      n := 0;
      var k := 0;
      while k < |ts|
        invariant n == k <= |ts|
        invariant Valid() && old(txSenderMap).Keys <= txSenderMap.Keys && View() == WithCollapses(old(View()), ts[..k])
        invariant FirstFiled(ts, k, old(txSenderMap).Keys, txSenderMap.Keys)
      {
        ghost var mid := txSenderMap.Keys;
        ok := InsertOneCollapse(ts[k]);
        if !ok { return; }
        WithCollapsesPush(old(View()), ts, k);
        FiledMore(ts, k, old(txSenderMap).Keys, mid, txSenderMap.Keys);
        k, n := k + 1, n + 1;
      }
      ok := true;
    }

    /** GetQueue sorts the queue in place. */
    method GetQueue() returns (queue: seq<Transaction>)
      requires Valid()
      modifies this`pending
      ensures Valid() && queue == pending && Sorted(pending) && multiset(pending) == multiset(old(pending))
      ensures forall t :: t in pending <==> t in old(pending)
      ensures forall i, j | 0 <= i < j < |queue| ::
        queue[i].fee >= queue[j].fee && (queue[i].fee == queue[j].fee ==> queue[i].timestamp <= queue[j].timestamp)
    {
      queue := Sort(pending);
      SameHashes(pending, queue);
      SamePending(View(), Held(txHashMap, txSenderMap, queue));
      pending := queue;
    }

    /** Takes a held transaction out of the queue, if it is there, and out of both maps. */
    method Remove(t: Transaction)
      requires Valid() && t.hash in txHashMap && txHashMap[t.hash] == t
      modifies this`txHashMap, this`txSenderMap, this`pending
      ensures Valid()
      ensures txHashMap == old(txHashMap) - {t.hash} && txSenderMap == old(txSenderMap) - SendersOf(t)
      ensures forall x :: x in pending <==> x in old(pending) && x != t
    {
      var i := GetIndex(pending, t);
      HoldsFiled(View(), t.hash);
      if i.Some? {
        HoldsQueued(View(), pending[i.value]);
        Removed(pending, i.value);
        pending := pending[i.value := pending[|pending| - 1]][..|pending| - 1];
      } else {
        assert t !in pending;
      }
      CleanAgrees(old(View()), t, pending);
      ghost var kept := pending;
      txHashMap := txHashMap - {t.hash};
      if t.kind != COLLAPSE {
        txSenderMap := txSenderMap - {Sender(t)};
      } else {
        for k := 0 to |t.inputs|
          invariant txSenderMap == old(txSenderMap) - Owners(t.inputs[..k])
          invariant txHashMap == old(txHashMap) - {t.hash} && forall x :: x in pending <==> x in old(pending) && x != t
          invariant pending == kept
        {
          assert t.inputs[..k + 1] == t.inputs[..k] + [t.inputs[k]];
          OwnersPush(t.inputs[..k], t.inputs[k]);
          txSenderMap := txSenderMap - {t.inputs[k].address};
        }
        assert t.inputs[..|t.inputs|] == t.inputs;
      }
    }

    method DeleteTransaction(t: Transaction) returns (ok: bool)
      requires Valid() && t in known
      modifies this`txHashMap, this`txSenderMap, this`pending
      ensures Valid() && (ok <==> t in old(pending))
      ensures ok ==> txHashMap == old(txHashMap) - {t.hash} && txSenderMap == old(txSenderMap) - SendersOf(t)
      ensures ok ==> forall x :: x in pending <==> x in old(pending) && x != t
      ensures !ok ==> View() == old(View())
    {
      var i := GetIndex(pending, t);
      if i.None? {
        return false;
      }
      HoldsQueued(View(), pending[i.value]);
      assert OneWithHash(known, t.hash);
      Remove(t);
      return true;
    }

    /** findPoolTransaction: the transaction itself if it is held, else the one its sender has in the pool. */
    method FindPoolTransaction(t: Transaction) returns (r: Option<Transaction>)
      requires Valid() && t in known
      ensures r.Some? <==> t.hash in txHashMap || Sender(t) in txSenderMap
      ensures r.Some? ==> Holds(r.value) && (t.inputs != [] ==> Sender(t) in SendersOf(r.value))
      ensures r.Some? && r.value.kind != COLLAPSE ==> Sender(r.value) == Sender(t)
      ensures t.hash in txHashMap ==> r.value == t
    {
      if t.hash !in txHashMap && Sender(t) !in txSenderMap { return None; }
      var poolTx := if t.hash in txHashMap then t else txSenderMap[Sender(t)];
      if t.hash !in txHashMap {
        HoldsPoints(View(), Sender(t));
      } else {
        HoldsFiled(View(), t.hash);
        assert OneWithHash(known, t.hash);
        assert t.inputs != [] ==> t.inputs[0].address in Owners(t.inputs);
      }
      var i := GetIndex(pending, poolTx);
      HoldsFiled(View(), poolTx.hash);
      return if i.None? && poolTx.kind != COLLAPSE then None else Some(poolTx);
    }

    ghost predicate Holds(t: Transaction)
      reads this
    {
      t.hash in txHashMap && txHashMap[t.hash] == t
    }

    /** One transaction of a finalised block. */
    method FinalizeOne(t: Transaction)
      requires Valid() && t in known
      modifies this`txHashMap, this`txSenderMap, this`pending
      ensures Valid() && Within(old(txHashMap).Keys, old(txSenderMap).Keys)
      ensures Gone(t, txHashMap.Keys, txSenderMap.Keys)
      ensures forall x | x in pending :: x in old(pending)
      ensures forall x | x in old(pending) && Sender(x) != Sender(t) :: x in pending
    {
      var found := FindPoolTransaction(t);
      if found.Some? {
        if found.value in pending { HoldsQueued(View(), found.value); }
        Remove(found.value);
        assert txHashMap.Keys == old(txHashMap).Keys - {found.value.hash};
        assert txSenderMap.Keys == old(txSenderMap).Keys - SendersOf(found.value);
      }
    }

    static method OutputOn(outs: seq<TxOutput>, node: bytes) returns (found: bool)
      ensures found <==> node in OutNodes(outs)
    {
      for k := 0 to |outs|
        invariant node !in OutNodes(outs)[..k]
      {
        assert OutNodes(outs)[..k + 1] == OutNodes(outs)[..k] + [Address(outs[k].node)];
        if Address(outs[k].node) == node { return true; }
      }
      assert OutNodes(outs)[..|outs|] == OutNodes(outs);
      return false;
    }

    static method InputOn(ins: seq<TxInput>, node: bytes) returns (found: bool)
      ensures found <==> node in InNodes(ins)
    {
      for k := 0 to |ins|
        invariant node !in InNodes(ins)[..k]
      {
        assert InNodes(ins)[..k + 1] == InNodes(ins)[..k] + [Address(ins[k].node)];
        if Address(ins[k].node) == node { return true; }
      }
      assert InNodes(ins)[..|ins|] == InNodes(ins);
      return false;
    }

    /** findProblematicStakeTx: a stake or unstake of the address that names the node. */
    method FindProblematicStakeTx(address: bytes, node: bytes) returns (r: Option<Transaction>)
      requires Valid()
      ensures r.Some? <==> address in txSenderMap && NamesNode(txSenderMap[address], node)
      ensures r.Some? ==> r.value == txSenderMap[address] && Holds(r.value)
    {
      if address !in txSenderMap { return None; }
      var t := txSenderMap[address];
      HoldsPoints(View(), address);
      if t.kind != STAKE && t.kind != UNSTAKE { return None; }
      var out := OutputOn(t.outputs, node);
      var in_ := InputOn(t.inputs, node);
      return if out || in_ then Some(t) else None;
    }

    /** cleanUpSystemUnstake: the elector's pending stake or unstake goes if it names the validator, and nothing else. */
    method CleanUpSystemUnstake(t: Transaction)
      requires Valid() && t.inputs != []
      modifies this`txHashMap, this`txSenderMap, this`pending
      ensures Valid() && Within(old(txHashMap).Keys, old(txSenderMap).Keys)
      ensures Sender(t) in txSenderMap ==> !NamesNode(txSenderMap[Sender(t)], Address(t.inputs[0].node))
      ensures Sender(t) in old(txSenderMap) && NamesNode(old(txSenderMap)[Sender(t)], Address(t.inputs[0].node)) ==>
        var x := old(txSenderMap)[Sender(t)];
        && x in old(pending) && txHashMap == old(txHashMap) - {x.hash} && txSenderMap == old(txSenderMap) - {Sender(t)}
        && forall y :: y in pending <==> y in old(pending) && y != x
      ensures !(Sender(t) in old(txSenderMap) && NamesNode(old(txSenderMap)[Sender(t)], Address(t.inputs[0].node))) ==>
        View() == old(View())
    {
      var found := FindProblematicStakeTx(t.inputs[0].address, Address(t.inputs[0].node));
      if found.Some? {
        HoldsPoints(View(), Sender(t));
        Remove(found.value);
        assert txHashMap.Keys == old(txHashMap).Keys - {found.value.hash};
        assert txSenderMap.Keys == old(txSenderMap).Keys - {Sender(t)};
      }
    }

    ghost predicate Within(hashes: set<bytes>, senders: set<bytes>)
      reads this
    {
      txHashMap.Keys <= hashes && txSenderMap.Keys <= senders
    }

    lemma OwnSender(x: Transaction, a: bytes)
      requires Valid() && x in pending && a in txSenderMap && txSenderMap[a] == x
      ensures Sender(x) == a
    {
      HoldsPoints(View(), a);
      HoldsQueued(View(), x);
    }

    method CleanUpAll(unstakes: seq<Transaction>)
      requires Valid() && forall t | t in unstakes :: t.inputs != [] && Cleans(t.kind)
      modifies this`txHashMap, this`txSenderMap, this`pending
      ensures Valid() && Within(old(txHashMap).Keys, old(txSenderMap).Keys)
      ensures forall x | x in pending :: x in old(pending)
      ensures forall x | x in old(pending) && !SenderIn(unstakes, Sender(x)) :: x in pending
    {
      for k := 0 to |unstakes|
        invariant Valid() && Within(old(txHashMap).Keys, old(txSenderMap).Keys)
        invariant forall x | x in pending :: x in old(pending)
        invariant forall x | x in old(pending) && !SenderIn(unstakes, Sender(x)) :: x in pending
      {
        var a := Sender(unstakes[k]);
        if a in txSenderMap && txSenderMap[a] in pending { OwnSender(txSenderMap[a], a); }
        CleanUpSystemUnstake(unstakes[k]);
      }
    }

    /**
     Finalize: afterwards neither the block's transactions nor any of their senders is in the pool, and exactly the
     pending transactions of other senders are left.
     */
    method Finalize(ts: seq<Transaction>)
      requires Valid() && forall t | t in ts :: t in known && (t.kind == SYSTEM_UNSTAKE ==> t.inputs != [])
      modifies this`txHashMap, this`txSenderMap, this`pending
      ensures Valid() && Within(old(txHashMap).Keys, old(txSenderMap).Keys)
      ensures forall i | 0 <= i < |ts| && Cleans(ts[i].kind) :: Gone(ts[i], txHashMap.Keys, txSenderMap.Keys)
      ensures forall x | x in pending :: x in old(pending)
      ensures forall x | x in old(pending) && !SenderIn(ts, Sender(x)) :: x in pending
    {
      var unstakes: seq<Transaction> := [];
      for k := 0 to |ts|
        invariant Valid() && Within(old(txHashMap).Keys, old(txSenderMap).Keys)
        invariant forall i | 0 <= i < k && Cleans(ts[i].kind) :: Gone(ts[i], txHashMap.Keys, txSenderMap.Keys)
        invariant forall t | t in unstakes :: t in ts && t.inputs != [] && Cleans(t.kind)
        invariant forall x | x in pending :: x in old(pending)
        invariant forall x | x in old(pending) && !SenderIn(ts, Sender(x)) :: x in pending
      {
        if ts[k].kind == SYSTEM_UNSTAKE {
          unstakes := unstakes + [ts[k]];
        }
        if ts[k].kind != FEE && ts[k].kind != REWARD {
          ghost var hashes, senders := txHashMap.Keys, txSenderMap.Keys;
          FinalizeOne(ts[k]);
          StaysGone(ts, k, hashes, senders, txHashMap.Keys, txSenderMap.Keys);
        }
      }
      ghost var hashes, senders := txHashMap.Keys, txSenderMap.Keys;
      SendersAmong(unstakes, ts);
      CleanUpAll(unstakes);
      StaysGone(ts, |ts|, hashes, senders, txHashMap.Keys, txSenderMap.Keys);
    }

    static lemma SendersAmong(unstakes: seq<Transaction>, ts: seq<Transaction>)
      requires forall t | t in unstakes :: t in ts
      ensures forall a | SenderIn(unstakes, a) :: SenderIn(ts, a)
    {
      forall a | SenderIn(unstakes, a) ensures SenderIn(ts, a) {
        var i :| 0 <= i < |unstakes| && Cleans(unstakes[i].kind) && Sender(unstakes[i]) == a;
        assert unstakes[i] in ts;
        var j :| 0 <= j < |ts| && ts[j] == unstakes[i];
        assert Sender(ts[j]) == a;
      }
    }

    static lemma StaysGone(ts: seq<Transaction>, n: nat, hashes: set<bytes>, senders: set<bytes>, hashes': set<bytes>, senders': set<bytes>)
      requires n <= |ts| && hashes' <= hashes && senders' <= senders
      requires forall i | 0 <= i < n && Cleans(ts[i].kind) :: Gone(ts[i], hashes, senders)
      ensures forall i | 0 <= i < n && Cleans(ts[i].kind) :: Gone(ts[i], hashes', senders')
    {
    }

    /** The forger marks what it takes; ClearForged takes the marks of held transactions back. */
    method Forge(t: Transaction)
      modifies this`forged
      ensures forged == old(forged) + {t.hash}
    {
      forged := forged + {t.hash};
    }

    method ClearForged(ts: seq<Transaction>)
      modifies this`forged
      ensures forged == old(forged) - set i | 0 <= i < |ts| && ts[i].hash in txHashMap :: ts[i].hash
    {
      for k := 0 to |ts|
        invariant forged == old(forged) - set i | 0 <= i < k && ts[i].hash in txHashMap :: ts[i].hash
      {
        if ts[k].hash in txHashMap {
          forged := forged - {ts[k].hash};
        }
      }
    }

    /** What callers of the operations guarantee. */
    ghost predicate Lawful(op: Op)
    {
      match op
      case DoInsert(t, valid) => t in known && (valid ==> IsStandard(t.kind))
      case DoInsertCollapse(ts) => forall t | t in ts :: t in known
      case DoFinalize(ts) => forall t | t in ts :: t in known && (t.kind == SYSTEM_UNSTAKE ==> t.inputs != [])
      case DoDelete(t) => t in known
      case _ => true
    }

    static lemma FewerKeys(m: map<bytes, Transaction>, n: map<bytes, Transaction>)
      requires m.Keys <= n.Keys
      ensures |m| <= |n|
    {
      SmallerSet(m.Keys, n.Keys);
    }

    static lemma {:induction false} SmallerSet(a: set<bytes>, b: set<bytes>)
      requires a <= b
      ensures |a| <= |b|
    {
      if a != {} {
        var x :| x in a;
        SmallerSet(a - {x}, b - {x});
      }
    }

    method Perform(op: Op)
      requires Valid() && Lawful(op)
      modifies this
      ensures Valid()
      ensures !op.DoInsertCollapse? && |old(txHashMap)| <= MAX_TX_COUNT - 2 ==> |txHashMap| <= MAX_TX_COUNT - 2
    {
      match op {
        case DoInsert(t, valid) => var a, e, i := Insert(t, valid);
        case DoInsertCollapse(ts) => var ok, n := InsertCollapseTx(ts);
        case DoFinalize(ts) => Finalize(ts); FewerKeys(txHashMap, old(txHashMap));
        case DoDelete(t) =>
          var ok := DeleteTransaction(t);
          if ok {
            assert txHashMap.Keys == old(txHashMap).Keys - {t.hash};
            FewerKeys(txHashMap, old(txHashMap));
          }
        case DoGetQueue => var q := GetQueue();
        case DoForge(t) => Forge(t);
        case DoClearForged(ts) => ClearForged(ts);
      }
    }

    /** Any sequence of operations keeps the views in agreement; without collapse transactions 998 entries are enough. */
    method Run(ops: seq<Op>)
      requires Valid() && txHashMap == map[] && forall op | op in ops :: Lawful(op)
      modifies this
      ensures Valid()
      ensures (forall op | op in ops :: !op.DoInsertCollapse?) ==> |txHashMap| <= MAX_TX_COUNT - 2
    {
      for k := 0 to |ops|
        invariant Valid()
        invariant (forall op | op in ops[..k] :: !op.DoInsertCollapse?) ==> |txHashMap| <= MAX_TX_COUNT - 2
      {
        assert ops[..k + 1] == ops[..k] + [ops[k]];
        Perform(ops[k]);
      }
      assert ops[..|ops|] == ops;
    }
  }
}
