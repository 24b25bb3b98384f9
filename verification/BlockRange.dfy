/** Serving and receiving block ranges (blockchain/sync/block_handlers.go, GetBlocksRange in rdochain/service.go). */
module BlockRange {
  import opened Words
  import opened Proto

  const MAX_COUNT: nat := 2000
  const MAX_STEP: nat := 500
  const PER_REQUEST: nat := 64

  datatype BlockRequest = BlockRequest(start: nat, count: nat, step: nat)

  /** Forged blocks by number. */
  type Store = map<nat, Block>

  ghost predicate ValidStore(store: Store)
  {
    forall k | k in store :: store[k].num == k
  }

  function End(req: BlockRequest): nat
  {
    req.start + req.count * req.step
  }

  /** The forged blocks with numbers from lo up to, not including, hi; numbers without a block are skipped. */
  function Forged(store: Store, lo: nat, hi: nat): seq<Block>
  {
    if hi <= lo then []
    else Forged(store, lo, hi - 1) + (if hi - 1 in store then [store[hi - 1]] else [])
  }

  lemma {:induction false} ForgedSplit(store: Store, lo: nat, mid: nat, hi: nat)
    requires lo <= mid <= hi
    ensures Forged(store, lo, hi) == Forged(store, lo, mid) + Forged(store, mid, hi)
    decreases hi
  {
    if mid < hi {
      ForgedSplit(store, lo, mid, hi - 1);
    }
  }

  // ----- the server

  ghost predicate ValidRequest(blockCount: nat, req: BlockRequest)
  {
    req.count <= MAX_COUNT && 0 < req.step <= MAX_STEP && req.start <= blockCount
  }

  /** GetBlocksRange, both ends included. */
  method GetBlocksRange(store: Store, start: nat, end: nat) returns (blocks: seq<Block>)
    ensures blocks == Forged(store, start, end + 1)
  {
    blocks := [];
    var num := start;
    while num <= end
      invariant start <= num && (num <= end + 1 || num == start)
      invariant blocks == Forged(store, start, num)
      decreases end + 1 - num
    {
      if num in store {
        blocks := blocks + [store[num]];
      }
      num := num + 1;
    }
  }

  datatype Chunk = Chunk(lo: nat, hi: nat)

  /** Chunks follow each other without gap or overlap from start up to, not including, next; none is larger than 65. */
  ghost predicate Tiles(chunks: seq<Chunk>, start: nat, next: nat)
  {
    && (forall i | 0 <= i < |chunks| :: chunks[i].lo <= chunks[i].hi <= chunks[i].lo + PER_REQUEST)
    && (forall i | 0 <= i < |chunks| :: chunks[i].lo == if i == 0 then start else chunks[i - 1].hi + 1)
    && next == if chunks == [] then start else chunks[|chunks| - 1].hi + 1
  }

  /** blockRangeHandler: the chunks tile the requested range exactly, and the stream holds its forged blocks in order. */
  method Serve(store: Store, blockCount: nat, req: BlockRequest) returns (stream: Option<seq<Block>>, ghost chunks: seq<Chunk>)
    ensures stream.Some? <==> ValidRequest(blockCount, req)
    ensures stream.Some? ==> stream.value == Forged(store, req.start, End(req) + 1) && Tiles(chunks, req.start, End(req) + 1)
  {
    chunks := [];
    if req.count > MAX_COUNT || req.step == 0 || req.step > MAX_STEP || req.start > blockCount { return None, chunks; }
    var endReq := req.start + req.count * req.step;
    var startSlot, endSlot := req.start, req.start + PER_REQUEST;
    var blocks: seq<Block> := [];
    while startSlot <= endReq
      invariant req.start <= startSlot <= endReq + 1
      invariant startSlot <= endReq ==> startSlot <= endSlot <= startSlot + PER_REQUEST
      invariant blocks == Forged(store, req.start, startSlot)
      invariant Tiles(chunks, req.start, startSlot)
      decreases endReq + 1 - startSlot
    {
      if endSlot > endReq {
        endSlot := endReq;
      }
      var more := GetBlocksRange(store, startSlot, endSlot);
      ForgedSplit(store, req.start, startSlot, endSlot + 1);
      blocks := blocks + more;
      chunks := chunks + [Chunk(startSlot, endSlot)];
      startSlot := endSlot + 1;
      endSlot := endSlot + PER_REQUEST;
    }
    return Some(blocks), chunks;
  }

  // ----- the client

  /** Block b may follow block a in a stream of the given step. */
  ghost predicate Follows(step: nat, a: Block, b: Block)
    requires step > 0
  {
    a.num < b.num && (b.num - a.num) % step == 0
  }

  /** What the client checks of the i-th block. */
  ghost predicate Fits(req: BlockRequest, stream: seq<Block>, i: nat)
    requires i < |stream| && req.step > 0
  {
    && req.start <= stream[i].num <= End(req) + 1
    && (i > 0 ==> Follows(req.step, stream[i - 1], stream[i]))
  }

  /** The most blocks the client takes. */
  function Limit(req: BlockRequest): nat
  {
    var total := req.count * req.step + 1;
    if total < MAX_COUNT then total else MAX_COUNT
  }

  ghost predicate ClientAccepts(req: BlockRequest, stream: seq<Block>)
  {
    req.step > 0 && |stream| <= Limit(req) && forall i | 0 <= i < |stream| :: Fits(req, stream, i)
  }

  /** sendBlockRangeRequest on a stream that ends regularly. */
  method Receive(req: BlockRequest, stream: seq<Block>) returns (blocks: Option<seq<Block>>)
    ensures blocks == if ClientAccepts(req, stream) then Some(stream) else None
  {
    if req.step == 0 { return None; }
    var got: seq<Block> := [];
    var i := 0;
    while i < |stream|
      invariant i <= |stream| && got == stream[..i] && i <= Limit(req)
      invariant forall k | 0 <= k < i :: Fits(req, stream, k)
    {
      var ok := CheckBlock(req, stream, i);
      if !ok { return None; }
      got := got + [stream[i]];
      i := i + 1;
    }
    assert stream[..i] == stream;
    return Some(got);
  }

  /** The body of the receiving loop. */
  method CheckBlock(req: BlockRequest, stream: seq<Block>, i: nat) returns (ok: bool)
    requires i < |stream| && req.step > 0
    ensures ok <==> i < Limit(req) && Fits(req, stream, i)
  {
    var total := req.count * req.step + 1;
    var endSlot := req.start + total;
    if i >= total || i >= MAX_COUNT { return false; }
    if stream[i].num < req.start || stream[i].num > endSlot { return false; }
    return i == 0 || (stream[i - 1].num < stream[i].num && (stream[i].num - stream[i - 1].num) % req.step == 0);
  }

  // ----- both together

  lemma {:induction false} ForgedSorted(store: Store, lo: nat, hi: nat)
    requires ValidStore(store)
    ensures var f := Forged(store, lo, hi);
      && (hi >= lo ==> |f| <= hi - lo)
      && (forall i | 0 <= i < |f| :: lo <= f[i].num < hi && f[i].num in store && f[i] == store[f[i].num])
      && (forall i, j | 0 <= i < j < |f| :: f[i].num < f[j].num)
    decreases hi
  {
    if lo < hi {
      ForgedSorted(store, lo, hi - 1);
    }
  }

  lemma MultipleOfOne(d: int)
    ensures d % 1 == 0
  {
  }

  lemma NoMultiple(step: nat)
    requires step > 1
    ensures 1 % step != 0
  {
  }

  /** The server ignores the step: the client accepts exactly when all distances happen to be multiples of it. */
  lemma AnyStepAccepted(store: Store, blockCount: nat, req: BlockRequest)
    requires ValidStore(store) && ValidRequest(blockCount, req)
    ensures var f := Forged(store, req.start, End(req) + 1);
      ClientAccepts(req, f) <==> |f| <= MAX_COUNT && forall i | 1 <= i < |f| :: Follows(req.step, f[i - 1], f[i])
  {
    ForgedSorted(store, req.start, End(req) + 1);
    var f := Forged(store, req.start, End(req) + 1);
    if |f| <= MAX_COUNT && forall i | 1 <= i < |f| :: Follows(req.step, f[i - 1], f[i]) {
      forall i | 0 <= i < |f| ensures Fits(req, f, i) { }
    }
    if ClientAccepts(req, f) {
      forall i | 1 <= i < |f| ensures Follows(req.step, f[i - 1], f[i]) {
        assert Fits(req, f, i);
      }
    }
  }

  /** With step 1 and a count below 2000 the client always accepts what the server sends: the forged blocks of the range. */
  lemma StepOneAccepted(store: Store, blockCount: nat, req: BlockRequest)
    requires ValidStore(store) && ValidRequest(blockCount, req) && req.step == 1 && req.count < MAX_COUNT
    ensures ClientAccepts(req, Forged(store, req.start, End(req) + 1))
  {
    AnyStepAccepted(store, blockCount, req);
    ForgedSorted(store, req.start, End(req) + 1);
    var f := Forged(store, req.start, End(req) + 1);
    forall i | 1 <= i < |f| ensures Follows(req.step, f[i - 1], f[i]) {
      MultipleOfOne(f[i].num - f[i - 1].num);
    }
  }

  ghost predicate Linear(store: Store, head: nat)
  {
    forall k :: k in store <==> k <= head
  }

  lemma {:induction false} LinearForged(store: Store, head: nat, lo: nat, hi: nat)
    requires ValidStore(store) && Linear(store, head)
    ensures var f, top := Forged(store, lo, hi), if hi <= head + 1 then hi else head + 1;
      && |f| == (if lo <= top then top - lo else 0)
      && forall i | 0 <= i < |f| :: f[i].num == lo + i
    decreases hi
  {
    if lo < hi {
      LinearForged(store, head, lo, hi - 1);
    }
  }

  /** On a chain without gaps, the exchange works exactly for at most one block, or step 1 and at most 2000 blocks. */
  lemma LinearAccepted(store: Store, head: nat, req: BlockRequest)
    requires ValidStore(store) && Linear(store, head) && ValidRequest(head + 1, req)
    ensures var n := |Forged(store, req.start, End(req) + 1)|;
      ClientAccepts(req, Forged(store, req.start, End(req) + 1)) <==> n <= 1 || (req.step == 1 && n <= MAX_COUNT)
  {
    AnyStepAccepted(store, head + 1, req);
    LinearForged(store, head, req.start, End(req) + 1);
    var f := Forged(store, req.start, End(req) + 1);
    if |f| > 1 && req.step > 1 {
      NoMultiple(req.step);
      assert !Follows(req.step, f[1 - 1], f[1]);
    }
    if req.step == 1 {
      forall i | 1 <= i < |f| ensures Follows(req.step, f[i - 1], f[i]) {
        MultipleOfOne(f[i].num - f[i - 1].num);
      }
    }
  }
}
