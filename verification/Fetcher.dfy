/**
 The block fetcher (blockchain/sync/block_fetcher.go) with its consumer requestData (initial_sync.go): a main
 loop hands out requests, ten workers take a token and fetch, a handler delivers the stored batches in order, and
 the consumer gives the token back. Every interleaving of their steps is a run of this state machine.
 */
module Fetcher {
  import opened Words
  import opened Proto
  import R = BlockRange

  const PER_REQUEST: nat := 64
  const WORKERS: nat := 10
  const TOKENS: nat := 10
  const AHEAD: nat := 10

  datatype Range = Range(start: nat, end: nat)

  datatype Batch = Batch(range: Range, blocks: seq<Block>)

  datatype Worker = Idle | Assigned(range: Range) | Fetching(range: Range)

  /** The consumer waits, or processes a batch, or has returned. */
  datatype Consumer = Waiting | Processing | Finished | Aborted

  /**
   next is the main loop's start, target the handler's slot, sent says that the handler has sent the batch of
   its slot but not deleted it yet; requested and delivered are what happened so far.
   */
  datatype State = State(
    next: nat, workers: seq<Worker>, tokens: nat, data: map<nat, Batch>, target: nat, sent: bool,
    consumer: Consumer, requested: seq<Range>, delivered: seq<Batch>, lost: nat)

  datatype Job = Job(start: nat, end: nat)

  datatype Step =
    | Request(w: nat)
    | TakeToken(w: nat)
    | Store(w: nat, blocks: seq<Block>)
    | Fail(w: nat)
    | Deliver
    | Delete
    | GiveToken
    | Reject
    | Close

  function Initial(job: Job): State
  {
    State(job.start, seq(WORKERS, _ => Idle), TOKENS, map[], job.start, false, Waiting, [], [], 0)
  }

  function Cut(job: Job, start: nat): Range
  {
    Range(start, if start + PER_REQUEST > job.end then job.end else start + PER_REQUEST)
  }

  /** The request that is sent for a range: ten blocks more than its length, and one more from slot 0. */
  function Sent(range: Range): R.BlockRequest
    requires range.start <= range.end
  {
    R.BlockRequest(range.start, range.end - range.start + AHEAD + (if range.start == 0 then 1 else 0), 1)
  }

  predicate Enabled(job: Job, s: State, step: Step)
  {
    match step
    case Request(w) => s.next < job.end && w < |s.workers| && s.workers[w].Idle?
    case TakeToken(w) => w < |s.workers| && s.workers[w].Assigned? && s.tokens > 0
    case Store(w, _) => w < |s.workers| && s.workers[w].Fetching?
    case Fail(w) => w < |s.workers| && s.workers[w].Fetching? && s.consumer == Waiting
    case Deliver => s.target < job.end && !s.sent && s.target in s.data && s.consumer == Waiting
    case Delete => s.sent
    case GiveToken => s.consumer == Processing && s.tokens < TOKENS
    case Reject => s.consumer == Processing
    case Close => s.target >= job.end && !s.sent && s.consumer == Waiting
  }

  function Apply(job: Job, s: State, step: Step): State
    requires Enabled(job, s, step)
  {
    match step
    case Request(w) =>
      var range := Cut(job, s.next);
      s.(workers := s.workers[w := Assigned(range)], next := s.next + PER_REQUEST, requested := s.requested + [range])
    case TakeToken(w) => s.(workers := s.workers[w := Fetching(s.workers[w].range)], tokens := s.tokens - 1)
    case Store(w, blocks) =>
      var range := s.workers[w].range;
      s.(workers := s.workers[w := Idle], data := s.data[range.start := Batch(range, blocks)])
    case Fail(w) => s.(workers := s.workers[w := Idle], consumer := Aborted, lost := s.lost + 1)
    case Deliver => s.(sent := true, consumer := Processing, delivered := s.delivered + [s.data[s.target]])
    case Delete => s.(sent := false, data := s.data - {s.target}, target := s.target + PER_REQUEST)
    case GiveToken => s.(consumer := Waiting, tokens := s.tokens + 1)
    case Reject => s.(consumer := Aborted, lost := s.lost + 1)
    case Close => s.(consumer := Finished)
  }

  // ----- order

  /** The slot at which request i starts. */
  function Slot(job: Job, i: nat): nat
  {
    job.start + PER_REQUEST * i
  }

  /** Requests go out in order and without gaps; so do deliveries. */
  ghost predicate Ordered(job: Job, s: State)
  {
    && s.next == Slot(job, |s.requested|)
    && (forall i | 0 <= i < |s.requested| :: s.requested[i] == Cut(job, Slot(job, i)) && Slot(job, i) < job.end)
    && |s.delivered| <= |s.requested|
    && (forall i | 0 <= i < |s.delivered| :: s.delivered[i].range == Cut(job, Slot(job, i)))
    && (s.sent ==> |s.delivered| > 0)
    && s.target == Slot(job, Kept(s))
  }

  /** Batches that are delivered and deleted. */
  function Kept(s: State): nat
  {
    if s.sent && |s.delivered| > 0 then |s.delivered| - 1 else |s.delivered|
  }

  // ----- places

  /** The range of a request with a number from lo on that was handed out. */
  ghost predicate Open(job: Job, s: State, lo: nat, range: Range)
  {
    && range == Cut(job, range.start)
    && Slot(job, lo) <= range.start < s.next
    && (range.start - job.start) % PER_REQUEST == 0
  }

  ghost predicate WorkerOk(job: Job, s: State, w: nat)
    requires w < |s.workers|
  {
    s.workers[w].Idle? || (Open(job, s, |s.delivered|, s.workers[w].range) && s.workers[w].range.start !in s.data)
  }

  ghost predicate Placed(job: Job, s: State)
  {
    && |s.workers| == WORKERS
    && (forall w | 0 <= w < |s.workers| :: WorkerOk(job, s, w))
    && (forall w, v | 0 <= w < v < |s.workers| && !s.workers[w].Idle? && !s.workers[v].Idle? ::
         s.workers[w].range.start != s.workers[v].range.start)
    && (forall k | k in s.data :: s.data[k].range.start == k && Open(job, s, Kept(s), s.data[k].range))
    && (s.sent ==> s.target in s.data)
  }

  // ----- tokens

  function Fetchers(workers: seq<Worker>): nat
  {
    if workers == [] then 0
    else Fetchers(workers[..|workers| - 1]) + (if workers[|workers| - 1].Fetching? then 1 else 0)
  }

  /** Batches being fetched, stored but not delivered, or delivered and still being processed. */
  function InFlight(s: State): int
  {
    Fetchers(s.workers) + |s.data| - (if s.sent then 1 else 0) + (if s.consumer == Processing then 1 else 0)
  }

  /** Every token is in the buffer, or stands for a batch in flight, or is lost with the consumer gone. */
  ghost predicate Counted(s: State)
  {
    s.tokens + InFlight(s) + s.lost == TOKENS && InFlight(s) >= 0
  }

  lemma {:induction false} FetchersUpdate(workers: seq<Worker>, w: nat, x: Worker)
    requires w < |workers|
    ensures Fetchers(workers[w := x])
      == Fetchers(workers) - (if workers[w].Fetching? then 1 else 0) + (if x.Fetching? then 1 else 0)
    decreases |workers|
  {
    var n := |workers| - 1;
    if w < n {
      FetchersUpdate(workers[..n], w, x);
      assert workers[w := x][..n] == workers[..n][w := x];
    } else {
      assert workers[w := x][..n] == workers[..n];
    }
  }

  lemma {:induction false} NoFetchers(workers: seq<Worker>)
    requires forall w | 0 <= w < |workers| :: workers[w].Idle?
    ensures Fetchers(workers) == 0
  {
    if workers != [] {
      NoFetchers(workers[..|workers| - 1]);
    }
  }

  ghost predicate Inv(job: Job, s: State)
  {
    Ordered(job, s) && Placed(job, s) && Counted(s)
  }

  lemma InitialInv(job: Job)
    ensures Inv(job, Initial(job))
  {
    NoFetchers(Initial(job).workers);
  }

  lemma KeepsOrder(job: Job, s: State, step: Step)
    requires Inv(job, s) && Enabled(job, s, step)
    ensures Ordered(job, Apply(job, s, step))
  {
    if step.Deliver? {
      DeliverNext(job, s);
    }
  }

  /** What is delivered next is the batch right after the last one. */
  lemma DeliverNext(job: Job, s: State)
    requires Inv(job, s) && Enabled(job, s, Deliver)
    ensures s.data[s.target].range == Cut(job, Slot(job, |s.delivered|)) && |s.delivered| < |s.requested|
  {
    assert Open(job, s, Kept(s), s.data[s.target].range);
  }

  lemma KeepsTokens(job: Job, s: State, step: Step)
    requires Inv(job, s) && Enabled(job, s, step)
    ensures Counted(Apply(job, s, step))
  {
    match step
    case Request(w) => FetchersUpdate(s.workers, w, Assigned(Cut(job, s.next)));
    case TakeToken(w) => FetchersUpdate(s.workers, w, Fetching(s.workers[w].range));
    case Store(w, blocks) =>
      FetchersUpdate(s.workers, w, Idle);
      assert WorkerOk(job, s, w);
    case Fail(w) => FetchersUpdate(s.workers, w, Idle);
    case Delete => assert (s.data - {s.target}).Keys == s.data.Keys - {s.target};
    case _ =>
  }

  lemma Later(job: Job, s: State, lo: nat, range: Range)
    requires Open(job, s, lo, range) && range.start != Slot(job, lo)
    ensures Slot(job, lo + 1) <= range.start
  {
    var k := (range.start - job.start) / PER_REQUEST;
    assert range.start == Slot(job, k);
  }

  lemma RequestPlaces(job: Job, s: State, w: nat)
    requires Inv(job, s) && Enabled(job, s, Request(w))
    ensures Placed(job, Apply(job, s, Request(w)))
  {
    var s' := Apply(job, s, Request(w));
    forall v | 0 <= v < |s'.workers| ensures WorkerOk(job, s', v) {
      assert WorkerOk(job, s, v);
    }
    forall v | 0 <= v < |s.workers| && v != w && !s.workers[v].Idle? ensures s.workers[v].range.start != s.next {
      assert WorkerOk(job, s, v);
    }
  }

  lemma TakePlaces(job: Job, s: State, w: nat)
    requires Inv(job, s) && Enabled(job, s, TakeToken(w))
    ensures Placed(job, Apply(job, s, TakeToken(w)))
  {
    var s' := Apply(job, s, TakeToken(w));
    forall v | 0 <= v < |s'.workers| ensures WorkerOk(job, s', v) {
      assert WorkerOk(job, s, v);
    }
  }

  lemma StorePlaces(job: Job, s: State, w: nat, blocks: seq<Block>)
    requires Inv(job, s) && Enabled(job, s, Store(w, blocks))
    ensures Placed(job, Apply(job, s, Store(w, blocks)))
  {
    var s' := Apply(job, s, Store(w, blocks));
    assert WorkerOk(job, s, w);
    forall v | 0 <= v < |s'.workers| ensures WorkerOk(job, s', v) {
      assert WorkerOk(job, s, v);
    }
  }

  lemma FailPlaces(job: Job, s: State, w: nat)
    requires Inv(job, s) && Enabled(job, s, Fail(w))
    ensures Placed(job, Apply(job, s, Fail(w)))
  {
    var s' := Apply(job, s, Fail(w));
    forall v | 0 <= v < |s'.workers| ensures WorkerOk(job, s', v) {
      assert WorkerOk(job, s, v);
    }
  }

  lemma DeliverPlaces(job: Job, s: State)
    requires Inv(job, s) && Enabled(job, s, Deliver)
    ensures Placed(job, Apply(job, s, Deliver))
  {
    var s' := Apply(job, s, Deliver);
    forall v | 0 <= v < |s'.workers| ensures WorkerOk(job, s', v) {
      assert WorkerOk(job, s, v);
      if !s.workers[v].Idle? {
        Later(job, s, |s.delivered|, s.workers[v].range);
      }
    }
    forall k | k in s'.data ensures Open(job, s', Kept(s'), s'.data[k].range) {
      assert Open(job, s, Kept(s), s.data[k].range);
    }
  }

  lemma DeletePlaces(job: Job, s: State)
    requires Inv(job, s) && Enabled(job, s, Delete)
    ensures Placed(job, Apply(job, s, Delete))
  {
    var s' := Apply(job, s, Delete);
    forall v | 0 <= v < |s'.workers| ensures WorkerOk(job, s', v) {
      assert WorkerOk(job, s, v);
    }
    forall k | k in s'.data ensures s'.data[k].range.start == k && Open(job, s', Kept(s'), s'.data[k].range) {
      assert Open(job, s, Kept(s), s.data[k].range);
      Later(job, s, Kept(s), s.data[k].range);
    }
  }

  lemma QuietPlaces(job: Job, s: State, step: Step)
    requires Inv(job, s) && Enabled(job, s, step) && (step.GiveToken? || step.Reject? || step.Close?)
    ensures Placed(job, Apply(job, s, step))
  {
    var s' := Apply(job, s, step);
    forall v | 0 <= v < |s'.workers| ensures WorkerOk(job, s', v) {
      assert WorkerOk(job, s, v);
    }
    forall k | k in s'.data ensures Open(job, s', Kept(s'), s'.data[k].range) {
      assert Open(job, s, Kept(s), s.data[k].range);
    }
  }

  /** Every step of every process keeps the invariant. */
  lemma StepKeeps(job: Job, s: State, step: Step)
    requires Inv(job, s) && Enabled(job, s, step)
    ensures Inv(job, Apply(job, s, step))
  {
    KeepsOrder(job, s, step);
    KeepsTokens(job, s, step);
    KeepsPlaces(job, s, step);
  }

  lemma KeepsPlaces(job: Job, s: State, step: Step)
    requires Inv(job, s) && Enabled(job, s, step)
    ensures Placed(job, Apply(job, s, step))
  {
    match step
    case Request(w) => RequestPlaces(job, s, w);
    case TakeToken(w) => TakePlaces(job, s, w);
    case Store(w, blocks) => StorePlaces(job, s, w, blocks);
    case Fail(w) => FailPlaces(job, s, w);
    case Deliver => DeliverPlaces(job, s);
    case Delete => DeletePlaces(job, s);
    case _ => QuietPlaces(job, s, step);
  }

  // ----- runs

  /** One process does one step. */
  ghost predicate Next(job: Job, s: State, step: Step, s': State)
  {
    Enabled(job, s, step) && s' == Apply(job, s, step)
  }

  ghost predicate Run(job: Job, states: seq<State>, steps: seq<Step>)
  {
    && |states| == |steps| + 1
    && states[0] == Initial(job)
    && forall k | 0 <= k < |steps| :: Next(job, states[k], steps[k], states[k + 1])
  }

  lemma {:induction false} RunInv(job: Job, states: seq<State>, steps: seq<Step>, k: nat)
    requires Run(job, states, steps) && k <= |steps|
    ensures Inv(job, states[k])
  {
    if k == 0 {
      InitialInv(job);
    } else {
      RunInv(job, states, steps, k - 1);
      assert Next(job, states[k - 1], steps[k - 1], states[k - 1 + 1]);
      StepKeeps(job, states[k - 1], steps[k - 1]);
    }
  }

  /** In every state of every run the batches delivered so far are the first ones, in order, each once. */
  lemma DeliveredInOrder(job: Job, states: seq<State>, steps: seq<Step>, k: nat)
    requires Run(job, states, steps) && k <= |steps|
    ensures var d := states[k].delivered;
      forall i | 0 <= i < |d| :: d[i].range == Cut(job, Slot(job, i))
    ensures forall k' | 0 <= k' < k :: states[k'].delivered <= states[k].delivered
  {
    RunInv(job, states, steps, k);
    DeliveriesStay(job, states, steps, k);
  }

  lemma {:induction false} DeliveriesStay(job: Job, states: seq<State>, steps: seq<Step>, k: nat)
    requires Run(job, states, steps) && k <= |steps|
    ensures forall k' | 0 <= k' < k :: states[k'].delivered <= states[k].delivered
  {
    if k > 0 {
      DeliveriesStay(job, states, steps, k - 1);
      assert Next(job, states[k - 1], steps[k - 1], states[k - 1 + 1]);
      assert states[k - 1].delivered <= states[k].delivered;
    }
  }

  /** At most ten batches are in flight, and whenever the consumer gives a token back there is room for it. */
  lemma TokensNeverBlock(job: Job, states: seq<State>, steps: seq<Step>, k: nat)
    requires Run(job, states, steps) && k <= |steps|
    ensures 0 <= InFlight(states[k]) <= TOKENS
    ensures states[k].consumer == Processing ==> Enabled(job, states[k], GiveToken)
  {
    RunInv(job, states, steps, k);
    StoredCounts(job, states[k]);
  }

  lemma StoredCounts(job: Job, s: State)
    requires Inv(job, s)
    ensures |s.data| >= if s.sent then 1 else 0
  {
    if s.sent {
      assert s.target in s.data.Keys;
    }
  }

  // ----- what a completed run has delivered

  /** Servers answer a request from their forged blocks, up to both ends of what was asked for. */
  ghost predicate Answers(store: R.Store, range: Range, blocks: seq<Block>)
  {
    range.start <= range.end && blocks == R.Forged(store, range.start, R.End(Sent(range)) + 1)
  }

  ghost predicate Honest(store: R.Store, s: State)
  {
    && (forall k | k in s.data :: Answers(store, s.data[k].range, s.data[k].blocks))
    && (forall i | 0 <= i < |s.delivered| :: Answers(store, s.delivered[i].range, s.delivered[i].blocks))
  }

  /** A worker stores only what a server answered. */
  ghost predicate HonestStep(store: R.Store, s: State, step: Step)
  {
    step.Store? && step.w < |s.workers| && s.workers[step.w].Fetching? ==> Answers(store, s.workers[step.w].range, step.blocks)
  }

  lemma {:induction false} StaysHonest(store: R.Store, job: Job, states: seq<State>, steps: seq<Step>, k: nat)
    requires Run(job, states, steps) && k <= |steps| && forall j | 0 <= j < |steps| :: HonestStep(store, states[j], steps[j])
    ensures Honest(store, states[k])
  {
    if k > 0 {
      StaysHonest(store, job, states, steps, k - 1);
      assert Next(job, states[k - 1], steps[k - 1], states[k - 1 + 1]);
      assert HonestStep(store, states[k - 1], steps[k - 1]);
    }
  }

  /** The server takes the request that is sent, and the client takes its answer. */
  lemma RequestServed(store: R.Store, blockCount: nat, job: Job, start: nat)
    requires R.ValidStore(store) && start <= blockCount && start < job.end
    ensures Cut(job, start).start <= Cut(job, start).end
    ensures var req := Sent(Cut(job, start));
      R.ValidRequest(blockCount, req) && R.ClientAccepts(req, R.Forged(store, req.start, R.End(req) + 1))
  {
    R.StepOneAccepted(store, blockCount, Sent(Cut(job, start)));
  }

  lemma {:induction false} ForgedHas(store: R.Store, lo: nat, x: nat, hi: nat)
    requires lo <= x < hi && x in store
    ensures store[x] in R.Forged(store, lo, hi)
    decreases hi
  {
    if x < hi - 1 {
      ForgedHas(store, lo, x, hi - 1);
    }
  }

  ghost function Ranges(batches: seq<Batch>): (r: seq<Range>)
    ensures |r| == |batches|
  {
    seq(|batches|, i requires 0 <= i < |batches| => batches[i].range)
  }

  /** The request among the delivered ones that asked for a slot, the look-ahead behind the target included. */
  function RequestFor(job: Job, x: nat): nat
    requires job.start <= x && job.start < job.end
  {
    if x < job.end then (x - job.start) / PER_REQUEST else (job.end - 1 - job.start) / PER_REQUEST
  }

  lemma AskedFor(job: Job, x: nat)
    requires job.start <= x <= job.end + AHEAD && job.start < job.end
    ensures var range := Cut(job, Slot(job, RequestFor(job, x)));
      Slot(job, RequestFor(job, x)) < job.end && range.start <= range.end && range.start <= x <= R.End(Sent(range))
  {
    var i := RequestFor(job, x);
    var y := if x < job.end then x else job.end - 1;
    assert Slot(job, i) <= y < Slot(job, i + 1);
  }

  /**
   When the consumer has seen the end, every request was delivered, and the batches hold every forged block from the
   start up to the target, the target itself and the ten slots behind it included.
   */
  lemma CompletedRunCovers(store: R.Store, job: Job, states: seq<State>, steps: seq<Step>, k: nat, x: nat)
    requires Run(job, states, steps) && k < |steps| && steps[k].Close?
    requires forall j | 0 <= j < |steps| :: HonestStep(store, states[j], steps[j])
    requires job.start < job.end && job.start <= x <= job.end + AHEAD
    ensures Ranges(states[k].delivered) == states[k].requested
    ensures var i := RequestFor(job, x); i < |states[k].delivered| && (x in store ==> store[x] in states[k].delivered[i].blocks)
  {
    var s, i := states[k], RequestFor(job, x);
    RunInv(job, states, steps, k);
    StaysHonest(store, job, states, steps, k);
    assert Next(job, states[k], steps[k], states[k + 1]);
    assert |s.requested| == |s.delivered|;
    AskedFor(job, x);
    assert i < |s.delivered|;
    assert Answers(store, s.delivered[i].range, s.delivered[i].blocks);
    if x in store {
      ForgedHas(store, Slot(job, i), x, R.End(Sent(s.delivered[i].range)) + 1);
    }
  }
}
