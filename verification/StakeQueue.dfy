/** The stakes of the forger's queue: which of them a block takes (forger.go, the loop of ForgeBlock). */
module StakeQueue {
  import opened Words
  import opened Proto
  import opened Ledger
  import opened Validator
  import opened Staking
  import opened StakeBatches

  // ----- one stake

  /** An output that may not be in a stake of this sender: own stake of no validator, or a validator's on another. */
  ghost predicate BadStake(known: bytes -> bool, from: bytes, o: TxOutput)
  {
    || (Address(o.node) == BLACK_HOLE && !known(from))
    || (known(Address(o.node)) && known(from))
  }

  ghost predicate IsStaking(o: TxOutput)
  {
    |Address(o.node)| == 20
  }

  ghost predicate NoneBad(known: bytes -> bool, from: bytes, outs: seq<TxOutput>)
  {
    forall i | 0 <= i < |outs| :: !BadStake(known, from, outs[i])
  }

  ghost predicate SomeStake(outs: seq<TxOutput>)
  {
    exists i | 0 <= i < |outs| :: IsStaking(outs[i])
  }

  lemma StakePushed(known: bytes -> bool, from: bytes, outs: seq<TxOutput>, o: TxOutput)
    ensures NoneBad(known, from, outs + [o]) <==> NoneBad(known, from, outs) && !BadStake(known, from, o)
    ensures SomeStake(outs + [o]) <==> SomeStake(outs) || IsStaking(o)
  {
    assert (outs + [o])[|outs|] == o;
    assert forall i | 0 <= i < |outs| :: (outs + [o])[i] == outs[i];
  }

  /** A stake that the forger may take, as far as slots allow. */
  ghost predicate FreeToStake(known: bytes -> bool, t: Transaction)
  {
    NoneBad(known, Sender(t), t.outputs) && SomeStake(t.outputs)
  }

  /** A stake without a forbidden output that stakes nothing: it is refused without an error. */
  ghost predicate Idle(known: bytes -> bool, t: Transaction)
  {
    NoneBad(known, Sender(t), t.outputs) && !SomeStake(t.outputs)
  }

  function ReserveOwn(p: Params, s: Pool, amount: u64): Outcome
    requires ValidParams(p)
  {
    if amount > 0 then Reserve(p, s, amount) else Outcome(true, s)
  }

  /** How a stake fares when it is its turn: failed tells that an error of an earlier one is still set. */
  ghost predicate Ruled(known: bytes -> bool, p: Params, s: Pool, t: Transaction, failed: bool, took: bool, failed': bool)
    requires ValidParams(p)
  {
    && (took <==> !failed && FreeToStake(known, t) && ReserveOwn(p, s, ValidatorAmount(t.outputs)).ok)
    && (failed' <==> failed || (!took && !Idle(known, t)))
  }

  // ----- the stakes of a list

  ghost function StakesOf(ts: seq<Transaction>): (r: seq<Transaction>)
    ensures forall t | t in r :: t.kind == STAKE && t in ts
  {
    if ts == [] then []
    else
      var t := ts[|ts| - 1];
      StakesOf(ts[..|ts| - 1]) + (if t.kind == STAKE then [t] else [])
  }

  lemma StakesPush(batch: seq<Transaction>, t: Transaction)
    ensures StakesOf(batch + [t]) == if t.kind == STAKE then StakesOf(batch) + [t] else StakesOf(batch)
  {
    assert (batch + [t])[..|batch|] == batch;
  }

  /** Slots were reserved for exactly the validator stakes of the batch, each in turn. */
  ghost predicate Reserved(p: Params, before: Pool, batch: seq<Transaction>, now: Pool)
    requires ValidParams(p)
  {
    ReserveAll(p, before, Validators(StakesOf(batch))) == Outcome(true, now)
  }

  lemma ReservedPush(p: Params, before: Pool, batch: seq<Transaction>, now: Pool, t: Transaction, now': Pool)
    requires ValidParams(p) && Reserved(p, before, batch, now)
    requires if t.kind == STAKE then ReserveOwn(p, now, ValidatorAmount(t.outputs)) == Outcome(true, now') else now' == now
    ensures Reserved(p, before, batch + [t], now')
  {
    StakesPush(batch, t);
    if t.kind == STAKE {
      ValidatorsPush(StakesOf(batch), t);
      var own := ValidatorAmount(t.outputs);
      if own > 0 {
        ReserveAllPush(p, before, Validators(StakesOf(batch)), own);
      }
    }
  }

  lemma ValidatorsPush(stakes: seq<Transaction>, t: Transaction)
    ensures var own := ValidatorAmount(t.outputs);
      Validators(stakes + [t]) == if own > 0 then Validators(stakes) + [own] else Validators(stakes)
  {
    assert (stakes + [t])[..|stakes|] == stakes;
  }

  lemma ReserveAllPush(p: Params, s: Pool, amounts: seq<u64>, amount: u64)
    requires ValidParams(p) && ReserveAll(p, s, amounts).ok
    ensures ReserveAll(p, s, amounts + [amount]) == Reserve(p, ReserveAll(p, s, amounts).pool, amount)
  {
    assert (amounts + [amount])[..|amounts|] == amounts;
  }

  // ----- the queue

  /** What the stake puts on the black hole is nothing, or whole slots that are free after those of the earlier ones. */
  ghost predicate SlotsFree(p: Params, s: Pool, earlier: seq<Transaction>, t: Transaction)
    requires ValidParams(p)
  {
    var own := ValidatorAmount(t.outputs);
    own == 0 || (own % p.unit == 0 && s.filled + s.reserved + Slots(p, Validators(earlier)) + own / p.unit <= p.limit)
  }

  lemma {:induction false} ReservedSlots(p: Params, s: Pool, amounts: seq<u64>)
    requires ValidParams(p) && ReserveAll(p, s, amounts).ok
    ensures ReserveAll(p, s, amounts).pool == s.(reserved := s.reserved + Slots(p, amounts))
  {
    if amounts != [] {
      ReservedSlots(p, s, amounts[..|amounts| - 1]);
    }
  }

  lemma OneSlot(amount: u64, unit: u64)
    requires unit > 0 && amount > 0 && amount % unit == 0
    ensures amount / unit > 0
  {
  }

  lemma ReserveOwnMeans(p: Params, s: Pool, now: Pool, earlier: seq<Transaction>, t: Transaction)
    requires ValidParams(p) && ReserveAll(p, s, Validators(earlier)) == Outcome(true, now)
    ensures ReserveOwn(p, now, ValidatorAmount(t.outputs)).ok <==> SlotsFree(p, s, earlier, t)
  {
    ReservedSlots(p, s, Validators(earlier));
    var own := ValidatorAmount(t.outputs);
    if own > 0 && own % p.unit == 0 { OneSlot(own, p.unit); }
  }

  ghost predicate OwnSenders(queue: seq<Transaction>)
  {
    forall i, j | 0 <= i < j < |queue| :: Sender(queue[i]) != Sender(queue[j])
  }

  /** A stake at position i of the queue that was not evicted. */
  ghost predicate StakeAt(queue: seq<Transaction>, i: nat, dropped: set<bytes>)
    requires i < |queue|
  {
    queue[i].kind == STAKE && queue[i].hash !in dropped
  }

  /** A stake that was refused with an error, which refuses every later stake too. */
  ghost predicate Spoils(known: bytes -> bool, queue: seq<Transaction>, i: nat, dropped: set<bytes>, ts: seq<Transaction>)
    requires i < |queue|
  {
    StakeAt(queue, i, dropped) && queue[i] !in ts && !Idle(known, queue[i])
  }

  ghost predicate Spoilt(known: bytes -> bool, queue: seq<Transaction>, k: nat, dropped: set<bytes>, ts: seq<Transaction>)
    requires k <= |queue|
  {
    exists i | 0 <= i < k :: Spoils(known, queue, i, dropped, ts)
  }

  /** The stakes among the first k of the queue that were taken. */
  ghost function StakesBefore(queue: seq<Transaction>, k: nat, ts: seq<Transaction>): seq<Transaction>
    requires k <= |queue|
  {
    if k == 0 then []
    else StakesBefore(queue, k - 1, ts) + (if queue[k - 1].kind == STAKE && queue[k - 1] in ts then [queue[k - 1]] else [])
  }

  /**
   A transaction of the queue that was not evicted is taken, a stake exactly when its outputs are allowed and one of
   them stakes, no earlier stake was refused with an error, and its slots are free after those of the stakes taken
   before it.
   */
  ghost predicate DecidedAt(known: bytes -> bool, p: Params, s: Pool, queue: seq<Transaction>, j: nat, dropped: set<bytes>, ts: seq<Transaction>)
    requires ValidParams(p) && j < |queue|
  {
    && (queue[j].hash !in dropped && queue[j].kind != STAKE ==> queue[j] in ts)
    && (StakeAt(queue, j, dropped) ==>
         (queue[j] in ts <==>
           && FreeToStake(known, queue[j])
           && !Spoilt(known, queue, j, dropped, ts)
           && SlotsFree(p, s, StakesBefore(queue, j, ts), queue[j])))
  }

  ghost predicate Decided(known: bytes -> bool, p: Params, s: Pool, queue: seq<Transaction>, k: nat, dropped: set<bytes>, ts: seq<Transaction>)
    requires ValidParams(p) && k <= |queue|
  {
    forall j | 0 <= j < k :: DecidedAt(known, p, s, queue, j, dropped, ts)
  }

  /** A stake that was refused when it was its turn. */
  ghost predicate Refused(queue: seq<Transaction>, k: nat, dropped: set<bytes>, ts: seq<Transaction>, t: Transaction)
    requires k <= |queue|
  {
    exists j | 0 <= j < k :: StakeAt(queue, j, dropped) && queue[j] == t && t !in ts
  }

  /** Exactly the refused stakes have left the pending transactions. */
  ghost predicate OnlyRefusedLeft(queue: seq<Transaction>, k: nat, dropped: set<bytes>, ts: seq<Transaction>,
                                  before: seq<Transaction>, after: seq<Transaction>)
    requires k <= |queue|
  {
    forall t :: t in after <==> t in before && !Refused(queue, k, dropped, ts, t)
  }

  /** What is behind position k of the queue was not taken. */
  ghost predicate Ahead(queue: seq<Transaction>, k: nat, ts: seq<Transaction>)
    requires k <= |queue|
  {
    forall j | k <= j < |queue| :: queue[j] !in ts
  }

  // ----- the loop over the queue

  /** How things stand after the first k of the queue. */
  datatype Stand = Stand(batch: seq<Transaction>, failed: bool, pending: seq<Transaction>)

  ghost predicate StandsAt(known: bytes -> bool, p: Params, s: Pool, queue: seq<Transaction>, dropped: set<bytes>, before: seq<Transaction>,
                           k: nat, now: Stand)
    requires ValidParams(p) && k <= |queue|
  {
    && (now.failed <==> Spoilt(known, queue, k, dropped, now.batch))
    && StakesOf(now.batch) == StakesBefore(queue, k, now.batch)
    && Decided(known, p, s, queue, k, dropped, now.batch)
    && Ahead(queue, k, now.batch)
    && OnlyRefusedLeft(queue, k, dropped, now.batch, before, now.pending)
  }

  ghost predicate Stands(known: bytes -> bool, p: Params, s: Pool, queue: seq<Transaction>, dropped: set<bytes>, before: seq<Transaction>,
                         k: nat, now: Stand)
    requires ValidParams(p) && k <= |queue|
  {
    forall n: nat | n == k :: StandsAt(known, p, s, queue, dropped, before, n, now)
  }

  lemma StandsFirst(known: bytes -> bool, p: Params, s: Pool, queue: seq<Transaction>, dropped: set<bytes>, now: Stand)
    requires ValidParams(p) && !now.failed && StakesOf(now.batch) == [] && Ahead(queue, 0, now.batch)
    ensures Stands(known, p, s, queue, dropped, now.pending, 0, now)
  {
    assert StandsAt(known, p, s, queue, dropped, now.pending, 0, now);
  }

  /** What the turn of a transaction does. */
  ghost predicate Turn(known: bytes -> bool, p: Params, s: Pool, t: Transaction, dropped: set<bytes>, now: Stand, next: Stand)
    requires ValidParams(p)
  {
    && (next.batch == now.batch || next.batch == now.batch + [t])
    && (t.hash in dropped ==> next.batch == now.batch)
    && (t.hash !in dropped && t.kind != STAKE ==> next.batch == now.batch + [t])
    && (if t.kind == STAKE && t.hash !in dropped then
          var took := next.batch != now.batch;
          && Ruled(known, p, s, t, now.failed, took, next.failed)
          && (forall x :: x in next.pending <==> x in now.pending && (x == t ==> took))
        else next.failed == now.failed && forall x :: x in next.pending <==> x in now.pending)
  }

  lemma TurnTaken(known: bytes -> bool, p: Params, s: Pool, t: Transaction, dropped: set<bytes>, now: Stand, next: Stand)
    requires ValidParams(p) && t.hash !in dropped && next.batch == now.batch + [t] && next.pending == now.pending
    requires if t.kind == STAKE then Ruled(known, p, s, t, now.failed, true, next.failed) else next.failed == now.failed
    ensures Turn(known, p, s, t, dropped, now, next)
  {
    assert next.batch != now.batch;
  }

  lemma TurnRefused(known: bytes -> bool, p: Params, s: Pool, t: Transaction, dropped: set<bytes>, now: Stand, next: Stand)
    requires ValidParams(p) && t.hash !in dropped && t.kind == STAKE && next.batch == now.batch
    requires Ruled(known, p, s, t, now.failed, false, next.failed)
    requires forall x :: x in next.pending <==> x in now.pending && x != t
    ensures Turn(known, p, s, t, dropped, now, next)
  {
  }

  lemma OtherThan(queue: seq<Transaction>, i: nat, k: nat)
    requires i < |queue| && k < |queue| && i != k && OwnSenders(queue)
    ensures queue[i] != queue[k]
  {
  }

  lemma SameMember(queue: seq<Transaction>, i: nat, k: nat, batch: seq<Transaction>, batch': seq<Transaction>)
    requires i < |queue| && k < |queue| && i != k && OwnSenders(queue)
    requires batch' == batch || batch' == batch + [queue[k]]
    ensures queue[i] in batch' <==> queue[i] in batch
  {
    OtherThan(queue, i, k);
  }

  lemma {:induction false} BeforeStays(queue: seq<Transaction>, j: nat, k: nat, batch: seq<Transaction>, batch': seq<Transaction>)
    requires j <= k < |queue| && OwnSenders(queue)
    requires batch' == batch || batch' == batch + [queue[k]]
    ensures StakesBefore(queue, j, batch') == StakesBefore(queue, j, batch)
    decreases j
  {
    if j > 0 {
      SameMember(queue, j - 1, k, batch, batch');
      BeforeStays(queue, j - 1, k, batch, batch');
    }
  }

  lemma SpoiltStays(known: bytes -> bool, queue: seq<Transaction>, j: nat, k: nat, dropped: set<bytes>, batch: seq<Transaction>, batch': seq<Transaction>)
    requires j <= k < |queue| && OwnSenders(queue)
    requires batch' == batch || batch' == batch + [queue[k]]
    ensures Spoilt(known, queue, j, dropped, batch') <==> Spoilt(known, queue, j, dropped, batch)
  {
    forall i | 0 <= i < j ensures Spoils(known, queue, i, dropped, batch') <==> Spoils(known, queue, i, dropped, batch) {
      SameMember(queue, i, k, batch, batch');
    }
  }

  lemma DecidedStays(known: bytes -> bool, p: Params, s: Pool, queue: seq<Transaction>, k: nat, dropped: set<bytes>,
                     batch: seq<Transaction>, batch': seq<Transaction>)
    requires ValidParams(p) && k < |queue| && OwnSenders(queue) && Decided(known, p, s, queue, k, dropped, batch)
    requires batch' == batch || batch' == batch + [queue[k]]
    ensures Decided(known, p, s, queue, k, dropped, batch')
  {
    forall j | 0 <= j < k ensures DecidedAt(known, p, s, queue, j, dropped, batch') {
      assert DecidedAt(known, p, s, queue, j, dropped, batch);
      SameMember(queue, j, k, batch, batch');
      SpoiltStays(known, queue, j, k, dropped, batch, batch');
      BeforeStays(queue, j, k, batch, batch');
    }
  }

  /** The stake at position k is decided as its turn rules. */
  lemma DecidedNow(known: bytes -> bool, p: Params, s: Pool, queue: seq<Transaction>, k: nat, dropped: set<bytes>, before: seq<Transaction>,
                   now: Stand, pool: Pool, next: Stand)
    requires ValidParams(p) && k < |queue| && OwnSenders(queue) && StandsAt(known, p, s, queue, dropped, before, k, now)
    requires Reserved(p, s, now.batch, pool) && Turn(known, p, pool, queue[k], dropped, now, next)
    ensures DecidedAt(known, p, s, queue, k, dropped, next.batch)
  {
    if StakeAt(queue, k, dropped) {
      SpoiltStays(known, queue, k, k, dropped, now.batch, next.batch);
      BeforeStays(queue, k, k, now.batch, next.batch);
      ReserveOwnMeans(p, s, pool, StakesOf(now.batch), queue[k]);
      Took(now.batch, next.batch, queue[k]);
    }
  }

  lemma Took(batch: seq<Transaction>, batch': seq<Transaction>, t: Transaction)
    requires t !in batch && (batch' == batch || batch' == batch + [t])
    ensures batch' != batch <==> t in batch'
  {
  }

  lemma SpoiltNext(known: bytes -> bool, queue: seq<Transaction>, k: nat, dropped: set<bytes>, batch: seq<Transaction>, batch': seq<Transaction>)
    requires k < |queue| && OwnSenders(queue) && (batch' == batch || batch' == batch + [queue[k]])
    ensures Spoilt(known, queue, k + 1, dropped, batch') <==>
      Spoilt(known, queue, k, dropped, batch) || Spoils(known, queue, k, dropped, batch')
  {
    SpoiltStays(known, queue, k, k, dropped, batch, batch');
  }

  lemma BeforeNext(queue: seq<Transaction>, k: nat, batch: seq<Transaction>, batch': seq<Transaction>)
    requires k < |queue| && OwnSenders(queue) && queue[k] !in batch && (batch' == batch || batch' == batch + [queue[k]])
    requires StakesOf(batch) == StakesBefore(queue, k, batch)
    ensures StakesOf(batch') == StakesBefore(queue, k + 1, batch')
  {
    BeforeStays(queue, k, k, batch, batch');
    StakesPush(batch, queue[k]);
  }

  lemma RefusedNext(queue: seq<Transaction>, k: nat, dropped: set<bytes>, batch: seq<Transaction>, batch': seq<Transaction>, t: Transaction)
    requires k < |queue| && OwnSenders(queue) && (batch' == batch || batch' == batch + [queue[k]])
    ensures Refused(queue, k + 1, dropped, batch', t) <==>
      Refused(queue, k, dropped, batch, t) || (StakeAt(queue, k, dropped) && t == queue[k] && t !in batch')
  {
    forall j | 0 <= j < k
      ensures StakeAt(queue, j, dropped) && queue[j] == t && t !in batch' <==> StakeAt(queue, j, dropped) && queue[j] == t && t !in batch
    {
      SameMember(queue, j, k, batch, batch');
    }
  }

  lemma LeftNext(known: bytes -> bool, p: Params, pool: Pool, queue: seq<Transaction>, k: nat, dropped: set<bytes>, before: seq<Transaction>, now: Stand, next: Stand)
    requires ValidParams(p) && k < |queue| && OwnSenders(queue) && queue[k] !in now.batch
    requires OnlyRefusedLeft(queue, k, dropped, now.batch, before, now.pending) && Turn(known, p, pool, queue[k], dropped, now, next)
    ensures OnlyRefusedLeft(queue, k + 1, dropped, next.batch, before, next.pending)
  {
    Took(now.batch, next.batch, queue[k]);
    forall t ensures t in next.pending <==> t in before && !Refused(queue, k + 1, dropped, next.batch, t) {
      RefusedNext(queue, k, dropped, now.batch, next.batch, t);
    }
  }

  lemma AheadNext(queue: seq<Transaction>, k: nat, batch: seq<Transaction>, batch': seq<Transaction>)
    requires k < |queue| && OwnSenders(queue) && Ahead(queue, k, batch) && (batch' == batch || batch' == batch + [queue[k]])
    ensures Ahead(queue, k + 1, batch')
  {
    forall j | k + 1 <= j < |queue| ensures queue[j] !in batch' {
      SameMember(queue, j, k, batch, batch');
    }
  }

  lemma FailedNext(known: bytes -> bool, p: Params, queue: seq<Transaction>, k: nat, dropped: set<bytes>, now: Stand, pool: Pool, next: Stand)
    requires ValidParams(p) && k < |queue| && OwnSenders(queue) && queue[k] !in now.batch
    requires (now.failed <==> Spoilt(known, queue, k, dropped, now.batch)) && Turn(known, p, pool, queue[k], dropped, now, next)
    ensures next.failed <==> Spoilt(known, queue, k + 1, dropped, next.batch)
  {
    Took(now.batch, next.batch, queue[k]);
    SpoiltNext(known, queue, k, dropped, now.batch, next.batch);
  }

  lemma DecidedNext(known: bytes -> bool, p: Params, s: Pool, queue: seq<Transaction>, k: nat, dropped: set<bytes>, before: seq<Transaction>,
                    now: Stand, pool: Pool, next: Stand)
    requires ValidParams(p) && k < |queue| && OwnSenders(queue) && StandsAt(known, p, s, queue, dropped, before, k, now)
    requires Reserved(p, s, now.batch, pool) && Turn(known, p, pool, queue[k], dropped, now, next)
    ensures Decided(known, p, s, queue, k + 1, dropped, next.batch)
  {
    DecidedStays(known, p, s, queue, k, dropped, now.batch, next.batch);
    DecidedNow(known, p, s, queue, k, dropped, before, now, pool, next);
  }

  /** One turn of the loop. */
  lemma StandsNext(known: bytes -> bool, p: Params, s: Pool, queue: seq<Transaction>, dropped: set<bytes>, before: seq<Transaction>,
                   k: nat, now: Stand, pool: Pool, next: Stand)
    requires ValidParams(p) && k < |queue| && OwnSenders(queue) && Stands(known, p, s, queue, dropped, before, k, now)
    requires Reserved(p, s, now.batch, pool) && Turn(known, p, pool, queue[k], dropped, now, next)
    ensures Stands(known, p, s, queue, dropped, before, k + 1, next)
  {
    assert StandsAt(known, p, s, queue, dropped, before, k, now);
    DecidedNext(known, p, s, queue, k, dropped, before, now, pool, next);
    FailedNext(known, p, queue, k, dropped, now, pool, next);
    LeftNext(known, p, pool, queue, k, dropped, before, now, next);
    BatchNext(queue, k, now.batch, next.batch);
    StandsTogether(known, p, s, queue, dropped, before, k + 1, next);
  }

  lemma BatchNext(queue: seq<Transaction>, k: nat, batch: seq<Transaction>, batch': seq<Transaction>)
    requires k < |queue| && OwnSenders(queue) && (batch' == batch || batch' == batch + [queue[k]])
    requires StakesOf(batch) == StakesBefore(queue, k, batch) && Ahead(queue, k, batch)
    ensures StakesOf(batch') == StakesBefore(queue, k + 1, batch') && Ahead(queue, k + 1, batch')
  {
    BeforeNext(queue, k, batch, batch');
    AheadNext(queue, k, batch, batch');
  }

  lemma StandsTogether(known: bytes -> bool, p: Params, s: Pool, queue: seq<Transaction>, dropped: set<bytes>, before: seq<Transaction>,
                       k: nat, now: Stand)
    requires ValidParams(p) && k <= |queue|
    requires now.failed <==> Spoilt(known, queue, k, dropped, now.batch)
    requires StakesOf(now.batch) == StakesBefore(queue, k, now.batch)
    requires Decided(known, p, s, queue, k, dropped, now.batch) && Ahead(queue, k, now.batch)
    requires OnlyRefusedLeft(queue, k, dropped, now.batch, before, now.pending)
    ensures Stands(known, p, s, queue, dropped, before, k, now)
  {
    assert StandsAt(known, p, s, queue, dropped, before, k, now);
  }

  // ----- from the batch to the block

  ghost predicate SameStandards(batch: seq<Transaction>, ts: seq<Transaction>)
  {
    forall t: Transaction | IsStandard(t.kind) :: t in ts <==> t in batch
  }

  lemma {:induction false} SameBefore(queue: seq<Transaction>, k: nat, batch: seq<Transaction>, ts: seq<Transaction>)
    requires k <= |queue| && SameStandards(batch, ts)
    ensures StakesBefore(queue, k, ts) == StakesBefore(queue, k, batch)
  {
    if k > 0 {
      SameBefore(queue, k - 1, batch, ts);
    }
  }

  lemma SameSpoilt(known: bytes -> bool, queue: seq<Transaction>, k: nat, dropped: set<bytes>, batch: seq<Transaction>, ts: seq<Transaction>)
    requires k <= |queue| && SameStandards(batch, ts)
    ensures Spoilt(known, queue, k, dropped, ts) <==> Spoilt(known, queue, k, dropped, batch)
  {
    forall i | 0 <= i < k ensures Spoils(known, queue, i, dropped, ts) <==> Spoils(known, queue, i, dropped, batch) { }
  }

  /** The verdicts of the loop hold of the finished block, whose other transactions are no standard ones. */
  lemma DecidedInBlock(known: bytes -> bool, p: Params, s: Pool, queue: seq<Transaction>, k: nat, dropped: set<bytes>, before: seq<Transaction>,
                       after: seq<Transaction>, batch: seq<Transaction>, ts: seq<Transaction>)
    requires ValidParams(p) && k <= |queue| && SameStandards(batch, ts) && forall t | t in queue :: IsStandard(t.kind)
    requires Decided(known, p, s, queue, k, dropped, batch) && Ahead(queue, k, batch)
    requires OnlyRefusedLeft(queue, k, dropped, batch, before, after)
    ensures Decided(known, p, s, queue, k, dropped, ts) && Ahead(queue, k, ts)
    ensures OnlyRefusedLeft(queue, k, dropped, ts, before, after)
  {
    forall j | 0 <= j < k ensures DecidedAt(known, p, s, queue, j, dropped, ts) {
      assert DecidedAt(known, p, s, queue, j, dropped, batch);
      SameBefore(queue, j, batch, ts);
      SameSpoilt(known, queue, j, dropped, batch, ts);
    }
    forall t ensures Refused(queue, k, dropped, ts, t) <==> Refused(queue, k, dropped, batch, t) { }
  }
}
