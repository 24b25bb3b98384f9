/** Address nonces (blockchain/db/kv/pool.go): what the store records for the senders of a block's transactions. */
module Accounts {
  import opened Words
  import opened Proto
  import opened Ledger
  import opened Validator
  import opened BlockValidator

  type Nonces = map<bytes, u64>

  function Record(nonces: Nonces, a: bytes, num: u64): Nonces { nonces[a := num] }

  function NextNumber(n: u64): u64 { Wrap(n + 1) }

  /**
   One transaction in updateBlockAccountState: an unknown sender's number is stored; a known sender's must be the
   stored nonce or the next one, and the stored nonce is written back.
   */
  function UpdateOne(nonces: Nonces, t: Transaction): Option<Nonces>
  {
    if IsSystem(t.kind) then Some(nonces)
    else if Sender(t) !in nonces then Some(Record(nonces, Sender(t), t.num))
    else if nonces[Sender(t)] != t.num && NextNumber(nonces[Sender(t)]) != t.num then None
    else Some(nonces)
  }

  function UpdateAll(nonces: Nonces, ts: seq<Transaction>): Option<Nonces>
  {
    if ts == [] then Some(nonces)
    else
      var before := UpdateAll(nonces, ts[..|ts| - 1]);
      if before.None? then None else UpdateOne(before.value, ts[|ts| - 1])
  }

  /** updateBlockAccountState. */
  method UpdateBlockAccountState(nonces: Nonces, ts: seq<Transaction>) returns (r: Option<Nonces>)
    ensures r == UpdateAll(nonces, ts)
  {
    var now := nonces;
    for k := 0 to |ts|
      invariant UpdateAll(nonces, ts[..k]) == Some(now)
    {
      assert ts[..k + 1][..k] == ts[..k];
      var kind := ts[k].kind;
      if kind != GENESIS && kind != FEE && kind != REWARD && kind != SYSTEM_UNSTAKE && kind != COLLAPSE {
        var from := Sender(ts[k]);
        if from !in now {
          now := now[from := ts[k].num];
        } else if now[from] != ts[k].num && Wrap(now[from] + 1) != ts[k].num {
          UpdateStops(nonces, ts, k + 1);
          return None;
        } else {
          assert now[from := now[from]] == now;
          now := now[from := now[from]];
        }
      }
    }
    assert ts[..|ts|] == ts;
    return Some(now);
  }

  lemma {:induction false} UpdateStops(nonces: Nonces, ts: seq<Transaction>, k: nat)
    requires k <= |ts| && UpdateAll(nonces, ts[..k]).None?
    ensures UpdateAll(nonces, ts).None?
    decreases |ts|
  {
    if k < |ts| {
      assert ts[..|ts| - 1][..k] == ts[..k];
      UpdateStops(nonces, ts[..|ts| - 1], k);
    } else {
      assert ts[..k] == ts;
    }
  }

  // ----- what a block does to a nonce

  ghost predicate SentBy(ts: seq<Transaction>, a: bytes)
  {
    exists i | 0 <= i < |ts| :: !IsSystem(ts[i].kind) && Sender(ts[i]) == a
  }

  lemma SentPush(ts: seq<Transaction>, a: bytes)
    requires ts != []
    ensures var t := ts[|ts| - 1]; SentBy(ts, a) <==> SentBy(ts[..|ts| - 1], a) || (!IsSystem(t.kind) && Sender(t) == a)
  {
    var init := ts[..|ts| - 1];
    if SentBy(init, a) {
      var i :| 0 <= i < |init| && !IsSystem(init[i].kind) && Sender(init[i]) == a;
      assert ts[i] == init[i];
    }
    if SentBy(ts, a) {
      var i :| 0 <= i < |ts| && !IsSystem(ts[i].kind) && Sender(ts[i]) == a;
      assert i < |init| ==> init[i] == ts[i];
    }
  }

  /** A stored nonce never changes again, and an address that sends nothing gets none. */
  lemma {:induction false} StoredStays(nonces: Nonces, ts: seq<Transaction>, a: bytes)
    requires UpdateAll(nonces, ts).Some?
    ensures var after := UpdateAll(nonces, ts).value;
      && (a in after <==> a in nonces || SentBy(ts, a))
      && (a in nonces ==> after[a] == nonces[a])
  {
    if ts != [] {
      StoredStays(nonces, ts[..|ts| - 1], a);
      SentPush(ts, a);
    }
  }

  /** Every stored nonce is 1. */
  ghost predicate AllOnes(nonces: Nonces)
  {
    forall a | a in nonces :: nonces[a] == 1
  }

  ghost predicate NumbersFit(nonces: Nonces, ts: seq<Transaction>)
  {
    forall i | 0 <= i < |ts| && !IsSystem(ts[i].kind) :: ts[i].num == Expected(nonces, Sender(ts[i]))
  }

  function Expected(nonces: Nonces, a: bytes): u64
  {
    if a in nonces then NextNumber(nonces[a]) else 1
  }

  lemma NumberFits(env: Env, t: Transaction)
    requires ValidEnv(env) && StandardOk(env, t)
    ensures t.num == Expected(env.nonces, Sender(t))
  {
    SmallWrap(1);
  }

  lemma AcceptedNumbers(env: Env, num: u64, ts: seq<Transaction>)
    requires ValidEnv(env) && Accepted(env, num, ts)
    ensures NumbersFit(env.nonces, ts)
  {
    forall i | 0 <= i < |ts| && !IsSystem(ts[i].kind) ensures ts[i].num == Expected(env.nonces, Sender(ts[i])) {
      NumberFits(env, ts[i]);
    }
  }

  /** An accepted block is never refused for its nonces, and leaves every nonce at 1. */
  lemma {:induction false} OnesStay(nonces: Nonces, ts: seq<Transaction>)
    requires AllOnes(nonces) && NumbersFit(nonces, ts)
    ensures UpdateAll(nonces, ts).Some? && AllOnes(UpdateAll(nonces, ts).value)
    ensures forall a | a in nonces :: a in UpdateAll(nonces, ts).value
  {
    if ts != [] {
      OnesStay(nonces, ts[..|ts| - 1]);
      SmallWrap(2);
    }
  }

  /** In general, an accepted block is stored whatever the nonces are. */
  lemma {:induction false} FittingStored(nonces: Nonces, ts: seq<Transaction>)
    requires NumbersFit(nonces, ts)
    ensures UpdateAll(nonces, ts).Some? && forall a | a in nonces :: a in UpdateAll(nonces, ts).value
    ensures forall a | a in UpdateAll(nonces, ts).value :: UpdateAll(nonces, ts).value[a] == if a in nonces then nonces[a] else 1
  {
    if ts != [] {
      FittingStored(nonces, ts[..|ts| - 1]);
    }
  }

  /**
   GetTransactionsCount is no count: over any run of accepted blocks from an empty store, an address's first
   transaction carries number 1 and every later one number 2.
   */
  lemma {:induction false} RunOfOnes(blocks: seq<seq<Transaction>>, states: seq<Nonces>)
    requires |states| == |blocks| + 1 && states[0] == map[]
    requires forall i | 0 <= i < |blocks| :: NumbersFit(states[i], blocks[i]) && UpdateAll(states[i], blocks[i]) == Some(states[i + 1])
    ensures forall i | 0 <= i < |states| :: AllOnes(states[i])
    ensures forall i, k | 0 <= i < |blocks| && 0 <= k < |blocks[i]| && !IsSystem(blocks[i][k].kind) ::
      blocks[i][k].num == if Sender(blocks[i][k]) in states[i] then 2 else 1
  {
    SmallWrap(2);
    if blocks != [] {
      var n := |blocks| - 1;
      RunOfOnes(blocks[..n], states[..n + 1]);
      assert AllOnes(states[..n + 1][n]);
      OnesStay(states[n], blocks[n]);
      forall i | 0 <= i < |states| ensures AllOnes(states[i]) {
        if i <= n { assert AllOnes(states[..n + 1][i]); }
      }
      forall i, k | 0 <= i < |blocks| && 0 <= k < |blocks[i]| && !IsSystem(blocks[i][k].kind)
        ensures blocks[i][k].num == if Sender(blocks[i][k]) in states[i] then 2 else 1
      {
        assert AllOnes(states[i]) && NumbersFit(states[i], blocks[i]);
      }
    }
  }
}
