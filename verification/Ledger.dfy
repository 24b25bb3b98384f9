/**
 The set of unspent outputs and what a block does to it (blockchain/core/rdochain/output_manager.go):
 every input of an input-bearing transaction deletes exactly one row, then all non-fee outputs are inserted.
 */
module Ledger {
  import opened Words
  import opened Sums
  import opened Proto

  datatype OutKey = OutKey(hash: bytes, index: nat)

  /** An unspent output: owner, staking node (empty for plain coins), amount and the kind of the creating transaction. */
  datatype Utxo = Utxo(to: bytes, node: bytes, amount: u64, kind: u32)

  type UtxoSet = map<OutKey, Utxo>

  function Key(i: TxInput): OutKey
  {
    OutKey(i.hash, i.index)
  }

  function Zeros(n: nat): (r: bytes)
    ensures |r| == n
  {
    seq(n, _ => 0)
  }

  const BLACK_HOLE: bytes := Zeros(20)

  /** common.BytesToAddress: no bytes stay no address; otherwise the last 20 bytes, padded on the left. */
  function Address(b: bytes): (r: bytes)
    ensures r == [] <==> b == []
    ensures r != [] ==> |r| == 20
  {
    if b == [] then [] else if |b| >= 20 then b[|b| - 20..] else Zeros(20 - |b|) + b
  }

  /** An address of full length is itself; a longer one keeps its last 20 bytes, a shorter one is padded in front. */
  lemma AddressPads(b: bytes)
    ensures |b| >= 20 ==> Address(b) == b[|b| - 20..]
    ensures 0 < |b| < 20 ==> Address(b)[20 - |b|..] == b && forall i | 0 <= i < 20 - |b| :: Address(b)[i] == 0
  {
  }

  // ----- weights

  function InAmount(i: TxInput): nat { i.amount }

  function OutAmount(o: TxOutput): nat { o.amount }

  function Amount(u: Utxo): nat { u.amount }

  ghost function InSum(t: Transaction): nat { SeqSum(t.inputs, InAmount) }

  ghost function OutSum(t: Transaction): nat { SeqSum(t.outputs, OutAmount) }

  /** All coins in circulation. */
  ghost function Total(m: UtxoSet): nat { MapSum(m, Amount) }

  // What one transaction adds to the sums that the node keeps.
  ghost function BalanceIn(t: Transaction): nat { if t.kind == REWARD then 0 else InSum(t) }

  ghost function BalanceOut(t: Transaction): nat { if t.kind == REWARD then 0 else OutSum(t) }

  ghost function SpentBy(t: Transaction): nat { if HasInputs(t.kind) then InSum(t) else 0 }

  ghost function CreatedBy(t: Transaction): nat { if t.kind == FEE then 0 else OutSum(t) }

  ghost function FeeOut(t: Transaction): nat { if t.kind == FEE then OutSum(t) else 0 }

  ghost function RewardOut(t: Transaction): nat { if t.kind == REWARD then OutSum(t) else 0 }

  /** Inputs that count for the block balance although the output manager never deletes them. */
  ghost function UnprocessedIn(t: Transaction): nat
  {
    if HasInputs(t.kind) || t.kind == REWARD then 0 else InSum(t)
  }

  function FeeOf(t: Transaction): nat { RealFee(t) }

  // ----- deleting and inserting rows

  /** SpendOutput for each input in turn; a row that is not there aborts the block. */
  function SpendAll(m: UtxoSet, ins: seq<TxInput>): (r: Option<UtxoSet>)
  {
    if ins == [] then Some(m)
    else
      var before := SpendAll(m, ins[..|ins| - 1]);
      var key := Key(ins[|ins| - 1]);
      if before.None? || key !in before.value then None else Some(before.value - {key})
  }

  datatype Entry = Entry(key: OutKey, utxo: Utxo)

  /** AddOutputBatch: the unique key (hash, index) refuses an output that is already there. */
  function InsertAll(m: UtxoSet, es: seq<Entry>): (r: Option<UtxoSet>)
  {
    if es == [] then Some(m)
    else
      var before := InsertAll(m, es[..|es| - 1]);
      var e := es[|es| - 1];
      if before.None? || e.key in before.value then None else Some(before.value[e.key := e.utxo])
  }

  function EntryAt(t: Transaction, j: nat): Entry
    requires j < |t.outputs|
  {
    var o := t.outputs[j];
    Entry(OutKey(t.hash, j), Utxo(o.address, Address(o.node), o.amount, t.kind))
  }

  /** The rows of a transaction; fee outputs are burnt. */
  function Entries(t: Transaction): (r: seq<Entry>)
    ensures |r| == if t.kind == FEE then 0 else |t.outputs|
    ensures forall j | 0 <= j < |r| :: r[j] == EntryAt(t, j)
  {
    if t.kind == FEE then [] else seq(|t.outputs|, j requires 0 <= j < |t.outputs| => EntryAt(t, j))
  }

  function InputsOf(t: Transaction): seq<TxInput>
  {
    if HasInputs(t.kind) then t.inputs else []
  }

  function BlockInputs(ts: seq<Transaction>): seq<TxInput>
  {
    if ts == [] then [] else BlockInputs(ts[..|ts| - 1]) + InputsOf(ts[|ts| - 1])
  }

  function BlockEntries(ts: seq<Transaction>): seq<Entry>
  {
    if ts == [] then [] else BlockEntries(ts[..|ts| - 1]) + Entries(ts[|ts| - 1])
  }

  /** The effect of a block on the unspent outputs. */
  function Process(m: UtxoSet, ts: seq<Transaction>): (r: Option<UtxoSet>)
  {
    var spent := SpendAll(m, BlockInputs(ts));
    if spent.None? then None else InsertAll(spent.value, BlockEntries(ts))
  }

  lemma {:induction false} SpendAllConcat(m: UtxoSet, a: seq<TxInput>, b: seq<TxInput>)
    ensures SpendAll(m, a + b) == if SpendAll(m, a).None? then None else SpendAll(SpendAll(m, a).value, b)
  {
    if b == [] {
      assert a + b == a;
    } else {
      SpendAllConcat(m, a, b[..|b| - 1]);
      assert (a + b)[..|a + b| - 1] == a + b[..|b| - 1];
    }
  }

  lemma ProcessStep(m: UtxoSet, ts: seq<Transaction>, i: nat, rows: UtxoSet)
    requires i < |ts| && SpendAll(m, BlockInputs(ts[..i])) == Some(rows)
    ensures SpendAll(m, BlockInputs(ts[..i + 1])) == SpendAll(rows, InputsOf(ts[i]))
    ensures BlockEntries(ts[..i + 1]) == BlockEntries(ts[..i]) + Entries(ts[i])
  {
    assert ts[..i + 1][..i] == ts[..i];
    SpendAllConcat(m, BlockInputs(ts[..i]), InputsOf(ts[i]));
  }

  /** ProcessBlock: spend transaction by transaction, collect the outputs, insert them at the end. */
  method ProcessBlock(m: UtxoSet, ts: seq<Transaction>) returns (r: Option<UtxoSet>)
    ensures r == Process(m, ts)
  {
    var rows := m;
    var batch: seq<Entry> := [];
    var i := 0;
    while i < |ts|
      invariant i <= |ts|
      invariant SpendAll(m, BlockInputs(ts[..i])) == Some(rows)
      invariant batch == BlockEntries(ts[..i])
    {
      ProcessStep(m, ts, i, rows);
      var spent := SpendInputs(rows, ts[i]);
      if spent.None? {
        SpendPrefixFails(m, ts, i + 1);
        return None;
      }
      rows := spent.value;
      var more := PrepareOutputs(ts[i]);
      batch := batch + more;
      i := i + 1;
    }
    assert ts[..i] == ts;
    r := AddBatch(rows, batch);
  }

  /** Only the kinds with inputs spend them. */
  method SpendInputs(m: UtxoSet, t: Transaction) returns (r: Option<UtxoSet>)
    ensures r == SpendAll(m, InputsOf(t))
  {
    if t.kind == NORMAL || t.kind == STAKE || t.kind == UNSTAKE || t.kind == COLLAPSE || t.kind == SYSTEM_UNSTAKE {
      r := ProcessInputs(m, t.inputs);
    } else {
      r := Some(m);
    }
  }

  /** prepareOutputsQuery: a row for each output, numbered from 0; fee outputs are skipped. */
  method PrepareOutputs(t: Transaction) returns (rows: seq<Entry>)
    ensures rows == Entries(t)
  {
    rows := [];
    var index := 0;
    while index < |t.outputs|
      invariant index <= |t.outputs|
      invariant rows == if t.kind == FEE then [] else Entries(t)[..index]
    {
      if t.kind != FEE {
        var o := t.outputs[index];
        rows := rows + [Entry(OutKey(t.hash, index), Utxo(o.address, Address(o.node), o.amount, t.kind))];
      }
      index := index + 1;
    }
  }

  method ProcessInputs(m: UtxoSet, ins: seq<TxInput>) returns (r: Option<UtxoSet>)
    ensures r == SpendAll(m, ins)
  {
    var rows := m;
    var i := 0;
    while i < |ins|
      invariant i <= |ins|
      invariant SpendAll(m, ins[..i]) == Some(rows)
    {
      assert ins[..i + 1][..i] == ins[..i];
      if Key(ins[i]) !in rows {
        SpendTakeFails(m, ins, i + 1);
        return None;
      }
      rows := rows - {Key(ins[i])};
      i := i + 1;
    }
    assert ins[..i] == ins;
    return Some(rows);
  }

  method AddBatch(m: UtxoSet, es: seq<Entry>) returns (r: Option<UtxoSet>)
    ensures r == InsertAll(m, es)
  {
    var rows := m;
    var i := 0;
    while i < |es|
      invariant i <= |es|
      invariant InsertAll(m, es[..i]) == Some(rows)
    {
      assert es[..i + 1][..i] == es[..i];
      if es[i].key in rows {
        InsertTakeFails(m, es, i + 1);
        return None;
      }
      rows := rows[es[i].key := es[i].utxo];
      i := i + 1;
    }
    assert es[..i] == es;
    return Some(rows);
  }

  lemma {:induction false} SpendTakeFails(m: UtxoSet, ins: seq<TxInput>, k: nat)
    requires k <= |ins| && SpendAll(m, ins[..k]).None?
    ensures SpendAll(m, ins).None?
    decreases |ins|
  {
    if k < |ins| {
      var init := ins[..|ins| - 1];
      assert init[..k] == ins[..k];
      SpendTakeFails(m, init, k);
    } else {
      assert ins[..k] == ins;
    }
  }

  lemma {:induction false} InsertTakeFails(m: UtxoSet, es: seq<Entry>, k: nat)
    requires k <= |es| && InsertAll(m, es[..k]).None?
    ensures InsertAll(m, es).None?
    decreases |es|
  {
    if k < |es| {
      var init := es[..|es| - 1];
      assert init[..k] == es[..k];
      InsertTakeFails(m, init, k);
    } else {
      assert es[..k] == es;
    }
  }

  lemma {:induction false} SpendPrefixFails(m: UtxoSet, ts: seq<Transaction>, k: nat)
    requires k <= |ts| && SpendAll(m, BlockInputs(ts[..k])).None?
    ensures SpendAll(m, BlockInputs(ts)).None?
    decreases |ts|
  {
    if k < |ts| {
      var init := ts[..|ts| - 1];
      assert init[..k] == ts[..k];
      SpendPrefixFails(m, init, k);
      SpendAllConcat(m, BlockInputs(init), InputsOf(ts[|ts| - 1]));
    } else {
      assert ts[..k] == ts;
    }
  }

  // ----- sums over spending and inserting

  /** The weight in m of the output that an input names. */
  ghost function Named(m: UtxoSet, w: Utxo -> nat): (r: TxInput -> nat)
    ensures forall i: TxInput :: r(i) == if Key(i) in m then w(m[Key(i)]) else 0
  {
    (i: TxInput) => if Key(i) in m then w(m[Key(i)]) else 0
  }

  lemma {:induction false} SpendAllSum(m: UtxoSet, ins: seq<TxInput>, w: Utxo -> nat)
    requires SpendAll(m, ins).Some?
    ensures MapSum(m, w) == MapSum(SpendAll(m, ins).value, w) + SeqSum(ins, Named(m, w))
    ensures forall k | k in SpendAll(m, ins).value :: k in m && SpendAll(m, ins).value[k] == m[k]
  {
    if ins != [] {
      var init, last := ins[..|ins| - 1], ins[|ins| - 1];
      SpendAllSum(m, init, w);
      MapSumRemove(SpendAll(m, init).value, Key(last), w);
    }
  }

  ghost function EntryWeight(w: Utxo -> nat): (r: Entry -> nat)
    ensures forall e: Entry :: r(e) == w(e.utxo)
  {
    (e: Entry) => w(e.utxo)
  }

  lemma {:induction false} InsertAllSum(m: UtxoSet, es: seq<Entry>, w: Utxo -> nat)
    requires InsertAll(m, es).Some?
    ensures MapSum(InsertAll(m, es).value, w) == MapSum(m, w) + SeqSum(es, EntryWeight(w))
  {
    if es != [] {
      var init, last := es[..|es| - 1], es[|es| - 1];
      InsertAllSum(m, init, w);
      MapSumInsert(InsertAll(m, init).value, last.key, last.utxo, w);
    }
  }

  /** What processing a block does to any weighted sum over the unspent outputs. */
  lemma ProcessSum(m: UtxoSet, ts: seq<Transaction>, w: Utxo -> nat)
    requires Process(m, ts).Some?
    ensures MapSum(Process(m, ts).value, w) + SeqSum(BlockInputs(ts), Named(m, w))
         == MapSum(m, w) + SeqSum(BlockEntries(ts), EntryWeight(w))
  {
    SpendAllSum(m, BlockInputs(ts), w);
    InsertAllSum(SpendAll(m, BlockInputs(ts)).value, BlockEntries(ts), w);
  }

  // ----- block sums as sums over transactions

  lemma {:induction false} EntriesSum(t: Transaction, es: seq<Entry>, k: nat)
    requires k <= |t.outputs| && |es| == k
    requires forall j | 0 <= j < k :: es[j] == EntryAt(t, j)
    ensures SeqSum(es, EntryWeight(Amount)) == SeqSum(t.outputs[..k], OutAmount)
  {
    if k > 0 {
      EntriesSum(t, es[..k - 1], k - 1);
      assert t.outputs[..k][..k - 1] == t.outputs[..k - 1];
      assert es[k - 1] == EntryAt(t, k - 1);
      assert EntryWeight(Amount)(es[k - 1]) == Amount(es[k - 1].utxo) == OutAmount(t.outputs[k - 1]);
    }
  }

  lemma {:induction false} BlockEntriesSum(ts: seq<Transaction>)
    ensures SeqSum(BlockEntries(ts), EntryWeight(Amount)) == SeqSum(ts, CreatedBy)
  {
    if ts != [] {
      var init, t := ts[..|ts| - 1], ts[|ts| - 1];
      BlockEntriesSum(init);
      SeqSumConcat(BlockEntries(init), Entries(t), EntryWeight(Amount));
      if t.kind != FEE {
        EntriesSum(t, Entries(t), |t.outputs|);
        assert t.outputs[..|t.outputs|] == t.outputs;
      }
    }
  }

  lemma {:induction false} BlockInputsSum(ts: seq<Transaction>)
    ensures SeqSum(BlockInputs(ts), InAmount) == SeqSum(ts, SpentBy)
  {
    if ts != [] {
      var init, t := ts[..|ts| - 1], ts[|ts| - 1];
      BlockInputsSum(init);
      SeqSumConcat(BlockInputs(init), InputsOf(t), InAmount);
    }
  }

  /** An input says truly what it spends: the named output exists and has the stated amount. */
  ghost predicate Exists(m: UtxoSet, i: TxInput)
  {
    Key(i) in m && m[Key(i)].amount == i.amount
  }

  lemma {:induction false} NamedIsStated(m: UtxoSet, ins: seq<TxInput>)
    requires forall i | i in ins :: Exists(m, i)
    ensures SeqSum(ins, Named(m, Amount)) == SeqSum(ins, InAmount)
  {
    if ins != [] {
      var last := ins[|ins| - 1];
      assert last in ins && Exists(m, last);
      assert Named(m, Amount)(last) == InAmount(last);
      NamedIsStated(m, ins[..|ins| - 1]);
    }
  }

  ghost predicate Distinct(ins: seq<TxInput>)
  {
    forall i, j | 0 <= i < j < |ins| :: Key(ins[i]) != Key(ins[j])
  }

  ghost function Keys(ins: seq<TxInput>): set<OutKey>
  {
    set i | i in ins :: Key(i)
  }

  lemma KeysPush(ins: seq<TxInput>)
    requires ins != []
    ensures Keys(ins) == Keys(ins[..|ins| - 1]) + {Key(ins[|ins| - 1])}
  {
    var init := ins[..|ins| - 1];
    forall i | i in ins ensures Key(i) in Keys(init) + {Key(ins[|ins| - 1])} {
      var j :| 0 <= j < |ins| && ins[j] == i;
      if j < |init| { assert init[j] in init; }
    }
  }

  /** Distinct existing inputs can all be spent, and exactly their rows go. */
  lemma {:induction false} DistinctSpend(m: UtxoSet, ins: seq<TxInput>)
    requires Distinct(ins)
    requires forall i | i in ins :: Key(i) in m
    ensures SpendAll(m, ins).Some?
    ensures SpendAll(m, ins).value.Keys == m.Keys - Keys(ins)
  {
    if ins != [] {
      var init, last := ins[..|ins| - 1], ins[|ins| - 1];
      assert last in ins;
      DistinctSpend(m, init);
      KeysPush(ins);
      forall i | i in init ensures Key(i) != Key(last) {
        var j :| 0 <= j < |init| && init[j] == i;
        assert Key(ins[j]) != Key(ins[|ins| - 1]);
      }
    }
  }

  lemma DistinctPrefix(a: seq<TxInput>, b: seq<TxInput>)
    ensures Distinct(a + b) ==> Distinct(a)
  {
    if Distinct(a + b) {
      forall i, j | 0 <= i < j < |a| ensures Key(a[i]) != Key(a[j]) {
        assert (a + b)[i] == a[i] && (a + b)[j] == a[j];
      }
    }
  }

  lemma DistinctPush(a: seq<TxInput>, x: TxInput)
    requires Distinct(a)
    ensures Distinct(a + [x]) <==> Key(x) !in Keys(a)
  {
    if Key(x) in Keys(a) {
      var i :| i in a && Key(i) == Key(x);
      var j :| 0 <= j < |a| && a[j] == i;
      assert (a + [x])[j] == a[j] && (a + [x])[|a|] == x;
    } else {
      forall i, j | 0 <= i < j < |a| + 1 ensures Key((a + [x])[i]) != Key((a + [x])[j]) {
        assert a[i] in a;
      }
    }
  }

  lemma PushOne(a: seq<TxInput>, x: TxInput)
    requires Distinct(a)
    ensures Distinct(a + [x]) <==> Key(x) !in Keys(a)
    ensures Keys(a + [x]) == Keys(a) + {Key(x)}
  {
    DistinctPush(a, x);
    assert (a + [x])[..|a|] == a;
    KeysPush(a + [x]);
  }

  /** So together they are worth at most the coins in circulation. */
  lemma DistinctInputsBound(m: UtxoSet, ins: seq<TxInput>)
    requires Distinct(ins)
    requires forall i | i in ins :: Exists(m, i)
    ensures SeqSum(ins, InAmount) <= Total(m)
  {
    DistinctSpend(m, ins);
    SpendAllSum(m, ins, Amount);
    NamedIsStated(m, ins);
  }

  // ----- inserting never fails on fresh hashes

  /** No transaction's hash is used twice in the block, and none is the hash of an unspent output. */
  ghost predicate FreshHashes(m: UtxoSet, ts: seq<Transaction>)
  {
    && (forall i, j | 0 <= i < j < |ts| :: ts[i].hash != ts[j].hash)
    && (forall i, k | 0 <= i < |ts| && k in m :: ts[i].hash != k.hash)
  }

  lemma {:induction false} InsertEntries(m: UtxoSet, t: Transaction, es: seq<Entry>, k: nat)
    requires k <= |t.outputs| && |es| == k
    requires forall j | 0 <= j < k :: es[j] == EntryAt(t, j)
    requires forall j: nat :: OutKey(t.hash, j) !in m
    ensures InsertAll(m, es).Some?
    ensures forall key | key in InsertAll(m, es).value :: key in m || (key.hash == t.hash && key.index < k)
  {
    if k > 0 {
      InsertEntries(m, t, es[..k - 1], k - 1);
      assert es[k - 1] == EntryAt(t, k - 1);
    }
  }

  lemma {:induction false} InsertAllConcat(m: UtxoSet, a: seq<Entry>, b: seq<Entry>)
    ensures InsertAll(m, a + b) == if InsertAll(m, a).None? then None else InsertAll(InsertAll(m, a).value, b)
  {
    if b == [] {
      assert a + b == a;
    } else {
      InsertAllConcat(m, a, b[..|b| - 1]);
      assert (a + b)[..|a + b| - 1] == a + b[..|b| - 1];
    }
  }

  lemma {:induction false} FreshInsert(m: UtxoSet, ts: seq<Transaction>)
    requires FreshHashes(m, ts)
    ensures InsertAll(m, BlockEntries(ts)).Some?
    ensures forall key | key in InsertAll(m, BlockEntries(ts)).value :: key in m || exists i | 0 <= i < |ts| :: ts[i].hash == key.hash
  {
    if ts != [] {
      var init, t := ts[..|ts| - 1], ts[|ts| - 1];
      FreshInsert(m, init);
      var rows := InsertAll(m, BlockEntries(init)).value;
      InsertAllConcat(m, BlockEntries(init), Entries(t));
      forall j: nat ensures OutKey(t.hash, j) !in rows { }
      InsertEntries(rows, t, Entries(t), |Entries(t)|);
      forall key | key in InsertAll(m, BlockEntries(ts)).value
        ensures key in m || exists i | 0 <= i < |ts| :: ts[i].hash == key.hash
      {
        if key in rows && key !in m {
          var i :| 0 <= i < |init| && init[i].hash == key.hash;
          assert ts[i].hash == key.hash;
        } else if key !in rows {
          assert ts[|ts| - 1].hash == key.hash;
        }
      }
    }
  }

  /** Distinct existing inputs and fresh hashes: the block is processed. */
  lemma ProcessSucceeds(m: UtxoSet, ts: seq<Transaction>)
    requires Distinct(BlockInputs(ts)) && FreshHashes(m, ts)
    requires forall i | i in BlockInputs(ts) :: Key(i) in m
    ensures Process(m, ts).Some?
  {
    DistinctSpend(m, BlockInputs(ts));
    var rows := SpendAll(m, BlockInputs(ts)).value;
    assert FreshHashes(rows, ts) by {
      forall k | k in rows ensures k in m { assert k in rows.Keys; }
    }
    FreshInsert(rows, ts);
  }
}
