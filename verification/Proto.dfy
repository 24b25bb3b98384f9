/** The wire records of the chain (proto/prototype/types.proto) and their SSZ sizes. */
module Proto {
  import opened Words

  datatype Sign = Sign(address: bytes, signature: bytes)

  datatype TxInput = TxInput(hash: bytes, index: u32, address: bytes, amount: u64, node: bytes)

  datatype TxOutput = TxOutput(address: bytes, amount: u64, node: bytes)

  datatype Transaction = Transaction(
    num: u64, kind: u32, timestamp: u64, hash: bytes, fee: u64, data: bytes,
    inputs: seq<TxInput>, outputs: seq<TxOutput>, signature: bytes, status: u32)

  datatype Block = Block(
    num: u64, slot: u64, version: bytes, hash: bytes, parent: bytes, timestamp: u64, txroot: bytes,
    proposer: Sign, approvers: seq<Sign>, slashers: seq<Sign>, transactions: seq<Transaction>)

  // Transaction kinds.
  const NORMAL: u32 := 1
  const GENESIS: u32 := 2
  const FEE: u32 := 3
  const REWARD: u32 := 4
  const STAKE: u32 := 5
  const UNSTAKE: u32 := 6
  const COLLAPSE: u32 := 7
  const SYSTEM_UNSTAKE: u32 := 8

  const SIGN_SIZE: nat := 85
  const MAX_SIGNS: nat := 128
  const MAX_TRANSACTIONS: nat := 1500
  const MAX_OUTPUTS: nat := 2000
  const MAX_DATA: nat := 1000000
  const MAX_NODE: nat := 20

  predicate IsStandard(kind: u32)
  {
    kind == NORMAL || kind == STAKE || kind == UNSTAKE
  }

  predicate IsSystem(kind: u32)
  {
    kind == GENESIS || kind == FEE || kind == REWARD || kind == SYSTEM_UNSTAKE || kind == COLLAPSE
  }

  predicate HasInputs(kind: u32)
  {
    IsStandard(kind) || kind == COLLAPSE || kind == SYSTEM_UNSTAKE
  }

  // What the marshaller accepts.
  predicate ValidSign(s: Sign)
  {
    |s.address| == 20 && |s.signature| == 65
  }

  predicate ValidInput(i: TxInput)
  {
    |i.hash| == 32 && |i.address| == 20 && |i.node| <= MAX_NODE
  }

  predicate ValidOutput(o: TxOutput)
  {
    |o.address| == 20 && |o.node| <= MAX_NODE
  }

  predicate ValidTransaction(t: Transaction)
  {
    && |t.hash| == 32
    && |t.signature| == 65
    && |t.data| <= MAX_DATA
    && |t.inputs| <= MAX_OUTPUTS
    && |t.outputs| <= MAX_OUTPUTS
    && (forall i | 0 <= i < |t.inputs| :: ValidInput(t.inputs[i]))
    && (forall i | 0 <= i < |t.outputs| :: ValidOutput(t.outputs[i]))
  }

  predicate ValidBlock(b: Block)
  {
    && |b.version| == 3
    && |b.hash| == 32
    && |b.parent| == 32
    && |b.txroot| == 32
    && ValidSign(b.proposer)
    && |b.approvers| <= MAX_SIGNS
    && |b.slashers| <= MAX_SIGNS
    && |b.transactions| <= MAX_TRANSACTIONS
    && (forall i | 0 <= i < |b.approvers| :: ValidSign(b.approvers[i]))
    && (forall i | 0 <= i < |b.slashers| :: ValidSign(b.slashers[i]))
    && (forall i | 0 <= i < |b.transactions| :: ValidTransaction(b.transactions[i]))
  }

  // SizeSSZ of each record; the loops of the code are the recursive sums below.
  function InputSize(i: TxInput): nat
  {
    68 + |i.node|
  }

  function OutputSize(o: TxOutput): nat
  {
    32 + |o.node|
  }

  function InputsSize(ins: seq<TxInput>): nat
  {
    if ins == [] then 0 else InputsSize(ins[..|ins| - 1]) + 4 + InputSize(ins[|ins| - 1])
  }

  function OutputsSize(outs: seq<TxOutput>): nat
  {
    if outs == [] then 0 else OutputsSize(outs[..|outs| - 1]) + 4 + OutputSize(outs[|outs| - 1])
  }

  function TransactionSize(t: Transaction): nat
  {
    141 + |t.data| + InputsSize(t.inputs) + OutputsSize(t.outputs)
  }

  function TransactionsSize(ts: seq<Transaction>): nat
  {
    if ts == [] then 0 else TransactionsSize(ts[..|ts| - 1]) + 4 + TransactionSize(ts[|ts| - 1])
  }

  function BlockSize(b: Block): nat
  {
    220 + |b.approvers| * SIGN_SIZE + |b.slashers| * SIGN_SIZE + TransactionsSize(b.transactions)
  }

  /** GetRealFee: the price per byte times the encoded size, in 64-bit arithmetic. */
  function RealFee(t: Transaction): (r: u64)
  {
    Wrap(t.fee * TransactionSize(t))
  }

  /** NewPbTransaction fills in timestamp, hash and signature and leaves the body of a transaction alone. */
  ghost predicate Stamped(t: Transaction, r: Transaction)
  {
    r.num == t.num && r.kind == t.kind && r.fee == t.fee && r.data == t.data && r.inputs == t.inputs && r.outputs == t.outputs
  }
}
