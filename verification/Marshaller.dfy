/**
 The generated marshallers and unmarshallers step by step: a growing destination buffer, running offsets, and
 loops over nested lists. Each is proved against the encodings and decoders of Codec.
 */
module Marshaller {
  import opened Words
  import opened Proto
  import opened Ssz
  import opened Codec

  lemma Assoc<T>(a: seq<T>, b: seq<T>, c: seq<T>)
    ensures (a + b) + c == a + (b + c)
  {
  }

  // ----- offsets and sizes

  /** The loop `offset += 4; offset += x.SizeSSZ()`. */
  method AddSizes<T>(start: nat, xs: seq<T>, size: T -> nat) returns (offset: nat)
    ensures offset == start + Total(xs, size)
  {
    offset := start;
    var k := 0;
    while k < |xs|
      invariant k <= |xs|
      invariant offset == start + Total(xs[..k], size)
    {
      offset := offset + 4;
      offset := offset + size(xs[k]);
      assert xs[..k + 1][..k] == xs[..k];
      k := k + 1;
    }
    assert xs[..k] == xs;
  }

  /** SizeSSZ of a transaction: the length of what MarshalTransactionTo appends. */
  method SizeOfTransaction(t: Transaction) returns (size: nat)
    ensures size == TransactionSize(t)
    ensures ValidTransaction(t) ==> size == |EncodeTransaction(t)|
  {
    size := 141 + |t.data|;
    size := AddSizes(size, t.inputs, InputSize);
    size := AddSizes(size, t.outputs, OutputSize);
    TotalInputs(t.inputs);
    TotalOutputs(t.outputs);
    if ValidTransaction(t) {
      TransactionLength(t);
    }
  }

  /** SizeSSZ of a block: the length of what MarshalBlockTo appends. */
  method SizeOfBlock(b: Block) returns (size: nat)
    ensures size == BlockSize(b)
    ensures ValidBlock(b) ==> size == |EncodeBlock(b)|
  {
    size := 220;
    size := size + |b.approvers| * SIGN_SIZE;
    size := size + |b.slashers| * SIGN_SIZE;
    size := AddSizes(size, b.transactions, TransactionSize);
    TotalTransactions(b.transactions);
    if ValidBlock(b) {
      BlockLength(b);
    }
  }

  /** The offset of element k of a list, from the sizes of the elements before it. */
  ghost function ListOffset<T>(xs: seq<T>, size: T -> nat, k: nat): nat
    requires k <= |xs|
  {
    if k == 0 then 4 * |xs| else ListOffset(xs, size, k - 1) + size(xs[k - 1])
  }

  ghost function OffsetTable<T>(xs: seq<T>, size: T -> nat, k: nat): bytes
    requires k <= |xs|
  {
    if k == 0 then [] else OffsetTable(xs, size, k - 1) + Offset(ListOffset(xs, size, k - 1))
  }

  /** The offset table in front of a list of variable-size elements. */
  method WriteOffsets<T>(xs: seq<T>, size: T -> nat) returns (dst: bytes)
    ensures dst == OffsetTable(xs, size, |xs|)
  {
    dst := [];
    var offset: nat := 4 * |xs|;
    var k := 0;
    while k < |xs|
      invariant k <= |xs|
      invariant offset == ListOffset(xs, size, k)
      invariant dst == OffsetTable(xs, size, k)
    {
      dst := dst + Offset(offset);
      offset := offset + size(xs[k]);
      k := k + 1;
    }
  }

  lemma {:induction false} TableIsHeads<T>(xs: seq<T>, size: T -> nat, enc: T -> bytes, k: nat)
    requires k <= |xs|
    requires forall i | 0 <= i < |xs| :: |enc(xs[i])| == size(xs[i])
    ensures ListOffset(xs, size, k) == OffsetOf(Parts(Apply(xs, enc)), k)
    ensures OffsetTable(xs, size, k) == Heads(Parts(Apply(xs, enc)), k)
  {
    var ps := Parts(Apply(xs, enc));
    ListHeads(ps, |ps|);
    if k > 0 {
      TableIsHeads(xs, size, enc, k - 1);
    }
  }

  // ----- marshalling: each method returns the bytes that MarshalSSZTo appends to its buffer

  method MarshalSign(s: Sign) returns (r: Option<bytes>)
    ensures r.Some? <==> ValidSign(s)
    ensures r.Some? ==> r.value == EncodeSign(s)
  {
    if |s.address| != 20 { return None; }
    var dst := s.address;
    if |s.signature| != 65 { return None; }
    dst := dst + s.signature;
    return Some(dst);
  }

  lemma PushHead(ps: seq<Part>, k: nat, dst: bytes)
    requires k < |ps| && dst == Heads(ps, k)
    ensures dst + Head(ps, k) == Heads(ps, k + 1)
  {
  }

  /** The whole fixed part of a container. */
  function AllHeads(ps: seq<Part>): bytes
  {
    Heads(ps, |ps|)
  }

  lemma FourHeads(ps: seq<Part>, k: nat, dst: bytes, a: bytes, b: bytes, c: bytes, d: bytes)
    requires k + 4 <= |ps| && dst == Heads(ps, k)
    requires ps[k] == Fixed(a) && ps[k + 1] == Fixed(b) && ps[k + 2] == Fixed(c) && ps[k + 3] == Fixed(d)
    ensures dst + a + b + c + d == Heads(ps, k + 4)
  {
    PushHead(ps, k, dst);
    PushHead(ps, k + 1, dst + a);
    PushHead(ps, k + 2, dst + a + b);
    PushHead(ps, k + 3, dst + a + b + c);
  }

  lemma ThreeOffsets(ps: seq<Part>, k: nat, dst: bytes)
    requires k + 3 <= |ps| && dst == Heads(ps, k)
    requires ps[k].Variable? && ps[k + 1].Variable? && ps[k + 2].Variable?
    ensures dst + Offset(OffsetOf(ps, k)) + Offset(OffsetOf(ps, k + 1)) + Offset(OffsetOf(ps, k + 2)) == Heads(ps, k + 3)
  {
    PushHead(ps, k, dst);
    PushHead(ps, k + 1, dst + Head(ps, k));
    PushHead(ps, k + 2, dst + Head(ps, k) + Head(ps, k + 1));
  }

  lemma NoHeads(ps: seq<Part>, k: nat)
    requires k == 0
    ensures Heads(ps, k) == []
  {
  }

  lemma PushTail(ps: seq<Part>, k: nat, dst: bytes)
    requires k < |ps| && dst == Heads(ps, |ps|) + Tails(ps, k)
    ensures ps[k].Variable? ==> dst + ps[k].body == Heads(ps, |ps|) + Tails(ps, k + 1)
    ensures ps[k].Fixed? ==> dst == Heads(ps, |ps|) + Tails(ps, k + 1)
  {
    if ps[k].Fixed? {
      assert Tails(ps, k + 1) == Tails(ps, k);
    } else {
      Assoc(Heads(ps, |ps|), Tails(ps, k), ps[k].body);
    }
  }

  /** When all parts before k are fixed, the heads alone are the encoding so far. */
  lemma {:induction false} NoTails(ps: seq<Part>, k: nat)
    requires k <= |ps| && forall i | 0 <= i < k :: ps[i].Fixed?
    ensures Tails(ps, k) == []
  {
    if k > 0 {
      NoTails(ps, k - 1);
    }
  }

  method MarshalInput(i: TxInput) returns (r: Option<bytes>)
    ensures r.Some? <==> ValidInput(i)
    ensures r.Some? ==> r.value == EncodeInput(i)
    ensures r == MarshalledInput(i)
  {
    var offset := 68;
    if |i.hash| != 32 { return None; }
    var dst := i.hash;
    dst := dst + Bytes32(i.index);
    if |i.address| != 20 { return None; }
    dst := dst + i.address;
    dst := dst + Bytes64(i.amount);
    dst := dst + Offset(offset);
    if |i.node| > MAX_NODE { return None; }
    InputHead(i);
    dst := dst + i.node;
    return Some(dst);
  }

  lemma InputHead(i: TxInput)
    requires ValidInput(i)
    ensures i.hash + Bytes32(i.index) + i.address + Bytes64(i.amount) + Offset(68) == Heads(InputParts(i), 5)
    ensures Tails(InputParts(i), 5) == i.node
  {
    var ps := InputParts(i);
    InputLayout(i);
    PushHead(ps, 0, []); PushHead(ps, 1, i.hash); PushHead(ps, 2, i.hash + Bytes32(i.index));
    PushHead(ps, 3, i.hash + Bytes32(i.index) + i.address);
    PushHead(ps, 4, i.hash + Bytes32(i.index) + i.address + Bytes64(i.amount));
    NoTails(ps, 4);
  }

  method MarshalOutput(o: TxOutput) returns (r: Option<bytes>)
    ensures r.Some? <==> ValidOutput(o)
    ensures r.Some? ==> r.value == EncodeOutput(o)
    ensures r == MarshalledOutput(o)
  {
    var offset := 32;
    if |o.address| != 20 { return None; }
    var dst := o.address;
    dst := dst + Bytes64(o.amount);
    dst := dst + Offset(offset);
    if |o.node| > MAX_NODE { return None; }
    OutputHead(o);
    dst := dst + o.node;
    return Some(dst);
  }

  lemma OutputHead(o: TxOutput)
    requires ValidOutput(o)
    ensures o.address + Bytes64(o.amount) + Offset(32) == Heads(OutputParts(o), 3)
    ensures Tails(OutputParts(o), 3) == o.node
  {
    var ps := OutputParts(o);
    OutputLayout(o);
    PushHead(ps, 0, []); PushHead(ps, 1, o.address); PushHead(ps, 2, o.address + Bytes64(o.amount));
    NoTails(ps, 2);
  }

  lemma JoinStep<T>(xs: seq<T>, k: nat, enc: T -> bytes)
    requires k < |xs|
    ensures Join(xs[..k + 1], enc) == Join(xs[..k], enc) + enc(xs[k])
  {
    assert xs[..k + 1][..k] == xs[..k];
  }

  lemma {:induction false} TailsAreJoined<T>(xs: seq<T>, enc: T -> bytes, k: nat)
    requires k <= |xs|
    ensures Tails(Parts(Apply(xs, enc)), k) == Join(xs[..k], enc)
  {
    if k > 0 {
      TailsAreJoined(xs, enc, k - 1);
      assert xs[..k][..k - 1] == xs[..k - 1];
    }
  }

  /** A serialized list is its offset table followed by its elements. */
  lemma ListBytes<T>(xs: seq<T>, size: T -> nat, enc: T -> bytes)
    requires forall i | 0 <= i < |xs| :: |enc(xs[i])| == size(xs[i])
    ensures OffsetTable(xs, size, |xs|) + Join(xs, enc) == SerializeList(xs, enc)
  {
    TableIsHeads(xs, size, enc, |xs|);
    TailsAreJoined(xs, enc, |xs|);
    assert xs[..|xs|] == xs;
  }

  /** A list of variable-size elements: the offset table, then each element; f is the element's own marshaller. */
  method MarshalList<T>(xs: seq<T>, size: T -> nat, f: T -> Option<bytes>, ghost enc: T -> bytes) returns (r: Option<bytes>)
    requires forall i | 0 <= i < |xs| :: f(xs[i]).Some? ==> f(xs[i]).value == enc(xs[i]) && |enc(xs[i])| == size(xs[i])
    ensures r.Some? <==> (forall i | 0 <= i < |xs| :: f(xs[i]).Some?)
    ensures r.Some? ==> r.value == SerializeList(xs, enc)
  {
    var table := WriteOffsets(xs, size);
    var dst: bytes := [];
    var k := 0;
    while k < |xs|
      invariant k <= |xs|
      invariant forall i | 0 <= i < k :: f(xs[i]).Some?
      invariant dst == Join(xs[..k], enc)
    {
      var next := f(xs[k]);
      if next.None? { return None; }
      JoinStep(xs, k, enc);
      dst := dst + next.value;
      k := k + 1;
    }
    assert xs[..k] == xs;
    ListBytes(xs, size, enc);
    return Some(table + dst);
  }

  // What the marshaller of an element returns.
  function MarshalledInput(i: TxInput): Option<bytes>
  {
    if ValidInput(i) then Some(EncodeInput(i)) else None
  }

  function MarshalledOutput(o: TxOutput): Option<bytes>
  {
    if ValidOutput(o) then Some(EncodeOutput(o)) else None
  }

  function MarshalledTransaction(t: Transaction): Option<bytes>
  {
    if ValidTransaction(t) then Some(EncodeTransaction(t)) else None
  }

  method MarshalInputs(ins: seq<TxInput>) returns (r: Option<bytes>)
    ensures r.Some? <==> (forall i | 0 <= i < |ins| :: ValidInput(ins[i]))
    ensures r.Some? ==> r.value == SerializeList(ins, EncodeInput)
  {
    forall i | 0 <= i < |ins| && ValidInput(ins[i]) ensures |EncodeInput(ins[i])| == InputSize(ins[i]) {
      InputLength(ins[i]);
    }
    r := MarshalList(ins, InputSize, MarshalledInput, EncodeInput);
  }

  method MarshalOutputs(outs: seq<TxOutput>) returns (r: Option<bytes>)
    ensures r.Some? <==> (forall i | 0 <= i < |outs| :: ValidOutput(outs[i]))
    ensures r.Some? ==> r.value == SerializeList(outs, EncodeOutput)
  {
    forall i | 0 <= i < |outs| && ValidOutput(outs[i]) ensures |EncodeOutput(outs[i])| == OutputSize(outs[i]) {
      OutputLength(outs[i]);
    }
    r := MarshalList(outs, OutputSize, MarshalledOutput, EncodeOutput);
  }

  /** The fixed part of a transaction, with its three running offsets; y and z stand for its encoded lists. */
  method MarshalTransactionHead(t: Transaction, ghost y: bytes, ghost z: bytes) returns (r: Option<bytes>)
    ensures r.Some? <==> |t.hash| == 32 && |t.signature| == 65
    ensures r.Some? && |y| == Total(t.inputs, InputSize) ==>
      r.value == AllHeads(TransactionShape(Bytes64(t.num), Bytes32(t.kind), Bytes64(t.timestamp), t.hash, Bytes64(t.fee),
                                           t.data, y, z, t.signature, Bytes32(t.status)))
  {
    var offset := 141;
    var dst := Bytes64(t.num);
    dst := dst + Bytes32(t.kind);
    dst := dst + Bytes64(t.timestamp);
    if |t.hash| != 32 { return None; }
    dst := dst + t.hash;
    dst := dst + Bytes64(t.fee);
    dst := dst + Offset(offset);
    offset := offset + |t.data|;
    dst := dst + Offset(offset);
    offset := AddSizes(offset, t.inputs, InputSize);
    dst := dst + Offset(offset);
    if |t.signature| != 65 { return None; }
    dst := dst + t.signature;
    dst := dst + Bytes32(t.status);
    TransactionHeads(Bytes64(t.num), Bytes32(t.kind), Bytes64(t.timestamp), t.hash, Bytes64(t.fee),
                     t.data, y, z, t.signature, Bytes32(t.status));
    return Some(dst);
  }

  lemma TransactionHeads(a: bytes, b: bytes, c: bytes, d: bytes, e: bytes, x: bytes, y: bytes, z: bytes, f: bytes, g: bytes)
    requires |a| == 8 && |b| == 4 && |c| == 8 && |d| == 32 && |e| == 8 && |f| == 65 && |g| == 4
    ensures a + b + c + d + e + Offset(141) + Offset(141 + |x|) + Offset(141 + |x| + |y|) + f + g
         == AllHeads(TransactionShape(a, b, c, d, e, x, y, z, f, g))
  {
    var ps := TransactionShape(a, b, c, d, e, x, y, z, f, g);
    TransactionLayout(a, b, c, d, e, x, y, z, f, g);
    var none := |ps| - 10;
    NoHeads(ps, none);
    FiveHeads(ps, none, [], a, b, c, d, e);
    assert [] + a == a;
    ThreeOffsets(ps, none + 5, a + b + c + d + e);
    var h8 := a + b + c + d + e + Offset(141) + Offset(141 + |x|) + Offset(141 + |x| + |y|);
    TwoHeads(ps, none + 8, h8, f, g);
  }

  lemma FiveHeads(ps: seq<Part>, k: nat, dst: bytes, a: bytes, b: bytes, c: bytes, d: bytes, e: bytes)
    requires k + 5 <= |ps| && dst == Heads(ps, k)
    requires ps[k] == Fixed(a) && ps[k + 1] == Fixed(b) && ps[k + 2] == Fixed(c) && ps[k + 3] == Fixed(d) && ps[k + 4] == Fixed(e)
    ensures dst + a + b + c + d + e == Heads(ps, k + 5)
  {
    FourHeads(ps, k, dst, a, b, c, d);
    PushHead(ps, k + 4, dst + a + b + c + d);
  }

  lemma TwoHeads(ps: seq<Part>, k: nat, dst: bytes, a: bytes, b: bytes)
    requires k + 2 <= |ps| && dst == Heads(ps, k) && ps[k] == Fixed(a) && ps[k + 1] == Fixed(b)
    ensures dst + a + b == Heads(ps, k + 2)
  {
    PushHead(ps, k, dst);
    PushHead(ps, k + 1, dst + a);
  }

  lemma TransactionTails(a: bytes, b: bytes, c: bytes, d: bytes, e: bytes, x: bytes, y: bytes, z: bytes, f: bytes, g: bytes)
    ensures var ps := TransactionShape(a, b, c, d, e, x, y, z, f, g); AllHeads(ps) + x + y + z == Serialize(ps)
  {
    var ps := TransactionShape(a, b, c, d, e, x, y, z, f, g);
    var head := AllHeads(ps);
    NoTails(ps, 5);
    assert head == Heads(ps, |ps|) + Tails(ps, 5);
    PushTail(ps, 5, head);
    PushTail(ps, 6, head + x);
    PushTail(ps, 7, head + x + y);
    PushTail(ps, 8, head + x + y + z);
    PushTail(ps, 9, head + x + y + z);
  }

  lemma InputsTotal(ins: seq<TxInput>)
    requires forall i | 0 <= i < |ins| :: ValidInput(ins[i])
    ensures |SerializeList(ins, EncodeInput)| == Total(ins, InputSize)
  {
    TotalInputs(ins);
    InputsLength(ins);
  }

  ghost predicate ListsValid(t: Transaction)
  {
    && |t.inputs| <= MAX_OUTPUTS && (forall i | 0 <= i < |t.inputs| :: ValidInput(t.inputs[i]))
    && |t.outputs| <= MAX_OUTPUTS && (forall i | 0 <= i < |t.outputs| :: ValidOutput(t.outputs[i]))
  }

  method MarshalInputList(ins: seq<TxInput>) returns (ok: bool, r: bytes)
    ensures ok <==> |ins| <= MAX_OUTPUTS && (forall i | 0 <= i < |ins| :: ValidInput(ins[i]))
    ensures ok ==> r == SerializeList(ins, EncodeInput) && |r| == Total(ins, InputSize)
  {
    ok, r := false, [];
    if |ins| <= MAX_OUTPUTS {
      var body := MarshalInputs(ins);
      if body.Some? {
        InputsTotal(ins);
        ok, r := true, body.value;
      }
    }
  }

  method MarshalOutputList(outs: seq<TxOutput>) returns (ok: bool, r: bytes)
    ensures ok <==> |outs| <= MAX_OUTPUTS && (forall i | 0 <= i < |outs| :: ValidOutput(outs[i]))
    ensures ok ==> r == SerializeList(outs, EncodeOutput)
  {
    ok, r := false, [];
    if |outs| <= MAX_OUTPUTS {
      var body := MarshalOutputs(outs);
      if body.Some? {
        ok, r := true, body.value;
      }
    }
  }

  method MarshalTransactionLists(t: Transaction) returns (ok: bool, y: bytes, z: bytes)
    ensures ok <==> ListsValid(t)
    ensures ok ==> y == SerializeList(t.inputs, EncodeInput) && z == SerializeList(t.outputs, EncodeOutput)
    ensures ok ==> |y| == Total(t.inputs, InputSize)
  {
    var insOk, outsOk: bool;
    insOk, y := MarshalInputList(t.inputs);
    outsOk, z := MarshalOutputList(t.outputs);
    ok := insOk && outsOk;
  }

  /** MarshalSSZ of a transaction: its SSZ encoding, exactly when the record is within its limits. */
  method MarshalTransaction(t: Transaction) returns (r: Option<bytes>)
    ensures r.Some? <==> ValidTransaction(t)
    ensures r.Some? ==> r.value == EncodeTransaction(t)
  {
    TransactionOk(t);
    var ok, y, z := MarshalTransactionLists(t);
    var head := MarshalTransactionHead(t, y, z);
    r := None;
    if head.Some? && |t.data| <= MAX_DATA && ok {
      TransactionWhole(t, y, z, head.value);
      r := Some(head.value + t.data + y + z);
    }
  }

  lemma TransactionOk(t: Transaction)
    ensures ValidTransaction(t) <==> |t.hash| == 32 && |t.signature| == 65 && |t.data| <= MAX_DATA && ListsValid(t)
  {
  }

  lemma TransactionWhole(t: Transaction, y: bytes, z: bytes, head: bytes)
    requires y == SerializeList(t.inputs, EncodeInput) && z == SerializeList(t.outputs, EncodeOutput)
    requires head == AllHeads(TransactionShape(Bytes64(t.num), Bytes32(t.kind), Bytes64(t.timestamp), t.hash, Bytes64(t.fee),
                                               t.data, y, z, t.signature, Bytes32(t.status)))
    ensures head + t.data + y + z == EncodeTransaction(t)
  {
    TransactionTails(Bytes64(t.num), Bytes32(t.kind), Bytes64(t.timestamp), t.hash, Bytes64(t.fee), t.data,
                     y, z, t.signature, Bytes32(t.status));
  }

  method MarshalSigns(ss: seq<Sign>) returns (r: Option<bytes>)
    ensures r.Some? <==> (forall i | 0 <= i < |ss| :: ValidSign(ss[i]))
    ensures r.Some? ==> r.value == Join(ss, EncodeSign)
  {
    var dst: bytes := [];
    var k := 0;
    while k < |ss|
      invariant k <= |ss|
      invariant forall i | 0 <= i < k :: ValidSign(ss[i])
      invariant dst == Join(ss[..k], EncodeSign)
    {
      var next := MarshalSign(ss[k]);
      if next.None? { return None; }
      JoinStep(ss, k, EncodeSign);
      dst := dst + next.value;
      k := k + 1;
    }
    assert ss[..k] == ss;
    return Some(dst);
  }

  method MarshalTransactions(ts: seq<Transaction>) returns (r: Option<bytes>)
    ensures r.Some? <==> (forall i | 0 <= i < |ts| :: ValidTransaction(ts[i]))
    ensures r.Some? ==> r.value == SerializeList(ts, EncodeTransaction)
  {
    forall i | 0 <= i < |ts| && ValidTransaction(ts[i]) ensures |EncodeTransaction(ts[i])| == TransactionSize(ts[i]) {
      TransactionLength(ts[i]);
    }
    r := MarshalList(ts, TransactionSize, MarshalledTransaction, EncodeTransaction);
  }

  /** The fixed part of a block, with its three running offsets; x, y and z stand for its encoded lists. */
  method MarshalBlockHead(b: Block, ghost x: bytes, ghost y: bytes, ghost z: bytes) returns (r: Option<bytes>)
    ensures r.Some? <==> HeadOk(b)
    ensures r.Some? && |x| == |b.approvers| * SIGN_SIZE && |y| == |b.slashers| * SIGN_SIZE ==>
      r.value == AllHeads(BlockShape(Bytes64(b.num), Bytes64(b.slot), b.version, b.hash, b.parent, Bytes64(b.timestamp), b.txroot,
                                     EncodeSign(b.proposer), x, y, z))
  {
    var offset := 220;
    var dst := Bytes64(b.num);
    dst := dst + Bytes64(b.slot);
    if |b.version| != 3 { return None; }
    dst := dst + b.version;
    if |b.hash| != 32 { return None; }
    dst := dst + b.hash;
    if |b.parent| != 32 { return None; }
    dst := dst + b.parent;
    dst := dst + Bytes64(b.timestamp);
    if |b.txroot| != 32 { return None; }
    dst := dst + b.txroot;
    var proposer := MarshalSign(b.proposer);
    if proposer.None? { return None; }
    dst := dst + proposer.value;
    dst := dst + Offset(offset);
    offset := offset + |b.approvers| * SIGN_SIZE;
    dst := dst + Offset(offset);
    offset := offset + |b.slashers| * SIGN_SIZE;
    dst := dst + Offset(offset);
    BlockHeads(Bytes64(b.num), Bytes64(b.slot), b.version, b.hash, b.parent, Bytes64(b.timestamp), b.txroot,
               proposer.value, x, y, z);
    return Some(dst);
  }

  lemma BlockHeads(a: bytes, b: bytes, c: bytes, d: bytes, e: bytes, f: bytes, g: bytes, h: bytes, x: bytes, y: bytes, z: bytes)
    requires |a| == 8 && |b| == 8 && |c| == 3 && |d| == 32 && |e| == 32 && |f| == 8 && |g| == 32 && |h| == 85
    ensures a + b + c + d + e + f + g + h + Offset(220) + Offset(220 + |x|) + Offset(220 + |x| + |y|)
         == AllHeads(BlockShape(a, b, c, d, e, f, g, h, x, y, z))
  {
    var ps := BlockShape(a, b, c, d, e, f, g, h, x, y, z);
    BlockLayout(a, b, c, d, e, f, g, h, x, y, z);
    var none := |ps| - 11;
    NoHeads(ps, none);
    FourHeads(ps, none, [], a, b, c, d);
    assert [] + a == a;
    FourHeads(ps, none + 4, a + b + c + d, e, f, g, h);
    ThreeOffsets(ps, none + 8, a + b + c + d + e + f + g + h);
  }

  lemma BlockTails(a: bytes, b: bytes, c: bytes, d: bytes, e: bytes, f: bytes, g: bytes, h: bytes, x: bytes, y: bytes, z: bytes)
    ensures var ps := BlockShape(a, b, c, d, e, f, g, h, x, y, z); AllHeads(ps) + x + y + z == Serialize(ps)
  {
    var ps := BlockShape(a, b, c, d, e, f, g, h, x, y, z);
    var head := AllHeads(ps);
    NoTails(ps, 8);
    assert head == Heads(ps, |ps|) + Tails(ps, 8);
    PushTail(ps, 8, head);
    PushTail(ps, 9, head + x);
    PushTail(ps, 10, head + x + y);
  }

  method MarshalSignList(ss: seq<Sign>) returns (r: Option<bytes>)
    ensures r.Some? <==> |ss| <= MAX_SIGNS && (forall i | 0 <= i < |ss| :: ValidSign(ss[i]))
    ensures r.Some? ==> r.value == Join(ss, EncodeSign) && |r.value| == |ss| * SIGN_SIZE
  {
    if |ss| > MAX_SIGNS { return None; }
    r := MarshalSigns(ss);
    if r.Some? {
      SignsLength(ss);
    }
  }

  ghost predicate HeadOk(b: Block)
  {
    |b.version| == 3 && |b.hash| == 32 && |b.parent| == 32 && |b.txroot| == 32 && ValidSign(b.proposer)
  }

  ghost predicate ListsOk(b: Block)
  {
    && |b.approvers| <= MAX_SIGNS && |b.slashers| <= MAX_SIGNS && |b.transactions| <= MAX_TRANSACTIONS
    && (forall i | 0 <= i < |b.approvers| :: ValidSign(b.approvers[i]))
    && (forall i | 0 <= i < |b.slashers| :: ValidSign(b.slashers[i]))
    && (forall i | 0 <= i < |b.transactions| :: ValidTransaction(b.transactions[i]))
  }

  lemma BlockOk(b: Block)
    ensures ValidBlock(b) <==> HeadOk(b) && ListsOk(b)
  {
  }

  /** The three lists of a block. */
  method MarshalBlockLists(b: Block) returns (ok: bool, x: bytes, y: bytes, z: bytes)
    ensures ok <==> ListsOk(b)
    ensures ok ==>
      && x == Join(b.approvers, EncodeSign) && y == Join(b.slashers, EncodeSign)
      && z == SerializeList(b.transactions, EncodeTransaction)
      && |x| == |b.approvers| * SIGN_SIZE && |y| == |b.slashers| * SIGN_SIZE
  {
    x, y, z := [], [], [];
    var approvers := MarshalSignList(b.approvers);
    var slashers := MarshalSignList(b.slashers);
    ok := approvers.Some? && slashers.Some? && |b.transactions| <= MAX_TRANSACTIONS;
    if ok {
      var body := MarshalTransactions(b.transactions);
      ok := body.Some?;
      if ok {
        x, y, z := approvers.value, slashers.value, body.value;
      }
    }
  }

  lemma BlockWhole(b: Block, x: bytes, y: bytes, z: bytes, head: bytes)
    requires x == Join(b.approvers, EncodeSign) && y == Join(b.slashers, EncodeSign)
    requires z == SerializeList(b.transactions, EncodeTransaction)
    requires head == AllHeads(BlockShape(Bytes64(b.num), Bytes64(b.slot), b.version, b.hash, b.parent, Bytes64(b.timestamp),
                                         b.txroot, EncodeSign(b.proposer), x, y, z))
    ensures head + x + y + z == EncodeBlock(b)
  {
    BlockTails(Bytes64(b.num), Bytes64(b.slot), b.version, b.hash, b.parent, Bytes64(b.timestamp), b.txroot,
               EncodeSign(b.proposer), x, y, z);
  }

  /** MarshalSSZ of a block: its SSZ encoding, exactly when every nested record is within its limits. */
  method MarshalBlock(b: Block) returns (r: Option<bytes>)
    ensures r.Some? <==> ValidBlock(b)
    ensures r.Some? ==> r.value == EncodeBlock(b)
  {
    BlockOk(b);
    var ok, x, y, z := MarshalBlockLists(b);
    var head := MarshalBlockHead(b, x, y, z);
    r := None;
    if ok && head.Some? {
      BlockWhole(b, x, y, z, head.value);
      r := Some(head.value + x + y + z);
    }
  }

  // ----- unmarshalling

  function Prepend<T>(done: seq<T>, rest: Option<seq<T>>): Option<seq<T>>
  {
    if rest.None? then None else Some(done + rest.value)
  }

  lemma PrependStep<T>(done: seq<T>, x: T, rest: Option<seq<T>>)
    ensures Prepend([], rest) == rest
    ensures Prepend(done, Prepend([x], rest)) == Prepend(done + [x], rest)
    ensures Prepend(done, Some([])) == Some(done)
  {
    assert done + [] == done;
    if rest.Some? {
      Assoc(done, [x], rest.value);
      assert [] + rest.value == rest.value;
    }
  }

  lemma {:induction false} DecodeItemsSplit<T>(src: bytes, n: nat, i: nat, start: nat, end: nat, f: bytes -> Option<T>, done: seq<T>)
    requires i < n && start <= end <= |src| && ItemEnd(src, i, n) == Some(end) && f(src[start..end]).Some?
    ensures Prepend(done, DecodeItems(src, i, n, start, f))
         == Prepend(done + [f(src[start..end]).value], DecodeItems(src, i + 1, n, end, f))
  {
    PrependStep(done, f(src[start..end]).value, DecodeItems(src, i + 1, n, end, f));
  }

  /** UnmarshalDynamic: the loop reads each end offset from the table and hands the slice to the element decoder. */
  method UnmarshalDynamic<T>(src: bytes, n: nat, f: bytes -> Option<T>) returns (r: Option<seq<T>>)
    requires n > 0 ==> |src| >= 4
    ensures r == if n == 0 then Some([]) else DecodeItems(src, 0, n, Word32(src[..4]), f)
  {
    if n == 0 { return Some([]); }
    var items: seq<T> := [];
    var offset: nat := Word32(src[..4]);
    var dst := src[4..];
    var index := 0;
    ghost var all := DecodeItems(src, 0, n, offset, f);
    assert all == Prepend(items, all) by {
      if all.Some? { assert [] + all.value == all.value; }
    }
    while index < n
      invariant index <= n
      invariant index < n ==> |src| >= 4 * (index + 1) && dst == src[4 * (index + 1)..]
      invariant all == Prepend(items, DecodeItems(src, index, n, offset, f))
    {
      var end := |src|;
      if index + 1 != n {
        if |dst| < 4 { return None; }
        end := Word32(dst[..4]);
        dst := dst[4..];
        assert src[4 * (index + 1)..4 * (index + 2)] == src[4 * (index + 1)..][..4];
      }
      assert ItemEnd(src, index, n) == Some(end);
      if offset > end { return None; }
      if end > |src| { return None; }
      var item := f(src[offset..end]);
      if item.None? { return None; }
      DecodeItemsSplit(src, n, index, offset, end, f, items);
      items := items + [item.value];
      offset := end;
      index := index + 1;
    }
    assert items + [] == items;
    return Some(items);
  }

  /** DecodeDynamicLength: the length of a list is a quarter of its first offset. */
  method ReadLength(buf: bytes, limit: nat) returns (r: Option<nat>)
    ensures r == DynamicLength(buf, limit)
  {
    if |buf| == 0 { return Some(0); }
    if |buf| < 4 { return None; }
    var offset := Word32(buf[..4]);
    if offset % 4 != 0 { return None; }
    var length := offset / 4;
    if length > limit { return None; }
    return Some(length);
  }

  method UnmarshalList<T>(buf: bytes, limit: nat, f: bytes -> Option<T>) returns (r: Option<seq<T>>)
    ensures r == DecodeList(buf, limit, f)
  {
    var n := ReadLength(buf, limit);
    if n.None? { return None; }
    r := UnmarshalDynamic(buf, n.value, f);
  }

  /** UnmarshalSSZ of a sign. */
  method UnmarshalSign(buf: bytes) returns (r: Option<Sign>)
    ensures r == DecodeSign(buf)
  {
    if |buf| != 85 { return None; }
    return Some(Sign(buf[..20], buf[20..85]));
  }

  /** UnmarshalSSZ of an input. */
  method UnmarshalInput(buf: bytes) returns (r: Option<TxInput>)
    ensures r == DecodeInput(buf)
  {
    if |buf| < 68 { return None; }
    var hash, index, address, amount := buf[..32], Word32(buf[32..36]), buf[36..56], Word64(buf[56..64]);
    var o4 := Word32(buf[64..68]);
    if o4 > |buf| { return None; }
    if o4 < 68 { return None; }
    var node := buf[o4..];
    if |node| > 20 { return None; }
    return Some(TxInput(hash, index, address, amount, node));
  }

  /** UnmarshalSSZ of an output. */
  method UnmarshalOutput(buf: bytes) returns (r: Option<TxOutput>)
    ensures r == DecodeOutput(buf)
  {
    if |buf| < 32 { return None; }
    var address, amount := buf[..20], Word64(buf[20..28]);
    var o2 := Word32(buf[28..32]);
    if o2 > |buf| { return None; }
    if o2 < 32 { return None; }
    var node := buf[o2..];
    if |node| > 20 { return None; }
    return Some(TxOutput(address, amount, node));
  }

  /** UnmarshalSSZ of a transaction. */
  method UnmarshalTransaction(buf: bytes) returns (r: Option<Transaction>)
    ensures r == DecodeTransaction(buf)
  {
    if |buf| < 141 { return None; }
    var num := Word64(buf[..8]);
    var kind := Word32(buf[8..12]);
    var timestamp := Word64(buf[12..20]);
    var hash := buf[20..52];
    var fee := Word64(buf[52..60]);
    var o5 := Word32(buf[60..64]);
    if o5 > |buf| { return None; }
    if o5 < 141 { return None; }
    var o6 := Word32(buf[64..68]);
    if o6 > |buf| || o5 > o6 { return None; }
    var o7 := Word32(buf[68..72]);
    if o7 > |buf| || o6 > o7 { return None; }
    var signature := buf[72..137];
    var status := Word32(buf[137..141]);
    var data := buf[o5..o6];
    if |data| > MAX_DATA { return None; }
    var ins := UnmarshalList(buf[o6..o7], MAX_OUTPUTS, DecodeInput);
    if ins.None? { return None; }
    var outs := UnmarshalList(buf[o7..], MAX_OUTPUTS, DecodeOutput);
    if outs.None? { return None; }
    return Some(Transaction(num, kind, timestamp, hash, fee, data, ins.value, outs.value, signature, status));
  }

  lemma DecodeSignsStep(buf: bytes, i: nat, n: nat, done: seq<Sign>)
    requires i < n && |buf| == n * SIGN_SIZE
    ensures (i + 1) * SIGN_SIZE <= |buf|
    ensures var s := DecodeSign(buf[i * SIGN_SIZE..(i + 1) * SIGN_SIZE]);
      Prepend(done, DecodeSigns(buf, i, n)) == if s.None? then None else Prepend(done + [s.value], DecodeSigns(buf, i + 1, n))
  {
    assert (i + 1) * SIGN_SIZE <= n * SIGN_SIZE;
    var s := DecodeSign(buf[i * SIGN_SIZE..(i + 1) * SIGN_SIZE]);
    if s.Some? {
      PrependStep(done, s.value, DecodeSigns(buf, i + 1, n));
    }
  }

  method UnmarshalSigns(buf: bytes) returns (r: Option<seq<Sign>>)
    ensures r == DecodeSignList(buf)
  {
    if |buf| % SIGN_SIZE != 0 { return None; }
    var n := |buf| / SIGN_SIZE;
    if n > MAX_SIGNS { return None; }
    assert |buf| == n * SIGN_SIZE;
    var signs: seq<Sign> := [];
    var k := 0;
    ghost var all := DecodeSigns(buf, 0, n);
    assert all == Prepend(signs, all) by {
      if all.Some? { assert [] + all.value == all.value; }
    }
    while k < n
      invariant k <= n
      invariant all == Prepend(signs, DecodeSigns(buf, k, n))
    {
      DecodeSignsStep(buf, k, n, signs);
      var s := UnmarshalSign(buf[k * SIGN_SIZE..(k + 1) * SIGN_SIZE]);
      if s.None? { return None; }
      signs := signs + [s.value];
      k := k + 1;
    }
    assert signs + [] == signs;
    return Some(signs);
  }

  /** UnmarshalSSZ of a block. */
  method UnmarshalBlock(buf: bytes) returns (r: Option<Block>)
    ensures r == DecodeBlock(buf)
  {
    if |buf| < 220 { return None; }
    var proposer := UnmarshalSign(buf[123..208]);
    if proposer.None? { return None; }
    var o8 := Word32(buf[208..212]);
    if o8 > |buf| { return None; }
    if o8 < 220 { return None; }
    var o9 := Word32(buf[212..216]);
    if o9 > |buf| || o8 > o9 { return None; }
    var o10 := Word32(buf[216..220]);
    if o10 > |buf| || o9 > o10 { return None; }
    var approvers := UnmarshalSigns(buf[o8..o9]);
    if approvers.None? { return None; }
    var slashers := UnmarshalSigns(buf[o9..o10]);
    if slashers.None? { return None; }
    var ts := UnmarshalList(buf[o10..], MAX_TRANSACTIONS, DecodeTransaction);
    if ts.None? { return None; }
    return Some(Block(Word64(buf[..8]), Word64(buf[8..16]), buf[16..19], buf[19..51], buf[51..83],
                      Word64(buf[83..91]), buf[91..123], proposer.value, approvers.value, slashers.value, ts.value));
  }
}
