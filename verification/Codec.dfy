/**
 The generated SSZ codec of the chain's records (proto/prototype/types.pb_encoding.go). Encodings are defined
 by the standard's container rule; decoders are the code's checks and slices. The imperative marshallers
 and unmarshallers, with their running offsets, are proved against both.
 */
module Codec {
  import opened Words
  import opened Proto
  import opened Ssz

  // ----- encodings, by the standard

  function EncodeSign(s: Sign): bytes
  {
    s.address + s.signature
  }

  function InputParts(i: TxInput): (r: seq<Part>)
  {
    [Fixed(i.hash), Fixed(Bytes32(i.index)), Fixed(i.address), Fixed(Bytes64(i.amount)), Variable(i.node)]
  }

  function EncodeInput(i: TxInput): bytes
  {
    Serialize(InputParts(i))
  }

  function OutputParts(o: TxOutput): (r: seq<Part>)
  {
    [Fixed(o.address), Fixed(Bytes64(o.amount)), Variable(o.node)]
  }

  function EncodeOutput(o: TxOutput): bytes
  {
    Serialize(OutputParts(o))
  }

  /** The parts of a transaction container: five fixed fields, three variable ones, two fixed ones. */
  function TransactionShape(a: bytes, b: bytes, c: bytes, d: bytes, e: bytes,
                            x: bytes, y: bytes, z: bytes, f: bytes, g: bytes): (r: seq<Part>)
  {
    [Fixed(a), Fixed(b), Fixed(c), Fixed(d), Fixed(e), Variable(x), Variable(y), Variable(z), Fixed(f), Fixed(g)]
  }

  function TransactionParts(t: Transaction): (r: seq<Part>)
  {
    TransactionShape(Bytes64(t.num), Bytes32(t.kind), Bytes64(t.timestamp), t.hash, Bytes64(t.fee),
                     t.data, SerializeList(t.inputs, EncodeInput), SerializeList(t.outputs, EncodeOutput),
                     t.signature, Bytes32(t.status))
  }

  function EncodeTransaction(t: Transaction): bytes
  {
    Serialize(TransactionParts(t))
  }

  /** The parts of a block container: eight fixed fields, then three variable ones. */
  function BlockShape(a: bytes, b: bytes, c: bytes, d: bytes, e: bytes, f: bytes, g: bytes, h: bytes,
                      x: bytes, y: bytes, z: bytes): (r: seq<Part>)
  {
    [Fixed(a), Fixed(b), Fixed(c), Fixed(d), Fixed(e), Fixed(f), Fixed(g), Fixed(h), Variable(x), Variable(y), Variable(z)]
  }

  function BlockParts(b: Block): (r: seq<Part>)
  {
    BlockShape(Bytes64(b.num), Bytes64(b.slot), b.version, b.hash, b.parent, Bytes64(b.timestamp), b.txroot,
               EncodeSign(b.proposer), Join(b.approvers, EncodeSign), Join(b.slashers, EncodeSign),
               SerializeList(b.transactions, EncodeTransaction))
  }

  function EncodeBlock(b: Block): bytes
  {
    Serialize(BlockParts(b))
  }

  // ----- layouts: literal head positions

  lemma InputLayout(i: TxInput)
    requires ValidInput(i)
    ensures var ps := InputParts(i);
      && HeadAt(ps, 0) == 0 && HeadAt(ps, 1) == 32 && HeadAt(ps, 2) == 36 && HeadAt(ps, 3) == 56
      && HeadAt(ps, 4) == 64 && HeadAt(ps, 5) == 68
      && OffsetOf(ps, 4) == 68 && OffsetOf(ps, 5) == InputSize(i)
  {
    var ps := InputParts(i);
    Step(ps, 0); Step(ps, 1); Step(ps, 2); Step(ps, 3); Step(ps, 4);
  }

  lemma OutputLayout(o: TxOutput)
    requires ValidOutput(o)
    ensures var ps := OutputParts(o);
      && HeadAt(ps, 0) == 0 && HeadAt(ps, 1) == 20 && HeadAt(ps, 2) == 28 && HeadAt(ps, 3) == 32
      && OffsetOf(ps, 2) == 32 && OffsetOf(ps, 3) == OutputSize(o)
  {
    var ps := OutputParts(o);
    Step(ps, 0); Step(ps, 1); Step(ps, 2);
  }

  lemma TransactionLayout(a: bytes, b: bytes, c: bytes, d: bytes, e: bytes, x: bytes, y: bytes, z: bytes, f: bytes, g: bytes)
    requires |a| == 8 && |b| == 4 && |c| == 8 && |d| == 32 && |e| == 8 && |f| == 65 && |g| == 4
    ensures var ps := TransactionShape(a, b, c, d, e, x, y, z, f, g);
      && HeadAt(ps, 0) == 0 && HeadAt(ps, 1) == 8 && HeadAt(ps, 2) == 12 && HeadAt(ps, 3) == 20
      && HeadAt(ps, 4) == 52 && HeadAt(ps, 5) == 60 && HeadAt(ps, 6) == 64 && HeadAt(ps, 7) == 68
      && HeadAt(ps, 8) == 72 && HeadAt(ps, 9) == 137 && HeadAt(ps, 10) == 141
      && OffsetOf(ps, 5) == 141
      && OffsetOf(ps, 6) == 141 + |x|
      && OffsetOf(ps, 7) == 141 + |x| + |y|
      && OffsetOf(ps, 8) == 141 + |x| + |y| + |z| == |Serialize(ps)|
  {
    var ps := TransactionShape(a, b, c, d, e, x, y, z, f, g);
    Step(ps, 0); Step(ps, 1); Step(ps, 2); Step(ps, 3); Step(ps, 4);
    Step(ps, 5); Step(ps, 6); Step(ps, 7); Step(ps, 8); Step(ps, 9);
  }

  /** Every field of a serialized transaction at its literal position, in terms of the bytes of its fields. */
  lemma TransactionSlices(a: bytes, b: bytes, c: bytes, d: bytes, e: bytes, x: bytes, y: bytes, z: bytes, f: bytes, g: bytes)
    requires |a| == 8 && |b| == 4 && |c| == 8 && |d| == 32 && |e| == 8 && |f| == 65 && |g| == 4
    requires 141 + |x| + |y| + |z| < U32
    ensures var r := Serialize(TransactionShape(a, b, c, d, e, x, y, z, f, g));
      && |r| == 141 + |x| + |y| + |z|
      && r[..8] == a && r[8..12] == b && r[12..20] == c && r[20..52] == d && r[52..60] == e
      && Word32(r[60..64]) == 141 && Word32(r[64..68]) == 141 + |x| && Word32(r[68..72]) == 141 + |x| + |y|
      && r[72..137] == f && r[137..141] == g
      && r[141..141 + |x|] == x && r[141 + |x|..141 + |x| + |y|] == y && r[141 + |x| + |y|..] == z
  {
    var ps := TransactionShape(a, b, c, d, e, x, y, z, f, g);
    var r := Serialize(ps);
    TransactionLayout(a, b, c, d, e, x, y, z, f, g);
    HeadInPlace(ps, 0); HeadInPlace(ps, 1); HeadInPlace(ps, 2); HeadInPlace(ps, 3); HeadInPlace(ps, 4);
    HeadInPlace(ps, 5); HeadInPlace(ps, 6); HeadInPlace(ps, 7); HeadInPlace(ps, 8); HeadInPlace(ps, 9);
    TailInPlace(ps, 5); TailInPlace(ps, 6); TailInPlace(ps, 7);
    OffsetRoundTrip(141); OffsetRoundTrip(141 + |x|); OffsetRoundTrip(141 + |x| + |y|);
    assert r[..8] == r[0..8];
    assert r[141 + |x| + |y|..] == r[141 + |x| + |y|..|r|];
  }

  lemma BlockLayout(a: bytes, b: bytes, c: bytes, d: bytes, e: bytes, f: bytes, g: bytes, h: bytes, x: bytes, y: bytes, z: bytes)
    requires |a| == 8 && |b| == 8 && |c| == 3 && |d| == 32 && |e| == 32 && |f| == 8 && |g| == 32 && |h| == 85
    ensures var ps := BlockShape(a, b, c, d, e, f, g, h, x, y, z);
      && HeadAt(ps, 0) == 0 && HeadAt(ps, 1) == 8 && HeadAt(ps, 2) == 16 && HeadAt(ps, 3) == 19
      && HeadAt(ps, 4) == 51 && HeadAt(ps, 5) == 83 && HeadAt(ps, 6) == 91 && HeadAt(ps, 7) == 123
      && HeadAt(ps, 8) == 208 && HeadAt(ps, 9) == 212 && HeadAt(ps, 10) == 216 && HeadAt(ps, 11) == 220
      && OffsetOf(ps, 8) == 220
      && OffsetOf(ps, 9) == 220 + |x|
      && OffsetOf(ps, 10) == 220 + |x| + |y|
      && OffsetOf(ps, 11) == 220 + |x| + |y| + |z| == |Serialize(ps)|
  {
    var ps := BlockShape(a, b, c, d, e, f, g, h, x, y, z);
    Step(ps, 0); Step(ps, 1); Step(ps, 2); Step(ps, 3); Step(ps, 4); Step(ps, 5);
    Step(ps, 6); Step(ps, 7); Step(ps, 8); Step(ps, 9); Step(ps, 10);
  }

  /** Every field of a serialized block at its literal position, in terms of the bytes of its fields. */
  lemma BlockSlices(a: bytes, b: bytes, c: bytes, d: bytes, e: bytes, f: bytes, g: bytes, h: bytes, x: bytes, y: bytes, z: bytes)
    requires |a| == 8 && |b| == 8 && |c| == 3 && |d| == 32 && |e| == 32 && |f| == 8 && |g| == 32 && |h| == 85
    requires 220 + |x| + |y| + |z| < U32
    ensures var r := Serialize(BlockShape(a, b, c, d, e, f, g, h, x, y, z));
      && |r| == 220 + |x| + |y| + |z|
      && r[..8] == a && r[8..16] == b && r[16..19] == c && r[19..51] == d && r[51..83] == e && r[83..91] == f
      && r[91..123] == g && r[123..208] == h
      && Word32(r[208..212]) == 220 && Word32(r[212..216]) == 220 + |x| && Word32(r[216..220]) == 220 + |x| + |y|
      && r[220..220 + |x|] == x && r[220 + |x|..220 + |x| + |y|] == y && r[220 + |x| + |y|..] == z
  {
    var ps := BlockShape(a, b, c, d, e, f, g, h, x, y, z);
    var r := Serialize(ps);
    BlockLayout(a, b, c, d, e, f, g, h, x, y, z);
    HeadInPlace(ps, 0); HeadInPlace(ps, 1); HeadInPlace(ps, 2); HeadInPlace(ps, 3); HeadInPlace(ps, 4); HeadInPlace(ps, 5);
    HeadInPlace(ps, 6); HeadInPlace(ps, 7); HeadInPlace(ps, 8); HeadInPlace(ps, 9); HeadInPlace(ps, 10);
    TailInPlace(ps, 8); TailInPlace(ps, 9); TailInPlace(ps, 10);
    OffsetRoundTrip(220); OffsetRoundTrip(220 + |x|); OffsetRoundTrip(220 + |x| + |y|);
    assert r[..8] == r[0..8];
    assert r[220 + |x| + |y|..] == r[220 + |x| + |y|..|r|];
  }

  // ----- sizes: SizeSSZ is the length of the encoding

  lemma {:induction false} ListLength<T>(ps: seq<Part>, k: nat, xs: seq<T>, size: T -> nat)
    requires |ps| == |xs| && k <= |xs|
    requires forall i | 0 <= i < |xs| :: ps[i].Variable? && |ps[i].body| == size(xs[i])
    ensures TailAt(ps, k) + 4 * k == Total(xs[..k], size)
  {
    if k > 0 {
      ListLength(ps, k - 1, xs, size);
      assert xs[..k][..k - 1] == xs[..k - 1];
    }
  }

  ghost function Total<T>(xs: seq<T>, size: T -> nat): nat
  {
    if xs == [] then 0 else Total(xs[..|xs| - 1], size) + 4 + size(xs[|xs| - 1])
  }

  lemma SerializedListLength<T>(xs: seq<T>, enc: T -> bytes, size: T -> nat)
    requires forall i | 0 <= i < |xs| :: |enc(xs[i])| == size(xs[i])
    ensures |SerializeList(xs, enc)| == Total(xs, size)
  {
    var ps := Parts(Apply(xs, enc));
    ListHeads(ps, |ps|);
    ListLength(ps, |ps|, xs, size);
    assert xs[..|ps|] == xs;
  }

  lemma InputLength(i: TxInput)
    requires ValidInput(i)
    ensures |EncodeInput(i)| == InputSize(i)
  {
    InputLayout(i);
  }

  lemma OutputLength(o: TxOutput)
    requires ValidOutput(o)
    ensures |EncodeOutput(o)| == OutputSize(o)
  {
    OutputLayout(o);
  }

  lemma {:induction false} TotalInputs(ins: seq<TxInput>)
    ensures Total(ins, InputSize) == InputsSize(ins)
  {
    if ins != [] {
      TotalInputs(ins[..|ins| - 1]);
    }
  }

  lemma {:induction false} TotalOutputs(outs: seq<TxOutput>)
    ensures Total(outs, OutputSize) == OutputsSize(outs)
  {
    if outs != [] {
      TotalOutputs(outs[..|outs| - 1]);
    }
  }

  lemma {:induction false} TotalTransactions(ts: seq<Transaction>)
    ensures Total(ts, TransactionSize) == TransactionsSize(ts)
  {
    if ts != [] {
      TotalTransactions(ts[..|ts| - 1]);
    }
  }

  lemma InputsLength(ins: seq<TxInput>)
    requires forall i | 0 <= i < |ins| :: ValidInput(ins[i])
    ensures |SerializeList(ins, EncodeInput)| == InputsSize(ins)
  {
    forall i | 0 <= i < |ins| ensures |EncodeInput(ins[i])| == InputSize(ins[i]) {
      InputLength(ins[i]);
    }
    SerializedListLength(ins, EncodeInput, InputSize);
    TotalInputs(ins);
  }

  lemma OutputsLength(outs: seq<TxOutput>)
    requires forall i | 0 <= i < |outs| :: ValidOutput(outs[i])
    ensures |SerializeList(outs, EncodeOutput)| == OutputsSize(outs)
  {
    forall i | 0 <= i < |outs| ensures |EncodeOutput(outs[i])| == OutputSize(outs[i]) {
      OutputLength(outs[i]);
    }
    SerializedListLength(outs, EncodeOutput, OutputSize);
    TotalOutputs(outs);
  }

  /** SizeSSZ of a transaction, which also sets its fee, is the length of its encoding. */
  lemma TransactionLength(t: Transaction)
    requires ValidTransaction(t)
    ensures |EncodeTransaction(t)| == TransactionSize(t)
  {
    TransactionLayout(Bytes64(t.num), Bytes32(t.kind), Bytes64(t.timestamp), t.hash, Bytes64(t.fee), t.data,
                      SerializeList(t.inputs, EncodeInput), SerializeList(t.outputs, EncodeOutput), t.signature, Bytes32(t.status));
    InputsLength(t.inputs);
    OutputsLength(t.outputs);
  }

  lemma TransactionsLength(ts: seq<Transaction>)
    requires forall i | 0 <= i < |ts| :: ValidTransaction(ts[i])
    ensures |SerializeList(ts, EncodeTransaction)| == TransactionsSize(ts)
  {
    forall i | 0 <= i < |ts| ensures |EncodeTransaction(ts[i])| == TransactionSize(ts[i]) {
      TransactionLength(ts[i]);
    }
    SerializedListLength(ts, EncodeTransaction, TransactionSize);
    TotalTransactions(ts);
  }

  lemma SignsLength(ss: seq<Sign>)
    requires forall i | 0 <= i < |ss| :: ValidSign(ss[i])
    ensures |Join(ss, EncodeSign)| == |ss| * SIGN_SIZE
  {
    JoinLength(ss, EncodeSign, SIGN_SIZE);
  }

  /** SizeSSZ of a block is the length of its encoding. */
  lemma BlockLength(b: Block)
    requires ValidBlock(b)
    ensures |EncodeBlock(b)| == BlockSize(b)
  {
    BlockLayout(Bytes64(b.num), Bytes64(b.slot), b.version, b.hash, b.parent, Bytes64(b.timestamp), b.txroot,
                EncodeSign(b.proposer), Join(b.approvers, EncodeSign), Join(b.slashers, EncodeSign),
                SerializeList(b.transactions, EncodeTransaction));
    BlockFieldsLength(b);
  }

  lemma {:induction false} TotalBound<T>(xs: seq<T>, size: T -> nat, most: nat)
    requires forall i | 0 <= i < |xs| :: size(xs[i]) <= most
    ensures Total(xs, size) <= |xs| * (most + 4)
  {
    if xs != [] {
      TotalBound(xs[..|xs| - 1], size, most);
      assert (|xs| - 1) * (most + 4) + (most + 4) == |xs| * (most + 4);
    }
  }

  const MAX_TRANSACTION_SIZE: nat := 1296141

  lemma TransactionSizeBound(t: Transaction)
    requires ValidTransaction(t)
    ensures InputsSize(t.inputs) <= 184000 && OutputsSize(t.outputs) <= 112000
    ensures TransactionSize(t) <= MAX_TRANSACTION_SIZE
  {
    TotalBound(t.inputs, InputSize, 88);
    TotalBound(t.outputs, OutputSize, 52);
    TotalInputs(t.inputs);
    TotalOutputs(t.outputs);
    assert |t.inputs| * 92 <= MAX_OUTPUTS * 92;
    assert |t.outputs| * 56 <= MAX_OUTPUTS * 56;
  }

  /** The list limits keep every offset of a valid block below 2^32, so WriteOffset never cuts one. */
  lemma BlockSizeBound(b: Block)
    requires ValidBlock(b)
    ensures BlockSize(b) < U32
  {
    forall i | 0 <= i < |b.transactions| ensures TransactionSize(b.transactions[i]) <= MAX_TRANSACTION_SIZE {
      TransactionSizeBound(b.transactions[i]);
    }
    TotalBound(b.transactions, TransactionSize, MAX_TRANSACTION_SIZE);
    TotalTransactions(b.transactions);
    assert |b.transactions| * (MAX_TRANSACTION_SIZE + 4) <= MAX_TRANSACTIONS * (MAX_TRANSACTION_SIZE + 4);
  }

  // ----- decoders, as the code checks and slices

  function DecodeSign(buf: bytes): (r: Option<Sign>)
    ensures r.Some? ==> ValidSign(r.value)
  {
    if |buf| != 85 then None else Some(Sign(buf[..20], buf[20..85]))
  }

  function DecodeInput(buf: bytes): (r: Option<TxInput>)
    ensures r.Some? ==> ValidInput(r.value)
  {
    if |buf| < 68 then None
    else
      var o4 := Word32(buf[64..68]);
      if o4 > |buf| || o4 < 68 || |buf| - o4 > MAX_NODE then None
      else Some(TxInput(buf[..32], Word32(buf[32..36]), buf[36..56], Word64(buf[56..64]), buf[o4..]))
  }

  function DecodeOutput(buf: bytes): (r: Option<TxOutput>)
    ensures r.Some? ==> ValidOutput(r.value)
  {
    if |buf| < 32 then None
    else
      var o2 := Word32(buf[28..32]);
      if o2 > |buf| || o2 < 32 || |buf| - o2 > MAX_NODE then None
      else Some(TxOutput(buf[..20], Word64(buf[20..28]), buf[o2..]))
  }

  function DecodeTransaction(buf: bytes): (r: Option<Transaction>)
  {
    if |buf| < 141 then None
    else
      var o5 := Word32(buf[60..64]);
      var o6 := Word32(buf[64..68]);
      var o7 := Word32(buf[68..72]);
      if o5 > |buf| || o5 < 141 || o6 > |buf| || o5 > o6 || o7 > |buf| || o6 > o7 || o6 - o5 > MAX_DATA then None
      else
        var ins := DecodeList(buf[o6..o7], MAX_OUTPUTS, DecodeInput);
        if ins.None? then None
        else
          var outs := DecodeList(buf[o7..], MAX_OUTPUTS, DecodeOutput);
          if outs.None? then None
          else Some(Transaction(Word64(buf[..8]), Word32(buf[8..12]), Word64(buf[12..20]), buf[20..52], Word64(buf[52..60]),
                                buf[o5..o6], ins.value, outs.value, buf[72..137], Word32(buf[137..141])))
  }

  function DecodeSigns(buf: bytes, i: nat, n: nat): (r: Option<seq<Sign>>)
    requires i <= n && |buf| == n * SIGN_SIZE
    ensures r.Some? ==> |r.value| == n - i
    decreases n - i
  {
    if i == n then Some([])
    else
      assert (i + 1) * SIGN_SIZE <= n * SIGN_SIZE;
      var s := DecodeSign(buf[i * SIGN_SIZE..(i + 1) * SIGN_SIZE]);
      if s.None? then None
      else
        var rest := DecodeSigns(buf, i + 1, n);
        if rest.None? then None else Some([s.value] + rest.value)
  }

  /** DivideInt2 by the width of a signature, then one UnmarshalSSZ per element. */
  function DecodeSignList(buf: bytes): (r: Option<seq<Sign>>)
    ensures r.Some? ==> |r.value| <= MAX_SIGNS
  {
    if |buf| % SIGN_SIZE != 0 || |buf| / SIGN_SIZE > MAX_SIGNS then None
    else DecodeSigns(buf, 0, |buf| / SIGN_SIZE)
  }

  function DecodeBlock(buf: bytes): (r: Option<Block>)
  {
    if |buf| < 220 then None
    else
      var proposer := DecodeSign(buf[123..208]);
      var o8 := Word32(buf[208..212]);
      var o9 := Word32(buf[212..216]);
      var o10 := Word32(buf[216..220]);
      if proposer.None? || o8 > |buf| || o8 < 220 || o9 > |buf| || o8 > o9 || o10 > |buf| || o9 > o10 then None
      else
        var approvers := DecodeSignList(buf[o8..o9]);
        if approvers.None? then None
        else
          var slashers := DecodeSignList(buf[o9..o10]);
          if slashers.None? then None
          else
            var ts := DecodeList(buf[o10..], MAX_TRANSACTIONS, DecodeTransaction);
            if ts.None? then None
            else Some(Block(Word64(buf[..8]), Word64(buf[8..16]), buf[16..19], buf[19..51], buf[51..83],
                            Word64(buf[83..91]), buf[91..123], proposer.value, approvers.value, slashers.value, ts.value))
  }

  // ----- round trips

  lemma SignRoundTrip(s: Sign)
    requires ValidSign(s)
    ensures DecodeSign(EncodeSign(s)) == Some(s)
  {
    assert EncodeSign(s)[..20] == s.address;
    assert EncodeSign(s)[20..85] == s.signature;
  }

  lemma InputRoundTrip(i: TxInput)
    requires ValidInput(i)
    ensures DecodeInput(EncodeInput(i)) == Some(i)
  {
    var ps, e := InputParts(i), EncodeInput(i);
    InputLayout(i);
    HeadInPlace(ps, 0); HeadInPlace(ps, 1); HeadInPlace(ps, 2); HeadInPlace(ps, 3); HeadInPlace(ps, 4);
    TailInPlace(ps, 4);
    WordRoundTrip(i.index, i.amount);
    OffsetRoundTrip(68);
    assert e[..32] == e[0..32];
    assert e[68..] == e[68..|e|];
  }

  lemma OutputRoundTrip(o: TxOutput)
    requires ValidOutput(o)
    ensures DecodeOutput(EncodeOutput(o)) == Some(o)
  {
    var ps, e := OutputParts(o), EncodeOutput(o);
    OutputLayout(o);
    HeadInPlace(ps, 0); HeadInPlace(ps, 1); HeadInPlace(ps, 2);
    TailInPlace(ps, 2);
    WordRoundTrip(0, o.amount);
    OffsetRoundTrip(32);
    assert e[..20] == e[0..20];
    assert e[32..] == e[32..|e|];
  }

  lemma TransactionListsRoundTrip(t: Transaction)
    requires ValidTransaction(t)
    ensures DecodeList(SerializeList(t.inputs, EncodeInput), MAX_OUTPUTS, DecodeInput) == Some(t.inputs)
    ensures DecodeList(SerializeList(t.outputs, EncodeOutput), MAX_OUTPUTS, DecodeOutput) == Some(t.outputs)
  {
    TransactionSizeBound(t);
    InputsLength(t.inputs);
    OutputsLength(t.outputs);
    forall k | 0 <= k < |t.inputs| ensures DecodeInput(EncodeInput(t.inputs[k])) == Some(t.inputs[k]) {
      InputRoundTrip(t.inputs[k]);
    }
    forall k | 0 <= k < |t.outputs| ensures DecodeOutput(EncodeOutput(t.outputs[k])) == Some(t.outputs[k]) {
      OutputRoundTrip(t.outputs[k]);
    }
    DecodeListInverts(t.inputs, MAX_OUTPUTS, EncodeInput, DecodeInput);
    DecodeListInverts(t.outputs, MAX_OUTPUTS, EncodeOutput, DecodeOutput);
  }

  /** Unmarshalling a marshalled transaction gives it back. */
  lemma TransactionRoundTrip(t: Transaction)
    requires ValidTransaction(t)
    ensures DecodeTransaction(EncodeTransaction(t)) == Some(t)
  {
    TransactionFieldsLength(t);
    TransactionListsRoundTrip(t);
    DecodeShape(t, SerializeList(t.inputs, EncodeInput), SerializeList(t.outputs, EncodeOutput));
  }

  lemma DecodeShape(t: Transaction, ins: bytes, outs: bytes)
    requires |t.hash| == 32 && |t.signature| == 65 && |t.data| <= MAX_DATA
    requires 141 + |t.data| + |ins| + |outs| < U32
    requires DecodeList(ins, MAX_OUTPUTS, DecodeInput) == Some(t.inputs)
    requires DecodeList(outs, MAX_OUTPUTS, DecodeOutput) == Some(t.outputs)
    ensures DecodeTransaction(Serialize(TransactionShape(Bytes64(t.num), Bytes32(t.kind), Bytes64(t.timestamp), t.hash,
              Bytes64(t.fee), t.data, ins, outs, t.signature, Bytes32(t.status)))) == Some(t)
  {
    var e := Serialize(TransactionShape(Bytes64(t.num), Bytes32(t.kind), Bytes64(t.timestamp), t.hash,
                                        Bytes64(t.fee), t.data, ins, outs, t.signature, Bytes32(t.status)));
    TransactionSlices(Bytes64(t.num), Bytes32(t.kind), Bytes64(t.timestamp), t.hash,
                      Bytes64(t.fee), t.data, ins, outs, t.signature, Bytes32(t.status));
    DecodeFromSlices(e, t, 141 + |t.data|, 141 + |t.data| + |ins|);
  }

  lemma TransactionFieldsLength(t: Transaction)
    requires ValidTransaction(t)
    ensures 141 + |t.data| + |SerializeList(t.inputs, EncodeInput)| + |SerializeList(t.outputs, EncodeOutput)| < U32
  {
    TransactionSizeBound(t);
    InputsLength(t.inputs);
    OutputsLength(t.outputs);
  }

  lemma DecodeFromSlices(e: bytes, t: Transaction, o6: nat, o7: nat)
    requires |t.data| <= MAX_DATA
    requires 141 <= o6 <= o7 <= |e|
    requires e[..8] == Bytes64(t.num) && e[8..12] == Bytes32(t.kind) && e[12..20] == Bytes64(t.timestamp)
    requires e[20..52] == t.hash && e[52..60] == Bytes64(t.fee)
    requires Word32(e[60..64]) == 141 && Word32(e[64..68]) == o6 && Word32(e[68..72]) == o7
    requires e[72..137] == t.signature && e[137..141] == Bytes32(t.status)
    requires e[141..o6] == t.data
    requires DecodeList(e[o6..o7], MAX_OUTPUTS, DecodeInput) == Some(t.inputs)
    requires DecodeList(e[o7..], MAX_OUTPUTS, DecodeOutput) == Some(t.outputs)
    ensures DecodeTransaction(e) == Some(t)
  {
    WordRoundTrip(t.kind, t.num);
    WordRoundTrip(t.status, t.timestamp);
    WordRoundTrip(0, t.fee);
    assert |e[141..o6]| == o6 - 141;
  }

  lemma {:induction false} DecodeSignsInverts(ss: seq<Sign>, i: nat)
    requires i <= |ss|
    requires forall k | 0 <= k < |ss| :: ValidSign(ss[k])
    ensures |Join(ss, EncodeSign)| == |ss| * SIGN_SIZE
    ensures DecodeSigns(Join(ss, EncodeSign), i, |ss|) == Some(ss[i..])
    decreases |ss| - i
  {
    SignsLength(ss);
    if i < |ss| {
      JoinAt(ss, EncodeSign, SIGN_SIZE, i);
      SignRoundTrip(ss[i]);
      assert Join(ss, EncodeSign)[i * SIGN_SIZE..(i + 1) * SIGN_SIZE] == EncodeSign(ss[i]);
      DecodeSignsInverts(ss, i + 1);
      assert ss[i..] == [ss[i]] + ss[i + 1..];
    } else {
      assert ss[i..] == [];
    }
  }

  lemma WholeSigns(buf: bytes, n: nat)
    requires |buf| == n * SIGN_SIZE && n <= MAX_SIGNS
    ensures DecodeSignList(buf) == DecodeSigns(buf, 0, n)
  {
    assert |buf| / SIGN_SIZE == n;
  }

  lemma SignListRoundTrip(ss: seq<Sign>)
    requires |ss| <= MAX_SIGNS
    requires forall k | 0 <= k < |ss| :: ValidSign(ss[k])
    ensures DecodeSignList(Join(ss, EncodeSign)) == Some(ss)
  {
    var none := 0;
    DecodeSignsInverts(ss, none);
    WholeSigns(Join(ss, EncodeSign), |ss|);
    assert ss[none..] == ss;
  }

  /** Unmarshalling a marshalled block gives it back, nested lists and all. */
  lemma BlockRoundTrip(b: Block)
    requires ValidBlock(b)
    ensures DecodeBlock(EncodeBlock(b)) == Some(b)
  {
    BlockSizeBound(b);
    BlockFieldsLength(b);
    SignRoundTrip(b.proposer);
    SignListRoundTrip(b.approvers);
    SignListRoundTrip(b.slashers);
    BlockTransactionsRoundTrip(b);
    DecodeBlockShape(b, EncodeSign(b.proposer), Join(b.approvers, EncodeSign), Join(b.slashers, EncodeSign),
                     SerializeList(b.transactions, EncodeTransaction));
  }

  lemma DecodeBlockShape(b: Block, p: bytes, x: bytes, y: bytes, z: bytes)
    requires |b.version| == 3 && |b.hash| == 32 && |b.parent| == 32 && |b.txroot| == 32 && |p| == 85
    requires 220 + |x| + |y| + |z| < U32
    requires DecodeSign(p) == Some(b.proposer)
    requires DecodeSignList(x) == Some(b.approvers)
    requires DecodeSignList(y) == Some(b.slashers)
    requires DecodeList(z, MAX_TRANSACTIONS, DecodeTransaction) == Some(b.transactions)
    ensures DecodeBlock(Serialize(BlockShape(Bytes64(b.num), Bytes64(b.slot), b.version, b.hash, b.parent,
              Bytes64(b.timestamp), b.txroot, p, x, y, z))) == Some(b)
  {
    var e := Serialize(BlockShape(Bytes64(b.num), Bytes64(b.slot), b.version, b.hash, b.parent,
                                  Bytes64(b.timestamp), b.txroot, p, x, y, z));
    BlockSlices(Bytes64(b.num), Bytes64(b.slot), b.version, b.hash, b.parent, Bytes64(b.timestamp), b.txroot, p, x, y, z);
    DecodeBlockFromSlices(e, b, 220 + |x|, 220 + |x| + |y|);
  }

  lemma BlockFieldsLength(b: Block)
    requires ValidBlock(b)
    ensures 220 + |Join(b.approvers, EncodeSign)| + |Join(b.slashers, EncodeSign)|
              + |SerializeList(b.transactions, EncodeTransaction)| == BlockSize(b)
  {
    SignsLength(b.approvers);
    SignsLength(b.slashers);
    TransactionsLength(b.transactions);
  }

  lemma DecodeBlockFromSlices(e: bytes, b: Block, o9: nat, o10: nat)
    requires 220 <= o9 <= o10 <= |e|
    requires e[..8] == Bytes64(b.num) && e[8..16] == Bytes64(b.slot) && e[16..19] == b.version
    requires e[19..51] == b.hash && e[51..83] == b.parent && e[83..91] == Bytes64(b.timestamp) && e[91..123] == b.txroot
    requires DecodeSign(e[123..208]) == Some(b.proposer)
    requires Word32(e[208..212]) == 220 && Word32(e[212..216]) == o9 && Word32(e[216..220]) == o10
    requires DecodeSignList(e[220..o9]) == Some(b.approvers)
    requires DecodeSignList(e[o9..o10]) == Some(b.slashers)
    requires DecodeList(e[o10..], MAX_TRANSACTIONS, DecodeTransaction) == Some(b.transactions)
    ensures DecodeBlock(e) == Some(b)
  {
    WordRoundTrip(0, b.num);
    WordRoundTrip(0, b.slot);
    WordRoundTrip(0, b.timestamp);
  }

  lemma BlockTransactionsRoundTrip(b: Block)
    requires ValidBlock(b)
    ensures DecodeList(SerializeList(b.transactions, EncodeTransaction), MAX_TRANSACTIONS, DecodeTransaction)
         == Some(b.transactions)
  {
    BlockSizeBound(b);
    TransactionsLength(b.transactions);
    forall k | 0 <= k < |b.transactions|
      ensures DecodeTransaction(EncodeTransaction(b.transactions[k])) == Some(b.transactions[k])
    {
      TransactionRoundTrip(b.transactions[k]);
    }
    DecodeListInverts(b.transactions, MAX_TRANSACTIONS, EncodeTransaction, DecodeTransaction);
  }

  // ----- whatever decodes can be encoded again

  ghost predicate Yields<T(!new)>(dec: bytes -> Option<T>, good: T -> bool)
  {
    forall b: bytes :: dec(b).Some? ==> good(dec(b).value)
  }

  lemma {:induction false} DecodeItemsYield<T(!new)>(src: bytes, i: nat, n: nat, start: nat, dec: bytes -> Option<T>, good: T -> bool)
    requires i <= n
    requires Yields(dec, good)
    ensures var r := DecodeItems(src, i, n, start, dec); r.Some? ==> forall k | 0 <= k < |r.value| :: good(r.value[k])
    decreases n - i
  {
    if i < n {
      var end := ItemEnd(src, i, n);
      if end.Some? && start <= end.value <= |src| {
        DecodeItemsYield(src, i + 1, n, end.value, dec, good);
      }
    }
  }

  lemma DecodeListYields<T(!new)>(buf: bytes, limit: nat, dec: bytes -> Option<T>, good: T -> bool)
    requires Yields(dec, good)
    ensures var r := DecodeList(buf, limit, dec); r.Some? ==> forall k | 0 <= k < |r.value| :: good(r.value[k])
  {
    var n := DynamicLength(buf, limit);
    if n.Some? && n.value > 0 {
      DecodeItemsYield(buf, 0, n.value, Word32(buf[..4]), dec, good);
    }
  }

  lemma DecodedTransactionValid(buf: bytes)
    ensures var r := DecodeTransaction(buf); r.Some? ==> ValidTransaction(r.value)
  {
    if DecodeTransaction(buf).Some? {
      DecodeListYields(buf[Word32(buf[64..68])..Word32(buf[68..72])], MAX_OUTPUTS, DecodeInput, ValidInput);
      DecodeListYields(buf[Word32(buf[68..72])..], MAX_OUTPUTS, DecodeOutput, ValidOutput);
    }
  }

  lemma {:induction false} DecodedSignsValid(buf: bytes, i: nat, n: nat)
    requires i <= n && |buf| == n * SIGN_SIZE
    ensures var r := DecodeSigns(buf, i, n); r.Some? ==> forall k | 0 <= k < |r.value| :: ValidSign(r.value[k])
    decreases n - i
  {
    if i < n {
      DecodedSignsValid(buf, i + 1, n);
    }
  }

  lemma DecodedSignListValid(buf: bytes)
    ensures var r := DecodeSignList(buf); r.Some? ==> forall k | 0 <= k < |r.value| :: ValidSign(r.value[k])
  {
    if DecodeSignList(buf).Some? {
      var none := 0;
      DecodedSignsValid(buf, none, |buf| / SIGN_SIZE);
    }
  }

  lemma DecodedTransactionsValid(buf: bytes)
    ensures var r := DecodeList(buf, MAX_TRANSACTIONS, DecodeTransaction);
      r.Some? ==> forall k | 0 <= k < |r.value| :: ValidTransaction(r.value[k])
  {
    forall b: bytes ensures DecodeTransaction(b).Some? ==> ValidTransaction(DecodeTransaction(b).value) {
      DecodedTransactionValid(b);
    }
    DecodeListYields(buf, MAX_TRANSACTIONS, DecodeTransaction, ValidTransaction);
  }

  lemma DecodedBlockValid(buf: bytes)
    ensures var r := DecodeBlock(buf); r.Some? ==> ValidBlock(r.value)
  {
    if DecodeBlock(buf).Some? {
      var o8, o9, o10 := Word32(buf[208..212]), Word32(buf[212..216]), Word32(buf[216..220]);
      DecodedSignListValid(buf[o8..o9]);
      DecodedSignListValid(buf[o9..o10]);
      DecodedTransactionsValid(buf[o10..]);
    }
  }

  /** A block read from any bytes marshals without error, and decoding that encoding reads the same block. */
  lemma DecodedBlockSurvives(buf: bytes)
    ensures var r := DecodeBlock(buf);
      r.Some? ==> ValidBlock(r.value) && DecodeBlock(EncodeBlock(r.value)) == r
  {
    DecodedBlockValid(buf);
    if DecodeBlock(buf).Some? {
      BlockRoundTrip(DecodeBlock(buf).value);
    }
  }
}
