/**
 The transactions a forger builds from the unspent outputs (collapse and system-unstake transactions), why the
 validator accepts them, and which outputs each kind of transaction can touch.
 */
module Forged {
  import opened Words
  import opened Sums
  import opened Proto
  import opened Ledger
  import opened Validator
  import opened BlockValidator
  import opened Conservation

  /** A stored output: a positive amount, a 32-bit index, and no node or a full address. */
  ghost predicate GoodRow(k: OutKey, u: Utxo)
  {
    u.amount > 0 && k.index < U32 && (u.node == [] || |u.node| == 20)
  }

  ghost predicate GoodLedger(m: UtxoSet)
  {
    (forall k | k in m :: GoodRow(k, m[k])) && Total(m) < U64
  }

  /** ToPbInput. */
  function InputFor(k: OutKey, u: Utxo): TxInput
    requires k.index < U32
  {
    TxInput(k.hash, k.index, u.to, u.amount, u.node)
  }

  ghost predicate Rows(m: UtxoSet, ks: seq<OutKey>)
  {
    && (forall i | 0 <= i < |ks| :: ks[i] in m && GoodRow(ks[i], m[ks[i]]))
    && (forall i, j | 0 <= i < j < |ks| :: ks[i] != ks[j])
  }

  ghost function Inputs(m: UtxoSet, ks: seq<OutKey>): (r: seq<TxInput>)
    requires Rows(m, ks)
    ensures |r| == |ks|
  {
    seq(|ks|, i requires 0 <= i < |ks| => InputFor(ks[i], m[ks[i]]))
  }

  /** Inputs made from rows name existing outputs, each once, and their sum fits a word. */
  lemma InputsSound(m: UtxoSet, ks: seq<OutKey>)
    requires GoodLedger(m) && Rows(m, ks)
    ensures var ins := Inputs(m, ks);
      && Distinct(ins)
      && (forall i | i in ins :: Exists(m, i))
      && SeqSum(ins, InAmount) < U64
      && (forall i | 0 <= i < |ins| :: Matches(m, ins[i]) && ins[i].amount > 0)
  {
    var ins := Inputs(m, ks);
    forall i, j | 0 <= i < j < |ins| ensures Key(ins[i]) != Key(ins[j]) {
      assert Key(ins[i]) == ks[i] && Key(ins[j]) == ks[j];
    }
    forall i | 0 <= i < |ins| ensures Matches(m, ins[i]) && ins[i].amount > 0 && Exists(m, ins[i]) {
      assert Key(ins[i]) == ks[i];
    }
    DistinctInputsBound(m, ins);
  }

  /** A transaction without a fee whose one output carries the sum of its inputs. */
  ghost predicate Moves(m: UtxoSet, ks: seq<OutKey>, to: bytes, t: Transaction)
  {
    && Rows(m, ks) && 0 < |ks| <= MAX_OUTPUTS
    && t.fee == 0
    && t.inputs == Inputs(m, ks)
    && t.outputs == [TxOutput(to, Wrap(SeqSum(t.inputs, InAmount)), [])]
  }

  lemma MovesBalanced(m: UtxoSet, ks: seq<OutKey>, to: bytes, t: Transaction)
    requires GoodLedger(m) && Moves(m, ks, to, t)
    ensures Balanced(t) && OutSum(t) == InSum(t) == t.outputs[0].amount > 0
  {
    InputsSound(m, ks);
    SmallWrap(InSum(t));
    assert t.outputs[..0] == [];
    assert OutSum(t) == SeqSum(t.outputs[..0], OutAmount) + t.outputs[0].amount;
    SeqSumMember(t.inputs, 0, InAmount);
  }

  /** Collapsing plain outputs of one address. */
  ghost predicate CollapseOf(m: UtxoSet, num: u64, ks: seq<OutKey>, to: bytes, t: Transaction)
  {
    && t.kind == COLLAPSE && t.num == num && Moves(m, ks, to, t)
    && forall i | 0 <= i < |ks| :: m[ks[i]].to == to && m[ks[i]].node == []
  }

  lemma CollapseOwner(m: UtxoSet, num: u64, ks: seq<OutKey>, to: bytes, t: Transaction)
    requires CollapseOf(m, num, ks, to, t)
    ensures Owners(t.inputs) == {to} && Sender(t) == to && LastOwner(t.inputs) == to
    ensures forall i | 0 <= i < |t.inputs| :: t.inputs[i].address == to
  {
    assert t.inputs[0].address == to;
  }

  lemma {:induction false} AllClaimed(ins: seq<TxInput>, to: bytes)
    requires forall i | 0 <= i < |ins| :: ins[i].address == to
    ensures Claimed(ins, to) == SeqSum(ins, InAmount)
  {
    if ins != [] {
      AllClaimed(ins[..|ins| - 1], to);
    }
  }

  lemma CollapseKnownIsTaken(m: UtxoSet, num: u64, ks: seq<OutKey>, to: bytes, t: Transaction)
    requires GoodLedger(m) && CollapseOf(m, num, ks, to, t)
    ensures InputsMatch(CollapseKnown(m, t.inputs), t.inputs)
    ensures forall k | k in CollapseKnown(m, t.inputs) :: k in Keys(t.inputs)
  {
    CollapseOwner(m, num, ks, to, t);
    InputsSound(m, ks);
    var known := CollapseKnown(m, t.inputs);
    forall i | 0 <= i < |t.inputs| ensures Matches(known, t.inputs[i]) {
      assert Key(t.inputs[i]) == ks[i] && Key(t.inputs[i]) in LastKeys(t.inputs);
    }
    forall k | k in known ensures k in Keys(t.inputs) {
      assert k in LastKeys(t.inputs);
      var i :| 0 <= i < |t.inputs| && Key(t.inputs[i]) == k;
      assert t.inputs[i] in t.inputs;
    }
  }

  lemma FreeOfCharge(t: Transaction)
    requires t.fee == 0
    ensures RealFee(t) == 0
  {
    SmallWrap(0);
  }

  lemma MovesStruct(env: Env, ks: seq<OutKey>, to: bytes, t: Transaction)
    requires ValidEnv(env) && GoodLedger(env.utxo) && Moves(env.utxo, ks, to, t)
    requires t.kind == COLLAPSE || (t.kind == SYSTEM_UNSTAKE && SystemUnstakeShape(t))
    ensures StructBaseOk(env, t)
  {
    MovesBalanced(env.utxo, ks, to, t);
    InputsSound(env.utxo, ks);
    assert GoodOutput(env, t.kind, t.outputs[0]);
    forall i | 0 <= i < |t.inputs| ensures GoodInput(env, t.kind, t.inputs[i]) { }
  }

  /** The validator accepts every collapse of one address, whether or not it takes all its outputs. */
  lemma CollapseAccepted(env: Env, num: u64, ks: seq<OutKey>, to: bytes, t: Transaction)
    requires ValidEnv(env) && GoodLedger(env.utxo) && CollapseOf(env.utxo, num, ks, to, t)
    ensures CollapseOk(env, num, t)
  {
    MovesStruct(env, ks, to, t);
    CollapseKnownIsTaken(env.utxo, num, ks, to, t);
    CollapseOutput(env.utxo, num, ks, to, t);
  }

  lemma CollapseOutput(m: UtxoSet, num: u64, ks: seq<OutKey>, to: bytes, t: Transaction)
    requires GoodLedger(m) && CollapseOf(m, num, ks, to, t)
    ensures OneOutputEach(t)
  {
    CollapseOwner(m, num, ks, to, t);
    AllClaimed(t.inputs, to);
    MovesBalanced(m, ks, to, t);
  }

  predicate IsDeposit(u: Utxo, elector: bytes, validator: bytes)
  {
    u.to == elector && u.node == validator && u.node != [] && (u.kind == STAKE || u.kind == UNSTAKE)
  }

  /** Paying an elector's deposits on a validator back. */
  ghost predicate UnstakeOf(m: UtxoSet, num: u64, ks: seq<OutKey>, validator: bytes, elector: bytes, t: Transaction)
  {
    && t.kind == SYSTEM_UNSTAKE && t.num == num && Moves(m, ks, elector, t)
    && forall i | 0 <= i < |ks| :: IsDeposit(m[ks[i]], elector, validator)
  }

  lemma UnstakeShape(m: UtxoSet, num: u64, ks: seq<OutKey>, validator: bytes, elector: bytes, t: Transaction)
    requires UnstakeOf(m, num, ks, validator, elector, t)
    ensures SystemUnstakeShape(t) && Sender(t) == elector && Address(t.inputs[0].node) == validator
  {
    forall i | 0 <= i < |t.inputs| ensures Address(t.inputs[i].node) == validator && t.inputs[i].address == elector {
      assert t.inputs[i] == InputFor(ks[i], m[ks[i]]) && IsDeposit(m[ks[i]], elector, validator);
    }
  }

  lemma UnstakeAccepted(env: Env, num: u64, ks: seq<OutKey>, validator: bytes, elector: bytes, t: Transaction)
    requires ValidEnv(env) && GoodLedger(env.utxo) && UnstakeOf(env.utxo, num, ks, validator, elector, t)
    ensures SystemUnstakeOk(env, num, t)
  {
    UnstakeShape(env.utxo, num, ks, validator, elector, t);
    MovesStruct(env, ks, elector, t);
    MovesBalanced(env.utxo, ks, elector, t);
    InputsSound(env.utxo, ks);
    var known := Deposits(env.utxo, elector);
    forall i | 0 <= i < |t.inputs| ensures Matches(known, t.inputs[i]) {
      assert Key(t.inputs[i]) == ks[i] && IsDeposit(env.utxo[ks[i]], elector, validator);
      assert Matches(env.utxo, t.inputs[i]);
    }
  }

  // ----- which outputs a transaction can touch

  datatype Claim = Nothing | Plain(owner: bytes) | Staked(owner: bytes) | Deposited(owner: bytes, node: bytes)

  function ClaimOf(t: Transaction): Claim
  {
    if t.kind == NORMAL || t.kind == STAKE || t.kind == COLLAPSE then Plain(Sender(t))
    else if t.kind == UNSTAKE then Staked(Sender(t))
    else if t.kind == SYSTEM_UNSTAKE && t.inputs != [] then Deposited(Sender(t), Address(t.inputs[0].node))
    else Nothing
  }

  predicate Covers(c: Claim, u: Utxo)
  {
    match c
    case Nothing => false
    case Plain(a) => u.to == a && u.node == []
    case Staked(a) => u.to == a && u.node != []
    case Deposited(a, n) => u.to == a && u.node == n && n != []
  }

  predicate Overlap(c: Claim, d: Claim)
  {
    match (c, d)
    case (Plain(a), Plain(b)) => a == b
    case (Staked(a), Staked(b)) => a == b
    case (Staked(a), Deposited(b, _)) => a == b
    case (Deposited(a, _), Staked(b)) => a == b
    case (Deposited(a, m), Deposited(b, n)) => a == b && m == n
    case _ => false
  }

  lemma NoOverlap(c: Claim, d: Claim, u: Utxo)
    requires Covers(c, u) && Covers(d, u)
    ensures Overlap(c, d)
  {
  }

  /** A transaction takes distinct outputs, all covered by its claim. */
  ghost predicate Takes(m: UtxoSet, t: Transaction)
  {
    Distinct(t.inputs) && forall i | i in t.inputs :: Key(i) in m && Covers(ClaimOf(t), m[Key(i)])
  }

  ghost predicate Apart(ts: seq<Transaction>)
  {
    forall i, j | 0 <= i < j < |ts| :: !Overlap(ClaimOf(ts[i]), ClaimOf(ts[j]))
  }

  /** No claim of one list overlaps a claim of the other. */
  ghost predicate Clear(ts: seq<Transaction>, us: seq<Transaction>)
  {
    forall t, u | t in ts && u in us :: !Overlap(ClaimOf(t), ClaimOf(u))
  }

  lemma ApartConcat(ts: seq<Transaction>, us: seq<Transaction>)
    requires Apart(ts) && Apart(us) && Clear(ts, us)
    ensures Apart(ts + us)
  {
    var all := ts + us;
    forall i, j | 0 <= i < j < |all| ensures !Overlap(ClaimOf(all[i]), ClaimOf(all[j])) {
      if i < |ts| <= j {
        assert ts[i] in ts && us[j - |ts|] in us;
      } else if i >= |ts| {
        assert !Overlap(ClaimOf(us[i - |ts|]), ClaimOf(us[j - |ts|]));
      }
    }
  }

  lemma TakenApart(m: UtxoSet, ts: seq<Transaction>, t: Transaction)
    requires (forall x | x in ts :: Takes(m, x)) && Takes(m, t)
    requires forall x | x in ts :: !Overlap(ClaimOf(x), ClaimOf(t))
    ensures Keys(BalanceInputs(ts)) !! Keys(t.inputs)
  {
    if ts != [] {
      var init, last := ts[..|ts| - 1], ts[|ts| - 1];
      assert last in ts;
      TakenApart(m, init, t);
      var more := if last.kind == REWARD then [] else last.inputs;
      KeysConcat(BalanceInputs(init), more);
      forall x, y | x in more && y in t.inputs ensures Key(x) != Key(y) {
        if Key(x) == Key(y) { NoOverlap(ClaimOf(last), ClaimOf(t), m[Key(x)]); }
      }
    }
  }

  /** Transactions whose claims do not overlap never name an output twice. */
  lemma {:induction false} ApartIsDistinct(m: UtxoSet, ts: seq<Transaction>)
    requires (forall t | t in ts :: Takes(m, t)) && Apart(ts)
    ensures Distinct(BalanceInputs(ts))
  {
    if ts != [] {
      var init, last := ts[..|ts| - 1], ts[|ts| - 1];
      assert last in ts;
      ApartIsDistinct(m, init);
      forall x | x in init ensures !Overlap(ClaimOf(x), ClaimOf(last)) {
        var i :| 0 <= i < |init| && init[i] == x;
        assert ts[i] == x;
      }
      TakenApart(m, init, last);
      DistinctParts(BalanceInputs(init), if last.kind == REWARD then [] else last.inputs);
      KeysConcat(BalanceInputs(init), []);
    }
  }

  lemma StandardTakes(env: Env, t: Transaction)
    requires ValidEnv(env) && StandardOk(env, t)
    ensures Takes(env.utxo, t) && ClaimOf(t) == if t.kind == UNSTAKE then Staked(Sender(t)) else Plain(Sender(t))
  {
    forall i | i in t.inputs ensures Key(i) in env.utxo && Covers(ClaimOf(t), env.utxo[Key(i)]) {
      var k :| 0 <= k < |t.inputs| && t.inputs[k] == i;
      assert Matches(Spendable(env, t), t.inputs[k]);
    }
  }

  lemma RowKeys(m: UtxoSet, ks: seq<OutKey>)
    requires GoodLedger(m) && Rows(m, ks)
    ensures Distinct(Inputs(m, ks)) && forall i | 0 <= i < |ks| :: Key(Inputs(m, ks)[i]) == ks[i]
  {
    InputsSound(m, ks);
  }

  lemma RowsTake(m: UtxoSet, ks: seq<OutKey>, t: Transaction, c: Claim)
    requires Distinct(t.inputs) && ClaimOf(t) == c && |t.inputs| == |ks|
    requires forall i | 0 <= i < |ks| :: ks[i] in m && Key(t.inputs[i]) == ks[i] && Covers(c, m[ks[i]])
    ensures Takes(m, t)
  {
    forall i | i in t.inputs ensures Key(i) in m && Covers(c, m[Key(i)]) {
      var k :| 0 <= k < |t.inputs| && t.inputs[k] == i;
      assert Key(t.inputs[k]) == ks[k];
    }
  }

  lemma CollapseTakes(m: UtxoSet, num: u64, ks: seq<OutKey>, to: bytes, t: Transaction)
    requires GoodLedger(m) && CollapseOf(m, num, ks, to, t)
    ensures Takes(m, t) && ClaimOf(t) == Plain(to)
  {
    CollapseOwner(m, num, ks, to, t);
    RowKeys(m, ks);
    RowsTake(m, ks, t, Plain(to));
  }

  lemma UnstakeTakes(m: UtxoSet, num: u64, ks: seq<OutKey>, validator: bytes, elector: bytes, t: Transaction)
    requires GoodLedger(m) && UnstakeOf(m, num, ks, validator, elector, t)
    ensures Takes(m, t) && ClaimOf(t) == Deposited(elector, validator)
  {
    UnstakeShape(m, num, ks, validator, elector, t);
    forall i | 0 <= i < |ks| ensures Covers(Deposited(elector, validator), m[ks[i]]) {
      assert IsDeposit(m[ks[i]], elector, validator);
    }
    RowKeys(m, ks);
    RowsTake(m, ks, t, Deposited(elector, validator));
  }
}
