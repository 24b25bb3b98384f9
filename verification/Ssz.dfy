/**
 SimpleSerialize as the standard's section "Serialization" writes it: a container is the list of its parts,
 every variable-size part leaves a 4-byte offset among the fixed parts and its bytes follow after all of them.
 */
module Ssz {
  import opened Words

  // ----- little-endian words

  function LittleEndian(x: nat, n: nat): (r: bytes)
    ensures |r| == n
  {
    if n == 0 then [] else [x % 256] + LittleEndian(x / 256, n - 1)
  }

  function FromLittleEndian(b: bytes): (r: nat)
  {
    if b == [] then 0 else b[0] + 256 * FromLittleEndian(b[1..])
  }

  function Pow256(n: nat): (r: nat)
    ensures r > 0
  {
    if n == 0 then 1 else 256 * Pow256(n - 1)
  }

  lemma {:induction false} LittleEndianRoundTrip(x: nat, n: nat)
    requires x < Pow256(n)
    ensures FromLittleEndian(LittleEndian(x, n)) == x
  {
    if n > 0 {
      LittleEndianRoundTrip(x / 256, n - 1);
      assert LittleEndian(x, n)[1..] == LittleEndian(x / 256, n - 1);
    }
  }

  lemma {:induction false} FromLittleEndianBound(b: bytes)
    ensures FromLittleEndian(b) < Pow256(|b|)
  {
    if b != [] {
      FromLittleEndianBound(b[1..]);
    }
  }

  lemma Pow256Words()
    ensures Pow256(4) == U32
    ensures Pow256(8) == U64
  {
    assert Pow256(2) == 0x1_0000;
    assert Pow256(4) == 0x1_0000_0000;
    assert Pow256(6) == 0x1_0000_0000_0000;
  }

  function Bytes32(x: u32): (r: bytes)
    ensures |r| == 4
  {
    LittleEndian(x, 4)
  }

  function Bytes64(x: u64): (r: bytes)
    ensures |r| == 8
  {
    LittleEndian(x, 8)
  }

  function Word32(b: bytes): (r: u32)
    requires |b| == 4
  {
    FromLittleEndianBound(b); Pow256Words();
    FromLittleEndian(b)
  }

  function Word64(b: bytes): (r: u64)
    requires |b| == 8
  {
    FromLittleEndianBound(b); Pow256Words();
    FromLittleEndian(b)
  }

  lemma WordRoundTrip(x: u32, y: u64)
    ensures Word32(Bytes32(x)) == x
    ensures Word64(Bytes64(y)) == y
  {
    Pow256Words();
    LittleEndianRoundTrip(x, 4);
    LittleEndianRoundTrip(y, 8);
  }

  /** WriteOffset keeps only the low 32 bits. */
  function Offset(i: nat): (r: bytes)
    ensures |r| == 4
  {
    Bytes32(i % U32)
  }

  lemma OffsetRoundTrip(i: nat)
    requires i < U32
    ensures Word32(Offset(i)) == i
  {
    WordRoundTrip(i, 0);
  }

  // ----- containers

  datatype Part = Fixed(body: bytes) | Variable(body: bytes)

  function HeadWidth(p: Part): nat
  {
    if p.Fixed? then |p.body| else 4
  }

  function TailWidth(p: Part): nat
  {
    if p.Fixed? then 0 else |p.body|
  }

  /** Where head k starts: the widths of the heads before it. */
  function HeadAt(ps: seq<Part>, k: nat): (r: nat)
    requires k <= |ps|
  {
    if k == 0 then 0 else HeadAt(ps, k - 1) + HeadWidth(ps[k - 1])
  }

  /** How many tail bytes precede the tail of part k. */
  function TailAt(ps: seq<Part>, k: nat): (r: nat)
    requires k <= |ps|
  {
    if k == 0 then 0 else TailAt(ps, k - 1) + TailWidth(ps[k - 1])
  }

  lemma Step(ps: seq<Part>, k: nat)
    requires k < |ps|
    ensures HeadAt(ps, k + 1) == HeadAt(ps, k) + HeadWidth(ps[k])
    ensures TailAt(ps, k + 1) == TailAt(ps, k) + TailWidth(ps[k])
  {
  }

  function OffsetOf(ps: seq<Part>, k: nat): (r: nat)
    requires k <= |ps|
  {
    HeadAt(ps, |ps|) + TailAt(ps, k)
  }

  function Head(ps: seq<Part>, k: nat): (r: bytes)
    requires k < |ps|
    ensures |r| == HeadWidth(ps[k])
  {
    if ps[k].Fixed? then ps[k].body else Offset(OffsetOf(ps, k))
  }

  function Heads(ps: seq<Part>, k: nat): (r: bytes)
    requires k <= |ps|
    ensures |r| == HeadAt(ps, k)
  {
    if k == 0 then [] else Heads(ps, k - 1) + Head(ps, k - 1)
  }

  function Tails(ps: seq<Part>, k: nat): (r: bytes)
    requires k <= |ps|
    ensures |r| == TailAt(ps, k)
  {
    if k == 0 then [] else Tails(ps, k - 1) + (if ps[k - 1].Fixed? then [] else ps[k - 1].body)
  }

  function Serialize(ps: seq<Part>): (r: bytes)
    ensures |r| == OffsetOf(ps, |ps|)
  {
    Heads(ps, |ps|) + Tails(ps, |ps|)
  }

  lemma TakeOfConcat(a: bytes, b: bytes, k: nat)
    requires k <= |a|
    ensures (a + b)[..k] == a[..k]
  {
  }

  lemma {:induction false} HeadsPrefix(ps: seq<Part>, k: nat)
    requires k < |ps|
    ensures HeadAt(ps, k) + HeadWidth(ps[k]) == HeadAt(ps, k + 1) <= HeadAt(ps, |ps|)
    ensures Heads(ps, |ps|)[HeadAt(ps, k)..HeadAt(ps, k + 1)] == Head(ps, k)
  {
    HeadsExtend(ps, k + 1, |ps|);
    assert Heads(ps, k + 1)[HeadAt(ps, k)..] == Head(ps, k);
  }

  lemma {:induction false} HeadsExtend(ps: seq<Part>, k: nat, n: nat)
    requires k <= n <= |ps|
    ensures HeadAt(ps, k) <= HeadAt(ps, n)
    ensures Heads(ps, n)[..HeadAt(ps, k)] == Heads(ps, k)
    decreases n
  {
    if k < n {
      HeadsExtend(ps, k, n - 1);
      TakeOfConcat(Heads(ps, n - 1), Head(ps, n - 1), HeadAt(ps, k));
    }
  }

  lemma {:induction false} TailsExtend(ps: seq<Part>, k: nat, n: nat)
    requires k <= n <= |ps|
    ensures TailAt(ps, k) <= TailAt(ps, n)
    ensures Tails(ps, n)[..TailAt(ps, k)] == Tails(ps, k)
    decreases n
  {
    if k < n {
      TailsExtend(ps, k, n - 1);
      TakeOfConcat(Tails(ps, n - 1), if ps[n - 1].Fixed? then [] else ps[n - 1].body, TailAt(ps, k));
    }
  }

  /** In a serialized container the bytes at a part's head position are its head. */
  lemma HeadInPlace(ps: seq<Part>, k: nat)
    requires k < |ps|
    ensures HeadAt(ps, k + 1) == HeadAt(ps, k) + HeadWidth(ps[k]) <= |Serialize(ps)|
    ensures Serialize(ps)[HeadAt(ps, k)..HeadAt(ps, k + 1)] == Head(ps, k)
  {
    HeadsPrefix(ps, k);
    var h := Heads(ps, |ps|);
    assert Serialize(ps)[..|h|] == h;
    assert Serialize(ps)[HeadAt(ps, k)..HeadAt(ps, k + 1)] == h[HeadAt(ps, k)..HeadAt(ps, k + 1)];
  }

  /** A variable-size part lies between its own offset and the offset that follows. */
  lemma TailInPlace(ps: seq<Part>, k: nat)
    requires k < |ps| && ps[k].Variable?
    ensures OffsetOf(ps, k) <= OffsetOf(ps, k + 1) == OffsetOf(ps, k) + |ps[k].body| <= |Serialize(ps)|
    ensures Serialize(ps)[OffsetOf(ps, k)..OffsetOf(ps, k + 1)] == ps[k].body
  {
    TailsExtend(ps, k + 1, |ps|);
    var h, t := Heads(ps, |ps|), Tails(ps, |ps|);
    assert Tails(ps, k + 1)[TailAt(ps, k)..] == ps[k].body;
    assert t[TailAt(ps, k)..TailAt(ps, k + 1)] == ps[k].body;
    assert Serialize(ps)[|h|..] == t;
    assert Serialize(ps)[OffsetOf(ps, k)..OffsetOf(ps, k + 1)] == t[TailAt(ps, k)..TailAt(ps, k + 1)];
  }

  // ----- lists of variable-size elements

  function Parts(es: seq<bytes>): (r: seq<Part>)
    ensures |r| == |es|
    ensures forall i | 0 <= i < |es| :: r[i] == Variable(es[i])
  {
    seq(|es|, i requires 0 <= i < |es| => Variable(es[i]))
  }

  function Apply<T>(xs: seq<T>, f: T -> bytes): (r: seq<bytes>)
    ensures |r| == |xs|
    ensures forall i | 0 <= i < |xs| :: r[i] == f(xs[i])
  {
    seq(|xs|, i requires 0 <= i < |xs| => f(xs[i]))
  }

  function SerializeList<T>(xs: seq<T>, f: T -> bytes): (r: bytes)
  {
    Serialize(Parts(Apply(xs, f)))
  }

  lemma {:induction false} ListHeads(ps: seq<Part>, k: nat)
    requires k <= |ps|
    requires forall i | 0 <= i < |ps| :: ps[i].Variable?
    ensures HeadAt(ps, k) == 4 * k
  {
    if k > 0 {
      ListHeads(ps, k - 1);
    }
  }

  /** DecodeDynamicLength: a list announces its length through its first offset. */
  function DynamicLength(buf: bytes, limit: nat): (r: Option<nat>)
    ensures r.Some? ==> r.value <= limit
    ensures r.Some? && r.value > 0 ==> |buf| >= 4
  {
    if |buf| == 0 then Some(0)
    else if |buf| < 4 then None
    else
      var offset := Word32(buf[..4]);
      if offset % 4 != 0 || offset / 4 > limit then None else Some(offset / 4)
  }

  /** Where element i of a dynamic list ends, if its table entry is there to be read. */
  function ItemEnd(src: bytes, i: nat, n: nat): (r: Option<nat>)
    requires i < n
  {
    if i + 1 == n then Some(|src|)
    else if |src| < 4 * (i + 2) then None
    else Some(Word32(src[4 * (i + 1)..4 * (i + 2)]))
  }

  /** UnmarshalDynamic from element i on, whose start offset is `start`. */
  function DecodeItems<T>(src: bytes, i: nat, n: nat, start: nat, f: bytes -> Option<T>): (r: Option<seq<T>>)
    requires i <= n
    ensures r.Some? ==> |r.value| == n - i
    decreases n - i
  {
    if i == n then Some([])
    else
      var end := ItemEnd(src, i, n);
      if end.None? || start > end.value || end.value > |src| then None
      else
        var item := f(src[start..end.value]);
        if item.None? then None
        else
          var rest := DecodeItems(src, i + 1, n, end.value, f);
          if rest.None? then None else Some([item.value] + rest.value)
  }

  function DecodeList<T>(buf: bytes, limit: nat, f: bytes -> Option<T>): (r: Option<seq<T>>)
    ensures r.Some? ==> |r.value| <= limit
  {
    var n := DynamicLength(buf, limit);
    if n.None? then None
    else if n.value == 0 then Some([])
    else DecodeItems(buf, 0, n.value, Word32(buf[..4]), f)
  }

  /** The table entry after element i holds the offset at which element i ends. */
  lemma ItemEndInPlace(ps: seq<Part>, i: nat)
    requires i < |ps| && |Serialize(ps)| < U32
    requires forall k | 0 <= k < |ps| :: ps[k].Variable?
    ensures ItemEnd(Serialize(ps), i, |ps|) == Some(OffsetOf(ps, i + 1))
  {
    if i + 1 < |ps| {
      ListHeads(ps, i + 1);
      ListHeads(ps, i + 2);
      HeadInPlace(ps, i + 1);
      TailInPlace(ps, i);
      OffsetRoundTrip(OffsetOf(ps, i + 1));
    }
  }

  lemma {:induction false} DecodeItemsInverts<T>(xs: seq<T>, i: nat, enc: T -> bytes, dec: bytes -> Option<T>)
    requires i <= |xs|
    requires |SerializeList(xs, enc)| < U32
    requires forall k | 0 <= k < |xs| :: dec(enc(xs[k])) == Some(xs[k])
    ensures DecodeItems(SerializeList(xs, enc), i, |xs|, OffsetOf(Parts(Apply(xs, enc)), i), dec) == Some(xs[i..])
    decreases |xs| - i
  {
    var ps := Parts(Apply(xs, enc));
    var src := Serialize(ps);
    if i < |xs| {
      TailInPlace(ps, i);
      ItemEndInPlace(ps, i);
      DecodeItemsInverts(xs, i + 1, enc, dec);
      assert xs[i..] == [xs[i]] + xs[i + 1..];
    }
  }

  lemma ListFromItems<T>(xs: seq<T>, src: bytes, limit: nat, enc: T -> bytes, dec: bytes -> Option<T>)
    requires 0 < |xs| <= limit && src == SerializeList(xs, enc) && 4 <= |src| < U32
    requires Word32(src[..4]) == OffsetOf(Parts(Apply(xs, enc)), 0) == 4 * |xs|
    requires forall k | 0 <= k < |xs| :: dec(enc(xs[k])) == Some(xs[k])
    ensures DecodeList(src, limit, dec) == Some(xs)
  {
    var first := 0;
    DecodeItemsInverts(xs, first, enc, dec);
    assert xs[first..] == xs;
  }

  /** A list of variable-size elements decodes to itself, if its elements do and no offset is cut to 32 bits. */
  lemma DecodeListInverts<T>(xs: seq<T>, limit: nat, enc: T -> bytes, dec: bytes -> Option<T>)
    requires |xs| <= limit
    requires |SerializeList(xs, enc)| < U32
    requires forall k | 0 <= k < |xs| :: dec(enc(xs[k])) == Some(xs[k])
    ensures DecodeList(SerializeList(xs, enc), limit, dec) == Some(xs)
  {
    var ps := Parts(Apply(xs, enc));
    ListHeads(ps, |ps|);
    if xs != [] {
      ListHeads(ps, 1);
      HeadInPlace(ps, 0);
      TailsExtend(ps, 0, |ps|);
      OffsetRoundTrip(OffsetOf(ps, 0));
      assert Serialize(ps)[..4] == Serialize(ps)[HeadAt(ps, 0)..HeadAt(ps, 1)];
      ListFromItems(xs, Serialize(ps), limit, enc, dec);
    }
  }

  // ----- lists of fixed-size elements

  function Join<T>(xs: seq<T>, f: T -> bytes): (r: bytes)
  {
    if xs == [] then [] else Join(xs[..|xs| - 1], f) + f(xs[|xs| - 1])
  }

  lemma {:induction false} JoinAt<T>(xs: seq<T>, f: T -> bytes, w: nat, k: nat)
    requires k < |xs|
    requires forall i | 0 <= i < |xs| :: |f(xs[i])| == w
    ensures |Join(xs, f)| == |xs| * w
    ensures 0 <= k * w <= (k + 1) * w <= |xs| * w
    ensures Join(xs, f)[k * w..(k + 1) * w] == f(xs[k])
  {
    var init := xs[..|xs| - 1];
    JoinLength(init, f, w);
    JoinLength(xs, f, w);
    assert |init| * w + w == |xs| * w;
    assert (k + 1) * w == k * w + w;
    if k < |init| {
      JoinAt(init, f, w, k);
      assert Join(xs, f)[k * w..(k + 1) * w] == Join(init, f)[k * w..(k + 1) * w];
    }
  }

  lemma {:induction false} JoinLength<T>(xs: seq<T>, f: T -> bytes, w: nat)
    requires forall i | 0 <= i < |xs| :: |f(xs[i])| == w
    ensures |Join(xs, f)| == |xs| * w
  {
    if xs != [] {
      JoinLength(xs[..|xs| - 1], f, w);
      assert (|xs| - 1) * w + w == |xs| * w;
    }
  }
}
