/**
 The simulated clock (mclock/simclock.go): timers in a binary heap ordered by due time, each of which knows its
 place in the heap, with the sifting steps of Go's container/heap.
 */
module SimClock {

  // ----- heap order on due times

  function Parent(k: nat): nat
    requires k > 0
  {
    (k - 1) / 2
  }

  ghost predicate Heap(ks: seq<int>)
  {
    forall k | 1 <= k < |ks| :: ks[Parent(k)] <= ks[k]
  }

  /** Heap order except at i: edges that do not touch i hold, and i's parent is below i's children. */
  ghost predicate Except(ks: seq<int>, i: nat)
  {
    && (forall k | 1 <= k < |ks| && k != i && Parent(k) != i :: ks[Parent(k)] <= ks[k])
    && (i > 0 ==> forall k | 1 <= k < |ks| && Parent(k) == i :: Parent(i) < |ks| && ks[Parent(i)] <= ks[k])
  }

  ghost predicate EdgeInto(ks: seq<int>, i: nat)
    requires i < |ks|
  {
    i > 0 ==> ks[Parent(i)] <= ks[i]
  }

  ghost predicate EdgesOutOf(ks: seq<int>, i: nat)
    requires i < |ks|
  {
    forall k | 1 <= k < |ks| && Parent(k) == i :: ks[i] <= ks[k]
  }

  function Exchanged<T>(s: seq<T>, i: nat, j: nat): (r: seq<T>)
    requires i < |s| && j < |s|
    ensures |r| == |s|
  {
    s[i := s[j]][j := s[i]]
  }

  lemma HeapIsExcept(ks: seq<int>, i: nat, x: int)
    requires Heap(ks) && i < |ks|
    ensures Except(ks[i := x], i)
  {
    if i > 0 {
      forall k | 1 <= k < |ks| && Parent(k) == i ensures ks[Parent(i)] <= ks[k] {
        assert ks[Parent(i)] <= ks[i] <= ks[k];
      }
    }
  }

  lemma ExceptIsHeap(ks: seq<int>, i: nat)
    requires i < |ks| && Except(ks, i) && EdgeInto(ks, i) && EdgesOutOf(ks, i)
    ensures Heap(ks)
  {
  }

  /** Sifting up: after the exchange only the edge into the parent can be wrong. */
  lemma UpStep(ks: seq<int>, j: nat)
    requires 0 < j < |ks| && Except(ks, j) && EdgesOutOf(ks, j) && ks[j] < ks[Parent(j)]
    ensures var p := Parent(j); var r := Exchanged(ks, p, j); Except(r, p) && EdgesOutOf(r, p)
  {
    var p := Parent(j);
    var r := Exchanged(ks, p, j);
    assert forall k | 0 <= k < |r| :: r[k] == if k == p then ks[j] else if k == j then ks[p] else ks[k];
    forall k | 1 <= k < |r| && Parent(k) == p ensures r[p] <= r[k] {
      if k != j { assert ks[p] <= ks[k]; }
    }
    forall k | 1 <= k < |r| && k != p && Parent(k) != p ensures r[Parent(k)] <= r[k] {
      if Parent(k) == j { assert ks[p] <= ks[k]; }
    }
    if p > 0 {
      assert ks[Parent(p)] <= ks[p];
    }
  }

  /** The smaller child of i, if there is one. */
  ghost predicate SmallerChild(ks: seq<int>, i: nat, j: nat)
  {
    && 0 < j < |ks| && i < |ks| && Parent(j) == i
    && forall k | 1 <= k < |ks| && Parent(k) == i :: ks[j] <= ks[k]
  }

  /** Sifting down: after the exchange everything outside the child is in order. */
  lemma DownStep(ks: seq<int>, i: nat, j: nat)
    requires Except(ks, i) && SmallerChild(ks, i, j) && ks[j] < ks[i]
    ensures var r := Exchanged(ks, i, j); Except(r, j) && EdgeInto(r, j) && EdgeInto(r, i)
  {
    var r := Exchanged(ks, i, j);
    assert forall k | 0 <= k < |r| :: r[k] == if k == i then ks[j] else if k == j then ks[i] else ks[k];
    forall k | 1 <= k < |r| && Parent(k) == j ensures r[Parent(j)] <= r[k] {
      assert ks[j] <= ks[k];
    }
    forall k | 1 <= k < |r| && k != j && Parent(k) != j ensures r[Parent(k)] <= r[k] {
      if Parent(k) == i {
        assert ks[j] <= ks[k];
      } else if k == i {
        assert ks[Parent(i)] <= ks[j];
      }
    }
  }

  /** The root of a heap is due first. */
  lemma {:induction false} RootFirst(ks: seq<int>, k: nat)
    requires Heap(ks) && k < |ks|
    ensures ks[0] <= ks[k]
  {
    if k > 0 {
      RootFirst(ks, Parent(k));
    }
  }

  // ----- timers and the clock

  class Timer {
    var at: int
    var index: int
    const hasChannel: bool

    constructor (at: int, hasChannel: bool)
      ensures this.at == at && index == -1 && this.hasChannel == hasChannel
    {
      this.at, index, this.hasChannel := at, -1, hasChannel;
    }
  }

  /** The first n elements are in order except at i, where the edge into i or those out of i may be known to hold. */
  ghost predicate Sifts(ks: seq<int>, n: nat, i: nat, into: bool, outOf: bool)
  {
    && i < n <= |ks| && Except(ks[..n], i)
    && (into ==> EdgeInto(ks[..n], i))
    && (outOf ==> EdgesOutOf(ks[..n], i))
  }

  lemma SiftsMean(ks: seq<int>, n: nat, i: nat, into: bool, outOf: bool)
    requires Sifts(ks, n, i, into, outOf)
    ensures Except(ks[..n], i) && (into ==> EdgeInto(ks[..n], i)) && (outOf ==> EdgesOutOf(ks[..n], i))
    ensures (into || i == 0) && outOf ==> Heap(ks[..n])
  {
    if (into || i == 0) && outOf {
      ExceptIsHeap(ks[..n], i);
    }
  }

  lemma ExchangedPrefix(ks: seq<int>, n: nat, i: nat, j: nat)
    requires i < n <= |ks| && j < n
    ensures Exchanged(ks, i, j)[..n] == Exchanged(ks[..n], i, j) && Exchanged(ks, i, j)[n..] == ks[n..]
  {
  }

  lemma SiftUp(ks: seq<int>, n: nat, j: nat)
    requires 0 < j && Sifts(ks, n, j, false, true) && ks[j] < ks[Parent(j)]
    ensures Sifts(Exchanged(ks, Parent(j), j), n, Parent(j), false, true)
  {
    SiftsMean(ks, n, j, false, true);
    UpStep(ks[..n], j);
    ExchangedPrefix(ks, n, Parent(j), j);
  }

  lemma UpEnds(ks: seq<int>, n: nat, j: nat)
    requires Sifts(ks, n, j, false, true) && (j > 0 ==> ks[Parent(j)] <= ks[j])
    ensures Heap(ks[..n])
  {
    SiftsMean(ks, n, j, false, true);
    ExceptIsHeap(ks[..n], j);
  }

  lemma SiftDown(ks: seq<int>, n: nat, i: nat, into: bool, j: nat)
    requires Sifts(ks, n, i, into, false) && SmallerChild(ks[..n], i, j) && ks[j] < ks[i]
    ensures Sifts(Exchanged(ks, i, j), n, j, true, false)
  {
    SiftsMean(ks, n, i, into, false);
    DownStep(ks[..n], i, j);
    ExchangedPrefix(ks, n, i, j);
  }

  lemma DownEnds(ks: seq<int>, n: nat, i: nat, into: bool, j: nat)
    requires Sifts(ks, n, i, into, false)
    requires 2 * i + 1 >= n || (SmallerChild(ks[..n], i, j) && ks[j] >= ks[i])
    ensures Sifts(ks, n, i, into, true)
  {
    SiftsMean(ks, n, i, into, false);
  }

  /** Every timer of the heap knows its place, so no timer is there twice. */
  ghost predicate Placed(h: seq<Timer>)
    reads h`index
  {
    forall k | 0 <= k < |h| :: h[k].index == k
  }

  /** The timer at place k knows the place and is due at the time noted for it. */
  ghost predicate AtPlace(h: seq<Timer>, times: seq<int>, k: nat)
    requires k < |h| == |times|
    reads h`index, h`at
  {
    h[k].index == k && h[k].at == times[k]
  }

  /** A timer is in the heap exactly when it is a member, and otherwise knows that it is not. */
  ghost predicate Knows(t: Timer, h: seq<Timer>, members: set<Timer>)
    reads t`index
  {
    (t in h <==> t in members) && (t !in members ==> t.index == -1)
  }

  /** The heap array holds the given timers, each at the place it knows, and all other timers know that they are not in it. */
  ghost predicate Arranged(h: seq<Timer>, times: seq<int>, members: set<Timer>, timers: set<Timer>)
    reads h`index, h`at, timers`index
  {
    && |times| == |h| && members <= timers && (forall t | t in h :: t in timers)
    && (forall k | 0 <= k < |h| :: AtPlace(h, times, k))
    && (forall t | t in timers :: Knows(t, h, members))
  }

  lemma ArrangedMeans(h: seq<Timer>, times: seq<int>, members: set<Timer>, timers: set<Timer>)
    requires Arranged(h, times, members, timers)
    ensures Placed(h) && members <= timers && |times| == |h| && (forall k | 0 <= k < |h| :: h[k].at == times[k])
    ensures (forall t | t in h :: t in members) && (forall t | t in members :: t in h)
    ensures forall t | t in timers && t !in members :: t.index == -1
  {
    forall k | 0 <= k < |h| ensures h[k].index == k && h[k].at == times[k] {
      assert AtPlace(h, times, k);
    }
    forall t | t in timers ensures (t in h <==> t in members) && (t !in members ==> t.index == -1) {
      assert Knows(t, h, members);
    }
  }

  lemma MakeArranged(h: seq<Timer>, times: seq<int>, members: set<Timer>, timers: set<Timer>)
    requires Placed(h) && members <= timers && |times| == |h| && forall k | 0 <= k < |h| :: h[k].at == times[k]
    requires (forall t | t in h :: t in members) && (forall t | t in members :: t in h)
    requires forall t | t in timers && t !in members :: t.index == -1
    ensures Arranged(h, times, members, timers)
  {
    forall k | 0 <= k < |h| ensures AtPlace(h, times, k) { }
    forall t | t in timers ensures Knows(t, h, members) { }
  }

  class Clock {
    var now: int
    var scheduled: seq<Timer>
    /** The due times in heap order, the timers now in the heap, and all timers made for this clock. */
    ghost var times: seq<int>
    ghost var members: set<Timer>
    ghost var timers: set<Timer>

    ghost predicate Valid()
      reads this, timers, scheduled
    {
      Arranged(scheduled, times, members, timers) && Heap(times)
    }

    /** A timer's index is -1 exactly when it is not scheduled; otherwise it is its place. */
    lemma IndexMeans(t: Timer)
      requires Valid() && t in timers
      ensures t.index == -1 <==> t !in members
      ensures t in members ==> 0 <= t.index < |scheduled| && scheduled[t.index] == t
    {
      ArrangedMeans(scheduled, times, members, timers);
      if t in members {
        var k :| 0 <= k < |scheduled| && scheduled[k] == t;
      }
    }

    lemma DueTime(k: nat)
      requires Arranged(scheduled, times, members, timers) && k < |scheduled|
      ensures scheduled[k].at == times[k] && scheduled[k] in members
    {
      ArrangedMeans(scheduled, times, members, timers);
    }

    constructor ()
      ensures Valid() && now == 0 && scheduled == [] && timers == {} && members == {}
    {
      now, scheduled, times, timers, members := 0, [], [], {}, {};
      new;
      MakeArranged([], [], {}, {});
    }

    /** Swap of two heap elements. */
    method Swap(i: nat, j: nat)
      requires i < |scheduled| && j < |scheduled| && Arranged(scheduled, times, members, timers)
      modifies this`scheduled, this`times, timers`index
      ensures Arranged(scheduled, times, members, timers)
      ensures scheduled == Exchanged(old(scheduled), i, j) && times == Exchanged(old(times), i, j)
    {
      ArrangedMeans(scheduled, times, members, timers);
      ExchangedSame(scheduled, i, j);
      scheduled := scheduled[i := scheduled[j]][j := scheduled[i]];
      times := Exchanged(times, i, j);
      scheduled[i].index := i;
      scheduled[j].index := j;
      MakeArranged(scheduled, times, members, timers);
    }

    /** up within the first n elements, on a heap whose only doubtful edge is the one into j0. */
    method Up(j0: nat, n: nat)
      requires Arranged(scheduled, times, members, timers) && Sifts(times, n, j0, false, true)
      modifies this`scheduled, this`times, timers`index
      ensures |scheduled| == |old(scheduled)| && Arranged(scheduled, times, members, timers)
      ensures scheduled[n..] == old(scheduled[n..]) && Heap(times[..n])
    {
      var j: nat := j0;
      while j > 0 && scheduled[j].at < scheduled[(j - 1) / 2].at
        invariant j < n <= |scheduled| == |old(scheduled)| && Arranged(scheduled, times, members, timers)
        invariant scheduled[n..] == old(scheduled[n..]) && Sifts(times, n, j, false, true)
        decreases j
      {
        DueTime(j);
        DueTime(Parent(j));
        SiftUp(times, n, j);
        Swap((j - 1) / 2, j);
        j := (j - 1) / 2;
      }
      DueTime(j);
      if j > 0 { DueTime(Parent(j)); }
      UpEnds(times, n, j);
    }

    /** The choice between the children of i. */
    method Smaller(i: nat, n: nat) returns (j: nat)
      requires 2 * i + 1 < n <= |scheduled| && Arranged(scheduled, times, members, timers)
      ensures i < j < n && SmallerChild(times[..n], i, j)
    {
      j := 2 * i + 1;
      DueTime(j);
      if j + 1 < n {
        DueTime(j + 1);
        if scheduled[j + 1].at < scheduled[j].at {
          j := j + 1;
        }
      }
      ChildChosen(times[..n], i, j);
    }

    /** down over the first n elements, on a heap that is in order except at i0; says whether the element moved. */
    method Down(i0: nat, n: nat) returns (moved: bool)
      requires Arranged(scheduled, times, members, timers) && Sifts(times, n, i0, false, false)
      modifies this`scheduled, this`times, timers`index
      ensures |scheduled| == |old(scheduled)| && Arranged(scheduled, times, members, timers) && scheduled[n..] == old(scheduled[n..])
      ensures moved ==> Heap(times[..n])
      ensures !moved ==> Sifts(times, n, i0, false, true)
    {
      var i, sunk := i0, false;
      while 2 * i + 1 < n && !sunk
        invariant i0 <= i < n <= |scheduled| == |old(scheduled)| && Arranged(scheduled, times, members, timers)
        invariant scheduled[n..] == old(scheduled[n..]) && Sifts(times, n, i, i > i0, sunk)
        decreases n - i, !sunk
      {
        var j := Smaller(i, n);
        DueTime(i);
        DueTime(j);
        if scheduled[j].at < scheduled[i].at {
          SiftDown(times, n, i, i > i0, j);
          Swap(i, j);
          i := j;
        } else {
          DownEnds(times, n, i, i > i0, j);
          sunk := true;
        }
      }
      if !sunk {
        DownEnds(times, n, i, i > i0, i);
      }
      SiftsMean(times, n, i, i > i0, true);
      moved := i > i0;
    }

    /** heap.Push. */
    method Push(t: Timer)
      requires Valid() && t in timers && t !in members
      modifies this`scheduled, this`times, this`members, timers`index
      ensures Valid() && members == old(members) + {t} && |scheduled| == |old(scheduled)| + 1
    {
      ArrangedMeans(scheduled, times, members, timers);
      t.index := |scheduled|;
      scheduled, times, members := scheduled + [t], times + [t.at], members + {t};
      MakeArranged(scheduled, times, members, timers);
      PushSifts(old(times), t.at);
      Up(|scheduled| - 1, |scheduled|);
      assert times[..|scheduled|] == times;
    }

    /** The last element leaves the slice. */
    method Truncate() returns (t: Timer)
      requires scheduled != [] && Arranged(scheduled, times, members, timers) && Heap(times[..|scheduled| - 1])
      modifies this`scheduled, this`times, this`members, timers`index
      ensures Valid() && t == old(scheduled)[|old(scheduled)| - 1] && |scheduled| == |old(scheduled)| - 1
      ensures t in old(members) && members == old(members) - {t} && t.index == -1
    {
      ArrangedMeans(scheduled, times, members, timers);
      var end := |scheduled| - 1;
      t := scheduled[end];
      LastAlone(scheduled);
      assert t in scheduled;
      t.index := -1;
      scheduled, times, members := scheduled[..end], times[..end], members - {t};
      MakeArranged(scheduled, times, members, timers);
    }

    /** heap.Remove; with i = 0 also heap.Pop. */
    method RemoveAt(i: nat) returns (t: Timer)
      requires Valid() && i < |scheduled|
      modifies this`scheduled, this`times, this`members, timers`index
      ensures Valid() && t == old(scheduled)[i] && t.index == -1
      ensures t in old(members) && members == old(members) - {t} && |scheduled| == |old(scheduled)| - 1
    {
      var n := |scheduled| - 1;
      if n != i {
        MoveToEnd(i);
      }
      t := Truncate();
    }

    /** The element at i changes places with the last one, and the others are put in order again. */
    method MoveToEnd(i: nat)
      requires Valid() && i < |scheduled| - 1
      modifies this`scheduled, this`times, timers`index
      ensures |scheduled| == |old(scheduled)| && scheduled[|scheduled| - 1] == old(scheduled)[i]
      ensures Arranged(scheduled, times, members, timers) && Heap(times[..|scheduled| - 1])
    {
      var n := |scheduled| - 1;
      LastTaken(times, i);
      Swap(i, n);
      ghost var tail := scheduled[n..];
      assert tail[0] == scheduled[n];
      var moved := Down(i, n);
      if !moved {
        Up(i, n);
      }
      assert scheduled[n..][0] == tail[0];
    }

    /** heap.Fix, after the due time of the element at i has changed. */
    method Fix(i: nat)
      requires i < |scheduled| && Arranged(scheduled, times, members, timers) && Sifts(times, |times|, i, false, false)
      modifies this`scheduled, this`times, timers`index
      ensures Valid()
    {
      var moved := Down(i, |scheduled|);
      if !moved {
        Up(i, |scheduled|);
      }
      assert times[..|scheduled|] == times;
    }

    method Schedule(d: int, hasChannel: bool) returns (t: Timer)
      requires Valid()
      modifies this`scheduled, this`times, this`members, this`timers, timers`index
      ensures Valid() && fresh(t) && t.at == now + d && t.hasChannel == hasChannel
      ensures timers == old(timers) + {t} && members == old(members) + {t}
    {
      t := new Timer(now + d, hasChannel);
      ArrangedMeans(scheduled, times, members, timers);
      timers := timers + {t};
      MakeArranged(scheduled, times, members, timers);
      Push(t);
    }

    /** Stop: true exactly for a pending timer, which then no longer is. */
    method Stop(t: Timer) returns (stopped: bool)
      requires Valid() && t in timers
      modifies this`scheduled, this`times, this`members, timers`index
      ensures Valid() && (stopped <==> t in old(members)) && members == old(members) - {t} && t.index == -1
    {
      IndexMeans(t);
      stopped := t.index >= 0;
      if stopped {
        var removed := RemoveAt(t.index);
        t.index := -1;
      }
    }

    /** Reset: whether it was pending or not, the timer is due d from now. */
    method Reset(t: Timer, d: int)
      requires Valid() && t in timers && t.hasChannel
      modifies this`scheduled, this`times, this`members, timers`index, t`at
      ensures Valid() && t.at == now + d && members == old(members) + {t}
    {
      IndexMeans(t);
      ArrangedMeans(scheduled, times, members, timers);
      t.at := now + d;
      if t.index < 0 {
        MakeArranged(scheduled, times, members, timers);
        Push(t);
      } else {
        times := times[t.index := t.at];
        MakeArranged(scheduled, times, members, timers);
        ChangedSifts(old(times), t.index, t.at);
        Fix(t.index);
      }
    }

    /** Run: exactly the timers due by then fire, in order of their due times. */
    method Run(d: int) returns (fired: seq<Timer>)
      requires Valid()
      modifies this`now, this`scheduled, this`times, this`members, timers`index
      ensures Valid() && now == old(now) + d
      ensures forall i, j | 0 <= i < j < |fired| :: fired[i].at <= fired[j].at && fired[i] != fired[j]
      ensures forall t | t in fired :: t in old(members) && t.at <= now
      ensures forall t | t in old(members) :: t in fired <==> t.at <= now
      ensures forall t | t in members :: t in old(members) && t.at > now
      ensures forall t | t in old(members) :: t in members <==> t !in fired
    {
      var end := now + d;
      fired := [];
      ghost var all := members;
      while |scheduled| > 0 && scheduled[0].at <= end
        invariant Valid() && timers == old(timers)
        invariant Split(all, members, fired)
        invariant forall t | t in fired :: t.at <= end
        invariant forall i, j | 0 <= i < j < |fired| :: fired[i].at <= fired[j].at && fired[i] != fired[j]
        invariant forall i, t | 0 <= i < |fired| && t in members :: fired[i].at <= t.at
        decreases |scheduled|
      {
        Earliest();
        var ev := RemoveAt(0);
        fired := fired + [ev];
      }
      if |scheduled| > 0 { Earliest(); }
      ArrangedMeans(scheduled, times, members, timers);
      now := end;
    }

    /** The first element is due before all others. */
    lemma Earliest()
      requires Valid() && |scheduled| > 0
      ensures scheduled[0] in members && forall t | t in members :: scheduled[0].at <= t.at
    {
      ArrangedMeans(scheduled, times, members, timers);
      forall t | t in members ensures scheduled[0].at <= t.at {
        var k :| 0 <= k < |scheduled| && scheduled[k] == t;
        RootFirst(times, k);
      }
    }
  }

  /** Every timer is either still there or has fired. */
  ghost predicate Split(all: set<Timer>, members: set<Timer>, fired: seq<Timer>)
  {
    && (forall t | t in fired :: t in all && t !in members)
    && members <= all
    && (forall t | t in all && t !in members :: t in fired)
  }

  lemma LastAlone(h: seq<Timer>)
    requires h != [] && Placed(h)
    ensures forall k | 0 <= k < |h| - 1 :: h[k] != h[|h| - 1]
  {
    forall k | 0 <= k < |h| - 1 ensures h[k] != h[|h| - 1] {
      assert h[k].index == k;
    }
  }

  lemma PushSifts(ks: seq<int>, x: int)
    requires Heap(ks)
    ensures Sifts(ks + [x], |ks| + 1, |ks|, false, true)
  {
    assert (ks + [x])[..|ks| + 1] == ks + [x];
  }

  lemma ChangedSifts(ks: seq<int>, i: nat, x: int)
    requires Heap(ks) && i < |ks|
    ensures Sifts(ks[i := x], |ks|, i, false, false)
  {
    HeapIsExcept(ks, i, x);
    assert ks[i := x][..|ks|] == ks[i := x];
  }

  /** The last element put in the place of i leaves a heap that is in order except at i. */
  lemma LastTaken(ks: seq<int>, i: nat)
    requires Heap(ks) && i < |ks| - 1
    ensures Sifts(Exchanged(ks, i, |ks| - 1), |ks| - 1, i, false, false)
  {
    var n := |ks| - 1;
    assert Heap(ks[..n]);
    HeapIsExcept(ks[..n], i, ks[n]);
    assert Exchanged(ks, i, n)[..n] == ks[..n][i := ks[n]];
  }

  lemma ChildChosen(ks: seq<int>, i: nat, j: nat)
    requires i < |ks| && 2 * i + 1 <= j <= 2 * i + 2 && j < |ks|
    requires j == 2 * i + 1 && j + 1 < |ks| ==> ks[j] <= ks[j + 1]
    requires j == 2 * i + 2 ==> ks[j] <= ks[j - 1]
    ensures SmallerChild(ks, i, j)
  {
    forall k | 1 <= k < |ks| && Parent(k) == i ensures ks[j] <= ks[k] {
      assert k == 2 * i + 1 || k == 2 * i + 2;
    }
  }

  /** The same timers, in some order. */
  ghost predicate Same(h: seq<Timer>, g: seq<Timer>)
  {
    |h| == |g| && (forall t | t in h :: t in g) && (forall t | t in g :: t in h)
  }

  lemma ExchangedSame(h: seq<Timer>, i: nat, j: nat)
    requires i < |h| && j < |h|
    ensures Same(Exchanged(h, i, j), h)
  {
    var r := Exchanged(h, i, j);
    forall t | t in h ensures t in r {
      var k :| 0 <= k < |h| && h[k] == t;
      assert r[if k == i then j else if k == j then i else k] == t;
    }
  }
}
