/**
 The event feed (events/feed.go). The select cases are an array whose prefix of length m is still to be served
 during a Send: serving a case swaps it behind the prefix, removing one shifts the rest down. Channel 0 is the
 remove channel in slot 0. What other goroutines do meanwhile is left to chance.
 */
module Feed {
  import opened Words

  type Chan = nat

  const REMOVE: Chan := 0

  // ----- the case list as a value

  function Without(s: seq<Chan>, i: nat): seq<Chan>
    requires i < |s|
  {
    s[..i] + s[i + 1..]
  }

  function Swapped(s: seq<Chan>, i: nat, j: nat): seq<Chan>
    requires i < |s| && j < |s|
  {
    s[i := s[j]][j := s[i]]
  }

  ghost predicate CaseList(s: seq<Chan>)
  {
    |s| > 0 && s[0] == REMOVE && forall i | 1 <= i < |s| :: s[i] != REMOVE
  }

  function Subscribers(s: seq<Chan>): multiset<Chan>
    requires |s| > 0
  {
    multiset(s[1..])
  }

  lemma SwapKeeps(s: seq<Chan>, i: nat, j: nat)
    requires 1 <= i <= j < |s| && CaseList(s)
    ensures CaseList(Swapped(s, i, j)) && Subscribers(Swapped(s, i, j)) == Subscribers(s)
  {
    var r := Swapped(s, i, j);
    if i < j {
      assert s[1..] == s[1..i] + [s[i]] + s[i + 1..j] + [s[j]] + s[j + 1..];
      assert r[1..] == s[1..i] + [s[j]] + s[i + 1..j] + [s[i]] + s[j + 1..];
    } else {
      assert r == s;
    }
  }

  lemma WithoutLoses(s: seq<Chan>, i: nat)
    requires 1 <= i < |s| && CaseList(s)
    ensures CaseList(Without(s, i)) && Subscribers(s) == Subscribers(Without(s, i)) + multiset{s[i]}
  {
    assert s[1..] == s[1..i] + [s[i]] + s[i + 1..];
    assert Without(s, i)[1..] == s[1..i] + s[i + 1..];
  }

  /** A Send so far: who was there at the start, who took the value, who left before its turn, and who left at all. */
  datatype Tally = Tally(start: multiset<Chan>, served: seq<Chan>, lost: seq<Chan>, gone: multiset<Chan>)

  /**
   For one channel, in a round of Send over the cases s of which the first m are still to be served: every subscription
   of the start is still active, or was served, or was removed before its turn; and is still there or was removed.
   */
  ghost predicate InRound(s: seq<Chan>, m: nat, t: Tally, ch: Chan)
    requires 1 <= m <= |s|
  {
    && Subscribers(s[..m])[ch] + multiset(t.served)[ch] + multiset(t.lost)[ch] == t.start[ch]
    && Subscribers(s)[ch] + t.gone[ch] == t.start[ch]
    && multiset(t.lost)[ch] <= t.gone[ch]
  }

  ghost predicate Round(s: seq<Chan>, m: nat, t: Tally)
  {
    1 <= m <= |s| && forall ch: Chan :: InRound(s, m, t, ch)
  }

  lemma RoundStart(s: seq<Chan>, t: Tally)
    requires CaseList(s) && t == Tally(Subscribers(s), [], [], multiset{})
    ensures Round(s, |s|, t)
  {
    assert s[..|s|] == s;
    forall x: Chan ensures InRound(s, |s|, t, x) { }
  }

  /** When nobody is left to be served, all are accounted for. */
  lemma RoundEnd(s: seq<Chan>, t: Tally)
    requires Round(s, 1, t)
    ensures multiset(t.served) + multiset(t.lost) == t.start && Subscribers(s) + t.gone == t.start && multiset(t.lost) <= t.gone
  {
    assert s[..1][1..] == [];
    forall x: Chan
      ensures (multiset(t.served) + multiset(t.lost))[x] == t.start[x] && (Subscribers(s) + t.gone)[x] == t.start[x]
      ensures multiset(t.lost)[x] <= t.gone[x]
    {
      assert InRound(s, 1, t, x);
    }
  }

  lemma ServeStep(s: seq<Chan>, m: nat, i: nat, t: Tally, r: seq<Chan>, t': Tally)
    requires CaseList(s) && Round(s, m, t) && 1 <= i < m
    requires r == Swapped(s, i, m - 1) && t' == t.(served := t.served + [s[i]])
    ensures Round(r, m - 1, t')
  {
    ServePrefix(s, m, i);
    SwapKeeps(s, i, m - 1);
    var m' := m - 1;
    forall x: Chan ensures InRound(r, m', t', x) {
      assert InRound(s, m, t, x);
    }
  }

  lemma ServePrefix(s: seq<Chan>, m: nat, i: nat)
    requires CaseList(s) && 1 <= i < m <= |s|
    ensures Subscribers(s[..m]) == Subscribers(Swapped(s, i, m - 1)[..m - 1]) + multiset{s[i]}
  {
    if i < m - 1 {
      ServeInner(s, m, i);
    } else {
      assert s[..m][1..] == Swapped(s, i, m - 1)[..m - 1][1..] + [s[i]];
    }
  }

  lemma ServeInner(s: seq<Chan>, m: nat, i: nat)
    requires CaseList(s) && 1 <= i < m - 1 < |s|
    ensures Subscribers(s[..m]) == Subscribers(Swapped(s, i, m - 1)[..m - 1]) + multiset{s[i]}
  {
    var a, b := s[1..i], s[i + 1..m - 1];
    assert s[..m][1..] == a + [s[i]] + b + [s[m - 1]];
    assert Swapped(s, i, m - 1)[..m - 1][1..] == a + [s[m - 1]] + b;
  }

  /** The tally after a removal at an index, while the first m are active. */
  function Removed(t: Tally, m: nat, i: nat, ch: Chan): Tally
  {
    t.(gone := t.gone + multiset{ch}, lost := if i < m then t.lost + [ch] else t.lost)
  }

  lemma RemoveStep(s: seq<Chan>, m: nat, i: nat, t: Tally, r: seq<Chan>, m': nat, t': Tally)
    requires CaseList(s) && Round(s, m, t) && 1 <= i < |s|
    requires r == Without(s, i) && m' == (if i < m then m - 1 else m) && t' == Removed(t, m, i, s[i])
    ensures Round(r, m', t')
  {
    RemovePrefix(s, m, i);
    WithoutLoses(s, i);
    forall x: Chan ensures InRound(r, m', t', x) {
      assert InRound(s, m, t, x);
    }
  }

  lemma RemovePrefix(s: seq<Chan>, m: nat, i: nat)
    requires CaseList(s) && 1 <= i < |s| && 1 <= m <= |s|
    ensures i < m ==> Subscribers(s[..m]) == Subscribers(Without(s, i)[..m - 1]) + multiset{s[i]}
    ensures i >= m ==> Without(s, i)[..m] == s[..m]
  {
    if i < m {
      WithoutLoses(s[..m], i);
      assert Without(s[..m], i) == Without(s, i)[..m - 1];
    }
  }

  // ----- subscriptions

  /** Subscriptions that nobody has begun to remove. */
  function LiveOf(s: seq<Chan>, inbox: seq<Chan>, waiting: multiset<Chan>): multiset<Chan>
    requires |s| > 0
  {
    Subscribers(s) + multiset(inbox) - waiting
  }

  lemma LiveUnbox(s: seq<Chan>, inbox: seq<Chan>, waiting: multiset<Chan>, k: nat)
    requires |s| > 0 && k < |inbox| && waiting <= Subscribers(s)
    ensures LiveOf(s, Without(inbox, k), waiting) == LiveOf(s, inbox, waiting) - multiset{inbox[k]}
    ensures REMOVE !in inbox ==> REMOVE !in Without(inbox, k)
  {
    Dropped(inbox, k);
    LiveDrops(Subscribers(s), multiset(inbox), multiset(Without(inbox, k)), waiting, inbox[k]);
  }

  lemma LiveWait(s: seq<Chan>, inbox: seq<Chan>, waiting: multiset<Chan>, ch: Chan)
    requires |s| > 0 && ch in LiveOf(s, inbox, waiting) && ch !in inbox && waiting <= Subscribers(s)
    ensures LiveOf(s, inbox, waiting + multiset{ch}) == LiveOf(s, inbox, waiting) - multiset{ch}
    ensures waiting[ch] < Subscribers(s)[ch]
  {
    LiveWaits(Subscribers(s), multiset(inbox), waiting, ch);
  }

  lemma Dropped(s: seq<Chan>, k: nat)
    requires k < |s|
    ensures multiset(s) == multiset(Without(s, k)) + multiset{s[k]}
    ensures forall x | x in Without(s, k) :: x in s
  {
    assert s == s[..k] + [s[k]] + s[k + 1..];
  }

  lemma LiveDrops(cases: multiset<Chan>, inbox: multiset<Chan>, rest: multiset<Chan>, waiting: multiset<Chan>, ch: Chan)
    requires inbox == rest + multiset{ch} && waiting <= cases
    ensures cases + rest - waiting == cases + inbox - waiting - multiset{ch}
  {
  }

  lemma LiveWaits(cases: multiset<Chan>, inbox: multiset<Chan>, waiting: multiset<Chan>, ch: Chan)
    requires ch !in inbox && ch in cases + inbox - waiting && waiting <= cases
    ensures waiting + multiset{ch} <= cases
    ensures cases + inbox - (waiting + multiset{ch}) == cases + inbox - waiting - multiset{ch}
  {
  }

  // ----- slices of the backing array

  /** find: the first case with the channel. */
  method Find(a: array<Chan>, n: nat, ch: Chan) returns (r: Option<nat>)
    requires n <= a.Length
    ensures r.Some? ==> r.value < n && a[r.value] == ch && ch !in a[..r.value]
    ensures r.None? <==> ch !in a[..n]
  {
    for k := 0 to n
      invariant ch !in a[..k]
    {
      if a[k] == ch { return Some(k); }
    }
    return None;
  }

  /** delete: everything behind the index moves down by one, in place. */
  method Delete(a: array<Chan>, n: nat, index: nat)
    requires index < n <= a.Length
    modifies a
    ensures a[..n - 1] == Without(old(a[..n]), index)
  {
    var k := index;
    while k < n - 1
      invariant index <= k <= n - 1
      invariant forall i | 0 <= i < index :: a[i] == old(a[i])
      invariant forall i | index <= i < k :: a[i] == old(a[i + 1])
      invariant forall i | k <= i < n :: a[i] == old(a[i])
    {
      a[k] := a[k + 1];
      k := k + 1;
    }
  }

  /** deactivate: the served case changes places with the last active one. */
  method Deactivate(a: array<Chan>, n: nat, m: nat, index: nat)
    requires index < m <= n <= a.Length
    modifies a
    ensures a[..n] == Swapped(old(a[..n]), index, m - 1)
  {
    a[index], a[m - 1] := a[m - 1], a[index];
  }

  // ----- what others do, and the books

  /** What another goroutine does while a Send pauses: subscribe a channel, or begin to remove one. */
  datatype Act = Join(ch: Chan) | Quit(ch: Chan)

  function Joins(acts: seq<Act>): multiset<Chan>
  {
    if acts == [] then multiset{}
    else Joins(acts[..|acts| - 1]) + JoinOf(acts[|acts| - 1])
  }

  function JoinOf(act: Act): multiset<Chan> { if act.Join? && act.ch != REMOVE then multiset{act.ch} else multiset{} }

  function QuitOf(act: Act): multiset<Chan> { if act.Quit? then multiset{act.ch} else multiset{} }

  function Quits(acts: seq<Act>): multiset<Chan>
  {
    if acts == [] then multiset{}
    else Quits(acts[..|acts| - 1]) + QuitOf(acts[|acts| - 1])
  }

  /** All acts of the first pauses. */
  function AllActs(others: nat -> seq<Act>, turns: nat): seq<Act>
  {
    if turns == 0 then [] else AllActs(others, turns - 1) + others(turns - 1)
  }

  lemma {:induction false} JoinsConcat(a: seq<Act>, b: seq<Act>, x: Chan)
    ensures Joins(a + b)[x] == Joins(a)[x] + Joins(b)[x]
  {
    if b == [] {
      assert a + b == a;
    } else {
      var init, act := b[..|b| - 1], b[|b| - 1];
      JoinsConcat(a, init, x);
      assert (a + b)[..|a + b| - 1] == a + init && (a + b)[|a + b| - 1] == act;
      assert Joins(a + b) == Joins(a + init) + JoinOf(act);
    }
  }

  lemma {:induction false} QuitsConcat(a: seq<Act>, b: seq<Act>, x: Chan)
    ensures Quits(a + b)[x] == Quits(a)[x] + Quits(b)[x]
  {
    if b == [] {
      assert a + b == a;
    } else {
      var init, act := b[..|b| - 1], b[|b| - 1];
      QuitsConcat(a, init, x);
      assert (a + b)[..|a + b| - 1] == a + init && (a + b)[|a + b| - 1] == act;
      assert Quits(a + b) == Quits(a + init) + QuitOf(act);
    }
  }

  /**
   The history of a feed: subscriptions made, removals begun, and removals done, out of the inbox or out of the cases.
   */
  datatype Books = Books(joined: multiset<Chan>, asked: multiset<Chan>, unboxed: multiset<Chan>, deleted: multiset<Chan>)

  /**
   For one channel: whoever joined is there or was removed; whoever asked to leave waits or was removed; and every
   waiting removal has a case to remove.
   */
  ghost predicate KeptAt(b: Books, cases: multiset<Chan>, inbox: multiset<Chan>, waiting: multiset<Chan>, ch: Chan)
  {
    && b.joined[ch] == cases[ch] + inbox[ch] + b.unboxed[ch] + b.deleted[ch]
    && b.asked[ch] == waiting[ch] + b.unboxed[ch] + b.deleted[ch]
    && waiting[ch] <= cases[ch]
  }

  ghost predicate Kept(b: Books, cases: multiset<Chan>, inbox: multiset<Chan>, waiting: multiset<Chan>)
  {
    forall ch: Chan :: KeptAt(b, cases, inbox, waiting, ch)
  }

  /** For one channel: the books after others have acted and a Send has taken out gone. */
  ghost predicate AccountedAt(start: Books, acts: seq<Act>, gone: multiset<Chan>, now: Books, ch: Chan)
  {
    && now.joined[ch] == start.joined[ch] + Joins(acts)[ch]
    && start.asked[ch] <= now.asked[ch] <= start.asked[ch] + Quits(acts)[ch]
    && start.unboxed[ch] <= now.unboxed[ch] && now.deleted[ch] == start.deleted[ch] + gone[ch]
  }

  ghost predicate Accounted(start: Books, acts: seq<Act>, gone: multiset<Chan>, now: Books)
  {
    forall ch: Chan :: AccountedAt(start, acts, gone, now, ch)
  }

  /** The same for what others do in the first pauses of a Send. */
  ghost predicate FollowedAt(start: Books, others: nat -> seq<Act>, turns: nat, gone: multiset<Chan>, now: Books, ch: Chan)
  {
    AccountedAt(start, AllActs(others, turns), gone, now, ch)
  }

  ghost predicate Followed(start: Books, others: nat -> seq<Act>, turns: nat, gone: multiset<Chan>, now: Books)
  {
    forall ch: Chan :: FollowedAt(start, others, turns, gone, now, ch)
  }

  /** The books after others have acted: nothing is deleted meanwhile. */
  ghost predicate Grown(b: Books, acts: seq<Act>, b': Books)
  {
    Accounted(b, acts, multiset{}, b')
  }

  lemma KeptCovers(b: Books, cases: multiset<Chan>, inbox: multiset<Chan>, waiting: multiset<Chan>)
    requires Kept(b, cases, inbox, waiting)
    ensures waiting <= cases
  {
    forall x: Chan ensures waiting[x] <= cases[x] {
      assert KeptAt(b, cases, inbox, waiting, x);
    }
  }

  lemma KeptJoin(b: Books, cases: multiset<Chan>, inbox: seq<Chan>, waiting: multiset<Chan>, ch: Chan)
    requires Kept(b, cases, multiset(inbox), waiting)
    ensures Kept(b.(joined := b.joined + multiset{ch}), cases, multiset(inbox + [ch]), waiting)
  {
    forall x: Chan ensures KeptAt(b.(joined := b.joined + multiset{ch}), cases, multiset(inbox + [ch]), waiting, x) {
      assert KeptAt(b, cases, multiset(inbox), waiting, x);
    }
  }

  lemma KeptUnbox(b: Books, cases: multiset<Chan>, inbox: seq<Chan>, waiting: multiset<Chan>, k: nat)
    requires k < |inbox| && Kept(b, cases, multiset(inbox), waiting)
    ensures var one := multiset{inbox[k]};
      Kept(b.(asked := b.asked + one, unboxed := b.unboxed + one), cases, multiset(Without(inbox, k)), waiting)
  {
    Dropped(inbox, k);
    var one := multiset{inbox[k]};
    forall x: Chan ensures KeptAt(b.(asked := b.asked + one, unboxed := b.unboxed + one), cases, multiset(Without(inbox, k)), waiting, x) {
      assert KeptAt(b, cases, multiset(inbox), waiting, x);
    }
  }

  lemma KeptTogether(b: Books, cases: multiset<Chan>, inbox: seq<Chan>, waiting: multiset<Chan>)
    requires Kept(b, cases, multiset(inbox), waiting)
    ensures Kept(b, cases + multiset(inbox), multiset([]), waiting)
  {
    forall x: Chan ensures KeptAt(b, cases + multiset(inbox), multiset([]), waiting, x) {
      assert KeptAt(b, cases, multiset(inbox), waiting, x);
    }
  }

  lemma KeptWait(b: Books, cases: multiset<Chan>, inbox: multiset<Chan>, waiting: multiset<Chan>, ch: Chan)
    requires Kept(b, cases, inbox, waiting) && waiting[ch] < cases[ch]
    ensures Kept(b.(asked := b.asked + multiset{ch}), cases, inbox, waiting + multiset{ch})
  {
    forall x: Chan ensures KeptAt(b.(asked := b.asked + multiset{ch}), cases, inbox, waiting + multiset{ch}, x) {
      assert KeptAt(b, cases, inbox, waiting, x);
    }
  }

  lemma KeptDelete(b: Books, cases: multiset<Chan>, rest: multiset<Chan>, inbox: multiset<Chan>, waiting: multiset<Chan>, ch: Chan)
    requires Kept(b, cases, inbox, waiting) && cases == rest + multiset{ch} && ch in waiting
    ensures Kept(b.(deleted := b.deleted + multiset{ch}), rest, inbox, waiting - multiset{ch})
  {
    forall x: Chan ensures KeptAt(b.(deleted := b.deleted + multiset{ch}), rest, inbox, waiting - multiset{ch}, x) {
      assert KeptAt(b, cases, inbox, waiting, x);
    }
  }

  /** One act: a subscription, or a removal that was begun or came to nothing. */
  ghost predicate Acted(mid: Books, act: Act, now: Books)
  {
    match act
    case Join(ch) => now == if ch == REMOVE then mid else mid.(joined := mid.joined + multiset{ch})
    case Quit(ch) =>
      || now == mid
      || now == mid.(asked := mid.asked + multiset{ch})
      || now == mid.(asked := mid.asked + multiset{ch}, unboxed := mid.unboxed + multiset{ch})
  }

  lemma GrownNext(b: Books, acts: seq<Act>, k: nat, mid: Books, now: Books)
    requires k < |acts| && Grown(b, acts[..k], mid) && Acted(mid, acts[k], now)
    ensures Grown(b, acts[..k + 1], now)
  {
    assert acts[..k + 1][..k] == acts[..k];
    var more, none: multiset<Chan> := acts[..k + 1], multiset{};
    forall x: Chan ensures AccountedAt(b, more, none, now, x) {
      assert AccountedAt(b, acts[..k], none, mid, x);
    }
  }

  // ----- the feed

  class Feed {
    var sendCases: array<Chan>
    var n: nat
    var inbox: seq<Chan>
    /** Removals that have looked into the inbox and now wait for a Send or for the send lock. */
    var waiting: multiset<Chan>
    /** The channels that took a value, in order: one entry for each value sent. */
    var delivered: seq<Chan>
    ghost var books: Books

    ghost predicate Valid()
      reads this, sendCases
    {
      && 1 <= n <= sendCases.Length
      && CaseList(sendCases[..n]) && REMOVE !in inbox
      && Kept(books, Subscribers(sendCases[..n]), multiset(inbox), waiting)
    }

    function Live(): multiset<Chan>
      reads this, sendCases
      requires 1 <= n <= sendCases.Length
    {
      LiveOf(sendCases[..n], inbox, waiting)
    }

    constructor ()
      ensures Valid() && fresh(sendCases) && sendCases[..n] == [REMOVE] && inbox == [] && waiting == multiset{}
      ensures delivered == [] && books == Books(multiset{}, multiset{}, multiset{}, multiset{})
    {
      sendCases := new Chan[1](_ => REMOVE);
      n, inbox, waiting, delivered := 1, [], multiset{}, [];
      books := Books(multiset{}, multiset{}, multiset{}, multiset{});
      new;
      assert sendCases[..n] == [REMOVE];
      forall x: Chan ensures KeptAt(books, Subscribers(sendCases[..n]), multiset(inbox), waiting, x) { }
    }

    method Subscribe(ch: Chan)
      requires Valid() && ch != REMOVE
      modifies this`inbox, this`books
      ensures Valid() && inbox == old(inbox) + [ch]
      ensures books == old(books).(joined := old(books).joined + multiset{ch})
    {
      KeptJoin(books, Subscribers(sendCases[..n]), inbox, waiting, ch);
      inbox := inbox + [ch];
      books := books.(joined := books.joined + multiset{ch});
    }

    method Unbox(k: nat)
      requires Valid() && k < |inbox|
      modifies this`inbox, this`books
      ensures Valid() && inbox == Without(old(inbox), k) && Live() == old(Live()) - multiset{old(inbox)[k]}
      ensures var one := multiset{old(inbox)[k]};
        books == old(books).(asked := old(books).asked + one, unboxed := old(books).unboxed + one)
    {
      KeptCovers(books, Subscribers(sendCases[..n]), multiset(inbox), waiting);
      LiveUnbox(sendCases[..n], inbox, waiting, k);
      KeptUnbox(books, Subscribers(sendCases[..n]), inbox, waiting, k);
      books := books.(asked := books.asked + multiset{inbox[k]}, unboxed := books.unboxed + multiset{inbox[k]});
      inbox := Without(inbox, k);
    }

    method Wait(ch: Chan)
      requires Valid() && ch in Live() && ch !in inbox
      modifies this`waiting, this`books
      ensures Valid() && waiting == old(waiting) + multiset{ch} && Live() == old(Live()) - multiset{ch}
      ensures books == old(books).(asked := old(books).asked + multiset{ch})
    {
      KeptCovers(books, Subscribers(sendCases[..n]), multiset(inbox), waiting);
      LiveWait(sendCases[..n], inbox, waiting, ch);
      KeptWait(books, Subscribers(sendCases[..n]), multiset(inbox), waiting, ch);
      waiting := waiting + multiset{ch};
      books := books.(asked := books.asked + multiset{ch});
    }

    /** The first half of remove: take the channel out of the inbox, or else queue for the second half. */
    method Remove(ch: Chan) returns (done: bool)
      requires Valid() && ch in Live()
      modifies this`inbox, this`waiting, this`books
      ensures Valid() && Live() == old(Live()) - multiset{ch}
      ensures done <==> ch in old(inbox)
      ensures !done ==> waiting == old(waiting) + multiset{ch} && inbox == old(inbox)
      ensures books == if done then old(books).(asked := old(books).asked + multiset{ch}, unboxed := old(books).unboxed + multiset{ch})
                       else old(books).(asked := old(books).asked + multiset{ch})
    {
      var k := 0;
      while k < |inbox| && inbox[k] != ch
        invariant k <= |inbox| && ch !in inbox[..k]
      {
        k := k + 1;
      }
      done := k < |inbox|;
      if done {
        Unbox(k);
      } else {
        assert inbox[..k] == inbox;
        Wait(ch);
      }
    }

    /** A removal that has waited always finds its channel, and behind slot 0. */
    method FindWaiting(ch: Chan) returns (index: nat)
      requires Valid() && ch in waiting
      ensures 1 <= index < n && sendCases[index] == ch
    {
      var r := Find(sendCases, n, ch);
      KeptCovers(books, Subscribers(sendCases[..n]), multiset(inbox), waiting);
      assert ch in Subscribers(sendCases[..n]);
      assert ch in sendCases[..n][1..];
      index := r.value;
      assert sendCases[..n][index] == ch;
    }

    /** Takes the case at an index out, for a removal that waits for it. */
    method DeleteCase(index: nat)
      requires Valid() && 1 <= index < n && sendCases[index] in waiting
      modifies this`n, this`waiting, this`books, sendCases
      ensures Valid() && n == old(n) - 1 && sendCases[..n] == Without(old(sendCases[..n]), index)
      ensures waiting == old(waiting) - multiset{old(sendCases[index])}
      ensures books == old(books).(deleted := old(books).deleted + multiset{old(sendCases[index])})
    {
      WithoutLoses(sendCases[..n], index);
      var ch := sendCases[index];
      KeptDelete(books, Subscribers(sendCases[..n]), Subscribers(Without(sendCases[..n], index)), multiset(inbox), waiting, ch);
      Delete(sendCases, n, index);
      n := n - 1;
      waiting := waiting - multiset{ch};
      books := books.(deleted := books.deleted + multiset{ch});
    }

    /** The second half of remove when no Send is in progress. */
    method RemoveNow(ch: Chan)
      requires Valid() && ch in waiting
      modifies this`n, this`waiting, this`books, sendCases
      ensures Valid() && waiting == old(waiting) - multiset{ch}
      ensures old(Subscribers(sendCases[..n])) == Subscribers(sendCases[..n]) + multiset{ch}
      ensures books == old(books).(deleted := old(books).deleted + multiset{ch})
    {
      var index := FindWaiting(ch);
      WithoutLoses(sendCases[..n], index);
      DeleteCase(index);
    }

    /** A removal of what is not subscribed does nothing. */
    method Perform(act: Act)
      requires Valid()
      modifies this`inbox, this`waiting, this`books
      ensures Valid() && Acted(old(books), act, books)
    {
      match act {
        case Join(ch) => if ch != REMOVE { Subscribe(ch); }
        case Quit(ch) => if ch in Live() { var done := Remove(ch); }
      }
    }

    /** What other goroutines do in one pause of a Send. */
    method Interfere(acts: seq<Act>)
      requires Valid()
      modifies this`inbox, this`waiting, this`books
      ensures Valid() && Grown(old(books), acts, books)
    {
      for k := 0 to |acts|
        invariant Valid() && Grown(old(books), acts[..k], books)
      {
        ghost var mid := books;
        Perform(acts[k]);
        GrownNext(old(books), acts, k, mid, books);
      }
      assert acts[..|acts|] == acts;
    }

    /** The cases behind slot 0 and the inbox become the cases of a Send. */
    method TakeInbox()
      requires Valid()
      modifies this`sendCases, this`n, this`inbox
      ensures Valid() && fresh(sendCases)
      ensures sendCases[..n] == old(sendCases[..n] + inbox) && inbox == []
    {
      Joined(sendCases[..n], inbox);
      KeptTogether(books, Subscribers(sendCases[..n]), inbox, waiting);
      var all := sendCases[..n] + inbox;
      var a := new Chan[|all|](i requires 0 <= i < |all| => all[i]);
      assert a[..|all|] == all;
      sendCases, n, inbox := a, |all|, [];
    }

    /** The fast path: try every active case once, without blocking; chance decides which ones take the value. */
    method FastPath(m0: nat, ghost t0: Tally, ghost base: seq<Chan>) returns (m: nat, nsent: nat, ghost t: Tally)
      requires Valid() && Round(sendCases[..n], m0, t0) && delivered == base + t0.served
      modifies this`delivered, sendCases
      ensures Valid() && Round(sendCases[..n], m, t) && m <= m0
      ensures delivered == base + t.served && |t.served| == |t0.served| + nsent && t == t0.(served := t.served)
    {
      m, nsent, t := m0, 0, t0;
      var i := 1;
      while i < m
        invariant 1 <= i <= m <= m0
        invariant Valid() && Round(sendCases[..n], m, t)
        invariant delivered == base + t.served && |t.served| == |t0.served| + nsent && t == t0.(served := t.served)
        decreases m - i
      {
        var taken: bool := *;
        if taken {
          m, t := Serve(i, m, t, base);
          nsent := nsent + 1;
        } else {
          i := i + 1;
        }
      }
    }

    /** Sends to an active case and takes it out of the active part. */
    method Serve(chosen: nat, m0: nat, ghost t0: Tally, ghost base: seq<Chan>) returns (m: nat, ghost t: Tally)
      requires Valid() && 1 <= chosen < m0 && Round(sendCases[..n], m0, t0) && delivered == base + t0.served
      modifies this`delivered, sendCases
      ensures Valid() && Round(sendCases[..n], m, t) && m == m0 - 1
      ensures t == t0.(served := t0.served + [old(sendCases[chosen])])
      ensures delivered == base + t.served && delivered == old(delivered) + [old(sendCases[chosen])]
    {
      var ch := sendCases[chosen];
      ghost var s := sendCases[..n];
      t := t0.(served := t0.served + [ch]);
      m := m0 - 1;
      SwapKeeps(s, chosen, m);
      ServeStep(s, m0, chosen, t0, Swapped(s, chosen, m), t);
      Deactivate(sendCases, n, m0, chosen);
      delivered := delivered + [ch];
    }

    /** A select that receives from the remove channel. */
    method SelectRemove(ch: Chan, m0: nat, ghost t0: Tally) returns (m: nat, ghost t: Tally)
      requires Valid() && ch in waiting && Round(sendCases[..n], m0, t0)
      modifies this`n, this`waiting, this`books, sendCases
      ensures Valid() && Round(sendCases[..n], m, t) && m + n < m0 + old(n)
      ensures t.start == t0.start && t.served == t0.served && t.gone == t0.gone + multiset{ch} && waiting == old(waiting) - multiset{ch}
      ensures books == old(books).(deleted := old(books).deleted + multiset{ch})
    {
      var index := FindWaiting(ch);
      m, t := if index < m0 then m0 - 1 else m0, Removed(t0, m0, index, ch);
      RemoveStep(sendCases[..n], m0, index, t0, Without(sendCases[..n], index), m, t);
      DeleteCase(index);
    }

    /**
     One select: a waiting removal is carried out, or the channel of an active case takes the value, as chance has it;
     the measure always falls.
     */
    method Select(m0: nat, ghost t0: Tally, ghost base: seq<Chan>) returns (m: nat, nsent: nat, ghost t: Tally, ch: Chan)
      requires Valid() && 1 < m0 && Round(sendCases[..n], m0, t0) && delivered == base + t0.served
      modifies this`n, this`waiting, this`books, this`delivered, sendCases
      ensures Valid() && Round(sendCases[..n], m, t) && m + n < m0 + old(n)
      ensures delivered == base + t.served && |t.served| == |t0.served| + nsent && t.start == t0.start && nsent <= 1
      ensures nsent == 1 ==>
        && ch in old(sendCases[1..m0]) && t == t0.(served := t0.served + [ch])
        && delivered == old(delivered) + [ch] && waiting == old(waiting) && books == old(books)
      ensures nsent == 0 ==>
        && ch in old(waiting) && t.gone == t0.gone + multiset{ch} && waiting == old(waiting) - multiset{ch}
        && books == old(books).(deleted := old(books).deleted + multiset{ch})
    {
      var chosen: nat;
      ch, chosen := *, *;
      nsent := 0;
      if ch in waiting {
        m, t := SelectRemove(ch, m0, t0);
      } else {
        chosen := if 1 <= chosen < m0 then chosen else 1;
        ch := sendCases[chosen];
        assert sendCases[1..m0][chosen - 1] == ch;
        m, t := Serve(chosen, m0, t0, base);
        nsent := 1;
      }
    }

    /**
     Send, whatever other goroutines do in its pauses: every subscriber of the start takes the value exactly once or
     was removed before its turn, nobody else takes it, and the result counts the deliveries. Afterwards exactly the
     removed ones are gone, and each of them had asked to leave before the Send or in one of its pauses.
     */
    method Send(others: nat -> seq<Act>) returns (nsent: nat, ghost t: Tally, ghost turns: nat)
      requires Valid()
      modifies this
      ensures Valid() && sendCases[0] == REMOVE && t.start == old(Subscribers(sendCases[..n]) + multiset(inbox))
      ensures delivered == old(delivered) + t.served && nsent == |t.served|
      ensures multiset(t.served) + multiset(t.lost) == t.start
      ensures Subscribers(sendCases[..n]) + t.gone == t.start && multiset(t.lost) <= t.gone
      ensures books.deleted == old(books).deleted + t.gone
      ensures books.joined == old(books).joined + Joins(AllActs(others, turns))
      ensures t.gone + waiting <= old(waiting) + Quits(AllActs(others, turns)) && turns <= 4 * |t.start|
      ensures t.gone + waiting + books.unboxed + old(books).asked == old(waiting) + old(books).unboxed + books.asked
    {
      ghost var start, waited, base := books, waiting, delivered;
      ghost var was, boxed := Subscribers(sendCases[..n]), multiset(inbox);
      NothingDone(start, others);
      Joined(sendCases[..n], inbox);
      TakeInbox();
      var m: nat, pause: nat := n, 0;
      nsent, t := 0, Tally(Subscribers(sendCases[..n]), [], [], multiset{});
      RoundStart(sendCases[..n], t);
      while m > 1
        invariant Valid() && fresh(sendCases) && Round(sendCases[..n], m, t)
        invariant t.start == old(Subscribers(sendCases[..n]) + multiset(inbox))
        invariant delivered == base + t.served && nsent == |t.served| && pause + 2 * (m + n) <= 4 * (|t.start| + 1)
        invariant Followed(start, others, pause, t.gone, books)
        decreases m + n
      {
        var more: nat;
        m, more, pause, t := Turn(others, pause, m, t, start, base);
        nsent := nsent + more;
      }
      turns := pause;
      RoundEnd(sendCases[..n], t);
      Settled(start, was, boxed, waited, others, turns, t.gone, books, Subscribers(sendCases[..n]), multiset(inbox), waiting);
    }

    /** One round of the loop of Send: the fast path and, if somebody is left, one select, each after a pause. */
    method Turn(others: nat -> seq<Act>, pause: nat, m0: nat, ghost t0: Tally, ghost start: Books, ghost base: seq<Chan>)
        returns (m: nat, nsent: nat, pause': nat, ghost t: Tally)
      requires Valid() && m0 > 1 && Round(sendCases[..n], m0, t0) && delivered == base + t0.served
      requires Followed(start, others, pause, t0.gone, books)
      modifies this`n, this`inbox, this`waiting, this`books, this`delivered, sendCases
      ensures Valid() && Round(sendCases[..n], m, t) && t.start == t0.start && m + n < m0 + old(n)
      ensures delivered == base + t.served && |t.served| == |t0.served| + nsent
      ensures Followed(start, others, pause', t.gone, books) && pause' <= pause + 2
    {
      m, nsent, t := TryAll(others, pause, m0, t0, start, base);
      pause' := pause + 1;
      if m > 1 {
        var more: nat;
        m, more, t := SelectOne(others, pause', m, t, start, base);
        nsent, pause' := nsent + more, pause' + 1;
      }
    }

    method TryAll(others: nat -> seq<Act>, pause: nat, m0: nat, ghost t0: Tally, ghost start: Books, ghost base: seq<Chan>)
        returns (m: nat, nsent: nat, ghost t: Tally)
      requires Valid() && m0 > 1 && Round(sendCases[..n], m0, t0) && delivered == base + t0.served
      requires Followed(start, others, pause, t0.gone, books)
      modifies this`inbox, this`waiting, this`books, this`delivered, sendCases
      ensures Valid() && Round(sendCases[..n], m, t) && t.start == t0.start && m <= m0
      ensures delivered == base + t.served && |t.served| == |t0.served| + nsent
      ensures Followed(start, others, pause + 1, t.gone, books)
    {
      Pause(others, pause, t0.gone, start);
      m, nsent, t := FastPath(m0, t0, base);
    }

    method SelectOne(others: nat -> seq<Act>, pause: nat, m0: nat, ghost t0: Tally, ghost start: Books, ghost base: seq<Chan>)
        returns (m: nat, nsent: nat, ghost t: Tally)
      requires Valid() && m0 > 1 && Round(sendCases[..n], m0, t0) && delivered == base + t0.served
      requires Followed(start, others, pause, t0.gone, books)
      modifies this`n, this`inbox, this`waiting, this`books, this`delivered, sendCases
      ensures Valid() && Round(sendCases[..n], m, t) && t.start == t0.start && m + n < m0 + old(n)
      ensures delivered == base + t.served && |t.served| == |t0.served| + nsent
      ensures Followed(start, others, pause + 1, t.gone, books)
    {
      Pause(others, pause, t0.gone, start);
      ghost var mid := books;
      var ch: Chan;
      m, nsent, t, ch := Select(m0, t0, base);
      AccountDeleted(start, others, pause + 1, t0.gone, mid, ch, t.gone, books);
    }

    method Pause(others: nat -> seq<Act>, turn: nat, ghost gone: multiset<Chan>, ghost start: Books)
      requires Valid() && Followed(start, others, turn, gone, books)
      modifies this`inbox, this`waiting, this`books
      ensures Valid() && Followed(start, others, turn + 1, gone, books)
    {
      ghost var mid := books;
      Interfere(others(turn));
      AccountMore(start, others, turn, gone, mid, books);
    }
  }

  lemma NothingDone(start: Books, others: nat -> seq<Act>)
    ensures Followed(start, others, 0, multiset{}, start)
  {
    var none: multiset<Chan> := multiset{};
    forall x: Chan ensures FollowedAt(start, others, 0, none, start, x) { }
  }

  lemma AccountDeleted(start: Books, others: nat -> seq<Act>, turns: nat, gone: multiset<Chan>, mid: Books, ch: Chan,
                       gone': multiset<Chan>, now: Books)
    requires Followed(start, others, turns, gone, mid)
    requires (gone' == gone && now == mid) || (gone' == gone + multiset{ch} && now == mid.(deleted := mid.deleted + multiset{ch}))
    ensures Followed(start, others, turns, gone', now)
  {
    forall x: Chan ensures FollowedAt(start, others, turns, gone', now, x) {
      assert FollowedAt(start, others, turns, gone, mid, x);
    }
  }

  lemma AccountMore(start: Books, others: nat -> seq<Act>, turns: nat, gone: multiset<Chan>, mid: Books, now: Books)
    requires Followed(start, others, turns, gone, mid) && Grown(mid, others(turns), now)
    ensures Followed(start, others, turns + 1, gone, now)
  {
    var next := turns + 1;
    forall x: Chan ensures FollowedAt(start, others, next, gone, now, x) {
      assert FollowedAt(start, others, turns, gone, mid, x) && AccountedAt(mid, others(turns), multiset{}, now, x);
      JoinsConcat(AllActs(others, turns), others(turns), x);
      QuitsConcat(AllActs(others, turns), others(turns), x);
    }
  }

  /** So whoever is gone or waits now waited before or asked meanwhile, and exactly those gone were deleted. */
  lemma Settled(start: Books, cases0: multiset<Chan>, inbox0: multiset<Chan>, waiting0: multiset<Chan>, others: nat -> seq<Act>, turns: nat,
                gone: multiset<Chan>, now: Books, cases: multiset<Chan>, inbox: multiset<Chan>, waiting: multiset<Chan>)
    requires Kept(start, cases0, inbox0, waiting0) && Followed(start, others, turns, gone, now) && Kept(now, cases, inbox, waiting)
    ensures now.joined == start.joined + Joins(AllActs(others, turns)) && now.deleted == start.deleted + gone
    ensures gone + waiting + now.unboxed + start.asked == waiting0 + start.unboxed + now.asked
    ensures gone + waiting <= waiting0 + Quits(AllActs(others, turns))
  {
    var acts := AllActs(others, turns);
    forall x: Chan
      ensures now.joined[x] == (start.joined + Joins(acts))[x] && now.deleted[x] == (start.deleted + gone)[x]
      ensures (gone + waiting + now.unboxed + start.asked)[x] == (waiting0 + start.unboxed + now.asked)[x]
      ensures (gone + waiting)[x] <= (waiting0 + Quits(acts))[x]
    {
      assert KeptAt(start, cases0, inbox0, waiting0, x) && FollowedAt(start, others, turns, gone, now, x) && KeptAt(now, cases, inbox, waiting, x);
    }
  }

  lemma Joined(s: seq<Chan>, inbox: seq<Chan>)
    requires CaseList(s) && REMOVE !in inbox
    ensures CaseList(s + inbox) && Subscribers(s + inbox) == Subscribers(s) + multiset(inbox)
  {
    assert (s + inbox)[1..] == s[1..] + inbox;
  }

  /**
   What a Send means for a channel that was subscribed once: it never takes the value twice, and unless its removal
   had been asked for, before or meanwhile, it takes it exactly once.
   */
  lemma ExactlyOnce(before: seq<Chan>, after: seq<Chan>, t: Tally, waiting: multiset<Chan>, acts: seq<Act>, ch: Chan)
    requires after == before + t.served && multiset(t.served) + multiset(t.lost) == t.start && t.start[ch] == 1
    requires multiset(t.lost) <= t.gone <= waiting + Quits(acts)
    ensures multiset(after)[ch] <= multiset(before)[ch] + 1
    ensures multiset(after)[ch] == multiset(before)[ch] + 1 <==> ch !in t.lost
    ensures ch !in waiting && ch !in Quits(acts) ==> multiset(after)[ch] == multiset(before)[ch] + 1
  {
    assert (multiset(t.served) + multiset(t.lost))[ch] == 1;
    assert ch in t.lost <==> multiset(t.lost)[ch] > 0;
    assert multiset(after) == multiset(before) + multiset(t.served);
    assert multiset(t.lost)[ch] <= (waiting + Quits(acts))[ch];
  }
}
