/** The pure sequence functions behind TestObservable's subscriber list:
    what `List<T>.Remove` does to it, and what a broadcast over it sends to
    whom and in which order. */
module SubscriberList {

  /** The index `List<T>.IndexOf` finds: the first occurrence of x. */
  function FirstIndex<T(==)>(s: seq<T>, x: T): (k: nat)
    requires x in s
    ensures k < |s| && s[k] == x && forall j :: 0 <= j < k ==> s[j] != x
  {
    if s[0] == x then 0
    else
      assert x in s[1..] by { assert s == [s[0]] + s[1..]; }
      FirstIndex(s[1..], x) + 1
  }

  /** `List<T>.Remove`: drops the first occurrence of x, if there is one,
      and keeps the rest in order. */
  function RemoveFirst<T(==)>(s: seq<T>, x: T): (r: seq<T>)
    ensures x !in s ==> r == s
    ensures |r| == if x in s then |s| - 1 else |s|
  {
    if s == [] then []
    else
      assert s == [s[0]] + s[1..];
      if s[0] == x then s[1..] else [s[0]] + RemoveFirst(s[1..], x)
  }

  /** RemoveFirst takes away exactly one occurrence of x when there is one,
      and nothing else. */
  lemma {:induction false} RemoveFirstCount<T>(s: seq<T>, x: T)
    ensures multiset(RemoveFirst(s, x)) == multiset(s) - multiset{x}
  {
    if s != [] {
      assert s == [s[0]] + s[1..];
      RemoveFirstCount(s[1..], x);
    }
  }

  /** RemoveFirst cuts the list at the first occurrence of x, which is the
      index FirstIndex finds, and nowhere else. */
  lemma {:induction false} RemoveFirstAt<T>(s: seq<T>, x: T, k: nat)
    requires k < |s| && s[k] == x && forall j :: 0 <= j < k ==> s[j] != x
    ensures RemoveFirst(s, x) == s[..k] + s[k + 1..]
  {
    if k == 0 {
      assert s[..0] + s[1..] == s[1..];
    } else {
      var t := s[1..];
      assert s[0] != x;
      RemoveFirstAt(t, x, k - 1);
      assert [s[0]] + (t[..k - 1] + t[k..]) == s[..k] + s[k + 1..] by {
        assert [s[0]] + t[..k - 1] == s[..k];
        assert t[k..] == s[k + 1..];
      }
    }
  }

  /** In particular at the index List<T>.IndexOf reports. */
  lemma {:induction false} RemoveFirstAtFirstIndex<T>(s: seq<T>, x: T)
    requires x in s
    ensures var k := FirstIndex(s, x); RemoveFirst(s, x) == s[..k] + s[k + 1..]
  {
    var k := FirstIndex(s, x);
    RemoveFirstAt(s, x, k);
  }

  /** Removing twice removes nothing more than removing once exactly when x
      occurred at most once. */
  lemma {:induction false} RemoveFirstTwice<T>(s: seq<T>, x: T)
    ensures RemoveFirst(RemoveFirst(s, x), x) == RemoveFirst(s, x) <==> multiset(s)[x] <= 1
  {
    var r := RemoveFirst(s, x);
    RemoveFirstCount(s, x);
    RemoveFirstCount(r, x);
    if multiset(s)[x] > 1 {
      assert multiset(RemoveFirst(r, x))[x] == multiset(r)[x] - 1;
    }
  }

  /** Appending x and then removing its first occurrence always leaves a
      permutation of the old list. */
  lemma {:induction false} AppendThenRemovePermutes<T>(s: seq<T>, x: T)
    ensures multiset(RemoveFirst(s + [x], x)) == multiset(s)
  {
    RemoveFirstCount(s + [x], x);
    assert multiset(s + [x]) == multiset(s) + multiset{x};
  }

  /** When x was not in the list, appending it and then removing its first
      occurrence gives back exactly the old list. */
  lemma {:induction false} AppendThenRemove<T>(s: seq<T>, x: T)
    requires x !in s
    ensures RemoveFirst(s + [x], x) == s
  {
    if s != [] {
      var t := s[1..];
      assert s + [x] == [s[0]] + (t + [x]);
      AppendThenRemove(t, x);
      assert RemoveFirst(s + [x], x) == [s[0]] + RemoveFirst(t + [x], x);
    }
  }

  /** When x was already in the list, appending it and removing it again
      takes out the EARLIER entry: the new copy stays at the end. */
  lemma {:induction false} AppendThenRemoveDuplicate<T>(s: seq<T>, x: T)
    requires x in s
    ensures RemoveFirst(s + [x], x) == RemoveFirst(s, x) + [x]
  {
    var k := FirstIndex(s, x);
    assert (s + [x])[..k] == s[..k];
    RemoveFirstAt(s + [x], x, k);
    RemoveFirstAt(s, x, k);
    assert (s + [x])[k + 1..] == s[k + 1..] + [x];
  }

  /** One instance of that reordering: `[x, y]` becomes `[y, x]`. */
  lemma AppendThenRemoveReorders<T>(x: T, y: T)
    requires x != y
    ensures RemoveFirst([x, y] + [x], x) == [y, x]
  {
  }

  /** `k` copies of `b`, one after the other. */
  function Repeat<T>(b: seq<T>, k: nat): seq<T>
  {
    if k == 0 then [] else Repeat(b, k - 1) + b
  }

  /** The calls a broadcast of `burst` over the list `s` makes: for each
      entry in list order, the whole burst to that entry. */
  function Fanout<O, N>(s: seq<O>, burst: seq<N>): seq<(O, N)>
  {
    if s == [] then []
    else Fanout(s[..|s| - 1], burst) + Burst(s[|s| - 1], burst)
  }

  /** The calls that deliver `burst` to one receiver. */
  function Burst<O, N>(o: O, burst: seq<N>): seq<(O, N)>
  {
    seq(|burst|, i requires 0 <= i < |burst| => (o, burst[i]))
  }

  /** What one receiver sees of a sequence of calls, in order. */
  function Project<O(==), N>(d: seq<(O, N)>, o: O): seq<N>
  {
    if d == [] then []
    else Project(d[..|d| - 1], o) + (if d[|d| - 1].0 == o then [d[|d| - 1].1] else [])
  }

  lemma {:induction false} ProjectAppend<O, N>(a: seq<(O, N)>, b: seq<(O, N)>, o: O)
    ensures Project(a + b, o) == Project(a, o) + Project(b, o)
  {
    if b == [] {
      assert a + b == a;
    } else {
      assert (a + b)[..|a + b| - 1] == a + b[..|b| - 1];
      ProjectAppend(a, b[..|b| - 1], o);
    }
  }

  lemma {:induction false} ProjectBurst<O, N>(p: O, burst: seq<N>, o: O)
    ensures Project(Burst(p, burst), o) == if p == o then burst else []
  {
    if burst != [] {
      var b' := burst[..|burst| - 1];
      assert Burst(p, burst)[..|burst| - 1] == Burst(p, b');
      ProjectBurst(p, b', o);
    }
  }

  /** Seen by one receiver, a broadcast over the list delivers the burst
      once for every time the receiver occurs in the list. */
  lemma {:induction false} ProjectFanout<O, N>(s: seq<O>, burst: seq<N>, o: O)
    ensures Project(Fanout(s, burst), o) == Repeat(burst, multiset(s)[o])
  {
    if s != [] {
      var s', p := s[..|s| - 1], s[|s| - 1];
      var m := multiset(s')[o];
      CountLast(s, o);
      ProjectFanout(s', burst, o);
      ProjectAppend(Fanout(s', burst), Burst(p, burst), o);
      ProjectBurst(p, burst, o);
      if p == o {
        assert Repeat(burst, m + 1) == Repeat(burst, m) + burst;
      } else {
        assert Repeat(burst, m) + [] == Repeat(burst, m);
      }
    }
  }

  /** The last entry of a list adds one to its own count and to no other. */
  lemma {:induction false} CountLast<T>(s: seq<T>, x: T)
    requires s != []
    ensures multiset(s)[x] == multiset(s[..|s| - 1])[x] + (if s[|s| - 1] == x then 1 else 0)
  {
    assert s == s[..|s| - 1] + [s[|s| - 1]];
  }
}
