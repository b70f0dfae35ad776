/** Sequence operations the rest of the model is specified with, and the few laws of theirs that its proofs use. */
module Seqs {

  function Filter<T>(p: T -> bool, s: seq<T>): seq<T> {
    if s == [] then [] else (if p(s[0]) then [s[0]] else []) + Filter(p, s[1..])
  }

  function Map<T, U>(f: T -> U, s: seq<T>): (r: seq<U>)
    ensures |r| == |s|
    ensures forall i :: 0 <= i < |s| ==> r[i] == f(s[i])
  {
    if s == [] then [] else [f(s[0])] + Map(f, s[1..])
  }

  function FlatMap<T, U>(f: T -> seq<U>, s: seq<T>): seq<U> {
    if s == [] then [] else f(s[0]) + FlatMap(f, s[1..])
  }

  /** The elements of a sequence are pairwise different. */
  ghost predicate Distinct<T>(s: seq<T>) {
    forall i, j :: 0 <= i < j < |s| ==> s[i] != s[j]
  }

  /** A filter keeps exactly the members that satisfy the predicate. */
  lemma {:induction false} InFilter<T>(p: T -> bool, s: seq<T>)
    ensures forall x :: x in Filter(p, s) <==> x in s && p(x)
  {
    if s != [] {
      InFilter(p, s[1..]);
    }
  }

  lemma {:induction false} FilterShorter<T>(p: T -> bool, s: seq<T>)
    ensures |Filter(p, s)| <= |s|
  {
    if s != [] {
      FilterShorter(p, s[1..]);
    }
  }

  lemma {:induction false} FilterAppend<T>(p: T -> bool, a: seq<T>, b: seq<T>)
    ensures Filter(p, a + b) == Filter(p, a) + Filter(p, b)
  {
    if a == [] {
      assert a + b == b;
      FilterEmpty(p, Filter(p, b));
    } else {
      var head := if p(a[0]) then [a[0]] else [];
      FilterAppend(p, a[1..], b);
      assert (a + b)[1..] == a[1..] + b && (a + b)[0] == a[0];
      Associate(head, Filter(p, a[1..]), Filter(p, b));
    }
  }

  lemma FilterEmpty<T>(p: T -> bool, s: seq<T>)
    ensures Filter(p, []) == [] && [] + s == s
  {
  }

  lemma Associate<T>(a: seq<T>, b: seq<T>, c: seq<T>)
    ensures a + (b + c) == (a + b) + c && a + [] == a
  {
  }

  lemma MapAppend<T, U>(f: T -> U, a: seq<T>, b: seq<T>)
    ensures Map(f, a + b) == Map(f, a) + Map(f, b)
  {
  }

  lemma {:induction false} FlatMapAppend<T, U>(f: T -> seq<U>, a: seq<T>, b: seq<T>)
    ensures FlatMap(f, a + b) == FlatMap(f, a) + FlatMap(f, b)
  {
    if a == [] {
      assert a + b == b;
    } else {
      assert (a + b)[1..] == a[1..] + b;
      FlatMapAppend(f, a[1..], b);
    }
  }

  /** One more element: the form in which loops use the laws above. */
  lemma FilterSnoc<T>(p: T -> bool, s: seq<T>, i: nat)
    requires i < |s|
    ensures Filter(p, s[..i + 1]) == Filter(p, s[..i]) + (if p(s[i]) then [s[i]] else [])
  {
    assert s[..i + 1] == s[..i] + [s[i]];
    FilterAppend(p, s[..i], [s[i]]);
  }

  lemma FlatMapSnoc<T, U>(f: T -> seq<U>, s: seq<T>, i: nat)
    requires i < |s|
    ensures FlatMap(f, s[..i + 1]) == FlatMap(f, s[..i]) + f(s[i])
  {
    assert s[..i + 1] == s[..i] + [s[i]];
    FlatMapAppend(f, s[..i], [s[i]]);
    assert FlatMap(f, [s[i]]) == f(s[i]);
  }

  lemma {:induction false} FilterCongruence<T>(p: T -> bool, q: T -> bool, s: seq<T>)
    requires forall x :: x in s ==> p(x) == q(x)
    ensures Filter(p, s) == Filter(q, s)
  {
    if s != [] {
      FilterCongruence(p, q, s[1..]);
    }
  }

  lemma {:induction false} FlatMapCongruence<T, U>(f: T -> seq<U>, g: T -> seq<U>, s: seq<T>)
    requires forall x :: x in s ==> f(x) == g(x)
    ensures FlatMap(f, s) == FlatMap(g, s)
  {
    if s != [] {
      FlatMapCongruence(f, g, s[1..]);
    }
  }

  function Not<T>(p: T -> bool): T -> bool {
    (x: T) => !p(x)
  }

  /** A flattened sequence is the elements under some members and those under the others. */
  lemma {:induction false} FlatMapSplit<T, U>(f: T -> seq<U>, p: T -> bool, s: seq<T>)
    ensures multiset(FlatMap(f, s)) == multiset(FlatMap(f, Filter(p, s))) + multiset(FlatMap(f, Filter(Not(p), s)))
  {
    if s != [] {
      FlatMapSplit(f, p, s[1..]);
      FlatMapHead(f, p, s);
      FlatMapHead(f, Not(p), s);
    }
  }

  lemma FlatMapHead<T, U>(f: T -> seq<U>, p: T -> bool, s: seq<T>)
    requires s != []
    ensures FlatMap(f, Filter(p, s)) == (if p(s[0]) then f(s[0]) else []) + FlatMap(f, Filter(p, s[1..]))
  {
    FlatMapAppend(f, if p(s[0]) then [s[0]] else [], Filter(p, s[1..]));
    assert FlatMap(f, [s[0]]) == f(s[0]) + [] == f(s[0]);
  }

  lemma {:induction false} FilterAll<T>(p: T -> bool, s: seq<T>)
    requires forall x :: x in s ==> p(x)
    ensures Filter(p, s) == s
  {
    if s != [] {
      FilterAll(p, s[1..]);
    }
  }

  lemma {:induction false} FilterNone<T>(p: T -> bool, s: seq<T>)
    requires forall x :: x in s ==> !p(x)
    ensures Filter(p, s) == []
  {
    if s != [] {
      FilterNone(p, s[1..]);
    }
  }

  lemma {:induction false} FilterTwice<T>(p: T -> bool, q: T -> bool, both: T -> bool, s: seq<T>)
    requires forall x :: x in s ==> both(x) == (q(x) && p(x))
    ensures Filter(p, Filter(q, s)) == Filter(both, s)
  {
    if s != [] {
      FilterAppend(p, if q(s[0]) then [s[0]] else [], Filter(q, s[1..]));
      FilterTwice(p, q, both, s[1..]);
    }
  }

  lemma {:induction false} FlatMapNone<T, U>(f: T -> seq<U>, s: seq<T>)
    requires forall i :: 0 <= i < |s| ==> f(s[i]) == []
    ensures FlatMap(f, s) == []
  {
    if s != [] {
      FlatMapNone(f, s[1..]);
    }
  }

  lemma {:induction false} FilterMap<T, U>(p: U -> bool, q: T -> bool, f: T -> U, s: seq<T>)
    requires forall x :: x in s ==> p(f(x)) == q(x)
    ensures Filter(p, Map(f, s)) == Map(f, Filter(q, s))
  {
    if s != [] {
      FilterMap(p, q, f, s[1..]);
      assert Map(f, s)[0] == f(s[0]) && Map(f, s)[1..] == Map(f, s[1..]);
    }
  }

  /** Membership in a flattened sequence. */
  lemma {:induction false} InFlatMap<T, U>(f: T -> seq<U>, s: seq<T>, y: U)
    ensures y in FlatMap(f, s) <==> exists i :: 0 <= i < |s| && y in f(s[i])
  {
    if s != [] {
      InFlatMap(f, s[1..], y);
      if y in FlatMap(f, s[1..]) {
        var i :| 0 <= i < |s[1..]| && y in f(s[1..][i]);
        assert y in f(s[i + 1]);
      }
      if i :| 0 <= i < |s| && y in f(s[i]) {
        if i > 0 {
          assert s[i] == s[1..][i - 1];
        }
      }
    }
  }

  /** How often an element survives a filter. */
  lemma {:induction false} FilterCount<T>(p: T -> bool, s: seq<T>, x: T)
    ensures multiset(Filter(p, s))[x] == if p(x) then multiset(s)[x] else 0
  {
    if s != [] {
      FilterCount(p, s[1..], x);
      assert s == [s[0]] + s[1..];
    }
  }

  lemma SameCounts<T>(a: multiset<T>, b: multiset<T>)
    requires forall x: T :: a[x] == b[x]
    ensures a == b
  {
  }

  /** A filter sees only the multiset of what it filters. */
  lemma FilterMultiset<T>(p: T -> bool, s: seq<T>, t: seq<T>)
    requires multiset(s) == multiset(t)
    ensures multiset(Filter(p, s)) == multiset(Filter(p, t))
  {
    var a, b := multiset(Filter(p, s)), multiset(Filter(p, t));
    forall x: T
      ensures a[x] == b[x]
    {
      FilterCount(p, s, x);
      FilterCount(p, t, x);
    }
    SameCounts(a, b);
  }

  lemma {:induction false} MapCount<T, U>(f: T -> U, p: T -> bool, s: seq<T>, y: U)
    requires forall x :: p(x) <==> f(x) == y
    ensures multiset(Map(f, s))[y] == |multiset(Filter(p, s))|
  {
    if s != [] {
      MapCount(f, p, s[1..], y);
      assert Map(f, s) == [f(s[0])] + Map(f, s[1..]);
    }
  }

  lemma MapCountSame<T, U>(f: T -> U, s: seq<T>, t: seq<T>, y: U)
    requires multiset(s) == multiset(t)
    ensures multiset(Map(f, s))[y] == multiset(Map(f, t))[y]
  {
    var p := (x: T) => f(x) == y;
    MapCount(f, p, s, y);
    MapCount(f, p, t, y);
    FilterMultiset(p, s, t);
  }

  lemma FewerElements<T>(a: multiset<T>, b: multiset<T>, x: T)
    requires a <= b && a[x] < b[x]
    ensures |a| < |b|
  {
    var rest := b - a;
    assert rest[x] > 0;
    assert b == a + rest;
  }

  /** Mapping preserves equality of multisets. */
  lemma MapMultiset<T, U>(f: T -> U, s: seq<T>, t: seq<T>)
    requires multiset(s) == multiset(t)
    ensures multiset(Map(f, s)) == multiset(Map(f, t))
  {
    var a, b := multiset(Map(f, s)), multiset(Map(f, t));
    forall y: U
      ensures a[y] == b[y]
    {
      MapCountSame(f, s, t, y);
    }
    SameCounts(a, b);
  }

  lemma CountAppend<T>(a: seq<T>, b: seq<T>, x: T)
    ensures multiset(a + b)[x] == multiset(a)[x] + multiset(b)[x]
  {
  }

  // ----- Elements that occur once -----

  lemma {:induction false} DistinctCount<T>(s: seq<T>)
    ensures Distinct(s) <==> forall x :: multiset(s)[x] <= 1
  {
    if s != [] {
      var n := |s| - 1;
      assert s == s[..n] + [s[n]];
      DistinctCount(s[..n]);
      DistinctSnoc(s[..n], s[n]);
    }
  }

  lemma DistinctSnoc<T>(s: seq<T>, x: T)
    ensures Distinct(s + [x]) <==> Distinct(s) && x !in s
    ensures (forall y :: multiset(s + [x])[y] <= 1) <==> (forall y :: multiset(s)[y] <= 1) && x !in s
  {
    var more := s + [x];
    if Distinct(more) {
      assert forall i :: 0 <= i < |s| ==> more[i] == s[i];
      assert more[|s|] == x;
    }
    assert forall y :: multiset(more)[y] == multiset(s)[y] + if y == x then 1 else 0;
    assert x in s <==> multiset(s)[x] > 0;
  }

  lemma DistinctFilter<T>(p: T -> bool, s: seq<T>)
    requires Distinct(s)
    ensures Distinct(Filter(p, s))
  {
    hide Distinct, Filter;
    DistinctCount(s);
    DistinctCount(Filter(p, s));
    forall x: T
      ensures multiset(Filter(p, s))[x] <= 1
    {
      FilterCount(p, s, x);
    }
  }

  /** A map that tells the elements apart keeps them so. */
  lemma DistinctMap<T, U>(f: T -> U, s: seq<T>)
    requires forall x, y :: x in s && y in s && f(x) == f(y) ==> x == y
    ensures Distinct(Map(f, s)) <==> Distinct(s)
  {
    var m := Map(f, s);
    if Distinct(s) {
      forall i, j | 0 <= i < j < |m|
        ensures m[i] != m[j]
      {
        assert s[i] in s && s[j] in s;
      }
    }
    if Distinct(m) {
      forall i, j | 0 <= i < j < |s|
        ensures s[i] != s[j]
      {
        assert m[i] != m[j];
      }
    }
  }

  lemma DistinctAppend<T>(a: seq<T>, b: seq<T>)
    ensures Distinct(a + b) <==> Distinct(a) && Distinct(b) && forall x :: x in a ==> x !in b
  {
    hide Distinct;
    DistinctCount(a);
    DistinctCount(b);
    DistinctCount(a + b);
    assert forall x :: multiset(a + b)[x] == multiset(a)[x] + multiset(b)[x];
    assert forall x :: x in a <==> multiset(a)[x] > 0;
    assert forall x :: x in b <==> multiset(b)[x] > 0;
  }
}
