/** Sorting a list by a comparison, without a promise about elements that compare as equal (Go's sort.Slice). */
module Sorting {

  predicate SortedBy<T>(s: seq<T>, le: (T, T) -> bool) {
    forall i, j :: 0 <= i < j < |s| ==> le(s[i], s[j])
  }

  /** On the elements of the list, the comparison is total and transitive. */
  ghost predicate Orders<T>(s: seq<T>, le: (T, T) -> bool) {
    && (forall a, b :: a in s && b in s ==> le(a, b) || le(b, a))
    && (forall a, b, c :: a in s && b in s && c in s && le(a, b) && le(b, c) ==> le(a, c))
  }

  function Inserted<T>(s: seq<T>, x: T, k: nat): seq<T>
    requires k <= |s|
  {
    s[..k] + [x] + s[k..]
  }

  lemma InsertedAt<T>(s: seq<T>, x: T, k: nat, i: nat)
    requires k <= |s| && i <= |s|
    ensures Inserted(s, x, k)[i] == if i < k then s[i] else if i == k then x else s[i - 1]
  {
  }

  lemma InsertedKeepsAll<T>(s: seq<T>, x: T, k: nat)
    requires k <= |s|
    ensures multiset(Inserted(s, x, k)) == multiset(s) + multiset{x}
  {
    assert s == s[..k] + s[k..];
  }

  lemma InsertedInOrder<T>(s: seq<T>, x: T, k: nat, le: (T, T) -> bool)
    requires SortedBy(s, le) && k <= |s|
    requires forall i :: 0 <= i < k ==> le(s[i], x)
    requires forall i :: k <= i < |s| ==> le(x, s[i])
    ensures SortedBy(Inserted(s, x, k), le)
  {
    forall i, j | 0 <= i < j < |s| + 1 ensures le(Inserted(s, x, k)[i], Inserted(s, x, k)[j]) {
      InsertedAt(s, x, k, i);
      InsertedAt(s, x, k, j);
    }
  }

  /** Where x belongs in a sorted list. */
  method Place<T>(s: seq<T>, x: T, le: (T, T) -> bool) returns (k: nat)
    requires SortedBy(s, le) && Orders(s + [x], le)
    ensures k <= |s|
    ensures forall i :: 0 <= i < k ==> le(s[i], x)
    ensures forall i :: k <= i < |s| ==> le(x, s[i])
  {
    var all := s + [x];
    assert x in all && forall y <- s :: y in all;
    k := |s|;
    while k > 0 && !le(s[k - 1], x)
      invariant k <= |s|
      invariant forall i :: k <= i < |s| ==> le(x, s[i])
    {
      k := k - 1;
    }
    if k > 0 {
      forall i | 0 <= i < k ensures le(s[i], x) {
        assert i < k - 1 ==> le(s[i], s[k - 1]);
      }
    }
  }

  lemma OrdersPart<T>(s: seq<T>, t: seq<T>, le: (T, T) -> bool)
    requires Orders(s, le) && forall x <- t :: x in s
    ensures Orders(t, le)
  {
  }

  method SortBy<T(==)>(s: seq<T>, le: (T, T) -> bool) returns (r: seq<T>)
    requires Orders(s, le)
    ensures SortedBy(r, le) && multiset(r) == multiset(s)
  {
    r := [];
    for n := 0 to |s|
      invariant SortedBy(r, le) && multiset(r) == multiset(s[..n])
    {
      assert s[..n + 1] == s[..n] + [s[n]];
      forall x <- r + [s[n]] ensures x in s {
        assert x in multiset(s[..n]) || x == s[n];
      }
      OrdersPart(s, r + [s[n]], le);
      var k := Place(r, s[n], le);
      InsertedInOrder(r, s[n], k, le);
      InsertedKeepsAll(r, s[n], k);
      r := Inserted(r, s[n], k);
    }
    assert s[..|s|] == s;
  }

  lemma WithoutFirst<T>(a: seq<T>, b: seq<T>)
    requires a != [] && b != [] && a[0] == b[0] && multiset(a) == multiset(b)
    ensures multiset(a[1..]) == multiset(b[1..])
  {
    assert a == [a[0]] + a[1..] && b == [a[0]] + b[1..];
    assert multiset(a[1..]) == multiset(a) - multiset{a[0]} && multiset(b[1..]) == multiset(b) - multiset{a[0]};
  }

  lemma FirstIsLeast<T>(a: seq<T>, x: T, le: (T, T) -> bool)
    requires SortedBy(a, le) && x in multiset(a)
    ensures a != [] && (a[0] == x || le(a[0], x))
  {
    var k :| 0 <= k < |a| && a[k] == x;
  }

  /** A list has only one sorted order when different elements never compare as equal. */
  lemma {:induction false} SortedIsOne<T>(a: seq<T>, b: seq<T>, le: (T, T) -> bool)
    requires SortedBy(a, le) && SortedBy(b, le) && multiset(a) == multiset(b)
    requires forall x, y :: x in a && y in a && le(x, y) && le(y, x) ==> x == y
    ensures a == b
    decreases |a|
  {
    assert |multiset(a)| == |a| && |multiset(b)| == |b|;
    if a != [] {
      assert b[0] in multiset(b) && a[0] in multiset(a);
      FirstIsLeast(b, a[0], le);
      FirstIsLeast(a, b[0], le);
      WithoutFirst(a, b);
      SortedIsOne(a[1..], b[1..], le);
      assert a == [a[0]] + a[1..] && b == [b[0]] + b[1..];
    }
  }
}
