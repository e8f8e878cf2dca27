/** Go's sort.Slice and sort.Strings, on elements that are pairwise ordered: there is then only
    one sorted arrangement, so which one the library finds needs no further description. */
module Sorting {

  ghost predicate Transitive<T(!new)>(less: (T, T) -> bool)
  {
    forall a, b, c {:trigger less(a, b), less(b, c)} :: less(a, b) && less(b, c) ==> less(a, c)
  }

  ghost predicate Asymmetric<T(!new)>(less: (T, T) -> bool)
  {
    forall a, b :: less(a, b) ==> !less(b, a)
  }

  /** Any two entries are ordered one way or the other. */
  predicate PairwiseOrdered<T>(less: (T, T) -> bool, s: seq<T>)
  {
    forall i, j :: 0 <= i < j < |s| ==> less(s[i], s[j]) || less(s[j], s[i])
  }

  predicate Ascending<T>(less: (T, T) -> bool, s: seq<T>)
  {
    forall i, j :: 0 <= i < j < |s| ==> less(s[i], s[j])
  }

  function Insert<T>(less: (T, T) -> bool, s: seq<T>, x: T): (r: seq<T>)
    ensures multiset(r) == multiset(s) + multiset{x}
  {
    if s == [] then [x]
    else if less(x, s[0]) then [x] + s
    else
      assert s == [s[0]] + s[1..];
      [s[0]] + Insert(less, s[1..], x)
  }

  function Sort<T>(less: (T, T) -> bool, s: seq<T>): (r: seq<T>)
    ensures multiset(r) == multiset(s)
  {
    if s == [] then []
    else
      assert s == [s[0]] + s[1..];
      Insert(less, Sort(less, s[1..]), s[0])
  }

  lemma SameElements<T>(a: seq<T>, b: seq<T>)
    requires multiset(a) == multiset(b)
    ensures forall x :: x in a <==> x in b
  {
    forall x
      ensures x in a <==> x in b
    {
      assert x in a <==> x in multiset(a);
      assert x in b <==> x in multiset(b);
    }
  }

  lemma {:induction false} InsertAscends<T(!new)>(less: (T, T) -> bool, s: seq<T>, x: T)
    requires Transitive(less) && Ascending(less, s)
    requires forall i :: 0 <= i < |s| ==> less(x, s[i]) || less(s[i], x)
    ensures Ascending(less, Insert(less, s, x))
    decreases |s|
  {
    if s != [] && !less(x, s[0]) {
      InsertAscends(less, s[1..], x);
      var rest := Insert(less, s[1..], x);
      forall i | 0 <= i < |rest|
        ensures less(s[0], rest[i])
      {
        assert rest[i] in multiset(rest);
        assert rest[i] in s[1..] || rest[i] == x;
      }
    }
  }

  lemma {:induction false} SortAscends<T(!new)>(less: (T, T) -> bool, s: seq<T>)
    requires Transitive(less) && PairwiseOrdered(less, s)
    ensures Ascending(less, Sort(less, s))
    decreases |s|
  {
    if s != [] {
      var rest := Sort(less, s[1..]);
      SortAscends(less, s[1..]);
      SameElements(rest, s[1..]);
      forall i | 0 <= i < |rest|
        ensures less(s[0], rest[i]) || less(rest[i], s[0])
      {
        assert rest[i] in s[1..];
        var j :| 0 <= j < |s[1..]| && s[1..][j] == rest[i];
        assert s[j + 1] == rest[i];
      }
      InsertAscends(less, rest, s[0]);
    }
  }

  /** Two ascending arrangements of the same elements are the same. */
  lemma {:induction false} AscendingIsUnique<T(!new)>(less: (T, T) -> bool, a: seq<T>, b: seq<T>)
    requires Asymmetric(less) && Ascending(less, a) && Ascending(less, b)
    requires forall x :: x in a <==> x in b
    ensures a == b
    decreases |a|
  {
    assert b != [] ==> b[0] in b;
    if a != [] {
      assert a[0] in a;
      FirstsAgree(less, a, b);
      TailsAgree(less, a, b);
      AscendingIsUnique(less, a[1..], b[1..]);
      assert a == [a[0]] + a[1..] && b == [b[0]] + b[1..];
    }
  }

  lemma FirstsAgree<T(!new)>(less: (T, T) -> bool, a: seq<T>, b: seq<T>)
    requires Asymmetric(less) && Ascending(less, a) && Ascending(less, b) && a != [] && b != []
    requires a[0] in b && b[0] in a
    ensures a[0] == b[0]
  {
    var i :| 0 <= i < |b| && b[i] == a[0];
    var j :| 0 <= j < |a| && a[j] == b[0];
    assert i > 0 ==> less(b[0], a[0]);
    assert j > 0 ==> less(a[0], b[0]);
  }

  lemma TailsAgree<T(!new)>(less: (T, T) -> bool, a: seq<T>, b: seq<T>)
    requires Asymmetric(less) && Ascending(less, a) && Ascending(less, b) && a != [] && b != [] && a[0] == b[0]
    requires forall x :: x in a <==> x in b
    ensures forall x :: x in a[1..] <==> x in b[1..]
  {
    TailOf(less, a);
    TailOf(less, b);
  }

  lemma TailOf<T(!new)>(less: (T, T) -> bool, a: seq<T>)
    requires Asymmetric(less) && Ascending(less, a) && a != []
    ensures forall x :: x in a[1..] <==> x in a && x != a[0]
  {
    assert forall i :: 0 < i < |a| ==> less(a[0], a[i]) && a[1..][i - 1] == a[i];
    assert !less(a[0], a[0]);
  }
}
