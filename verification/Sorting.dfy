/** sorted(): a permutation in ascending order, for any total order; and the order of strings. */
module Sorting {

  ghost predicate TotalOrder<T(!new)>(leq: (T, T) -> bool) {
    && (forall x, y :: leq(x, y) || leq(y, x))
    && (forall x, y, z :: leq(x, y) && leq(y, z) ==> leq(x, z))
  }

  ghost predicate Ascending<T>(s: seq<T>, leq: (T, T) -> bool) {
    forall i, j | 0 <= i < j < |s| :: leq(s[i], s[j])
  }

  function Insert<T>(x: T, s: seq<T>, leq: (T, T) -> bool): (r: seq<T>)
    ensures multiset(r) == multiset{x} + multiset(s)
  {
    if s == [] then [x]
    else if leq(x, s[0]) then [x] + s
    else
      assert s == [s[0]] + s[1..];
      [s[0]] + Insert(x, s[1..], leq)
  }

  function Sort<T>(s: seq<T>, leq: (T, T) -> bool): (r: seq<T>)
    ensures multiset(r) == multiset(s)
  {
    if s == [] then []
    else
      assert s == [s[0]] + s[1..];
      Insert(s[0], Sort(s[1..], leq), leq)
  }

  lemma {:induction false} InsertKeepsOrder<T(!new)>(x: T, s: seq<T>, leq: (T, T) -> bool)
    requires TotalOrder(leq) && Ascending(s, leq)
    ensures Ascending(Insert(x, s, leq), leq)
  {
    if s != [] && !leq(x, s[0]) {
      InsertKeepsOrder(x, s[1..], leq);
      var r := Insert(x, s[1..], leq);
      forall j | 0 <= j < |r| ensures leq(s[0], r[j]) {
        assert r[j] in multiset(r);
        assert r[j] == x || r[j] in s[1..];
      }
    }
  }

  lemma {:induction false} SortIsAscending<T(!new)>(s: seq<T>, leq: (T, T) -> bool)
    requires TotalOrder(leq)
    ensures Ascending(Sort(s, leq), leq)
  {
    if s != [] {
      SortIsAscending(s[1..], leq);
      InsertKeepsOrder(s[0], Sort(s[1..], leq), leq);
    }
  }

  lemma SameMembers<T>(s: seq<T>, leq: (T, T) -> bool)
    ensures forall x :: x in Sort(s, leq) <==> x in s
    ensures |Sort(s, leq)| == |s|
  {
    forall x ensures x in Sort(s, leq) <==> x in s {
      assert x in multiset(Sort(s, leq)) <==> x in multiset(s);
    }
    assert |multiset(Sort(s, leq))| == |multiset(s)|;
  }

  ghost predicate Distinct<T(!new)>(s: seq<T>) {
    forall i, j | 0 <= i < j < |s| :: s[i] != s[j]
  }

  lemma NewFirst<T(!new)>(x: T, s: seq<T>)
    ensures Distinct([x] + s) <==> Distinct(s) && x !in s
  {
    var r := [x] + s;
    if Distinct(r) {
      forall i, j | 0 <= i < j < |s| ensures s[i] != s[j] {
        assert r[i + 1] != r[j + 1];
      }
      forall i | 0 <= i < |s| ensures s[i] != x {
        assert r[0] != r[i + 1];
      }
    }
  }

  lemma {:induction false} InsertKeepsDistinct<T(!new)>(x: T, s: seq<T>, leq: (T, T) -> bool)
    requires Distinct(s) && x !in s
    ensures Distinct(Insert(x, s, leq))
  {
    NewFirst(x, s);
    if s == [] {
      assert [x] + s == [x];
    } else if !leq(x, s[0]) {
      assert s == [s[0]] + s[1..];
      NewFirst(s[0], s[1..]);
      InsertKeepsDistinct(x, s[1..], leq);
      var r := Insert(x, s[1..], leq);
      assert s[0] !in multiset(r);
      NewFirst(s[0], r);
    }
  }

  lemma {:induction false} SortKeepsDistinct<T(!new)>(s: seq<T>, leq: (T, T) -> bool)
    requires Distinct(s)
    ensures Distinct(Sort(s, leq))
  {
    if s != [] {
      assert s == [s[0]] + s[1..];
      NewFirst(s[0], s[1..]);
      SortKeepsDistinct(s[1..], leq);
      SameMembers(s[1..], leq);
      InsertKeepsDistinct(s[0], Sort(s[1..], leq), leq);
    }
  }

  /** The order of Python strings: by code point, a proper prefix first. */
  predicate TextLeq(a: string, b: string) {
    a == "" || (b != "" && (a[0] < b[0] || (a[0] == b[0] && TextLeq(a[1..], b[1..]))))
  }

  lemma {:induction false} TextLeqTotal(a: string, b: string)
    ensures TextLeq(a, b) || TextLeq(b, a)
    ensures TextLeq(a, b) && TextLeq(b, a) ==> a == b
  {
    if a != "" && b != "" {
      TextLeqTotal(a[1..], b[1..]);
      assert a == [a[0]] + a[1..] && b == [b[0]] + b[1..];
    }
  }

  lemma {:induction false} TextLeqTransitive(a: string, b: string, c: string)
    requires TextLeq(a, b) && TextLeq(b, c)
    ensures TextLeq(a, c)
  {
    if a != "" && a[0] == b[0] && b[0] == c[0] {
      TextLeqTransitive(a[1..], b[1..], c[1..]);
    }
  }

  lemma TextOrder()
    ensures TotalOrder(TextLeq)
  {
    forall x, y ensures TextLeq(x, y) || TextLeq(y, x) {
      TextLeqTotal(x, y);
    }
    forall x, y, z | TextLeq(x, y) && TextLeq(y, z) ensures TextLeq(x, z) {
      TextLeqTransitive(x, y, z);
    }
  }
}
