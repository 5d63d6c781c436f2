/** Sorting and deduplication of sequences under a total order, as `std::ranges::sort` and
    `std::ranges::unique` perform them, and the order of `std::string` values. */
module Sorting {

  // Any two elements compare, though different ones may compare equal.
  ghost predicate TotalPreorder<T(!new)>(leq: (T, T) -> bool) {
    && (forall x :: leq(x, x))
    && (forall x, y :: leq(x, y) || leq(y, x))
    && (forall x, y, z :: leq(x, y) && leq(y, z) ==> leq(x, z))
  }

  ghost predicate TotalOrder<T(!new)>(leq: (T, T) -> bool) {
    TotalPreorder(leq) && forall x, y :: leq(x, y) && leq(y, x) ==> x == y
  }

  // No two different elements of the sequence compare equal.
  ghost predicate ToldApart<T>(s: seq<T>, leq: (T, T) -> bool) {
    forall x, y :: x in s && y in s && leq(x, y) && leq(y, x) ==> x == y
  }

  ghost predicate Sorted<T>(s: seq<T>, leq: (T, T) -> bool) {
    forall i, j :: 0 <= i < j < |s| ==> leq(s[i], s[j])
  }

  ghost predicate Distinct<T>(s: seq<T>) {
    forall i, j :: 0 <= i < j < |s| ==> s[i] != s[j]
  }

  function Insert<T(!new)>(x: T, s: seq<T>, leq: (T, T) -> bool): (r: seq<T>)
    ensures |r| == |s| + 1
    ensures forall y :: y in r <==> y == x || y in s
  {
    if s == [] then [x]
    else if leq(x, s[0]) then [x] + s
    else
      assert forall y :: y in s <==> y == s[0] || y in s[1..];
      [s[0]] + Insert(x, s[1..], leq)
  }

  function Sort<T(!new)>(s: seq<T>, leq: (T, T) -> bool): (r: seq<T>)
    ensures |r| == |s|
    ensures forall y :: y in r <==> y in s
  {
    if s == [] then []
    else
      assert forall y :: y in s <==> y == s[0] || y in s[1..];
      Insert(s[0], Sort(s[1..], leq), leq)
  }

  lemma {:induction false} InsertIsPermutation<T(!new)>(x: T, s: seq<T>, leq: (T, T) -> bool)
    ensures multiset(Insert(x, s, leq)) == multiset{x} + multiset(s)
    decreases |s|
  {
    if s != [] {
      assert s == [s[0]] + s[1..];
      InsertIsPermutation(x, s[1..], leq);
    }
  }

  lemma {:induction false} InsertKeepsOrder<T(!new)>(x: T, s: seq<T>, leq: (T, T) -> bool)
    requires TotalPreorder(leq) && Sorted(s, leq)
    ensures Sorted(Insert(x, s, leq), leq)
    decreases |s|
  {
    if s != [] {
      if leq(x, s[0]) {
        assert forall i :: 0 <= i < |s| ==> leq(s[0], s[i]);
      } else {
        InsertKeepsOrder(x, s[1..], leq);
        forall y | y in Insert(x, s[1..], leq) ensures leq(s[0], y) {
          if y != x {
            var i :| 0 <= i < |s[1..]| && s[1..][i] == y;
            assert y == s[i + 1];
          }
        }
      }
    }
  }

  lemma {:induction false} SortSorts<T(!new)>(s: seq<T>, leq: (T, T) -> bool)
    requires TotalPreorder(leq)
    ensures Sorted(Sort(s, leq), leq) && multiset(Sort(s, leq)) == multiset(s)
    decreases |s|
  {
    if s != [] {
      assert s == [s[0]] + s[1..];
      SortSorts(s[1..], leq);
      InsertKeepsOrder(s[0], Sort(s[1..], leq), leq);
      InsertIsPermutation(s[0], Sort(s[1..], leq), leq);
    }
  }

  lemma {:induction false} InsertKeepsDistinct<T(!new)>(x: T, s: seq<T>, leq: (T, T) -> bool)
    requires Distinct(s) && x !in s
    ensures Distinct(Insert(x, s, leq))
    decreases |s|
  {
    if s != [] {
      assert s[0] !in s[1..];
      InsertKeepsDistinct(x, s[1..], leq);
    }
  }

  lemma {:induction false} SortKeepsDistinct<T(!new)>(s: seq<T>, leq: (T, T) -> bool)
    requires Distinct(s)
    ensures Distinct(Sort(s, leq))
    decreases |s|
  {
    if s != [] {
      SortKeepsDistinct(s[1..], leq);
      InsertKeepsDistinct(s[0], Sort(s[1..], leq), leq);
    }
  }

  // Removes an element equal to its predecessor.
  function Unique<T(==, !new)>(s: seq<T>): (r: seq<T>)
    ensures forall x :: x in r <==> x in s
    ensures s != [] ==> r != [] && r[0] == s[0]
  {
    if |s| <= 1 then s
    else
      assert s == [s[0]] + s[1..];
      if s[0] == s[1] then Unique(s[1..]) else [s[0]] + Unique(s[1..])
  }

  // After sorting, removing repeated neighbours removes every repetition.
  lemma {:induction false} UniqueOfSorted<T(!new)>(s: seq<T>, leq: (T, T) -> bool)
    requires TotalOrder(leq) && Sorted(s, leq)
    ensures Sorted(Unique(s), leq) && Distinct(Unique(s))
    decreases |s|
  {
    if |s| > 1 {
      UniqueOfSorted(s[1..], leq);
      if s[0] != s[1] {
        forall x | x in Unique(s[1..]) ensures leq(s[0], x) && x != s[0] {
          var i :| 0 <= i < |s[1..]| && s[1..][i] == x;
          assert leq(s[1], x) && leq(s[0], x);
        }
      }
    }
  }

  // A set whose elements the order tells apart has only one sorted enumeration.
  lemma {:induction false} SortedEnumerationIsUnique<T(!new)>(a: seq<T>, b: seq<T>, leq: (T, T) -> bool)
    requires TotalPreorder(leq) && ToldApart(a, leq)
    requires Sorted(a, leq) && Distinct(a) && Sorted(b, leq) && Distinct(b)
    requires forall x :: x in a <==> x in b
    ensures a == b
    decreases |a|
  {
    assert b != [] ==> b[0] in a;
    if a != [] {
      assert a[0] in b && b != [];
      assert b[0] in a;
      var i :| 0 <= i < |b| && b[i] == a[0];
      var j :| 0 <= j < |a| && a[j] == b[0];
      assert leq(b[0], a[0]) && leq(a[0], b[0]);
      forall x ensures x in a[1..] <==> x in b[1..] {
        assert x in a <==> x == a[0] || x in a[1..];
        assert x in b <==> x == b[0] || x in b[1..];
        if x in a[1..] { var k :| 1 <= k < |a| && a[k] == x; }
        if x in b[1..] { var k :| 1 <= k < |b| && b[k] == x; }
      }
      SortedEnumerationIsUnique(a[1..], b[1..], leq);
      assert a[0] == b[0] && a == [a[0]] + a[1..] && b == [b[0]] + b[1..];
    }
  }

  // Lexicographic order of byte strings.
  predicate StringLeq(a: string, b: string) {
    a == [] || (b != [] && (a[0] < b[0] || (a[0] == b[0] && StringLeq(a[1..], b[1..]))))
  }

  lemma {:induction false} StringLeqLaws(a: string, b: string, c: string)
    ensures StringLeq(a, a)
    ensures StringLeq(a, b) || StringLeq(b, a)
    ensures StringLeq(a, b) && StringLeq(b, a) ==> a == b
    ensures StringLeq(a, b) && StringLeq(b, c) ==> StringLeq(a, c)
    decreases |a|
  {
    if a != [] {
      StringLeqLaws(a[1..], if b == [] then [] else b[1..], if c == [] then [] else c[1..]);
      if b != [] && a[0] == b[0] && a[1..] == b[1..] {
        assert a == [a[0]] + a[1..] == b;
      }
    }
  }

  // The strings agree before `i`, and there the first one ends or has the smaller character.
  ghost predicate ComesFirst(a: string, b: string, i: int) {
    && 0 <= i <= |a| && i <= |b| && (forall k :: 0 <= k < i ==> a[k] == b[k])
    && (i == |a| || (i < |b| && a[i] < b[i]))
  }

  lemma {:induction false} StringLeqExactly(a: string, b: string)
    ensures StringLeq(a, b) <==> exists i :: ComesFirst(a, b, i)
    decreases |a|
  {
    if a == [] {
      assert ComesFirst(a, b, 0);
    } else if b != [] {
      if a[0] < b[0] {
        assert ComesFirst(a, b, 0);
      } else if a[0] == b[0] {
        StringLeqExactly(a[1..], b[1..]);
        if StringLeq(a, b) {
          var i :| ComesFirst(a[1..], b[1..], i);
          assert forall k :: 0 < k < i + 1 ==> a[k] == a[1..][k - 1] && b[k] == b[1..][k - 1];
          assert ComesFirst(a, b, i + 1);
        }
        if i :| ComesFirst(a, b, i) {
          assert ComesFirst(a[1..], b[1..], i - 1);
        }
      }
    }
  }

  lemma StringOrderIsTotal()
    ensures TotalOrder(StringLeq)
  {
    forall a, b, c
      ensures StringLeq(a, a) && (StringLeq(a, b) || StringLeq(b, a))
      ensures StringLeq(a, b) && StringLeq(b, a) ==> a == b
      ensures StringLeq(a, b) && StringLeq(b, c) ==> StringLeq(a, c)
    {
      StringLeqLaws(a, b, c);
    }
  }
}
