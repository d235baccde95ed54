/**
  Orders and ordered enumeration.

  `std::map` and `std::set` visit their keys in increasing order of the key
  comparison, `std::less`. For integers (timestamps) that is `<=`; for
  `std::string` it is the lexicographic order of the characters, a proper
  prefix coming first. `Enumerate` produces that visiting order for a finite
  set, and `SortedUnique` shows that the order is determined by the set.
*/
module Ordering {

  ghost predicate TotalOrder<T(!new)>(le: (T, T) -> bool) {
    && (forall a :: le(a, a))
    && (forall a, b :: le(a, b) && le(b, a) ==> a == b)
    && (forall a, b, c :: le(a, b) && le(b, c) ==> le(a, c))
    && (forall a, b :: le(a, b) || le(b, a))
  }

  /** Every element strictly before every later one: sorted and without repetitions. */
  ghost predicate StrictlySorted<T>(s: seq<T>, le: (T, T) -> bool) {
    forall i, j :: 0 <= i < j < |s| ==> le(s[i], s[j]) && s[i] != s[j]
  }

  /** The comparison of `std::string`. */
  predicate LexLe(a: string, b: string)
    ensures a <= b ==> LexLe(a, b)
  {
    if a == [] then true
    else if b == [] then false
    else if a[0] != b[0] then a[0] < b[0]
    else LexLe(a[1..], b[1..])
  }

  lemma {:induction false} LexLeTotal(a: string, b: string)
    ensures LexLe(a, b) || LexLe(b, a)
  {
    if a != [] && b != [] && a[0] == b[0] {
      LexLeTotal(a[1..], b[1..]);
    }
  }

  lemma {:induction false} LexLeAntisymmetric(a: string, b: string)
    requires LexLe(a, b) && LexLe(b, a)
    ensures a == b
  {
    if a != [] && b != [] {
      LexLeAntisymmetric(a[1..], b[1..]);
      assert a == [a[0]] + a[1..];
      assert b == [b[0]] + b[1..];
    }
  }

  lemma {:induction false} LexLeTransitive(a: string, b: string, c: string)
    requires LexLe(a, b) && LexLe(b, c)
    ensures LexLe(a, c)
  {
    if a != [] && b != [] && c != [] && a[0] == b[0] && b[0] == c[0] {
      LexLeTransitive(a[1..], b[1..], c[1..]);
    }
  }

  lemma LexLeIsTotalOrder()
    ensures TotalOrder(LexLe)
  {
    forall a: string, b: string | LexLe(a, b) && LexLe(b, a) ensures a == b {
      LexLeAntisymmetric(a, b);
    }
    forall a: string, b: string, c: string | LexLe(a, b) && LexLe(b, c) ensures LexLe(a, c) {
      LexLeTransitive(a, b, c);
    }
    forall a: string, b: string ensures LexLe(a, b) || LexLe(b, a) {
      LexLeTotal(a, b);
    }
    forall a: string ensures LexLe(a, a) {
      LexLeTotal(a, a);
    }
  }

  /** The comparison of timestamps. */
  predicate IntLe(a: int, b: int) {
    a <= b
  }

  lemma IntLeIsTotalOrder()
    ensures TotalOrder(IntLe)
  {
  }

  /** A non-empty finite set has a least element. */
  lemma {:induction false} LeastElement<T(!new)>(s: set<T>, le: (T, T) -> bool) returns (m: T)
    requires TotalOrder(le) && s != {}
    ensures m in s && forall y :: y in s ==> le(m, y)
  {
    var x :| x in s;
    if s == {x} {
      m := x;
    } else {
      var m' := LeastElement(s - {x}, le);
      if le(m', x) {
        m := m';
      } else {
        m := x;
        forall y | y in s ensures le(x, y) {
          if y != x {
            assert le(m', y);
          }
        }
      }
    }
  }

  /** `r` lists the elements of `s` once each, in increasing order. */
  ghost predicate EnumerationOf<T(!new)>(r: seq<T>, s: set<T>, le: (T, T) -> bool) {
    && |r| == |s|
    && (forall x :: x in s <==> x in r)
    && StrictlySorted(r, le)
  }

  lemma LeastExists<T(!new)>(s: set<T>, le: (T, T) -> bool)
    requires TotalOrder(le) && s != {}
    ensures exists m :: m in s && forall y :: y in s ==> le(m, y)
  {
    var m := LeastElement(s, le);
  }

  lemma ConsEnumeration<T(!new)>(m: T, rest: seq<T>, s: set<T>, le: (T, T) -> bool)
    requires m in s && forall y :: y in s ==> le(m, y)
    requires EnumerationOf(rest, s - {m}, le)
    ensures EnumerationOf([m] + rest, s, le)
  {
    var r := [m] + rest;
    forall i, j | 0 <= i < j < |r| ensures le(r[i], r[j]) && r[i] != r[j] {
      assert r[j] == rest[j - 1];
      if i > 0 {
        assert r[i] == rest[i - 1];
      } else {
        assert rest[j - 1] in rest;
      }
    }
    forall x ensures x in s <==> x in r {
      if x in s && x != m {
        assert x in rest;
      }
    }
  }

  /** The order in which a sorted container holding the elements of `s`
      visits them: the least element first, then the rest in order. */
  ghost function SortedSeq<T(!new)>(s: set<T>, le: (T, T) -> bool): (r: seq<T>)
    requires TotalOrder(le)
    ensures EnumerationOf(r, s, le)
    decreases |s|
  {
    if s == {} then []
    else
      LeastExists(s, le);
      var m :| m in s && forall y :: y in s ==> le(m, y);
      var rest := SortedSeq(s - {m}, le);
      ConsEnumeration(m, rest, s, le);
      [m] + rest
  }

  /** The elements of `s` in the order a sorted container visits them. */
  method Enumerate<T(==,!new)>(s: set<T>, le: (T, T) -> bool) returns (r: seq<T>)
    requires TotalOrder(le)
    ensures r == SortedSeq(s, le)
  {
    r := [];
    var rest := s;
    while rest != {}
      invariant rest <= s
      invariant |r| + |rest| == |s|
      invariant forall x :: x in s <==> x in r || x in rest
      invariant forall x :: x in r ==> x !in rest
      invariant StrictlySorted(r, le)
      invariant forall i, y :: 0 <= i < |r| && y in rest ==> le(r[i], y)
      decreases |rest|
    {
      var least := LeastElement(rest, le);
      var m :| m in rest && forall y :: y in rest ==> le(m, y);
      r := r + [m];
      rest := rest - {m};
    }
    SortedUnique(r, SortedSeq(s, le), le);
  }

  /** Two strictly sorted sequences with the same elements are equal. */
  lemma {:induction false} SortedUnique<T(!new)>(r1: seq<T>, r2: seq<T>, le: (T, T) -> bool)
    requires TotalOrder(le)
    requires StrictlySorted(r1, le) && StrictlySorted(r2, le)
    requires forall x :: x in r1 <==> x in r2
    ensures r1 == r2
  {
    if r1 == [] {
      assert forall k :: 0 <= k < |r2| ==> r2[k] in r1;
    } else {
      assert r1[0] in r1;
      assert r2 != [] && r2[0] in r2;
      var i :| 0 <= i < |r1| && r1[i] == r2[0];
      var j :| 0 <= j < |r2| && r2[j] == r1[0];
      assert r1[0] == r2[0];
      forall x ensures x in r1[1..] <==> x in r2[1..] {
        if x in r1[1..] {
          var k :| 0 <= k < |r1| - 1 && r1[1..][k] == x;
          assert x in r2 && x != r2[0];
          var k2 :| 0 <= k2 < |r2| && r2[k2] == x;
          assert r2[1..][k2 - 1] == x;
        }
        if x in r2[1..] {
          var k :| 0 <= k < |r2| - 1 && r2[1..][k] == x;
          assert x in r1 && x != r1[0];
          var k1 :| 0 <= k1 < |r1| && r1[k1] == x;
          assert r1[1..][k1 - 1] == x;
        }
      }
      SortedUnique(r1[1..], r2[1..], le);
      assert r1 == [r1[0]] + r1[1..];
      assert r2 == [r2[0]] + r2[1..];
    }
  }
}
