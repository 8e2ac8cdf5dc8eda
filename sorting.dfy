/** Ordering for the catalogue queries: a stable insertion sort under a total
    preorder (the `OrderBy` of a query), and the facts about permutations the
    queries need to keep keys distinct. Ties keep their table order. */
module Sorting {
  import opened Common

  /** `le` is total and transitive, so it arranges any sequence. */
  ghost predicate TotalPreorder<T(!new)>(le: (T, T) -> bool) {
    && (forall a, b :: le(a, b) || le(b, a))
    && (forall a, b, c :: le(a, b) && le(b, c) ==> le(a, c))
  }

  ghost predicate SortedBy<T>(s: seq<T>, le: (T, T) -> bool) {
    forall i, j :: 0 <= i < j < |s| ==> le(s[i], s[j])
  }

  /** `x` placed before the first element it does not follow. */
  function Insert<T>(x: T, s: seq<T>, le: (T, T) -> bool): (r: seq<T>)
    ensures |r| == |s| + 1
    ensures multiset(r) == multiset(s) + multiset{x}
  {
    if |s| == 0 then [x]
    else if le(x, s[0]) then [x] + s
    else
      assert s == [s[0]] + s[1..];
      [s[0]] + Insert(x, s[1..], le)
  }

  /** Inserting into a sorted sequence keeps it sorted. */
  lemma {:induction false} InsertSorted<T(!new)>(x: T, s: seq<T>, le: (T, T) -> bool)
    requires TotalPreorder(le) && SortedBy(s, le)
    ensures SortedBy(Insert(x, s, le), le)
  {
    if |s| == 0 {
    } else if le(x, s[0]) {
      forall j | 0 <= j < |s| ensures le(x, s[j]) {
        if j > 0 {
          assert le(s[0], s[j]);
        }
      }
      assert Insert(x, s, le) == [x] + s;
    } else {
      var rest := Insert(x, s[1..], le);
      assert s == [s[0]] + s[1..];
      assert SortedBy(s[1..], le);
      InsertSorted(x, s[1..], le);
      forall j | 0 <= j < |rest| ensures le(s[0], rest[j]) {
        assert rest[j] in multiset(rest);
        if rest[j] != x {
          assert rest[j] in multiset(s[1..]);
          var i :| 0 <= i < |s[1..]| && s[1..][i] == rest[j];
          assert s[i + 1] == rest[j];
        }
      }
      assert Insert(x, s, le) == [s[0]] + rest;
    }
  }

  /** `s` in ascending order under `le`, equal elements in their original order
      (ascending once `SortBySorted` applies). */
  function SortBy<T>(s: seq<T>, le: (T, T) -> bool): (r: seq<T>)
    ensures |r| == |s|
    ensures multiset(r) == multiset(s)
  {
    if |s| == 0 then []
    else
      assert s == [s[0]] + s[1..];
      Insert(s[0], SortBy(s[1..], le), le)
  }

  /** Under a total preorder, `SortBy` sorts. */
  lemma {:induction false} SortBySorted<T(!new)>(s: seq<T>, le: (T, T) -> bool)
    requires TotalPreorder(le)
    ensures SortedBy(SortBy(s, le), le)
  {
    if |s| > 0 {
      SortBySorted(s[1..], le);
      InsertSorted(s[0], SortBy(s[1..], le), le);
    }
  }

  /** Sorting keeps exactly the elements it was given. */
  lemma SortByMembers<T>(s: seq<T>, le: (T, T) -> bool, x: T)
    ensures x in SortBy(s, le) <==> x in s
  {
    var r := SortBy(s, le);
    assert x in r <==> x in multiset(r);
    assert x in s <==> x in multiset(s);
  }

  /** The head of a sorted sequence comes no later than any of its elements. */
  lemma SortedHeadIsLeast<T(!new)>(s: seq<T>, le: (T, T) -> bool, x: T)
    requires TotalPreorder(le) && SortedBy(s, le)
    requires x in s
    ensures le(s[0], x)
  {
    var j :| 0 <= j < |s| && s[j] == x;
    if j == 0 {
      assert le(x, x) || le(x, x);
    }
  }

  /** No two elements share a key. */
  ghost predicate UniqueBy<T>(s: seq<T>, key: T -> int) {
    forall i, j :: 0 <= i < j < |s| ==> key(s[i]) != key(s[j])
  }

  /** An element counted twice sits at two positions. */
  lemma {:induction false} TwiceAtTwoPlaces<T>(s: seq<T>, x: T)
    requires multiset(s)[x] >= 2
    ensures exists a, b :: 0 <= a < b < |s| && s[a] == x && s[b] == x
  {
    assert s == [s[0]] + s[1..];
    if s[0] == x {
      assert x in multiset(s[1..]);
      var b :| 0 <= b < |s[1..]| && s[1..][b] == x;
      assert s[0] == x && s[b + 1] == x;
    } else {
      TwiceAtTwoPlaces(s[1..], x);
      var a, b :| 0 <= a < b < |s[1..]| && s[1..][a] == x && s[1..][b] == x;
      assert s[a + 1] == x && s[b + 1] == x;
    }
  }

  /** Taking some of the elements of a sequence with distinct keys, in any
      order, again gives distinct keys. */
  lemma UniqueBySubMultiset<T>(r: seq<T>, s: seq<T>, key: T -> int)
    requires multiset(r) <= multiset(s) && UniqueBy(s, key)
    ensures UniqueBy(r, key)
  {
    forall i, j | 0 <= i < j < |r|
      ensures key(r[i]) != key(r[j])
    {
      if r[i] == r[j] {
        assert r == r[..j] + r[j..];
        assert r[i] in multiset(r[..j]) by {
          assert r[..j][i] == r[i];
        }
        assert r[j] in multiset(r[j..]) by {
          assert r[j..][0] == r[j];
        }
        assert multiset(r)[r[i]] >= 2;
        TwiceAtTwoPlaces(s, r[i]);
      } else {
        assert r[i] in multiset(s) && r[j] in multiset(s);
        var a :| 0 <= a < |s| && s[a] == r[i];
        var b :| 0 <= b < |s| && s[b] == r[j];
        assert a != b;
        assert key(s[a]) != key(s[b]) by {
          if a > b {
            assert key(s[b]) != key(s[a]);
          }
        }
      }
    }
  }

  /** What a prefix of a sorted sequence keeps comes no later than what it leaves out. */
  lemma SortedPrefix<T>(sorted: seq<T>, le: (T, T) -> bool, n: int)
    requires SortedBy(sorted, le)
    ensures multiset(Take(sorted, n)) <= multiset(sorted)
    ensures forall x :: x in Take(sorted, n) ==> x in sorted
    ensures forall x, y :: x in Take(sorted, n) && y in sorted && y !in Take(sorted, n) ==> le(x, y)
  {
    var r := Take(sorted, n);
    assert sorted == r + sorted[|r|..];
    assert multiset(sorted) == multiset(r) + multiset(sorted[|r|..]);
    forall x, y | x in r && y in sorted && y !in r
      ensures le(x, y)
    {
      var i :| 0 <= i < |r| && r[i] == x;
      var j :| 0 <= j < |sorted| && sorted[j] == y;
      assert sorted[i] == x;
    }
  }

  /** A catalogue query `Where(q).OrderBy(le).Take(n)`: the first `n`
      elements satisfying `q`, in order. What it guarantees beyond its
      length is stated by `TopFacts`. */
  function Top<T>(s: seq<T>, q: T -> bool, le: (T, T) -> bool, n: int): (r: seq<T>)
    ensures n >= 0 ==> |r| <= n
    ensures |r| <= |s|
  {
    Take(SortBy(Filter(s, q), le), n)
  }

  /** What the query keeps is taken from `s` and satisfies `q`; when it
      keeps fewer than `n` it keeps all. */
  lemma TopMembers<T>(s: seq<T>, q: T -> bool, le: (T, T) -> bool, n: int)
    ensures multiset(Top(s, q, le, n)) <= multiset(s)
    ensures forall x :: x in Top(s, q, le, n) ==> x in s && q(x)
    ensures |Top(s, q, le, n)| < n ==> forall x :: x in s && q(x) ==> x in Top(s, q, le, n)
  {
    var f := Filter(s, q);
    var sorted := SortBy(f, le);
    var r := Take(sorted, n);
    assert sorted == r + sorted[|r|..];
    assert multiset(sorted) == multiset(r) + multiset(sorted[|r|..]);
    forall x | x in r
      ensures x in s && q(x)
    {
      assert x in sorted;
      SortByMembers(f, le, x);
      var j :| 0 <= j < |f| && f[j] == x;
    }
    if |r| < n {
      assert r == sorted;
      forall x | x in s && q(x)
        ensures x in r
      {
        SortByMembers(f, le, x);
      }
    }
  }

  /** Under a total preorder the query answers in order, and what it keeps
      comes no later than anything satisfying `q` that it leaves out. */
  lemma TopOrder<T(!new)>(s: seq<T>, q: T -> bool, le: (T, T) -> bool, n: int)
    requires TotalPreorder(le)
    ensures SortedBy(Top(s, q, le, n), le)
    ensures forall x, y :: x in Top(s, q, le, n) && y in s && q(y) && y !in Top(s, q, le, n) ==> le(x, y)
  {
    var sorted := SortBy(Filter(s, q), le);
    SortBySorted(Filter(s, q), le);
    SortedPrefix(sorted, le, n);
    assert forall x :: x in sorted <==> x in Filter(s, q) by {
      forall x ensures x in sorted <==> x in Filter(s, q) {
        SortByMembers(Filter(s, q), le, x);
      }
    }
    var r := Take(sorted, n);
    assert SortedBy(r, le) by {
      assert forall i, j :: 0 <= i < j < |r| ==> r[i] == sorted[i] && r[j] == sorted[j];
    }
  }
}
