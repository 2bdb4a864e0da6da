/**
 * `sort_values(ascending=False)` on a table of aggregates, as a descending insertion sort by a rank,
 * and sums over such tables. pandas' default sort is not stable, so only what every correct sort
 * shares is promised: the result is ordered by rank and is a permutation of its input.
 */
module Sorting {

  predicate Descending<T>(s: seq<T>, rank: T -> real)
  {
    forall i, j :: 0 <= i < j < |s| ==> rank(s[i]) >= rank(s[j])
  }

  /** No two elements share a key. */
  predicate DistinctBy<T, U(==)>(s: seq<T>, key: T -> U)
  {
    forall i, j :: 0 <= i < j < |s| ==> key(s[i]) != key(s[j])
  }

  function Insert<T>(x: T, s: seq<T>, rank: T -> real): seq<T>
  {
    if s == [] then [x]
    else if rank(x) >= rank(s[0]) then [x] + s
    else [s[0]] + Insert(x, s[1..], rank)
  }

  function SortDesc<T>(s: seq<T>, rank: T -> real): seq<T>
  {
    if s == [] then [] else Insert(s[0], SortDesc(s[1..], rank), rank)
  }

  lemma {:induction false} InsertPermutes<T>(x: T, s: seq<T>, rank: T -> real)
    ensures multiset(Insert(x, s, rank)) == multiset(s) + multiset{x}
  {
    if s != [] && rank(x) < rank(s[0]) {
      InsertPermutes(x, s[1..], rank);
      assert s == [s[0]] + s[1..];
    }
  }

  /** What an insertion holds is the new element or one that was there. */
  lemma InsertMember<T>(x: T, s: seq<T>, rank: T -> real, t: T)
    requires t in Insert(x, s, rank)
    ensures t == x || t in s
  {
    InsertPermutes(x, s, rank);
    assert t in multiset(Insert(x, s, rank));
  }

  lemma {:induction false} InsertDescending<T>(x: T, s: seq<T>, rank: T -> real)
    requires Descending(s, rank)
    ensures Descending(Insert(x, s, rank), rank)
  {
    if s != [] && rank(x) < rank(s[0]) {
      var tail := s[1..];
      InsertDescending(x, tail, rank);
      var r := Insert(x, tail, rank);
      forall j | 0 <= j < |r|
        ensures rank(s[0]) >= rank(r[j])
      {
        InsertMember(x, tail, rank, r[j]);
        if r[j] != x {
          var k :| 0 <= k < |tail| && tail[k] == r[j];
          assert s[k + 1] == r[j];
        }
      }
      assert Insert(x, s, rank) == [s[0]] + r;
    }
  }

  /** The sort orders by rank, non-increasing, and only permutes its input. */
  lemma {:induction false} SortDescCorrect<T>(s: seq<T>, rank: T -> real)
    ensures Descending(SortDesc(s, rank), rank)
    ensures multiset(SortDesc(s, rank)) == multiset(s)
  {
    if s != [] {
      SortDescCorrect(s[1..], rank);
      InsertDescending(s[0], SortDesc(s[1..], rank), rank);
      InsertPermutes(s[0], SortDesc(s[1..], rank), rank);
      assert s == [s[0]] + s[1..];
    }
  }

  /** A permutation keeps the elements: the sorted table holds exactly the rows it was given. */
  lemma SortDescMembers<T>(s: seq<T>, rank: T -> real)
    ensures |SortDesc(s, rank)| == |s|
    ensures forall t :: t in SortDesc(s, rank) <==> t in s
  {
    SortDescCorrect(s, rank);
    var r := SortDesc(s, rank);
    assert |r| == |multiset(r)| == |multiset(s)| == |s|;
    forall t
      ensures t in r <==> t in s
    {
      assert t in r <==> t in multiset(r);
      assert t in s <==> t in multiset(s);
    }
  }

  lemma SortDescKeeps<T>(s: seq<T>, rank: T -> real, t: T)
    requires t in SortDesc(s, rank)
    ensures t in s
  {
    SortDescMembers(s, rank);
  }

  lemma {:induction false} InsertDistinct<T, U>(x: T, s: seq<T>, rank: T -> real, key: T -> U)
    requires DistinctBy(s, key) && forall t :: t in s ==> key(t) != key(x)
    ensures DistinctBy(Insert(x, s, rank), key)
  {
    if s != [] && rank(x) < rank(s[0]) {
      InsertDistinct(x, s[1..], rank, key);
      InsertPermutes(x, s[1..], rank);
      var r := Insert(x, s[1..], rank);
      forall t | t in r
        ensures key(t) != key(s[0])
      {
        assert t in multiset(r);
        if t != x {
          assert t in multiset(s[1..]);
          var k :| 0 <= k < |s[1..]| && s[1..][k] == t;
          assert s[k + 1] == t;
        }
      }
    }
  }

  /** Keys that were distinct stay distinct. */
  lemma {:induction false} SortDescDistinct<T, U>(s: seq<T>, rank: T -> real, key: T -> U)
    requires DistinctBy(s, key)
    ensures DistinctBy(SortDesc(s, rank), key)
  {
    if s != [] {
      assert DistinctBy(s[1..], key);
      SortDescDistinct(s[1..], rank, key);
      var tail := s[1..];
      var sorted := SortDesc(tail, rank);
      forall t | t in sorted
        ensures key(t) != key(s[0])
      {
        SortDescKeeps(tail, rank, t);
        var k :| 0 <= k < |tail| && tail[k] == t;
        assert s[k + 1] == t;
      }
      InsertDistinct(s[0], SortDesc(s[1..], rank), rank, key);
    }
  }

  // ---------------------------------------------------------------- sums

  function Sum<T>(s: seq<T>, f: T -> real): real
  {
    if s == [] then 0.0 else f(s[0]) + Sum(s[1..], f)
  }

  lemma {:induction false} SumAppend<T>(a: seq<T>, b: seq<T>, f: T -> real)
    ensures Sum(a + b, f) == Sum(a, f) + Sum(b, f)
  {
    if a != [] {
      assert (a + b)[1..] == a[1..] + b;
      SumAppend(a[1..], b, f);
    } else {
      assert a + b == b;
    }
  }

  lemma {:induction false} SumUpdate<T>(s: seq<T>, i: nat, x: T, f: T -> real)
    requires i < |s|
    ensures Sum(s[i := x], f) == Sum(s, f) - f(s[i]) + f(x)
  {
    if i > 0 {
      assert s[i := x][1..] == s[1..][i - 1 := x];
      SumUpdate(s[1..], i - 1, x, f);
    }
  }

  /** Two tables whose rows contribute equal amounts, position by position, sum alike. */
  lemma {:induction false} SumPointwise<T, U>(a: seq<T>, f: T -> real, b: seq<U>, g: U -> real)
    requires |a| == |b| && forall i :: 0 <= i < |a| ==> f(a[i]) == g(b[i])
    ensures Sum(a, f) == Sum(b, g)
  {
    if a != [] {
      assert forall i :: 0 <= i < |a[1..]| ==> a[1..][i] == a[i + 1] && b[1..][i] == b[i + 1];
      SumPointwise(a[1..], f, b[1..], g);
    }
  }

  lemma {:induction false} InsertSum<T>(x: T, s: seq<T>, rank: T -> real, f: T -> real)
    ensures Sum(Insert(x, s, rank), f) == f(x) + Sum(s, f)
  {
    if s != [] && rank(x) < rank(s[0]) {
      InsertSum(x, s[1..], rank, f);
    }
  }

  /** Sorting does not change a sum over the table. */
  lemma {:induction false} SortDescSum<T>(s: seq<T>, rank: T -> real, f: T -> real)
    ensures Sum(SortDesc(s, rank), f) == Sum(s, f)
  {
    if s != [] {
      SortDescSum(s[1..], rank, f);
      InsertSum(s[0], SortDesc(s[1..], rank), rank, f);
    }
  }
}
