/** Deterministic enumeration of finite sets of ids. The backend iterates over hash
    sets and maps whose order Java leaves unspecified; the model fixes that order
    to ascending ids. */
module Collections {

  /** A non-empty set has a member (stated so that a `:|` choice can follow). */
  lemma HasMember(s: set<int>)
    requires s != {}
    ensures exists x :: x in s
  {
    if forall x :: x !in s {
      assert false;
    }
  }

  lemma MinExists(s: set<int>)
    requires s != {}
    ensures exists m :: m in s && forall y :: y in s ==> m <= y
    decreases |s|
  {
    HasMember(s);
    var x :| x in s;
    var rest := s - {x};
    if rest != {} {
      MinExists(rest);
      var m :| m in rest && forall y :: y in rest ==> m <= y;
      assert forall y :: y in s ==> y == x || y in rest;
      if x < m {
        assert forall y :: y in s ==> x <= y;
      } else {
        assert forall y :: y in s ==> m <= y;
      }
    } else {
      assert forall y :: y in s ==> x <= y;
    }
  }

  function Min(s: set<int>): (m: int)
    requires s != {}
    ensures m in s && forall y :: y in s ==> m <= y
  {
    MinExists(s);
    var m :| m in s && forall y :: y in s ==> m <= y; m
  }

  predicate StrictlyIncreasing(r: seq<int>) {
    forall i, j :: 0 <= i < j < |r| ==> r[i] < r[j]
  }

  /** The elements of `s`, smallest first. */
  function AscendingIds(s: set<int>): (r: seq<int>)
    ensures |r| == |s|
    ensures forall x :: x in r <==> x in s
    ensures StrictlyIncreasing(r)
    decreases |s|
  {
    if s == {} then []
    else
      var m := Min(s);
      var rest := AscendingIds(s - {m});
      assert forall x :: x in rest ==> m < x;
      [m] + rest
  }

  /** No element occurs twice. */
  predicate Distinct<T(==)>(s: seq<T>) {
    forall i, j :: 0 <= i < j < |s| ==> s[i] != s[j]
  }

  lemma {:induction false} DistinctCountsAtMostOne<T>(s: seq<T>, x: T)
    requires Distinct(s)
    ensures multiset(s)[x] <= 1
  {
    if s != [] {
      assert s == [s[0]] + s[1..];
      DistinctCountsAtMostOne(s[1..], x);
      if x == s[0] {
        assert x !in s[1..];
      }
    }
  }

  /** A permutation of a duplicate-free sequence is duplicate-free. */
  lemma PermutationKeepsDistinct<T>(s: seq<T>, t: seq<T>)
    requires multiset(s) == multiset(t) && Distinct(t)
    ensures Distinct(s)
  {
    forall i, j | 0 <= i < j < |s| ensures s[i] != s[j] {
      if s[i] == s[j] {
        var x := s[i];
        assert s == s[..i] + [x] + s[i + 1..j] + [x] + s[j + 1..];
        assert multiset(s)[x] >= 2;
        DistinctCountsAtMostOne(t, x);
        assert false;
      }
    }
  }
}
