/** Sorting by a key, as the built-in sort does it: stable insertion under a total preorder; and the
    greatest of a list. */
module Sorting {

  ghost predicate TotalPreorder<T(!new)>(le: (T, T) -> bool) {
    && (forall a, b :: le(a, b) || le(b, a))
    && (forall a, b, c :: le(a, b) && le(b, c) ==> le(a, c))
  }

  ghost predicate SortedBy<T>(s: seq<T>, le: (T, T) -> bool) {
    forall i, j :: 0 <= i < j < |s| ==> le(s[i], s[j])
  }

  function Greatest(xs: seq<real>): (m: real)
    requires xs != []
    ensures m in xs && forall i :: 0 <= i < |xs| ==> xs[i] <= m
  {
    var last := xs[|xs| - 1];
    if |xs| == 1 then last
    else
      var r := Greatest(xs[..|xs| - 1]);
      if r > last then r else last
  }

  function Insert<T>(x: T, s: seq<T>, le: (T, T) -> bool): (r: seq<T>)
    ensures multiset(r) == multiset(s) + multiset{x}
  {
    if s == [] then [x]
    else if le(s[|s| - 1], x) then s + [x]
    else
      assert s == s[..|s| - 1] + [s[|s| - 1]];
      Insert(x, s[..|s| - 1], le) + [s[|s| - 1]]
  }

  function SortBy<T>(s: seq<T>, le: (T, T) -> bool): (r: seq<T>)
    ensures multiset(r) == multiset(s)
  {
    if s == [] then []
    else
      assert s == s[..|s| - 1] + [s[|s| - 1]];
      Insert(s[|s| - 1], SortBy(s[..|s| - 1], le), le)
  }

  lemma SameMembers<T>(r: seq<T>, s: seq<T>)
    requires multiset(r) == multiset(s)
    ensures |r| == |s| && forall x :: x in r <==> x in s
  {
    assert |multiset(r)| == |r| && |multiset(s)| == |s|;
    forall x ensures x in r <==> x in s {
      assert x in r <==> x in multiset(r);
      assert x in s <==> x in multiset(s);
    }
  }

  lemma InsertedMember<T>(x: T, s: seq<T>, le: (T, T) -> bool, y: T)
    requires y in Insert(x, s, le)
    ensures y in s || y == x
  {
    assert y in multiset(s) + multiset{x};
  }

  lemma {:induction false} InsertSorted<T(!new)>(x: T, s: seq<T>, le: (T, T) -> bool)
    requires TotalPreorder(le) && SortedBy(s, le)
    ensures SortedBy(Insert(x, s, le), le)
    decreases |s|
  {
    if s != [] {
      var n := |s|;
      var init, last := s[..n - 1], s[n - 1];
      if le(last, x) {
        forall i | 0 <= i < n ensures le(s[i], x) { if i < n - 1 { assert le(s[i], last); } }
      } else {
        InsertSorted(x, init, le);
        var r := Insert(x, init, le);
        forall i | 0 <= i < |r| ensures le(r[i], last) { InsertedMember(x, init, le, r[i]); }
      }
    }
  }

  lemma {:induction false} SortBySorted<T(!new)>(s: seq<T>, le: (T, T) -> bool)
    requires TotalPreorder(le)
    ensures SortedBy(SortBy(s, le), le)
    decreases |s|
  {
    if s != [] {
      SortBySorted(s[..|s| - 1], le);
      InsertSorted(s[|s| - 1], SortBy(s[..|s| - 1], le), le);
    }
  }

  lemma {:induction false} InsertAgrees<T(!new)>(x: T, s: seq<T>, le: (T, T) -> bool, le': (T, T) -> bool)
    requires forall a, b :: le(a, b) == le'(a, b)
    ensures Insert(x, s, le) == Insert(x, s, le')
    decreases |s|
  {
    if s != [] { InsertAgrees(x, s[..|s| - 1], le, le'); }
  }

  /** Sorting depends on the order only through its verdicts. */
  lemma {:induction false} SortByAgrees<T(!new)>(s: seq<T>, le: (T, T) -> bool, le': (T, T) -> bool)
    requires forall a, b :: le(a, b) == le'(a, b)
    ensures SortBy(s, le) == SortBy(s, le')
    decreases |s|
  {
    if s != [] {
      SortByAgrees(s[..|s| - 1], le, le');
      InsertAgrees(s[|s| - 1], SortBy(s[..|s| - 1], le), le, le');
    }
  }

  /** Sequences without repetition keep that under any rearrangement. */
  lemma {:induction false} DistinctAsMultiset<T>(s: seq<T>)
    ensures (forall i, j :: 0 <= i < j < |s| ==> s[i] != s[j]) <==> (forall x :: multiset(s)[x] <= 1)
    decreases |s|
  {
    if s != [] {
      var n := |s|;
      var init, last := s[..n - 1], s[n - 1];
      DistinctAsMultiset(init);
      assert s == init + [last];
      assert multiset(s) == multiset(init) + multiset{last};
      if forall x :: multiset(s)[x] <= 1 {
        assert multiset(s)[last] <= 1;
        assert last !in multiset(init);
        forall i | 0 <= i < n - 1 ensures s[i] != last { assert init[i] in init; assert init[i] in multiset(init); }
        forall x ensures multiset(init)[x] <= 1 { assert multiset(s)[x] <= 1; }
        forall i, j | 0 <= i < j < n ensures s[i] != s[j] { if j < n - 1 { assert init[i] != init[j]; } }
      }
      if forall i, j :: 0 <= i < j < n ==> s[i] != s[j] {
        forall i, j | 0 <= i < j < n - 1 ensures init[i] != init[j] { assert s[i] != s[j]; }
        forall i | 0 <= i < n - 1 ensures init[i] != last { assert s[i] != s[n - 1]; }
        assert last !in multiset(init);
      }
    }
  }

  lemma RearrangedDistinct<T>(r: seq<T>, s: seq<T>)
    requires multiset(r) == multiset(s) && forall i, j :: 0 <= i < j < |s| ==> s[i] != s[j]
    ensures forall i, j :: 0 <= i < j < |r| ==> r[i] != r[j]
  {
    DistinctAsMultiset(s);
    DistinctAsMultiset(r);
  }
}
