/** The array operations of JavaScript that the planner uses on its task
    list and on the weekday table: `filter`, `findIndex` and `find`. */
module Seqs {
  import opened Wrappers

  /** `s.filter(p)`: the elements of `s` that satisfy `p`, in their order in `s`.
      Each element that satisfies `p` is kept as often as it occurs in `s`,
      and no other element is kept. */
  function Filter<T(!new)>(s: seq<T>, p: T -> bool): (r: seq<T>)
    ensures |r| <= |s|
    ensures forall i :: 0 <= i < |r| ==> p(r[i])
  {
    if s == [] then []
    else (if p(s[0]) then [s[0]] else []) + Filter(s[1..], p)
  }

  /** Each element that satisfies `p` is kept as often as it occurs in `s`,
      and no other element is kept. */
  lemma {:induction false} FilterMultiset<T(!new)>(s: seq<T>, p: T -> bool)
    ensures forall x :: multiset(Filter(s, p))[x] == if p(x) then multiset(s)[x] else 0
  {
    if s != [] {
      assert s == [s[0]] + s[1..];
      FilterMultiset(s[1..], p);
    }
  }

  /** Filtering a concatenation filters each part. */
  lemma {:induction false} FilterAppend<T(!new)>(s: seq<T>, t: seq<T>, p: T -> bool)
    ensures Filter(s + t, p) == Filter(s, p) + Filter(t, p)
  {
    if s == [] {
      assert s + t == t;
    } else {
      assert (s + t)[1..] == s[1..] + t;
      FilterAppend(s[1..], t, p);
    }
  }

  /** Appending one element adds one to the filter's length exactly when the
      element satisfies the predicate. */
  lemma FilterSnoc<T(!new)>(s: seq<T>, x: T, p: T -> bool)
    ensures Filter(s + [x], p) == if p(x) then Filter(s, p) + [x] else Filter(s, p)
    ensures |Filter(s + [x], p)| == |Filter(s, p)| + if p(x) then 1 else 0
  {
    FilterAppend(s, [x], p);
    assert Filter([x], p) == (if p(x) then [x] else []) + Filter([x][1..], p);
  }

  /** A filter that keeps every element returns the sequence itself. */
  lemma {:induction false} FilterAll<T(!new)>(s: seq<T>, p: T -> bool)
    requires forall i :: 0 <= i < |s| ==> p(s[i])
    ensures Filter(s, p) == s
  {
    if s != [] {
      FilterAll(s[1..], p);
    }
  }

  /** A filter that keeps no element returns the empty sequence. */
  lemma {:induction false} FilterNone<T(!new)>(s: seq<T>, p: T -> bool)
    requires forall i :: 0 <= i < |s| ==> !p(s[i])
    ensures Filter(s, p) == []
  {
    if s != [] {
      FilterNone(s[1..], p);
    }
  }

  /** Two predicates that agree on the elements of `s` filter it alike. */
  lemma {:induction false} FilterSameOn<T(!new)>(s: seq<T>, p: T -> bool, q: T -> bool)
    requires forall i :: 0 <= i < |s| ==> p(s[i]) == q(s[i])
    ensures Filter(s, p) == Filter(s, q)
  {
    if s != [] {
      FilterSameOn(s[1..], p, q);
    }
  }

  /** The filter is empty exactly when no element satisfies the predicate. */
  lemma FilterEmptyIff<T(!new)>(s: seq<T>, p: T -> bool)
    ensures Filter(s, p) == [] <==> forall i :: 0 <= i < |s| ==> !p(s[i])
  {
    FilterMultiset(s, p);
    if Filter(s, p) == [] {
      forall i | 0 <= i < |s| ensures !p(s[i]) {
        assert s[i] in multiset(s);
        assert multiset(Filter(s, p))[s[i]] == 0;
      }
    } else if forall i :: 0 <= i < |s| ==> !p(s[i]) {
      FilterNone(s, p);
    }
  }

  /** A weaker predicate keeps at least as many elements. */
  lemma FilterMonotone<T(!new)>(s: seq<T>, p: T -> bool, q: T -> bool)
    requires forall x :: p(x) ==> q(x)
    ensures multiset(Filter(s, p)) <= multiset(Filter(s, q))
    ensures |Filter(s, p)| <= |Filter(s, q)|
  {
    FilterMultiset(s, p);
    FilterMultiset(s, q);
    var a, b := multiset(Filter(s, p)), multiset(Filter(s, q));
    assert a <= b;
    assert b == a + (b - a);
  }

  /** Filtering by `c` after a weaker first filter keeps at least as many elements. */
  lemma FilterThenMonotone<T(!new)>(s: seq<T>, p: T -> bool, q: T -> bool, c: T -> bool)
    requires forall x :: p(x) ==> q(x)
    ensures |Filter(Filter(s, p), c)| <= |Filter(Filter(s, q), c)|
  {
    FilterMultiset(s, p);
    FilterMultiset(s, q);
    FilterMultiset(Filter(s, p), c);
    FilterMultiset(Filter(s, q), c);
    var a, b := multiset(Filter(Filter(s, p), c)), multiset(Filter(Filter(s, q), c));
    assert a <= b;
    assert b == a + (b - a);
  }

  /** When `r` holds exactly when one of two exclusive predicates holds, it keeps
      as many elements as the two together. */
  lemma FilterDisjointUnion<T(!new)>(s: seq<T>, p: T -> bool, q: T -> bool, r: T -> bool)
    requires forall x :: r(x) == (p(x) || q(x))
    requires forall x :: !(p(x) && q(x))
    ensures |Filter(s, r)| == |Filter(s, p)| + |Filter(s, q)|
  {
    FilterMultiset(s, p);
    FilterMultiset(s, q);
    FilterMultiset(s, r);
    var a, b, u := multiset(Filter(s, p)), multiset(Filter(s, q)), multiset(Filter(s, r));
    assert u == a + b;
  }

  /** Filtering commutes with reordering: lists holding the same elements
      keep the same elements under any filter. */
  lemma FilterPermutation<T(!new)>(s: seq<T>, t: seq<T>, p: T -> bool)
    requires multiset(s) == multiset(t)
    ensures multiset(Filter(s, p)) == multiset(Filter(t, p))
    ensures |Filter(s, p)| == |Filter(t, p)|
  {
    FilterMultiset(s, p);
    FilterMultiset(t, p);
    assert multiset(Filter(s, p)) == multiset(Filter(t, p));
    assert |multiset(Filter(s, p))| == |multiset(Filter(t, p))|;
  }

  /** Filtering twice is filtering once by the conjunction. */
  lemma {:induction false} FilterCompose<T(!new)>(s: seq<T>, p: T -> bool, q: T -> bool, r: T -> bool)
    requires forall x :: r(x) == (p(x) && q(x))
    ensures Filter(Filter(s, p), q) == Filter(s, r)
  {
    if s != [] {
      FilterCompose(s[1..], p, q, r);
      var fp := Filter(s, p);
      assert Filter(s, r) == (if r(s[0]) then [s[0]] else []) + Filter(s[1..], r);
      if p(s[0]) {
        assert fp[0] == s[0] && fp[1..] == Filter(s[1..], p);
        assert Filter(fp, q) == (if q(s[0]) then [s[0]] else []) + Filter(fp[1..], q);
      } else {
        assert fp == Filter(s[1..], p);
      }
    }
  }

  /** `s.findIndex(p)`: the first position whose element satisfies `p`, or -1. */
  function FindIndex<T(!new)>(s: seq<T>, p: T -> bool): (i: int)
    ensures -1 <= i < |s|
    ensures 0 <= i ==> p(s[i]) && forall j :: 0 <= j < i ==> !p(s[j])
    ensures i == -1 <==> forall j :: 0 <= j < |s| ==> !p(s[j])
  {
    if s == [] then -1
    else if p(s[0]) then 0
    else
      var k := FindIndex(s[1..], p);
      if k == -1 then -1 else k + 1
  }

  /** `s.find(p)`: the first element that satisfies `p`, or nothing. */
  function Find<T(!new)>(s: seq<T>, p: T -> bool): (r: Option<T>)
    ensures r.None? <==> forall j :: 0 <= j < |s| ==> !p(s[j])
    ensures r.Some? ==> exists i :: 0 <= i < |s| && s[i] == r.value && p(s[i]) && forall j :: 0 <= j < i ==> !p(s[j])
  {
    var i := FindIndex(s, p);
    if i < 0 then None else Some(s[i])
  }
}
