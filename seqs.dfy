/** The array operations the services and pages lean on (`filter`, `find`,
    `findIndex`, counting with `filter(...).length`), over Dafny sequences. */
module Seqs {

  /** `a` is `b` with some elements dropped and the rest kept in order. */
  ghost predicate IsSubsequence<T>(a: seq<T>, b: seq<T>)
    decreases |b|
  {
    a == [] ||
    (b != [] &&
     ((a[|a| - 1] == b[|b| - 1] && IsSubsequence(a[..|a| - 1], b[..|b| - 1])) ||
      IsSubsequence(a, b[..|b| - 1])))
  }

  /** Every element of `s` is at least the one before it under `key`. */
  ghost predicate SortedBy<T>(s: seq<T>, key: T -> int) {
    forall i, j :: 0 <= i < j < |s| ==> key(s[i]) <= key(s[j])
  }

  /** `s.filter(p)`: exactly the elements satisfying `p`, in their order in `s`. */
  function Filter<T(!new)>(s: seq<T>, p: T -> bool): (r: seq<T>)
    ensures |r| <= |s|
    ensures forall x :: x in r <==> x in s && p(x)
    ensures IsSubsequence(r, s)
  {
    if s == [] then []
    else
      var init, last := s[..|s| - 1], s[|s| - 1];
      assert s == init + [last];
      var r := Filter(init, p);
      if p(last) then
        assert (r + [last])[..|r|] == r;
        r + [last]
      else
        r
  }

  /** `s.filter(p).length`. */
  function Count<T(!new)>(s: seq<T>, p: T -> bool): (n: nat)
    ensures n <= |s|
  {
    |Filter(s, p)|
  }

  /** `s.findIndex(p)`: the first index whose element satisfies `p`, or -1. */
  function FirstIndex<T>(s: seq<T>, p: T -> bool): (i: int)
    ensures -1 <= i < |s|
    ensures 0 <= i ==> p(s[i]) && forall j :: 0 <= j < i ==> !p(s[j])
    ensures i < 0 ==> forall j :: 0 <= j < |s| ==> !p(s[j])
  {
    if s == [] then -1
    else if p(s[0]) then 0
    else
      var k := FirstIndex(s[1..], p);
      if k < 0 then -1 else k + 1
  }

  /** Filtering an extended sequence filters the old part and then the new element. */
  lemma FilterSnoc<T(!new)>(s: seq<T>, x: T, p: T -> bool)
    ensures Filter(s + [x], p) == Filter(s, p) + (if p(x) then [x] else [])
  {
    assert (s + [x])[..|s|] == s;
  }

  /** Concatenation is associative. */
  lemma AppendAssoc<T>(a: seq<T>, b: seq<T>, c: seq<T>)
    ensures (a + b) + c == a + (b + c)
  {
  }

  /** Filtering a concatenation filters each part. */
  lemma {:induction false} FilterConcat<T(!new)>(a: seq<T>, b: seq<T>, p: T -> bool)
    ensures Filter(a + b, p) == Filter(a, p) + Filter(b, p)
    decreases |b|
  {
    if b == [] {
      assert a + b == a;
    } else {
      var init, last := b[..|b| - 1], b[|b| - 1];
      var tail := if p(last) then [last] else [];
      assert b == init + [last];
      var front := a + init;
      assert a + b == front + [last];
      FilterConcat(a, init, p);
      FilterSnoc(front, last, p);
      FilterSnoc(init, last, p);
      AppendAssoc(Filter(a, p), Filter(init, p), tail);
    }
  }

  /** `filter` keeps every copy of a matching element and none of the
      others. */
  lemma {:induction false} FilterMultiplicity<T(!new)>(s: seq<T>, p: T -> bool)
    ensures forall x :: multiset(Filter(s, p))[x] == if p(x) then multiset(s)[x] else 0
    decreases |s|
  {
    if s != [] {
      var init, last := s[..|s| - 1], s[|s| - 1];
      assert s == init + [last];
      FilterMultiplicity(init, p);
      FilterSnoc(init, last, p);
      assert multiset(s) == multiset(init) + multiset{last};
    }
  }

  /** Filtering a sequence with one element in front filters that element,
      then the rest. */
  lemma FilterCons<T(!new)>(x: T, s: seq<T>, p: T -> bool)
    ensures Filter([x] + s, p) == (if p(x) then [x] else []) + Filter(s, p)
  {
    FilterConcat([x], s, p);
    assert [] + [x] == [x];
    FilterSnoc([], x, p);
  }

  /** A list that took `x` iff `p(x)`, followed by the rest's matches, is the
      list before followed by the matches of `[x] + s`. */
  lemma FilterConsAfter<T(!new)>(v: seq<T>, before: seq<T>, x: T, s: seq<T>, p: T -> bool)
    requires v == (if p(x) then before + [x] else before) + Filter(s, p)
    ensures v == before + Filter([x] + s, p)
  {
    FilterCons(x, s, p);
    if p(x) {
      AppendAssoc(before, [x], Filter(s, p));
    } else {
      assert [] + Filter(s, p) == Filter(s, p);
    }
  }

  /** Two predicates no element satisfies together count at most the length. */
  lemma {:induction false} CountDisjoint<T(!new)>(s: seq<T>, p: T -> bool, q: T -> bool)
    requires forall i :: 0 <= i < |s| ==> !(p(s[i]) && q(s[i]))
    ensures Count(s, p) + Count(s, q) <= |s|
  {
    if s != [] {
      var init := s[..|s| - 1];
      CountDisjoint(init, p, q);
      assert s == init + [s[|s| - 1]];
      FilterSnoc(init, s[|s| - 1], p);
      FilterSnoc(init, s[|s| - 1], q);
    }
  }

  /** Filtering keeps a sorted sequence sorted. */
  lemma {:induction false} FilterSorted<T(!new)>(s: seq<T>, p: T -> bool, key: T -> int)
    requires SortedBy(s, key)
    ensures SortedBy(Filter(s, p), key)
  {
    if s != [] {
      var init, last := s[..|s| - 1], s[|s| - 1];
      assert s == init + [last];
      FilterSorted(init, p, key);
      var r := Filter(init, p);
      if p(last) {
        forall i, j | 0 <= i < j < |r| + 1
          ensures key((r + [last])[i]) <= key((r + [last])[j])
        {
          if j == |r| {
            assert r[i] in init;
            var k :| 0 <= k < |init| && init[k] == r[i];
            assert s[k] == r[i] && s[|s| - 1] == last;
          } else {
            assert (r + [last])[i] == r[i] && (r + [last])[j] == r[j];
          }
        }
      }
    }
  }

  /** Filtering by `p` and then by `q` is filtering by both at once. */
  lemma {:induction false} FilterTwice<T(!new)>(s: seq<T>, p: T -> bool, q: T -> bool, both: T -> bool)
    requires forall x :: both(x) == (p(x) && q(x))
    ensures Filter(Filter(s, p), q) == Filter(s, both)
  {
    if s != [] {
      var init, last := s[..|s| - 1], s[|s| - 1];
      assert s == init + [last];
      FilterTwice(init, p, q, both);
      FilterSnoc(init, last, p);
      FilterSnoc(init, last, both);
      FilterSnoc(Filter(init, p), last, q);
    }
  }

  /** Two predicates that agree everywhere filter alike. */
  lemma {:induction false} FilterSame<T(!new)>(s: seq<T>, p: T -> bool, q: T -> bool)
    requires forall x :: p(x) == q(x)
    ensures Filter(s, p) == Filter(s, q)
  {
    if s != [] {
      var init, last := s[..|s| - 1], s[|s| - 1];
      assert s == init + [last];
      FilterSame(init, p, q);
      FilterSnoc(init, last, p);
      FilterSnoc(init, last, q);
    }
  }

  /** Filtering by a predicate every element satisfies keeps the whole sequence. */
  lemma {:induction false} FilterKeepsAll<T(!new)>(s: seq<T>, p: T -> bool)
    requires forall i :: 0 <= i < |s| ==> p(s[i])
    ensures Filter(s, p) == s
  {
    if s != [] {
      var init := s[..|s| - 1];
      assert s == init + [s[|s| - 1]];
      FilterKeepsAll(init, p);
      FilterSnoc(init, s[|s| - 1], p);
    }
  }

  /** Every element satisfies `p` exactly when all of them are counted, and
      none does exactly when none is. */
  lemma {:induction false} CountExtremes<T(!new)>(s: seq<T>, p: T -> bool)
    ensures Count(s, p) == |s| <==> forall i :: 0 <= i < |s| ==> p(s[i])
    ensures Count(s, p) == 0 <==> forall i :: 0 <= i < |s| ==> !p(s[i])
  {
    if s != [] {
      var init, last := s[..|s| - 1], s[|s| - 1];
      assert Count(s, p) == Count(init, p) + (if p(last) then 1 else 0) by {
        assert s == init + [last];
        FilterSnoc(init, last, p);
      }
      CountExtremes(init, p);
      assert forall i :: 0 <= i < |init| ==> s[i] == init[i];
      assert (forall i :: 0 <= i < |s| ==> p(s[i])) <==> (forall i :: 0 <= i < |init| ==> p(init[i])) && p(last);
      assert (forall i :: 0 <= i < |s| ==> !p(s[i])) <==> (forall i :: 0 <= i < |init| ==> !p(init[i])) && !p(last);
    }
  }
}
