/**
 * The two array methods the application leans on everywhere, `filter` and a
 * summing `reduce`, with the facts about them the views need.
 */
module Seqs {

  /** `s.filter(p)`. */
  function Filter<T>(s: seq<T>, p: T -> bool): (r: seq<T>)
    ensures |r| <= |s|
  {
    if |s| == 0 then [] else (if p(s[0]) then [s[0]] else []) + Filter(s[1..], p)
  }

  /** A filter keeps exactly the elements that pass. */
  lemma {:induction false} FilterMembers<T>(s: seq<T>, p: T -> bool)
    ensures forall x | x in Filter(s, p) :: x in s && p(x)
    ensures forall x | x in s && p(x) :: x in Filter(s, p)
  {
    if |s| > 0 {
      FilterMembers(s[1..], p);
      assert s == [s[0]] + s[1..];
    }
  }

  /** `s.reduce((sum, x) => sum + f(x), 0)`. */
  function Sum<T>(s: seq<T>, f: T -> int): int {
    if |s| == 0 then 0 else f(s[0]) + Sum(s[1..], f)
  }

  lemma {:induction false} FilterAppend<T>(a: seq<T>, b: seq<T>, p: T -> bool)
    ensures Filter(a + b, p) == Filter(a, p) + Filter(b, p)
  {
    if |a| > 0 {
      assert (a + b)[1..] == a[1..] + b;
      FilterAppend(a[1..], b, p);
    } else {
      assert a + b == b;
    }
  }

  lemma {:induction false} SumAppend<T>(a: seq<T>, b: seq<T>, f: T -> int)
    ensures Sum(a + b, f) == Sum(a, f) + Sum(b, f)
  {
    if |a| > 0 {
      assert (a + b)[1..] == a[1..] + b;
      SumAppend(a[1..], b, f);
    } else {
      assert a + b == b;
    }
  }

  /** The terms of `f` where `p` holds, zero elsewhere. */
  function Masked<T>(p: T -> bool, f: T -> int): T -> int {
    x => if p(x) then f(x) else 0
  }

  /** Summing over a filter is summing the masked terms over everything. */
  lemma {:induction false} SumFilterMasked<T>(s: seq<T>, p: T -> bool, f: T -> int)
    ensures Sum(Filter(s, p), f) == Sum(s, Masked(p, f))
  {
    if |s| > 0 {
      SumFilterMasked(s[1..], p, f);
      var rest := Filter(s[1..], p);
      if p(s[0]) {
        assert Filter(s, p) == [s[0]] + rest;
        assert ([s[0]] + rest)[1..] == rest;
      } else {
        assert Filter(s, p) == rest;
      }
    }
  }

  /** Filtering twice by predicates where the inner one is implied by the outer one is filtering once. */
  lemma {:induction false} FilterFilter<T>(s: seq<T>, outer: T -> bool, inner: T -> bool)
    requires forall x :: outer(x) ==> inner(x)
    ensures Filter(Filter(s, inner), outer) == Filter(s, outer)
  {
    if |s| > 0 {
      FilterFilter(s[1..], outer, inner);
      var rest := Filter(s[1..], inner);
      if inner(s[0]) {
        assert Filter(s, inner) == [s[0]] + rest;
        assert ([s[0]] + rest)[1..] == rest;
      } else {
        assert Filter(s, inner) == rest;
      }
    }
  }

  lemma {:induction false} SumRemove<T>(s: seq<T>, j: int, f: T -> int)
    requires 0 <= j < |s|
    ensures Sum(s, f) == f(s[j]) + Sum(s[..j] + s[j + 1..], f)
  {
    assert s == s[..j] + ([s[j]] + s[j + 1..]);
    SumAppend(s[..j], [s[j]] + s[j + 1..], f);
    SumAppend(s[..j], s[j + 1..], f);
    assert ([s[j]] + s[j + 1..])[1..] == s[j + 1..];
  }

  /** A sum does not depend on the order of its terms. */
  lemma {:induction false} SumOfPermutation<T>(a: seq<T>, b: seq<T>, f: T -> int)
    requires multiset(a) == multiset(b)
    ensures Sum(a, f) == Sum(b, f)
    decreases |a|
  {
    if |a| == 0 {
      assert |multiset(b)| == 0;
    } else {
      var x := a[0];
      assert x in multiset(b);
      var j :| 0 <= j < |b| && b[j] == x;
      var rest := b[..j] + b[j + 1..];
      SumRemove(b, j, f);
      RemoveMatching(a, b, j);
      SumOfPermutation(a[1..], rest, f);
    }
  }

  /** Dropping the head of `a` and a matching element of `b` keeps the two permutations of each other. */
  lemma RemoveMatching<T>(a: seq<T>, b: seq<T>, j: int)
    requires multiset(a) == multiset(b) && 0 <= j < |b| && 0 < |a| && b[j] == a[0]
    ensures multiset(a[1..]) == multiset(b[..j] + b[j + 1..])
  {
    var x := a[0];
    assert a == [x] + a[1..];
    assert multiset(a[1..]) == multiset(a) - multiset{x};
    MultisetRemoveAt(b, j);
  }

  /** Removing position `j` removes one copy of its element. */
  lemma MultisetRemoveAt<T>(b: seq<T>, j: int)
    requires 0 <= j < |b|
    ensures multiset(b[..j] + b[j + 1..]) == multiset(b) - multiset{b[j]}
  {
    assert b == b[..j] + [b[j]] + b[j + 1..];
  }

  /** A sum of non-negative terms is non-negative. */
  lemma {:induction false} SumNonNegative<T>(s: seq<T>, f: T -> int)
    requires forall x | x in s :: f(x) >= 0
    ensures Sum(s, f) >= 0
  {
    if |s| > 0 {
      SumNonNegative(s[1..], f);
    }
  }

  /** With non-negative terms, the sum over a filter is at most the sum over everything. */
  lemma {:induction false} SumFilterBounded<T>(s: seq<T>, p: T -> bool, f: T -> int)
    requires forall x | x in s :: f(x) >= 0
    ensures 0 <= Sum(Filter(s, p), f) <= Sum(s, f)
  {
    if |s| > 0 {
      SumFilterBounded(s[1..], p, f);
      var rest := Filter(s[1..], p);
      assert s[0] in s;
      if p(s[0]) {
        assert Filter(s, p) == [s[0]] + rest;
        assert ([s[0]] + rest)[1..] == rest;
      } else {
        assert Filter(s, p) == rest;
      }
    }
  }

  /** `a` is `b` with some elements left out, the rest in their order. */
  predicate IsSubsequence<T(==)>(a: seq<T>, b: seq<T>)
    decreases |b|
  {
    if |a| == 0 then true
    else if |b| == 0 then false
    else (a[0] == b[0] && IsSubsequence(a[1..], b[1..])) || IsSubsequence(a, b[1..])
  }

  /** A filter is a subsequence of its input. */
  lemma {:induction false} FilterIsSubsequence<T>(s: seq<T>, p: T -> bool)
    ensures IsSubsequence(Filter(s, p), s)
  {
    if |s| > 0 {
      FilterIsSubsequence(s[1..], p);
      var rest := Filter(s[1..], p);
      if p(s[0]) {
        assert Filter(s, p) == [s[0]] + rest;
        assert ([s[0]] + rest)[1..] == rest;
      } else {
        assert Filter(s, p) == rest;
      }
    }
  }

  /** A filter keeps every passing element as often as the input holds it, and no other. */
  lemma {:induction false} FilterMultiplicity<T>(s: seq<T>, p: T -> bool)
    ensures forall x :: multiset(Filter(s, p))[x] == if p(x) then multiset(s)[x] else 0
  {
    if |s| > 0 {
      FilterMultiplicity(s[1..], p);
      var rest := Filter(s[1..], p);
      var head: seq<T> := if p(s[0]) then [s[0]] else [];
      assert Filter(s, p) == head + rest;
      assert s == [s[0]] + s[1..];
      assert multiset(s) == multiset([s[0]]) + multiset(s[1..]);
      assert multiset(Filter(s, p)) == multiset(head) + multiset(rest);
    }
  }

  /** A subsequence stays one when both sides grow by the same last element, or only the larger one grows. */
  lemma {:induction false} SubsequenceSnoc<T>(a: seq<T>, b: seq<T>, x: T)
    requires IsSubsequence(a, b)
    ensures IsSubsequence(a + [x], b + [x]) && IsSubsequence(a, b + [x])
    decreases |b|
  {
    if |a| == 0 {
      SingletonSubsequence(b, x);
      assert a + [x] == [x];
    } else if a[0] == b[0] && IsSubsequence(a[1..], b[1..]) {
      SubsequenceSnoc(a[1..], b[1..], x);
      assert (a + [x])[1..] == a[1..] + [x];
      assert (b + [x])[1..] == b[1..] + [x];
    } else {
      SubsequenceSnoc(a, b[1..], x);
      assert (b + [x])[1..] == b[1..] + [x];
    }
  }

  lemma {:induction false} SingletonSubsequence<T>(b: seq<T>, x: T)
    ensures IsSubsequence([x], b + [x])
    decreases |b|
  {
    if |b| > 0 {
      SingletonSubsequence(b[1..], x);
      assert (b + [x])[1..] == b[1..] + [x];
    } else {
      assert ([x] + [])[1..] == [];
      assert b + [x] == [x];
    }
  }

  /** A filter that every element passes changes nothing. */
  lemma {:induction false} FilterAll<T>(s: seq<T>, p: T -> bool)
    requires forall k | 0 <= k < |s| :: p(s[k])
    ensures Filter(s, p) == s
  {
    if |s| > 0 {
      FilterAll(s[1..], p);
      assert s == [s[0]] + s[1..];
    }
  }

  /** A filter that no element passes leaves nothing. */
  lemma {:induction false} FilterNone<T>(s: seq<T>, p: T -> bool)
    requires forall k | 0 <= k < |s| :: !p(s[k])
    ensures Filter(s, p) == []
  {
    if |s| > 0 {
      FilterNone(s[1..], p);
    }
  }

  function KeyIs<T>(key: T -> string, k: string): T -> bool {
    x => key(x) == k
  }

  /**
   * `s.reduce((acc, x) => { (acc[key(x)] ||= []).push(x); return acc; }, {})`:
   * the elements collected per key, by a left-to-right reduce.
   */
  function GroupBy<T>(s: seq<T>, key: T -> string): map<string, seq<T>>
    decreases |s|
  {
    if |s| == 0 then map[]
    else
      var acc := GroupBy(s[..|s| - 1], key);
      var x := s[|s| - 1];
      acc[key(x) := (if key(x) in acc then acc[key(x)] else []) + [x]]
  }

  /**
   * The grouping is a partition by key: its keys are exactly the keys that
   * occur, and the group of a key holds the elements with that key in their
   * original order.
   */
  lemma {:induction false} GroupByPartitions<T>(s: seq<T>, key: T -> string)
    ensures forall k :: k in GroupBy(s, key) <==> exists i | 0 <= i < |s| :: key(s[i]) == k
    ensures forall k | k in GroupBy(s, key) :: GroupBy(s, key)[k] == Filter(s, KeyIs(key, k))
    decreases |s|
  {
    if |s| > 0 {
      var front := s[..|s| - 1];
      var x := s[|s| - 1];
      GroupByPartitions(front, key);
      assert s == front + [x];
      forall k
        ensures k in GroupBy(s, key) <==> exists i | 0 <= i < |s| :: key(s[i]) == k
      {
        if exists i | 0 <= i < |s| :: key(s[i]) == k {
          var i :| 0 <= i < |s| && key(s[i]) == k;
          if i < |s| - 1 {
            assert key(front[i]) == k;
          }
        }
        if exists i | 0 <= i < |front| :: key(front[i]) == k {
          var i :| 0 <= i < |front| && key(front[i]) == k;
          assert key(s[i]) == k;
        }
      }
      forall k | k in GroupBy(s, key)
        ensures GroupBy(s, key)[k] == Filter(s, KeyIs(key, k))
      {
        FilterAppend(front, [x], KeyIs(key, k));
        if k == key(x) && key(x) !in GroupBy(front, key) {
          assert forall i | 0 <= i < |front| :: key(front[i]) != k;
          FilterNone(front, KeyIs(key, k));
        }
      }
    }
  }

  /** Every element sits in the group of its own key. */
  lemma GroupsCover<T>(s: seq<T>, key: T -> string, i: int)
    requires 0 <= i < |s|
    ensures key(s[i]) in GroupBy(s, key)
    ensures s[i] in GroupBy(s, key)[key(s[i])]
  {
    GroupByPartitions(s, key);
    FilterMembers(s, KeyIs(key, key(s[i])));
  }
}
