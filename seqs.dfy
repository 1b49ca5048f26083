/**
 * The list operations the TypeScript and Go code lean on: `Array.filter`,
 * first-occurrence de-duplication (`Array.from(new Set(xs))`), `flat`, and
 * sums of counts.
 */
module Seqs {

  /** `s.filter(p)`: the elements satisfying `p`, in their original order. */
  function Filter<T(!new)>(s: seq<T>, p: T -> bool): (r: seq<T>)
    ensures |r| <= |s|
    ensures forall x :: x in r <==> x in s && p(x)
    ensures forall i | 0 <= i < |r| :: p(r[i])
  {
    if s == [] then []
    else if p(s[0]) then [s[0]] + Filter(s[1..], p)
    else Filter(s[1..], p)
  }

  /** Filtering distributes over concatenation, so the original order is kept. */
  lemma {:induction false} FilterConcat<T(!new)>(s: seq<T>, t: seq<T>, p: T -> bool)
    ensures Filter(s + t, p) == Filter(s, p) + Filter(t, p)
  {
    if s == [] {
      assert s + t == t;
    } else {
      assert (s + t)[1..] == s[1..] + t;
      FilterConcat(s[1..], t, p);
    }
  }

  /** A filter that every element passes returns the list unchanged. */
  lemma {:induction false} FilterKeepsAll<T(!new)>(s: seq<T>, p: T -> bool)
    requires forall i | 0 <= i < |s| :: p(s[i])
    ensures Filter(s, p) == s
  {
    if s != [] {
      FilterKeepsAll(s[1..], p);
    }
  }

  /** Appending one element: the filter grows by it exactly when it passes. */
  lemma FilterSnoc<T(!new)>(s: seq<T>, x: T, p: T -> bool)
    ensures Filter(s + [x], p) == Filter(s, p) + (if p(x) then [x] else [])
  {
    FilterConcat(s, [x], p);
    assert [x][1..] == [];
  }

  /**
   * Two filters with disjoint predicates together select, as a multiset,
   * what the filter by their disjunction selects.
   */
  lemma {:induction false} FilterDisjointUnion<T(!new)>(s: seq<T>, p: T -> bool, q: T -> bool, either: T -> bool)
    requires forall x :: either(x) == (p(x) || q(x))
    requires forall x :: !(p(x) && q(x))
    ensures multiset(Filter(s, p)) + multiset(Filter(s, q)) == multiset(Filter(s, either))
  {
    if s != [] {
      FilterDisjointUnion(s[1..], p, q, either);
    }
  }

  /** The filter by a predicate and by its negation split the list's multiset. */
  lemma {:induction false} FilterPartition<T(!new)>(s: seq<T>, p: T -> bool, notP: T -> bool)
    requires forall x :: notP(x) == !p(x)
    ensures multiset(Filter(s, p)) + multiset(Filter(s, notP)) == multiset(s)
    ensures |Filter(s, p)| + |Filter(s, notP)| == |s|
  {
    if s != [] {
      FilterPartition(s[1..], p, notP);
      assert s == [s[0]] + s[1..];
    }
  }

  predicate NoDuplicates<T(==)>(s: seq<T>) {
    forall i, j | 0 <= i < j < |s| :: s[i] != s[j]
  }

  /** Filtering a list without repeats gives a list without repeats. */
  lemma {:induction false} FilterNoDuplicates<T(!new)>(s: seq<T>, p: T -> bool)
    requires NoDuplicates(s)
    ensures NoDuplicates(Filter(s, p))
  {
    if s != [] {
      assert NoDuplicates(s[1..]) by {
        forall i, j | 0 <= i < j < |s[1..]| ensures s[1..][i] != s[1..][j] {
          assert s[1..][i] == s[i + 1] && s[1..][j] == s[j + 1];
        }
      }
      FilterNoDuplicates(s[1..], p);
      assert s[0] !in s[1..] by {
        forall i | 0 <= i < |s[1..]| ensures s[1..][i] != s[0] {
          assert s[1..][i] == s[i + 1];
        }
      }
    }
  }

  /** Index of the first occurrence of `x` in `s`. */
  function FirstIndex<T(==)>(s: seq<T>, x: T): (i: nat)
    requires x in s
    ensures i < |s| && s[i] == x && x !in s[..i]
  {
    if s[0] == x then 0 else 1 + FirstIndex(s[1..], x)
  }

  lemma {:induction false} FirstIndexSnoc<T>(s: seq<T>, y: T, x: T)
    requires x in s
    ensures FirstIndex(s + [y], x) == FirstIndex(s, x)
  {
    if s[0] != x {
      assert (s + [y])[1..] == s[1..] + [y];
      FirstIndexSnoc(s[1..], y, x);
    }
  }

  lemma {:induction false} FirstIndexOfNew<T>(s: seq<T>, x: T)
    requires x !in s
    ensures FirstIndex(s + [x], x) == |s|
  {
    if s != [] {
      assert (s + [x])[1..] == s[1..] + [x];
      FirstIndexOfNew(s[1..], x);
    }
  }

  /**
   * The distinct elements of `s`, each at the place of its first
   * occurrence. Built from the end so that appending an element already
   * seen leaves the result unchanged.
   */
  function Distinct<T(==,!new)>(s: seq<T>): (r: seq<T>)
    ensures forall x :: x in r <==> x in s
    ensures NoDuplicates(r)
    ensures |r| <= |s|
  {
    if s == [] then []
    else
      var init := Distinct(s[..|s| - 1]);
      var last := s[|s| - 1];
      assert s == s[..|s| - 1] + [last];
      if last in init then init else init + [last]
  }

  /** Distinct lists the elements in the order of their first occurrence. */
  lemma {:induction false} DistinctFirstOccurrenceOrder<T(!new)>(s: seq<T>)
    ensures forall i, j | 0 <= i < j < |Distinct(s)| ::
      FirstIndex(s, Distinct(s)[i]) < FirstIndex(s, Distinct(s)[j])
  {
    if s != [] {
      var init := s[..|s| - 1];
      var last := s[|s| - 1];
      assert s == init + [last];
      DistinctFirstOccurrenceOrder(init);
      var r := Distinct(s);
      forall i, j | 0 <= i < j < |r|
        ensures FirstIndex(s, r[i]) < FirstIndex(s, r[j])
      {
        assert r[i] in init;
        FirstIndexSnoc(init, last, r[i]);
        if j < |Distinct(init)| {
          assert r[j] in init;
          FirstIndexSnoc(init, last, r[j]);
        } else {
          assert r[j] == last && last !in init;
          FirstIndexOfNew(init, last);
        }
      }
    }
  }

  /** Appending an element adds it to the distinct elements unless it was already there. */
  lemma DistinctSnoc<T(!new)>(s: seq<T>, x: T)
    ensures Distinct(s + [x]) == if x in Distinct(s) then Distinct(s) else Distinct(s) + [x]
  {
    assert (s + [x])[..|s|] == s;
  }

  lemma DistinctOfDistinct<T(!new)>(s: seq<T>)
    requires NoDuplicates(s)
    ensures Distinct(s) == s
  {
    if s != [] {
      var init := s[..|s| - 1];
      assert s == init + [s[|s| - 1]];
      DistinctOfDistinct(init);
    }
  }

  /** `ss.flat()`: the lists one after another. */
  function Flatten<T(!new)>(ss: seq<seq<T>>): (r: seq<T>)
    ensures forall x :: x in r <==> exists i | 0 <= i < |ss| :: x in ss[i]
  {
    if ss == [] then []
    else
      var r := ss[0] + Flatten(ss[1..]);
      assert forall x :: x in r <==> exists i | 0 <= i < |ss| :: x in ss[i] by {
        forall x | x in r ensures exists i | 0 <= i < |ss| :: x in ss[i] {
          if x !in ss[0] {
            var k :| 0 <= k < |ss[1..]| && x in ss[1..][k];
            assert x in ss[k + 1];
          }
        }
        forall x | exists i | 0 <= i < |ss| :: x in ss[i] ensures x in r {
          var k :| 0 <= k < |ss| && x in ss[k];
          if k > 0 {
            assert x in ss[1..][k - 1];
          }
        }
      }
      r
  }

  lemma {:induction false} FlattenConcat<T(!new)>(a: seq<seq<T>>, b: seq<seq<T>>)
    ensures Flatten(a + b) == Flatten(a) + Flatten(b)
  {
    if a == [] {
      assert a + b == b;
    } else {
      assert (a + b)[1..] == a[1..] + b;
      FlattenConcat(a[1..], b);
    }
  }

  function Sum(s: seq<nat>): nat {
    if s == [] then 0 else s[0] + Sum(s[1..])
  }

  lemma {:induction false} SumConcat(a: seq<nat>, b: seq<nat>)
    ensures Sum(a + b) == Sum(a) + Sum(b)
  {
    if a == [] {
      assert a + b == b;
    } else {
      assert (a + b)[1..] == a[1..] + b;
      SumConcat(a[1..], b);
    }
  }

  /** A list without repeats has as many distinct elements as entries. */
  lemma {:induction false} NoDuplicatesCardinality<T(!new)>(s: seq<T>)
    requires NoDuplicates(s)
    ensures |set x | x in s| == |s|
  {
    if s != [] {
      var init := s[..|s| - 1];
      var last := s[|s| - 1];
      assert s == init + [last];
      NoDuplicatesCardinality(init);
      assert (set x | x in s) == (set x | x in init) + {last};
      assert last !in init;
    }
  }

  /** The number of occurrences of `x` in `s`; built from the end like `Distinct`. */
  function Count<T(==)>(s: seq<T>, x: T): (r: nat)
    ensures r <= |s|
    ensures r > 0 <==> x in s
  {
    if s == [] then 0
    else
      var init := s[..|s| - 1];
      assert s == init + [s[|s| - 1]];
      Count(init, x) + (if s[|s| - 1] == x then 1 else 0)
  }

  lemma CountSnoc<T>(s: seq<T>, y: T, x: T)
    ensures Count(s + [y], x) == Count(s, x) + (if y == x then 1 else 0)
  {
    assert (s + [y])[..|s|] == s;
  }

  /** The counts in `s` of each of `keys`, added up. */
  function SumOfCounts<T(==)>(keys: seq<T>, s: seq<T>): nat {
    if keys == [] then 0 else Count(s, keys[0]) + SumOfCounts(keys[1..], s)
  }

  lemma {:induction false} SumOfCountsEmpty<T>(keys: seq<T>)
    ensures SumOfCounts(keys, []) == 0
  {
    if keys != [] {
      SumOfCountsEmpty(keys[1..]);
    }
  }

  /** Appending `y` adds one to the total exactly when `y` is one of the (distinct) keys. */
  lemma {:induction false} SumOfCountsSnoc<T>(keys: seq<T>, s: seq<T>, y: T)
    requires NoDuplicates(keys)
    ensures SumOfCounts(keys, s + [y]) == SumOfCounts(keys, s) + (if y in keys then 1 else 0)
  {
    if keys != [] {
      CountSnoc(s, y, keys[0]);
      SumOfCountsSnoc(keys[1..], s, y);
      assert y in keys <==> y == keys[0] || y in keys[1..];
      assert keys[0] !in keys[1..];
    }
  }

  /**
   * Over distinct keys, the counts add up to the number of elements that
   * are keys: every such element is counted once, the others never.
   */
  lemma {:induction false} SumOfCountsFilter<T(!new)>(keys: seq<T>, s: seq<T>, isKey: T -> bool)
    requires NoDuplicates(keys)
    requires forall x :: isKey(x) == (x in keys)
    ensures SumOfCounts(keys, s) == |Filter(s, isKey)|
  {
    if s == [] {
      SumOfCountsEmpty(keys);
    } else {
      var init := s[..|s| - 1];
      var last := s[|s| - 1];
      assert s == init + [last];
      SumOfCountsFilter(keys, init, isKey);
      SumOfCountsSnoc(keys, init, last);
      FilterSnoc(init, last, isKey);
    }
  }

  /** Distinct keys that cover the list count every element exactly once. */
  lemma SumOfCountsCovering<T(!new)>(keys: seq<T>, s: seq<T>)
    requires NoDuplicates(keys)
    requires forall i | 0 <= i < |s| :: s[i] in keys
    ensures SumOfCounts(keys, s) == |s|
  {
    var isKey := (x: T) => x in keys;
    SumOfCountsFilter(keys, s, isKey);
    FilterKeepsAll(s, isKey);
  }
}
