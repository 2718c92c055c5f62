/** The Kotlin collection operations the queries are built from: `distinct`
    and `toSet` (both keep first occurrences, in order), `filter`, `count`,
    `flatMap`, `groupBy` (keys in order of first appearance) and `sum`. */
module Collections {

  predicate NoDups<T(==,!new)>(s: seq<T>) {
    forall i, j :: 0 <= i < j < |s| ==> s[i] != s[j]
  }

  /** `s.distinct()`: the first occurrence of every element, in order
      (`DistinctOrder`). */
  function Distinct<T(==,!new)>(s: seq<T>): (r: seq<T>)
    ensures NoDups(r)
    ensures forall x :: x in r <==> x in s
    decreases |s|
  {
    if s == [] then []
    else
      var d := Distinct(s[..|s| - 1]);
      assert forall x :: x in s <==> x in s[..|s| - 1] || x == s[|s| - 1] by {
        assert s == s[..|s| - 1] + [s[|s| - 1]];
      }
      if s[|s| - 1] in d then d else d + [s[|s| - 1]]
  }

  /** The position of the first occurrence of `x` in `s`. */
  function FirstIndex<T(==)>(s: seq<T>, x: T): (i: nat)
    requires x in s
    ensures i < |s| && s[i] == x && x !in s[..i]
    decreases |s|
  {
    if s[0] == x then 0
    else
      var j := FirstIndex(s[1..], x);
      assert s[..j + 1] == [s[0]] + s[1..][..j];
      j + 1
  }

  /** The only position holding `x` with no `x` before it is the first one. */
  lemma FirstIndexUnique<T>(s: seq<T>, x: T, i: nat)
    requires i < |s| && s[i] == x && x !in s[..i]
    ensures FirstIndex(s, x) == i
  {
  }

  /** Appending an element does not move a first occurrence. */
  lemma FirstIndexAppend<T>(p: seq<T>, y: T, x: T)
    requires x in p
    ensures FirstIndex(p + [y], x) == FirstIndex(p, x)
  {
    var k := FirstIndex(p, x);
    assert (p + [y])[..k] == p[..k];
    FirstIndexUnique(p + [y], x, k);
  }

  /** `distinct()` lists the elements in the order of their first
      occurrences. */
  lemma {:induction false} DistinctOrder<T(!new)>(s: seq<T>)
    ensures var d := Distinct(s);
      forall i, j :: 0 <= i < j < |d| ==> FirstIndex(s, d[i]) < FirstIndex(s, d[j])
    decreases |s|
  {
    if s != [] {
      var p := s[..|s| - 1];
      var last := s[|s| - 1];
      var dp := Distinct(p);
      var d := Distinct(s);
      DistinctOrder(p);
      assert s == p + [last];
      forall i, j | 0 <= i < j < |d|
        ensures FirstIndex(s, d[i]) < FirstIndex(s, d[j])
      {
        DistinctStep(p, last, i, j);
      }
    }
  }

  lemma DistinctOrderAt<T(!new)>(s: seq<T>, i: nat, j: nat)
    requires i < j < |Distinct(s)|
    ensures FirstIndex(s, Distinct(s)[i]) < FirstIndex(s, Distinct(s)[j])
  {
    DistinctOrder(s);
  }

  /** One step of `DistinctOrder`: the list grows by `last`. */
  lemma DistinctStep<T(!new)>(p: seq<T>, last: T, i: nat, j: nat)
    requires forall i, j :: 0 <= i < j < |Distinct(p)| ==> FirstIndex(p, Distinct(p)[i]) < FirstIndex(p, Distinct(p)[j])
    requires i < j < |Distinct(p + [last])|
    ensures Distinct(p + [last])[i] in p + [last] && Distinct(p + [last])[j] in p + [last]
    ensures FirstIndex(p + [last], Distinct(p + [last])[i]) < FirstIndex(p + [last], Distinct(p + [last])[j])
  {
    var s := p + [last];
    var dp := Distinct(p);
    var d := Distinct(s);
    assert s[..|s| - 1] == p && s[|s| - 1] == last;
    assert d == if last in dp then dp else dp + [last];
    assert d[i] == dp[i] && dp[i] in p;
    FirstIndexAppend(p, last, dp[i]);
    assert FirstIndex(p, dp[i]) < |p|;
    if j < |dp| {
      assert d[j] == dp[j] && dp[j] in p;
      FirstIndexAppend(p, last, dp[j]);
    } else {
      assert d[j] == last && last !in p;
      assert s[..|p|] == p;
      FirstIndexUnique(s, last, |p|);
    }
  }

  function Filter<T(!new)>(s: seq<T>, p: T -> bool): (r: seq<T>)
    ensures |r| <= |s|
    ensures forall x :: x in r <==> x in s && p(x)
    decreases |s|
  {
    if s == [] then []
    else
      assert s == [s[0]] + s[1..];
      (if p(s[0]) then [s[0]] else []) + Filter(s[1..], p)
  }

  /** The number of occurrences of `x` in `s`. */
  function Count<T(==,!new)>(s: seq<T>, x: T): (n: nat)
    ensures n == multiset(s)[x]
    decreases |s|
  {
    if s == [] then 0
    else
      assert s == [s[0]] + s[1..];
      (if s[0] == x then 1 else 0) + Count(s[1..], x)
  }

  function Flatten<T(!new)>(ss: seq<seq<T>>): (r: seq<T>)
    ensures forall x :: x in r <==> exists i :: 0 <= i < |ss| && x in ss[i]
    decreases |ss|
  {
    if ss == [] then []
    else
      var rest := Flatten(ss[1..]);
      assert forall x :: (exists i :: 0 <= i < |ss| && x in ss[i]) <==>
        x in ss[0] || exists i :: 0 <= i < |ss[1..]| && x in ss[1..][i] by {
        forall x | exists i :: 0 <= i < |ss| && x in ss[i]
          ensures x in ss[0] || exists i :: 0 <= i < |ss[1..]| && x in ss[1..][i]
        {
          var i :| 0 <= i < |ss| && x in ss[i];
          if i > 0 {
            assert ss[1..][i - 1] == ss[i];
          }
        }
      }
      ss[0] + rest
  }

  /** `s.sumOf(f)`. */
  function SumOf<T>(s: seq<T>, f: T -> int): int
    decreases |s|
  {
    if s == [] then 0 else f(s[0]) + SumOf(s[1..], f)
  }

  /** `take(n)` for `n >= 0`. */
  function Take<T>(s: seq<T>, n: nat): (r: seq<T>)
    ensures |r| == if n < |s| then n else |s|
    ensures forall i :: 0 <= i < |r| ==> r[i] == s[i]
  {
    if n < |s| then s[..n] else s
  }

  // ---------------------------------------------------------------------------
  // Lemmas

  /** A list without repeats has as many elements as its set. */
  lemma {:induction false} NoDupsCard<T(!new)>(s: seq<T>)
    requires NoDups(s)
    ensures |set x | x in s| == |s|
    decreases |s|
  {
    if s != [] {
      var rest := s[1..];
      assert NoDups(rest) by {
        forall i, j | 0 <= i < j < |rest|
          ensures rest[i] != rest[j]
        {
          assert rest[i] == s[i + 1] && rest[j] == s[j + 1];
        }
      }
      NoDupsCard(rest);
      assert s[0] !in rest by {
        forall i | 0 <= i < |rest|
          ensures rest[i] != s[0]
        {
          assert rest[i] == s[i + 1];
        }
      }
      assert s == [s[0]] + rest;
      assert (set x | x in s) == (set x | x in rest) + {s[0]};
    }
  }

  /** No repeats means every element occurs once. */
  lemma {:induction false} NoDupsMultiset<T(!new)>(s: seq<T>)
    ensures NoDups(s) <==> forall x :: multiset(s)[x] <= 1
    decreases |s|
  {
    if s != [] {
      var rest := s[1..];
      NoDupsMultiset(rest);
      assert s == [s[0]] + rest;
      if NoDups(s) {
        assert NoDups(rest) by {
          forall i, j | 0 <= i < j < |rest|
            ensures rest[i] != rest[j]
          {
            assert rest[i] == s[i + 1] && rest[j] == s[j + 1];
          }
        }
        assert s[0] !in rest by {
          forall i | 0 <= i < |rest|
            ensures rest[i] != s[0]
          {
            assert rest[i] == s[i + 1];
          }
        }
      } else {
        var i, j :| 0 <= i < j < |s| && s[i] == s[j];
        if i == 0 {
          assert s[j] == rest[j - 1];
          assert multiset(s)[s[0]] == multiset(rest)[s[0]] + 1;
        } else {
          assert s[i] == rest[i - 1] && s[j] == rest[j - 1];
          assert !NoDups(rest);
          var x :| multiset(rest)[x] > 1;
          assert multiset(s)[x] >= multiset(rest)[x];
        }
      }
    }
  }

  /** Reordering keeps the absence of repeats. */
  lemma NoDupsPermutation<T(!new)>(a: seq<T>, b: seq<T>)
    requires NoDups(a) && multiset(a) == multiset(b)
    ensures NoDups(b)
  {
    NoDupsMultiset(a);
    NoDupsMultiset(b);
  }

  lemma {:induction false} SumConcat<T>(a: seq<T>, b: seq<T>, f: T -> int)
    ensures SumOf(a + b, f) == SumOf(a, f) + SumOf(b, f)
    decreases |a|
  {
    if a != [] {
      SumConcat(a[1..], b, f);
      assert (a + b)[0] == a[0];
      assert (a + b)[1..] == a[1..] + b;
    } else {
      assert a + b == b;
    }
  }

  /** Taking out element `i` takes its value from the sum. */
  lemma SumRemove<T>(b: seq<T>, i: nat, f: T -> int)
    requires i < |b|
    ensures SumOf(b, f) == f(b[i]) + SumOf(b[..i] + b[i + 1..], f)
  {
    assert b == b[..i] + [b[i]] + b[i + 1..];
    SumConcat(b[..i] + [b[i]], b[i + 1..], f);
    SumConcat(b[..i], [b[i]], f);
    SumConcat(b[..i], b[i + 1..], f);
    assert SumOf([b[i]], f) == f(b[i]);
  }

  lemma MultisetRemove<T>(b: seq<T>, i: nat)
    requires i < |b|
    ensures multiset(b[..i] + b[i + 1..]) == multiset(b) - multiset{b[i]}
  {
    assert b == b[..i] + [b[i]] + b[i + 1..];
  }

  /** Reordering keeps the sum. */
  lemma {:induction false} SumPermutation<T>(a: seq<T>, b: seq<T>, f: T -> int)
    requires multiset(a) == multiset(b)
    ensures SumOf(a, f) == SumOf(b, f)
    decreases |a|
  {
    if a == [] {
      assert |b| == |multiset(b)| == 0;
    } else {
      assert a[0] in multiset(b);
      var i :| 0 <= i < |b| && b[i] == a[0];
      MultisetRemove(b, i);
      assert multiset(a[1..]) == multiset(a) - multiset{a[0]} by {
        assert a == [a[0]] + a[1..];
      }
      SumPermutation(a[1..], b[..i] + b[i + 1..], f);
      SumRemove(b, i, f);
    }
  }

  /** Filtering by either of two exclusive conditions takes the elements of both. */
  lemma {:induction false} FilterSplit<T(!new)>(s: seq<T>, pq: T -> bool, p: T -> bool, q: T -> bool)
    requires forall x :: pq(x) == (p(x) || q(x)) && !(p(x) && q(x))
    ensures |Filter(s, pq)| == |Filter(s, p)| + |Filter(s, q)|
    decreases |s|
  {
    if s != [] {
      FilterSplit(s[1..], pq, p, q);
    }
  }

  /** Regrouping a concatenation. Kept as a lemma so that proofs over long
      concatenations get this one step without searching for it. */
  lemma ConcatAssoc<T>(x: seq<T>, y: seq<T>, z: seq<T>)
    ensures x + (y + z) == x + y + z
  {
  }

  /** The occurrences of `x` are those in the head and those in the tail. */
  lemma CountHead<T>(s: seq<T>, x: T)
    requires s != []
    ensures multiset(s)[x] == (if s[0] == x then 1 else 0) + multiset(s[1..])[x]
  {
    assert s == [s[0]] + s[1..];
  }

  /** `filter` keeps every occurrence of an element that meets the
      predicate, and none of the others. */
  lemma {:induction false} FilterCount<T(!new)>(s: seq<T>, p: T -> bool, x: T)
    ensures multiset(Filter(s, p))[x] == if p(x) then multiset(s)[x] else 0
    decreases |s|
  {
    if s != [] {
      FilterCount(s[1..], p, x);
      assert s == [s[0]] + s[1..];
    }
  }

  lemma {:induction false} FilterAll<T(!new)>(s: seq<T>, p: T -> bool)
    requires forall x :: x in s ==> p(x)
    ensures Filter(s, p) == s
    decreases |s|
  {
    if s != [] {
      assert forall x :: x in s[1..] ==> x in s;
      FilterAll(s[1..], p);
    }
  }

  lemma {:induction false} FilterNoDups<T(!new)>(s: seq<T>, p: T -> bool)
    requires NoDups(s)
    ensures NoDups(Filter(s, p))
    decreases |s|
  {
    if s != [] {
      var rest := s[1..];
      assert NoDups(rest) by {
        forall i, j | 0 <= i < j < |rest|
          ensures rest[i] != rest[j]
        {
          assert rest[i] == s[i + 1] && rest[j] == s[j + 1];
        }
      }
      FilterNoDups(rest, p);
      assert s[0] !in rest by {
        forall i | 0 <= i < |rest|
          ensures rest[i] != s[0]
        {
          assert rest[i] == s[i + 1];
        }
      }
      var r := Filter(s, p);
      var fr := Filter(rest, p);
      if p(s[0]) {
        assert r == [s[0]] + fr;
        forall i, j | 0 <= i < j < |r|
          ensures r[i] != r[j]
        {
          if i == 0 {
            assert r[j] == fr[j - 1];
          } else {
            assert r[i] == fr[i - 1] && r[j] == fr[j - 1];
          }
        }
      }
    }
  }

  /** The keys of a list of groups. */
  function KeySet<G, K>(groups: seq<G>, gkey: G -> K): set<K> {
    set i | 0 <= i < |groups| :: gkey(groups[i])
  }

  /** The test "the key is `k`". */
  function KeyIs<T, K(==)>(key: T -> K, k: K): T -> bool {
    x => key(x) == k
  }

  /** The test "the key is in `ks`". */
  function KeyIn<T, K(==)>(key: T -> K, ks: set<K>): T -> bool {
    x => key(x) in ks
  }

  /** `filter` keeps the elements in their order. */
  lemma {:induction false} FilterKeepsOrder<T(!new)>(s: seq<T>, p: T -> bool, le: (T, T) -> bool)
    requires forall i, j :: 0 <= i < j < |s| ==> le(s[i], s[j])
    ensures forall i, j :: 0 <= i < j < |Filter(s, p)| ==> le(Filter(s, p)[i], Filter(s, p)[j])
    decreases |s|
  {
    if s != [] {
      var rest := Filter(s[1..], p);
      FilterKeepsOrder(s[1..], p, le);
      if p(s[0]) {
        var r := Filter(s, p);
        assert r == [s[0]] + rest;
        forall j | 0 < j < |r|
          ensures le(r[0], r[j])
        {
          assert r[j] == rest[j - 1];
          assert rest[j - 1] in s[1..];
          var k :| 0 <= k < |s[1..]| && s[1..][k] == rest[j - 1];
          assert s[k + 1] == r[j];
        }
      }
    }
  }

  /** Groups of `s` with distinct keys, each sized by the elements of its key,
      have sizes that add up to the elements whose key has a group. */
  lemma {:induction false} PartitionSum<T(!new), G, K>(s: seq<T>, key: T -> K, groups: seq<G>, gkey: G -> K, size: G -> int)
    requires forall i, j :: 0 <= i < j < |groups| ==> gkey(groups[i]) != gkey(groups[j])
    requires forall i :: 0 <= i < |groups| ==> size(groups[i]) == |Filter(s, KeyIs(key, gkey(groups[i])))|
    ensures SumOf(groups, size) == |Filter(s, KeyIn(key, KeySet(groups, gkey)))|
    decreases |groups|
  {
    if groups == [] {
      FilterNone(s, KeyIn(key, KeySet(groups, gkey)));
    } else {
      var rest := groups[1..];
      var k := gkey(groups[0]);
      assert KeySet(groups, gkey) == {k} + KeySet(rest, gkey) by {
        forall y | y in KeySet(groups, gkey)
          ensures y in {k} + KeySet(rest, gkey)
        {
          var i :| 0 <= i < |groups| && gkey(groups[i]) == y;
          if i > 0 {
            assert gkey(rest[i - 1]) == y;
          }
        }
        forall y | y in KeySet(rest, gkey)
          ensures y in KeySet(groups, gkey)
        {
          var i :| 0 <= i < |rest| && gkey(rest[i]) == y;
          assert gkey(groups[i + 1]) == y;
        }
      }
      assert k !in KeySet(rest, gkey) by {
        forall i | 0 <= i < |rest|
          ensures gkey(rest[i]) != k
        {
          assert rest[i] == groups[i + 1];
        }
      }
      forall i, j | 0 <= i < j < |rest|
        ensures gkey(rest[i]) != gkey(rest[j])
      {
        assert rest[i] == groups[i + 1] && rest[j] == groups[j + 1];
      }
      forall i | 0 <= i < |rest|
        ensures size(rest[i]) == |Filter(s, KeyIs(key, gkey(rest[i])))|
      {
        assert rest[i] == groups[i + 1];
      }
      PartitionSum(s, key, rest, gkey, size);
      FilterSplit(s, KeyIn(key, KeySet(groups, gkey)), KeyIs(key, k), KeyIn(key, KeySet(rest, gkey)));
    }
  }

  lemma {:induction false} FilterNone<T(!new)>(s: seq<T>, p: T -> bool)
    requires forall x :: !p(x)
    ensures Filter(s, p) == []
    decreases |s|
  {
    if s != [] {
      FilterNone(s[1..], p);
    }
  }

  /** Pairs whose first components are distinct and determine the second stay
      so when reordered. */
  lemma KeyedPermutation<K(!new), V(!new)>(a: seq<(K, V)>, b: seq<(K, V)>, f: K -> V)
    requires forall i, j :: 0 <= i < j < |a| ==> a[i].0 != a[j].0
    requires forall i :: 0 <= i < |a| ==> a[i].1 == f(a[i].0)
    requires multiset(a) == multiset(b)
    ensures forall i :: 0 <= i < |b| ==> b[i] in a && b[i].1 == f(b[i].0)
    ensures forall i, j :: 0 <= i < j < |b| ==> b[i].0 != b[j].0
  {
    assert NoDups(a);
    NoDupsPermutation(a, b);
    forall i | 0 <= i < |b|
      ensures b[i] in a
    {
      assert b[i] in multiset(b);
    }
  }
}
