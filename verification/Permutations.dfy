/** Lists that are permutations of `0 .. n-1`, as layouts and wire maps are. */
module Permutations {

  function Range(n: nat): (s: seq<int>)
    ensures |s| == n && forall i | 0 <= i < n :: s[i] == i
  {
    seq(n, i => i)
  }

  /** Sorted, the values are the range: the same values, each as often. */
  predicate IsPermutation(values: seq<int>, n: nat) {
    multiset(values) == multiset(Range(n))
  }

  /** Every entry is an index and no two entries are equal. */
  ghost predicate Bijective(values: seq<int>, n: nat) {
    && |values| == n
    && (forall i | 0 <= i < n :: 0 <= values[i] < n)
    && (forall i, j | 0 <= i < j < n :: values[i] != values[j])
  }

  function Swapped(s: seq<int>, a: int, b: int): (t: seq<int>)
    requires 0 <= a < |s| && 0 <= b < |s|
    ensures |t| == |s| && t[a] == s[b] && t[b] == s[a]
    ensures forall i | 0 <= i < |s| && i != a && i != b :: t[i] == s[i]
  {
    s[a := s[b]][b := s[a]]
  }

  lemma SwappedBijective(s: seq<int>, a: int, b: int, n: nat)
    requires Bijective(s, n) && 0 <= a < n && 0 <= b < n
    ensures Bijective(Swapped(s, a, b), n)
  {
  }

  lemma {:induction false} RangeCounts(n: nat, v: int)
    ensures multiset(Range(n))[v] == if 0 <= v < n then 1 else 0
  {
    if n > 0 {
      assert Range(n) == Range(n - 1) + [n - 1];
      RangeCounts(n - 1, v);
    }
  }

  lemma CountTwice(values: seq<int>, i: nat, j: nat)
    requires i < j < |values| && values[i] == values[j]
    ensures multiset(values)[values[i]] >= 2
  {
    assert values == values[..i] + [values[i]] + values[i + 1..j] + [values[j]] + values[j + 1..];
  }

  lemma PermutationIsBijective(values: seq<int>, n: nat)
    requires IsPermutation(values, n)
    ensures Bijective(values, n)
  {
    assert |values| == |multiset(values)| == |Range(n)|;
    forall i | 0 <= i < n ensures 0 <= values[i] < n {
      assert values[i] in multiset(values);
      RangeCounts(n, values[i]);
    }
    forall i, j | 0 <= i < j < n ensures values[i] != values[j] {
      if values[i] == values[j] {
        CountTwice(values, i, j);
        RangeCounts(n, values[i]);
      }
    }
  }

  lemma BijectiveIsOnto(values: seq<int>, n: nat, v: int)
    requires IsPermutation(values, n) && 0 <= v < n
    ensures v in values
  {
    RangeCounts(n, v);
    assert v in multiset(values);
  }

  function Values(s: seq<int>): set<int> {
    set x | x in s
  }

  lemma {:induction false} DistinctSize(s: seq<int>)
    requires forall i, j | 0 <= i < j < |s| :: s[i] != s[j]
    ensures |Values(s)| == |s|
  {
    if s != [] {
      DistinctSize(s[1..]);
      assert Values(s) == Values(s[1..]) + {s[0]};
    }
  }

  /** A bijection takes every value. */
  lemma BijectiveCovers(values: seq<int>, n: nat, v: int)
    requires Bijective(values, n) && 0 <= v < n
    ensures v in values
  {
    DistinctSize(values);
    DistinctSize(Range(n));
    assert Range(n)[v] == v;
    forall x | x in Values(values) ensures x in Values(Range(n)) {
      assert Range(n)[x] == x;
    }
    SameSize(Values(values), Values(Range(n)));
    assert v in Values(Range(n));
  }

  lemma {:induction false} DistinctCounts(s: seq<int>, v: int)
    requires forall i, j | 0 <= i < j < |s| :: s[i] != s[j]
    ensures multiset(s)[v] == if v in s then 1 else 0
  {
    if s != [] {
      assert s == [s[0]] + s[1..];
      assert s[0] in s[1..] ==> exists i | 0 <= i < |s[1..]| :: s[1..][i] == s[i + 1] == s[0];
      DistinctCounts(s[1..], v);
    }
  }

  /** Sorting to the range, and being a bijection of the indices, are one and the same. */
  lemma PermutationExactly(values: seq<int>, n: nat)
    ensures IsPermutation(values, n) <==> Bijective(values, n)
  {
    if IsPermutation(values, n) { PermutationIsBijective(values, n); }
    if Bijective(values, n) {
      forall v ensures multiset(values)[v] == multiset(Range(n))[v] {
        DistinctCounts(values, v);
        RangeCounts(n, v);
        if 0 <= v < n { BijectiveCovers(values, n, v); }
      }
    }
  }

  lemma SameSize(a: set<int>, b: set<int>)
    requires a <= b && |a| == |b|
    ensures a == b
  {
    assert b == a + (b - a);
  }
}