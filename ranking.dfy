/** The per-query ranking: `np.argsort(-distmat, axis=1)` orders the gallery indices of
    each row of the similarity matrix by non-increasing similarity. numpy's default sort
    is not stable, so the model only asks for SOME such permutation (IsRanking); Argsort
    below is one of them, the one that breaks ties by ascending gallery index. */
module Ranking {

  /** The indices 0, 1, ..., n-1. */
  function Range(n: nat): seq<nat>
  {
    seq(n, k => k)
  }

  /** Every entry of `s` indexes an array of length n. */
  predicate InRange(s: seq<nat>, n: nat)
  {
    forall k :: 0 <= k < |s| ==> s[k] < n
  }

  /** The indices in `s` are in non-increasing order of their score in `row`. */
  predicate SortedDesc(row: seq<int>, s: seq<nat>)
    requires InRange(s, |row|)
  {
    forall i, j :: 0 <= i < j < |s| ==> row[s[i]] >= row[s[j]]
  }

  /** `order` is a permutation of [0, |row|) in non-increasing score order; ties in any order. */
  predicate IsRanking(row: seq<int>, order: seq<nat>)
  {
    && InRange(order, |row|)
    && multiset(order) == multiset(Range(|row|))
    && SortedDesc(row, order)
  }

  /** Inserts index j into a ranking of other indices, after every index that scores at
      least as high (so equal scores keep ascending index order). */
  function InsertByScore(row: seq<int>, s: seq<nat>, j: nat): (r: seq<nat>)
    requires j < |row| && InRange(s, |row|)
    ensures |r| == |s| + 1 && InRange(r, |row|)
    ensures multiset(r) == multiset(s) + multiset{j}
  {
    if s == [] then [j]
    else if row[j] > row[s[0]] then [j] + s
    else
      assert s == [s[0]] + s[1..];
      [s[0]] + InsertByScore(row, s[1..], j)
  }

  /** Inserting into a ranking keeps it in non-increasing score order. */
  lemma {:induction false} InsertByScoreSorted(row: seq<int>, s: seq<nat>, j: nat)
    requires j < |row| && InRange(s, |row|) && SortedDesc(row, s)
    ensures SortedDesc(row, InsertByScore(row, s, j))
  {
    if s != [] && row[j] <= row[s[0]] {
      var rest := InsertByScore(row, s[1..], j);
      InsertByScoreSorted(row, s[1..], j);
      forall k | 0 <= k < |rest|
        ensures row[s[0]] >= row[rest[k]]
      {
        assert rest[k] in multiset(rest);
        assert rest[k] in multiset(s[1..]) + multiset{j};
        if rest[k] != j {
          assert rest[k] in s[1..];
        }
      }
      assert InsertByScore(row, s, j) == [s[0]] + rest;
    }
  }

  /** Ranks the indices [0, n) of `row`. */
  function ArgsortPrefix(row: seq<int>, n: nat): (r: seq<nat>)
    requires n <= |row|
    ensures InRange(r, |row|) && |r| == n
    ensures multiset(r) == multiset(Range(n))
    ensures SortedDesc(row, r)
  {
    if n == 0 then []
    else
      assert Range(n) == Range(n - 1) + [n - 1];
      var prefix := ArgsortPrefix(row, n - 1);
      InsertByScoreSorted(row, prefix, n - 1);
      InsertByScore(row, prefix, n - 1)
  }

  /** One ranking of a similarity row: a valid result of `np.argsort(-row)`. */
  function Argsort(row: seq<int>): (order: seq<nat>)
    ensures IsRanking(row, order)
  {
    ArgsortPrefix(row, |row|)
  }

  lemma {:induction false} RangeCount(n: nat, x: nat)
    ensures multiset(Range(n))[x] == if x < n then 1 else 0
  {
    if n > 0 {
      assert Range(n) == Range(n - 1) + [n - 1];
      RangeCount(n - 1, x);
    }
  }

  /** Two equal entries at different positions occur at least twice in the multiset. */
  lemma TwiceInMultiset(s: seq<nat>, i: nat, j: nat)
    requires i < j < |s| && s[i] == s[j]
    ensures multiset(s)[s[i]] >= 2
  {
    assert s == s[..i] + [s[i]] + s[i + 1..j] + [s[j]] + s[j + 1..];
  }

  /** A ranking lists every gallery index exactly once. */
  lemma RankingIsPermutation(row: seq<int>, order: seq<nat>)
    requires IsRanking(row, order)
    ensures |order| == |row|
    ensures forall j :: 0 <= j < |row| ==> j in order
    ensures forall i, k :: 0 <= i < k < |order| ==> order[i] != order[k]
  {
    assert |order| == |multiset(order)| == |multiset(Range(|row|))| == |row|;
    forall j | 0 <= j < |row|
      ensures j in order
    {
      assert Range(|row|)[j] == j;
      assert j in multiset(Range(|row|));
      assert j in multiset(order);
    }
    forall i, k | 0 <= i < k < |order|
      ensures order[i] != order[k]
    {
      if order[i] == order[k] {
        TwiceInMultiset(order, i, k);
        RangeCount(|row|, order[i]);
        assert false;
      }
    }
  }
}
