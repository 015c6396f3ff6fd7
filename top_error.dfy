/** The entries of `get_top_error` and the stable sort that orders them. Python's
    `list.sort(key=...)` is stable, also with `reverse=True`; a stable sort has exactly
    one possible result, so the insertion sort below computes what the source computes. */
module TopError {

  /** The `similarityScore` namedtuple: a query index, the test-set indices of its top
      gallery results, their similarity scores and their match flags. */
  datatype SimilarityScore = SimilarityScore(query: nat, gallery: seq<nat>, sim: seq<int>, cmc: seq<int>)

  /** Every entry has a top-1 score, the sort key `x.sim[0]`. */
  predicate HasTop1(s: seq<SimilarityScore>)
  {
    forall i :: 0 <= i < |s| ==> |s[i].sim| > 0
  }

  /** Key a may stand before key b: ascending, or descending with `reverse=True`. */
  predicate InOrder(a: int, b: int, descending: bool)
  {
    if descending then a >= b else a <= b
  }

  predicate SortedByTop1(s: seq<SimilarityScore>, descending: bool)
    requires HasTop1(s)
  {
    forall i, j :: 0 <= i < j < |s| ==> InOrder(s[i].sim[0], s[j].sim[0], descending)
  }

  /** Entries with equal keys stand in ascending query order. */
  predicate TiesByQuery(s: seq<SimilarityScore>)
    requires HasTop1(s)
  {
    forall i, j :: 0 <= i < j < |s| && s[i].sim[0] == s[j].sim[0] ==> s[i].query < s[j].query
  }

  predicate QueriesAscending(s: seq<SimilarityScore>)
  {
    forall i, j :: 0 <= i < j < |s| ==> s[i].query < s[j].query
  }

  /** Inserts x after every entry whose key may stand before it (stable insertion). */
  function InsertByTop1(x: SimilarityScore, s: seq<SimilarityScore>, descending: bool): (r: seq<SimilarityScore>)
    requires |x.sim| > 0 && HasTop1(s)
    ensures |r| == |s| + 1 && HasTop1(r)
    ensures multiset(r) == multiset(s) + multiset{x}
  {
    if s == [] then [x]
    else if !InOrder(s[0].sim[0], x.sim[0], descending) then [x] + s
    else
      assert s == [s[0]] + s[1..];
      [s[0]] + InsertByTop1(x, s[1..], descending)
  }

  /** `list.sort(key=lambda x: x.sim[0], reverse=descending)`. */
  function SortByTop1(s: seq<SimilarityScore>, descending: bool): (r: seq<SimilarityScore>)
    requires HasTop1(s)
    ensures |r| == |s| && HasTop1(r)
    ensures multiset(r) == multiset(s)
    ensures SortedByTop1(r, descending)
  {
    if s == [] then []
    else
      var last := |s| - 1;
      assert s == s[..last] + [s[last]];
      var prefix := SortByTop1(s[..last], descending);
      InsertSorted(s[last], prefix, descending);
      InsertByTop1(s[last], prefix, descending)
  }

  lemma {:induction false} InsertSorted(x: SimilarityScore, s: seq<SimilarityScore>, descending: bool)
    requires |x.sim| > 0 && HasTop1(s) && SortedByTop1(s, descending)
    ensures SortedByTop1(InsertByTop1(x, s, descending), descending)
  {
    if s != [] && InOrder(s[0].sim[0], x.sim[0], descending) {
      var rest := InsertByTop1(x, s[1..], descending);
      InsertSorted(x, s[1..], descending);
      forall k | 0 <= k < |rest|
        ensures InOrder(s[0].sim[0], rest[k].sim[0], descending)
      {
        assert rest[k] in multiset(rest);
        if rest[k] != x {
          assert rest[k] in s[1..];
        }
      }
      assert InsertByTop1(x, s, descending) == [s[0]] + rest;
    }
  }

  /** Insertion of an entry with a larger query index than all others keeps ties in
      ascending query order: it lands after every entry of equal key. */
  lemma {:induction false} InsertKeepsTies(x: SimilarityScore, s: seq<SimilarityScore>, descending: bool)
    requires |x.sim| > 0 && HasTop1(s) && SortedByTop1(s, descending) && TiesByQuery(s)
    requires forall i :: 0 <= i < |s| ==> s[i].query < x.query
    ensures TiesByQuery(InsertByTop1(x, s, descending))
  {
    if s != [] {
      if !InOrder(s[0].sim[0], x.sim[0], descending) {
        assert forall k :: 0 <= k < |s| ==> s[k].sim[0] != x.sim[0] by {
          forall k | 0 < k < |s|
            ensures s[k].sim[0] != x.sim[0]
          {
            assert InOrder(s[0].sim[0], s[k].sim[0], descending);
          }
        }
        ConsKeepsTies(x, s);
      } else {
        var rest := InsertByTop1(x, s[1..], descending);
        InsertKeepsTies(x, s[1..], descending);
        assert forall k :: 0 <= k < |rest| && s[0].sim[0] == rest[k].sim[0] ==> s[0].query < rest[k].query by {
          forall k | 0 <= k < |rest| && rest[k] != x && s[0].sim[0] == rest[k].sim[0]
            ensures s[0].query < rest[k].query
          {
            assert rest[k] in multiset(rest);
            var i :| 0 <= i < |s[1..]| && s[1..][i] == rest[k];
            assert s[i + 1] == rest[k];
          }
        }
        ConsKeepsTies(s[0], rest);
      }
    }
  }

  /** Putting an entry in front keeps ties in query order when it precedes every later
      entry of equal key. */
  lemma ConsKeepsTies(h: SimilarityScore, s: seq<SimilarityScore>)
    requires |h.sim| > 0 && HasTop1(s) && TiesByQuery(s)
    requires forall k :: 0 <= k < |s| && h.sim[0] == s[k].sim[0] ==> h.query < s[k].query
    ensures HasTop1([h] + s) && TiesByQuery([h] + s)
  {
    var r := [h] + s;
    forall i, j | 0 <= i < j < |r| && r[i].sim[0] == r[j].sim[0]
      ensures r[i].query < r[j].query
    {
      if i > 0 {
        assert r[i] == s[i - 1] && r[j] == s[j - 1];
      } else {
        assert r[j] == s[j - 1];
      }
    }
  }

  /** The sort is stable: sorting a list built in ascending query order leaves entries of
      equal key in ascending query order. */
  lemma {:induction false} SortKeepsTies(s: seq<SimilarityScore>, descending: bool)
    requires HasTop1(s) && QueriesAscending(s)
    ensures TiesByQuery(SortByTop1(s, descending))
  {
    if s != [] {
      var last := |s| - 1;
      var init := s[..last];
      var prefix := SortByTop1(init, descending);
      assert QueriesAscending(init);
      SortKeepsTies(init, descending);
      forall i | 0 <= i < |prefix|
        ensures prefix[i].query < s[last].query
      {
        assert prefix[i] in multiset(prefix);
        assert prefix[i] in multiset(init);
        var j :| 0 <= j < last && init[j] == prefix[i];
      }
      InsertKeepsTies(s[last], prefix, descending);
      assert SortByTop1(s, descending) == InsertByTop1(s[last], prefix, descending);
    }
  }

  /** Two lists holding the same entries, both ordered by key and with ties in query
      order, are the same list. */
  lemma {:induction false} SortedUnique(a: seq<SimilarityScore>, b: seq<SimilarityScore>, descending: bool)
    requires HasTop1(a) && HasTop1(b) && multiset(a) == multiset(b)
    requires SortedByTop1(a, descending) && TiesByQuery(a)
    requires SortedByTop1(b, descending) && TiesByQuery(b)
    ensures a == b
  {
    if a == [] {
      assert |b| == |multiset(b)| == 0;
    } else {
      assert |b| == |multiset(b)| == |multiset(a)| == |a|;
      SortedHeads(a, b, descending);
      SortedTail(a, descending);
      SortedTail(b, descending);
      SameTails(a, b);
      SortedUnique(a[1..], b[1..], descending);
      SameTails(a, b);
    }
  }

  /** Lists with the same head hold the same entries exactly when their tails do, and
      are equal exactly when their tails are. */
  lemma SameTails(a: seq<SimilarityScore>, b: seq<SimilarityScore>)
    requires |a| > 0 && |b| > 0 && a[0] == b[0]
    ensures multiset(a) == multiset(b) ==> multiset(a[1..]) == multiset(b[1..])
    ensures a[1..] == b[1..] ==> a == b
  {
    assert a == [a[0]] + a[1..] && b == [b[0]] + b[1..];
    assert multiset(a) == multiset{a[0]} + multiset(a[1..]);
    assert multiset(b) == multiset{a[0]} + multiset(b[1..]);
    assert multiset(a[1..]) == multiset(a) - multiset{a[0]};
    assert multiset(b[1..]) == multiset(b) - multiset{a[0]};
  }

  /** Both lists start with the same entry: the first in key order, then in query order. */
  lemma SortedHeads(a: seq<SimilarityScore>, b: seq<SimilarityScore>, descending: bool)
    requires |a| > 0 && |b| > 0
    requires HasTop1(a) && HasTop1(b) && multiset(a) == multiset(b)
    requires SortedByTop1(a, descending) && TiesByQuery(a)
    requires SortedByTop1(b, descending) && TiesByQuery(b)
    ensures a[0] == b[0]
  {
    assert b[0] in multiset(a) && a[0] in multiset(b);
    var i :| 0 <= i < |a| && a[i] == b[0];
    var j :| 0 <= j < |b| && b[j] == a[0];
    if i > 0 && j > 0 {
      assert false;
    }
  }

  /** The tail of an ordered list is ordered. */
  lemma SortedTail(a: seq<SimilarityScore>, descending: bool)
    requires |a| > 0 && HasTop1(a) && SortedByTop1(a, descending) && TiesByQuery(a)
    ensures HasTop1(a[1..]) && SortedByTop1(a[1..], descending) && TiesByQuery(a[1..])
  {
  }

  /** Any stable sort of a list built in ascending query order gives SortByTop1's result:
      whichever stable algorithm `list.sort` uses, its result is this one. */
  lemma StableSortUnique(s: seq<SimilarityScore>, t: seq<SimilarityScore>, descending: bool)
    requires HasTop1(s) && QueriesAscending(s)
    requires HasTop1(t) && multiset(t) == multiset(s) && SortedByTop1(t, descending) && TiesByQuery(t)
    ensures t == SortByTop1(s, descending)
  {
    SortKeepsTies(s, descending);
    SortedUnique(t, SortByTop1(s, descending), descending);
  }

  /** Appending an entry of a later query keeps the entries shaped and in query order. */
  lemma SnocAscending(s: seq<SimilarityScore>, e: SimilarityScore)
    requires AllShaped(s) && Shaped(e) && QueriesAscending(s)
    requires forall i :: 0 <= i < |s| ==> s[i].query < e.query
    ensures AllShaped(s + [e]) && QueriesAscending(s + [e])
    ensures forall i :: 0 <= i < |s| ==> (s + [e])[i] == s[i]
  {
  }

  /** An entry as `get_top_error` builds it: five gallery indices, scores and flags. */
  predicate Shaped(e: SimilarityScore)
  {
    |e.gallery| == 5 && |e.sim| == 5 && |e.cmc| == 5
  }

  predicate AllShaped(s: seq<SimilarityScore>)
  {
    forall i :: 0 <= i < |s| ==> Shaped(s[i])
  }

  /** The entries whose top-1 flag is a match (correct) or not (!correct), in their
      order: what the query loop appends to `storeCorrect` and `storeWrong`. */
  function Classify(s: seq<SimilarityScore>, correct: bool): seq<SimilarityScore>
    requires AllShaped(s)
  {
    if s == [] then []
    else
      var last := s[|s| - 1];
      Classify(s[..|s| - 1], correct) + (if (last.cmc[0] == 1) == correct then [last] else [])
  }

  /** Classifying one more entry appends it to its class. */
  lemma ClassifySnoc(s: seq<SimilarityScore>, e: SimilarityScore, correct: bool)
    requires AllShaped(s) && Shaped(e)
    ensures AllShaped(s + [e])
    ensures Classify(s + [e], correct) == Classify(s, correct) + (if (e.cmc[0] == 1) == correct then [e] else [])
  {
    assert (s + [e])[..|s|] == s;
  }

  /** Classify keeps exactly the entries of its class, in order. */
  lemma {:induction false} ClassifyMembers(s: seq<SimilarityScore>, correct: bool)
    requires AllShaped(s)
    ensures AllShaped(Classify(s, correct)) && HasTop1(Classify(s, correct))
    ensures forall e :: e in Classify(s, correct) <==> e in s && (e.cmc[0] == 1) == correct
    ensures QueriesAscending(s) ==> QueriesAscending(Classify(s, correct))
  {
    if s != [] {
      var init := s[..|s| - 1];
      ClassifyMembers(init, correct);
      assert s == init + [s[|s| - 1]];
      if QueriesAscending(s) {
        assert QueriesAscending(init);
        var c := Classify(init, correct);
        forall i | 0 <= i < |c|
          ensures c[i].query < s[|s| - 1].query
        {
          assert c[i] in init;
        }
      }
    }
  }

  /** Every classified entry has a top-1 score to sort by. */
  lemma ClassifyHasTop1(s: seq<SimilarityScore>, correct: bool)
    requires AllShaped(s)
    ensures HasTop1(Classify(s, correct))
  {
    ClassifyMembers(s, correct);
  }

  /** The two classes split the entries: together they hold each entry exactly as often. */
  lemma {:induction false} ClassifyPartition(s: seq<SimilarityScore>)
    requires AllShaped(s)
    ensures multiset(Classify(s, true)) + multiset(Classify(s, false)) == multiset(s)
  {
    if s != [] {
      var init, last := s[..|s| - 1], s[|s| - 1];
      ClassifyPartition(init);
      assert s == init + [last];
      assert multiset(s) == multiset(init) + multiset{last};
      if last.cmc[0] == 1 {
        assert Classify(s, true) == Classify(init, true) + [last];
        assert Classify(s, false) == Classify(init, false);
      } else {
        assert Classify(s, true) == Classify(init, true);
        assert Classify(s, false) == Classify(init, false) + [last];
      }
    }
  }

  /** The two stored lists of `get_top_error`, from entries in ascending query order:
      together a permutation of the entries; the correct ones exactly those with a true
      top-1 match, sorted by ascending top-1 score; the wrong ones the others, sorted by
      descending top-1 score; ties in both in ascending query order. */
  lemma TopErrorSplit(s: seq<SimilarityScore>)
    requires AllShaped(s) && QueriesAscending(s)
    ensures HasTop1(Classify(s, true)) && HasTop1(Classify(s, false))
    ensures var correct := SortByTop1(Classify(s, true), false);
            var wrong := SortByTop1(Classify(s, false), true);
            && multiset(correct) + multiset(wrong) == multiset(s)
            && |correct| + |wrong| == |s|
            && (forall e :: e in correct <==> e in s && e.cmc[0] == 1)
            && (forall e :: e in wrong <==> e in s && e.cmc[0] != 1)
            && SortedByTop1(correct, false) && SortedByTop1(wrong, true)
            && TiesByQuery(correct) && TiesByQuery(wrong)
  {
    ClassifyMembers(s, true);
    ClassifyMembers(s, false);
    ClassifyPartition(s);
    assert |multiset(Classify(s, true)) + multiset(Classify(s, false))| == |multiset(s)|;
    SortKeepsTies(Classify(s, true), false);
    SortKeepsTies(Classify(s, false), true);
    var correct := SortByTop1(Classify(s, true), false);
    var wrong := SortByTop1(Classify(s, false), true);
    forall e
      ensures (e in correct <==> e in Classify(s, true)) && (e in wrong <==> e in Classify(s, false))
    {
      assert e in correct <==> e in multiset(correct);
      assert e in wrong <==> e in multiset(wrong);
    }
  }
}
