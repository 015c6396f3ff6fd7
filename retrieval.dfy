/** Labels, junk exclusion and the per-query matched result (`get_matched_result`).
    Each gallery item stands in one of a few relations to a query (same identity or not,
    same camera or not); the source selects those groups with vectorised masks, and
    the model states them with a reference filter, Pick, that the masks are proved to
    agree with. */
module Retrieval {
  import opened Masks
  import opened Ranking

  /** The (pid, camid) label of one test item. */
  datatype Label = Label(pid: int, camid: int)

  /** The gallery's identity and camera arrays, `g_pids` and `g_camids`. */
  datatype GalleryLabels = GalleryLabels(pids: seq<int>, camids: seq<int>)
  {
    predicate Valid()
    {
      |pids| == |camids|
    }
  }

  /** The groups of gallery items the source selects, relative to one query. */
  datatype Group =
    | Kept      // not junk: differs from the query in identity or in camera
    | Junk      // same identity and same camera as the query
    | SamePid   // same identity as the query
    | OtherPid  // a different identity
    | DiffCam   // same identity, different camera

  /** Whether gallery item j belongs to group grp for query q. */
  predicate InGroup(g: GalleryLabels, q: Label, j: nat, grp: Group)
    requires g.Valid() && j < |g.pids|
  {
    var samePid := g.pids[j] == q.pid;
    var sameCam := g.camids[j] == q.camid;
    match grp
    case Kept => !(samePid && sameCam)
    case Junk => samePid && sameCam
    case SamePid => samePid
    case OtherPid => !samePid
    case DiffCam => samePid && !sameCam
  }

  /** Reference filter: the entries of `order` that are in group grp, in their order. */
  function Pick(g: GalleryLabels, q: Label, order: seq<nat>, grp: Group): (r: seq<nat>)
    requires g.Valid() && InRange(order, |g.pids|)
    ensures InRange(r, |g.pids|) && |r| <= |order|
  {
    if order == [] then []
    else (if InGroup(g, q, order[0], grp) then [order[0]] else []) + Pick(g, q, order[1..], grp)
  }

  /** The vectorised mask over a ranking, such as
      `(g_pids[order] == q_pid) & (g_camids[order] == q_camid)` for Junk. */
  function GroupMask(g: GalleryLabels, q: Label, order: seq<nat>, grp: Group): seq<bool>
    requires g.Valid() && InRange(order, |g.pids|)
  {
    seq(|order|, k requires 0 <= k < |order| => InGroup(g, q, order[k], grp))
  }

  /** One row of the match mask: 1 where the ranked gallery item has the query's identity. */
  function MatchRow(gPids: seq<int>, order: seq<nat>, qPid: int): seq<int>
    requires InRange(order, |gPids|)
  {
    seq(|order|, k requires 0 <= k < |order| => if gPids[order[k]] == qPid then 1 else 0)
  }

  /** `matches[i, k]` is 1 exactly when the k-th ranked gallery item has the query's
      identity, and 0 otherwise. */
  lemma MatchRowFlags(gPids: seq<int>, order: seq<nat>, qPid: int)
    requires InRange(order, |gPids|)
    ensures var r := MatchRow(gPids, order, qPid);
      && |r| == |order|
      && forall k :: 0 <= k < |r| ==> r[k] in {0, 1} && (r[k] == 1 <==> gPids[order[k]] == qPid)
  {
  }

  /** The number of flags equal to 1. */
  function Ones(flags: seq<int>): nat
  {
    if flags == [] then 0 else (if flags[0] == 1 then 1 else 0) + Ones(flags[1..])
  }

  /** The number of gallery items with identity pid. */
  function IdentityCount(gPids: seq<int>, pid: int): nat
  {
    if gPids == [] then 0
    else IdentityCount(gPids[..|gPids| - 1], pid) + (if gPids[|gPids| - 1] == pid then 1 else 0)
  }

  /** The number of entries of s that index an item with identity pid. */
  function Hits(gPids: seq<int>, s: seq<nat>, pid: int): nat
    requires InRange(s, |gPids|)
  {
    if s == [] then 0 else (if gPids[s[0]] == pid then 1 else 0) + Hits(gPids, s[1..], pid)
  }

  /** Every row of the match mask has one 1 per gallery item with the query's identity:
      ranking the gallery neither loses nor repeats a true match. */
  lemma MatchRowCount(row: seq<int>, gPids: seq<int>, order: seq<nat>, qPid: int)
    requires |row| == |gPids| && IsRanking(row, order)
    ensures Ones(MatchRow(gPids, order, qPid)) == IdentityCount(gPids, qPid)
  {
    MatchRowHits(gPids, order, qPid);
    HitsPermutation(gPids, order, Range(|gPids|), qPid);
    HitsRange(gPids, |gPids|, qPid);
    assert gPids[..|gPids|] == gPids;
  }

  lemma {:induction false} MatchRowHits(gPids: seq<int>, s: seq<nat>, pid: int)
    requires InRange(s, |gPids|)
    ensures Ones(MatchRow(gPids, s, pid)) == Hits(gPids, s, pid)
  {
    if s != [] {
      assert MatchRow(gPids, s, pid)[1..] == MatchRow(gPids, s[1..], pid);
      MatchRowHits(gPids, s[1..], pid);
    }
  }

  lemma {:induction false} HitsAppend(gPids: seq<int>, a: seq<nat>, b: seq<nat>, pid: int)
    requires InRange(a, |gPids|) && InRange(b, |gPids|)
    ensures InRange(a + b, |gPids|)
    ensures Hits(gPids, a + b, pid) == Hits(gPids, a, pid) + Hits(gPids, b, pid)
  {
    if a == [] {
      assert a + b == b;
    } else {
      assert (a + b)[1..] == a[1..] + b;
      HitsAppend(gPids, a[1..], b, pid);
    }
  }

  /** Hits depends only on which indices occur, not on their order. */
  lemma {:induction false} HitsPermutation(gPids: seq<int>, a: seq<nat>, b: seq<nat>, pid: int)
    requires InRange(a, |gPids|) && InRange(b, |gPids|) && multiset(a) == multiset(b)
    ensures Hits(gPids, a, pid) == Hits(gPids, b, pid)
  {
    if a == [] {
      assert |b| == |multiset(b)| == 0;
    } else {
      assert a[0] in multiset(b);
      var i :| 0 <= i < |b| && b[i] == a[0];
      HitsRemove(gPids, b, i, pid);
      assert a == [a[0]] + a[1..];
      assert multiset(a[1..]) == multiset(a) - multiset{a[0]};
      HitsPermutation(gPids, a[1..], b[..i] + b[i + 1..], pid);
    }
  }

  /** Removing the entry at position i from s takes its hit out of the count. */
  lemma HitsRemove(gPids: seq<int>, s: seq<nat>, i: nat, pid: int)
    requires InRange(s, |gPids|) && i < |s|
    ensures InRange(s[..i] + s[i + 1..], |gPids|)
    ensures multiset(s[..i] + s[i + 1..]) == multiset(s) - multiset{s[i]}
    ensures Hits(gPids, s, pid) == (if gPids[s[i]] == pid then 1 else 0) + Hits(gPids, s[..i] + s[i + 1..], pid)
  {
    var pre, mid, post := s[..i], [s[i]], s[i + 1..];
    assert s == pre + mid + post;
    RemoveMultiset(pre, mid, post);
    assert Hits(gPids, mid, pid) == (if gPids[s[i]] == pid then 1 else 0) by {
      assert mid[1..] == [];
    }
    HitsAppend(gPids, pre + mid, post, pid);
    HitsAppend(gPids, pre, mid, pid);
    HitsAppend(gPids, pre, post, pid);
  }

  lemma RemoveMultiset(pre: seq<nat>, mid: seq<nat>, post: seq<nat>)
    ensures multiset(pre + post) == multiset(pre + mid + post) - multiset(mid)
  {
    assert multiset(pre + mid + post) == multiset(pre) + multiset(mid) + multiset(post);
    assert multiset(pre + post) == multiset(pre) + multiset(post);
  }

  /** Hits over the indices 0..n-1 counts the identity among the first n items. */
  lemma {:induction false} HitsRange(gPids: seq<int>, n: nat, pid: int)
    requires n <= |gPids|
    ensures InRange(Range(n), |gPids|)
    ensures Hits(gPids, Range(n), pid) == IdentityCount(gPids[..n], pid)
  {
    if n > 0 {
      HitsRange(gPids, n - 1, pid);
      assert Range(n) == Range(n - 1) + [n - 1];
      HitsAppend(gPids, Range(n - 1), [n - 1], pid);
      assert gPids[..n][..n - 1] == gPids[..n - 1];
    }
  }

  /** `distmat[i, idx]`: the scores of the given gallery indices in one similarity row. */
  function Scores(row: seq<int>, idx: seq<nat>): seq<int>
    requires InRange(idx, |row|)
  {
    seq(|idx|, k requires 0 <= k < |idx| => row[idx[k]])
  }

  /** What `get_matched_result` returns: the match flags and the gallery indices of the
      ranking once the junk items are removed. */
  datatype Matched = Matched(cmc: seq<int>, sortIdx: seq<nat>)

  /** Junk exclusion for one query (`get_matched_result`): removes from the ranking and from
      its match row every gallery item with the query's identity AND camera. */
  function MatchedResultOf(g: GalleryLabels, q: Label, order: seq<nat>, matchRow: seq<int>): (m: Matched)
    requires g.Valid() && InRange(order, |g.pids|)
    requires matchRow == MatchRow(g.pids, order, q.pid)
    ensures |m.cmc| == |m.sortIdx|
    ensures m.sortIdx == Pick(g, q, order, Kept)
    ensures forall k :: 0 <= k < |m.cmc| ==> m.cmc[k] in {0, 1}
    ensures forall k :: 0 <= k < |m.cmc| ==> (m.cmc[k] == 1 <==> g.pids[m.sortIdx[k]] == q.pid)
  {
    var keep := GroupMask(g, q, order, Kept);
    SelectIsPick(g, q, order, Kept);
    SelectMatchRow(g.pids, order, q.pid, keep);
    Matched(Select(matchRow, keep), Select(order, keep))
  }

  lemma SelectInRange(order: seq<nat>, keep: seq<bool>, n: nat)
    requires |keep| == |order| && InRange(order, n)
    ensures InRange(Select(order, keep), n)
  {
    var r := Select(order, keep);
    forall k | 0 <= k < |r|
      ensures r[k] < n
    {
      assert r[k] in r;
    }
  }

  /** The numpy mask selects exactly what the reference filter picks. */
  lemma {:induction false} SelectIsPick(g: GalleryLabels, q: Label, order: seq<nat>, grp: Group)
    requires g.Valid() && InRange(order, |g.pids|)
    ensures Select(order, GroupMask(g, q, order, grp)) == Pick(g, q, order, grp)
  {
    if order != [] {
      assert GroupMask(g, q, order, grp)[1..] == GroupMask(g, q, order[1..], grp);
      SelectIsPick(g, q, order[1..], grp);
    }
  }

  /** Masking the match row is the match row of the masked ranking. */
  lemma {:induction false} SelectMatchRow(gPids: seq<int>, order: seq<nat>, qPid: int, keep: seq<bool>)
    requires InRange(order, |gPids|) && |keep| == |order|
    ensures InRange(Select(order, keep), |gPids|)
    ensures Select(MatchRow(gPids, order, qPid), keep) == MatchRow(gPids, Select(order, keep), qPid)
  {
    SelectInRange(order, keep, |gPids|);
    if order != [] {
      assert MatchRow(gPids, order, qPid)[1..] == MatchRow(gPids, order[1..], qPid);
      SelectMatchRow(gPids, order[1..], qPid, keep[1..]);
      SelectInRange(order[1..], keep[1..], |gPids|);
      var tail := Select(order[1..], keep[1..]);
      if keep[0] {
        assert Select(order, keep) == [order[0]] + tail;
        assert MatchRow(gPids, [order[0]] + tail, qPid)
            == MatchRow(gPids, [order[0]], qPid) + MatchRow(gPids, tail, qPid);
      } else {
        assert Select(order, keep) == tail;
      }
    }
  }

  /** Pick keeps exactly the members of the group. */
  lemma {:induction false} PickMembers(g: GalleryLabels, q: Label, order: seq<nat>, grp: Group)
    requires g.Valid() && InRange(order, |g.pids|)
    ensures forall j :: j in Pick(g, q, order, grp) <==> j in order && j < |g.pids| && InGroup(g, q, j, grp)
  {
    if order != [] {
      PickMembers(g, q, order[1..], grp);
      assert order == [order[0]] + order[1..];
    }
  }

  /** Pick keeps the relative order: a subsequence of a ranking is still ranked. */
  lemma {:induction false} PickSorted(row: seq<int>, g: GalleryLabels, q: Label, order: seq<nat>, grp: Group)
    requires g.Valid() && |row| == |g.pids| && InRange(order, |row|) && SortedDesc(row, order)
    ensures SortedDesc(row, Pick(g, q, order, grp))
  {
    if order != [] {
      PickSorted(row, g, q, order[1..], grp);
      PickMembers(g, q, order[1..], grp);
      var rest := Pick(g, q, order[1..], grp);
      forall k | 0 <= k < |rest|
        ensures row[order[0]] >= row[rest[k]]
      {
        assert rest[k] in order[1..];
      }
    }
  }

  /** Picking at the end of a sequence: what an appending loop builds. */
  lemma {:induction false} PickSnoc(g: GalleryLabels, q: Label, order: seq<nat>, j: nat, grp: Group)
    requires g.Valid() && InRange(order, |g.pids|) && j < |g.pids|
    ensures InRange(order + [j], |g.pids|)
    ensures Pick(g, q, order + [j], grp)
         == Pick(g, q, order, grp) + (if InGroup(g, q, j, grp) then [j] else [])
  {
    if order != [] {
      assert (order + [j])[1..] == order[1..] + [j];
      PickSnoc(g, q, order[1..], j, grp);
    }
  }

  /** The positives of the kept ranking are the same-identity, other-camera items. */
  lemma {:induction false} PickKeptSamePid(g: GalleryLabels, q: Label, order: seq<nat>)
    requires g.Valid() && InRange(order, |g.pids|)
    ensures Pick(g, q, Pick(g, q, order, Kept), SamePid) == Pick(g, q, order, DiffCam)
  {
    if order != [] {
      PickKeptSamePid(g, q, order[1..]);
      var kept := Pick(g, q, order[1..], Kept);
      if InGroup(g, q, order[0], Kept) {
        assert Pick(g, q, order, Kept) == [order[0]] + kept;
        assert ([order[0]] + kept)[1..] == kept;
      } else {
        assert Pick(g, q, order, Kept) == kept;
        assert !InGroup(g, q, order[0], DiffCam);
        assert Pick(g, q, order, DiffCam) == Pick(g, q, order[1..], DiffCam);
      }
    }
  }

  /** The negatives of the kept ranking are all the other-identity items: none is junk. */
  lemma {:induction false} PickKeptOtherPid(g: GalleryLabels, q: Label, order: seq<nat>)
    requires g.Valid() && InRange(order, |g.pids|)
    ensures Pick(g, q, Pick(g, q, order, Kept), OtherPid) == Pick(g, q, order, OtherPid)
  {
    if order != [] {
      PickKeptOtherPid(g, q, order[1..]);
      var kept := Pick(g, q, order[1..], Kept);
      if InGroup(g, q, order[0], Kept) {
        assert Pick(g, q, order, Kept) == [order[0]] + kept;
        assert ([order[0]] + kept)[1..] == kept;
      } else {
        assert Pick(g, q, order, Kept) == kept;
        assert !InGroup(g, q, order[0], OtherPid);
        assert Pick(g, q, order, OtherPid) == Pick(g, q, order[1..], OtherPid);
      }
    }
  }

  /** The kept ranking and the junk items split the ranking; so do same and other identity. */
  lemma {:induction false} PickComplements(g: GalleryLabels, q: Label, order: seq<nat>)
    requires g.Valid() && InRange(order, |g.pids|)
    ensures |Pick(g, q, order, Kept)| + |Pick(g, q, order, Junk)| == |order|
    ensures |Pick(g, q, order, SamePid)| + |Pick(g, q, order, OtherPid)| == |order|
  {
    if order != [] {
      PickComplements(g, q, order[1..]);
    }
  }

  /** One step of a loop that appends the scores of the group members of s[..j+1]. */
  lemma PickScoresStep(row: seq<int>, g: GalleryLabels, q: Label, s: seq<nat>, j: nat, grp: Group)
    requires g.Valid() && |row| == |g.pids| && InRange(s, |row|) && j < |s|
    ensures Scores(row, Pick(g, q, s[..j + 1], grp))
         == Scores(row, Pick(g, q, s[..j], grp)) + (if InGroup(g, q, s[j], grp) then [row[s[j]]] else [])
  {
    assert s[..j + 1] == s[..j] + [s[j]];
    PickSnoc(g, q, s[..j], s[j], grp);
    ScoresAppend(row, Pick(g, q, s[..j], grp), if InGroup(g, q, s[j], grp) then [s[j]] else []);
  }

  lemma ScoresAppend(row: seq<int>, a: seq<nat>, b: seq<nat>)
    requires InRange(a, |row|) && InRange(b, |row|)
    ensures InRange(a + b, |row|)
    ensures Scores(row, a + b) == Scores(row, a) + Scores(row, b)
  {
  }
}
