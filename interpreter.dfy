/** `ReidInterpretation`: the retrieval-evaluation object of a person re-identification
    model. It splits the test labels into queries and gallery, ranks the gallery for each
    query by similarity, marks identity matches, removes junk (same identity and same
    camera), collects the top-5 errors and samples similarity distributions.
    The similarity matrix is an input: feature extraction and the matrix product that
    produce it are not part of this model, and scores are abstract ordered values. */
module Interpreter {
  import opened Ranking
  import opened Retrieval
  import opened TopError

  /** Python's IndexError. */
  datatype Error = IndexOutOfRange

  datatype Result<T> = Ok(value: T) | Err(error: Error)

  datatype Outcome = Pass | Fail(error: Error)

  /** `len(pids[:num_q])`: Python slicing clamps the split point to the list length. */
  function QueryCount(total: nat, numQ: nat): (n: nat)
    ensures n <= total && n <= numQ
    ensures numQ <= total ==> n == numQ
    ensures numQ > total ==> n == total
  {
    if numQ <= total then numQ else total
  }

  /** A rows x cols matrix. */
  predicate IsMatrix(m: seq<seq<int>>, rows: nat, cols: nat)
  {
    |m| == rows && forall i :: 0 <= i < |m| ==> |m[i]| == cols
  }

  /** The label loop and split of `get_distmat`: the pids and camids of the labels, cut
      at num_q into the query part and the gallery part. */
  method SplitLabels(labels: seq<Label>, numQ: nat)
    returns (qPids: seq<int>, gPids: seq<int>, qCamids: seq<int>, gCamids: seq<int>)
    ensures |qPids| == |qCamids| == QueryCount(|labels|, numQ)
    ensures |gPids| == |gCamids| == |labels| - QueryCount(|labels|, numQ)
    ensures forall k :: 0 <= k < |qPids| ==> qPids[k] == labels[k].pid && qCamids[k] == labels[k].camid
    ensures forall k :: 0 <= k < |gPids| ==>
              gPids[k] == labels[|qPids| + k].pid && gCamids[k] == labels[|qPids| + k].camid
  {
    var pids: seq<int> := [];
    var camids: seq<int> := [];
    for i := 0 to |labels|
      invariant |pids| == |camids| == i
      invariant forall k :: 0 <= k < i ==> pids[k] == labels[k].pid && camids[k] == labels[k].camid
    {
      pids := pids + [labels[i].pid];
      camids := camids + [labels[i].camid];
    }
    var n := QueryCount(|labels|, numQ);
    qPids, gPids := pids[..n], pids[n..];
    qCamids, gCamids := camids[..n], camids[n..];
  }

  /** The fields of a `ReidInterpretation` that `get_distmat` sets, as one value: num_q,
      the query and gallery labels, the similarity matrix, its rankings (`indices`) and
      the match mask (`matches`). The read-only operations are stated on it. */
  datatype Evaluation = Evaluation(
    numQ: nat,
    qPids: seq<int>, gPids: seq<int>, qCamids: seq<int>, gCamids: seq<int>,
    distmat: seq<seq<int>>, indices: seq<seq<nat>>, matches: seq<seq<int>>)
  {
    /** The shapes `get_distmat` establishes: labels of matching lengths, a similarity
        matrix of shape queries x gallery, a row of gallery indices per query and the
        match mask of each such row. */
    ghost predicate WellFormed()
    {
      && |qCamids| == |qPids| && |gCamids| == |gPids|
      && |distmat| == |qPids| && |indices| == |qPids| && |matches| == |qPids|
      && forall i :: 0 <= i < |qPids| ==>
           && |distmat[i]| == |gPids|
           && InRange(indices[i], |gPids|)
           && matches[i] == MatchRow(gPids, indices[i], qPids[i])
    }

    /** What `get_distmat` establishes: the shapes above, and every row of indices is a
        ranking of its similarity row. */
    ghost predicate Valid()
    {
      && WellFormed()
      && forall i :: 0 <= i < |qPids| ==> IsRanking(distmat[i], indices[i])
    }

    function Gallery(): GalleryLabels
    {
      GalleryLabels(gPids, gCamids)
    }

    function Query(q: nat): Label
      requires q < |qPids| && q < |qCamids|
    {
      Label(qPids[q], qCamids[q])
    }

    /** `get_matched_result` for a query index already in range. */
    function MatchedResult(q: nat): Matched
      requires WellFormed() && q < |qPids|
    {
      MatchedResultOf(Gallery(), Query(q), indices[q], matches[q])
    }

    /** `get_matched_result(q_index)` with Python's indexing: a negative index counts
        from the end, and one outside [-n, n) raises IndexError. */
    function GetMatchedResult(qIndex: int): (r: Result<Matched>)
      requires WellFormed()
      ensures r.Err? <==> !(-|qPids| <= qIndex < |qPids|)
      ensures r.Ok? ==>
                var q := if qIndex < 0 then qIndex + |qPids| else qIndex;
                && |r.value.cmc| == |r.value.sortIdx|
                && r.value.sortIdx == Pick(Gallery(), Query(q), indices[q], Kept)
                && forall k :: 0 <= k < |r.value.cmc| ==>
                     && r.value.cmc[k] in {0, 1}
                     && (r.value.cmc[k] == 1 <==> gPids[r.value.sortIdx[k]] == qPids[q])
    {
      if 0 <= qIndex < |qPids| then Ok(MatchedResult(qIndex))
      else if -|qPids| <= qIndex < 0 then Ok(MatchedResult(qIndex + |qPids|))
      else Err(IndexOutOfRange)
    }

    /** Query q has an entry in `get_top_error`: it exists and keeps at least 5 results. */
    predicate Ready(q: nat)
      requires WellFormed()
    {
      q < |qPids| && |MatchedResult(q).sortIdx| >= 5
    }

    predicate AllReady(n: nat)
      requires WellFormed()
    {
      forall q :: 0 <= q < n ==> Ready(q)
    }

    /** The `similarity_score` entry of query q: its five best kept results, as test-set
        indices, with their scores and match flags. */
    function Entry(q: nat): (e: SimilarityScore)
      requires WellFormed() && Ready(q)
      ensures e.query == q && Shaped(e)
    {
      var m := MatchedResult(q);
      SimilarityScore(q,
        seq(5, k requires 0 <= k < 5 => numQ + m.sortIdx[k]),
        seq(5, k requires 0 <= k < 5 => distmat[q][m.sortIdx[k]]),
        m.cmc[..5])
    }

    /** The entries of queries 0..n-1, in query order. */
    function Entries(n: nat): (s: seq<SimilarityScore>)
      requires WellFormed() && AllReady(n)
      ensures |s| == n
    {
      if n == 0 then [] else Entries(n - 1) + [Entry(n - 1)]
    }

    /** The lists the query loop of `get_top_error` holds after queries 0..n-1. */
    ghost predicate Collected(n: nat, correct: seq<SimilarityScore>, wrong: seq<SimilarityScore>)
      requires WellFormed()
    {
      && AllReady(n) && AllShaped(Entries(n))
      && correct == Classify(Entries(n), true) && wrong == Classify(Entries(n), false)
    }

    /** The positive scores of query q: its kept results with the query's identity. */
    function PositivesOf(q: nat): seq<int>
      requires WellFormed() && q < |qPids|
    {
      Scores(distmat[q], Pick(Gallery(), Query(q), MatchedResult(q).sortIdx, SamePid))
    }

    /** The negative scores of query q: its kept results with another identity. */
    function NegativesOf(q: nat): seq<int>
      requires WellFormed() && q < |qPids|
    {
      Scores(distmat[q], Pick(Gallery(), Query(q), MatchedResult(q).sortIdx, OtherPid))
    }

    function PosSims(n: nat): seq<int>
      requires WellFormed() && n <= |qPids|
    {
      if n == 0 then [] else PosSims(n - 1) + PositivesOf(n - 1)
    }

    function NegSims(n: nat): seq<int>
      requires WellFormed() && n <= |qPids|
    {
      if n == 0 then [] else NegSims(n - 1) + NegativesOf(n - 1)
    }

    /** The number of kept results over queries 0..n-1. */
    function KeptTotal(n: nat): nat
      requires WellFormed() && n <= |qPids|
    {
      if n == 0 then 0 else KeptTotal(n - 1) + |MatchedResult(n - 1).cmc|
    }

    /** The same-camera scores of query q: its junk items, in rank order. */
    function SameCamOf(q: nat): seq<int>
      requires WellFormed() && q < |qPids|
    {
      Scores(distmat[q], Pick(Gallery(), Query(q), indices[q], Junk))
    }

    /** The different-camera scores of query q: same identity, other camera, in rank order. */
    function DiffCamOf(q: nat): seq<int>
      requires WellFormed() && q < |qPids|
    {
      Scores(distmat[q], Pick(Gallery(), Query(q), indices[q], DiffCam))
    }

    function SameCams(n: nat): seq<int>
      requires WellFormed() && n <= |qPids|
    {
      if n == 0 then [] else SameCams(n - 1) + SameCamOf(n - 1)
    }

    function DiffCams(n: nat): seq<int>
      requires WellFormed() && n <= |qPids|
    {
      if n == 0 then [] else DiffCams(n - 1) + DiffCamOf(n - 1)
    }
  }

  /** The query loop of `get_top_error`: the entries of the queries 0..num_q-1 with a
      true top-1 match (correct) and the others (wrong), each in query order. A query
      index past the queries, or a query with fewer than 5 kept results, raises
      IndexError. */
  method CollectEntries(d: Evaluation) returns (res: Outcome, correct: seq<SimilarityScore>, wrong: seq<SimilarityScore>)
    requires d.WellFormed()
    ensures res.Pass? <==> d.AllReady(d.numQ)
    ensures res.Pass? ==> AllShaped(d.Entries(d.numQ))
    ensures res.Pass? ==> correct == Classify(d.Entries(d.numQ), true) && wrong == Classify(d.Entries(d.numQ), false)
  {
    correct, wrong := [], [];
    var qIndex := 0;
    while qIndex < d.numQ
      invariant qIndex <= d.numQ && d.Collected(qIndex, correct, wrong)
    {
      if qIndex >= |d.qPids| {
        assert !d.Ready(qIndex);
        return Fail(IndexOutOfRange), correct, wrong;
      }
      var m := d.MatchedResult(qIndex);
      if |m.sortIdx| < 5 {
        assert !d.Ready(qIndex);
        return Fail(IndexOutOfRange), correct, wrong;
      }
      TopErrorStep(d, qIndex, correct, wrong);
      var item := d.Entry(qIndex);
      if m.cmc[0] == 1 {
        correct := correct + [item];
      } else {
        wrong := wrong + [item];
      }
      qIndex := qIndex + 1;
    }
    res := Pass;
  }

  /** The inner loop of `plot_positve_negative_dist` for one query: appends the score of
      each kept result to `pos_sim` when its match flag is 1 and to `neg_sim` otherwise. */
  method SampleQuery(row: seq<int>, g: GalleryLabels, query: Label, cmc: seq<int>, sortIdx: seq<nat>,
                     pos0: seq<int>, neg0: seq<int>)
    returns (posSim: seq<int>, negSim: seq<int>)
    requires g.Valid() && |row| == |g.pids| && InRange(sortIdx, |row|) && |cmc| == |sortIdx|
    requires forall k :: 0 <= k < |cmc| ==> (cmc[k] == 1 <==> g.pids[sortIdx[k]] == query.pid)
    ensures posSim == pos0 + Scores(row, Pick(g, query, sortIdx, SamePid))
    ensures negSim == neg0 + Scores(row, Pick(g, query, sortIdx, OtherPid))
  {
    posSim, negSim := pos0, neg0;
    for j := 0 to |cmc|
      invariant posSim == pos0 + Scores(row, Pick(g, query, sortIdx[..j], SamePid))
      invariant negSim == neg0 + Scores(row, Pick(g, query, sortIdx[..j], OtherPid))
    {
      PickScoresStep(row, g, query, sortIdx, j, SamePid);
      PickScoresStep(row, g, query, sortIdx, j, OtherPid);
      if cmc[j] == 1 {
        posSim := posSim + [row[sortIdx[j]]];
      } else {
        negSim := negSim + [row[sortIdx[j]]];
      }
    }
    assert sortIdx[..|cmc|] == sortIdx;
  }

  class ReidInterpretation {
    const numQ: nat
    const testLabels: seq<Label>
    var qPids: seq<int>
    var gPids: seq<int>
    var qCamids: seq<int>
    var gCamids: seq<int>
    var distmat: seq<seq<int>>
    var indices: seq<seq<nat>>
    var matches: seq<seq<int>>
    var storeCorrect: seq<SimilarityScore>
    var storeWrong: seq<SimilarityScore>

    /** The fields `get_distmat` sets. */
    function State(): Evaluation
      reads this`qPids, this`gPids, this`qCamids, this`gCamids, this`distmat, this`indices, this`matches
    {
      Evaluation(numQ, qPids, gPids, qCamids, gCamids, distmat, indices, matches)
    }

    ghost predicate Valid()
      reads this`qPids, this`gPids, this`qCamids, this`gCamids, this`distmat, this`indices, this`matches
    {
      State().Valid()
    }

    /** `__init__`: stores the labels and num_q, then runs `get_distmat` on the
        similarity matrix the model's features give. */
    constructor (labels: seq<Label>, numQ: nat, sims: seq<seq<int>>)
      requires IsMatrix(sims, QueryCount(|labels|, numQ), |labels| - QueryCount(|labels|, numQ))
      ensures Valid()
      ensures this.numQ == numQ && testLabels == labels && distmat == sims
      ensures forall i, k :: 0 <= i < |matches| && 0 <= k < |matches[i]| ==>
                matches[i][k] in {0, 1} && (matches[i][k] == 1 <==> gPids[indices[i][k]] == qPids[i])
      ensures |qPids| == QueryCount(|labels|, numQ) && |qPids| + |gPids| == |labels|
      ensures forall k :: 0 <= k < |qPids| ==> qPids[k] == labels[k].pid && qCamids[k] == labels[k].camid
      ensures forall k :: 0 <= k < |gPids| ==>
                gPids[k] == labels[|qPids| + k].pid && gCamids[k] == labels[|qPids| + k].camid
      ensures storeCorrect == [] && storeWrong == []
    {
      this.numQ := numQ;
      testLabels := labels;
      storeCorrect, storeWrong := [], [];
      new;
      GetDistmat(sims);
    }

    /** `get_distmat`: splits the labels, stores the similarity matrix, ranks every row
        by non-increasing similarity and builds the match mask. */
    method GetDistmat(sims: seq<seq<int>>)
      requires IsMatrix(sims, QueryCount(|testLabels|, numQ), |testLabels| - QueryCount(|testLabels|, numQ))
      modifies this`qPids, this`gPids, this`qCamids, this`gCamids, this`distmat, this`indices, this`matches
      ensures Valid() && distmat == sims
      ensures forall i, k :: 0 <= i < |matches| && 0 <= k < |matches[i]| ==>
                matches[i][k] in {0, 1} && (matches[i][k] == 1 <==> gPids[indices[i][k]] == qPids[i])
      ensures |qPids| == QueryCount(|testLabels|, numQ) && |qPids| + |gPids| == |testLabels|
      ensures forall k :: 0 <= k < |qPids| ==> qPids[k] == testLabels[k].pid && qCamids[k] == testLabels[k].camid
      ensures forall k :: 0 <= k < |gPids| ==>
                gPids[k] == testLabels[|qPids| + k].pid && gCamids[k] == testLabels[|qPids| + k].camid
    {
      var qp, gp, qc, gc := SplitLabels(testLabels, numQ);
      var order := seq(|sims|, i requires 0 <= i < |sims| => Argsort(sims[i]));
      var mask := seq(|sims|, i requires 0 <= i < |sims| => MatchRow(gp, order[i], qp[i]));
      assert Evaluation(numQ, qp, gp, qc, gc, sims, order, mask).Valid();
      forall i | 0 <= i < |sims| {
        MatchRowFlags(gp, order[i], qp[i]);
      }
      qPids, gPids, qCamids, gCamids := qp, gp, qc, gc;
      distmat, indices, matches := sims, order, mask;
    }

    /** `get_top_error`: classifies every query by its top-1 kept result and stores the
        correct entries by ascending, the wrong ones by descending top-1 similarity.
        When the query loop raises IndexError nothing is stored. */
    method GetTopError() returns (res: Outcome)
      requires Valid()
      modifies this`storeCorrect, this`storeWrong
      ensures res.Pass? <==> old(State()).AllReady(numQ)
      ensures res.Pass? ==> AllShaped(old(State()).Entries(numQ))
      ensures res.Pass? ==> HasTop1(Classify(old(State()).Entries(numQ), true))
      ensures res.Pass? ==> HasTop1(Classify(old(State()).Entries(numQ), false))
      ensures res.Pass? ==> storeCorrect == SortByTop1(Classify(old(State()).Entries(numQ), true), false)
      ensures res.Pass? ==> storeWrong == SortByTop1(Classify(old(State()).Entries(numQ), false), true)
      ensures res.Fail? ==> storeCorrect == old(storeCorrect) && storeWrong == old(storeWrong)
    {
      var d := State();
      var correct, wrong;
      res, correct, wrong := CollectEntries(d);
      if res.Pass? {
        ClassifyHasTop1(d.Entries(numQ), true);
        ClassifyHasTop1(d.Entries(numQ), false);
        storeCorrect := SortByTop1(correct, false);
        storeWrong := SortByTop1(wrong, true);
      }
    }

    /** The list building of `plot_positve_negative_dist`: the score of every kept
        result, to `pos_sim` when it is a match and to `neg_sim` otherwise. */
    method PositiveNegativeDist() returns (posSim: seq<int>, negSim: seq<int>)
      requires Valid()
      ensures posSim == State().PosSims(|qPids|) && negSim == State().NegSims(|qPids|)
    {
      var d := State();
      posSim, negSim := [], [];
      var i := 0;
      while i < |d.qPids|
        invariant i <= |d.qPids|
        invariant posSim == d.PosSims(i) && negSim == d.NegSims(i)
      {
        var m := d.MatchedResult(i);
        posSim, negSim := SampleQuery(d.distmat[i], d.Gallery(), d.Query(i), m.cmc, m.sortIdx, posSim, negSim);
        i := i + 1;
      }
    }

    /** The list building of `plot_same_cam_diff_cam_dist`: over the unfiltered ranking,
        the scores of same-identity items, split by whether the camera is the query's. */
    method SameCamDiffCamDist() returns (sameCam: seq<int>, diffCam: seq<int>)
      requires Valid()
      ensures sameCam == State().SameCams(|qPids|) && diffCam == State().DiffCams(|qPids|)
    {
      var d := State();
      sameCam, diffCam := [], [];
      var i := 0;
      while i < |d.qPids|
        invariant i <= |d.qPids|
        invariant sameCam == d.SameCams(i) && diffCam == d.DiffCams(i)
      {
        var order := d.indices[i];
        var g, query := d.Gallery(), d.Query(i);
        var same := GroupMask(g, query, order, Junk);
        var diff := GroupMask(g, query, order, DiffCam);
        SelectIsPick(g, query, order, Junk);
        SelectIsPick(g, query, order, DiffCam);
        var sameCamIdx := Masks.Select(order, same);
        var diffCamIdx := Masks.Select(order, diff);
        sameCam := sameCam + Scores(d.distmat[i], sameCamIdx);
        diffCam := diffCam + Scores(d.distmat[i], diffCamIdx);
        i := i + 1;
      }
    }
  }

  /** Row i of `matches` holds one 1 for each gallery item with query i's identity. */
  lemma MatchesCount(d: Evaluation, i: nat)
    requires d.Valid() && i < |d.qPids|
    ensures Ones(d.matches[i]) == IdentityCount(d.gPids, d.qPids[i])
  {
    MatchRowCount(d.distmat[i], d.gPids, d.indices[i], d.qPids[i]);
  }

  /** An entry of `get_top_error` describes the five best kept results of its query: test-set
      indices of gallery items that are not junk, their scores in non-increasing order and
      their match flags. */
  lemma EntryIsTopFive(d: Evaluation, q: nat)
    requires d.Valid() && d.Ready(q)
    ensures |d.MatchedResult(q).cmc| >= 5
    ensures var e := d.Entry(q);
      && (forall k :: 0 <= k < 5 ==> e.gallery[k] == d.numQ + Pick(d.Gallery(), d.Query(q), d.indices[q], Kept)[k])
      && e.cmc == d.MatchedResult(q).cmc[..5]
      && (forall k :: 0 <= k < 5 ==> d.numQ <= e.gallery[k] < d.numQ + |d.gPids|)
      && (forall k :: 0 <= k < 5 ==> e.sim[k] == d.distmat[q][e.gallery[k] - d.numQ])
      && (forall k :: 0 <= k < 5 ==> !InGroup(d.Gallery(), d.Query(q), e.gallery[k] - d.numQ, Junk))
      && (forall k :: 0 <= k < 5 ==> (e.cmc[k] == 1 <==> d.gPids[e.gallery[k] - d.numQ] == d.qPids[q]))
      && (forall i, j :: 0 <= i < j < 5 ==> e.sim[i] >= e.sim[j])
  {
    var e, m, row := d.Entry(q), d.MatchedResult(q), d.distmat[q];
    var g, query, order := d.Gallery(), d.Query(q), d.indices[q];
    assert SortedDesc(row, m.sortIdx) by {
      PickSorted(row, g, query, order, Kept);
    }
    assert forall k :: 0 <= k < 5 ==> InGroup(g, query, m.sortIdx[k], Kept) by {
      PickMembers(g, query, order, Kept);
      assert forall k :: 0 <= k < 5 ==> m.sortIdx[k] in m.sortIdx;
    }
    assert forall k :: 0 <= k < 5 ==>
      e.gallery[k] - d.numQ == m.sortIdx[k] && e.sim[k] == row[m.sortIdx[k]] && e.cmc[k] == m.cmc[k];
  }

  /** No kept gallery item outside an entry scores above the entry's fifth score. */
  lemma EntryBeatsOthers(d: Evaluation, q: nat)
    requires d.Valid() && d.Ready(q)
    ensures var e := d.Entry(q);
      forall j :: 0 <= j < |d.gPids| && InGroup(d.Gallery(), d.Query(q), j, Kept) && d.numQ + j !in e.gallery
        ==> d.distmat[q][j] <= e.sim[4]
  {
    var e, m, row := d.Entry(q), d.MatchedResult(q), d.distmat[q];
    var g, query, order := d.Gallery(), d.Query(q), d.indices[q];
    PickSorted(row, g, query, order, Kept);
    PickMembers(g, query, order, Kept);
    RankingIsPermutation(row, order);
    assert forall k :: 0 <= k < 5 ==> e.gallery[k] == d.numQ + m.sortIdx[k];
    forall j | 0 <= j < |d.gPids| && InGroup(g, query, j, Kept) && d.numQ + j !in e.gallery
      ensures row[j] <= e.sim[4]
    {
      assert j in order;
      assert j in m.sortIdx;
      var p :| 0 <= p < |m.sortIdx| && m.sortIdx[p] == j;
      assert p >= 5;
    }
  }

  /** One pass of the query loop of `get_top_error`. */
  lemma TopErrorStep(d: Evaluation, q: nat, correct: seq<SimilarityScore>, wrong: seq<SimilarityScore>)
    requires d.WellFormed() && d.Collected(q, correct, wrong) && d.Ready(q)
    ensures d.MatchedResult(q).cmc[0] == d.Entry(q).cmc[0]
    ensures d.Collected(q + 1, correct + (if d.Entry(q).cmc[0] == 1 then [d.Entry(q)] else []),
                               wrong + (if d.Entry(q).cmc[0] == 1 then [] else [d.Entry(q)]))
  {
    var s, e := d.Entries(q), d.Entry(q);
    assert d.AllReady(q + 1);
    assert d.Entries(q + 1) == s + [e];
    ClassifySnoc(s, e, true);
    ClassifySnoc(s, e, false);
  }

  /** The entries are those of the queries 0..n-1, one per query, in query order. */
  lemma {:induction false} EntriesAreQueries(d: Evaluation, n: nat)
    requires d.WellFormed() && d.AllReady(n)
    ensures AllShaped(d.Entries(n)) && QueriesAscending(d.Entries(n))
    ensures forall q :: 0 <= q < n ==> d.Entries(n)[q] == d.Entry(q)
  {
    if n > 0 {
      assert d.AllReady(n - 1);
      EntriesAreQueries(d, n - 1);
      var s, e := d.Entries(n - 1), d.Entry(n - 1);
      SnocAscending(s, e);
    }
  }

  /** What `get_top_error` stores: every query 0..num_q-1 lands in exactly one list, in the
      correct list exactly when its top-1 kept result is a true match; the correct list is
      by ascending and the wrong list by descending top-1 score, ties in query order. */
  lemma TopErrorPartition(d: Evaluation)
    requires d.WellFormed() && d.AllReady(d.numQ)
    ensures AllShaped(d.Entries(d.numQ))
    ensures HasTop1(Classify(d.Entries(d.numQ), true)) && HasTop1(Classify(d.Entries(d.numQ), false))
    ensures var correct := SortByTop1(Classify(d.Entries(d.numQ), true), false);
            var wrong := SortByTop1(Classify(d.Entries(d.numQ), false), true);
            && |correct| + |wrong| == d.numQ
            && (forall q :: 0 <= q < d.numQ ==> (d.Entry(q) in correct <==> d.Entry(q).cmc[0] == 1))
            && (forall q :: 0 <= q < d.numQ ==> (d.Entry(q) in wrong <==> d.Entry(q).cmc[0] != 1))
            && (forall e :: e in correct || e in wrong ==> e.query < d.numQ && e == d.Entry(e.query))
            && SortedByTop1(correct, false) && SortedByTop1(wrong, true)
            && TiesByQuery(correct) && TiesByQuery(wrong)
  {
    var s := d.Entries(d.numQ);
    EntriesAreQueries(d, d.numQ);
    TopErrorSplit(s);
    forall e | e in s
      ensures e.query < d.numQ && e == d.Entry(e.query)
    {
      var q :| 0 <= q < |s| && s[q] == e;
    }
    forall q | 0 <= q < d.numQ
      ensures d.Entry(q) in s
    {
      assert s[q] == d.Entry(q);
    }
  }

  /** The positives of a query are its same-identity, other-camera items and its
      negatives all its other-identity items, both in rank order. */
  lemma QuerySamples(d: Evaluation, q: nat)
    requires d.WellFormed() && q < |d.qPids|
    ensures d.PositivesOf(q) == d.DiffCamOf(q)
    ensures d.NegativesOf(q) == Scores(d.distmat[q], Pick(d.Gallery(), d.Query(q), d.indices[q], OtherPid))
  {
    var g, query, order := d.Gallery(), d.Query(q), d.indices[q];
    PickKeptSamePid(g, query, order);
    PickKeptOtherPid(g, query, order);
  }

  /** A query's positives and negatives are together as many as its kept results. */
  lemma QuerySampleCount(d: Evaluation, q: nat)
    requires d.WellFormed() && q < |d.qPids|
    ensures |d.PositivesOf(q)| + |d.NegativesOf(q)| == |d.MatchedResult(q).cmc|
  {
    PickComplements(d.Gallery(), d.Query(q), d.MatchedResult(q).sortIdx);
  }

  /** `plot_positve_negative_dist` samples every kept result exactly once. */
  lemma {:induction false} PosNegCount(d: Evaluation, n: nat)
    requires d.WellFormed() && n <= |d.qPids|
    ensures |d.PosSims(n)| + |d.NegSims(n)| == d.KeptTotal(n)
  {
    if n > 0 {
      var q := n - 1;
      PosNegCount(d, q);
      QuerySampleCount(d, q);
      var p, ng := d.PositivesOf(q), d.NegativesOf(q);
      assert d.PosSims(n) == d.PosSims(q) + p;
      assert d.NegSims(n) == d.NegSims(q) + ng;
    }
  }

  /** The `diff_cam` list of `plot_same_cam_diff_cam_dist` equals the `pos_sim` list of
      `plot_positve_negative_dist`: a same-identity item is junk exactly when it shares
      the query's camera. */
  lemma {:induction false} DiffCamIsPositive(d: Evaluation, n: nat)
    requires d.WellFormed() && n <= |d.qPids|
    ensures d.DiffCams(n) == d.PosSims(n)
  {
    if n > 0 {
      DiffCamIsPositive(d, n - 1);
      QuerySamples(d, n - 1);
    }
  }

  /** The `same_cam` list holds exactly the junk items: with the kept results they
      account for every gallery item of every query. */
  lemma {:induction false} SameCamCount(d: Evaluation, n: nat)
    requires d.Valid() && n <= |d.qPids|
    ensures |d.SameCams(n)| + d.KeptTotal(n) == n * |d.gPids|
  {
    if n > 0 {
      var q := n - 1;
      SameCamCount(d, q);
      var g, query, order := d.Gallery(), d.Query(q), d.indices[q];
      RankingIsPermutation(d.distmat[q], order);
      PickComplements(g, query, order);
      assert |d.SameCams(n)| == |d.SameCams(q)| + |Pick(g, query, order, Junk)|;
      assert d.KeptTotal(n) == d.KeptTotal(q) + |Pick(g, query, order, Kept)|;
      MulSucc(q, |d.gPids|);
    }
  }

  lemma MulSucc(a: nat, b: nat)
    ensures a * b + b == (a + 1) * b
  {
  }
}
