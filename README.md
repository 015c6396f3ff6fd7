# ReidInterpretation: retrieval evaluation of a person re-identification model

`ReidInterpretation` (engine/interpreter.py) evaluates a re-identification model on a
test set of labelled images. The first `num_q` labels are queries and the rest are the
gallery. Each label is a (person id, camera id) pair. Given the query-by-gallery
similarity matrix, the object:

- ranks the gallery for every query by decreasing similarity (`indices`);
- marks which ranked items share the query's identity (`matches`);
- removes *junk* from a query's ranking: gallery items with the same identity AND the
  same camera (`get_matched_result`);
- collects every query's top-5 kept results into a "correct" list (top-1 is a true
  match) or a "wrong" list (`get_top_error`), and sorts the correct list by ascending
  and the wrong list by descending top-1 similarity;
- samples the kept similarity scores into positives and negatives
  (`plot_positve_negative_dist`);
- samples the unfiltered same-identity scores by same and different camera
  (`plot_same_cam_diff_cam_dist`).

The model has five modules:

- `Masks` — numpy boolean-mask indexing `xs[keep]`.
- `Ranking` — the specification of `np.argsort(-row)`: a permutation of the gallery
  indices in non-increasing score order. Ties may come in any order. It also holds one
  function that meets this specification.
- `Retrieval` — labels and the groups a gallery item can belong to relative to a query
  (kept, junk, same identity, other identity, different camera). It defines a reference
  filter `Pick` and proves that the source's masks agree with it. It also models
  `get_matched_result` on one query.
- `TopError` — the `similarityScore` entries, their split into correct and wrong, and
  the stable sort by `sim[0]` with its uniqueness.
- `Interpreter` — the class `ReidInterpretation` with the fields the source keeps,
  plus the value `Evaluation` (the fields `get_distmat` sets), on which the read-only
  operations and their lemmas are stated.

Similarity scores are modelled as integers. Only their order matters to the modelled
code.

Two behaviours of the code are worth stating:

- **Negative query indices.** A negative query index is not an error: numpy wraps it,
  so -1 means the last query, and only indices outside [-n, n) raise IndexError.
  `Evaluation.GetMatchedResult` models this.
- **Ties in the ranking.** `np.argsort` uses its default sort, which is not stable, so
  equal scores may come in any order. The class invariant asks only that each row of
  `indices` be *some* ranking, and every property is proved for any tie order.

## Model

| member | source | states |
|---|---|---|
| Interpreter.SplitLabels | engine/interpreter.py:24-32 | the query labels are the first min(num_q, n) labels and the gallery labels the rest, pids and camids position by position |
| Interpreter.QueryCount | engine/interpreter.py:29-32 | the split point is num_q when there are at least num_q labels and the number of labels otherwise, as Python slicing does |
| Interpreter.ReidInterpretation.constructor | engine/interpreter.py:18-21 | stores labels and num_q and establishes what `get_distmat` establishes: the label split, a ranking per row, the 0/1 match mask |
| Interpreter.ReidInterpretation.GetDistmat | engine/interpreter.py:23-44 | labels split as above, the similarity matrix stored, every row of `indices` a ranking of its row, `matches[i][k]` is 0 or 1 and is 1 exactly when the k-th ranked gallery item has query i's identity |
| Ranking.Argsort | engine/interpreter.py:43 | the result is a ranking: a permutation of the row's indices in non-increasing score order |
| Ranking.ArgsortPrefix | engine/interpreter.py:43 | ranking the first n indices gives n indices in range, exactly the indices 0..n-1, in non-increasing score order |
| Ranking.InsertByScoreSorted | engine/interpreter.py:43 | inserting one index into a score-ordered list of indices keeps it score-ordered |
| Ranking.RankingIsPermutation | engine/interpreter.py:43 | a ranking lists every gallery index exactly once: as many entries as gallery items, every index present, no repeats |
| Retrieval.MatchRowCount | engine/interpreter.py:43-44 | the match row of a ranking holds exactly as many 1s as the gallery has items with the query's identity: ranking loses and repeats no true match |
| Retrieval.HitsPermutation | engine/interpreter.py:43-44 | counting the items of one identity does not depend on the order of the indices |
| Interpreter.MatchesCount | engine/interpreter.py:43-44 | each row of the stored `matches` has one 1 per gallery item with that query's identity |
| Retrieval.MatchedResultOf | engine/interpreter.py:46-55 | `sort_idx` is the ranking with junk removed, order kept; `cmc` has the same length, each flag 0 or 1, and 1 exactly when the kept item has the query's identity |
| Interpreter.Evaluation.GetMatchedResult | engine/interpreter.py:46-55 | IndexError exactly when the query index is outside [-n, n); otherwise, for the query the index names (counting from the end when negative), `sort_idx` is its ranking without junk, `cmc` has the same length, and each flag is 0 or 1, 1 exactly when the kept item has the query's identity |
| Retrieval.SelectIsPick | engine/interpreter.py:51-54 | the numpy mask over a ranking selects exactly the group members, in rank order |
| Retrieval.SelectMatchRow | engine/interpreter.py:53 | masking the match row gives the match row of the masked ranking |
| Retrieval.PickMembers | engine/interpreter.py:51-54 | an index is selected exactly when it is in the ranking and in the group |
| Retrieval.PickSorted | engine/interpreter.py:54 | selecting from a score-ordered ranking keeps it score-ordered |
| Retrieval.PickComplements | engine/interpreter.py:51-52 | kept and junk items together are the whole ranking, and so are same- and other-identity items |
| Interpreter.CollectEntries | engine/interpreter.py:83-91 | the loop raises IndexError exactly when some query below num_q does not exist or keeps fewer than 5 results; otherwise correct and wrong are the entries with a true / false top-1 match, in query order |
| Interpreter.Evaluation.Entry | engine/interpreter.py:85-87 | the entry of query q carries index q and exactly five gallery indices, scores and flags |
| Interpreter.EntryIsTopFive | engine/interpreter.py:85-87 | the entry's gallery indices are num_q plus the first five kept results; they are gallery items that are not junk; sim holds their scores in non-increasing order; cmc is the first five kept flags, 1 exactly on a matching identity |
| Interpreter.EntryBeatsOthers | engine/interpreter.py:85-87 | no kept gallery item outside the entry scores above its fifth score |
| Interpreter.TopErrorStep | engine/interpreter.py:84-91 | one pass of the query loop appends query q's entry to the correct list when its top-1 flag is 1 and to the wrong list otherwise |
| Interpreter.EntriesAreQueries | engine/interpreter.py:83-87 | the loop visits the queries 0..n-1 in order, one entry each |
| Interpreter.ReidInterpretation.GetTopError | engine/interpreter.py:78-96 | on IndexError both stored lists are unchanged; otherwise storeCorrect is the correct entries sorted ascending and storeWrong the wrong entries sorted descending by top-1 score |
| Interpreter.TopErrorPartition | engine/interpreter.py:83-96 | every query below num_q is in exactly one stored list: the correct list exactly when its top-1 result matches; together the lists hold num_q entries; each is sorted by top-1 score in its direction, with ties in query order |
| TopError.TopErrorSplit | engine/interpreter.py:88-93 | the two sorted lists are together a permutation of the entries, split by the top-1 flag, sorted ascending / descending, stable |
| TopError.SortByTop1 | engine/interpreter.py:92-93 | the sorted list is a permutation of the input in non-decreasing (or, reversed, non-increasing) order of `sim[0]` |
| TopError.InsertSorted | engine/interpreter.py:92-93 | inserting an entry into a list sorted by `sim[0]` keeps it sorted |
| TopError.SortKeepsTies | engine/interpreter.py:92-93 | the sort is stable: entries with equal `sim[0]` stay in ascending query order |
| TopError.InsertKeepsTies | engine/interpreter.py:92-93 | inserting the entry of a later query puts it after every entry of equal key |
| TopError.SortedUnique | engine/interpreter.py:92-93 | two key-ordered lists with ties in query order and the same entries are equal |
| TopError.StableSortUnique | engine/interpreter.py:92-93 | any stable sort of the query-ordered entries gives SortByTop1's result, so the insertion sort computes what `list.sort` computes |
| TopError.ClassifyMembers | engine/interpreter.py:88-91 | an entry is in the correct (wrong) list exactly when it is an entry whose top-1 flag is (is not) 1; query order kept |
| TopError.ClassifyPartition | engine/interpreter.py:88-91 | the correct and wrong lists together hold every entry exactly as often as the entries do |
| Interpreter.SampleQuery | engine/interpreter.py:131-136 | the inner loop appends to pos_sim the scores of the kept same-identity items and to neg_sim those of the kept other-identity items, in rank order |
| Interpreter.ReidInterpretation.PositiveNegativeDist | engine/interpreter.py:128-142 | the returned lists are the positives and negatives of all queries, query after query |
| Interpreter.QuerySamples | engine/interpreter.py:131-136 | a query's positives are its same-identity, other-camera items; its negatives are all its other-identity items (none of them is junk) |
| Retrieval.PickKeptSamePid | engine/interpreter.py:131-134 | the same-identity items of the kept ranking are the same-identity, different-camera items of the ranking |
| Retrieval.PickKeptOtherPid | engine/interpreter.py:131-136 | the other-identity items of the kept ranking are all other-identity items of the ranking |
| Interpreter.QuerySampleCount | engine/interpreter.py:132-136 | a query contributes as many positives plus negatives as it has kept results |
| Interpreter.PosNegCount | engine/interpreter.py:129-136 | \|pos_sim\| + \|neg_sim\| is the total number of kept results over all queries |
| Interpreter.ReidInterpretation.SameCamDiffCamDist | engine/interpreter.py:145-156 | the returned lists are the junk scores and the same-identity, different-camera scores of all queries, each query's in rank order |
| Interpreter.DiffCamIsPositive | engine/interpreter.py:146-156 | diff_cam equals the pos_sim list of the positive/negative sampling |
| Interpreter.SameCamCount | engine/interpreter.py:146-156 | same_cam holds exactly the junk items: with the kept results they account for every gallery item of every query |
| Retrieval.PickSnoc | engine/interpreter.py:132-136 | selecting from a ranking with one more item appends that item exactly when it is in the group |
| Retrieval.PickScoresStep | engine/interpreter.py:133-136 | one pass of the sampling loop appends the item's score exactly when the item is in the group |

## Left out

- Feature extraction (engine/interpreter.py:34) and the normalisation and matrix product
  that make the similarity matrix (35-42): these are model and floating-point code. The
  matrix is an input to the constructor and to `GetDistmat`.
- Similarity values are floats in [-1, 1] in the source; the model uses integers,
  because only their order and equality are used.
- `learn` and `test_dl` (lines 19-20) are not modelled; they serve feature extraction
  and plotting only.
- `plot_rank_result` (57-76) and `plot_top_error` (98-126), including its `hasattr`
  cache (99): they only read `get_matched_result` and the stored lists and draw images.
- The histogram drawing in `plot_positve_negative_dist` (137-141) and
  `plot_same_cam_diff_cam_dist` (158-163).
- Interpreter.ReidInterpretation.SameCamDiffCamDist: the source returns the figure; the
  model returns the two score lists the figure is drawn from.
- A negative `num_q` is not modelled: it is a `nat`. Python would slice from the end.
- Ranking.Argsort: it breaks ties by ascending index. numpy's default sort promises no
  tie order, so no property relies on this choice. The class invariant accepts any
  ranking.
- Interpreter.ReidInterpretation.constructor: `storeCorrect` and `storeWrong` start as
  empty lists. In the source these attributes do not exist until `get_top_error` runs,
  which is why `plot_top_error` tests `hasattr` (line 99).
- Interpreter.ReidInterpretation.constructor: its requires assumes one feature per
  label, so the similarity matrix is min(num_q, labels) by the remaining labels. The
  source never checks this (lines 34-38). With more features than labels, line 44
  would raise an error, and the model does not capture that error.
