# RepositoryMetrics in Dafny

A model of the metrics aggregator in `api/services/RepositoryMetrics.js`,
with proofs about it. The aggregator is built once per analysed
repository with a threshold configuration and the number of commits the
caller will feed it. Each commit then goes through `parseCommit`:
- every metric on the commit is replaced by its classification (below the
  `nonbuggy` bound, above the `buggy` bound, or in between);
- the commit gets a `metric_summary` with one count per class;
- the summary is added into the repository totals;
- the commit's quality is buffered and, at the sampling interval,
  averaged into the quality history.

Modules, one per concern of the source file:

- `Classifier` (`classifier.dfy`): `metricThreshold`. JavaScript numbers
  are `Number = Finite(real) | NaN`. `NaN` also stands for `undefined`, the
  value of a bound that is not configured, so every `<=` or `>=` involving
  it is false.
- `Summaries` (`summary.dfy`): the three counts of a `metric_summary`, the
  `switch` that increments them, the element-wise addition into
  `metrics.overall`, and the per-commit quality score.
- `Commits` (`commit.dfy`): the commit record, the loop of `parseCommit`
  that rates and counts the metrics (`AnnotateCommit`), and its
  specification (`Annotated`, `Summarize`).
- `Sampler` (`sampler.dfy`): the sampling interval the constructor
  derives, the flush test of `updateRepoMetrics`, the ids a run records,
  and the average `flushHistory` takes.
- `Aggregation` (`aggregation.dfy`): `updateRepoMetrics` and
  `flushHistory` as functions on a snapshot of the state (`Update`,
  `Flush`). `Run` folds a sequence of summaries, and the lemmas say what
  any run leaves behind.
- `Metrics` (`repository_metrics.dfy`): the class `RepositoryMetrics`.
  Its fields are the ones the source updates in place (`overall`,
  history `ids`, `quality`, the buffer `_currentAvgs`, `historyCount`),
  and its methods are `ParseCommit`, `FlushHistory` and
  `UpdateRepoMetrics`. The invariant `Valid()` ties the fields to `Run`
  over the summaries folded in so far.

What the code does with the interval and the end-of-commits test is kept
exactly as written, and the model proves its consequences:
- Past 15 declared commits the interval is `floor(n / 15)`, plus one only
  when `n` is a multiple of 10 (`SamplingInterval`). So 31 declared
  commits give interval 2 and 16 history points, one more than the 15
  aimed at (`ThirtyOneCommits`). 100 declared commits give interval 7 and
  15 points (`HundredCommits`).
- The end test `historyCount == commitCount` compares the count of commits
  seen before the current one. Within the declared count it therefore
  never fires, and the last commit's quality can stay in the buffer
  unrecorded (`LastOfThirtyTwoNotFlushed`, `DueCountsWithinDeclared`).

## Model

| member | source | states |
|---|---|---|
| Classifier.MetricThreshold | api/services/RepositoryMetrics.js:59-77 | the value is returned unchanged with a code in -1..1; -1 exactly when value <= the `nonbuggy` bound, 1 exactly when that fails and value >= the `buggy` bound, 0 exactly when both fail |
| Classifier.ClassifyOrderedBounds | api/services/RepositoryMetrics.js:64-70 | with both bounds configured and nonbuggy < buggy, the code is -1, 0 or 1 exactly as the value is <= nonbuggy, strictly between, or >= buggy |
| Classifier.ClassifyMonotone | api/services/RepositoryMetrics.js:64-70 | a larger value never gets a lower code |
| Classifier.ClassifyNaN | api/services/RepositoryMetrics.js:64-70 | a value that is not a number is classified as between |
| Classifier.ClassifyInvertedBounds | api/services/RepositoryMetrics.js:64-70 | when nonbuggy >= buggy, no number is classified as between |
| Classifier.ClassifyExamples | api/services/RepositoryMetrics.js:59-77 | with bounds 2 and 8: 1 is below, 5 between, 9 above |
| Classifier.Bound | api/services/RepositoryMetrics.js:64-66 | `this.thresholds[key]`: the configured bound as a number, or `undefined` (NaN here) when the key is not configured |
| Classifier.AtMost | api/services/RepositoryMetrics.js:64 | JavaScript `value <= bound`: true only when both sides are numbers and the first is not larger; false whenever either side is NaN or `undefined` |
| Classifier.AtLeast | api/services/RepositoryMetrics.js:66 | JavaScript `value >= bound`: true only when both sides are numbers and the first is not smaller; false whenever either side is NaN or `undefined` |
| Classifier.IsMetric | api/services/RepositoryMetrics.js:97 | the `hasOwnProperty(key + 'nonbuggy')` test: a key is a metric exactly when the configuration has a `nonbuggy` bound for it, whatever the `buggy` bound |
| Summaries.Tally | api/services/RepositoryMetrics.js:103-113 | exactly the bucket named by the code grows by one; a code outside -1..1 leaves the summary unchanged |
| Summaries.Add | api/services/RepositoryMetrics.js:146-148 | the totals grow by the summary's total and no bucket decreases |
| Summaries.TotalsAppend | api/services/RepositoryMetrics.js:146-148 | folding in one more summary adds exactly its counts |
| Summaries.TotalsCountEveryMetric | api/services/RepositoryMetrics.js:146-148 | the grand total of `overall` is the number of metrics counted over all summaries |
| Summaries.TotalsNeverDecrease | api/services/RepositoryMetrics.js:146-148 | each bucket of the totals of a prefix is at most that of the whole stream |
| Summaries.Totals | api/services/RepositoryMetrics.js:146-148 | the totals `metrics.overall` reach after the summaries have been added in, oldest first: the element-wise sum, starting from zero |
| Summaries.QualityScore | api/services/RepositoryMetrics.js:151-152 | the score is at most 100, and 0 for a commit without metrics |
| Summaries.QualityScoreRounds | api/services/RepositoryMetrics.js:152 | the score is 100 * below / total rounded half up: within [q - 1/2, q + 1/2) |
| Summaries.RoundedPercentage | api/services/RepositoryMetrics.js:152 | the integer formula used for Math.round lies in 0..100 and brackets the exact percentage |
| Summaries.QualityExtremes | api/services/RepositoryMetrics.js:151-152 | all metrics below gives 100; none below gives 0 |
| Summaries.Qualities | api/services/RepositoryMetrics.js:151-153 | one score per summary, each the commit's score and at most 100 |
| Commits.ParseFloat | api/services/RepositoryMetrics.js:100 | `parseFloat(commit[key])`: a numeric field reads as its value, any other field as NaN |
| Commits.Summarize | api/services/RepositoryMetrics.js:87-113 | the `metric_summary` of a commit: for each class, the number of metric keys of the record whose verdict is that class |
| Commits.Verdict | api/services/RepositoryMetrics.js:100-103 | the code the `switch` reads: the `threshold` of metricThreshold applied to the field read by parseFloat |
| Commits.AnnotateField | api/services/RepositoryMetrics.js:97-100 | what one visited key becomes: a metric is replaced by its rating `{value, threshold}`, any other field is left as it is |
| Commits.Annotated | api/services/RepositoryMetrics.js:84-115 | the annotated commit has the original keys plus `metric_summary`; each metric is replaced by its rating, every other field is kept, and the summary counts the metrics |
| Commits.AnnotateCommit | api/services/RepositoryMetrics.js:86-115 | after the loop over the keys the commit is `Annotated` and the returned summary is `Summarize` of the original fields |
| Commits.VisitMetric | api/services/RepositoryMetrics.js:97-100 | rating a metric key keeps the loop invariant: visited keys annotated, unvisited untouched |
| Commits.VisitOther | api/services/RepositoryMetrics.js:94-97 | a key that is not a metric is left as it is |
| Commits.AnnotationComplete | api/services/RepositoryMetrics.js:87-115 | once every key is visited, attaching the summary yields `Annotated`, and the count is `Summarize` |
| Commits.CountInStep | api/services/RepositoryMetrics.js:97-113 | visiting a metric key adds its verdict to the count; any other key adds nothing |
| Commits.KeysRatedStep | api/services/RepositoryMetrics.js:103-113 | one bucket grows by one exactly when the visited key is a metric with that verdict |
| Commits.CountInRecordOnly | api/services/RepositoryMetrics.js:94-97 | keys outside the record contribute nothing to the count |
| Commits.SummarizeCountsMetrics | api/services/RepositoryMetrics.js:94-115 | the summary's total equals the number of metric keys of the commit |
| Commits.SummarizeNoMetrics | api/services/RepositoryMetrics.js:87-115 | a commit without metrics gets the empty summary |
| Commits.SummarizeOneMetric | api/services/RepositoryMetrics.js:94-115 | a commit with a single metric is summarized by that one verdict |
| Sampler.SamplingInterval | api/services/RepositoryMetrics.js:39-47 | the interval is at least 1; it is 1 up to 15 commits; past 15, 15 * freq <= n < 15 * (freq + 1) when n % 10 != 0, and 15 * (freq - 1) <= n < 15 * freq when n % 10 == 0 |
| Sampler.FlushDue | api/services/RepositoryMetrics.js:156-157 | the flush test on the count of commits seen before the current one: a multiple of the interval, or equal to the declared count |
| Sampler.DueCounts | api/services/RepositoryMetrics.js:155-159 | the ids of a run of n commits are strictly increasing, below n, at most n of them, and start at 0 |
| Sampler.DueCountsWithinDeclared | api/services/RepositoryMetrics.js:155-159 | within the declared count, n commits record ceil(n / freq) points |
| Sampler.CeilingStep | api/services/RepositoryMetrics.js:156 | one more commit adds a point exactly when its count is a multiple of the interval |
| Sampler.DueCountsAreMultiples | api/services/RepositoryMetrics.js:155-159 | within the declared count every id is a multiple of the interval: the end test never fires |
| Sampler.EveryCommitSampled | api/services/RepositoryMetrics.js:156 | with interval 1 the ids are 0, 1, ..., n - 1 |
| Sampler.SmallRepositorySamplesEveryCommit | api/services/RepositoryMetrics.js:39-47 | a repository declared with at most 15 commits records every commit |
| Sampler.HundredCommits | api/services/RepositoryMetrics.js:39-47 | 100 declared commits: interval 7, and 15 points |
| Sampler.ThirtyOneCommits | api/services/RepositoryMetrics.js:39-47 | 31 declared commits: interval 2, and 16 points, more than `historyPoints` |
| Sampler.LastOfThirtyTwoNotFlushed | api/services/RepositoryMetrics.js:155-159 | with 32 declared commits the last one (count 31) does not flush |
| Sampler.FlushDueAtStart | api/services/RepositoryMetrics.js:155-159 | the first commit always flushes, and with interval 1 every commit does |
| Sampler.SumBound | api/services/RepositoryMetrics.js:124-128 | a sum of scores each at most b is at most b times their number |
| Sampler.Sum | api/services/RepositoryMetrics.js:125-128 | the sum of the buffered scores |
| Sampler.Mean | api/services/RepositoryMetrics.js:134 | `sum / length` of the buffer: NaN (0 / 0) for an empty buffer, the exact average otherwise |
| Sampler.MeanInRange | api/services/RepositoryMetrics.js:134 | the average of a non-empty buffer of percentages is a number in [0, 100] |
| Aggregation.Initial | api/services/RepositoryMetrics.js:16-49 | the state the constructor leaves: `overall` all zero, no ids, no quality points, an empty `_currentAvgs` and `historyCount` 0 (the interval is `Sampler.SamplingInterval`) |
| Aggregation.Flush | api/services/RepositoryMetrics.js:122-138 | flushHistory on the state: the count appended to `ids`, the buffer's Mean put in front of `quality`, the buffer emptied, totals and count kept |
| Aggregation.Update | api/services/RepositoryMetrics.js:143-163 | updateRepoMetrics on the state: the summary added into the totals, its score buffered, a Flush when FlushDue holds for the count before this commit, then the count raised by one |
| Aggregation.Run | api/services/RepositoryMetrics.js:143-163 | the state after a sequence of updateRepoMetrics calls from the constructor's initial state, one per summary, oldest first |
| Aggregation.RunAppend | api/services/RepositoryMetrics.js:143-163 | folding in one more summary is one more update |
| Aggregation.FlushAddsOnePoint | api/services/RepositoryMetrics.js:122-138 | a flush appends the count to `ids`, adds one quality point, empties the buffer, and changes nothing else |
| Aggregation.UpdateEffect | api/services/RepositoryMetrics.js:143-163 | an update adds the summary into the totals and counts one commit; when due it records the buffered average in front and empties the buffer, otherwise it only buffers the score |
| Aggregation.RunState | api/services/RepositoryMetrics.js:143-163 | after n commits: the count is n, `overall` is the element-wise sum of the summaries, `ids` are exactly the due counts, and there are as many quality points as ids |
| Aggregation.RunQualityInRange | api/services/RepositoryMetrics.js:133-134 | every recorded quality point is a number in [0, 100], and every buffered score is at most 100 |
| Aggregation.RunBuffer | api/services/RepositoryMetrics.js:150-158 | the buffer holds exactly the scores of the commits since the last flush |
| Aggregation.WindowAveragesExtend | api/services/RepositoryMetrics.js:153 | scoring one more commit leaves the closed windows as they are |
| Aggregation.WindowStartAppend | api/services/RepositoryMetrics.js:131 | recording an id does not move the earlier windows |
| Aggregation.WindowAveragesFlush | api/services/RepositoryMetrics.js:130-134 | a flush records the average of the window it closes, in front |
| Aggregation.RunWindows | api/services/RepositoryMetrics.js:122-163 | every quality point is the average of the scores in its window; the points run newest first, the ids oldest first |
| Aggregation.MeanOfOne | api/services/RepositoryMetrics.js:134 | the average of one score is that score |
| Aggregation.EveryCommitRecorded | api/services/RepositoryMetrics.js:155-158 | with interval 1: ids 0..n-1, an empty buffer, and each commit's own score recorded, newest first |
| Metrics.RepositoryMetrics.constructor | api/services/RepositoryMetrics.js:12-50 | empty totals, history and buffer, count 0, and the interval is `SamplingInterval(commitCount)` |
| Metrics.RepositoryMetrics.FlushHistory | api/services/RepositoryMetrics.js:122-138 | the countdown loop sums the buffer; the new state is `Flush` of the old one |
| Metrics.RepositoryMetrics.UpdateRepoMetrics | api/services/RepositoryMetrics.js:143-163 | keeps the invariant; the new state is `Update` of the old one; the totals are the old totals plus the summary, and the count grows by one |
| Metrics.RepositoryMetrics.ParseCommit | api/services/RepositoryMetrics.js:84-117 | the commit becomes `Annotated`, its summary `Summarize` is folded in, and the invariant is kept |
| Metrics.ExampleCommit | api/services/RepositoryMetrics.js:84-117 | a commit with a hash and metric `m` is summarized by the verdict on `m`, which replaces its value, and the hash is kept |
| Metrics.ExampleVerdicts | api/services/RepositoryMetrics.js:59-77 | with bounds 2 and 8 for `m`: at most 2 is below, 8 or more is above, in between otherwise |
| Metrics.ThreeCommitSummaries | api/services/RepositoryMetrics.js:84-117 | three commits below, between and above the bounds are summarized as one below, one between, one above |

## Left out

- The web front end (the Angular files) and everything outside
  `RepositoryMetrics.js`: not part of this model.
- `parseFloat` on text: a field is either a number (`Num`), read as itself,
  or anything else, read as NaN. Parsing a numeric prefix out of a string
  is not modelled.
- Floating point: quality scores and averages are exact integers and
  rationals. `Math.round` is modelled exactly for the non-negative
  percentages it sees here, with no binary rounding error. For example,
  with 29 of 200 metrics below, `(29/200)*100` is 14.499999999999998 in
  IEEE doubles, so `Math.round` gives 14 where `QualityScore` gives 15.
  Counts and
  `commitCount` are unbounded integers, and a non-integer or missing
  `commitCount` is not modelled. `Number` has no Infinity or -Infinity:
  a metric value or bound that is infinite in JavaScript (a native
  infinite number, or `parseFloat("Infinity")`) has no counterpart here,
  and a field that would read as one is read as NaN and classified 0,
  where the source classifies it -1 or 1.
- The order of `for (key in commit)`: keys are visited in an arbitrary
  order (`:|`). The result does not depend on the order, and only the
  final record is stated. The loop annotates a local copy of the record
  and stores it back once. This gives the same final record as the
  in-place updates: each key is read only before its own replacement,
  and the summary is only written during the loop.
- `metrics.individual`, which only echoes the configuration, and the
  prototype wiring: not modelled.
- Metrics.RepositoryMetrics.ParseCommit: requires that
  `metric_summarynonbuggy` is not a configured bound. Otherwise the
  source's `for … in` loop would rate its own `metric_summary` object as a
  metric. The constructor and UpdateRepoMetrics accept any configuration.
- Metrics.RepositoryMetrics.FlushHistory: called from outside
  `updateRepoMetrics` it does not keep the class invariant. It appends
  the current count, which is not a due count (a due update at that
  count records the same id again), and on an empty buffer its average
  is NaN. Its contract states that behaviour, and only
  `UpdateRepoMetrics` promises `Valid()`.
- Summaries.QualityScore: its contract states the bounds only; the
  rounding rule is the separate lemma Summaries.QualityScoreRounds.
