/** The history sampler of RepositoryMetrics.js: the sampling interval the
    constructor derives from the declared commit count, the test that decides
    whether a commit closes a window, and the average a flush records. */
module Sampler {
  import opened Classifier
  import opened Summaries

  /** `options.historyPoints`: the number of history points aimed at. */
  const HistoryPoints: nat := 15

  /** `options.historyFreq` as the constructor sets it. Past 15 commits the
      interval is about a fifteenth of the declared count: the quotient, or the
      quotient plus one when the count is a multiple of 10 (the source tests
      `% 10`, not `% 15`). */
  function SamplingInterval(commitCount: int): (freq: nat)
    ensures freq >= 1
    ensures commitCount <= HistoryPoints ==> freq == 1
    ensures commitCount > HistoryPoints ==>
              HistoryPoints * (freq - 1) <= commitCount < HistoryPoints * (freq + 1)
    ensures commitCount > HistoryPoints && commitCount % 10 != 0 ==>
              HistoryPoints * freq <= commitCount < HistoryPoints * (freq + 1)
    ensures commitCount > HistoryPoints && commitCount % 10 == 0 ==>
              HistoryPoints * (freq - 1) <= commitCount < HistoryPoints * freq
  {
    if commitCount > HistoryPoints then
      var rawInterval := commitCount / HistoryPoints;
      if commitCount % 10 != 0 then rawInterval else rawInterval + 1
    else
      1
  }

  /** The flush test of updateRepoMetrics, on the count of commits seen
      before the current one. */
  predicate FlushDue(freq: nat, commitCount: int, count: nat)
    requires freq >= 1
  {
    count % freq == 0 || count == commitCount
  }

  /** The counts at which the first `n` commits flush, in order: the `ids` a
      run of `n` commits records. */
  function DueCounts(freq: nat, commitCount: int, n: nat): (ids: seq<nat>)
    requires freq >= 1
    ensures |ids| <= n
    ensures forall i :: 0 <= i < |ids| ==> ids[i] < n
    ensures forall i, j :: 0 <= i < j < |ids| ==> ids[i] < ids[j]
    ensures n > 0 ==> |ids| > 0 && ids[0] == 0
  {
    if n == 0 then []
    else
      var earlier := DueCounts(freq, commitCount, n - 1);
      if FlushDue(freq, commitCount, n - 1) then earlier + [n - 1] else earlier
  }

  /** While the declared count is not exceeded, the end-of-commits test never
      fires, so `n` commits record one point per multiple of the interval
      below `n`: the ceiling of `n / freq`. */
  lemma {:induction false} DueCountsWithinDeclared(freq: nat, commitCount: int, n: nat)
    requires freq >= 1 && n <= commitCount
    ensures |DueCounts(freq, commitCount, n)| == (n + freq - 1) / freq
  {
    if n == 0 {
      DivUnique(freq - 1, freq, 0, freq - 1);
    } else {
      var m := n - 1;
      DueCountsWithinDeclared(freq, commitCount, m);
      assert |DueCounts(freq, commitCount, n)| ==
             |DueCounts(freq, commitCount, m)| + (if m % freq == 0 then 1 else 0);
      CeilingStep(m, freq);
    }
  }

  /** The ceiling of `(m + 1) / freq` exceeds that of `m / freq` exactly when
      `m` is a multiple of `freq`. */
  lemma CeilingStep(m: nat, freq: nat)
    requires freq >= 1
    ensures (m + freq) / freq == (m + freq - 1) / freq + (if m % freq == 0 then 1 else 0)
  {
    var q, r := m / freq, m % freq;
    assert m == freq * q + r;
    assert freq * (q + 1) == freq * q + freq;
    DivUnique(m + freq, freq, q + 1, r);
    if r == 0 {
      DivUnique(m + freq - 1, freq, q, freq - 1);
    } else {
      DivUnique(m + freq - 1, freq, q + 1, r - 1);
    }
  }

  /** While the declared count is not exceeded, every recorded id is a
      multiple of the interval. */
  lemma {:induction false} DueCountsAreMultiples(freq: nat, commitCount: int, n: nat)
    requires freq >= 1 && n <= commitCount
    ensures forall i :: 0 <= i < |DueCounts(freq, commitCount, n)| ==>
              DueCounts(freq, commitCount, n)[i] % freq == 0
  {
    if n > 0 {
      DueCountsAreMultiples(freq, commitCount, n - 1);
    }
  }

  /** With interval 1 every commit flushes: `n` commits record the ids
      0, 1, ..., n - 1. */
  lemma {:induction false} EveryCommitSampled(commitCount: int, n: nat)
    ensures |DueCounts(1, commitCount, n)| == n
    ensures forall i :: 0 <= i < n ==> DueCounts(1, commitCount, n)[i] == i
  {
    if n > 0 {
      EveryCommitSampled(commitCount, n - 1);
    }
  }

  /** A repository declared with at most 15 commits samples every commit. */
  lemma SmallRepositorySamplesEveryCommit(commitCount: int, n: nat)
    requires commitCount <= HistoryPoints
    ensures |DueCounts(SamplingInterval(commitCount), commitCount, n)| == n
  {
    EveryCommitSampled(commitCount, n);
  }

  /** 100 declared commits: the quotient by 15 is 6 and the count is a
      multiple of 10, so the interval is 7, and the 100 commits record 15
      points, at 0, 7, ..., 98. */
  lemma HundredCommits()
    ensures SamplingInterval(100) == 7
    ensures |DueCounts(7, 100, 100)| == 15
  {
    DueCountsWithinDeclared(7, 100, 100);
  }

  /** 31 declared commits: the interval is 2, so the 31 commits record 16
      points, one more than `historyPoints`. */
  lemma ThirtyOneCommits()
    ensures SamplingInterval(31) == 2
    ensures |DueCounts(2, 31, 31)| == 16 > HistoryPoints
  {
    DueCountsWithinDeclared(2, 31, 31);
  }

  /** 32 declared commits: the last commit (count 31) is neither a multiple of
      the interval 2 nor equal to 32, so its quality stays in the buffer. */
  lemma LastOfThirtyTwoNotFlushed()
    ensures SamplingInterval(32) == 2
    ensures !FlushDue(2, 32, 31)
  {
  }

  /** The first commit always flushes, and with interval 1 every commit does. */
  lemma FlushDueAtStart(freq: nat, commitCount: int, count: nat)
    requires freq >= 1
    ensures FlushDue(freq, commitCount, 0)
    ensures freq == 1 ==> FlushDue(freq, commitCount, count)
  {
  }

  /** The sum of the buffered quality scores. */
  function Sum(s: seq<nat>): nat
  {
    if s == [] then 0 else s[0] + Sum(s[1..])
  }

  /** The average a flush records: `sum / length`, which is `0 / 0`, NaN, for an
      empty buffer. */
  function Mean(s: seq<nat>): Number
  {
    if s == [] then NaN else Finite(Sum(s) as real / |s| as real)
  }

  /** A sum of scores of at most `bound` is at most `bound` times their number. */
  lemma {:induction false} SumBound(s: seq<nat>, bound: nat)
    requires forall i :: 0 <= i < |s| ==> s[i] <= bound
    ensures Sum(s) <= bound * |s|
  {
    if s != [] {
      SumBound(s[1..], bound);
      assert bound * |s| == bound + bound * (|s| - 1);
    }
  }

  /** The average of a non-empty buffer of percentages is a percentage. */
  lemma MeanInRange(s: seq<nat>)
    requires s != []
    requires forall i :: 0 <= i < |s| ==> s[i] <= 100
    ensures Mean(s).Finite? && 0.0 <= Mean(s).x <= 100.0
  {
    SumBound(s, 100);
    var total, n := Sum(s) as real, |s| as real;
    assert total <= 100.0 * n;
    assert total / n <= 100.0;
  }
}
