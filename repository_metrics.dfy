/** The aggregator object of RepositoryMetrics.js: one per analysed
    repository, fed its commits one at a time through ParseCommit. */
module Metrics {
  import opened Classifier
  import opened Summaries
  import opened Commits
  import opened Sampler
  import opened Aggregation

  class RepositoryMetrics {
    /** `this.thresholds` (also echoed as `metrics.individual`). */
    const thresholds: Thresholds
    /** `options.commitCount`: how many commits the caller declares. */
    const commitCount: int
    /** `options.historyFreq`, set once by the constructor. */
    var historyFreq: nat
    /** `metrics.overall`. */
    var overall: Summary
    /** `metrics.history.ids`. */
    var ids: seq<nat>
    /** `metrics.history.values.quality`. */
    var quality: seq<Number>
    /** `_currentAvgs`: the quality scores not yet flushed. */
    var currentAvgs: seq<nat>
    /** `options.historyCount`: the commits counted so far. */
    var historyCount: nat
    /** The summaries folded in so far, oldest first. */
    ghost var summaries: seq<Summary>

    /** The state as a value. */
    function State(): Snapshot
      reads this
    {
      Snapshot(overall, ids, quality, currentAvgs, historyCount)
    }

    /** The object invariant: the interval is the one derived from the declared
        count, and the state is what folding in the summaries seen so far
        yields (the lemmas of module Aggregation say what that is). */
    ghost predicate Valid()
      reads this
    {
      && historyFreq == SamplingInterval(commitCount)
      && State() == Run(historyFreq, commitCount, summaries)
    }

    /** `new RepositoryMetrics(thresholds, commitCount)`. */
    constructor (thresholds: Thresholds, commitCount: int)
      ensures Valid()
      ensures this.thresholds == thresholds && this.commitCount == commitCount
      ensures historyFreq == SamplingInterval(commitCount)
      ensures State() == Initial && summaries == []
    {
      this.thresholds := thresholds;
      overall := Empty;
      ids, quality := [], [];
      historyFreq := 1;
      historyCount := 0;
      this.commitCount := commitCount;
      if commitCount > HistoryPoints {
        var rawInterval := commitCount / HistoryPoints;
        historyFreq := if commitCount % 10 != 0 then rawInterval else rawInterval + 1;
      }
      currentAvgs := [];
      summaries := [];
    }

    /** flushHistory: sum the buffer with a countdown loop, append the counter
        to `ids`, put `sum / length` in front of `quality`, clear the buffer. */
    method FlushHistory()
      modifies this`ids, this`quality, this`currentAvgs
      ensures State() == Flush(old(State()))
    {
      var sum: nat := 0;
      var i := |currentAvgs|;
      while i > 0
        invariant 0 <= i <= |currentAvgs|
        invariant sum == Sum(currentAvgs[i..])
      {
        i := i - 1;
        assert currentAvgs[i..][1..] == currentAvgs[i + 1..];
        sum := sum + currentAvgs[i];
      }
      ids := ids + [historyCount];
      var average := if |currentAvgs| == 0 then NaN else Finite(sum as real / |currentAvgs| as real);
      quality := [average] + quality;
      currentAvgs := [];
    }

    /** updateRepoMetrics: add the summary into the totals, buffer the commit's
        quality, flush when the count so far is a multiple of the interval or
        equals the declared count, then count the commit. */
    method UpdateRepoMetrics(summary: Summary)
      requires Valid()
      modifies this`overall, this`ids, this`quality, this`currentAvgs, this`historyCount, this`summaries
      ensures Valid()
      ensures summaries == old(summaries) + [summary]
      ensures State() == Update(old(State()), historyFreq, commitCount, summary)
      ensures overall == Add(old(overall), summary) && historyCount == old(historyCount) + 1
    {
      ghost var before := State();
      overall := Summary(overall.above + summary.above,
                         overall.between + summary.between,
                         overall.below + summary.below);
      currentAvgs := currentAvgs + [QualityScore(summary)];
      ghost var added := State();
      ghost var due := FlushDue(historyFreq, commitCount, historyCount);
      if historyCount % historyFreq == 0 || historyCount == commitCount {
        FlushHistory();
      }
      assert State() == if due then Flush(added) else added;
      historyCount := historyCount + 1;
      assert State() == Update(before, historyFreq, commitCount, summary);
      summaries := summaries + [summary];
      RunAppend(historyFreq, commitCount, old(summaries), summary);
    }

    /** parseCommit: annotate the commit in place and fold its summary in. */
    method ParseCommit(commit: Commit)
      requires Valid() && !IsMetric(thresholds, SummaryKey)
      modifies this`overall, this`ids, this`quality, this`currentAvgs, this`historyCount, this`summaries
      modifies commit
      ensures Valid()
      ensures commit.fields == Annotated(thresholds, old(commit.fields))
      ensures summaries == old(summaries) + [Summarize(thresholds, old(commit.fields))]
      ensures State() == Update(old(State()), historyFreq, commitCount, Summarize(thresholds, old(commit.fields)))
    {
      var summary := AnnotateCommit(thresholds, commit);
      UpdateRepoMetrics(summary);
    }
  }

  /** The bounds of metric `m` in the example below. */
  function ExampleThresholds(): Thresholds
  {
    map["mnonbuggy" := 2.0, "mbuggy" := 8.0]
  }

  /** A commit with a hash and metric `m` is summarized by the verdict on `m`,
      which replaces the value of `m`; the hash is left as it was. */
  lemma ExampleCommit(sha: string, v: real)
    ensures var t := ExampleThresholds();
            var fields := map["sha" := Other(sha), "m" := Num(v)];
            && !IsMetric(t, SummaryKey)
            && Summarize(t, fields) == Tally(Empty, Verdict(t, "m", Num(v)))
            && Annotated(t, fields)["m"] == Rated(Rating(Finite(v), Verdict(t, "m", Num(v))))
            && Annotated(t, fields)["sha"] == Other(sha)
  {
    var t := ExampleThresholds();
    var fields := map["sha" := Other(sha), "m" := Num(v)];
    assert "m" + NonBuggySuffix == "mnonbuggy";
    assert !IsMetric(t, "sha");
    SummarizeOneMetric(t, fields, "m");
  }

  /** The verdicts on `m`: at most 2 is below, from 8 on is above, and in
      between otherwise. */
  lemma ExampleVerdicts(v: real)
    ensures v <= 2.0 ==> Verdict(ExampleThresholds(), "m", Num(v)) == Below
    ensures 2.0 < v < 8.0 ==> Verdict(ExampleThresholds(), "m", Num(v)) == Between
    ensures 8.0 <= v ==> Verdict(ExampleThresholds(), "m", Num(v)) == Above
  {
    assert "m" + NonBuggySuffix == "mnonbuggy" && "m" + BuggySuffix == "mbuggy";
  }

  /** Three commits with metric `m` below, between and above the bounds 2
      and 8 are summarized as one metric below, one between and one above. */
  lemma ThreeCommitSummaries(low: real, mid: real, high: real)
    requires low <= 2.0 < mid < 8.0 <= high
    ensures var t := ExampleThresholds();
            && Summarize(t, map["sha" := Other("c1"), "m" := Num(low)]) == Summary(0, 0, 1)
            && Summarize(t, map["sha" := Other("c2"), "m" := Num(mid)]) == Summary(0, 1, 0)
            && Summarize(t, map["sha" := Other("c3"), "m" := Num(high)]) == Summary(1, 0, 0)
  {
    ExampleVerdicts(low);
    ExampleVerdicts(mid);
    ExampleVerdicts(high);
    ExampleCommit("c1", low);
    ExampleCommit("c2", mid);
    ExampleCommit("c3", high);
  }
}
