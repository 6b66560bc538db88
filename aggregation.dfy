/** What updateRepoMetrics and flushHistory do to the aggregator's state, as
    functions on a snapshot of that state, and what a whole run of commits
    leaves behind. */
module Aggregation {
  import opened Classifier
  import opened Summaries
  import opened Sampler

  /** The state the aggregator exposes or keeps between commits:
      `metrics.overall`, `metrics.history.ids`, `metrics.history.values.quality`,
      the buffer `_currentAvgs` and `options.historyCount`. */
  datatype Snapshot = Snapshot(
    overall: Summary,
    ids: seq<nat>,
    quality: seq<Number>,
    buffer: seq<nat>,
    historyCount: nat)

  /** The state the constructor leaves. */
  const Initial: Snapshot := Snapshot(Empty, [], [], [], 0)

  /** flushHistory: the counter is appended to `ids`, the buffer's average is
      put in front of `quality`, and the buffer is emptied. */
  function Flush(st: Snapshot): Snapshot
  {
    st.(ids := st.ids + [st.historyCount], quality := [Mean(st.buffer)] + st.quality, buffer := [])
  }

  /** updateRepoMetrics: add the summary into the totals, buffer the commit's
      quality, flush if the count before this commit is due, then count it. */
  function Update(st: Snapshot, freq: nat, commitCount: int, s: Summary): Snapshot
    requires freq >= 1
  {
    var added := st.(overall := Add(st.overall, s), buffer := st.buffer + [QualityScore(s)]);
    var flushed := if FlushDue(freq, commitCount, st.historyCount) then Flush(added) else added;
    flushed.(historyCount := st.historyCount + 1)
  }

  /** The state after the summaries `ss` have been folded in, oldest first. */
  function Run(freq: nat, commitCount: int, ss: seq<Summary>): Snapshot
    requires freq >= 1
  {
    if ss == [] then Initial
    else Update(Run(freq, commitCount, ss[..|ss| - 1]), freq, commitCount, ss[|ss| - 1])
  }

  /** Folding in one more summary is one more update. */
  lemma RunAppend(freq: nat, commitCount: int, ss: seq<Summary>, s: Summary)
    requires freq >= 1
    ensures Run(freq, commitCount, ss + [s]) == Update(Run(freq, commitCount, ss), freq, commitCount, s)
  {
    assert (ss + [s])[..|ss|] == ss;
  }

  /** A flush adds one id and one quality point and empties the buffer, so
      the two history sequences stay the same length. */
  lemma FlushAddsOnePoint(st: Snapshot)
    requires |st.ids| == |st.quality|
    ensures |Flush(st).ids| == |Flush(st).quality| == |st.ids| + 1
    ensures Flush(st).ids[|st.ids|] == st.historyCount && Flush(st).buffer == []
    ensures Flush(st).overall == st.overall && Flush(st).historyCount == st.historyCount
  {
  }

  /** One update adds the summary into the totals, counts one commit, and
      flushes a buffer that holds at least this commit's quality. */
  lemma UpdateEffect(st: Snapshot, freq: nat, commitCount: int, s: Summary)
    requires freq >= 1
    ensures var r := Update(st, freq, commitCount, s);
            && r.overall == Add(st.overall, s)
            && r.historyCount == st.historyCount + 1
            && (FlushDue(freq, commitCount, st.historyCount) ==>
                  r.ids == st.ids + [st.historyCount]
                  && r.quality == [Mean(st.buffer + [QualityScore(s)])] + st.quality
                  && r.quality[0].Finite? && r.buffer == [])
            && (!FlushDue(freq, commitCount, st.historyCount) ==>
                  r.ids == st.ids && r.quality == st.quality
                  && r.buffer == st.buffer + [QualityScore(s)])
  {
  }

  /** After any run: one count per commit, totals that are the element-wise
      sum of all summaries, ids that are exactly the due counts, and as many
      quality points as ids. */
  lemma {:induction false} RunState(freq: nat, commitCount: int, ss: seq<Summary>)
    requires freq >= 1
    ensures Run(freq, commitCount, ss).historyCount == |ss|
    ensures Run(freq, commitCount, ss).overall == Totals(ss)
    ensures Run(freq, commitCount, ss).ids == DueCounts(freq, commitCount, |ss|)
    ensures |Run(freq, commitCount, ss).quality| == |Run(freq, commitCount, ss).ids|
  {
    if ss != [] {
      var init, s := ss[..|ss| - 1], ss[|ss| - 1];
      assert ss == init + [s];
      RunState(freq, commitCount, init);
      TotalsAppend(init, s);
    }
  }

  /** Every recorded quality point is a number between 0 and 100, and so is
      every buffered score. */
  lemma {:induction false} RunQualityInRange(freq: nat, commitCount: int, ss: seq<Summary>)
    requires freq >= 1
    ensures forall i :: 0 <= i < |Run(freq, commitCount, ss).buffer| ==> Run(freq, commitCount, ss).buffer[i] <= 100
    ensures forall i :: 0 <= i < |Run(freq, commitCount, ss).quality| ==>
              Run(freq, commitCount, ss).quality[i].Finite?
              && 0.0 <= Run(freq, commitCount, ss).quality[i].x <= 100.0
  {
    if ss != [] {
      var init := ss[..|ss| - 1];
      var st := Run(freq, commitCount, init);
      RunQualityInRange(freq, commitCount, init);
      MeanInRange(st.buffer + [QualityScore(ss[|ss| - 1])]);
    }
  }

  /** Where the window that ends at the `j`-th id begins: just after the
      previous id. */
  function WindowStart(ids: seq<nat>, j: nat): nat
    requires j <= |ids|
  {
    if j == 0 then 0 else ids[j - 1] + 1
  }

  /** The buffer holds the quality scores of exactly the commits since the
      last flush. */
  lemma {:induction false} RunBuffer(freq: nat, commitCount: int, ss: seq<Summary>)
    requires freq >= 1
    ensures var st := Run(freq, commitCount, ss);
            WindowStart(st.ids, |st.ids|) <= |ss|
            && st.buffer == Qualities(ss)[WindowStart(st.ids, |st.ids|)..]
  {
    if ss != [] {
      var init, s := ss[..|ss| - 1], ss[|ss| - 1];
      RunBuffer(freq, commitCount, init);
      RunState(freq, commitCount, init);
      var st, after := Run(freq, commitCount, init), Run(freq, commitCount, ss);
      var q := QualityScore(s);
      assert Qualities(ss) == Qualities(init) + [q];
      UpdateEffect(st, freq, commitCount, s);
      if FlushDue(freq, commitCount, st.historyCount) {
        assert WindowStart(after.ids, |after.ids|) == |ss|;
      } else {
        var start := WindowStart(st.ids, |st.ids|);
        assert after.ids == st.ids;
        assert Qualities(ss)[start..] == Qualities(init)[start..] + [q];
      }
    }
  }

  /** The quality points are the averages of the windows that end at the
      ids, newest first: the window ending at the `j`-th id is averaged at
      position `|ids| - 1 - j` of `quality`. */
  ghost predicate WindowAverages(ids: seq<nat>, quality: seq<Number>, qs: seq<nat>)
  {
    && |quality| == |ids|
    && forall j :: 0 <= j < |ids| ==> WindowAverage(ids, quality, qs, j)
  }

  /** The window ending at the `j`-th id lies within the scores, and its
      average is at position `|ids| - 1 - j` of `quality`. */
  ghost predicate WindowAverage(ids: seq<nat>, quality: seq<Number>, qs: seq<nat>, j: nat)
  {
    && j < |ids| == |quality|
    && WindowStart(ids, j) <= ids[j] + 1 <= |qs|
    && quality[|ids| - 1 - j] == Mean(qs[WindowStart(ids, j)..ids[j] + 1])
  }

  /** Scoring one more commit does not change the closed windows. */
  lemma WindowAveragesExtend(ids: seq<nat>, quality: seq<Number>, qs: seq<nat>, q: nat)
    requires WindowAverages(ids, quality, qs)
    ensures WindowAverages(ids, quality, qs + [q])
  {
    forall j | 0 <= j < |ids|
      ensures WindowAverage(ids, quality, qs + [q], j)
    {
      assert WindowAverage(ids, quality, qs, j);
      assert (qs + [q])[WindowStart(ids, j)..ids[j] + 1] == qs[WindowStart(ids, j)..ids[j] + 1];
    }
  }

  /** Appending an id does not move the windows before it. */
  lemma WindowStartAppend(ids: seq<nat>, c: nat, j: nat)
    requires j <= |ids|
    ensures WindowStart(ids + [c], j) == WindowStart(ids, j)
  {
    if j > 0 {
      assert (ids + [c])[j - 1] == ids[j - 1];
    }
  }

  /** Closing the window that ends at count `c` records its average in front. */
  lemma WindowAveragesFlush(ids: seq<nat>, quality: seq<Number>, qs: seq<nat>, c: nat)
    requires WindowAverages(ids, quality, qs)
    requires WindowStart(ids, |ids|) <= c + 1 <= |qs|
    ensures WindowAverages(ids + [c], [Mean(qs[WindowStart(ids, |ids|)..c + 1])] + quality, qs)
  {
    var ids', quality' := ids + [c], [Mean(qs[WindowStart(ids, |ids|)..c + 1])] + quality;
    forall j | 0 <= j < |ids'|
      ensures WindowAverage(ids', quality', qs, j)
    {
      WindowStartAppend(ids, c, j);
      if j < |ids| {
        assert WindowAverage(ids, quality, qs, j);
        assert ids'[j] == ids[j];
        assert quality'[|ids'| - 1 - j] == quality[|ids| - 1 - j];
      } else {
        assert ids'[j] == c;
      }
    }
  }

  /** After any run, every quality point is the average of the scores of its
      window, and the points run newest first while the ids run oldest first. */
  lemma {:induction false} RunWindows(freq: nat, commitCount: int, ss: seq<Summary>)
    requires freq >= 1
    ensures WindowAverages(Run(freq, commitCount, ss).ids, Run(freq, commitCount, ss).quality, Qualities(ss))
  {
    if ss != [] {
      var init, s := ss[..|ss| - 1], ss[|ss| - 1];
      RunWindows(freq, commitCount, init);
      RunState(freq, commitCount, init);
      RunBuffer(freq, commitCount, init);
      var before, after := Run(freq, commitCount, init), Run(freq, commitCount, ss);
      var q := QualityScore(s);
      var qs := Qualities(ss);
      assert qs == Qualities(init) + [q];
      UpdateEffect(before, freq, commitCount, s);
      WindowAveragesExtend(before.ids, before.quality, Qualities(init), q);
      if FlushDue(freq, commitCount, before.historyCount) {
        var start := WindowStart(before.ids, |before.ids|);
        assert qs[start..|init| + 1] == before.buffer + [q];
        WindowAveragesFlush(before.ids, before.quality, qs, |init|);
      }
    }
  }

  /** The average of a single score is that score. */
  lemma MeanOfOne(q: nat)
    ensures Mean([q]) == Finite(q as real)
  {
    assert [q][1..] == [];
    assert Sum([q]) == q + Sum([]);
  }

  /** With interval 1 every commit is its own window: the ids are 0, 1, ...,
      the buffer is empty after each commit, and `quality` holds each
      commit's own score, newest first. */
  lemma EveryCommitRecorded(commitCount: int, ss: seq<Summary>)
    ensures var st := Run(1, commitCount, ss);
            && st.overall == Totals(ss) && st.historyCount == |ss|
            && |st.ids| == |st.quality| == |ss|
            && (forall i :: 0 <= i < |ss| ==> st.ids[i] == i)
            && (forall i :: 0 <= i < |ss| ==> st.quality[|ss| - 1 - i] == Finite(QualityScore(ss[i]) as real))
            && st.buffer == []
  {
    var st := Run(1, commitCount, ss);
    var qs := Qualities(ss);
    RunState(1, commitCount, ss);
    EveryCommitSampled(commitCount, |ss|);
    assert st.buffer == [] by {
      RunBuffer(1, commitCount, ss);
      assert WindowStart(st.ids, |st.ids|) == |ss|;
    }
    assert WindowAverages(st.ids, st.quality, qs) by {
      RunWindows(1, commitCount, ss);
    }
    forall i | 0 <= i < |ss|
      ensures st.quality[|ss| - 1 - i] == Finite(QualityScore(ss[i]) as real)
    {
      assert WindowAverage(st.ids, st.quality, qs, i);
      assert WindowStart(st.ids, i) == i;
      assert qs[i..i + 1] == [qs[i]];
      MeanOfOne(qs[i]);
    }
  }

}
