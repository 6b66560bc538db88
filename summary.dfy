/** Per-commit summaries (`metric_summary`), the repository-wide totals
    (`metrics.overall`) and the per-commit quality score of RepositoryMetrics.js. */
module Summaries {
  import opened Classifier

  /** How many of one commit's metrics fell into each bucket. */
  datatype Summary = Summary(above: nat, between: nat, below: nat) {
    function Total(): nat
    {
      above + between + below
    }
  }

  /** The fresh summary `{above: 0, below: 0, between: 0}`. */
  const Empty: Summary := Summary(0, 0, 0)

  /** One pass through the `switch` of parseCommit: the bucket that matches the
      verdict is incremented; a code other than -1, 0 or 1 matches no case. */
  function Tally(s: Summary, threshold: int): (r: Summary)
    ensures Below <= threshold <= Above ==> r.Total() == s.Total() + 1
    ensures !(Below <= threshold <= Above) ==> r == s
    ensures r.above == s.above + (if threshold == Above then 1 else 0)
    ensures r.between == s.between + (if threshold == Between then 1 else 0)
    ensures r.below == s.below + (if threshold == Below then 1 else 0)
  {
    if threshold == Above then s.(above := s.above + 1)
    else if threshold == Between then s.(between := s.between + 1)
    else if threshold == Below then s.(below := s.below + 1)
    else s
  }

  /** Element-wise sum, as updateRepoMetrics adds a summary into the totals. */
  function Add(a: Summary, b: Summary): (r: Summary)
    ensures r.Total() == a.Total() + b.Total()
    ensures r.above >= a.above && r.between >= a.between && r.below >= a.below
  {
    Summary(a.above + b.above, a.between + b.between, a.below + b.below)
  }

  /** The element-wise sum of a sequence of summaries, oldest first. */
  function Totals(ss: seq<Summary>): Summary
  {
    if ss == [] then Empty else Add(Totals(ss[..|ss| - 1]), ss[|ss| - 1])
  }

  /** The number of metrics counted over all the summaries. */
  function MetricsCounted(ss: seq<Summary>): nat
  {
    if ss == [] then 0 else MetricsCounted(ss[..|ss| - 1]) + ss[|ss| - 1].Total()
  }

  /** Folding one more summary in adds exactly its counts. */
  lemma TotalsAppend(ss: seq<Summary>, s: Summary)
    ensures Totals(ss + [s]) == Add(Totals(ss), s)
    ensures MetricsCounted(ss + [s]) == MetricsCounted(ss) + s.Total()
  {
    assert (ss + [s])[..|ss|] == ss;
  }

  /** The grand total of the running totals is the number of metrics counted
      in all the summaries folded in. */
  lemma {:induction false} TotalsCountEveryMetric(ss: seq<Summary>)
    ensures Totals(ss).Total() == MetricsCounted(ss)
  {
    if ss != [] {
      TotalsCountEveryMetric(ss[..|ss| - 1]);
    }
  }

  /** The running totals never decrease: the totals of a prefix are bounded,
      bucket by bucket, by the totals of the whole stream. */
  lemma {:induction false} TotalsNeverDecrease(ss: seq<Summary>, more: seq<Summary>)
    ensures Totals(ss).above <= Totals(ss + more).above
    ensures Totals(ss).between <= Totals(ss + more).between
    ensures Totals(ss).below <= Totals(ss + more).below
  {
    if more != [] {
      var init := more[..|more| - 1];
      assert ss + more == (ss + init) + [more[|more| - 1]];
      TotalsAppend(ss + init, more[|more| - 1]);
      TotalsNeverDecrease(ss, init);
    } else {
      assert ss + more == ss;
    }
  }

  /** The quality of one commit: the share of its metrics that are below the
      `nonbuggy` bound, as a percentage rounded half up (Math.round of a
      non-negative number), and 0 for a commit without metrics. */
  function QualityScore(s: Summary): (q: nat)
    ensures q <= 100
    ensures s.Total() == 0 ==> q == 0
  {
    var total := s.Total();
    if total == 0 then 0
    else
      var q := (200 * s.below + total) / (2 * total);
      RoundedPercentage(s.below, total, q);
      q
  }

  /** The score is the percentage of metrics below the `nonbuggy` bound,
      rounded half up: `100 * below / total` lies in `[q - 1/2, q + 1/2)`. */
  lemma QualityScoreRounds(s: Summary)
    requires s.Total() > 0
    ensures 2 * s.Total() * QualityScore(s) <= 200 * s.below + s.Total() < 2 * s.Total() * (QualityScore(s) + 1)
  {
    RoundedPercentage(s.below, s.Total(), QualityScore(s));
  }

  /** `q`, the quotient of `200 * below + total` by `2 * total`, lies within
      half a point of `100 * below / total` and never exceeds 100. */
  lemma RoundedPercentage(below: nat, total: nat, q: int)
    requires 0 < total && below <= total
    requires q == (200 * below + total) / (2 * total)
    ensures 0 <= q <= 100
    ensures 2 * total * q <= 200 * below + total < 2 * total * (q + 1)
  {
    var n, d := 200 * below + total, 2 * total;
    var r := n % d;
    assert n == d * q + r && 0 <= r < d;
    assert n < d * 101;
    if q > 100 {
      MulMonotone(d, 101, q);
      assert false;
    }
    if q < 0 {
      MulMonotone(d, q, -1);
      assert false;
    }
    assert d * (q + 1) == d * q + d;
  }

  /** Multiplying by a positive number keeps the order. */
  lemma MulMonotone(d: int, a: int, b: int)
    requires d > 0 && a <= b
    ensures d * a <= d * b
  {
    assert d * b - d * a == d * (b - a);
  }

  /** A commit whose metrics are all below scores 100; one with none below
      scores 0. */
  lemma QualityExtremes(s: Summary)
    ensures s.Total() > 0 && s.below == s.Total() ==> QualityScore(s) == 100
    ensures s.below == 0 ==> QualityScore(s) == 0
  {
    var t := s.Total();
    if t > 0 && s.below == t {
      DivUnique(200 * s.below + t, 2 * t, 100, t);
    }
    if t > 0 && s.below == 0 {
      DivUnique(200 * s.below + t, 2 * t, 0, t);
    }
  }

  /** Integer division is determined by any quotient and remainder pair. */
  lemma DivUnique(n: int, d: int, q: int, r: int)
    requires d > 0 && n == d * q + r && 0 <= r < d
    ensures n / d == q
  {
    var q', r' := n / d, n % d;
    assert d * q' + r' == d * q + r;
    if q' > q {
      assert d * (q' - q) == d * q' - d * q;
      MulMonotone(d, 1, q' - q);
      assert false;
    }
    if q' < q {
      assert d * (q - q') == d * q - d * q';
      MulMonotone(d, 1, q - q');
      assert false;
    }
  }

  /** The per-commit quality scores, oldest first. */
  function Qualities(ss: seq<Summary>): (qs: seq<nat>)
    ensures |qs| == |ss|
    ensures forall i :: 0 <= i < |qs| ==> qs[i] == QualityScore(ss[i]) && qs[i] <= 100
  {
    if ss == [] then [] else Qualities(ss[..|ss| - 1]) + [QualityScore(ss[|ss| - 1])]
  }
}
