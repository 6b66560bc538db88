/** The threshold classifier: `metricThreshold` of RepositoryMetrics.js places one
    metric value below, between or above the bounds configured for that metric. */
module Classifier {

  /** A JavaScript number as the relational operators see it. `NaN` also stands
      for `undefined`, which is what reading a threshold key that is not
      configured yields: every `<=` or `>=` with either of them is false. */
  datatype Number = Finite(x: real) | NaN

  /** The threshold configuration: keys `<metric>nonbuggy` and `<metric>buggy`
      mapped to numeric bounds. */
  type Thresholds = map<string, real>

  const NonBuggySuffix: string := "nonbuggy"
  const BuggySuffix: string := "buggy"

  /** The verdicts, with the numeric codes the source stores in `threshold`. */
  const Below: int := -1
  const Between: int := 0
  const Above: int := 1

  /** Reading `thresholds[key]`. */
  function Bound(t: Thresholds, key: string): Number
  {
    if key in t then Finite(t[key]) else NaN
  }

  /** JavaScript `a <= b`. */
  predicate AtMost(a: Number, b: Number)
  {
    a.Finite? && b.Finite? && a.x <= b.x
  }

  /** JavaScript `a >= b`. */
  predicate AtLeast(a: Number, b: Number)
  {
    a.Finite? && b.Finite? && a.x >= b.x
  }

  /** A commit key names a metric when the configuration has a `nonbuggy`
      bound for it; the `buggy` bound is not consulted. */
  predicate IsMetric(t: Thresholds, key: string)
  {
    key + NonBuggySuffix in t
  }

  /** The record `{value, threshold}` that replaces a metric on the commit. */
  datatype Rating = Rating(value: Number, threshold: int)

  /** Classifies `value` for metric `key`: the `nonbuggy` test comes first,
      then the `buggy` test, and a value that passes neither is in between. */
  function MetricThreshold(t: Thresholds, key: string, value: Number): (r: Rating)
    ensures r.value == value
    ensures Below <= r.threshold <= Above
    ensures r.threshold == Below <==> AtMost(value, Bound(t, key + NonBuggySuffix))
    ensures r.threshold == Above <==>
              !AtMost(value, Bound(t, key + NonBuggySuffix)) && AtLeast(value, Bound(t, key + BuggySuffix))
    ensures r.threshold == Between <==>
              !AtMost(value, Bound(t, key + NonBuggySuffix)) && !AtLeast(value, Bound(t, key + BuggySuffix))
  {
    var threshold :=
      if AtMost(value, Bound(t, key + NonBuggySuffix)) then Below
      else if AtLeast(value, Bound(t, key + BuggySuffix)) then Above
      else Between;
    Rating(value, threshold)
  }

  /** With both bounds configured and `nonbuggy < buggy`, the verdict depends
      only on where the value lies, not on the order of the two tests. */
  lemma ClassifyOrderedBounds(t: Thresholds, key: string, v: real)
    requires key + NonBuggySuffix in t && key + BuggySuffix in t
    requires t[key + NonBuggySuffix] < t[key + BuggySuffix]
    ensures MetricThreshold(t, key, Finite(v)).threshold == Below <==> v <= t[key + NonBuggySuffix]
    ensures MetricThreshold(t, key, Finite(v)).threshold == Between <==>
              t[key + NonBuggySuffix] < v < t[key + BuggySuffix]
    ensures MetricThreshold(t, key, Finite(v)).threshold == Above <==> t[key + BuggySuffix] <= v
  {
  }

  /** A larger value never gets a better verdict, whatever the bounds. */
  lemma ClassifyMonotone(t: Thresholds, key: string, v: real, w: real)
    requires v <= w
    ensures MetricThreshold(t, key, Finite(v)).threshold <= MetricThreshold(t, key, Finite(w)).threshold
  {
  }

  /** A value that is not a number fails both tests and lands in between. */
  lemma ClassifyNaN(t: Thresholds, key: string)
    ensures MetricThreshold(t, key, NaN).threshold == Between
  {
  }

  /** When `nonbuggy >= buggy` (the bounds are not validated), no number is
      classified as between. */
  lemma ClassifyInvertedBounds(t: Thresholds, key: string, v: real)
    requires key + NonBuggySuffix in t && key + BuggySuffix in t
    requires t[key + NonBuggySuffix] >= t[key + BuggySuffix]
    ensures MetricThreshold(t, key, Finite(v)).threshold != Between
  {
  }

  /** Metric `a` with bounds 2 and 8: 1 is below, 5 between, 9 above. */
  lemma ClassifyExamples()
    ensures var t := map["anonbuggy" := 2.0, "abuggy" := 8.0];
            && MetricThreshold(t, "a", Finite(1.0)).threshold == Below
            && MetricThreshold(t, "a", Finite(5.0)).threshold == Between
            && MetricThreshold(t, "a", Finite(9.0)).threshold == Above
  {
    var t := map["anonbuggy" := 2.0, "abuggy" := 8.0];
    assert "a" + NonBuggySuffix == "anonbuggy";
    assert "a" + BuggySuffix == "abuggy";
  }
}
