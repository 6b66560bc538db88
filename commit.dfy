/** The commit record that parseCommit annotates in place, and the
    specification of what that annotation and its summary count. */
module Commits {
  import opened Classifier
  import opened Summaries

  /** One field of a commit record. */
  datatype Field =
    | Num(n: real)             // a number, or text that parseFloat reads as that number
    | Other(text: string)      // any value parseFloat reads as NaN
    | Rated(rating: Rating)    // a metric already replaced by its classification
    | Counts(summary: Summary) // a `metric_summary` record

  /** The key under which parseCommit attaches the commit's summary. */
  const SummaryKey: string := "metric_summary"

  /** `parseFloat(field)`: a number reads as itself, anything else as NaN. */
  function ParseFloat(f: Field): Number
  {
    if f.Num? then Finite(f.n) else NaN
  }

  /** The verdict parseCommit obtains for the field at `key`. */
  function Verdict(t: Thresholds, key: string, f: Field): int
  {
    MetricThreshold(t, key, ParseFloat(f)).threshold
  }

  /** A commit, which parseCommit mutates. */
  class Commit {
    var fields: map<string, Field>

    constructor (fields: map<string, Field>)
      ensures this.fields == fields
    {
      this.fields := fields;
    }
  }

  /** The metric keys of `fields`. */
  ghost function MetricKeys(t: Thresholds, fields: map<string, Field>): set<string>
  {
    set k | k in fields && IsMetric(t, k)
  }

  /** The metric keys among `dom` whose verdict is `threshold`. */
  ghost function KeysRated(t: Thresholds, fields: map<string, Field>, dom: set<string>, threshold: int): set<string>
  {
    set k | k in dom && k in fields && IsMetric(t, k) && Verdict(t, k, fields[k]) == threshold
  }

  /** The summary of the metrics among the keys `dom`. */
  ghost function CountIn(t: Thresholds, fields: map<string, Field>, dom: set<string>): Summary
  {
    Summary(|KeysRated(t, fields, dom, Above)|, |KeysRated(t, fields, dom, Between)|, |KeysRated(t, fields, dom, Below)|)
  }

  /** The `metric_summary` parseCommit computes for a commit. */
  ghost function Summarize(t: Thresholds, fields: map<string, Field>): Summary
  {
    CountIn(t, fields, fields.Keys)
  }

  /** What one visited key turns into. */
  function AnnotateField(t: Thresholds, key: string, f: Field): Field
  {
    if IsMetric(t, key) then Rated(MetricThreshold(t, key, ParseFloat(f))) else f
  }

  /** The commit after parseCommit: every metric replaced by its rating, every
      other field as it was, and the summary attached. */
  ghost function Annotated(t: Thresholds, fields: map<string, Field>): (r: map<string, Field>)
    ensures r.Keys == fields.Keys + {SummaryKey}
    ensures r[SummaryKey] == Counts(Summarize(t, fields))
    ensures forall k :: k in fields && k != SummaryKey && IsMetric(t, k) ==>
              r[k] == Rated(MetricThreshold(t, k, ParseFloat(fields[k])))
    ensures forall k :: k in fields && k != SummaryKey && !IsMetric(t, k) ==> r[k] == fields[k]
  {
    (map k | k in fields :: AnnotateField(t, k, fields[k]))[SummaryKey := Counts(Summarize(t, fields))]
  }

  /** Visiting one more key adds its verdict to the count if it is a metric
      of the record, and nothing otherwise. */
  lemma CountInStep(t: Thresholds, fields: map<string, Field>, done: set<string>, key: string)
    requires key !in done
    ensures key in fields && IsMetric(t, key) ==>
              CountIn(t, fields, done + {key}) == Tally(CountIn(t, fields, done), Verdict(t, key, fields[key]))
    ensures !(key in fields && IsMetric(t, key)) ==> CountIn(t, fields, done + {key}) == CountIn(t, fields, done)
  {
    KeysRatedStep(t, fields, done, key, Above);
    KeysRatedStep(t, fields, done, key, Between);
    KeysRatedStep(t, fields, done, key, Below);
  }

  /** One bucket's share of CountInStep. */
  lemma KeysRatedStep(t: Thresholds, fields: map<string, Field>, done: set<string>, key: string, th: int)
    requires key !in done
    ensures |KeysRated(t, fields, done + {key}, th)| ==
            |KeysRated(t, fields, done, th)|
            + (if key in fields && IsMetric(t, key) && Verdict(t, key, fields[key]) == th then 1 else 0)
  {
    var before := KeysRated(t, fields, done, th);
    if key in fields && IsMetric(t, key) && Verdict(t, key, fields[key]) == th {
      assert KeysRated(t, fields, done + {key}, th) == before + {key};
    } else {
      assert KeysRated(t, fields, done + {key}, th) == before;
    }
  }

  /** Keys outside the record count nothing. */
  lemma CountInRecordOnly(t: Thresholds, fields: map<string, Field>, dom: set<string>)
    requires fields.Keys <= dom
    ensures CountIn(t, fields, dom) == Summarize(t, fields)
  {
    forall th | th in {Above, Between, Below}
      ensures KeysRated(t, fields, dom, th) == KeysRated(t, fields, fields.Keys, th)
    {
    }
  }

  /** Every metric of the commit lands in exactly one bucket, so the summary's
      total is the number of metric keys. */
  lemma SummarizeCountsMetrics(t: Thresholds, fields: map<string, Field>)
    ensures Summarize(t, fields).Total() == |MetricKeys(t, fields)|
  {
    var above := KeysRated(t, fields, fields.Keys, Above);
    var between := KeysRated(t, fields, fields.Keys, Between);
    var below := KeysRated(t, fields, fields.Keys, Below);
    assert above !! between && above !! below && between !! below;
    assert MetricKeys(t, fields) == above + between + below;
    assert |above + between| == |above| + |between|;
    assert |above + between + below| == |above + between| + |below|;
  }

  /** A commit without metrics contributes the empty summary. */
  lemma SummarizeNoMetrics(t: Thresholds, fields: map<string, Field>)
    requires forall k :: k in fields ==> !IsMetric(t, k)
    ensures Summarize(t, fields) == Empty
  {
    assert KeysRated(t, fields, fields.Keys, Above) == {};
    assert KeysRated(t, fields, fields.Keys, Between) == {};
    assert KeysRated(t, fields, fields.Keys, Below) == {};
  }

  /** A commit whose only metric is `key` is summarized by that one verdict;
      other fields do not matter. */
  lemma SummarizeOneMetric(t: Thresholds, fields: map<string, Field>, key: string)
    requires key in fields && IsMetric(t, key)
    requires forall k :: k in fields && k != key ==> !IsMetric(t, k)
    ensures Summarize(t, fields) == Tally(Empty, Verdict(t, key, fields[key]))
  {
    var v := Verdict(t, key, fields[key]);
    forall th | th in {Above, Between, Below}
      ensures KeysRated(t, fields, fields.Keys, th) == if v == th then {key} else {}
    {
    }
  }

  /** The body of parseCommit up to the fold: attach a fresh summary, visit
      every key of the commit, replace each metric by its classification and
      count it. The keys are visited in no particular order; the record is
      annotated as a local copy and stored back once. */
  method AnnotateCommit(t: Thresholds, commit: Commit) returns (summary: Summary)
    requires !IsMetric(t, SummaryKey)
    modifies commit
    ensures commit.fields == Annotated(t, old(commit.fields))
    ensures summary == Summarize(t, old(commit.fields))
  {
    ghost var original := commit.fields;
    summary := Empty;
    var fields := commit.fields[SummaryKey := Counts(summary)];
    var keys := fields.Keys;
    ghost var visited: set<string> := {};
    while keys != {}
      invariant Visiting(t, original, fields, keys, visited)
      invariant summary == CountIn(t, original, visited)
      decreases keys
    {
      var key :| key in keys;
      CountInStep(t, original, visited, key);
      if IsMetric(t, key) {
        VisitMetric(t, original, fields, keys, visited, key);
        var rating := MetricThreshold(t, key, ParseFloat(fields[key]));
        fields := fields[key := Rated(rating)];
        summary := Tally(summary, rating.threshold);
      } else {
        VisitOther(t, original, fields, keys, visited, key);
      }
      keys := keys - {key};
      visited := visited + {key};
    }
    AnnotationComplete(t, original, fields, keys, visited, summary);
    commit.fields := fields[SummaryKey := Counts(summary)];
  }

  /** The loop invariant of AnnotateCommit on the record: `keys` are still to
      visit, the visited ones are annotated, the others untouched. */
  ghost predicate Visiting(t: Thresholds, original: map<string, Field>, fields: map<string, Field>,
                           keys: set<string>, visited: set<string>)
  {
    && keys + visited == original.Keys + {SummaryKey} && keys !! visited
    && fields.Keys == original.Keys + {SummaryKey}
    && (forall k :: k in keys && k != SummaryKey ==> fields[k] == original[k])
    && (forall k :: k in visited && k != SummaryKey ==> fields[k] == AnnotateField(t, k, original[k]))
  }

  /** Visiting a metric key replaces it by its rating, keeping the invariant. */
  lemma VisitMetric(t: Thresholds, original: map<string, Field>, fields: map<string, Field>,
                    keys: set<string>, visited: set<string>, key: string)
    requires !IsMetric(t, SummaryKey) && IsMetric(t, key)
    requires Visiting(t, original, fields, keys, visited) && key in keys
    ensures key in original && fields[key] == original[key]
    ensures Visiting(t, original, fields[key := Rated(MetricThreshold(t, key, ParseFloat(fields[key])))],
                     keys - {key}, visited + {key})
  {
    assert key != SummaryKey;
  }

  /** Visiting any other key leaves the record as it is. */
  lemma VisitOther(t: Thresholds, original: map<string, Field>, fields: map<string, Field>,
                   keys: set<string>, visited: set<string>, key: string)
    requires !IsMetric(t, key)
    requires Visiting(t, original, fields, keys, visited) && key in keys
    ensures Visiting(t, original, fields, keys - {key}, visited + {key})
  {
  }

  /** Once every key has been visited and the summary attached, the record is
      fully annotated. */
  lemma AnnotationComplete(t: Thresholds, original: map<string, Field>, fields: map<string, Field>,
                           keys: set<string>, visited: set<string>, summary: Summary)
    requires keys == {} && Visiting(t, original, fields, keys, visited)
    requires summary == CountIn(t, original, visited)
    ensures fields[SummaryKey := Counts(summary)] == Annotated(t, original)
    ensures summary == Summarize(t, original)
  {
    CountInRecordOnly(t, original, visited);
    var fields' := fields[SummaryKey := Counts(summary)];
    var expected := Annotated(t, original);
    forall k | k in expected
      ensures fields'[k] == expected[k]
    {
    }
  }
}
