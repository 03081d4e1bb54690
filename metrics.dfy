/** Bounded gauges: the clamp every metric update goes through. */
module Metrics {
  import opened Content

  /** A gauge value within [0, 100]. */
  predicate InRange(v: int) {
    0 <= v <= 100
  }

  function Distance(a: int, b: int): nat {
    if a <= b then b - a else a - b
  }

  /** `clamp(value)` with its default bounds 0 and 100. */
  function Clamp(v: int): (r: int)
    ensures InRange(r)
    ensures InRange(v) ==> r == v
  {
    if v < 0 then 0 else if v > 100 then 100 else v
  }

  /** No value in [0, 100] lies closer to `v` than `Clamp(v)` does. */
  lemma ClampIsNearest(v: int, w: int)
    requires InRange(w)
    ensures Distance(Clamp(v), v) <= Distance(w, v)
  {
  }

  /** Every gauge of a metric map lies within [0, 100]. */
  ghost predicate MetricsInRange(m: map<string, int>) {
    forall k | k in m :: InRange(m[k])
  }

  /** `state.metrics[key] || 0`: an absent key reads as 0. */
  function MetricOrZero(m: map<string, int>, key: string): int {
    if key in m then m[key] else 0
  }

  /** The keys an effects record's `metrics` object names. */
  function DeltaKeys(ds: seq<MetricDelta>): set<string>
  {
    if ds == [] then {} else DeltaKeys(ds[..|ds| - 1]) + {ds[|ds| - 1].key}
  }

  /**
   * Adds each delta to its metric (an absent one starting from 0) and clamps
   * the sum, one entry after another.
   */
  function ApplyMetricDeltas(m: map<string, int>, ds: seq<MetricDelta>): (r: map<string, int>)
    ensures r.Keys == m.Keys + DeltaKeys(ds)
    decreases |ds|
  {
    if ds == [] then m
    else
      var prev := ApplyMetricDeltas(m, ds[..|ds| - 1]);
      var last := ds[|ds| - 1];
      prev[last.key := Clamp(MetricOrZero(prev, last.key) + last.delta)]
  }

  /**
   * Every metric the deltas name ends in [0, 100], every other metric keeps
   * its value, and a map within bounds stays within bounds.
   */
  lemma {:induction false} ApplyMetricDeltasFacts(m: map<string, int>, ds: seq<MetricDelta>)
    ensures forall k | k in DeltaKeys(ds) :: InRange(ApplyMetricDeltas(m, ds)[k])
    ensures forall k | k in m && k !in DeltaKeys(ds) :: ApplyMetricDeltas(m, ds)[k] == m[k]
    ensures MetricsInRange(m) ==> MetricsInRange(ApplyMetricDeltas(m, ds))
    decreases |ds|
  {
    if ds != [] {
      ApplyMetricDeltasFacts(m, ds[..|ds| - 1]);
    }
  }

  /** A metric the record names but the state lacks starts from 0. */
  lemma AbsentMetricStartsFromZero(m: map<string, int>, key: string, delta: int)
    requires key !in m
    ensures ApplyMetricDeltas(m, [MetricDelta(key, delta)])[key] == Clamp(delta)
  {
  }

  /** The keys of two runs of entries are the keys of each. */
  lemma {:induction false} DeltaKeysOfConcat(xs: seq<MetricDelta>, ys: seq<MetricDelta>)
    ensures DeltaKeys(xs + ys) == DeltaKeys(xs) + DeltaKeys(ys)
    decreases |ys|
  {
    if ys == [] {
      assert xs + ys == xs;
    } else {
      var front := ys[..|ys| - 1];
      DeltaKeysOfConcat(xs, front);
      assert (xs + ys)[..|xs + ys| - 1] == xs + front;
    }
  }

  /** Applying two runs of entries is applying the first, then the second. */
  lemma {:induction false} ApplyMetricDeltasOfConcat(m: map<string, int>, xs: seq<MetricDelta>, ys: seq<MetricDelta>)
    ensures ApplyMetricDeltas(m, xs + ys) == ApplyMetricDeltas(ApplyMetricDeltas(m, xs), ys)
    decreases |ys|
  {
    if ys == [] {
      assert xs + ys == xs;
    } else {
      var front := ys[..|ys| - 1];
      ApplyMetricDeltasOfConcat(m, xs, front);
      assert (xs + ys)[..|xs + ys| - 1] == xs + front;
    }
  }

  /** A metric the entries do not name reads the same before and after them. */
  lemma UnnamedMetricReadsTheSame(m: map<string, int>, ds: seq<MetricDelta>, key: string)
    requires key !in DeltaKeys(ds)
    ensures MetricOrZero(ApplyMetricDeltas(m, ds), key) == MetricOrZero(m, key)
  {
  }

  /**
   * A metric the `metrics` object names once (the keys of a JSON object are
   * distinct) ends as the clamp of its old value, 0 when absent, plus its
   * delta, wherever the entry stands in the iteration order.
   */
  lemma NamedMetricValue(m: map<string, int>, pre: seq<MetricDelta>, key: string, delta: int, post: seq<MetricDelta>)
    requires key !in DeltaKeys(pre + post)
    ensures key in ApplyMetricDeltas(m, pre + [MetricDelta(key, delta)] + post)
    ensures ApplyMetricDeltas(m, pre + [MetricDelta(key, delta)] + post)[key]
         == Clamp(MetricOrZero(m, key) + delta)
  {
    var xs := pre + [MetricDelta(key, delta)];
    DeltaKeysOfConcat(pre, post);
    assert xs[..|xs| - 1] == pre;
    var mid := ApplyMetricDeltas(m, xs);
    UnnamedMetricReadsTheSame(m, pre, key);
    assert key in mid && mid[key] == Clamp(MetricOrZero(m, key) + delta);
    ApplyMetricDeltasOfConcat(m, xs, post);
    UnnamedMetricReadsTheSame(mid, post, key);
    assert key in ApplyMetricDeltas(mid, post) by {
      assert ApplyMetricDeltas(mid, post).Keys == mid.Keys + DeltaKeys(post);
    }
  }
}
