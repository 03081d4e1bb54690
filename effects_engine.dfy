/**
 * The effects engine (`applyEffects`): each recognised field of an effects
 * record changes one part of the state, in a fixed order; absent or falsy
 * fields are skipped.
 */
module EffectsEngine {
  import opened Wrappers
  import opened Content
  import opened Metrics
  import opened SimState

  /** The pending deadline an `addDeadline` record becomes. */
  function ToDeadline(nd: NewDeadline): Deadline {
    Deadline(nd.title, nd.days, nd.consequence)
  }

  /** The deadline an effects record adds, if it has an `addDeadline` field. */
  function DeadlineAdded(e: Effects): Option<Deadline> {
    if e.addDeadline.Some? then Some(ToDeadline(e.addDeadline.value)) else None
  }

  /** A text field that a non-empty (truthy) value overwrites. */
  function Overwritten(current: string, value: string): string {
    if value != "" then value else current
  }

  /** A 0..100 gauge moved by a non-zero (truthy) delta and clamped. */
  function Bumped(current: int, delta: int): int {
    if delta != 0 then Clamp(current + delta) else current
  }

  /** A list that an optional record extends by exactly one entry. */
  function Appended<T>(xs: seq<T>, x: Option<T>): seq<T> {
    if x.Some? then xs + [x.value] else xs
  }

  /** Adds a delta to one named gauge of the metric map and clamps it. */
  function BumpMetric(m: map<string, int>, key: string, delta: int): (r: map<string, int>)
    ensures r.Keys == m.Keys + {key}
    ensures InRange(r[key])
    ensures forall k | k in m && k != key :: r[k] == m[k]
  {
    m[key := Clamp(MetricOrZero(m, key) + delta)]
  }

  /**
   * The metric map after an effects record: first the `metrics` deltas, then
   * the flat `teamCohesion` delta, then `stressDelta`.
   */
  function UpdatedMetrics(m: map<string, int>, e: Effects): (r: map<string, int>)
    ensures r.Keys == m.Keys + DeltaKeys(e.metrics)
      + (if e.teamCohesion != 0 then {"teamCohesion"} else {})
      + (if e.stressDelta != 0 then {"stress"} else {})
  {
    var m1 := ApplyMetricDeltas(m, e.metrics);
    var m2 := if e.teamCohesion != 0 then BumpMetric(m1, "teamCohesion", e.teamCohesion) else m1;
    if e.stressDelta != 0 then BumpMetric(m2, "stress", e.stressDelta) else m2
  }

  /** Whether the flat `teamCohesion` or `stressDelta` field of `e` moves the metric `k`. */
  predicate FlatDeltaTouches(e: Effects, k: string) {
    (k == "teamCohesion" && e.teamCohesion != 0) || (k == "stress" && e.stressDelta != 0)
  }

  /** A metric no flat delta moves has its value after the `metrics` deltas. */
  lemma UpdatedMetricsFrame(m: map<string, int>, e: Effects, k: string)
    requires k in ApplyMetricDeltas(m, e.metrics) && !FlatDeltaTouches(e, k)
    ensures UpdatedMetrics(m, e)[k] == ApplyMetricDeltas(m, e.metrics)[k]
  {
  }

  /**
   * After an effects record: a metric no flat delta touches has its value
   * after the `metrics` deltas, so an unnamed one keeps its old value;
   * `teamCohesion` is the clamp of its value after the `metrics` deltas plus
   * the flat delta, and `stress` likewise; every named or moved metric lies
   * within [0, 100], and a map within bounds stays within bounds.
   */
  lemma UpdatedMetricsFacts(m: map<string, int>, e: Effects)
    ensures forall k | k in DeltaKeys(e.metrics) && !FlatDeltaTouches(e, k) ::
      UpdatedMetrics(m, e)[k] == ApplyMetricDeltas(m, e.metrics)[k] && InRange(UpdatedMetrics(m, e)[k])
    ensures forall k | k in m && k !in DeltaKeys(e.metrics) && !FlatDeltaTouches(e, k) ::
      UpdatedMetrics(m, e)[k] == m[k]
    ensures e.teamCohesion != 0 ==>
      UpdatedMetrics(m, e)["teamCohesion"]
        == Clamp(MetricOrZero(ApplyMetricDeltas(m, e.metrics), "teamCohesion") + e.teamCohesion)
    ensures e.stressDelta != 0 ==>
      UpdatedMetrics(m, e)["stress"]
        == Clamp(MetricOrZero(ApplyMetricDeltas(m, e.metrics), "stress") + e.stressDelta)
    ensures MetricsInRange(m) ==> MetricsInRange(UpdatedMetrics(m, e))
  {
    ApplyMetricDeltasFacts(m, e.metrics);
    var m1 := ApplyMetricDeltas(m, e.metrics);
    forall k | k in m1 && !FlatDeltaTouches(e, k)
      ensures UpdatedMetrics(m, e)[k] == m1[k]
    {
      UpdatedMetricsFrame(m, e, k);
    }
    var m2 := if e.teamCohesion != 0 then BumpMetric(m1, "teamCohesion", e.teamCohesion) else m1;
    assert MetricOrZero(m2, "stress") == MetricOrZero(m1, "stress");
  }

  /**
   * A metric the record's `metrics` object names once, and no flat delta
   * moves, ends as the clamp of its old value (0 when absent) plus its delta:
   * `legalRisk: 10` on a legal risk of 20 makes it 30.
   */
  lemma NamedMetricEffect(m: map<string, int>, e: Effects,
                          pre: seq<MetricDelta>, key: string, delta: int, post: seq<MetricDelta>)
    requires e.metrics == pre + [MetricDelta(key, delta)] + post
    requires key !in DeltaKeys(pre + post) && !FlatDeltaTouches(e, key)
    ensures key in UpdatedMetrics(m, e)
    ensures UpdatedMetrics(m, e)[key] == Clamp(MetricOrZero(m, key) + delta)
  {
    NamedMetricValue(m, pre, key, delta, post);
    ApplyMetricDeltasFacts(m, e.metrics);
    UpdatedMetricsFacts(m, e);
  }

  /** `applyEffects(effects)` on the state `s`. */
  function ApplyEffects(s: State, e: Effects): (r: State)
    ensures ControlUnchanged(s, r) && r.log == s.log
    ensures r.metrics == UpdatedMetrics(s.metrics, e)
    ensures e.addDeadline.None? ==> r.pendingDeadlines == s.pendingDeadlines
    ensures e.addDeadline.Some? ==>
      r.pendingDeadlines == s.pendingDeadlines + [ToDeadline(e.addDeadline.value)]
    ensures e.addNote.None? ==> r.notes == s.notes
    ensures e.addNote.Some? ==> r.notes == s.notes + [e.addNote.value]
    ensures e.addCaseFile.None? ==> r.caseFiles == s.caseFiles
    ensures e.addCaseFile.Some? ==> r.caseFiles == s.caseFiles + [e.addCaseFile.value]
    ensures r.formalStatus == if e.formalStatus != "" then e.formalStatus else s.formalStatus
    ensures r.escalationLevel == if e.escalationLevel != "" then e.escalationLevel else s.escalationLevel
    ensures e.meetingMinutesQuality == 0 ==> r.meetingMinutesQuality == s.meetingMinutesQuality
    ensures e.meetingMinutesQuality != 0 ==>
      r.meetingMinutesQuality == Clamp(s.meetingMinutesQuality + e.meetingMinutesQuality)
    ensures e.gbrRelationship == 0 ==> r.gbrRelationship == s.gbrRelationship
    ensures e.gbrRelationship != 0 ==> r.gbrRelationship == Clamp(s.gbrRelationship + e.gbrRelationship)
    ensures InRange(s.meetingMinutesQuality) ==> InRange(r.meetingMinutesQuality)
    ensures InRange(s.gbrRelationship) ==> InRange(r.gbrRelationship)
  {
    s.(metrics := UpdatedMetrics(s.metrics, e),
       formalStatus := Overwritten(s.formalStatus, e.formalStatus),
       pendingDeadlines := Appended(s.pendingDeadlines, DeadlineAdded(e)),
       notes := Appended(s.notes, e.addNote),
       caseFiles := Appended(s.caseFiles, e.addCaseFile),
       meetingMinutesQuality := Bumped(s.meetingMinutesQuality, e.meetingMinutesQuality),
       escalationLevel := Overwritten(s.escalationLevel, e.escalationLevel),
       gbrRelationship := Bumped(s.gbrRelationship, e.gbrRelationship))
  }

  /** Under any effects record the state invariant, bounds included, is kept. */
  lemma ApplyEffectsKeepsInvariant(s: State, e: Effects)
    requires Invariant(s)
    ensures Invariant(ApplyEffects(s, e))
  {
    var r := ApplyEffects(s, e);
    UpdatedMetricsFacts(s.metrics, e);
    assert MetricsInRange(r.metrics);
    assert "teamCohesion" in r.metrics && "stress" in r.metrics;
  }

  /** The empty record `{}` changes nothing. */
  lemma NoEffectsChangeNothing(s: State)
    ensures ApplyEffects(s, NoEffects) == s
  {
  }
}
