/**
 * The deadline scheduler (`applyDeadlines`): on every time advance each
 * pending deadline loses a day; the ones that reach 0 or less have their
 * consequence applied, in insertion order, and are then dropped.
 */
module Deadlines {
  import opened Wrappers
  import opened Content
  import opened Metrics
  import opened SimState
  import opened EventLog
  import opened EffectsEngine

  function Decrement(d: Deadline): Deadline {
    d.(daysLeft := d.daysLeft - 1)
  }

  /** The `forEach` that takes one day off every pending deadline. */
  function DecrementAll(ds: seq<Deadline>): (r: seq<Deadline>)
    ensures |r| == |ds|
    ensures forall i | 0 <= i < |ds| ::
      r[i].daysLeft == ds[i].daysLeft - 1 && r[i].title == ds[i].title
      && r[i].consequence == ds[i].consequence
  {
    seq(|ds|, i requires 0 <= i < |ds| => Decrement(ds[i]))
  }

  /** `filter((d) => d.daysLeft <= 0)`. */
  function Overdue(ds: seq<Deadline>): (r: seq<Deadline>)
    ensures |r| <= |ds|
    ensures forall i | 0 <= i < |r| :: r[i].daysLeft <= 0
    decreases |ds|
  {
    if ds == [] then []
    else
      var last := ds[|ds| - 1];
      Overdue(ds[..|ds| - 1]) + (if last.daysLeft <= 0 then [last] else [])
  }

  /** `filter((d) => d.daysLeft > 0)`. */
  function Remaining(ds: seq<Deadline>): (r: seq<Deadline>)
    ensures |r| <= |ds|
    ensures forall i | 0 <= i < |r| :: r[i].daysLeft > 0
    decreases |ds|
  {
    if ds == [] then []
    else
      var last := ds[|ds| - 1];
      Remaining(ds[..|ds| - 1]) + (if last.daysLeft > 0 then [last] else [])
  }

  /** Every deadline goes to exactly one of the two filters, as often as it occurs. */
  lemma {:induction false} OverdueOrRemainingExactlyOnce(ds: seq<Deadline>)
    ensures multiset(Overdue(ds)) + multiset(Remaining(ds)) == multiset(ds)
    decreases |ds|
  {
    if ds != [] {
      var front := ds[..|ds| - 1];
      var last := ds[|ds| - 1];
      OverdueOrRemainingExactlyOnce(front);
      assert ds == front + [last];
      assert Overdue(ds) == Overdue(front) + (if last.daysLeft <= 0 then [last] else []);
      assert Remaining(ds) == Remaining(front) + (if last.daysLeft > 0 then [last] else []);
    }
  }

  /** The overdue filter keeps insertion order: filtering a concatenation filters each part. */
  lemma {:induction false} OverdueOfConcat(a: seq<Deadline>, b: seq<Deadline>)
    ensures Overdue(a + b) == Overdue(a) + Overdue(b)
    decreases |b|
  {
    if b == [] {
      assert a + b == a;
    } else {
      var front := b[..|b| - 1];
      OverdueOfConcat(a, front);
      assert (a + b)[..|a + b| - 1] == a + front;
      assert (a + b)[|a + b| - 1] == b[|b| - 1];
    }
  }

  /** The final filter keeps insertion order: filtering a concatenation filters each part. */
  lemma {:induction false} RemainingOfConcat(a: seq<Deadline>, b: seq<Deadline>)
    ensures Remaining(a + b) == Remaining(a) + Remaining(b)
    decreases |b|
  {
    if b == [] {
      assert a + b == a;
    } else {
      var front := b[..|b| - 1];
      RemainingOfConcat(a, front);
      assert (a + b)[..|a + b| - 1] == a + front;
      assert (a + b)[|a + b| - 1] == b[|b| - 1];
    }
  }

  /** `deadline.consequence || {}`. */
  function Consequence(d: Deadline): Effects {
    d.consequence.GetOr(NoEffects)
  }

  function MissedText(d: Deadline): string {
    "Frist verpasst: " + d.title
  }

  /** One expired deadline: its consequence through the effects engine, then one log entry. */
  function Fire(s: State, d: Deadline): (r: State)
    ensures ControlUnchanged(s, r)
    ensures r.pendingDeadlines == Appended(s.pendingDeadlines, DeadlineAdded(Consequence(d)))
    ensures r.log == AppendCapped(s.log, LogEntry(s.day, s.slot, MissedText(d)))
    ensures r.metrics == UpdatedMetrics(s.metrics, Consequence(d))
    ensures r.(log := s.log) == ApplyEffects(s, Consequence(d))
  {
    LogEvent(ApplyEffects(s, Consequence(d)), MissedText(d))
  }

  /** The consequences of `ds`, `{}` when missing, applied one after another through the effects engine. */
  function ApplyConsequences(s: State, ds: seq<Deadline>): State
    decreases |ds|
  {
    if ds == [] then s else ApplyEffects(ApplyConsequences(s, ds[..|ds| - 1]), Consequence(ds[|ds| - 1]))
  }

  /** The effects engine neither reads nor writes the log. */
  lemma ApplyEffectsIgnoresLog(s: State, e: Effects, log: seq<LogEntry>)
    ensures ApplyEffects(s.(log := log), e) == ApplyEffects(s, e).(log := log)
  {
  }

  /**
   * Apart from the log, firing `ds` is applying each of their consequences
   * exactly once, in order.
   */
  lemma {:induction false} FireAllAppliesEachConsequence(s: State, ds: seq<Deadline>)
    ensures FireAll(s, ds).(log := s.log) == ApplyConsequences(s, ds)
    decreases |ds|
  {
    if ds != [] {
      var front := ds[..|ds| - 1];
      var f := FireAll(s, front);
      FireAllAppliesEachConsequence(s, front);
      assert f.(log := s.log) == ApplyConsequences(s, front);
      var e := Consequence(ds[|ds| - 1]);
      ApplyEffectsIgnoresLog(f, e, s.log);
      assert Fire(f, ds[|ds| - 1]).(log := f.log) == ApplyEffects(f, e);
    }
  }

  /** The expired deadlines fired one after another, in the order given. */
  function FireAll(s: State, ds: seq<Deadline>): State
    decreases |ds|
  {
    if ds == [] then s else Fire(FireAll(s, ds[..|ds| - 1]), ds[|ds| - 1])
  }

  /** The deadlines the consequences of `ds` add, in the order they are added. */
  function AddedBy(ds: seq<Deadline>): seq<Deadline>
    decreases |ds|
  {
    if ds == [] then []
    else
      var e := Consequence(ds[|ds| - 1]);
      AddedBy(ds[..|ds| - 1]) + (if e.addDeadline.Some? then [ToDeadline(e.addDeadline.value)] else [])
  }

  /** The log entries firing `ds` writes at the given day and slot. */
  function MissedEntries(day: int, slot: int, ds: seq<Deadline>): seq<LogEntry>
  {
    seq(|ds|, i requires 0 <= i < |ds| => LogEntry(day, slot, MissedText(ds[i])))
  }

  /** Firing expired deadlines leaves the clock and the pending decision alone. */
  lemma {:induction false} FireAllKeepsControl(s: State, ds: seq<Deadline>)
    ensures ControlUnchanged(s, FireAll(s, ds))
    decreases |ds|
  {
    if ds != [] {
      FireAllKeepsControl(s, ds[..|ds| - 1]);
    }
  }

  /** Firing only appends to the pending deadlines: what the consequences add. */
  lemma {:induction false} FireAllAppendsDeadlines(s: State, ds: seq<Deadline>)
    ensures FireAll(s, ds).pendingDeadlines == s.pendingDeadlines + AddedBy(ds)
    decreases |ds|
  {
    if ds != [] {
      var front := ds[..|ds| - 1];
      FireAllAppendsDeadlines(s, front);
      assert FireAll(s, ds).pendingDeadlines
          == ApplyEffects(FireAll(s, front), Consequence(ds[|ds| - 1])).pendingDeadlines;
    }
  }

  /** Firing writes one log entry per expired deadline, in the order given. */
  lemma {:induction false} FireAllLogsEach(s: State, ds: seq<Deadline>)
    ensures FireAll(s, ds).log == LogAll(s.log, MissedEntries(s.day, s.slot, ds))
    decreases |ds|
  {
    if ds == [] {
      assert MissedEntries(s.day, s.slot, ds) == [];
    } else {
      var front := ds[..|ds| - 1];
      FireAllLogsEach(s, front);
      FireAllKeepsControl(s, front);
      var es := MissedEntries(s.day, s.slot, ds);
      assert es[..|es| - 1] == MissedEntries(s.day, s.slot, front);
    }
  }

  /** Firing keeps the invariant, and with it every gauge within bounds. */
  lemma {:induction false} FireAllKeepsInvariant(s: State, ds: seq<Deadline>)
    requires Invariant(s)
    ensures Invariant(FireAll(s, ds))
    decreases |ds|
  {
    if ds != [] {
      var front := ds[..|ds| - 1];
      FireAllKeepsInvariant(s, front);
      ApplyEffectsKeepsInvariant(FireAll(s, front), Consequence(ds[|ds| - 1]));
    }
  }

  /** `applyDeadlines()` on the state `s`. */
  function ApplyDeadlines(s: State): (r: State)
    ensures ControlUnchanged(s, r)
  {
    var ticked := s.(pendingDeadlines := DecrementAll(s.pendingDeadlines));
    var overdue := Overdue(ticked.pendingDeadlines);
    if |overdue| > 0 then
      var fired := FireAll(ticked, overdue);
      FireAllKeepsControl(ticked, overdue);
      fired.(pendingDeadlines := Remaining(fired.pendingDeadlines))
    else
      ticked
  }

  /**
   * After the tick: each original deadline, one day shorter, is still pending
   * exactly when it has days left, in its original order, followed by the
   * deadlines the fired consequences added that have days left; nothing
   * pending has 0 days or fewer; one log entry per expired deadline in
   * insertion order; the clock and the pending decision are untouched and the
   * invariant is kept.
   */
  lemma ApplyDeadlinesFacts(s: State)
    ensures var ticked := DecrementAll(s.pendingDeadlines);
      var overdue := Overdue(ticked);
      var r := ApplyDeadlines(s);
      && r.pendingDeadlines == Remaining(ticked) + Remaining(AddedBy(overdue))
      && (forall d | d in r.pendingDeadlines :: d.daysLeft > 0)
      && r.log == LogAll(s.log, MissedEntries(s.day, s.slot, overdue))
      && ControlUnchanged(s, r)
      && (Invariant(s) ==> Invariant(r))
  {
    var ticked := DecrementAll(s.pendingDeadlines);
    var overdue := Overdue(ticked);
    var t := s.(pendingDeadlines := ticked);
    FireAllKeepsControl(t, overdue);
    FireAllAppendsDeadlines(t, overdue);
    FireAllLogsEach(t, overdue);
    if Invariant(s) {
      FireAllKeepsInvariant(t, overdue);
    }
    RemainingOfConcat(ticked, AddedBy(overdue));
    if |overdue| == 0 {
      OverdueOrRemainingExactlyOnce(ticked);
      assert multiset(Remaining(ticked)) == multiset(ticked);
      assert Remaining(ticked) == ticked by {
        RemainingOfAllLive(ticked);
      }
      assert MissedEntries(s.day, s.slot, overdue) == [];
    }
  }

  /**
   * Apart from the log and the deadline list, the tick leaves the state the
   * consequences of the expired deadlines make of it, each applied exactly
   * once, in insertion order.
   */
  lemma ApplyDeadlinesAppliesConsequences(s: State)
    ensures var t := s.(pendingDeadlines := DecrementAll(s.pendingDeadlines));
      var r := ApplyDeadlines(s);
      r.(log := s.log) == ApplyConsequences(t, Overdue(t.pendingDeadlines)).(pendingDeadlines := r.pendingDeadlines)
  {
    var t := s.(pendingDeadlines := DecrementAll(s.pendingDeadlines));
    FireAllAppliesEachConsequence(t, Overdue(t.pendingDeadlines));
  }

  /**
   * A single deadline with one day left whose consequence raises legal risk
   * by 10: after the tick legal risk is the clamp of its old value plus 10,
   * nothing is pending, and the log ends with the missed-deadline entry.
   */
  lemma MissedDeadlineRaisesLegalRisk(s: State, title: string)
    requires s.pendingDeadlines ==
      [Deadline(title, 1, Some(NoEffects.(metrics := [MetricDelta("legalRisk", 10)])))]
    ensures "legalRisk" in ApplyDeadlines(s).metrics
    ensures ApplyDeadlines(s).metrics["legalRisk"] == Clamp(MetricOrZero(s.metrics, "legalRisk") + 10)
    ensures ApplyDeadlines(s).pendingDeadlines == []
    ensures ApplyDeadlines(s).log == AppendCapped(s.log, LogEntry(s.day, s.slot, "Frist verpasst: " + title))
  {
    var e := NoEffects.(metrics := [MetricDelta("legalRisk", 10)]);
    var d := Deadline(title, 0, Some(e));
    var t := s.(pendingDeadlines := DecrementAll(s.pendingDeadlines));
    assert t.pendingDeadlines == [d];
    assert Overdue([d]) == [d] by {
      assert [d][..0] == [];
    }
    assert FireAll(t, [d]) == Fire(t, d) by {
      assert [d][..0] == [];
    }
    NamedMetricEffect(s.metrics, e, [], "legalRisk", 10, []);
    assert Remaining([d]) == [] by {
      assert [d][..0] == [];
    }
  }

  /** With no deadline expired, the filter keeps everything. */
  lemma {:induction false} RemainingOfAllLive(ds: seq<Deadline>)
    requires Overdue(ds) == []
    ensures Remaining(ds) == ds
    decreases |ds|
  {
    if ds != [] {
      var front := ds[..|ds| - 1];
      assert Overdue(front) == [];
      RemainingOfAllLive(front);
    }
  }

  /** An element whose days have run out is picked up by the overdue filter. */
  lemma {:induction false} ExpiredIsOverdue(ds: seq<Deadline>, i: int)
    requires 0 <= i < |ds| && ds[i].daysLeft <= 0
    ensures ds[i] in Overdue(ds)
    decreases |ds|
  {
    if i < |ds| - 1 {
      ExpiredIsOverdue(ds[..|ds| - 1], i);
    }
  }

  /**
   * A pending deadline with one day left expires on the next advance: it is
   * among the deadlines fired, and it is no longer pending afterwards.
   */
  lemma DueTomorrowExpires(s: State, i: int)
    requires 0 <= i < |s.pendingDeadlines| && s.pendingDeadlines[i].daysLeft == 1
    ensures DecrementAll(s.pendingDeadlines)[i] in Overdue(DecrementAll(s.pendingDeadlines))
    ensures DecrementAll(s.pendingDeadlines)[i] !in ApplyDeadlines(s).pendingDeadlines
  {
    ExpiredIsOverdue(DecrementAll(s.pendingDeadlines), i);
    ApplyDeadlinesFacts(s);
  }
}
