/**
 * The live simulation: the module-level `state` record, which the source
 * updates property by property and replaces as a whole on reset and import,
 * and the content store the events are drawn from. Each operation changes
 * `state` step by step as the source does and is proved to produce exactly
 * the state the corresponding function of the model describes.
 */
module Simulator {
  import opened Wrappers
  import opened Content
  import opened Metrics
  import opened SimState
  import opened EventLog
  import opened EffectsEngine
  import opened Deadlines
  import opened Decisions
  import opened Gates
  import opened Summary
  import opened Clock

  class Simulation {
    /** `let state`: the whole simulation state. */
    var state: State
    /** `contentStore`: the event catalogues, as loaded. */
    var content: ContentStore

    ghost predicate Valid()
      reads this
    {
      Invariant(state)
    }

    /** A fresh run on the given content: `state = stateDefaults()`. */
    constructor (content: ContentStore)
      ensures state == Defaults() && this.content == content && Valid()
    {
      state := Defaults();
      this.content := content;
    }

    /** `reset`: back to `stateDefaults()`, the content staying loaded. */
    method Reset()
      modifies this`state
      ensures state == Defaults() && Valid()
    {
      state := Defaults();
    }

    /** `setRole(requested)`. */
    method SetRole(requested: string) returns (outcome: RoleOutcome)
      modifies this`state
      ensures outcome == RoleOutcomeOf(old(state), requested)
      ensures state == Gates.SetRole(old(state), requested)
      ensures old(Valid()) ==> Valid()
    {
      if state.role.Some? {
        return RoleAlreadySet;
      }
      if requested == "member" || requested == "chair" {
        state := state.(role := ParseRole(requested), currentMode := Running);
        outcome := RoleSet;
      } else {
        outcome := InvalidRole;
      }
    }

    /** `logEvent(text)`: `push`, then one `shift` when over capacity. */
    method LogEvent(text: string)
      modifies this`state
      ensures state == EventLog.LogEvent(old(state), text)
    {
      state := state.(log := state.log + [LogEntry(state.day, state.slot, text)]);
      if |state.log| > LogCapacity {
        state := state.(log := state.log[1..]);
      }
    }

    /**
     * The metric part of `applyEffects`: the `metrics` deltas one after
     * another, then `teamCohesion`, then `stressDelta`.
     */
    method ApplyMetricEffects(e: Effects)
      modifies this`state
      ensures state == old(state).(metrics := UpdatedMetrics(old(state).metrics, e))
    {
      var i := 0;
      while i < |e.metrics|
        invariant 0 <= i <= |e.metrics|
        invariant state == old(state).(metrics := ApplyMetricDeltas(old(state).metrics, e.metrics[..i]))
      {
        var d := e.metrics[i];
        state := state.(metrics := state.metrics[d.key := Clamp(MetricOrZero(state.metrics, d.key) + d.delta)]);
        assert e.metrics[..i + 1][..i] == e.metrics[..i];
        i := i + 1;
      }
      assert e.metrics[..i] == e.metrics;
      if e.teamCohesion != 0 {
        state := state.(metrics := BumpMetric(state.metrics, "teamCohesion", e.teamCohesion));
      }
      if e.stressDelta != 0 {
        state := state.(metrics := BumpMetric(state.metrics, "stress", e.stressDelta));
      }
    }

    /**
     * The standing part of `applyEffects`: `formalStatus`,
     * `meetingMinutesQuality`, `escalationLevel` and `gbrRelationship`.
     */
    method ApplyStandingEffects(e: Effects)
      modifies this`state
      ensures state == old(state).(
        formalStatus := Overwritten(old(state).formalStatus, e.formalStatus),
        meetingMinutesQuality := Bumped(old(state).meetingMinutesQuality, e.meetingMinutesQuality),
        escalationLevel := Overwritten(old(state).escalationLevel, e.escalationLevel),
        gbrRelationship := Bumped(old(state).gbrRelationship, e.gbrRelationship))
    {
      if e.formalStatus != "" {
        state := state.(formalStatus := e.formalStatus);
      }
      if e.meetingMinutesQuality != 0 {
        state := state.(meetingMinutesQuality := Clamp(state.meetingMinutesQuality + e.meetingMinutesQuality));
      }
      if e.escalationLevel != "" {
        state := state.(escalationLevel := e.escalationLevel);
      }
      if e.gbrRelationship != 0 {
        state := state.(gbrRelationship := Clamp(state.gbrRelationship + e.gbrRelationship));
      }
    }

    /** The record part of `applyEffects`: `addDeadline`, `addNote` and `addCaseFile`. */
    method ApplyRecordEffects(e: Effects)
      modifies this`state
      ensures state == old(state).(
        pendingDeadlines := Appended(old(state).pendingDeadlines, DeadlineAdded(e)),
        notes := Appended(old(state).notes, e.addNote),
        caseFiles := Appended(old(state).caseFiles, e.addCaseFile))
    {
      if e.addDeadline.Some? {
        var nd := e.addDeadline.value;
        state := state.(pendingDeadlines := state.pendingDeadlines + [Deadline(nd.title, nd.days, nd.consequence)]);
      }
      if e.addNote.Some? {
        state := state.(notes := state.notes + [e.addNote.value]);
      }
      if e.addCaseFile.Some? {
        state := state.(caseFiles := state.caseFiles + [e.addCaseFile.value]);
      }
    }

    /**
     * `applyEffects(effects)`. Each field of the record acts on its own part
     * of the state, so the three parts above, one after another, do what the
     * source's sequence of conditional updates does.
     */
    method ApplyEffects(e: Effects)
      modifies this`state
      ensures state == EffectsEngine.ApplyEffects(old(state), e)
    {
      ApplyMetricEffects(e);
      ApplyStandingEffects(e);
      ApplyRecordEffects(e);
    }

    /** The `forEach` of `applyDeadlines` that takes one day off every pending deadline. */
    method TickDeadlines()
      modifies this`state
      ensures state == old(state).(pendingDeadlines := DecrementAll(old(state).pendingDeadlines))
    {
      var i := 0;
      while i < |state.pendingDeadlines|
        invariant |state.pendingDeadlines| == |old(state).pendingDeadlines|
        invariant 0 <= i <= |state.pendingDeadlines|
        invariant state.pendingDeadlines[..i] == DecrementAll(old(state).pendingDeadlines)[..i]
        invariant state.pendingDeadlines[i..] == old(state).pendingDeadlines[i..]
        invariant state == old(state).(pendingDeadlines := state.pendingDeadlines)
      {
        var ds := state.pendingDeadlines;
        state := state.(pendingDeadlines := ds[i := Decrement(ds[i])]);
        i := i + 1;
      }
      assert state.pendingDeadlines == DecrementAll(old(state).pendingDeadlines);
    }

    /** The `forEach` of `applyDeadlines` over the overdue deadlines, in order. */
    method FireDeadlines(overdue: seq<Deadline>)
      modifies this`state
      ensures state == FireAll(old(state), overdue)
    {
      var j := 0;
      while j < |overdue|
        invariant 0 <= j <= |overdue|
        invariant state == FireAll(old(state), overdue[..j])
      {
        var deadline := overdue[j];
        ghost var before := state;
        ApplyEffects(Consequence(deadline));
        LogEvent(MissedText(deadline));
        assert state == Fire(before, deadline);
        assert overdue[..j + 1][..j] == overdue[..j];
        j := j + 1;
      }
      assert overdue[..j] == overdue;
    }

    /**
     * `applyDeadlines()`: the tick, the overdue filter, firing the overdue
     * deadlines, and the filter that keeps the deadlines with days left.
     */
    method ApplyDeadlines()
      modifies this`state
      ensures state == Deadlines.ApplyDeadlines(old(state))
    {
      TickDeadlines();
      var overdue := Overdue(state.pendingDeadlines);
      if |overdue| > 0 {
        FireDeadlines(overdue);
        state := state.(pendingDeadlines := Remaining(state.pendingDeadlines));
      }
    }

    /** `chooseOption(number)`, `number` being the 1-based option number typed. */
    method ChooseOption(number: int) returns (outcome: ChoiceOutcome)
      modifies this`state
      ensures outcome == ChoiceOutcomeOf(old(state), number)
      ensures state == Decisions.ChooseOption(old(state), number)
      ensures old(Valid()) ==> Valid()
    {
      if state.currentEvent.None? {
        return NoActiveEvent;
      }
      var optionIndex := number - 1;
      if !(0 <= optionIndex < |state.currentOptions|) {
        return InvalidOption;
      }
      var option := state.currentOptions[optionIndex];
      var event := state.currentEvent.value;
      ApplyEffects(option.effects);
      LogEvent(ChoiceText(event, option));
      state := state.(currentEvent := None, currentOptions := []);
      outcome := Chosen;
    }

    /** `triggerEvent()` on the loaded content, `pick` standing for the random draw. */
    method TriggerEvent(pick: int) returns (outcome: TriggerOutcome)
      requires ValidPick(Pool(content), state.role, pick)
      modifies this`state
      ensures outcome == TriggerOutcomeOf(old(state), Pool(content))
      ensures state == Decisions.TriggerEvent(old(state), Pool(content), pick)
    {
      var pool := Pool(content);
      var eligible := Eligible(pool, state.role);
      if |eligible| == 0 {
        return NoEligibleEvent;
      }
      var event := eligible[pick];
      state := state.(currentEvent := Some(event), currentOptions := event.options);
      outcome := EventPresented;
    }

    /** The clock step of `advanceTime`: `slot += 1`, wrapping to slot 1 of the next day. */
    method AdvanceClock()
      modifies this`state
      ensures state == Clock.AdvanceClock(old(state))
    {
      state := state.(slot := state.slot + 1);
      if state.slot > state.slotsPerDay {
        state := state.(slot := 1, day := state.day + 1);
      }
    }

    /** `advanceTime()`: the clock, the deadline tick, then the end of the run or a new event. */
    method AdvanceTime(pick: int) returns (outcome: AdvanceOutcome)
      requires ValidPick(Pool(content), state.role, pick)
      modifies this`state
      ensures outcome == AdvanceOutcomeOf(old(state), Pool(content))
      ensures state == Clock.AdvanceTime(old(state), Pool(content), pick)
      ensures old(Valid()) ==> Valid()
    {
      if state.role.None? {
        return RolePrompt;
      }
      if state.day > state.totalDays {
        return AlreadyFinished;
      }
      AdvanceClock();
      ApplyDeadlines();
      if state.day > state.totalDays {
        outcome := RunFinished(Verdict(state.metrics));
      } else {
        var triggered := TriggerEvent(pick);
        outcome := EventStep(triggered);
      }
    }

    /** `recordReflection(args)`, with the question number already parsed. */
    method RecordReflection(index: int, answer: string) returns (outcome: ReflectionOutcome)
      modifies this`state
      ensures outcome == ReflectionOutcomeOf(old(state), index, answer)
      ensures state == Gates.RecordReflection(old(state), index, answer)
      ensures old(Valid()) ==> Valid()
    {
      if state.day <= state.totalDays {
        return NotFinished;
      }
      if index < 1 || index > QuestionCount {
        return InvalidQuestion;
      }
      if answer == "" {
        return MissingAnswer;
      }
      state := state.(reflectionAnswers := state.reflectionAnswers[index := answer]);
      outcome := AnswerSaved;
    }
  }
}
