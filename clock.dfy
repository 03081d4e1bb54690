/**
 * The simulation clock (`advanceTime`): one slot forward, wrapping to the
 * next day, then the deadline tick, then either the end of the run or a new
 * event.
 */
module Clock {
  import opened Wrappers
  import opened Content
  import opened SimState
  import opened Deadlines
  import opened Decisions
  import opened Summary

  /** `slot += 1`, and on overflow back to slot 1 of the next day. */
  function AdvanceClock(s: State): (r: State)
    ensures r.(day := s.day, slot := s.slot) == s
    ensures s.slot + 1 > s.slotsPerDay ==> r.slot == 1 && r.day == s.day + 1
    ensures s.slot + 1 <= s.slotsPerDay ==> r.slot == s.slot + 1 && r.day == s.day
  {
    if s.slot + 1 > s.slotsPerDay then s.(slot := 1, day := s.day + 1)
    else s.(slot := s.slot + 1)
  }

  datatype AdvanceOutcome =
    | RolePrompt
    | AlreadyFinished
    | RunFinished(verdict: seq<Signal>)
    | EventStep(trigger: TriggerOutcome)

  /** Whether `advanceTime` may proceed: a role is set and the run is not over. */
  predicate CanAdvance(s: State) {
    s.role.Some? && s.day <= s.totalDays
  }

  /**
   * `finishSimulation`'s verdict or `triggerEvent`'s outcome, after the tick.
   * The run finishes on the advance from the last slot of the last day.
   */
  function AdvanceOutcomeOf(s: State, pool: seq<Event>): (r: AdvanceOutcome)
    ensures r == RolePrompt <==> s.role.None?
    ensures r == AlreadyFinished <==> s.role.Some? && s.day > s.totalDays
    ensures CanAdvance(s) ==> (r.RunFinished? <==> s.day == s.totalDays && s.slot >= s.slotsPerDay)
    ensures r.RunFinished? ==> r.verdict == Verdict(ApplyDeadlines(AdvanceClock(s)).metrics)
    ensures r.EventStep? ==>
      (r.trigger == EventPresented <==> exists i | 0 <= i < |pool| :: EligibleFor(s.role, pool[i]))
  {
    if s.role.None? then RolePrompt
    else if s.day > s.totalDays then AlreadyFinished
    else
      var ticked := ApplyDeadlines(AdvanceClock(s));
      if ticked.day > ticked.totalDays then RunFinished(Verdict(ticked.metrics))
      else EventStep(TriggerOutcomeOf(ticked, pool))
  }

  /** `advanceTime()` on the state `s`, with the content pool and the random draw as inputs. */
  function AdvanceTime(s: State, pool: seq<Event>, pick: int): (r: State)
    requires ValidPick(pool, s.role, pick)
    ensures !CanAdvance(s) ==> r == s
    ensures CanAdvance(s) ==>
      r.day == AdvanceClock(s).day && r.slot == AdvanceClock(s).slot && r.role == s.role
    ensures CanAdvance(s) ==>
      && r.pendingDeadlines == ApplyDeadlines(AdvanceClock(s)).pendingDeadlines
      && r.log == ApplyDeadlines(AdvanceClock(s)).log
    ensures r.slotsPerDay == s.slotsPerDay && r.totalDays == s.totalDays
    ensures Invariant(s) ==> Invariant(r)
  {
    if !CanAdvance(s) then s
    else
      var ticked := ApplyDeadlines(AdvanceClock(s));
      ApplyDeadlinesFacts(AdvanceClock(s));
      if ticked.day > ticked.totalDays then ticked
      else TriggerEvent(ticked, pool, pick)
  }

  /**
   * An advance is the clock step, then the deadline tick, then either the end
   * of the run, which changes nothing more, or the event draw, which sets
   * only the active event and its options: to the drawn eligible event when
   * there is one, and not at all otherwise.
   */
  lemma AdvanceTimeSteps(s: State, pool: seq<Event>, pick: int)
    requires ValidPick(pool, s.role, pick) && CanAdvance(s)
    ensures var ticked := ApplyDeadlines(AdvanceClock(s));
      var r := AdvanceTime(s, pool, pick);
      && r.(currentEvent := ticked.currentEvent, currentOptions := ticked.currentOptions) == ticked
      && (ticked.day > ticked.totalDays || TriggerOutcomeOf(ticked, pool) == NoEligibleEvent ==> r == ticked)
      && (ticked.day <= ticked.totalDays && TriggerOutcomeOf(ticked, pool) == EventPresented ==>
            r.currentEvent == Some(Eligible(pool, s.role)[pick]) && r.currentOptions == r.currentEvent.value.options)
  {
  }

  /**
   * A pending deadline with one day left expires on the next advance: after
   * it, the deadline with its day taken off is no longer pending.
   */
  lemma DueTomorrowExpiresOnAdvance(s: State, pool: seq<Event>, pick: int, i: int)
    requires ValidPick(pool, s.role, pick) && CanAdvance(s)
    requires 0 <= i < |s.pendingDeadlines| && s.pendingDeadlines[i].daysLeft == 1
    ensures Decrement(s.pendingDeadlines[i]) !in AdvanceTime(s, pool, pick).pendingDeadlines
  {
    var clocked := AdvanceClock(s);
    DueTomorrowExpires(clocked, i);
    assert DecrementAll(clocked.pendingDeadlines)[i] == Decrement(s.pendingDeadlines[i]);
  }

  /** Slots elapsed since the start of the run. */
  function Elapsed(s: State): int {
    (s.day - 1) * s.slotsPerDay + (s.slot - 1)
  }

  /** Every successful advance moves the clock by exactly one slot. */
  lemma AdvanceIsOneSlot(s: State, pool: seq<Event>, pick: int)
    requires ValidPick(pool, s.role, pick)
    requires Invariant(s) && CanAdvance(s)
    ensures Elapsed(AdvanceTime(s, pool, pick)) == Elapsed(s) + 1
  {
  }

  /**
   * The run is over exactly when totalDays * slotsPerDay slots have elapsed:
   * with 5 days of 8 slots, the 40th advance from the start ends it.
   */
  lemma FinishedExactlyAfterAllSlots(s: State)
    requires Invariant(s)
    ensures s.day > s.totalDays <==> Elapsed(s) >= s.totalDays * s.slotsPerDay
  {
    var n, t := s.slotsPerDay, s.totalDays;
    assert 1 <= s.slot <= n && 1 <= s.day <= t + 1;
    if s.day <= t {
      assert t * n - (s.day - 1) * n == (t - s.day + 1) * n;
      assert (t - s.day + 1) * n >= n;
    }
  }

  /** The summary is produced once: after the advance that ends the run, advancing reports that it is over. */
  lemma SummaryOnlyOnce(s: State, pool: seq<Event>, pick: int, pool': seq<Event>)
    requires ValidPick(pool, s.role, pick)
    requires AdvanceOutcomeOf(s, pool).RunFinished?
    ensures AdvanceOutcomeOf(AdvanceTime(s, pool, pick), pool') == AlreadyFinished
  {
    ApplyDeadlinesFacts(AdvanceClock(s));
  }

}
