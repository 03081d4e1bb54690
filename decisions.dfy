/**
 * The decision lifecycle: `triggerEvent` draws an event the current role is
 * eligible for, `chooseOption` resolves it.
 */
module Decisions {
  import opened Wrappers
  import opened Content
  import opened SimState
  import opened EventLog
  import opened EffectsEngine

  /** `event.roles.includes(state.role)`; no event lists the unset role. */
  predicate EligibleFor(role: Option<Role>, e: Event) {
    role.Some? && RoleTag(role.value) in e.roles
  }

  /** `pool.filter((event) => event.roles.includes(state.role))`. */
  function Eligible(pool: seq<Event>, role: Option<Role>): (r: seq<Event>)
    ensures |r| <= |pool|
    ensures forall i | 0 <= i < |r| :: EligibleFor(role, r[i]) && r[i] in pool
    decreases |pool|
  {
    if pool == [] then []
    else
      var last := pool[|pool| - 1];
      Eligible(pool[..|pool| - 1], role) + (if EligibleFor(role, last) then [last] else [])
  }

  /** The role filter keeps the pool's order: filtering a concatenation filters each part. */
  lemma {:induction false} EligibleOfConcat(a: seq<Event>, b: seq<Event>, role: Option<Role>)
    ensures Eligible(a + b, role) == Eligible(a, role) + Eligible(b, role)
    decreases |b|
  {
    if b == [] {
      assert a + b == a;
    } else {
      var front := b[..|b| - 1];
      EligibleOfConcat(a, front, role);
      assert (a + b)[..|a + b| - 1] == a + front;
      assert (a + b)[|a + b| - 1] == b[|b| - 1];
    }
  }

  /** An event the role is eligible for is never filtered out. */
  lemma {:induction false} EligibleKeepsMatching(pool: seq<Event>, role: Option<Role>, i: int)
    requires 0 <= i < |pool| && EligibleFor(role, pool[i])
    ensures pool[i] in Eligible(pool, role)
    decreases |pool|
  {
    if i < |pool| - 1 {
      EligibleKeepsMatching(pool[..|pool| - 1], role, i);
    }
  }

  /**
   * The index the random draw `Math.floor(Math.random() * eligible.length)`
   * yields: within the eligible events whenever there is one.
   */
  predicate ValidPick(pool: seq<Event>, role: Option<Role>, pick: int) {
    var n := |Eligible(pool, role)|;
    n == 0 || 0 <= pick < n
  }

  datatype TriggerOutcome = EventPresented | NoEligibleEvent

  /** Whether `triggerEvent` presents an event: exactly when the pool holds one the role is eligible for. */
  function TriggerOutcomeOf(s: State, pool: seq<Event>): (r: TriggerOutcome)
    ensures r == EventPresented <==> exists i | 0 <= i < |pool| :: EligibleFor(s.role, pool[i])
  {
    if |Eligible(pool, s.role)| == 0 then
      assert forall i | 0 <= i < |pool| :: !EligibleFor(s.role, pool[i]) by {
        forall i | 0 <= i < |pool| && EligibleFor(s.role, pool[i]) ensures false {
          EligibleKeepsMatching(pool, s.role, i);
        }
      }
      NoEligibleEvent
    else
      var first := Eligible(pool, s.role)[0];
      assert first in pool;
      EventPresented
  }

  /** `triggerEvent()` on the state `s`, `pick` standing for the random draw. */
  function TriggerEvent(s: State, pool: seq<Event>, pick: int): (r: State)
    requires ValidPick(pool, s.role, pick)
    ensures TriggerOutcomeOf(s, pool) == NoEligibleEvent ==> r == s
    ensures TriggerOutcomeOf(s, pool) == EventPresented ==>
      && r.currentEvent == Some(Eligible(pool, s.role)[pick])
      && r.currentEvent.value in pool
      && EligibleFor(s.role, r.currentEvent.value)
      && r.currentOptions == r.currentEvent.value.options
      && r.(currentEvent := s.currentEvent, currentOptions := s.currentOptions) == s
    ensures Invariant(s) ==> Invariant(r)
  {
    var eligible := Eligible(pool, s.role);
    if |eligible| == 0 then s
    else
      var event := eligible[pick];
      s.(currentEvent := Some(event), currentOptions := event.options)
  }

  /** Every event of the pool the role is eligible for is presented for some draw. */
  lemma EveryEligibleEventCanBeDrawn(s: State, pool: seq<Event>, i: int)
    requires 0 <= i < |pool| && EligibleFor(s.role, pool[i])
    ensures exists pick :: ValidPick(pool, s.role, pick) && TriggerEvent(s, pool, pick).currentEvent == Some(pool[i])
  {
    EligibleKeepsMatching(pool, s.role, i);
    var eligible := Eligible(pool, s.role);
    var pick :| 0 <= pick < |eligible| && eligible[pick] == pool[i];
    assert TriggerEvent(s, pool, pick).currentEvent == Some(pool[i]);
  }

  /**
   * An eligible event without options still becomes the active event, with
   * an empty option list: only "options imply an active event" is
   * invariant, not the converse.
   */
  lemma EventWithoutOptionsStaysActive(s: State, e: Event)
    requires EligibleFor(s.role, e) && e.options == []
    ensures TriggerEvent(s, [e], 0).currentEvent == Some(e)
    ensures TriggerEvent(s, [e], 0).currentOptions == []
  {
  }

  datatype ChoiceOutcome = NoActiveEvent | InvalidOption | Chosen

  /** The guards of `chooseOption`; `number` is the 1-based option number typed. */
  function ChoiceOutcomeOf(s: State, number: int): (r: ChoiceOutcome)
    ensures r == NoActiveEvent <==> s.currentEvent.None?
    ensures r == Chosen <==> s.currentEvent.Some? && 1 <= number <= |s.currentOptions|
  {
    if s.currentEvent.None? then NoActiveEvent
    else if !(0 <= number - 1 < |s.currentOptions|) then InvalidOption
    else Chosen
  }

  function ChoiceText(event: Event, option: EventOption): string {
    event.title + " → " + option.caption
  }

  /** `chooseOption(number)` on the state `s`. */
  function ChooseOption(s: State, number: int): (r: State)
    ensures ChoiceOutcomeOf(s, number) != Chosen ==> r == s
    ensures ChoiceOutcomeOf(s, number) == Chosen ==>
      var option := s.currentOptions[number - 1];
      && r.currentEvent == None && r.currentOptions == []
      && r.(log := s.log, currentEvent := s.currentEvent, currentOptions := s.currentOptions)
         == ApplyEffects(s, option.effects)
      && r.log == AppendCapped(s.log, LogEntry(s.day, s.slot, ChoiceText(s.currentEvent.value, option)))
    ensures Invariant(s) ==> Invariant(r)
  {
    if ChoiceOutcomeOf(s, number) != Chosen then s
    else
      var option := s.currentOptions[number - 1];
      var applied := ApplyEffects(s, option.effects);
      var logged := LogEvent(applied, ChoiceText(s.currentEvent.value, option));
      var r := logged.(currentEvent := None, currentOptions := []);
      assert Invariant(s) ==> Invariant(r) by {
        if Invariant(s) {
          ApplyEffectsKeepsInvariant(s, option.effects);
        }
      }
      r
  }
}
