# br-simulator: the simulation core as a verified Dafny model

The br-simulator is a text-command training game played in the browser. The
player is a works-council member (`member`) or its chair (`chair`) over a run
of 5 days with 8 time slots each. Each `next` moves the clock one slot. It
also counts down the pending deadlines and applies the consequence of each
one that expires. Then it either ends the run with a summary or presents a
random event the role is eligible for. An event offers options. Choosing one
applies its effects record to the state:
- gauges such as trust, cohesion, legal risk and stress, each clamped to 0..100;
- the formal status and escalation level;
- the minutes quality and the relationship with the group works council;
- new deadlines, notes and case files.

A short log keeps the 20 newest decisions and missed deadlines. After the run
the player may answer six reflection questions.

This project models the simulation core of `app.js`.

The value layer has one function per operation on a value `State`, which has
one field per entry of `stateDefaults`. The lemmas beside these functions
state what the source promises:
- every gauge stays within bounds;
- the invariant holds;
- the deadline tick does what it should;
- the log keeps only its newest entries;
- the guards of each command hold;
- the verdict thresholds are exact.

The class `Simulator.Simulation` stands for the module-level `let state` and
`contentStore`. The source updates `state` property by property, and reset
and import replace it as a whole. The class's methods change `state` step by
step as the source does, with a loop for each `forEach`. The source's
`filter` calls become calls of the value layer's filter functions. Each method
is proved to produce exactly the state the value-layer function describes.

Modules, in dependency order:
- `Wrappers`: an option type.
- `Content`: roles, events, options, effects records, the content pool.
- `Metrics`: clamp and metric-map updates.
- `SimState`: the state record, its defaults and invariant.
- `EventLog`: `logEvent` and the capped log.
- `EffectsEngine`: `applyEffects`.
- `Deadlines`: `applyDeadlines`.
- `Decisions`: `triggerEvent` and `chooseOption`.
- `Gates`: `setRole` and `recordReflection`.
- `Summary`: the verdict of `generateSummary`.
- `Clock`: `advanceTime`.
- `Simulator`: the stateful class.

JavaScript truthiness is modelled explicitly:
- A flat numeric field of 0 (`teamCohesion`, `meetingMinutesQuality`,
  `gbrRelationship`, `stressDelta`) counts as absent. An entry of the
  `metrics` object with delta 0 still writes its key.
- An empty string counts as an absent overwrite.
- A missing nested record is `None`.
- `x || {}` becomes `NoEffects`.
- `x || []` becomes the empty sequence.

The random draw `Math.floor(Math.random() * eligible.length)` becomes an
index parameter `pick`. Callers must keep it within the eligible events
whenever there are any (`Decisions.ValidPick`).

## Model

| member | source | states |
|---|---|---|
| Metrics.Clamp | app.js:108-110 | the result always lies in [0, 100], and a value already in range is returned unchanged |
| Metrics.ClampIsNearest | app.js:108-110 | no value in [0, 100] is closer to the input than the clamped value |
| Metrics.ApplyMetricDeltas | app.js:383-387 | after the `metrics` deltas the map has exactly the old keys plus the keys the record names |
| Metrics.ApplyMetricDeltasFacts | app.js:383-387 | every named metric ends in [0, 100], every unnamed metric keeps its value, and a map within bounds stays within bounds |
| Metrics.AbsentMetricStartsFromZero | app.js:385 | a metric missing from the state is treated as 0: the result is the clamp of the delta alone |
| Metrics.DeltaKeysOfConcat | app.js:384 | the keys named by two runs of `metrics` entries are the keys of each run |
| Metrics.ApplyMetricDeltasOfConcat | app.js:384-386 | the `forEach` over two runs of entries is the loop over the first, then over the second |
| Metrics.UnnamedMetricReadsTheSame | app.js:385 | a metric the entries do not name reads the same, 0 if absent, before and after them |
| Metrics.NamedMetricValue | app.js:383-387 | a metric named once in the `metrics` object ends as clamp(old value, or 0 when absent, + delta), wherever its entry stands |
| Content.RoleLabel | app.js:144-146 | the label is "BR-Vorsitz" exactly for the chair; every other role, the unset one included, gets "Reguläres BR-Mitglied" |
| Content.Pool | app.js:324-330 | the pool holds all five categories: its length is the sum of theirs and an event is in it iff it is in one of them |
| SimState.Defaults | app.js:25-62 | the default state satisfies the invariant, has no role, starts on day 1 slot 1, and has no deadlines, no log and no active event |
| SimState.Invariant | app.js:25-62 | the properties every operation keeps: clock within its bounds, every gauge in [0, 100] with `teamCohesion` and `stress` present, the log within capacity, options only with an active event, an active event only with a role, the role set exactly when running, answers only after the run under numbers 1..6 and non-empty |
| EffectsEngine.UpdatedMetrics | app.js:383-430 | the metric map after a record has exactly the old keys, the keys the `metrics` object names, `teamCohesion` when its delta is set and `stress` when `stressDelta` is set |
| EffectsEngine.BumpMetric | app.js:389-391 | a flat delta adds its key, leaves it in [0, 100] and leaves every other metric alone |
| EffectsEngine.UpdatedMetricsFrame | app.js:389-430 | a metric that neither flat delta moves keeps the value the `metrics` deltas gave it |
| EffectsEngine.UpdatedMetricsFacts | app.js:383-430 | a metric no flat delta moves has its value after the `metrics` deltas, so an unnamed one keeps its old value; `teamCohesion` is clamp(its value after the deltas + the `teamCohesion` delta), and `stress` is clamp(its value after the deltas + `stressDelta`); bounds are preserved |
| EffectsEngine.NamedMetricEffect | app.js:383-391 | a metric named once in `metrics`, and moved by no flat delta, ends as clamp(old value, or 0 when absent, + delta): legal risk 20 with `legalRisk: 10` becomes 30 |
| EffectsEngine.ApplyEffects | app.js:382-431 | only metrics, status, deadlines, notes, case files, minutes quality, escalation and the relationship with the group works council change; each `add…` field appends exactly one record, and an absent one appends nothing; non-empty strings overwrite; minutes quality and the relationship become clamp(old + delta) on a non-zero delta and stay unchanged on 0, and stay within bounds |
| EffectsEngine.ApplyEffectsKeepsInvariant | app.js:382-431 | every effects record keeps the state invariant, with all gauges in [0, 100] |
| EffectsEngine.NoEffectsChangeNothing | app.js:382-431 | the empty record `{}`, the default for a missing effects record or consequence, leaves the state unchanged |
| EventLog.AppendCapped | app.js:433-438 | the new entry is last, the log grows by at most one entry, and from within capacity its length becomes min(old + 1, 20) |
| EventLog.AppendCappedKeepsNewest | app.js:433-438 | on a log within capacity, appending leaves the 20 newest entries; on a full log exactly the oldest entry is dropped |
| EventLog.NewestStep | app.js:433-438 | appending to the newest entries of a history gives the newest entries of the extended history |
| EventLog.LogEvent | app.js:433-438 | only the log changes; it gains the entry stamped with the current day and slot; the invariant is kept |
| EventLog.LogKeepsNewest | app.js:433-438 | however many entries are logged, the log is exactly the newest min(n, 20) of all entries, in order |
| Deadlines.DecrementAll | app.js:308-310 | every pending deadline loses exactly one day and keeps its title and consequence |
| Deadlines.Overdue | app.js:312 | the overdue filter returns only deadlines with daysLeft <= 0; with `Deadlines.OverdueOfConcat` and the partition lemma it is the order-keeping filter |
| Deadlines.Remaining | app.js:319 | the final filter returns only deadlines with daysLeft > 0 |
| Deadlines.OverdueOrRemainingExactlyOnce | app.js:312-319 | each deadline falls in exactly one of the two filters, as often as it occurs |
| Deadlines.OverdueOfConcat | app.js:312-314 | the overdue filter distributes over concatenation, so it keeps insertion order |
| Deadlines.RemainingOfConcat | app.js:319 | filtering a concatenation filters each part |
| Deadlines.RemainingOfAllLive | app.js:312-319 | with nothing overdue, the final filter keeps every deadline |
| Deadlines.ExpiredIsOverdue | app.js:312 | every deadline whose days have run out is among the overdue |
| Deadlines.Fire | app.js:314-317 | one expired deadline: apart from the log, the state is the effects engine applied to its consequence, `{}` when missing; exactly one "Frist verpasst: title" entry is logged at the current day and slot; role, clock and the pending decision stay |
| Deadlines.ApplyEffectsIgnoresLog | app.js:382-431 | the effects engine neither reads nor writes the log |
| Deadlines.FireAllAppliesEachConsequence | app.js:314-318 | apart from the log, firing the overdue deadlines applies each of their consequences exactly once, in order |
| Deadlines.FireAllKeepsControl | app.js:314-318 | firing overdue deadlines leaves role, clock, active event, options, mode and answers untouched |
| Deadlines.FireAllAppendsDeadlines | app.js:314-318 | firing only appends to the pending deadlines: what the consequences add, in order |
| Deadlines.FireAllLogsEach | app.js:314-318 | firing logs one entry per expired deadline, in insertion order |
| Deadlines.FireAllKeepsInvariant | app.js:314-318 | firing keeps the invariant |
| Deadlines.ApplyDeadlines | app.js:307-321 | the tick leaves role, clock, the active event, its options, mode and answers alone; the rest of its effect is stated by `Deadlines.ApplyDeadlinesFacts` (deadlines, log, invariant) and `Deadlines.ApplyDeadlinesAppliesConsequences` (every other field) |
| Deadlines.ApplyDeadlinesFacts | app.js:307-321 | the surviving deadlines are the decremented old ones with days left, in order, then the ones the consequences added with days left; nothing pending has 0 days or fewer; one log entry per expired deadline in insertion order; control untouched; invariant kept |
| Deadlines.ApplyDeadlinesAppliesConsequences | app.js:307-321 | apart from the log and the deadline list, the state after the tick is the decremented state with the consequences of the expired deadlines applied, each exactly once, in insertion order |
| Deadlines.MissedDeadlineRaisesLegalRisk | app.js:307-321 | a lone deadline with one day left and consequence `legalRisk: 10` raises legal risk to clamp(old + 10), leaves nothing pending and logs "Frist verpasst: title" |
| Deadlines.DueTomorrowExpires | app.js:307-321 | a deadline with one day left fires on the next tick and is not pending afterwards |
| Decisions.Eligible | app.js:332 | every selected event lists the current role and comes from the pool |
| Decisions.EligibleKeepsMatching | app.js:332 | no event that lists the current role is filtered out |
| Decisions.EligibleOfConcat | app.js:324-332 | the role filter distributes over concatenation, so the eligible events keep the pool's order: category by category, each in its catalogue order |
| Decisions.TriggerOutcomeOf | app.js:332-338 | an event is presented exactly when the pool holds one the role is eligible for |
| Decisions.TriggerEvent | app.js:323-354 | with no eligible event nothing changes; otherwise the active event is the eligible event at the drawn index, a pool event the role is eligible for, the options are its options, nothing else changes, and the invariant is kept |
| Decisions.EveryEligibleEventCanBeDrawn | app.js:332-334 | every eligible pool event is the active event for some draw |
| Decisions.EventWithoutOptionsStaysActive | app.js:340-341 | an event without options still becomes the active event, with an empty option list |
| Decisions.ChoiceOutcomeOf | app.js:357-367 | no active event is reported first; an option is chosen exactly when an event is active and the number is within 1..number of options |
| Decisions.ChooseOption | app.js:356-380 | without an active event, or with a number outside the options, nothing changes; otherwise the option's effects are applied, the log gains "title → label", and the event and its options are cleared together; the invariant is kept |
| Gates.ParseRole | app.js:266 | a role is recognised iff it is "member" or "chair", and the recognised role carries that tag |
| Gates.RoleTagRoundTrip | app.js:266-267 | each role's tag parses back to that role |
| Gates.RoleOutcomeOf | app.js:262-275 | an existing role is reported first; a name is refused exactly when no role is set and it is neither "member" nor "chair" |
| Gates.SetRole | app.js:261-276 | the role is set iff none was set and the name is valid; then the mode is running and nothing else changes; otherwise nothing changes; an existing role is never replaced |
| Gates.ReflectionOutcomeOf | app.js:507-522 | "not finished" exactly while the run lasts; an invalid number exactly when the run is over and it is outside 1..6; a missing answer exactly when the number is valid and the text empty |
| Gates.RecordReflection | app.js:506-526 | an answer is stored iff the run is over, the number is in 1..6 and the text is non-empty; only that key is written; otherwise nothing changes |
| Clock.AdvanceClock | app.js:289-293 | the slot advances by one, and past the last slot it wraps to slot 1 of the next day; nothing else changes |
| Clock.AdvanceOutcomeOf | app.js:279-301 | the role prompt exactly without a role, "already finished" exactly with a role after the run; the run finishes exactly on the advance from the last slot of the last day, with the verdict on the metrics after the tick; otherwise the event step reports a presented event exactly when the pool holds one the role is eligible for |
| Clock.AdvanceTime | app.js:278-305 | without a role or after the run nothing changes; otherwise day and slot are the advanced clock, the role is kept, and the deadline list and the log are those the deadline tick leaves after the clock step; the day length and run length never change; the invariant is kept |
| Clock.AdvanceTimeSteps | app.js:289-301 | after the clock step and the tick, the end of the run changes nothing more, and the event draw changes only the active event and its options: to the eligible event at the drawn index when there is one |
| Clock.DueTomorrowExpiresOnAdvance | app.js:278-305 | a deadline with one day left is, one day shorter, no longer pending after the next advance |
| Clock.AdvanceIsOneSlot | app.js:289-293 | every successful advance adds exactly one elapsed slot |
| Clock.FinishedExactlyAfterAllSlots | app.js:297-301 | the run is over exactly when totalDays × slotsPerDay slots have elapsed |
| Clock.SummaryOnlyOnce | app.js:284-301 | after the advance that finishes the run, the next advance reports that the run is already over |
| Summary.Select | app.js:494-498 | a signal is selected iff it is a candidate whose threshold is met |
| Summary.SelectKeepsOrder | app.js:494-498 | selection keeps the candidates' order |
| Summary.Verdict | app.js:482-504 | each of the five phrases appears iff its threshold holds (cohesion ≥ 70, legal risk ≥ 60, stress ≥ 70, employee trust ≥ 70, employer trust ≤ 30), in the source's order |
| Simulator.Simulation.constructor | app.js:25-62 | a new simulation starts from the defaults with the given content, and the invariant holds |
| Simulator.Simulation.Reset | app.js:91-94 | reset restores the defaults, and the invariant holds |
| Simulator.Simulation.SetRole | app.js:261-276 | the outcome is the gate's verdict and the new state is `Gates.SetRole` of the old; validity is kept |
| Simulator.Simulation.LogEvent | app.js:433-438 | push then at most one shift produce `EventLog.LogEvent` of the old state |
| Simulator.Simulation.ApplyMetricEffects | app.js:383-430 | the delta loop, then `teamCohesion`, then `stressDelta`, change only the metric map, to `UpdatedMetrics` of the old one |
| Simulator.Simulation.ApplyStandingEffects | app.js:393-427 | the status, minutes, escalation and relationship updates change exactly those four fields as `EffectsEngine` defines |
| Simulator.Simulation.ApplyRecordEffects | app.js:397-413 | the three `push` updates append exactly the optional records to deadlines, notes and case files |
| Simulator.Simulation.ApplyEffects | app.js:382-431 | the new state is `EffectsEngine.ApplyEffects` of the old |
| Simulator.Simulation.TickDeadlines | app.js:308-310 | the in-place `forEach` leaves the deadline list decremented by one day and changes nothing else |
| Simulator.Simulation.FireDeadlines | app.js:314-318 | the loop's state is the overdue deadlines' consequences and log entries, applied in order |
| Simulator.Simulation.ApplyDeadlines | app.js:307-321 | the new state is `Deadlines.ApplyDeadlines` of the old |
| Simulator.Simulation.ChooseOption | app.js:356-380 | the outcome is the guard's verdict and the new state is `Decisions.ChooseOption` of the old; validity is kept |
| Simulator.Simulation.TriggerEvent | app.js:323-354 | the outcome says whether an eligible event existed and the new state is `Decisions.TriggerEvent` of the old |
| Simulator.Simulation.AdvanceClock | app.js:289-293 | the slot step is exactly `Clock.AdvanceClock` |
| Simulator.Simulation.AdvanceTime | app.js:278-305 | the outcome is the prompt, "already finished", the verdict or the event step as `AdvanceOutcomeOf` says, and the new state is `Clock.AdvanceTime` of the old; validity is kept |
| Simulator.Simulation.RecordReflection | app.js:506-526 | the outcome is the first failing guard or "saved", and the new state is `Gates.RecordReflection` of the old; validity is kept |

Behaviours of the code worth knowing, modelled as written:
- An eligible event without options still becomes the active event, with
  `[]` options. So only "options imply an active event" is invariant, and
  `Decisions.EventWithoutOptionsStaysActive` states the other case.
- `applyEffects` reads `state.metrics.teamCohesion` and `state.metrics.stress`
  without a default. On a state without these keys the source would compute
  NaN. The model reads the missing key as 0. `SimState.Invariant` includes
  both keys, the defaults establish it, and every operation's preservation
  lemma keeps it.
- Suppose an expiring consequence adds a deadline with 0 days or fewer. The
  final filter of the same tick drops it without firing it.
  `Deadlines.ApplyDeadlinesFacts` states this as written.

## Left out
- DOM rendering, `addLine`/`addBlock`, `renderStatus`, `showStatus`, `showLog`, `showHelp`, `showRolePrompt` and every displayed message: output only; outcome datatypes report which message branch was taken.
- `handleCommand` and `Number.parseInt`: command parsing is outside the core. Option and question numbers reach the model as integers, and text that does not parse falls under the invalid-number outcome.
- `saveState`, `loadState`, export and import through JSON and `localStorage`: persistence and I/O. Reset and the constructor model `state = stateDefaults()`.
- `loadContent` and `fetch`: the content store is a constructor parameter.
- `Math.random`: it is replaced by the `pick` index.
- `showKnowledge` and the `knowledge` category: display only, it never changes the state.
- `finishSimulation` and the text of `generateSummary`: the metric lines, the comma-joined verdict phrases, the fallback "ausbalancierte Lage", the display phrase of each signal and the disclaimer are formatting. Only the verdict selection is modelled, returned in the `RunFinished` outcome.
- The `followUp` text of an option: display only.
- `Object.entries` order for integer-like keys: the `metrics` object is modelled as a sequence in its iteration order.
- Non-numeric effect values and a missing `days` field (NaN arithmetic): effect values are integers.
- Simulator.Simulation.ApplyEffects: applies the source's ten conditional updates grouped by the part of the state they touch (metrics; status fields; appended records), not in the literal source order. The groups touch disjoint fields, so the resulting state is the same, and the postcondition states exactly that state.
- Events as shared objects: an option's `effects` and a deadline's `consequence` are values here, so aliasing between content and state is not modelled. The source never mutates content.
