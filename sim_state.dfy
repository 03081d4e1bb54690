/**
 * The single simulation state record (`stateDefaults`) as a value, its
 * default, and the invariant every operation keeps.
 */
module SimState {
  import opened Wrappers
  import opened Content
  import opened Metrics

  const TotalDays: int := 5
  const DefaultSlotsPerDay: int := 8

  /** The short-form log keeps at most this many entries. */
  const LogCapacity: int := 20

  /** The reflection questions asked once the run is over. */
  const ReflectionQuestions: seq<string> := [
    "Wie hast du die Rolle empfunden?",
    "Was war überraschend?",
    "Was war belastend?",
    "Kannst du dir vorstellen, diese Rolle im echten Leben zu übernehmen?",
    "Was würde dich davon abhalten?",
    "Was hat dich motiviert?"
  ]

  /** `reflectionQuestions.length`. */
  const QuestionCount: int := 6

  lemma QuestionCountIsLength()
    ensures |ReflectionQuestions| == QuestionCount
  {
  }

  /** `currentMode`: "role-select" or "running". */
  datatype Mode = RoleSelect | Running

  datatype Faction = Faction(name: string, mood: string)

  datatype KeyMember = KeyMember(name: string, tendency: string, influence: int)

  /** A pending deadline; `daysLeft` is decremented on every time advance. */
  datatype Deadline = Deadline(title: string, daysLeft: int, consequence: Option<Effects>)

  datatype LogEntry = LogEntry(day: int, slot: int, text: string)

  datatype State = State(
    role: Option<Role>,
    day: int,
    slot: int,
    slotsPerDay: int,
    totalDays: int,
    metrics: map<string, int>,
    factions: seq<Faction>,
    keyMembers: seq<KeyMember>,
    pendingDeadlines: seq<Deadline>,
    formalStatus: string,
    notes: seq<Note>,
    caseFiles: seq<CaseFile>,
    meetingMinutesQuality: int,
    gbrRelationship: int,
    escalationLevel: string,
    log: seq<LogEntry>,
    currentEvent: Option<Event>,
    currentOptions: seq<EventOption>,
    currentMode: Mode,
    reflectionAnswers: map<int, string>)

  /**
   * What every operation keeps once it holds: the clock within its bounds,
   * every gauge within [0, 100], the bounded log, options only with an
   * active event, an active event only with a role, the role set exactly
   * when running, and reflection answers only after the run, under a valid
   * question number and with a non-empty text.
   */
  ghost predicate Invariant(s: State) {
    && s.slotsPerDay >= 1
    && s.totalDays >= 0
    && 1 <= s.slot <= s.slotsPerDay
    && 1 <= s.day <= s.totalDays + 1
    && MetricsInRange(s.metrics)
    && "teamCohesion" in s.metrics
    && "stress" in s.metrics
    && InRange(s.meetingMinutesQuality)
    && InRange(s.gbrRelationship)
    && |s.log| <= LogCapacity
    && (|s.currentOptions| > 0 ==> s.currentEvent.Some?)
    && (s.currentEvent.Some? ==> s.role.Some?)
    && (s.role.Some? <==> s.currentMode == Running)
    && (forall q | q in s.reflectionAnswers ::
          1 <= q <= QuestionCount && s.reflectionAnswers[q] != "")
    && (s.reflectionAnswers != map[] ==> s.day > s.totalDays)
  }

  /** `stateDefaults()`: a fresh run before a role is chosen. */
  function Defaults(): (s: State)
    ensures Invariant(s)
    ensures s.role == None && s.day == 1 && s.slot == 1
    ensures s.pendingDeadlines == [] && s.log == [] && s.currentEvent == None
  {
    State(
      None, 1, 1, DefaultSlotsPerDay, TotalDays,
      map[
        "trustEmployees" := 55,
        "trustEmployer" := 40,
        "teamCohesion" := 60,
        "legalRisk" := 20,
        "stress" := 30,
        "workload" := 35,
        "reputation" := 50],
      [Faction("Pragmatisch", "stabil"),
       Faction("Konfrontativ", "wachsam"),
       Faction("Vorsichtig", "zögerlich")],
      [KeyMember("Ayse", "vermittelnd", 7),
       KeyMember("Jonas", "konsequent", 6),
       KeyMember("Mira", "risikoavers", 5)],
      [], "korrekt", [], [], 65, 50, "none", [], None, [], RoleSelect, map[])
  }

  /**
   * The parts of the state that neither the effects engine nor the log
   * touch: role, clock, static gremium data, the pending decision, mode and
   * reflection answers.
   */
  ghost predicate ControlUnchanged(s: State, r: State) {
    && r.role == s.role
    && r.day == s.day
    && r.slot == s.slot
    && r.slotsPerDay == s.slotsPerDay
    && r.totalDays == s.totalDays
    && r.factions == s.factions
    && r.keyMembers == s.keyMembers
    && r.currentEvent == s.currentEvent
    && r.currentOptions == s.currentOptions
    && r.currentMode == s.currentMode
    && r.reflectionAnswers == s.reflectionAnswers
  }
}
