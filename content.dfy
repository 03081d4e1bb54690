/**
 * The content the simulation reads but never writes: events with their
 * options, and the sparse effects records those options and deadline
 * consequences carry. JSON fields that are absent or falsy are modelled by
 * a neutral value: 0 for a numeric delta, "" for a string overwrite, None
 * for a nested record.
 */
module Content {
  import opened Wrappers

  /** The two roles a participant may take. */
  datatype Role = Member | Chair

  /** The tag a role has in `state.role` and in an event's `roles` list. */
  function RoleTag(r: Role): string {
    match r
    case Member => "member"
    case Chair => "chair"
  }

  /** `roleLabel(role)`: the display name; anything but the chair reads as a regular member. */
  function RoleLabel(role: Option<Role>): (r: string)
    ensures r == "BR-Vorsitz" <==> role == Some(Chair)
    ensures role != Some(Chair) ==> r == "Reguläres BR-Mitglied"
  {
    if role == Some(Chair) then "BR-Vorsitz" else "Reguläres BR-Mitglied"
  }

  /** One entry of an effects record's `metrics` object, in `Object.entries` order. */
  datatype MetricDelta = MetricDelta(key: string, delta: int)

  /**
   * An effects record. Numeric fields are deltas (0 = absent), string
   * fields are overwrites ("" = absent), the three `add…` fields are
   * optional records to append.
   */
  datatype Effects = Effects(
    metrics: seq<MetricDelta>,
    teamCohesion: int,
    formalStatus: string,
    addDeadline: Option<NewDeadline>,
    addNote: Option<Note>,
    addCaseFile: Option<CaseFile>,
    meetingMinutesQuality: int,
    escalationLevel: string,
    gbrRelationship: int,
    stressDelta: int)

  /** The `addDeadline` record; its consequence is itself an effects record. */
  datatype NewDeadline = NewDeadline(title: string, days: int, consequence: Option<Effects>)

  datatype Note = Note(quality: string, topic: string)

  datatype CaseFile = CaseFile(name: string, strength: int)

  /** The empty effects record `{}`. */
  const NoEffects: Effects := Effects([], 0, "", None, None, None, 0, "", 0, 0)

  /** An option of an event (its `label` is `caption` here); an absent `effects` field is `NoEffects`. */
  datatype EventOption = EventOption(caption: string, effects: Effects)

  /** An event; an absent `options` field is the empty sequence. */
  datatype Event = Event(title: string, description: string, roles: seq<string>, options: seq<EventOption>)

  /** The loaded content categories from which events are drawn. */
  datatype ContentStore = ContentStore(
    events: seq<Event>,
    cases: seq<Event>,
    negotiations: seq<Event>,
    gbr: seq<Event>,
    conciliation: seq<Event>)

  /** The event pool: all five categories, in this order. */
  function Pool(c: ContentStore): (pool: seq<Event>)
    ensures |pool| == |c.events| + |c.cases| + |c.negotiations| + |c.gbr| + |c.conciliation|
    ensures forall e :: e in pool <==>
      e in c.events || e in c.cases || e in c.negotiations || e in c.gbr || e in c.conciliation
  {
    c.events + c.cases + c.negotiations + c.gbr + c.conciliation
  }
}
