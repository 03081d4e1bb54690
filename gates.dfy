/** The guarded one-shot entry points: `setRole` and `recordReflection`. */
module Gates {
  import opened Wrappers
  import opened Content
  import opened SimState

  /** The role a typed role name denotes, if any. */
  function ParseRole(requested: string): (r: Option<Role>)
    ensures r.Some? <==> requested == "member" || requested == "chair"
    ensures r.Some? ==> RoleTag(r.value) == requested
  {
    if requested == "member" then Some(Member)
    else if requested == "chair" then Some(Chair)
    else None
  }

  /** Each role's tag names that role. */
  lemma RoleTagRoundTrip(role: Role)
    ensures ParseRole(RoleTag(role)) == Some(role)
  {
  }

  datatype RoleOutcome = RoleAlreadySet | InvalidRole | RoleSet

  /** The guards of `setRole`: an existing role first, then the name. */
  function RoleOutcomeOf(s: State, requested: string): (r: RoleOutcome)
    ensures r == RoleAlreadySet <==> s.role.Some?
    ensures r == InvalidRole <==> s.role.None? && requested != "member" && requested != "chair"
  {
    if s.role.Some? then RoleAlreadySet
    else if ParseRole(requested).None? then InvalidRole
    else RoleSet
  }

  /** `setRole(requested)` on the state `s`. */
  function SetRole(s: State, requested: string): (r: State)
    ensures RoleOutcomeOf(s, requested) == RoleSet <==>
      s.role.None? && (requested == "member" || requested == "chair")
    ensures RoleOutcomeOf(s, requested) != RoleSet ==> r == s
    ensures RoleOutcomeOf(s, requested) == RoleSet ==>
      && r.role.Some? && RoleTag(r.role.value) == requested
      && r.currentMode == Running
      && r.(role := s.role, currentMode := s.currentMode) == s
    ensures s.role.Some? ==> r.role == s.role
    ensures Invariant(s) ==> Invariant(r)
  {
    if RoleOutcomeOf(s, requested) != RoleSet then s
    else s.(role := ParseRole(requested), currentMode := Running)
  }

  datatype ReflectionOutcome = NotFinished | InvalidQuestion | MissingAnswer | AnswerSaved

  /** The guards of `recordReflection`, in the order the source checks them. */
  function ReflectionOutcomeOf(s: State, index: int, answer: string): (r: ReflectionOutcome)
    ensures r == NotFinished <==> s.day <= s.totalDays
    ensures r == InvalidQuestion <==> s.day > s.totalDays && !(1 <= index <= 6)
    ensures r == MissingAnswer <==> s.day > s.totalDays && 1 <= index <= 6 && answer == ""
  {
    if s.day <= s.totalDays then NotFinished
    else if index < 1 || index > QuestionCount then InvalidQuestion
    else if answer == "" then MissingAnswer
    else AnswerSaved
  }

  /** `recordReflection(index, answer)` on the state `s`. */
  function RecordReflection(s: State, index: int, answer: string): (r: State)
    ensures ReflectionOutcomeOf(s, index, answer) == AnswerSaved <==>
      s.day > s.totalDays && 1 <= index <= 6 && answer != ""
    ensures ReflectionOutcomeOf(s, index, answer) != AnswerSaved ==> r == s
    ensures ReflectionOutcomeOf(s, index, answer) == AnswerSaved ==>
      && r.reflectionAnswers.Keys == s.reflectionAnswers.Keys + {index}
      && r.reflectionAnswers[index] == answer
      && (forall q | q in s.reflectionAnswers && q != index ::
            r.reflectionAnswers[q] == s.reflectionAnswers[q])
      && r.(reflectionAnswers := s.reflectionAnswers) == s
    ensures Invariant(s) ==> Invariant(r)
  {
    if ReflectionOutcomeOf(s, index, answer) != AnswerSaved then s
    else s.(reflectionAnswers := s.reflectionAnswers[index := answer])
  }
}
