/**
 * The questionnaire: the fixed table of eight questions, the answer and
 * navigation handlers, when the buttons are enabled, and the submission
 * payload that identifies either the signed-in user or the anonymous session.
 */
module QuizComponent {
  import opened Wrappers
  import opened Seqs
  import opened Schema
  import opened Store

  datatype QuestionKind = Single | Multiple | Scale

  /** A question of the table; only the option values matter to the logic. */
  datatype Question = Question(id: string, kind: QuestionKind, optionValues: seq<string>, required: bool)

  const QuizQuestions: seq<Question> := [
    Question("livingSituation", Single, ["apartment", "house_small_yard", "house_large_yard", "farm_rural"], true),
    Question("exerciseTime", Single, ["minimal", "moderate", "active", "very_active"], true),
    Question("experience", Single, ["first_time", "some_experience", "experienced"], true),
    Question("familySituation", Single, ["no_children", "young_children", "school_age", "teenagers"], true),
    Question("groomingPreference", Single, ["minimal", "moderate", "high"], true),
    Question("sizePref", Single, ["toy", "small", "medium", "large"], true),
    Question("energyPreference", Single, ["low", "moderate", "high"], true),
    Question("trainabilityImportance", Single, ["not_important", "somewhat", "very_important"], true)
  ]

  /** Eight questions, all required, distinct ids, and distinct option values within each question. */
  lemma QuestionTableWellFormed()
    ensures |QuizQuestions| == 8 == Initial.totalSteps
    ensures forall i :: 0 <= i < |QuizQuestions| ==> QuizQuestions[i].required
    ensures forall i :: 0 <= i < |QuizQuestions| ==> NoDuplicates(QuizQuestions[i].optionValues)
    ensures forall i :: 0 <= i < |QuizQuestions| ==> |QuizQuestions[i].optionValues| >= 3
    ensures forall i, j :: 0 <= i < j < |QuizQuestions| ==> QuizQuestions[i].id != QuizQuestions[j].id
  {
  }

  /** `quizQuestions[currentStep - 1]`, undefined outside the table. */
  function CurrentQuestion(step: int): (q: Option<Question>)
    ensures q.Some? <==> 1 <= step <= |QuizQuestions|
    ensures q.Some? ==> q.value == QuizQuestions[step - 1]
  {
    if 1 <= step <= |QuizQuestions| then Some(QuizQuestions[step - 1]) else None
  }

  /** The component renders nothing when there is no current question. */
  predicate Renders(s: StoreState)
  {
    CurrentQuestion(s.currentStep).Some?
  }

  /** Every step a valid store can reach renders a question. */
  lemma ValidStepsRender(s: StoreState)
    requires Valid(s) && s.totalSteps == |QuizQuestions|
    ensures Renders(s)
  {
  }

  /**
   * `canProceed`: the current question has a truthy answer and is required.
   * Every question is required, so in a valid store it is just "answered".
   */
  function CanProceed(s: StoreState): (r: bool)
    ensures r ==> Renders(s)
    ensures Valid(s) && s.totalSteps == |QuizQuestions| ==>
              (r <==> QuizQuestions[s.currentStep - 1].id in s.responses
                      && s.responses[QuizQuestions[s.currentStep - 1].id] != "")
  {
    QuestionTableWellFormed();
    var q := CurrentQuestion(s.currentStep);
    q.Some? && q.value.id in s.responses && s.responses[q.value.id] != "" && q.value.required
  }

  /** The "Previous" button is disabled on the first step, exactly where pressing it would do nothing. */
  function PreviousDisabled(s: StoreState): (r: bool)
    ensures Valid(s) ==> (r <==> HandlePrevious(s) == s)
  {
    s.currentStep == 1
  }

  /** The "Next" button is disabled without an answer or while a submission is pending. */
  function NextDisabled(s: StoreState, pending: bool): (r: bool)
    ensures pending ==> r
    ensures !pending ==> (r <==> !CanProceed(s))
    ensures !r ==> Renders(s)
  {
    !CanProceed(s) || pending
  }

  /** `handleAnswerChange`: records the value under the current question's id. */
  function AnswerCurrent(s: StoreState, value: string): (r: StoreState)
    ensures CurrentQuestion(s.currentStep).None? ==> r == s
    ensures CurrentQuestion(s.currentStep).Some? ==>
              r == UpdateQuizResponse(s, CurrentQuestion(s.currentStep).value.id, value)
    ensures Renders(s) && value != "" ==> CanProceed(r) && !NextDisabled(r, false)
    ensures Valid(s) ==> Valid(r)
  {
    match CurrentQuestion(s.currentStep)
    case None => s
    case Some(q) => UpdateQuizResponse(s, q.id, value)
  }

  /** The signed-in user, if any. */
  datatype User = User(id: string)

  /** The body posted to the submit endpoint. */
  datatype Payload = Payload(responses: map<string, string>, userId: Option<string>, sessionId: Option<string>)

  /** `{ responses, userId: user?.id || null, sessionId: user ? null : sessionId }`. */
  function BuildPayload(user: Option<User>, sessionId: string, responses: map<string, string>): (p: Payload)
    ensures p.responses == responses
    ensures !(p.userId.Some? && p.sessionId.Some?)
    ensures user.None? ==> p.userId.None? && p.sessionId == Some(sessionId)
    ensures user.Some? ==> p.sessionId.None?
    ensures user.Some? && user.value.id != "" ==> p.userId == Some(user.value.id)
  {
    Payload(
      responses,
      if user.Some? && user.value.id != "" then Some(user.value.id) else None,
      if user.Some? then None else Some(sessionId))
  }

  /** What pressing "Next" does. */
  datatype NextOutcome = Advanced(state: StoreState) | Submitted(payload: Payload)

  /** `handleNext`: advance before the last step, submit the responses on it. */
  function HandleNext(s: StoreState, user: Option<User>, sessionId: string): (r: NextOutcome)
    ensures r.Advanced? <==> s.currentStep < s.totalSteps
    ensures r.Advanced? ==> r.state.currentStep == s.currentStep + 1 && r.state == s.(currentStep := r.state.currentStep)
    ensures r.Submitted? ==> r.payload.responses == s.responses
    ensures r.Advanced? && Valid(s) ==> Valid(r.state)
  {
    if s.currentStep < s.totalSteps then Advanced(NextQuizStep(s))
    else Submitted(BuildPayload(user, sessionId, s.responses))
  }

  /** `handlePrevious`: go back only after the first step. */
  function HandlePrevious(s: StoreState): (r: StoreState)
    ensures s.currentStep > 1 ==> r.currentStep == s.currentStep - 1
    ensures s.currentStep <= 1 ==> r == s
    ensures r == s.(currentStep := r.currentStep)
    ensures Valid(s) ==> Valid(r)
  {
    if s.currentStep > 1 then PreviousQuizStep(s) else s
  }

  /** "Previous" after an advancing "Next" returns to the same state. */
  lemma PreviousUndoesNext(s: StoreState, user: Option<User>, sessionId: string)
    requires 1 <= s.currentStep < s.totalSteps
    ensures HandleNext(s, user, sessionId).Advanced?
    ensures HandlePrevious(HandleNext(s, user, sessionId).state) == s
  {
    StepsAreInverse(s);
  }

  /** On the last step of a valid store "Next" submits; on every other step it advances. */
  lemma LastStepSubmits(s: StoreState, user: Option<User>, sessionId: string)
    requires Valid(s)
    ensures HandleNext(s, user, sessionId).Submitted? <==> s.currentStep == s.totalSteps
  {
  }

  /** A successful submission stores the results and announces them. */
  function SubmitSucceeded(s: StoreState, results: seq<MatchResult>): (r: StoreState)
    ensures r.isCompleted && r.results == Some(results)
    ensures r.toast == Toast(true, "Quiz completed! Here are your matches.", Success)
    ensures r.currentStep == s.currentStep && r.responses == s.responses
    ensures Valid(s) ==> Valid(r)
  {
    ShowToast(SetQuizResults(s, results), "Quiz completed! Here are your matches.", Success)
  }

  /** A failed submission only reports the error. */
  function SubmitFailed(s: StoreState): (r: StoreState)
    ensures r == s.(toast := Toast(true, "Failed to submit quiz. Please try again.", Error))
    ensures !r.isCompleted <==> !s.isCompleted
  {
    ShowToast(s, "Failed to submit quiz. Please try again.", Error)
  }
}
