/**
 * The student's page (components/StudentAssignmentView.tsx): submitting an answer
 * to Agent B and saving the evaluated submission, asking Agent C for a hint, and
 * the labels of the evaluation card. Ids, timestamps and the image (already read
 * as a data URL) are inputs.
 */
module StudentAssignmentView {
  import opened Types
  import opened GeminiService
  import opened DbService

  const StudentName: string := "学生用户"
  const EvaluationFailedAlert: string := "评估失败，请重试。"
  const EffortExcellent: string := "优秀"
  const EffortToImprove: string := "待提升"

  /** `translateDimension`: the Chinese word for a level name; any other string is kept as it is. */
  function TranslateDimension(val: string): (r: string)
    ensures val == "High" ==> r == "高"
    ensures val == "Medium" ==> r == "中"
    ensures val == "Low" ==> r == "低"
    ensures ParseLevel(val).None? ==> r == val
  {
    if val == "High" then "高"
    else if val == "Medium" then "中"
    else if val == "Low" then "低"
    else val
  }

  /** Every level translates to one of the three Chinese words, and different levels to different words. */
  lemma TranslateLevels(l: Level, m: Level)
    ensures TranslateDimension(LevelName(l)) in {"高", "中", "低"}
    ensures TranslateDimension(LevelName(l)) == TranslateDimension(LevelName(m)) <==> l == m
  {
  }

  /**
   * The guard of `handleSubmit` (and the empty-input half of the submit button's):
   * it returns early without an assignment, or when the answer and the image are
   * both empty.
   */
  predicate CanSubmit(assignment: Option<Assignment>, answerText: string, image: Option<string>)
    ensures !CanSubmit(assignment, answerText, image) <==>
              assignment.None? || (answerText == "" && (image.None? || image.value == ""))
  {
    assignment.Some? && (answerText != "" || IsTruthy(image))
  }

  /** What pressing "submit" leads to. */
  datatype SubmitOutcome =
    | Skipped                              // the guard returned early
    | EvaluationFailed(alert: string)      // Agent B failed; nothing is saved
    | Submitted(submission: Submission)    // saved with `saveSubmission`

  /** `handleSubmit` without its effects: the guard, Agent B, and the new submission record. */
  function Submit(
    assignment: Option<Assignment>, answerText: string, image: Option<string>,
    backend: Request -> Reply, parse: string -> Result<AIEvaluation>,
    id: string, createdAt: string): (r: SubmitOutcome)
    ensures r.Skipped? <==> !CanSubmit(assignment, answerText, image)
    ensures r.EvaluationFailed? <==>
              CanSubmit(assignment, answerText, image) &&
              Evaluation(assignment.value.content, answerText, image, backend, parse).Err?
    ensures r.EvaluationFailed? ==> r.alert == EvaluationFailedAlert
    ensures r.Submitted? ==>
              var s := r.submission;
              && assignment.Some?
              && s.aiEvaluation.Some?
              && Evaluation(assignment.value.content, answerText, image, backend, parse) == Ok(s.aiEvaluation.value)
              && s.id == id && s.assignmentId == assignment.value.id && s.studentName == StudentName
              && s.contentText == answerText && s.imageUrl == image && s.createdAt == createdAt
  {
    if !CanSubmit(assignment, answerText, image) then Skipped
    else
      match Evaluation(assignment.value.content, answerText, image, backend, parse)
      case Err(_) => EvaluationFailed(EvaluationFailedAlert)
      case Ok(evaluation) =>
        Submitted(Submission(id, assignment.value.id, StudentName, answerText, image, Some(evaluation), createdAt))
  }

  /** `handleSubmit`: a submission is saved only after Agent B has returned an evaluation. */
  method HandleSubmit(
    store: LocalStore, assignment: Option<Assignment>, answerText: string, image: Option<string>,
    backend: Request -> Reply, parse: string -> Result<AIEvaluation>,
    id: string, createdAt: string) returns (outcome: SubmitOutcome)
    requires store.Valid()
    modifies store
    ensures store.Valid()
    ensures outcome == Submit(assignment, answerText, image, backend, parse, id, createdAt)
    ensures outcome.Submitted? ==> store.Submissions() == Upsert(old(store.Submissions()), outcome.submission)
    ensures outcome.Submitted? ==>
              store.items == old(store.items)[StorageKeySubmissions := SubmissionTable(Upsert(old(store.Submissions()), outcome.submission))]
    ensures !outcome.Submitted? ==> store.items == old(store.items)
    ensures store.Assignments() == old(store.Assignments())
  {
    if assignment.None? || (answerText == "" && !IsTruthy(image)) {
      return Skipped;
    }
    var evaluation := EvaluateSubmission(assignment.value.content, answerText, image, backend, parse);
    if evaluation.Err? {
      return EvaluationFailed(EvaluationFailedAlert);
    }
    var newSubmission := Submission(
      id, assignment.value.id, StudentName, answerText, image, Some(evaluation.value), createdAt);
    store.SaveSubmission(newSubmission);
    outcome := Submitted(newSubmission);
  }

  /** `handleGetHint`: no hint without an assignment; otherwise Agent C's hint, which is never empty. */
  function GetHint(assignment: Option<Assignment>, answerText: string, backend: Request -> Reply): (r: Option<string>)
    ensures r.None? <==> assignment.None?
    ensures r.Some? ==> r.value != "" && r.value == GenerateHint(assignment.value.content, answerText, backend)
  {
    if assignment.None? then None else Some(GenerateHint(assignment.value.content, answerText, backend))
  }

  /** The effort cell of the evaluation card. */
  function EffortLabel(evaluation: Option<AIEvaluation>): (cell: string)
    ensures cell == EffortExcellent || cell == EffortToImprove
    ensures cell == EffortExcellent <==> evaluation.Some? && evaluation.value.dimensions.effortDetected
  {
    if evaluation.Some? && evaluation.value.dimensions.effortDetected then EffortExcellent else EffortToImprove
  }

  /**
   * The accuracy and creativity cells: `translateDimension(x?.dimensions.accuracy || '')`,
   * so an absent evaluation shows an empty cell.
   */
  function DimensionLabels(evaluation: Option<AIEvaluation>): (labels: (string, string))
    ensures evaluation.None? ==> labels == ("", "")
    ensures evaluation.Some? ==>
              && labels.0 in {"高", "中", "低"} && labels.1 in {"高", "中", "低"}
              && labels.0 == TranslateDimension(LevelName(evaluation.value.dimensions.accuracy))
              && labels.1 == TranslateDimension(LevelName(evaluation.value.dimensions.creativity))
  {
    var accuracy := if evaluation.Some? then LevelName(evaluation.value.dimensions.accuracy) else "";
    var creativity := if evaluation.Some? then LevelName(evaluation.value.dimensions.creativity) else "";
    (TranslateDimension(accuracy), TranslateDimension(creativity))
  }
}
