/**
 * The records the application stores and exchanges with the generation backend
 * (types.ts). Field names are the camel-case forms of the JSON field names
 * (`subject_focus` is `subjectFocus`, `ai_evaluation` is `aiEvaluation`, ...).
 * Optional fields (`field?: T`) are `Option<T>`.
 */
module Types {

  datatype Option<+T> = None | Some(value: T)

  /**
   * How JavaScript's `if (s)`, `!s` and `s || d` read an optional string: it counts
   * as present only when it is defined and not empty.
   */
  predicate IsTruthy(s: Option<string>) {
    s.Some? && s.value != ""
  }

  /** `'basic' | 'challenge'` */
  datatype Difficulty = Basic | Challenge

  /** The string literal a difficulty is written as, in storage and in the generation prompt. */
  function DifficultyName(d: Difficulty): (s: string)
    ensures s == "basic" || s == "challenge"
    ensures s == "basic" <==> d == Basic
  {
    match d
    case Basic => "basic"
    case Challenge => "challenge"
  }

  /** Reads a difficulty back from its string literal; any other string is not a difficulty. */
  function ParseDifficulty(s: string): (r: Option<Difficulty>)
    ensures r.Some? <==> s == "basic" || s == "challenge"
    ensures r.Some? ==> DifficultyName(r.value) == s
  {
    if s == "basic" then Some(Basic)
    else if s == "challenge" then Some(Challenge)
    else None
  }

  lemma DifficultyRoundTrip(d: Difficulty)
    ensures ParseDifficulty(DifficultyName(d)) == Some(d)
  {
  }

  /** `'High' | 'Medium' | 'Low'`, the scale of the accuracy and creativity dimensions. */
  datatype Level = High | Medium | Low

  function LevelName(l: Level): (s: string)
    ensures s == "High" || s == "Medium" || s == "Low"
  {
    match l
    case High => "High"
    case Medium => "Medium"
    case Low => "Low"
  }

  function ParseLevel(s: string): (r: Option<Level>)
    ensures r.Some? <==> s == "High" || s == "Medium" || s == "Low"
    ensures r.Some? ==> LevelName(r.value) == s
  {
    if s == "High" then Some(High)
    else if s == "Medium" then Some(Medium)
    else if s == "Low" then Some(Low)
    else None
  }

  lemma LevelRoundTrip(l: Level)
    ensures ParseLevel(LevelName(l)) == Some(l)
  {
  }

  datatype Task = Task(id: int, question: string, subjectFocus: string)

  datatype EvaluationCriteria = EvaluationCriteria(knowledgePoints: seq<string>, coreCompetencies: seq<string>)

  datatype AssignmentContent = AssignmentContent(
    title: string,
    scenario: string,
    tasks: seq<Task>,
    evaluationCriteria: EvaluationCriteria)

  datatype Assignment = Assignment(
    id: string,
    topic: string,
    subjects: seq<string>,
    difficulty: Difficulty,
    content: AssignmentContent,
    createdAt: string,
    standardsRef: Option<string>)

  datatype FeedbackDimensions = FeedbackDimensions(accuracy: Level, creativity: Level, effortDetected: bool)

  /** `score` is a JavaScript number; the model keeps it integral. */
  datatype AIEvaluation = AIEvaluation(
    score: int,
    feedbackSummary: string,
    dimensions: FeedbackDimensions,
    detailedComments: seq<string>)

  datatype Submission = Submission(
    id: string,
    assignmentId: string,
    studentName: string,
    contentText: string,
    imageUrl: Option<string>,
    aiEvaluation: Option<AIEvaluation>,
    createdAt: string)

  /** `'pending' | 'parsing' | 'success' | 'error'` */
  datatype FileStatus = Pending | Parsing | Success | Error

  function StatusName(st: FileStatus): (s: string)
    ensures s in {"pending", "parsing", "success", "error"}
  {
    match st
    case Pending => "pending"
    case Parsing => "parsing"
    case Success => "success"
    case Error => "error"
  }

  function ParseStatus(s: string): (r: Option<FileStatus>)
    ensures r.Some? <==> s in {"pending", "parsing", "success", "error"}
    ensures r.Some? ==> StatusName(r.value) == s
  {
    if s == "pending" then Some(Pending)
    else if s == "parsing" then Some(Parsing)
    else if s == "success" then Some(Success)
    else if s == "error" then Some(Error)
    else None
  }

  lemma StatusRoundTrip(st: FileStatus)
    ensures ParseStatus(StatusName(st)) == Some(st)
  {
  }

  /** The browser `File` object a staged entry refers to; only its name is modelled. */
  datatype FileHandle = FileHandle(name: string)

  datatype StagedFile = StagedFile(
    id: string,
    file: FileHandle,
    status: FileStatus,
    content: Option<string>,
    errorMessage: Option<string>)
}
