/**
 * The teacher's authoring page (components/TeacherDashboard.tsx): the subject
 * picker, the input guard in front of Agent A, and the assignment record saved
 * after a successful generation. Ids and timestamps are inputs.
 */
module TeacherDashboard {
  import opened Types
  import opened Lists
  import opened GeminiService
  import opened DbService

  const MissingInputMessage: string := "请填写主题并至少选择一个学科。"
  const GenerationFailedMessage: string := "生成失败，请稍后重试。"

  /**
   * `toggleSubject`: a selected subject is removed (every occurrence of it), an
   * unselected one is appended at the end.
   */
  function ToggleSubject(selected: seq<string>, subject: string): (r: seq<string>)
    ensures subject in r <==> subject !in selected
    ensures forall s :: s != subject ==> (s in r <==> s in selected)
    ensures subject !in selected ==> r == selected + [subject]
    ensures subject in selected ==> IsSubsequence(r, selected)
  {
    if subject in selected then Filter(selected, (s: string) => s != subject) else selected + [subject]
  }

  /** Toggling an unselected subject on and then off again restores the selection. */
  lemma ToggleTwiceRestores(selected: seq<string>, subject: string)
    requires subject !in selected
    ensures ToggleSubject(ToggleSubject(selected, subject), subject) == selected
  {
    var notSubject := (s: string) => s != subject;
    FilterAppend(selected, [subject], notSubject);
    FilterKeepsAll(selected, notSubject);
    assert Filter([subject], notSubject) == [];
  }

  /** A selection without repeats stays without repeats. */
  lemma ToggleKeepsDistinct(selected: seq<string>, subject: string)
    requires Distinct(selected)
    ensures Distinct(ToggleSubject(selected, subject))
  {
    if subject in selected {
      FilterDistinct(selected, (s: string) => s != subject);
    } else {
      var r := selected + [subject];
      forall i, j | 0 <= i < j < |r| ensures r[i] != r[j] {
        if j == |selected| {
          assert r[i] == selected[i];
        } else {
          assert r[i] == selected[i] && r[j] == selected[j];
        }
      }
    }
  }

  /** What pressing "generate" leads to. */
  datatype GenerateOutcome =
    | Refused(message: string)            // the guard stopped it; Agent A was not asked
    | GenerationFailed(message: string)   // Agent A failed; nothing is saved
    | Generated(assignment: Assignment)   // to be saved with `saveAssignment`

  /** `handleGenerate` without its effects: the guard, Agent A, and the new record. */
  function Generate(
    topic: string, subjects: seq<string>, difficulty: Difficulty,
    backend: Request -> Reply, parse: string -> Result<AssignmentContent>,
    id: string, createdAt: string): (r: GenerateOutcome)
    ensures r.Refused? <==> topic == "" || subjects == []
    ensures r.Refused? ==> r.message == MissingInputMessage
    ensures r.GenerationFailed? <==>
              topic != "" && subjects != [] &&
              GenerateAssignment(topic, subjects, DifficultyName(difficulty), backend, parse).Err?
    ensures r.GenerationFailed? ==> r.message == GenerationFailedMessage
    ensures r.Generated? ==>
              var a := r.assignment;
              && GenerateAssignment(topic, subjects, DifficultyName(difficulty), backend, parse) == Ok(a.content)
              && a.id == id && a.topic == topic && a.subjects == subjects && a.difficulty == difficulty
              && a.createdAt == createdAt && a.standardsRef == None
  {
    if topic == "" || |subjects| == 0 then
      Refused(MissingInputMessage)
    else
      match GenerateAssignment(topic, subjects, DifficultyName(difficulty), backend, parse)
      case Err(_) => GenerationFailed(GenerationFailedMessage)
      case Ok(content) => Generated(Assignment(id, topic, subjects, difficulty, content, createdAt, None))
  }

  /** A refused request does not depend on the backend at all: it is never called. */
  lemma RefusalIgnoresBackend(
    topic: string, subjects: seq<string>, difficulty: Difficulty,
    backend1: Request -> Reply, backend2: Request -> Reply, parse: string -> Result<AssignmentContent>,
    id: string, createdAt: string)
    requires topic == "" || subjects == []
    ensures Generate(topic, subjects, difficulty, backend1, parse, id, createdAt)
         == Generate(topic, subjects, difficulty, backend2, parse, id, createdAt)
  {
  }

  /** `handleGenerate`: saves the generated assignment, and only that. */
  method HandleGenerate(
    store: LocalStore, topic: string, subjects: seq<string>, difficulty: Difficulty,
    backend: Request -> Reply, parse: string -> Result<AssignmentContent>,
    id: string, createdAt: string) returns (outcome: GenerateOutcome)
    requires store.Valid()
    modifies store
    ensures store.Valid()
    ensures outcome == Generate(topic, subjects, difficulty, backend, parse, id, createdAt)
    ensures outcome.Generated? ==> store.Assignments() == old(store.Assignments()) + [outcome.assignment]
    ensures outcome.Generated? ==>
              store.items == old(store.items)[StorageKeyAssignments := AssignmentTable(old(store.Assignments()) + [outcome.assignment])]
    ensures !outcome.Generated? ==> store.items == old(store.items)
    ensures store.Submissions() == old(store.Submissions())
  {
    if topic == "" || |subjects| == 0 {
      return Refused(MissingInputMessage);
    }
    var generated := GenerateAssignment(topic, subjects, DifficultyName(difficulty), backend, parse);
    if generated.Err? {
      return GenerationFailed(GenerationFailedMessage);
    }
    var newAssignment := Assignment(id, topic, subjects, difficulty, generated.value, createdAt, None);
    store.SaveAssignment(newAssignment);
    outcome := Generated(newAssignment);
  }
}
