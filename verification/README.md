# Cross-disciplinary assignment system: storage, agents and page logic in Dafny

This project models the core of a small web application where teachers generate
cross-disciplinary homework with a text-generation model and students submit
answers for automatic evaluation. The application has three agents.
Agent A, "the Architect", generates an assignment. Agent B, "the Mentor",
evaluates a submission. Agent C, "the Tutor", gives a hint.

The model covers these parts:

- **Records** (`types.dfy`, module `Types`): difficulty, dimension levels, tasks,
  assignment content, assignments, evaluations, submissions and staged files as
  datatypes. Optional fields are `Option`. The string literals of the three
  enumerations come with parsers, and the round trip between them is proved.
- **Mock database** (`db_service.dfy`, module `DbService`): class `LocalStore`
  holds the browser's key-value storage as a `map<string, Stored>`.
  `SaveAssignment` appends to the `"cdas_assignments"` table.
  `SaveSubmission` upserts into the `"cdas_submissions"` table. It finds the first
  entry with the same id using a loop (`Lists.FindIndex`), then either replaces
  that entry in place or appends. Each save writes only its own key. The getters
  are functions over the map. The specification function `Upsert` comes with
  lemmas: replace-in-place, append-when-new, idempotence, and preservation of
  unique ids.
- **Agents** (`gemini_service.dfy`, module `GeminiService`): the remote model is
  a function `backend: Request -> Reply`, and `JSON.parse` is a function `parse`
  that may fail.
  - Agents A and B rethrow a backend failure unchanged. They turn a missing or
    empty body into `NoResponse`, and never make up a default value.
  - Agent C never fails. It returns the reply text, or one of the two fixed
    fallback strings.
  - The evaluation request is a text part, followed by exactly one
    `image/jpeg` part when an image string is given.
  - The image payload is computed by `split(',')[1] || s`. It is characterised
    through proved lemmas about `Split` and `JoinWith`.
- **Pages**: `teacher_dashboard.dfy` covers the subject toggle, the guard in
  front of Agent A, and the saved assignment record. `assignment_list.dfy`
  covers the reversed listing, the search filter and the subject chips.
  `student_assignment_view.dfy` covers the submit and hint guards, the saved
  submission record, and the labels of the evaluation card.
- **Array and string primitives** (`lists.dfy`, module `Lists`): `filter`,
  `reverse`, `findIndex`, `join`, `split` and `includes`. Each is stated once
  with its characterising lemmas.

The comment in front of `saveSubmission` (services/dbService.ts:29) speaks of
replacing the entry "for the same assignment/student". The code matches on the
submission's own `id` (services/dbService.ts:30), and the model follows the code.

Prompts are represented by the values interpolated into them (`Prompt`), not by
their wording. Ids, timestamps, the image data URL, the backend and the JSON
parser are all inputs.

## Model

| member | source | states |
|---|---|---|
| Types.DifficultyName | types.ts:1 | a difficulty is written as exactly `basic` or `challenge`, and `basic` only for Basic |
| Types.ParseDifficulty | types.ts:1 | only `basic` and `challenge` read back as a difficulty, each as the one that is written that way |
| Types.DifficultyRoundTrip | types.ts:1 | writing a difficulty and reading it back gives the same difficulty |
| Types.LevelName | types.ts:31-35 | accuracy and creativity levels are written as exactly `High`, `Medium` or `Low` |
| Types.ParseLevel | types.ts:31-35 | only those three strings read back as a level, each as the level written that way |
| Types.LevelRoundTrip | types.ts:31-35 | writing a level and reading it back gives the same level |
| Types.StatusName | types.ts:58 | a staged file's status is written as one of pending, parsing, success or error |
| Types.ParseStatus | types.ts:58 | only those four strings read back as a status, each as the status written that way |
| Types.StatusRoundTrip | types.ts:58 | writing a status and reading it back gives the same status |
| Lists.Filter | components/AssignmentList.tsx:14-18 | `filter` keeps exactly the elements satisfying the predicate, as an order-preserving subsequence |
| Lists.FilterCount | services/dbService.ts:46-49 | a filter keeps every copy of a passing element and no copy of a failing one |
| Lists.FilterAppend | components/TeacherDashboard.tsx:27 | filtering a concatenation is the concatenation of the filtered parts |
| Lists.FilterKeepsAll | components/AssignmentList.tsx:14-18 | a predicate every element passes leaves the list unchanged |
| Lists.FilterDistinct | components/TeacherDashboard.tsx:27 | filtering a duplicate-free list leaves it duplicate-free |
| Lists.Reverse | components/AssignmentList.tsx:11 | `reverse` keeps the length and puts element `k` at position `n-1-k` |
| Lists.ReverseSameElements | components/AssignmentList.tsx:11 | reversing keeps the same elements with the same multiplicities |
| Lists.IndexOfKey | services/dbService.ts:30 | `findIndex` gives the first position with the key, or -1 exactly when no element has it |
| Lists.FindIndex | services/dbService.ts:30 | the linear search loop computes exactly that first position |
| Lists.JoinWith | services/geminiService.ts:51 | `join` of no pieces is empty; otherwise the result starts with the first piece and its length is the pieces' total plus one separator between each two |
| Lists.JoinWithAppend | services/geminiService.ts:51 | joining two non-empty lists joins each part and puts one separator between them |
| Lists.JoinWithIncludesEach | services/geminiService.ts:51 | every joined element occurs in the joined string |
| Lists.Split | services/geminiService.ts:133 | `split(',')` gives at least one piece, and no piece contains the separator |
| Lists.SplitThenJoin | services/geminiService.ts:133 | joining the pieces of a split with the separator restores the string |
| Lists.JoinThenSplit | services/geminiService.ts:133 | splitting a join of separator-free pieces restores the pieces |
| Lists.SplitWithoutSeparator | services/geminiService.ts:133 | a string without the separator splits into itself alone |
| Lists.SplitAtFirst | services/geminiService.ts:133 | the first piece is everything before the first separator; the rest is the split of what follows it |
| Lists.Includes | components/AssignmentList.tsx:15-17 | `includes` of the empty string always holds, and included text is never longer than the string |
| Lists.IncludesIffOccurs | components/AssignmentList.tsx:15-17 | `includes` holds exactly when the text occurs at some position |
| Lists.IncludesInSuffix | components/AssignmentList.tsx:15-17 | text included in a string is included in any extension of it on the left |
| DbService.Upsert | services/dbService.ts:27-39 | the saved submission is in the new list, and the length grows by at most one |
| DbService.UpsertReplacesFirstMatch | services/dbService.ts:30-33 | with the id present, the first entry with it is replaced in place; the length and all other positions are unchanged |
| DbService.UpsertAppendsNew | services/dbService.ts:34-35 | with the id absent, the submission is appended at the end |
| DbService.UpsertIdempotent | services/dbService.ts:27-39 | saving the same submission twice equals saving it once |
| DbService.UpsertKeepsIdsUnique | services/dbService.ts:27-39 | unique submission ids stay unique, and the id set grows by exactly the saved id |
| DbService.LocalStore.constructor | services/dbService.ts:15-18 | fresh storage holds no key |
| DbService.LocalStore.Assignments | services/dbService.ts:15-18 | a never-written assignments key reads as the empty list |
| DbService.LocalStore.Submissions | services/dbService.ts:41-44 | a never-written submissions key reads as the empty list |
| DbService.LocalStore.AssignmentById | services/dbService.ts:20-23 | nothing when no stored assignment has the id, otherwise the first stored assignment with it |
| DbService.LocalStore.SubmissionsByAssignmentId | services/dbService.ts:46-49 | exactly the stored submissions with that assignment id, in stored order |
| DbService.LocalStore.SaveAssignment | services/dbService.ts:9-13 | the assignments list becomes the old list plus the new assignment at the end, and no other key is written |
| DbService.LocalStore.SaveSubmission | services/dbService.ts:27-39 | the submissions list becomes the upsert of the old list, and no other key is written |
| GeminiService.HandleStructuredReply | services/geminiService.ts:72-78 | a backend failure is returned unchanged, an empty or missing body is NoResponse, and only a non-empty body is parsed |
| GeminiService.AssignmentRequest | services/geminiService.ts:45-70 | one text prompt with the assignment schema, carrying the topic, the difficulty and a subjects line that contains every subject |
| GeminiService.SubjectsListedInOrder | services/geminiService.ts:51 | the subjects line is joined with ", " in the given order: one more subject appends `, <subject>` |
| GeminiService.GenerateAssignment | services/geminiService.ts:38-79 | Agent A succeeds exactly when the backend answers with a non-empty body that parses; otherwise the failure is propagated |
| GeminiService.ImagePayload | services/geminiService.ts:133 | a comma-free image string is sent unchanged; otherwise the payload is the whole string or a shorter non-empty comma-free piece of it |
| GeminiService.ImagePayloadBetweenCommas | services/geminiService.ts:133 | the text between the first comma and the next comma (or the end) is sent when non-empty, else the whole string |
| GeminiService.EvaluationRequest | services/geminiService.ts:112-140 | the text part comes first, and there is exactly one `image/jpeg` part, second, if and only if an image string is given |
| GeminiService.Evaluation | services/geminiService.ts:142-159 | Agent B succeeds exactly when the backend answers with a non-empty body that parses; otherwise the failure is propagated |
| GeminiService.EvaluateSubmission | services/geminiService.ts:105-160 | the push-built request and reply handling give exactly Agent B's result |
| GeminiService.HintRequest | services/geminiService.ts:170-189 | a single free-text prompt carrying the title, scenario, tasks and draft; unlike Agent B it never carries an image part, and no response schema is requested |
| GeminiService.GenerateHint | services/geminiService.ts:164-196 | Agent C never fails or returns empty: the reply verbatim, else the re-read fallback for an empty reply, else the offline fallback on failure |
| TeacherDashboard.ToggleSubject | components/TeacherDashboard.tsx:25-29 | the toggled subject's membership flips, no other membership changes, an absent subject is appended, and removal keeps the order |
| TeacherDashboard.ToggleTwiceRestores | components/TeacherDashboard.tsx:25-29 | toggling an absent subject twice restores the selection |
| TeacherDashboard.ToggleKeepsDistinct | components/TeacherDashboard.tsx:25-29 | a duplicate-free selection stays duplicate-free |
| TeacherDashboard.Generate | components/TeacherDashboard.tsx:31-58 | refused with the input message exactly when the topic or the subject list is empty; failed when Agent A fails; otherwise a record with the entered topic, subjects and difficulty and the returned content |
| TeacherDashboard.RefusalIgnoresBackend | components/TeacherDashboard.tsx:32-35 | a refused generation does not depend on the backend |
| TeacherDashboard.HandleGenerate | components/TeacherDashboard.tsx:31-58 | only a generated assignment is saved: on success the storage differs from before only at the assignments key, which holds the old list plus the new assignment; a refusal or failure leaves the storage unchanged |
| AssignmentList.DisplayedAssignments | components/AssignmentList.tsx:10-12 | the displayed list is the stored list in reverse order |
| AssignmentList.MatchesFilter | components/AssignmentList.tsx:14-18 | an assignment matches exactly when the filter occurs at some position of its title, its scenario or one of its subjects; the empty filter matches every assignment |
| AssignmentList.FilteredAssignments | components/AssignmentList.tsx:14-18 | an order-preserving subsequence keeping an assignment exactly when the filter occurs in its title, its scenario or one of its subjects |
| AssignmentList.EmptyFilterKeepsAll | components/AssignmentList.tsx:14-18 | the empty filter keeps every assignment in order |
| AssignmentList.SubjectChips | components/AssignmentList.tsx:82-89 | at most three chips, a prefix of the subjects; with more than three the marker counts `length - 3` |
| AssignmentList.ChipsAccountForAllSubjects | components/AssignmentList.tsx:82-89 | shown chips plus the hidden count equal the number of subjects |
| StudentAssignmentView.TranslateDimension | components/StudentAssignmentView.tsx:7-12 | High→高, Medium→中, Low→低, any other string unchanged |
| StudentAssignmentView.TranslateLevels | components/StudentAssignmentView.tsx:7-12 | every level translates to one of 高/中/低, and distinct levels to distinct words |
| StudentAssignmentView.CanSubmit | components/StudentAssignmentView.tsx:45 | submitting stops early exactly when there is no assignment, or the answer is empty and the image is absent or empty |
| StudentAssignmentView.Submit | components/StudentAssignmentView.tsx:44-66 | skipped exactly without an assignment or with both answer and image empty; failed when Agent B fails; otherwise a record with the given id, the assignment's id, the answer, the image and the evaluation |
| StudentAssignmentView.HandleSubmit | components/StudentAssignmentView.tsx:44-66 | a submission is saved only after an evaluation returns: on success the storage differs from before only at the submissions key, which holds the upsert of the old list; skipped or failed submits leave the storage unchanged |
| StudentAssignmentView.GetHint | components/StudentAssignmentView.tsx:68-77 | no hint without a loaded assignment; otherwise Agent C's non-empty hint |
| StudentAssignmentView.EffortLabel | components/StudentAssignmentView.tsx:242 | 优秀 exactly when an evaluation detected effort, 待提升 otherwise |
| StudentAssignmentView.DimensionLabels | components/StudentAssignmentView.tsx:240-241 | the translated accuracy and creativity levels, or empty cells without an evaluation |

## Left out

- Rendering, hooks, styling and routing are not modelled. This includes App.tsx, Layout.tsx and its `isActive`, loading flags, and the alert/error display state. These are user interface only.
- The Gemini client, model name, temperature and prompt wording are not modelled. The backend is the function `backend`, and a prompt is the values it interpolates (`Prompt`).
- The response schemas (services/geminiService.ts:9-36, 83-103) are named only (`Schema`). The source does not validate replies. It casts whatever `JSON.parse` returns. The model does not claim a score range for the reply. `JSON.stringify` of the assignment context and tasks is kept as the structured values themselves.
- `localStorage` and JSON (de)serialisation are not modelled. The storage holds decoded values (`Stored`), and serialisation is assumed to round-trip. `LocalStore.Valid` requires each table key, when present, to hold its own kind of list. It excludes the other table's list and any other value, such as a stored `null`, on which the source's `push` or `findIndex` would throw.
- DimensionLabels: `parse` is assumed to return schema-conforming records, so accuracy and creativity are always one of the three levels. A reply with some other level string, which `translateDimension` would show unchanged, is not modelled. Neither is a reply without `dimensions`, which makes components/StudentAssignmentView.tsx:240 throw. TranslateLevels and the `parse` results of Agent B rest on the same assumption.
- `FileReader`, `crypto.randomUUID` and `Date` are not modelled. Image data URLs, ids and timestamps are parameters.
- `AIEvaluation.score` is a JavaScript number. It is modelled as an integer, and floating point is out of scope.
- File staging, document parsing and knowledge-base merging are not modelled. The source only declares the `StagedFile` record (types.ts:55-61), which is modelled as a datatype with no operations.
- The submit button's `isSubmitting` condition (components/StudentAssignmentView.tsx:209) is not modelled because it is loading state. Only its empty-input condition is modelled, in `CanSubmit`.
- Console logging in the error paths is not modelled.
