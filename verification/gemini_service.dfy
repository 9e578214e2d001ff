/**
 * The three agents of services/geminiService.ts, with the remote model abstracted
 * as a function `backend` from the request sent to the reply received, and
 * `JSON.parse` abstracted as a function `parse` that may fail.
 *
 * Agent A (GenerateAssignment) and Agent B (EvaluateSubmission) ask for
 * schema-shaped JSON; an unreachable backend, an empty reply and unparseable text
 * are all failures handed back to the caller. Agent C (GenerateHint) asks for free
 * text and never fails.
 */
module GeminiService {
  import opened Types
  import opened Lists

  /** What the agents can fail with; the two backend-side kinds are passed on unchanged. */
  datatype Failure =
    | NoResponse              // `new Error("No response from AI")`
    | BackendError(message: string)
    | InvalidJson(message: string)

  datatype Result<+T> = Ok(value: T) | Err(failure: Failure)

  /** The response schema requested; its field lists are those of the Types records. */
  datatype Schema = AssignmentSchema | EvaluationSchema

  /**
   * A prompt, represented by the values interpolated into its fixed wording; the
   * wording itself is not modelled.
   */
  datatype Prompt =
    | ArchitectPrompt(topic: string, subjects: string, difficulty: string)
    | MentorPrompt(context: AssignmentContent, studentText: string)
    | TutorPrompt(title: string, scenario: string, tasks: seq<Task>, draft: string)

  datatype Part = TextPart(text: Prompt) | InlineData(mimeType: string, data: string)

  /** One call to the backend: the content parts and, for Agents A and B, the response schema. */
  datatype Request = Request(parts: seq<Part>, schema: Option<Schema>)

  /** The backend either throws or answers with a `text` that may be missing or empty. */
  datatype Reply = Unavailable(failure: Failure) | Answered(text: Option<string>)

  const ImageMimeType: string := "image/jpeg"
  const SubjectSeparator: string := ", "
  const HintRereadFallback: string := "请再读一遍题目背景，尝试将不同学科的知识联系起来思考。"
  const HintOfflineFallback: string := "AI 助教暂时掉线了，请稍后再试。"

  /**
   * The shared tail of Agents A and B: a failed call is rethrown as it is, an empty
   * body is `NoResponse`, and otherwise the body is parsed; no default is ever made up.
   */
  function HandleStructuredReply<T>(reply: Reply, parse: string -> Result<T>): (r: Result<T>)
    ensures reply.Unavailable? ==> r == Err(reply.failure)
    ensures reply.Answered? && !IsTruthy(reply.text) ==> r == Err(NoResponse)
    ensures reply.Answered? && IsTruthy(reply.text) ==> r == parse(reply.text.value)
    ensures r.Ok? ==> reply.Answered? && IsTruthy(reply.text)
  {
    match reply
    case Unavailable(failure) => Err(failure)
    case Answered(text) =>
      if !IsTruthy(text) then Err(NoResponse) else parse(text.value)
  }

  /** Agent A's request: one text prompt naming topic, subjects (joined by ", ") and difficulty. */
  function AssignmentRequest(topic: string, subjects: seq<string>, difficulty: string): (req: Request)
    ensures req.schema == Some(AssignmentSchema)
    ensures |req.parts| == 1 && req.parts[0].TextPart? && req.parts[0].text.ArchitectPrompt?
    ensures req.parts[0].text.topic == topic && req.parts[0].text.difficulty == difficulty
    ensures forall k :: 0 <= k < |subjects| ==> Includes(req.parts[0].text.subjects, subjects[k])
  {
    var listed := JoinWith(subjects, SubjectSeparator);
    assert forall k :: 0 <= k < |subjects| ==> Includes(listed, subjects[k]) by {
      forall k | 0 <= k < |subjects| ensures Includes(listed, subjects[k]) {
        JoinWithIncludesEach(subjects, SubjectSeparator, k);
      }
    }
    Request([TextPart(ArchitectPrompt(topic, listed, difficulty))], Some(AssignmentSchema))
  }

  /** The subjects line lists the subjects in the order given: adding one appends it after a separator. */
  lemma SubjectsListedInOrder(topic: string, subjects: seq<string>, difficulty: string, next: string)
    requires subjects != []
    ensures AssignmentRequest(topic, subjects + [next], difficulty).parts[0].text.subjects
         == AssignmentRequest(topic, subjects, difficulty).parts[0].text.subjects + SubjectSeparator + next
  {
    JoinWithAppend(subjects, [next], SubjectSeparator);
  }

  /** `generateAssignment`: Agent A. */
  function GenerateAssignment(
    topic: string, subjects: seq<string>, difficulty: string,
    backend: Request -> Reply, parse: string -> Result<AssignmentContent>): (r: Result<AssignmentContent>)
    ensures var reply := backend(AssignmentRequest(topic, subjects, difficulty));
      && (reply.Unavailable? ==> r == Err(reply.failure))
      && (reply.Answered? && !IsTruthy(reply.text) ==> r == Err(NoResponse))
      && (r.Ok? <==> reply.Answered? && IsTruthy(reply.text) && parse(reply.text.value).Ok?)
      && (r.Ok? ==> r == parse(reply.text.value))
  {
    HandleStructuredReply(backend(AssignmentRequest(topic, subjects, difficulty)), parse)
  }

  /**
   * `imageBase64.split(',')[1] || imageBase64`: the payload of a data URL, or the
   * whole string when it has no non-empty second comma-separated field.
   */
  function ImagePayload(image: string): (r: string)
    ensures ',' !in image ==> r == image
    ensures r == image || (r != "" && ',' !in r && |r| < |image|)
  {
    var fields := Split(image, ',');
    if |fields| > 1 && fields[1] != "" then
      SplitThenJoin(image, ',');
      assert JoinWith(fields, [',']) == fields[0] + [','] + JoinWith(fields[1..], [',']);
      fields[1]
    else
      image
  }

  /**
   * With the first comma at `i` and the next comma (or the end) at `j`, the text
   * strictly between them is sent when it is non-empty, and the whole string otherwise.
   */
  lemma ImagePayloadBetweenCommas(image: string, i: nat, j: nat)
    requires i < j <= |image|
    requires image[i] == ',' && ',' !in image[..i]
    requires ',' !in image[i + 1..j]
    requires j == |image| || image[j] == ','
    ensures ImagePayload(image) == if i + 1 < j then image[i + 1..j] else image
  {
    var rest := image[i + 1..];
    assert image == image[..i] + [','] + rest;
    SplitAtFirst(image[..i], ',', rest);
    if j == |image| {
      assert rest == image[i + 1..j];
      SplitWithoutSeparator(rest, ',');
    } else {
      assert rest == image[i + 1..j] + [','] + image[j + 1..];
      SplitAtFirst(image[i + 1..j], ',', image[j + 1..]);
    }
  }

  /** Agent B's request: the text part first, then one JPEG part exactly when an image is given. */
  function EvaluationRequest(context: AssignmentContent, studentText: string, image: Option<string>): (req: Request)
    ensures req.schema == Some(EvaluationSchema)
    ensures |req.parts| == if IsTruthy(image) then 2 else 1
    ensures req.parts[0] == TextPart(MentorPrompt(context, studentText))
    ensures (exists k :: 0 <= k < |req.parts| && req.parts[k].InlineData?) <==> IsTruthy(image)
    ensures IsTruthy(image) ==> req.parts[1] == InlineData(ImageMimeType, ImagePayload(image.value))
  {
    var text := [TextPart(MentorPrompt(context, studentText))];
    var parts := if IsTruthy(image) then text + [InlineData(ImageMimeType, ImagePayload(image.value))] else text;
    assert IsTruthy(image) ==> parts[1].InlineData?;
    Request(parts, Some(EvaluationSchema))
  }

  /** What Agent B returns for a given backend. */
  function Evaluation(
    context: AssignmentContent, studentText: string, image: Option<string>,
    backend: Request -> Reply, parse: string -> Result<AIEvaluation>): (r: Result<AIEvaluation>)
    ensures var reply := backend(EvaluationRequest(context, studentText, image));
      && (reply.Unavailable? ==> r == Err(reply.failure))
      && (reply.Answered? && !IsTruthy(reply.text) ==> r == Err(NoResponse))
      && (r.Ok? <==> reply.Answered? && IsTruthy(reply.text) && parse(reply.text.value).Ok?)
      && (r.Ok? ==> r == parse(reply.text.value))
  {
    HandleStructuredReply(backend(EvaluationRequest(context, studentText, image)), parse)
  }

  /** `evaluateSubmission`: Agent B, building its parts with successive pushes. */
  method EvaluateSubmission(
    context: AssignmentContent, studentText: string, image: Option<string>,
    backend: Request -> Reply, parse: string -> Result<AIEvaluation>) returns (r: Result<AIEvaluation>)
    ensures r == Evaluation(context, studentText, image, backend, parse)
  {
    var parts: seq<Part> := [];
    parts := parts + [TextPart(MentorPrompt(context, studentText))];
    if IsTruthy(image) {
      var base64Data := ImagePayload(image.value);
      parts := parts + [InlineData(ImageMimeType, base64Data)];
    }
    assert Request(parts, Some(EvaluationSchema)) == EvaluationRequest(context, studentText, image);
    var reply := backend(Request(parts, Some(EvaluationSchema)));
    r := HandleStructuredReply(reply, parse);
  }

  /**
   * Agent C's request: one free-text prompt carrying the assignment's title,
   * scenario and tasks and the student's draft; unlike Agent B's, it never carries
   * an image part, and no response schema is asked for.
   */
  function HintRequest(context: AssignmentContent, draft: string): (req: Request)
    ensures req.schema.None?
    ensures |req.parts| == 1
    ensures forall k :: 0 <= k < |req.parts| ==> !req.parts[k].InlineData?
    ensures req.parts[0].TextPart? && req.parts[0].text.TutorPrompt?
    ensures var p := req.parts[0].text;
      p.title == context.title && p.scenario == context.scenario && p.tasks == context.tasks && p.draft == draft
  {
    Request([TextPart(TutorPrompt(context.title, context.scenario, context.tasks, draft))], None)
  }

  /** `generateHint`: Agent C. It never fails and never returns an empty hint. */
  function GenerateHint(context: AssignmentContent, draft: string, backend: Request -> Reply): (hint: string)
    ensures hint != ""
    ensures var reply := backend(HintRequest(context, draft));
      && (reply.Answered? && IsTruthy(reply.text) ==> hint == reply.text.value)
      && (reply.Answered? && !IsTruthy(reply.text) ==> hint == HintRereadFallback)
      && (reply.Unavailable? ==> hint == HintOfflineFallback)
  {
    match backend(HintRequest(context, draft))
    case Unavailable(_) => HintOfflineFallback
    case Answered(text) => if IsTruthy(text) then text.value else HintRereadFallback
  }
}
