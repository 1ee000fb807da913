/** The generation gateway `POST /api/chat`: it checks for the model key,
    picks an instruction template by `mode`, makes exactly one call to the
    hosted model with that template as history and the user's message (or
    "Generate"), strips code fences from quiz output, and maps every thrown
    error to `{error}` with status 500.

    The hosted model is a parameter: a function from (instruction, message)
    to the reply text or a thrown error message. */
module ChatRoute {
  import opened Js
  import Text

  /** The JSON body's fields; each may be absent. */
  datatype Request = Request(message: Option<string>, context: Option<string>,
                             situation: Option<string>, mode: Option<string>)

  /** `req.json()` either fails with an error message or yields the fields. */
  datatype RequestBody = Unparseable(reason: string) | Parsed(request: Request)

  datatype Upstream = Replied(text: string) | Threw(message: string)

  datatype Payload = TextPayload(text: string) | ErrorPayload(error: string)
  datatype Response = Response(status: int, payload: Payload)

  /** One call to the hosted model: the instruction sent as history, then the message. */
  datatype Call = Call(instruction: string, message: string)

  datatype Exchange = Exchange(response: Response, calls: seq<Call>)

  /** The path the gateway is served at, from its place under `src/app`. */
  const Endpoint: string := "/api/chat"

  const KeyName: string := "GEMINI_API_KEY"
  const MissingKeyError: string := KeyName + " is not set in environment variables."
  const FallbackError: string := "Failed to generate response."

  // ---------------------------------------------------------------- templates

  datatype Template = QuizTemplate | ScheduleTemplate | ChatTemplate

  /** `mode === "quiz"`, `mode === "schedule"`, anything else (absent included) is chat. */
  function SelectTemplate(mode: Option<string>): (t: Template)
    ensures t == QuizTemplate <==> mode == Some("quiz")
    ensures t == ScheduleTemplate <==> mode == Some("schedule")
  {
    if mode == Some("quiz") then QuizTemplate
    else if mode == Some("schedule") then ScheduleTemplate
    else ChatTemplate
  }

  const QuizHead: string := "You are an expert teacher. Generate a "
  const QuestionCount: string := "3-question"
  const QuizTopic: string := " multiple choice quiz about "
  const QuizFormatHead: string := ".\n      Return ONLY a "
  const QuizFormat: string := "JSON array"
  const QuizFormatTail: string :=
    " with this format:\n      [\n        { \"q\": \"Question "
      + "text\", \"options\": [\"A\", \"B\", \"C\", \"D\"], \"correct\": "
      + "0 },\n        ...\n      ]\n      Do not wrap in "
      + "markdown code blocks. Just the raw JSON."

  function QuizInstruction(context: Option<string>): string {
    QuizHead + QuestionCount + QuizTopic + Interpolate(context) + QuizFormatHead + QuizFormat + QuizFormatTail
  }

  const ScheduleHead: string :=
    "You are an expert study strategist. Create a "
      + "detailed, step-by-step study schedule for a student in "
  const ScheduleSituation: string := " who is facing this situation: \""
  const ScheduleRequest: string := "\".\n      The user's specific request is: \""
  const ScheduleTail: string :=
    "\".\n      Format the response with bold headings, "
      + "bullet points, and time estimates. Be encouraging but firm."

  function ScheduleInstruction(context: Option<string>, situation: Option<string>, message: Option<string>): string {
    ScheduleHead + Interpolate(context) + ScheduleSituation + Interpolate(situation)
      + ScheduleRequest + Interpolate(message) + ScheduleTail
  }

  const DefaultCourse: string := "General High School Advice"
  const DefaultSituation: string := "General Inquiry"

  const ChatHead: string :=
    "You are an expert high school tutor and mentor "
      + "for Knowledge Groove Academy. \n      Your goal "
      + "is to help students succeed in their courses "
      + "by providing specific, actionable advice, practice "
      + "problems, and explanations.\n      \n      Context:\n"
  const CourseLabel: string := "      - Course: "
  const SituationLabel: string := "\n      - Student Situation: "
  const ChatTail: string :=
    "\n      \n      Guidelines:\n      1. Be encouraging "
      + "but realistic.\n      2. If the student asks for "
      + "practice, generate 1-2 specific problems relevant "
      + "to their course and situation.\n      3. If they "
      + "are confused, explain concepts simply using analogies.\n "
      + "     4. If they are behind, prioritize the most "
      + "important topics.\n      5. Keep responses concise "
      + "(under 3 paragraphs) unless asked for a detailed "
      + "plan.\n      "

  function ChatInstruction(context: Option<string>, situation: Option<string>): string {
    ChatHead + (CourseLabel + Or(context, DefaultCourse)) + (SituationLabel + Or(situation, DefaultSituation)) + ChatTail
  }

  /** The instruction of the template the mode selects; the quiz template reads only the
      context, the chat template context and situation, the schedule template all three. */
  function Instruction(r: Request): (s: string)
    ensures r.mode == Some("quiz") ==> s == QuizInstruction(r.context)
    ensures r.mode == Some("schedule") ==> s == ScheduleInstruction(r.context, r.situation, r.message)
    ensures r.mode != Some("quiz") && r.mode != Some("schedule") ==> s == ChatInstruction(r.context, r.situation)
  {
    match SelectTemplate(r.mode)
    case QuizTemplate => QuizInstruction(r.context)
    case ScheduleTemplate => ScheduleInstruction(r.context, r.situation, r.message)
    case ChatTemplate => ChatInstruction(r.context, r.situation)
  }

  /** `message || "Generate"`. */
  function ForwardedMessage(r: Request): (m: string)
    ensures Truthy(r.message) ==> m == r.message.value
    ensures !Truthy(r.message) ==> m == "Generate"
    ensures m != ""
  {
    Or(r.message, "Generate")
  }

  /** The three templates, each selected by exactly its mode. */
  lemma TemplateSelection(mode: Option<string>)
    ensures SelectTemplate(mode) == QuizTemplate <==> mode == Some("quiz")
    ensures SelectTemplate(mode) == ScheduleTemplate <==> mode == Some("schedule")
    ensures SelectTemplate(mode) == ChatTemplate <==> mode != Some("quiz") && mode != Some("schedule")
  {
  }

  /** The quiz instruction names the course and asks for three questions as a bare JSON array. */
  lemma QuizInstructionContents(r: Request)
    requires r.mode == Some("quiz")
    ensures Text.Contains(Instruction(r), Interpolate(r.context))
    ensures Text.Contains(Instruction(r), QuestionCount)
    ensures Text.Contains(Instruction(r), QuizFormat)
  {
    Text.ContainsEvenPieces(QuizHead, QuestionCount, QuizTopic, Interpolate(r.context),
                            QuizFormatHead, QuizFormat, QuizFormatTail);
  }

  /** The schedule instruction carries context, situation and message verbatim. */
  lemma ScheduleInstructionContents(r: Request)
    requires r.mode == Some("schedule")
    ensures Text.Contains(Instruction(r), Interpolate(r.context))
    ensures Text.Contains(Instruction(r), Interpolate(r.situation))
    ensures Text.Contains(Instruction(r), Interpolate(r.message))
  {
    Text.ContainsEvenPieces(ScheduleHead, Interpolate(r.context), ScheduleSituation, Interpolate(r.situation),
                            ScheduleRequest, Interpolate(r.message), ScheduleTail);
  }

  /** Any other mode gets the chat instruction, with the defaults for falsy context and situation. */
  lemma ChatInstructionContents(r: Request)
    requires r.mode != Some("quiz") && r.mode != Some("schedule")
    ensures Text.Contains(Instruction(r), CourseLabel + (if Truthy(r.context) then r.context.value else DefaultCourse))
    ensures Text.Contains(Instruction(r), SituationLabel + (if Truthy(r.situation) then r.situation.value else DefaultSituation))
  {
    Text.ContainsInnerPieces(ChatHead, CourseLabel + Or(r.context, DefaultCourse),
                             SituationLabel + Or(r.situation, DefaultSituation), ChatTail);
  }

  // ---------------------------------------------------------------- quiz clean-up

  const JsonFence: string := "```json"

  /** `text.replace(/```json/g, "").replace(/```/g, "").trim()`. */
  function CleanQuiz(text: string): (r: string)
    ensures !Text.Contains(r, Text.Fence)
    ensures Text.Trimmed(r, Text.IsJsSpace)
  {
    var unfenced := Text.RemoveAll(Text.RemoveAll(text, JsonFence), Text.Fence);
    Text.RemoveFenceLeavesNoFence(Text.RemoveAll(text, JsonFence));
    Text.TrimKeepsAbsent(unfenced, Text.IsJsSpace, Text.Fence);
    Text.Trim(unfenced, Text.IsJsSpace)
  }

  /** A trimmed text without a fence is left alone by the clean-up. */
  lemma CleanQuizOfClean(u: string)
    requires !Text.Contains(u, Text.Fence) && Text.Trimmed(u, Text.IsJsSpace)
    ensures CleanQuiz(u) == u
  {
    assert !Text.Contains(u, JsonFence) by {
      if Text.Contains(u, JsonFence) {
        assert JsonFence == Text.Fence + "json";
        Text.ContainsPrefixOfPattern(u, Text.Fence, "json");
      }
    }
    Text.RemoveAllAbsent(u, JsonFence);
    Text.RemoveAllAbsent(u, Text.Fence);
    Text.TrimOfTrimmed(u, Text.IsJsSpace);
  }

  /** Cleaning a cleaned text changes nothing. */
  lemma CleanQuizIdempotent(text: string)
    ensures CleanQuiz(CleanQuiz(text)) == CleanQuiz(text)
  {
    CleanQuizOfClean(CleanQuiz(text));
  }

  /** A text without a fence, followed by one, holds no "```json": its "json" would have to
      lie inside the text, and so would the fence in front of it. */
  lemma NoJsonFenceBeforeFence(s: string)
    requires !Text.Contains(s, Text.Fence)
    ensures !Text.Contains(s + Text.Fence, JsonFence)
  {
    var u := s + Text.Fence;
    forall i | 0 <= i <= |u| - |JsonFence| ensures !Text.OccursAt(u, JsonFence, i) {
      if Text.OccursAt(u, JsonFence, i) {
        assert u[i..i + |JsonFence|][6] == 'n';
        assert i + 6 < |s|;
        assert u[i..i + 3] == u[i..i + |JsonFence|][..3] == s[i..i + 3];
        assert Text.OccursAt(s, Text.Fence, i);
      }
    }
  }

  /** A reply wrapped in a "```json" ... "```" block comes out as the trimmed text inside it. */
  lemma CleanQuizUnwraps(s: string)
    requires !Text.Contains(s, Text.Fence)
    ensures CleanQuiz(JsonFence + s + Text.Fence) == Text.Trim(s, Text.IsJsSpace)
  {
    var w := JsonFence + s + Text.Fence;
    assert w[..|JsonFence|] == JsonFence;
    assert w[|JsonFence|..] == s + Text.Fence;
    NoJsonFenceBeforeFence(s);
    Text.RemoveAllAbsent(s + Text.Fence, JsonFence);
    Text.RemoveTrailingFence(s);
  }

  /** Quiz output is cleaned; every other template's output is returned as is. */
  function PostProcess(t: Template, text: string): (r: string)
    ensures t == QuizTemplate ==> !Text.Contains(r, Text.Fence) && Text.Trimmed(r, Text.IsJsSpace)
    ensures t != QuizTemplate ==> r == text
  {
    if t == QuizTemplate then CleanQuiz(text) else text
  }

  // ---------------------------------------------------------------- handler

  /** `POST /api/chat`. */
  function Post(body: RequestBody, apiKey: Option<string>, model: (string, string) -> Upstream): (x: Exchange)
    ensures body.Unparseable? ==> x == Exchange(Response(500, ErrorPayload(Or(Some(body.reason), FallbackError))), [])
    ensures body.Parsed? && !Truthy(apiKey) ==>
              && x.response.status == 500
              && x.response.payload.ErrorPayload?
              && Text.Contains(x.response.payload.error, KeyName)
              && x.calls == []
    ensures body.Parsed? && Truthy(apiKey) ==>
              x.calls == [Call(Instruction(body.request), ForwardedMessage(body.request))]
    ensures body.Parsed? && Truthy(apiKey) &&
            model(Instruction(body.request), ForwardedMessage(body.request)).Replied? ==>
              x.response == Response(200, TextPayload(PostProcess(SelectTemplate(body.request.mode),
                model(Instruction(body.request), ForwardedMessage(body.request)).text)))
    ensures body.Parsed? && Truthy(apiKey) &&
            model(Instruction(body.request), ForwardedMessage(body.request)).Threw? ==>
              x.response == Response(500, ErrorPayload(Or(Some(
                model(Instruction(body.request), ForwardedMessage(body.request)).message), FallbackError)))
    ensures x.response.status == 200 <==> x.response.payload.TextPayload?
    ensures x.response.status != 200 ==> x.response.status == 500 && x.response.payload.error != ""
  {
    match body
    case Unparseable(reason) => Exchange(Response(500, ErrorPayload(Or(Some(reason), FallbackError))), [])
    case Parsed(r) =>
      if !Truthy(apiKey) then
        Text.ContainsPrefix(KeyName, " is not set in environment variables.");
        Exchange(Response(500, ErrorPayload(MissingKeyError)), [])
      else
        var call := Call(Instruction(r), ForwardedMessage(r));
        match model(call.instruction, call.message)
        case Replied(text) =>
          Exchange(Response(200, TextPayload(PostProcess(SelectTemplate(r.mode), text))), [call])
        case Threw(message) =>
          Exchange(Response(500, ErrorPayload(Or(Some(message), FallbackError))), [call])
  }
}
