/** The interactive strategy guide: the student describes a problem, the
    gateway's schedule template writes a study plan, and the student can
    refine that plan with feedback. The state is the five React fields; the
    gateway's answer to a request is an input. */
module StrategyGuide {
  import opened Js
  import Text
  import ChatRoute

  datatype State = State(input: string, isGenerating: bool, schedule: Option<string>,
                         editMode: bool, editInput: string)

  /** What the request produced: a rejection (network or body), or the JSON body's `text` field. */
  datatype Reply = Failed | Body(text: Option<string>)

  const Initial: State := State("", false, None, false, "")

  const StudiesContext: string := "High School Studies"
  const GenerateSituation: string := "Student needs a custom plan"
  const RefineSituation: string := "Refining the plan"
  const FeedbackHead: string := "Update this schedule based on this feedback: "
  const ScheduleHead: string := ". \n\n Current Schedule: "

  /** `${schedule}` for a `string | null` field: null prints as "null". */
  function ShowSchedule(schedule: Option<string>): (r: string)
    ensures schedule.Some? ==> r == schedule.value
    ensures schedule.None? ==> r == "null"
  {
    match schedule
    case Some(t) => t
    case None => "null"
  }

  /** The body posted by `handleGenerate`. */
  function GenerateRequest(s: State): (req: ChatRoute.Request)
    ensures req.mode == Some("schedule") && req.context == Some(StudiesContext)
    ensures req.message == Some(s.input) && req.situation == Some(GenerateSituation)
  {
    ChatRoute.Request(Some(s.input), Some(StudiesContext), Some(GenerateSituation), Some("schedule"))
  }

  /** The message of a refinement: the feedback, then the whole current schedule. */
  function RefineMessage(feedback: string, schedule: Option<string>): (m: string)
    ensures Text.Contains(m, feedback)
    ensures Text.Contains(m, ShowSchedule(schedule))
  {
    var m := FeedbackHead + feedback + ScheduleHead + ShowSchedule(schedule);
    assert m == FeedbackHead + feedback + (ScheduleHead + ShowSchedule(schedule));
    Text.ContainsMiddle(FeedbackHead, feedback, ScheduleHead + ShowSchedule(schedule));
    assert m == (FeedbackHead + feedback + ScheduleHead) + ShowSchedule(schedule) + "";
    Text.ContainsMiddle(FeedbackHead + feedback + ScheduleHead, ShowSchedule(schedule), "");
    m
  }

  /** The body posted by `handleEdit`. */
  function EditRequest(s: State): (req: ChatRoute.Request)
    ensures req.mode == Some("schedule") && req.context == Some(StudiesContext)
    ensures req.message == Some(RefineMessage(s.editInput, s.schedule)) && req.situation == Some(RefineSituation)
  {
    ChatRoute.Request(Some(RefineMessage(s.editInput, s.schedule)), Some(StudiesContext), Some(RefineSituation),
                      Some("schedule"))
  }

  /** The reply carries a truthy `text`. */
  predicate HasText(reply: Reply) {
    reply.Body? && Truthy(reply.text)
  }

  datatype Sent = Sent(state: State, request: Option<ChatRoute.Request>)

  /** `handleGenerate`: a blank description sends nothing; otherwise the schedule becomes the
      reply's text when it has one, and generating is over whatever happened. */
  function Generate(s: State, server: ChatRoute.Request -> Reply): (o: Sent)
    ensures Text.Blank(s.input, Text.IsJsSpace) ==> o == Sent(s, None)
    ensures !Text.Blank(s.input, Text.IsJsSpace) ==>
              && o.request == Some(GenerateRequest(s))
              && !o.state.isGenerating
              && (HasText(server(GenerateRequest(s))) ==> o.state.schedule == server(GenerateRequest(s)).text)
              && (!HasText(server(GenerateRequest(s))) ==> o.state.schedule == s.schedule)
              && o.state.input == s.input && o.state.editMode == s.editMode && o.state.editInput == s.editInput
  {
    Text.TrimEmptyIffBlank(s.input, Text.IsJsSpace);
    if Text.Trim(s.input, Text.IsJsSpace) == "" then Sent(s, None)
    else
      var req := GenerateRequest(s);
      var reply := server(req);
      var schedule := if HasText(reply) then reply.text else s.schedule;
      Sent(s.(schedule := schedule, isGenerating := false), Some(req))
  }

  /** `handleEdit`: blank feedback sends nothing; a reply with text replaces the schedule, leaves
      edit mode and clears the feedback; any other outcome keeps all three. */
  function Edit(s: State, server: ChatRoute.Request -> Reply): (o: Sent)
    ensures Text.Blank(s.editInput, Text.IsJsSpace) ==> o == Sent(s, None)
    ensures !Text.Blank(s.editInput, Text.IsJsSpace) ==>
              && o.request == Some(EditRequest(s))
              && !o.state.isGenerating
              && o.state.input == s.input
              && (HasText(server(EditRequest(s))) ==>
                    && o.state.schedule == server(EditRequest(s)).text
                    && !o.state.editMode && o.state.editInput == "")
              && (!HasText(server(EditRequest(s))) ==>
                    && o.state.schedule == s.schedule
                    && o.state.editMode == s.editMode && o.state.editInput == s.editInput)
  {
    Text.TrimEmptyIffBlank(s.editInput, Text.IsJsSpace);
    if Text.Trim(s.editInput, Text.IsJsSpace) == "" then Sent(s, None)
    else
      var req := EditRequest(s);
      var reply := server(req);
      if HasText(reply) then
        Sent(s.(schedule := reply.text, editMode := false, editInput := "", isGenerating := false), Some(req))
      else
        Sent(s.(isGenerating := false), Some(req))
  }

  /** A plan request reaches the gateway's schedule template, which quotes the student's text. */
  lemma GenerateUsesScheduleTemplate(s: State)
    ensures ChatRoute.SelectTemplate(GenerateRequest(s).mode) == ChatRoute.ScheduleTemplate
    ensures Text.Contains(ChatRoute.Instruction(GenerateRequest(s)), s.input)
    ensures Text.Contains(ChatRoute.Instruction(GenerateRequest(s)), StudiesContext)
  {
    ChatRoute.ScheduleInstructionContents(GenerateRequest(s));
  }

  /** A refinement reaches the schedule template, which quotes the refinement message. */
  lemma EditQuotesMessage(s: State)
    ensures ChatRoute.SelectTemplate(EditRequest(s).mode) == ChatRoute.ScheduleTemplate
    ensures Text.Contains(ChatRoute.Instruction(EditRequest(s)), RefineMessage(s.editInput, s.schedule))
  {
    ChatRoute.ScheduleInstructionContents(EditRequest(s));
  }

  /** So the instruction of a refinement holds the feedback and the whole current schedule. */
  lemma EditCarriesSchedule(s: State)
    ensures Text.Contains(ChatRoute.Instruction(EditRequest(s)), s.editInput)
    ensures Text.Contains(ChatRoute.Instruction(EditRequest(s)), ShowSchedule(s.schedule))
  {
    var i, m := ChatRoute.Instruction(EditRequest(s)), RefineMessage(s.editInput, s.schedule);
    EditQuotesMessage(s);
    Text.ContainsTransitive(i, m, s.editInput);
    Text.ContainsTransitive(i, m, ShowSchedule(s.schedule));
  }

  // ---------------------------------------------------------------- session

  datatype Event = Typed(text: string) | GenerateClicked | StartEdit | EditTyped(text: string)
                 | EditClicked | CancelEdit

  /** The description box and its button show while there is no schedule; the edit controls
      show once there is one, the feedback box only in edit mode. */
  predicate Enabled(s: State, e: Event) {
    match e
    case Typed(_) => !Truthy(s.schedule)
    case GenerateClicked => !Truthy(s.schedule) && !s.isGenerating
    case StartEdit => Truthy(s.schedule) && !s.editMode
    case EditTyped(_) => Truthy(s.schedule) && s.editMode
    case EditClicked => Truthy(s.schedule) && s.editMode && !s.isGenerating
    case CancelEdit => Truthy(s.schedule) && s.editMode
  }

  function Apply(s: State, e: Event, server: ChatRoute.Request -> Reply): (r: State)
    ensures !Enabled(s, e) ==> r == s
  {
    if !Enabled(s, e) then s
    else
      match e
      case Typed(text) => s.(input := text)
      case GenerateClicked => Generate(s, server).state
      case StartEdit => s.(editMode := true)
      case EditTyped(text) => s.(editInput := text)
      case EditClicked => Edit(s, server).state
      case CancelEdit => s.(editMode := false)
  }

  function Run(s: State, es: seq<Event>, server: ChatRoute.Request -> Reply): State
    decreases |es|
  {
    if es == [] then s else Run(Apply(s, es[0], server), es[1..], server)
  }

  /** Between handlers nothing is generating, and edit mode is only entered with a schedule. */
  predicate Valid(s: State) {
    !s.isGenerating && (s.editMode ==> Truthy(s.schedule))
  }

  /** Every step keeps the state valid, and a schedule once shown is never lost. */
  lemma ApplyValid(s: State, e: Event, server: ChatRoute.Request -> Reply)
    requires Valid(s)
    ensures Valid(Apply(s, e, server))
    ensures Truthy(s.schedule) ==> Truthy(Apply(s, e, server).schedule)
  {
  }

  lemma {:induction false} RunValid(s: State, es: seq<Event>, server: ChatRoute.Request -> Reply)
    requires Valid(s)
    ensures Valid(Run(s, es, server))
    ensures Truthy(s.schedule) ==> Truthy(Run(s, es, server).schedule)
    decreases |es|
  {
    if es != [] {
      ApplyValid(s, es[0], server);
      RunValid(Apply(s, es[0], server), es[1..], server);
    }
  }

  lemma InitialValid()
    ensures Valid(Initial)
  {
  }
}
