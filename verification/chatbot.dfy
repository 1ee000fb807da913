/** The floating AI-tutor chat: a transcript, an input box, the context
    sent with every question and the greeting shown when a course page
    reports the student's situation. The gateway's answer to a request is
    an input: a function from the request to what `fetch` and
    `response.json()` produced. */
module Chatbot {
  import opened Js
  import Text
  import ChatRoute
  import opened Catalogue

  datatype Role = User | Ai

  /** A transcript line; an AI line built from a reply without `text` has no text. */
  datatype Message = Message(role: Role, text: Option<string>)

  datatype State = State(isOpen: bool, messages: seq<Message>, input: string, isLoading: bool)

  /** The component's props and the current path. */
  datatype Props = Props(courseId: Option<string>, situation: Option<string>, pathname: string)

  /** What the request produced: a rejection (network or body) or the parsed JSON body. */
  datatype Reply = Failed | Body(error: Option<string>, text: Option<string>)

  const Welcome: string := "Hi! I'm your AI tutor. Ask me anything about "
    + "your courses or high school life!"
  const Initial: State := State(false, [Message(Ai, Some(Welcome))], "", false)

  const KeyHint: string := "\U{26A0}\U{FE0F} Please set your GEMINI_API_KEY in the .env "
    + "file to enable the AI features."
  const ConnectionError: string := "Sorry, I'm having trouble connecting right now."
  const ErrorPrefix: string := "Error: "
  const CoursesPath: string := "/courses/"
  const PathFallback: string := "General"
  const NoContext: string := "General High School"

  // ---------------------------------------------------------------- context

  /** `pathname.split("/").pop()`: the text after the last slash, or all of it when there is none. */
  function LastSegment(p: string): (r: string)
    ensures '/' !in r
    ensures |r| <= |p| && p[|p| - |r|..] == r
    ensures |r| < |p| ==> p[|p| - |r| - 1] == '/'
  {
    if p == [] || p[|p| - 1] == '/' then []
    else
      var r := LastSegment(p[..|p| - 1]);
      assert p[|p| - 1 - |r|..|p| - 1] == r;
      r + [p[|p| - 1]]
  }

  /** The segment after a slash is whatever follows it, when that contains no slash. */
  lemma {:induction false} LastSegmentAfterSlash(a: string, b: string)
    requires '/' !in b
    ensures LastSegment(a + "/" + b) == b
    decreases |b|
  {
    var p := a + "/" + b;
    if b == [] {
      assert p[|p| - 1] == '/';
    } else {
      var init, c := b[..|b| - 1], b[|b| - 1];
      assert p[|p| - 1] == c;
      assert p[..|p| - 1] == a + "/" + init;
      assert '/' !in init by {
        assert forall k :: 0 <= k < |init| ==> init[k] == b[k];
      }
      LastSegmentAfterSlash(a, init);
      assert b == init + [c];
    }
  }

  /** A path `<prefix>/courses/<id>` contains the courses marker and ends in the segment `id`. */
  lemma CoursePath(prefix: string, id: string)
    requires '/' !in id
    ensures Text.Contains(prefix + CoursesPath + id, CoursesPath)
    ensures LastSegment(prefix + CoursesPath + id) == id
  {
    assert prefix + CoursesPath + id == (prefix + "/courses") + "/" + id;
    LastSegmentAfterSlash(prefix + "/courses", id);
    Text.ContainsMiddle(prefix, CoursesPath, id);
  }

  /** The `context` sent with a question. */
  function Context(cs: seq<Course>, courseId: Option<string>, pathname: string): (c: string)
    ensures Truthy(courseId) && Find(cs, courseId.value).Some? ==> c == Find(cs, courseId.value).value.title
    ensures Truthy(courseId) && Find(cs, courseId.value).None? ==> c == courseId.value
    ensures !Truthy(courseId) && Text.Contains(pathname, CoursesPath) ==>
              if Find(cs, LastSegment(pathname)).Some? then c == Find(cs, LastSegment(pathname)).value.title
              else c == Or(Some(LastSegment(pathname)), PathFallback)
    ensures !Truthy(courseId) && !Text.Contains(pathname, CoursesPath) ==> c == NoContext
  {
    if Truthy(courseId) then
      match Find(cs, courseId.value)
      case Some(course) => course.title
      case None => courseId.value
    else if Text.Contains(pathname, CoursesPath) then
      var pathId := LastSegment(pathname);
      match Find(cs, pathId)
      case Some(course) => course.title
      case None => Or(Some(pathId), PathFallback)
    else NoContext
  }

  /** A course page passes the course id, and the context is that course's title. */
  lemma ContextOfKnownCourse(cs: seq<Course>, i: nat, pathname: string)
    requires WellFormedCatalogue(cs) && i < |cs|
    ensures Context(cs, Some(cs[i].id), pathname) == cs[i].title
  {
    FindOwnId(cs, i);
  }

  /** Without a course id, a `/courses/<id>` path of a known course yields its title. */
  lemma ContextOfCoursePath(cs: seq<Course>, i: nat, prefix: string)
    requires WellFormedCatalogue(cs) && i < |cs|
    ensures Context(cs, None, prefix + CoursesPath + cs[i].id) == cs[i].title
  {
    FindOwnId(cs, i);
    CoursePath(prefix, cs[i].id);
  }

  /** The context is never empty, so the gateway never falls back to its default course. */
  lemma ContextNonEmpty(cs: seq<Course>, courseId: Option<string>, pathname: string)
    requires WellFormedCatalogue(cs)
    ensures Context(cs, courseId, pathname) != ""
  {
    if Truthy(courseId) && Find(cs, courseId.value).Some? {
      var k :| 0 <= k < |cs| && cs[k] == Find(cs, courseId.value).value;
      assert cs[k].title != "";
    } else if !Truthy(courseId) && Text.Contains(pathname, CoursesPath) && Find(cs, LastSegment(pathname)).Some? {
      var k :| 0 <= k < |cs| && cs[k] == Find(cs, LastSegment(pathname)).value;
      assert cs[k].title != "";
    }
  }

  // ---------------------------------------------------------------- sending

  /** The body posted for the current input: no `mode`, so the gateway uses its chat template. */
  function Question(cs: seq<Course>, s: State, props: Props): (req: ChatRoute.Request)
    ensures req.message == Some(s.input) && req.mode == None
    ensures Truthy(req.situation)
    ensures Truthy(props.situation) ==> req.situation == props.situation
    ensures !Truthy(props.situation) ==> req.situation == Some(ChatRoute.DefaultSituation)
  {
    ChatRoute.Request(Some(s.input), Some(Context(cs, props.courseId, props.pathname)),
                      Some(Or(props.situation, ChatRoute.DefaultSituation)), None)
  }

  /** The AI line a reply turns into. */
  function ReplyText(reply: Reply): (t: Option<string>)
    ensures reply.Failed? ==> t == Some(ConnectionError)
    ensures reply.Body? && Truthy(reply.error) && Text.Contains(reply.error.value, ChatRoute.KeyName) ==> t == Some(KeyHint)
    ensures reply.Body? && Truthy(reply.error) && !Text.Contains(reply.error.value, ChatRoute.KeyName) ==>
              t == Some(ErrorPrefix + reply.error.value)
    ensures reply.Body? && !Truthy(reply.error) ==> t == reply.text
  {
    match reply
    case Failed => Some(ConnectionError)
    case Body(error, text) =>
      if Truthy(error) then
        if Text.Contains(error.value, ChatRoute.KeyName) then Some(KeyHint) else Some(ErrorPrefix + error.value)
      else text
  }

  datatype Sent = Sent(state: State, request: Option<ChatRoute.Request>)

  /** `handleSend`: a blank input does nothing; otherwise the user line and exactly one AI line
      are appended, the input is cleared and loading ends. */
  function Send(cs: seq<Course>, s: State, props: Props, server: ChatRoute.Request -> Reply): (o: Sent)
    ensures Text.Blank(s.input, Text.IsJsSpace) ==> o == Sent(s, None)
    ensures !Text.Blank(s.input, Text.IsJsSpace) ==>
              && o.request == Some(Question(cs, s, props))
              && o.state.messages == s.messages + [Message(User, Some(s.input)),
                                                   Message(Ai, ReplyText(server(Question(cs, s, props))))]
              && o.state.input == ""
              && !o.state.isLoading
              && o.state.isOpen == s.isOpen
  {
    Text.TrimEmptyIffBlank(s.input, Text.IsJsSpace);
    if Text.Trim(s.input, Text.IsJsSpace) == "" then Sent(s, None)
    else
      var req := Question(cs, s, props);
      var user := Message(User, Some(s.input));
      var ai := Message(Ai, ReplyText(server(req)));
      Sent(State(s.isOpen, s.messages + [user, ai], "", false), Some(req))
  }

  /** The gateway's response as the widget sees its JSON body. */
  function BodyOf(resp: ChatRoute.Response): (reply: Reply)
    ensures resp.payload.TextPayload? ==> reply == Body(None, Some(resp.payload.text))
    ensures resp.payload.ErrorPayload? ==> reply == Body(Some(resp.payload.error), None)
  {
    match resp.payload
    case TextPayload(t) => Body(None, Some(t))
    case ErrorPayload(e) => Body(Some(e), None)
  }

  /** Every question reaches the gateway's chat template with the derived context and the situation. */
  lemma QuestionUsesChatTemplate(cs: seq<Course>, s: State, props: Props)
    requires WellFormedCatalogue(cs)
    ensures ChatRoute.SelectTemplate(Question(cs, s, props).mode) == ChatRoute.ChatTemplate
    ensures Text.Contains(ChatRoute.Instruction(Question(cs, s, props)),
                          ChatRoute.CourseLabel + Context(cs, props.courseId, props.pathname))
    ensures Text.Contains(ChatRoute.Instruction(Question(cs, s, props)),
                          ChatRoute.SituationLabel + Or(props.situation, ChatRoute.DefaultSituation))
  {
    ContextNonEmpty(cs, props.courseId, props.pathname);
    ChatRoute.ChatInstructionContents(Question(cs, s, props));
  }

  /** The gateway route with a given model key and hosted model, as the widget sees it. */
  function Gateway(apiKey: Option<string>, model: (string, string) -> ChatRoute.Upstream): ChatRoute.Request -> Reply {
    req => BodyOf(ChatRoute.Post(ChatRoute.Parsed(req), apiKey, model).response)
  }

  /** Against a gateway without a model key, a question is answered with the setup hint. */
  lemma MissingKeyShowsHint(cs: seq<Course>, s: State, props: Props, apiKey: Option<string>, model: (string, string) -> ChatRoute.Upstream)
    requires !Text.Blank(s.input, Text.IsJsSpace) && !Truthy(apiKey)
    ensures Send(cs, s, props, Gateway(apiKey, model)).state.messages
              == s.messages + [Message(User, Some(s.input)), Message(Ai, Some(KeyHint))]
  {
    var req := Question(cs, s, props);
    var resp := ChatRoute.Post(ChatRoute.Parsed(req), apiKey, model).response;
    assert Text.Contains(resp.payload.error, ChatRoute.KeyName);
    assert resp.payload.error != "";
    assert Gateway(apiKey, model)(req) == Body(Some(resp.payload.error), None);
    assert ReplyText(Body(Some(resp.payload.error), None)) == Some(KeyHint);
  }

  /** Against a working gateway, the model's reply text is what the student sees. */
  lemma ReplyShown(cs: seq<Course>, s: State, props: Props, apiKey: Option<string>, model: (string, string) -> ChatRoute.Upstream)
    requires !Text.Blank(s.input, Text.IsJsSpace) && Truthy(apiKey)
    requires model(ChatRoute.Instruction(Question(cs, s, props)), ChatRoute.ForwardedMessage(Question(cs, s, props))).Replied?
    ensures Send(cs, s, props, Gateway(apiKey, model)).state.messages
              == s.messages + [Message(User, Some(s.input)),
                               Message(Ai, Some(model(ChatRoute.Instruction(Question(cs, s, props)),
                                                      ChatRoute.ForwardedMessage(Question(cs, s, props))).text))]
  {
    var req := Question(cs, s, props);
    var up := model(ChatRoute.Instruction(req), ChatRoute.ForwardedMessage(req));
    var resp := ChatRoute.Post(ChatRoute.Parsed(req), apiKey, model).response;
    assert resp == ChatRoute.Response(200, ChatRoute.TextPayload(ChatRoute.PostProcess(ChatRoute.SelectTemplate(req.mode), up.text)));
    assert ChatRoute.SelectTemplate(req.mode) == ChatRoute.ChatTemplate;
    assert ChatRoute.PostProcess(ChatRoute.ChatTemplate, up.text) == up.text;
    assert Gateway(apiKey, model)(req) == Body(None, Some(up.text));
    assert ReplyText(Body(None, Some(up.text))) == Some(up.text);
  }

  // ---------------------------------------------------------------- greeting

  function Greeting(title: string, situation: string, guide: SituationGuide): string {
    "I see you're looking at " + title + " and feeling \"" + situation + "\". " + guide.chatbotContext
      + " How can I help you with your plan?"
  }

  /** The guide for the props, when there is a course id, a situation, a course with that id and
      a guide for that situation. */
  function GuideFor(cs: seq<Course>, props: Props): (g: Option<(Course, SituationGuide)>)
    ensures g.Some? <==> Truthy(props.courseId) && Truthy(props.situation)
                         && Find(cs, props.courseId.value).Some?
                         && props.situation.value in Find(cs, props.courseId.value).value.situationGuides
    ensures g.Some? ==> g.value.0 == Find(cs, props.courseId.value).value
                        && g.value.1 == g.value.0.situationGuides[props.situation.value]
  {
    if Truthy(props.courseId) && Truthy(props.situation) then
      match Find(cs, props.courseId.value)
      case Some(course) =>
        if props.situation.value in course.situationGuides then Some((course, course.situationGuides[props.situation.value]))
        else None
      case None => None
    else None
  }

  /** The effect on `[courseId, situation]`: greet and open the widget when a guide exists, and
      change nothing otherwise. */
  function Greet(cs: seq<Course>, s: State, props: Props): (r: State)
    ensures GuideFor(cs, props).None? ==> r == s
    ensures GuideFor(cs, props).Some? ==>
              && r.isOpen
              && r.messages == s.messages + [Message(Ai, Some(Greeting(GuideFor(cs, props).value.0.title,
                                                                        props.situation.value,
                                                                        GuideFor(cs, props).value.1)))]
              && r.input == s.input && r.isLoading == s.isLoading
  {
    match GuideFor(cs, props)
    case None => s
    case Some((course, guide)) =>
      s.(messages := s.messages + [Message(Ai, Some(Greeting(course.title, props.situation.value, guide)))],
         isOpen := true)
  }

  /** Every course greets for each of the five situations, naming the course and passing on
      the guide's briefing. */
  lemma KnownCourseGreets(cs: seq<Course>, s: State, i: nat, t: Situation, pathname: string)
    requires WellFormedCatalogue(cs) && i < |cs|
    ensures GuideFor(cs, Props(Some(cs[i].id), Some(SituationKey(t)), pathname)).Some?
    ensures Greet(cs, s, Props(Some(cs[i].id), Some(SituationKey(t)), pathname)).isOpen
    ensures Greet(cs, s, Props(Some(cs[i].id), Some(SituationKey(t)), pathname)).messages ==
              s.messages + [Message(Ai, Some(Greeting(cs[i].title, SituationKey(t),
                                                      cs[i].situationGuides[SituationKey(t)])))]
  {
    FindOwnId(cs, i);
    SituationKeysClosed();
    assert SituationKey(t) in cs[i].situationGuides.Keys;
  }

  /** A situation that is not one of the five guide keys never greets. */
  lemma UnknownSituationNoGreeting(cs: seq<Course>, s: State, courseId: Option<string>, situation: string,
                                   pathname: string)
    requires WellFormedCatalogue(cs) && situation !in SituationKeys
    ensures Greet(cs, s, Props(courseId, Some(situation), pathname)) == s
  {
    forall k | 0 <= k < |cs| ensures situation !in cs[k].situationGuides {
      assert cs[k].situationGuides.Keys == SituationKeys;
    }
  }

  // ---------------------------------------------------------------- transcript

  datatype Event = Typed(text: string) | ToggleOpen | Close | Submitted(props: Props) | PropsChanged(props: Props)

  function Apply(cs: seq<Course>, s: State, e: Event, server: ChatRoute.Request -> Reply): State {
    match e
    case Typed(text) => s.(input := text)
    case ToggleOpen => s.(isOpen := !s.isOpen)
    case Close => s.(isOpen := false)
    case Submitted(props) => Send(cs, s, props, server).state
    case PropsChanged(props) => Greet(cs, s, props)
  }

  function Run(cs: seq<Course>, s: State, es: seq<Event>, server: ChatRoute.Request -> Reply): State
    decreases |es|
  {
    if es == [] then s else Run(cs, Apply(cs, s, es[0], server), es[1..], server)
  }

  /** The transcript opens with the welcome line, never shrinks, and every user line is a
      non-blank question. */
  predicate Valid(s: State) {
    && |s.messages| >= 1
    && s.messages[0] == Message(Ai, Some(Welcome))
    && forall k :: 0 <= k < |s.messages| && s.messages[k].role == User ==>
         s.messages[k].text.Some? && !Text.Blank(s.messages[k].text.value, Text.IsJsSpace)
  }

  /** Appending AI lines, or a user line that is not blank, keeps the transcript valid. */
  lemma AppendValid(s: State, added: seq<Message>, r: State)
    requires Valid(s) && r.messages == s.messages + added
    requires forall k :: 0 <= k < |added| && added[k].role == User ==>
               added[k].text.Some? && !Text.Blank(added[k].text.value, Text.IsJsSpace)
    ensures Valid(r)
  {
    forall k | 0 <= k < |r.messages| && r.messages[k].role == User
      ensures r.messages[k].text.Some? && !Text.Blank(r.messages[k].text.value, Text.IsJsSpace)
    {
      if k >= |s.messages| {
        assert r.messages[k] == added[k - |s.messages|];
      }
    }
  }

  /** One exchange, the question and whatever line answers it, keeps the transcript valid. */
  lemma ExchangeValid(s: State, answer: Option<string>, r: State)
    requires Valid(s) && !Text.Blank(s.input, Text.IsJsSpace)
    requires r.messages == s.messages + [Message(User, Some(s.input)), Message(Ai, answer)]
    ensures Valid(r) && s.messages <= r.messages
  {
    AppendValid(s, [Message(User, Some(s.input)), Message(Ai, answer)], r);
  }

  lemma SendValid(cs: seq<Course>, s: State, props: Props, server: ChatRoute.Request -> Reply)
    requires Valid(s)
    ensures Valid(Send(cs, s, props, server).state)
    ensures s.messages <= Send(cs, s, props, server).state.messages
  {
    var o := Send(cs, s, props, server);
    if !Text.Blank(s.input, Text.IsJsSpace) {
      ExchangeValid(s, ReplyText(server(Question(cs, s, props))), o.state);
    }
  }

  lemma GreetValid(cs: seq<Course>, s: State, props: Props)
    requires Valid(s)
    ensures Valid(Greet(cs, s, props))
    ensures s.messages <= Greet(cs, s, props).messages
  {
    var g := GuideFor(cs, props);
    if g.Some? {
      var added := [Message(Ai, Some(Greeting(g.value.0.title, props.situation.value, g.value.1)))];
      AppendValid(s, added, Greet(cs, s, props));
    }
  }

  lemma ApplyValid(cs: seq<Course>, s: State, e: Event, server: ChatRoute.Request -> Reply)
    requires Valid(s)
    ensures Valid(Apply(cs, s, e, server))
    ensures s.messages <= Apply(cs, s, e, server).messages
  {
    match e
    case Submitted(props) => SendValid(cs, s, props, server);
    case PropsChanged(props) => GreetValid(cs, s, props);
    case _ =>
  }

  lemma {:induction false} RunValid(cs: seq<Course>, s: State, es: seq<Event>, server: ChatRoute.Request -> Reply)
    requires Valid(s)
    ensures Valid(Run(cs, s, es, server))
    ensures s.messages <= Run(cs, s, es, server).messages
    decreases |es|
  {
    if es != [] {
      ApplyValid(cs, s, es[0], server);
      RunValid(cs, Apply(cs, s, es[0], server), es[1..], server);
    }
  }

  lemma InitialValid()
    ensures Valid(Initial)
  {
  }
}
