/** The personalized-practice quiz widget: a modal that asks the chat
    gateway for a quiz, walks through the questions counting correct
    answers, and shows a result with feedback. React state is one record;
    each handler is one transition on it. The outcome of the request
    (`fetch`, `response.json()` and `JSON.parse(data.text)`) is an input.

    The widget as written posts to a path no route serves (`QuizPathAsWritten`);
    the `Receive` events carry what the request gives at the gateway's path. */
module Practice {
  import opened Js
  import ChatRoute
  import Text

  datatype Step = Start | Loading | QuizStep | Result

  datatype Question = Question(q: string, options: seq<string>, correct: int)

  datatype State = State(isOpen: bool, step: Step, current: nat, score: nat, questions: seq<Question>)

  /** What the quiz request produced: a thrown error (network, body or parse),
      a parsed value that is not an array, or a parsed array of questions. */
  datatype Outcome = Failed | NotAnArray | AnArray(items: seq<Question>)

  /** The buttons and the request completion that drive the widget. */
  datatype Event = OpenModal | Cancel | Begin | Receive(outcome: Outcome) | Answer(option: int) | Close

  const Initial: State := State(false, Start, 0, 0, [])

  const PerfectFeedback: string := "Perfect score! You've mastered this topic."
  const EffortFeedback: string := "Good effort! Review the topics you missed to "
    + "solidify your understanding."

  /** The body of the quiz request for a course title. */
  function QuizRequest(courseTitle: string): ChatRoute.Request {
    ChatRoute.Request(Some("Generate a quiz"), Some(courseTitle), None, Some("quiz"))
  }

  /** The path `startQuiz` posts to as written. No route in the app's sources serves it: the
      API routes there are `/api/chat` and `/api/real-estate`, the configuration sets no base
      path, and its only rewrites are for the stock-market analyzer. */
  const QuizPathAsWritten: string := "/academy/api/chat"

  /** The gateway's path, which the chat widget and the strategy guide post to; the rest of
      this model takes the quiz request to arrive there. */
  const QuizPath: string := ChatRoute.Endpoint

  /** What `fetch`, `response.json()` and `JSON.parse(data.text)` give for a POST of `req` to
      `path`. At the gateway's path the outcome is whatever the gateway's answer parses to.
      Any other path throws: an unserved path answers with an HTML 404 page, on which
      `response.json()` throws, and the real-estate route's JSON has no `text`, on which
      `JSON.parse` throws. */
  function Fetch(path: string, req: ChatRoute.Request, gateway: ChatRoute.Request -> Outcome): (o: Outcome)
    ensures path == ChatRoute.Endpoint ==> o == gateway(req)
    ensures path != ChatRoute.Endpoint ==> o == Failed
  {
    if path == ChatRoute.Endpoint then gateway(req) else Failed
  }

  /** `startQuiz` from a state: the loading screen, then the request's outcome. */
  function StartQuizAt(s: State, path: string, courseTitle: string, gateway: ChatRoute.Request -> Outcome): State {
    ReceiveQuiz(BeginQuiz(s), Fetch(path, QuizRequest(courseTitle), gateway))
  }

  /** As written, the quiz never starts: whatever the gateway would answer, the request fails,
      the modal closes and the start screen returns. */
  lemma QuizAsWrittenNeverStarts(s: State, courseTitle: string, gateway: ChatRoute.Request -> Outcome)
    ensures StartQuizAt(s, QuizPathAsWritten, courseTitle, gateway).step == Start
    ensures !StartQuizAt(s, QuizPathAsWritten, courseTitle, gateway).isOpen
  {
    assert |QuizPathAsWritten| != |ChatRoute.Endpoint|;
  }

  /** At the gateway's path the quiz starts exactly when the gateway answers a non-empty
      array, and then on those questions. */
  lemma QuizAtGatewayStarts(s: State, courseTitle: string, gateway: ChatRoute.Request -> Outcome)
    ensures var o := gateway(QuizRequest(courseTitle));
            StartQuizAt(s, QuizPath, courseTitle, gateway).step == QuizStep <==> o.AnArray? && |o.items| > 0
    ensures var o := gateway(QuizRequest(courseTitle));
            o.AnArray? && |o.items| > 0 ==> StartQuizAt(s, QuizPath, courseTitle, gateway).questions == o.items
  {
  }

  /** The request reaches the gateway's quiz template, which names the course. */
  lemma QuizRequestSelectsQuiz(courseTitle: string)
    ensures ChatRoute.SelectTemplate(QuizRequest(courseTitle).mode) == ChatRoute.QuizTemplate
    ensures Text.Contains(ChatRoute.Instruction(QuizRequest(courseTitle)), courseTitle)
  {
    ChatRoute.QuizInstructionContents(QuizRequest(courseTitle));
  }

  /** `startQuiz` before the request: the loading screen. */
  function BeginQuiz(s: State): (r: State)
    ensures r.step == Loading
    ensures r.isOpen == s.isOpen && r.current == s.current && r.score == s.score && r.questions == s.questions
  {
    s.(step := Loading)
  }

  /** `startQuiz` after the request: only a non-empty array starts the quiz; anything else
      returns to the start screen and closes the modal. */
  function ReceiveQuiz(s: State, o: Outcome): (r: State)
    ensures r.step == QuizStep <==> o.AnArray? && |o.items| > 0
    ensures r.step == QuizStep ==> r.questions == o.items && r.isOpen == s.isOpen
    ensures r.step != QuizStep ==> r.step == Start && !r.isOpen && r.questions == s.questions
    ensures r.current == s.current && r.score == s.score
  {
    match o
    case AnArray(items) =>
      if |items| > 0 then s.(questions := items, step := QuizStep) else s.(step := Start, isOpen := false)
    case _ => s.(step := Start, isOpen := false)
  }

  /** `handleAnswer(optionIdx)`; it reads `questions[currentQuestion]`, so the current question must exist. */
  function AnswerQuestion(s: State, optionIdx: int): (r: State)
    requires s.current < |s.questions|
    ensures optionIdx == s.questions[s.current].correct ==> r.score == s.score + 1
    ensures optionIdx != s.questions[s.current].correct ==> r.score == s.score
    ensures s.current < |s.questions| - 1 ==> r.current == s.current + 1 && r.step == s.step
    ensures s.current == |s.questions| - 1 ==> r.current == s.current && r.step == Result
    ensures r.questions == s.questions && r.isOpen == s.isOpen
  {
    var score := if optionIdx == s.questions[s.current].correct then s.score + 1 else s.score;
    if s.current < |s.questions| - 1 then s.(score := score, current := s.current + 1)
    else s.(score := score, step := Result)
  }

  /** `resetQuiz`: back to the closed start screen with nothing loaded. */
  function Reset(s: State): (r: State)
    ensures r.step == Start && r.current == 0 && r.score == 0 && r.questions == [] && !r.isOpen
    ensures Valid(r)
  {
    Initial
  }

  /** The result screen's feedback line. */
  function Feedback(s: State): (r: string)
    ensures r == PerfectFeedback <==> s.score == |s.questions|
    ensures r == EffortFeedback <==> s.score != |s.questions|
  {
    if s.score == |s.questions| then PerfectFeedback else EffortFeedback
  }

  /** An event can happen only when its button is on screen (or, for `Receive`, while loading). */
  predicate Enabled(s: State, e: Event) {
    match e
    case OpenModal => true
    case Cancel => s.isOpen && s.step == Start
    case Begin => s.isOpen && s.step == Start
    case Receive(_) => s.step == Loading
    case Answer(i) =>
      s.isOpen && s.step == QuizStep && s.current < |s.questions| && 0 <= i < |s.questions[s.current].options|
    case Close => s.isOpen && s.step == Result
  }

  /** One event; an event whose button is not rendered changes nothing. */
  function Apply(s: State, e: Event): (r: State)
    ensures !Enabled(s, e) ==> r == s
  {
    if !Enabled(s, e) then s
    else
      match e
      case OpenModal => s.(isOpen := true)
      case Cancel => s.(isOpen := false)
      case Begin => BeginQuiz(s)
      case Receive(o) => ReceiveQuiz(s, o)
      case Answer(i) => AnswerQuestion(s, i)
      case Close => Reset(s)
  }

  function Run(s: State, es: seq<Event>): State
    decreases |es|
  {
    if es == [] then s else Run(Apply(s, es[0]), es[1..])
  }

  /** Questions answered so far. */
  function Answered(s: State): nat {
    if s.step == Result then |s.questions| else s.current
  }

  /** The states reachable from `Initial`: nothing is loaded before the quiz, the current
      question exists during the quiz, and the score never exceeds the questions answered. */
  predicate Valid(s: State) {
    && (s.step == Start || s.step == Loading ==> s.current == 0 && s.score == 0 && s.questions == [])
    && (s.step == QuizStep ==> s.current < |s.questions| && s.score <= s.current)
    && (s.step == Result ==> 0 < |s.questions| && s.current == |s.questions| - 1 && s.score <= |s.questions|)
  }

  lemma ValidBounds(s: State)
    requires Valid(s)
    ensures s.score <= Answered(s) <= |s.questions|
    ensures s.step == QuizStep ==> s.current < |s.questions|
  {
  }

  lemma ApplyValid(s: State, e: Event)
    requires Valid(s)
    ensures Valid(Apply(s, e))
  {
  }

  /** Every state reached from the initial one is valid. */
  lemma {:induction false} RunValid(s: State, es: seq<Event>)
    requires Valid(s)
    ensures Valid(Run(s, es))
    decreases |es|
  {
    if es != [] {
      ApplyValid(s, es[0]);
      RunValid(Apply(s, es[0]), es[1..]);
    }
  }

  /** How many of `answers` match the questions from position `from` on. */
  function Correct(qs: seq<Question>, from: nat, answers: seq<int>): (n: nat)
    requires from + |answers| <= |qs|
    ensures n <= |answers|
    decreases |answers|
  {
    if answers == [] then 0
    else (if answers[0] == qs[from].correct then 1 else 0) + Correct(qs, from + 1, answers[1..])
  }

  /** All answers count exactly when every answer is the correct option. */
  lemma {:induction false} CorrectAll(qs: seq<Question>, from: nat, answers: seq<int>)
    requires from + |answers| <= |qs|
    ensures Correct(qs, from, answers) == |answers| <==>
              forall k :: 0 <= k < |answers| ==> answers[k] == qs[from + k].correct
    decreases |answers|
  {
    if answers != [] {
      CorrectAll(qs, from + 1, answers[1..]);
      assert forall k :: 1 <= k < |answers| ==> answers[1..][k - 1] == answers[k];
    }
  }

  function AnswerEvents(answers: seq<int>): (es: seq<Event>)
    ensures |es| == |answers|
    ensures forall k :: 0 <= k < |es| ==> es[k] == Answer(answers[k])
  {
    seq(|answers|, k requires 0 <= k < |answers| => Answer(answers[k]))
  }

  /** Answering the remaining questions, one rendered option each, ends on the result
      screen with one point per correct answer. */
  lemma {:induction false} AnsweringScore(s: State, answers: seq<int>)
    requires Valid(s) && s.isOpen && s.step == QuizStep
    requires s.current + |answers| == |s.questions|
    requires forall k :: 0 <= k < |answers| ==> 0 <= answers[k] < |s.questions[s.current + k].options|
    ensures Run(s, AnswerEvents(answers)).step == Result
    ensures Run(s, AnswerEvents(answers)).questions == s.questions
    ensures Run(s, AnswerEvents(answers)).score == s.score + Correct(s.questions, s.current, answers)
    decreases |answers|
  {
    var es := AnswerEvents(answers);
    var t := Apply(s, es[0]);
    assert t == AnswerQuestion(s, answers[0]);
    assert es[1..] == AnswerEvents(answers[1..]);
    if |answers| == 1 {
      assert Run(t, es[1..]) == t;
    } else {
      AnsweringScore(t, answers[1..]);
    }
  }

  /** Opening the modal, starting and receiving a non-empty quiz lands on its first question. */
  lemma StartQuiz(qs: seq<Question>, rest: seq<Event>)
    requires 0 < |qs|
    ensures Run(Initial, [OpenModal, Begin, Receive(AnArray(qs))] + rest) == Run(State(true, QuizStep, 0, 0, qs), rest)
  {
    var es := [OpenModal, Begin, Receive(AnArray(qs))] + rest;
    var s1, s2 := State(true, Start, 0, 0, []), State(true, Loading, 0, 0, []);
    assert Apply(Initial, OpenModal) == s1 && Apply(s1, Begin) == s2;
    assert Apply(s2, Receive(AnArray(qs))) == State(true, QuizStep, 0, 0, qs);
    assert es[1..][1..][1..] == rest;
    assert Run(Initial, es) == Run(s1, es[1..]);
    assert Run(s1, es[1..]) == Run(s2, es[1..][1..]);
  }

  /** A whole quiz: start, receive the questions, answer each one. The score is the number of
      correct answers, and the feedback is the perfect one exactly when every answer is correct. */
  lemma PlayScore(qs: seq<Question>, answers: seq<int>)
    requires 0 < |qs| && |answers| == |qs|
    requires forall k :: 0 <= k < |answers| ==> 0 <= answers[k] < |qs[k].options|
    ensures Run(Initial, [OpenModal, Begin, Receive(AnArray(qs))] + AnswerEvents(answers)).step == Result
    ensures Run(Initial, [OpenModal, Begin, Receive(AnArray(qs))] + AnswerEvents(answers)).score == Correct(qs, 0, answers)
    ensures (Feedback(Run(Initial, [OpenModal, Begin, Receive(AnArray(qs))] + AnswerEvents(answers))) == PerfectFeedback)
            <==> (forall k :: 0 <= k < |qs| ==> answers[k] == qs[k].correct)
  {
    StartQuiz(qs, AnswerEvents(answers));
    AnsweringScore(State(true, QuizStep, 0, 0, qs), answers);
    CorrectAll(qs, 0, answers);
  }
}
