# Knowledge Groove: the logic behind the pages

This project is a Dafny model of the pieces of the Knowledge Groove site that are plain logic rather than rendering. It covers:

- the real-estate lookup endpoint: request validation, the listing slug, the rental-yield score, its verdict bands, the provider payload remapping and the demo-mode generator (`RealEstate`);
- the generation gateway `POST /api/chat`: template selection by `mode`, field defaults, the forwarded message, quiz fence stripping and error responses (`ChatRoute`);
- the Python text helpers: tokenizer, sentence splitter, keyword extractor and extractive summarizer (`TextTools`). They use Python's stable descending sort, modelled in `Ranking`;
- four client widgets, each as a state record plus pure transitions:
  - the quiz modal (`Practice`), whose request path is listed under Findings;
  - the action-plan checklist (`ActionPlan`);
  - the floating AI tutor (`Chatbot`);
  - the study-schedule generator (`StrategyGuide`);
- the course catalogue with its shipped data (`Catalogue`), and the academy page's group-by-subject (`Academy`).

Shared pieces live in `Js` (JavaScript truthiness, `||` defaults, `${}` of an absent value), `Seqs` (counting, first-occurrence de-duplication, Python slices) and `Text` (the JavaScript and Python whitespace classes, trimming, substring search, global replace, join, ASCII lower-casing).

Every network answer is an input to the model:

- the hosted language model is a function from (instruction, message) to a reply or a thrown error;
- the property-data provider is a function from the listing URL to its reply;
- each widget's `fetch` outcome is an `Outcome` or `Reply` value, or a `server` function of the request.

The five `Math.random()` draws of the demo generator are parameters in [0, 1).

Three details of the gateway and its callers shape the model:

- The chat widget sends no `mode`; the gateway treats a request without one as chat.
- The gateway accepts absent `context`, `situation` and `message` fields. The quiz and schedule templates print an absent field as `undefined`.
- Only the chat template applies the "General High School Advice" and "General Inquiry" defaults.

## Model

| member | source | states |
|---|---|---|
| Js.Or | src/app/api/chat/route.ts:39-40 | `o \|\| fallback` on a string field: the field when it is a non-empty string, otherwise the fallback |
| Js.NumOr | src/app/api/real-estate/route.ts:66-67 | `o \|\| fallback` on a number: the field when present and non-zero, otherwise the fallback |
| Js.Interpolate | src/app/api/chat/route.ts:22 | `${o}` prints the value, or "undefined" when it is absent |
| RealEstate.RemoveCommas | src/app/api/real-estate/route.ts:24 | the result has no comma, is shorter by exactly the number of commas, and is unchanged when there is none |
| RealEstate.RemoveCommasAppend | src/app/api/real-estate/route.ts:24 | commas are removed from each part of an address independently, so every other character keeps its order |
| RealEstate.CollapseSpaces | src/app/api/real-estate/route.ts:24 | the result has no whitespace character, is no longer than the input and gains no comma |
| RealEstate.Slug | src/app/api/real-estate/route.ts:24-25 | the slug put into the listing URL contains neither commas nor whitespace |
| RealEstate.ListingUrl | src/app/api/real-estate/route.ts:24-25 | the listing URL is the fixed prefix, the slug and the `_rb/` suffix; between prefix and suffix there is no comma and no whitespace |
| RealEstate.CollapseKeepsSpaceFree | src/app/api/real-estate/route.ts:24 | text without whitespace passes the collapse unchanged |
| RealEstate.CollapseRun | src/app/api/real-estate/route.ts:24 | one maximal whitespace run between two pieces becomes exactly one dash |
| RealEstate.WhitespaceRunThenText | src/app/api/real-estate/route.ts:24 | a whitespace run followed by text is consumed whole by one match of `\s+` |
| RealEstate.Clamp | src/app/api/real-estate/route.ts:94 | `Math.min(Math.max(v, lo), hi)` lies in [lo, hi] and is `v` when `v` already does |
| RealEstate.CalculateScore | src/app/api/real-estate/route.ts:89-96 | for a non-zero price the score is a whole number in [40, 98]; it is NaN exactly when price and rent are both 0; with price 0 the infinite yield clamps to 98 for positive rent and to 40 for negative rent |
| RealEstate.ScoreMonotoneInRent | src/app/api/real-estate/route.ts:91-94 | for a fixed positive price a higher rent never lowers the score |
| RealEstate.ScoreExamples | src/app/api/real-estate/route.ts:89-103 | a 6% yield (500000, 2500) scores 72, a "Good Buy"; (2000000, 100) scores the floor 40, "Neutral" |
| RealEstate.VerdictBands | src/app/api/real-estate/route.ts:98-103 | "Strong Buy" iff score > 80, "Good Buy" iff 70 < score <= 80, "Neutral" iff score <= 70 or NaN |
| RealEstate.CalculateVerdict | src/app/api/real-estate/route.ts:98-103 | "Strong Buy" iff the score is a number above 80, "Neutral" iff it is NaN or at most 70; with price 0 a positive rent gives "Strong Buy" and any other rent "Neutral" |
| RealEstate.GenerateVerdictDesc | src/app/api/real-estate/route.ts:105-110 | each of the three descriptions is returned exactly when `calculateVerdict` gives the matching verdict for the same inputs |
| RealEstate.DescriptionMatchesVerdict | src/app/api/real-estate/route.ts:98-110 | the description recomputes the score but always belongs to the verdict for the same inputs |
| RealEstate.ColourMatchesVerdict | src/app/real-estate-analyzer/page.tsx:126-129 | the analyzer page colours a score with the same 80/70 bands as the verdict |
| RealEstate.MonthlyRent | src/app/api/real-estate/route.ts:67 | the provider's rent estimate when truthy, otherwise 0.5% of the list price |
| RealEstate.ListPrice | src/app/api/real-estate/route.ts:66 | the provider's price when truthy, else its zestimate when truthy, else 0 |
| RealEstate.SchoolRating | src/app/api/real-estate/route.ts:74 | 8 without a school list; the first school's rating when the list is non-empty and that rating is truthy; 7 otherwise, an empty list included |
| RealEstate.SimilarOf | src/app/api/real-estate/route.ts:80-85 | at most the first three provider homes, numbered 0, 1, 2 in provider order, address and price carried over; the mapping fails exactly when one of them has no price |
| RealEstate.ProcessHasDataResponse | src/app/api/real-estate/route.ts:59-87 | the mapping fails exactly when one of the first three similar homes has no price; otherwise the record carries the provider's address (or the requested one), the list price, the status (or "For Sale"), the rent with its fallback, the school rating, the area and lot size with their defaults, their score, the banded verdict, the matching description and the similar homes as `SimilarOf` numbers them |
| RealEstate.MissingPriceAndRentGiveNaN | src/app/api/real-estate/route.ts:66-67 | with neither price, zestimate nor rent estimate, the score is NaN (0/0) and the verdict "Neutral" |
| RealEstate.RandomInt | src/app/api/real-estate/route.ts:113 | `Math.floor(r * (hi - lo) + lo)` with r in [0, 1) lies in [lo, hi) |
| RealEstate.MockSimilar | src/app/api/real-estate/route.ts:130-134 | three neighbours with ids 1, 2, 3 priced at 90%, 110% and 105% of the mock price |
| RealEstate.GenerateMockData | src/app/api/real-estate/route.ts:112-135 | the mock price lies in [500000, 2000000), the score in [60, 94], the school rating in [1, 10]; the verdict uses the 80/70 bands and the description the 80 threshold |
| RealEstate.Post | src/app/api/real-estate/route.ts:3-57 | malformed JSON gives 500; a missing or empty address gives 400 "Address is required" and no provider call; without a key the mock record with `isMock` and no provider call; with a key exactly one provider call for the listing URL, and 200 with `isMock` false exactly when the provider answered and its payload maps, the body then being the mapped record; otherwise 500 |
| RealEstate.DemoModeIgnoresProvider | src/app/api/real-estate/route.ts:13-20 | without a provider key the answer does not depend on the provider |
| ChatRoute.ForwardedMessage | src/app/api/chat/route.ts:64 | the message sent upstream is `message`, or "Generate" when it is falsy; never empty |
| ChatRoute.SelectTemplate | src/app/api/chat/route.ts:21-49 | the quiz template iff the mode is "quiz", the schedule template iff it is "schedule" |
| ChatRoute.Instruction | src/app/api/chat/route.ts:21-48 | thin: it states only which template text each mode gets (quiz: context only; schedule: context, situation and message; any other mode: the chat text from context and situation); what the texts contain is stated by the three Contents lemmas |
| ChatRoute.TemplateSelection | src/app/api/chat/route.ts:21-49 | the quiz template iff mode is "quiz", the schedule template iff "schedule", the chat template for any other mode or none |
| ChatRoute.QuizInstructionContents | src/app/api/chat/route.ts:21-28 | the quiz instruction names the course and asks for exactly three questions as a bare JSON array of `{q, options, correct}` |
| ChatRoute.ScheduleInstructionContents | src/app/api/chat/route.ts:29-32 | the schedule instruction carries context, situation and message verbatim |
| ChatRoute.ChatInstructionContents | src/app/api/chat/route.ts:33-48 | the chat instruction names the course and situation, defaulting to "General High School Advice" and "General Inquiry" when falsy |
| ChatRoute.CleanQuiz | src/app/api/chat/route.ts:70 | the cleaned quiz text contains no triple backtick and has no leading or trailing whitespace |
| ChatRoute.CleanQuizUnwraps | src/app/api/chat/route.ts:70 | a reply wrapped as "```json" + text + "```", with no fence inside the text, cleans to exactly the trimmed text |
| ChatRoute.NoJsonFenceBeforeFence | src/app/api/chat/route.ts:70 | a text without "```" followed by "```" contains no "```json", so the first replace leaves it alone |
| ChatRoute.CleanQuizIdempotent | src/app/api/chat/route.ts:70 | cleaning a cleaned text changes nothing |
| ChatRoute.PostProcess | src/app/api/chat/route.ts:69-71 | only quiz output is cleaned; every other mode's text is returned unchanged |
| ChatRoute.Post | src/app/api/chat/route.ts:4-81 | without a key: status 500, an error naming GEMINI_API_KEY and no model call; with one: exactly one model call with the selected instruction and the forwarded message; a reply comes back post-processed for the request's template with 200, a thrown error as its message (or "Failed to generate response." when empty) with 500; status 200 iff a text payload, otherwise 500 with a non-empty error |
| Text.Trim | src/app/api/chat/route.ts:70 | `trim()` / `strip()`: the result has no leading or trailing character of the whitespace class |
| Text.TrimIsSlice | src/app/api/chat/route.ts:70 | the trimmed string is a contiguous slice of the input, and every character cut before and after it is whitespace |
| Text.TrimEmptyIffBlank | src/components/Chatbot.tsx:42 | `!input.trim()` holds exactly when the input is whitespace only |
| Text.TrimOfTrimmed | src/app/api/chat/route.ts:70 | trimming an already trimmed string changes nothing |
| Text.RemoveFenceLeavesNoFence | src/app/api/chat/route.ts:70 | after `replace(/```/g, "")` no triple backtick is left, because a removal never joins two runs |
| Text.RemoveAllAbsent | src/app/api/chat/route.ts:70 | removing a pattern that does not occur changes nothing |
| Text.RemoveAll | src/app/api/chat/route.ts:70 | thin: its own contract is only a length bound; RemoveAllAbsent, RemoveTrailingFence and RemoveFenceLeavesNoFence state what it removes |
| Text.RemoveTrailingFence | src/app/api/chat/route.ts:70 | removing "```" from a fence-free text followed by one fence gives back exactly that text |
| Text.Lower | tools/ai_tool.py:15 | `lower()` keeps the length and lower-cases each ASCII capital, leaving other characters alone |
| Text.LowerChar | tools/ai_tool.py:15 | an ASCII capital becomes the small letter 32 code points on; no capital remains; every other character is kept |
| Text.LowerCapitalised | tools/ai_tool.py:15-16 | "The" and "AND" lower-case to the stop words "the" and "and" |
| Text.Join | tools/ai_tool.py:48 | `" ".join` of one sentence is that sentence; of none, the empty string |
| Text.JoinSnoc | tools/ai_tool.py:48 | joining one more item appends the separator and the item to the join of the others |
| TextTools.Words | tools/ai_tool.py:15 | `re.findall(r"\w+", s)` yields only non-empty words |
| TextTools.WordsChars | tools/ai_tool.py:15 | every character of every word is a word character of the text |
| TextTools.WordsSplit | tools/ai_tool.py:15 | a non-word character separates: the words of `a + [c] + b` are the words of `a` followed by those of `b` |
| TextTools.WordsOfWord | tools/ai_tool.py:15 | a non-empty run of word characters is exactly one word |
| TextTools.DropStopwords | tools/ai_tool.py:16 | the kept words are exactly the words that are not stop words, each as often as in the input, and no stop word is kept |
| TextTools.DropStopwordsSnoc | tools/ai_tool.py:16 | one more word is kept at the end exactly when it is not a stop word |
| TextTools.Tokens | tools/ai_tool.py:13-16 | a string is a token iff it is a word of the lower-cased text and not a stop word; tokens are non-empty, never stop words and contain no ASCII capital |
| TextTools.SeparatorAt | tools/ai_tool.py:20 | the split pattern matches at a position iff it is a newline or whitespace right after `.`, `!` or `?` |
| TextTools.Pieces | tools/ai_tool.py:20 | `re.split` yields at least one piece, and no piece contains a place where the pattern would match |
| TextTools.PiecesWithoutSeparator | tools/ai_tool.py:20 | a text with no separator is one piece |
| TextTools.PiecesSplitAt | tools/ai_tool.py:20 | the text up to the first separator is the first piece, and splitting resumes right after the separator |
| TextTools.PiecesInText | tools/ai_tool.py:20 | every piece is a part of the text |
| TextTools.StripNonEmpty | tools/ai_tool.py:22 | the kept pieces are stripped and non-empty, and there are no more of them than pieces |
| TextTools.StripNoBreak | tools/ai_tool.py:22 | stripping keeps pieces free of separators |
| TextTools.StripNonEmptySnoc | tools/ai_tool.py:22 | one more piece adds its stripped form at the end exactly when that is non-empty |
| TextTools.StripInText | tools/ai_tool.py:22 | every kept piece is a part of a text that holds all the pieces |
| TextTools.Sentences | tools/ai_tool.py:18-22 | every sentence is non-empty, stripped, contains no separator and is a part of the text |
| TextTools.SentenceIsFixpoint | tools/ai_tool.py:18-22 | a stripped, non-empty text without a separator is exactly one sentence, so sentences split no further |
| TextTools.BlankHasNoSentences | tools/ai_tool.py:18-22 | a whitespace-only text has no sentences |
| TextTools.MostCommon | tools/ai_tool.py:31-32 | `most_common(n)`: nothing for n <= 0, otherwise min(n, number of distinct words) distinct words of the input |
| TextTools.MostCommonRanked | tools/ai_tool.py:31-32 | keywords come in non-increasing frequency, ties in order of first occurrence |
| TextTools.MostCommonComplete | tools/ai_tool.py:31-32 | a word left out is beaten by every chosen keyword: less frequent, or as frequent and first seen later |
| TextTools.ExtractKeywords | tools/ai_tool.py:24-33 | no keywords when the text has no tokens or n <= 0; otherwise the `most_common(n)` ranking of the text's tokens: at most n pairwise distinct tokens of the text |
| TextTools.SumCounts | tools/ai_tool.py:55 | the summed frequencies are at most the sentence's token count times the text's token count |
| TextTools.SentenceScore | tools/ai_tool.py:54-57 | the normalized sentence score is never negative |
| TextTools.PerToken | tools/ai_tool.py:57 | the summed frequency over one more than the token count lies between 0 and the sum |
| TextTools.Scores | tools/ai_tool.py:52-58 | one score per sentence, in sentence order |
| TextTools.Picked | tools/ai_tool.py:52-62 | the chosen positions are strictly increasing and index sentences; there are exactly min(`max_sentences`, number of sentences) of them for a non-negative `max_sentences`, and as many as Python's `scores[:max_sentences]` keeps for a negative one |
| TextTools.PickedAreBest | tools/ai_tool.py:61-62 | a chosen sentence scores higher than every sentence left out, or the same and comes first |
| TextTools.Summarize | tools/ai_tool.py:35-64 | "" without sentences; the first `max_sentences` sentences joined by spaces when there are no tokens; otherwise the chosen sentences in original order joined by spaces |
| Ranking.Order | tools/ai_tool.py:61 | the stable descending sort is a permutation of the positions in which every earlier entry is ranked ahead of every later one |
| Ranking.Top | tools/ai_tool.py:62 | `[:k]` of the ranking is a prefix of it with Python's slice length, negative k included |
| Ranking.TopDominates | tools/ai_tool.py:61-62 | a selected position is ranked ahead of every position left out |
| Ranking.Ascending | tools/ai_tool.py:62 | re-sorting by position gives the chosen positions in strictly increasing order |
| Ranking.AscendingLength | tools/ai_tool.py:62 | re-sorting distinct positions loses none |
| Seqs.Dedup | src/app/academy/page.tsx:10-16 | the distinct elements of a sequence, each once |
| Seqs.DedupFirstOccurrenceOrder | src/app/academy/page.tsx:10-16 | the distinct elements come in order of first occurrence |
| Seqs.PyTake | tools/ai_tool.py:48 | Python's `xs[:k]` is a prefix whose length follows Python's rules for negative k |
| Practice.QuizRequestSelectsQuiz | src/components/PersonalizedPractice.tsx:16-24 | the quiz request's body selects the gateway's quiz template, which names the course |
| Practice.Fetch | src/components/PersonalizedPractice.tsx:16-26 | a post to the gateway's `/api/chat` gives whatever the gateway's answer parses to; a post to any other path fails |
| Practice.QuizAsWrittenNeverStarts | src/components/PersonalizedPractice.tsx:13-38 | posted to `/academy/api/chat`, whatever the gateway would answer, the quiz fails: the start screen returns and the modal closes |
| Practice.QuizAtGatewayStarts | src/components/PersonalizedPractice.tsx:13-38 | posted to the gateway's `/api/chat`, the quiz starts exactly when the gateway answers a non-empty array, on those questions |
| Practice.BeginQuiz | src/components/PersonalizedPractice.tsx:14 | starting shows the loading screen and changes nothing else |
| Practice.ReceiveQuiz | src/components/PersonalizedPractice.tsx:26-38 | the quiz starts iff the response parsed to a non-empty array, with those questions; otherwise back to "start" with the modal closed |
| Practice.AnswerQuestion | src/components/PersonalizedPractice.tsx:41-51 | the score rises by exactly one iff the chosen option is correct; a non-last question advances by one, the last moves to the result |
| Practice.Reset | src/components/PersonalizedPractice.tsx:53-59 | back to step "start", question 0, score 0, no questions, closed |
| Practice.Feedback | src/components/PersonalizedPractice.tsx:150-152 | the perfect-score line iff the score equals the number of questions |
| Practice.Apply | src/components/PersonalizedPractice.tsx:63-155 | an event whose button is not on screen changes nothing |
| Practice.ValidBounds | src/components/PersonalizedPractice.tsx:41-51 | in every valid state, score <= answered <= number of questions, and the current question exists during the quiz |
| Practice.ApplyValid | src/components/PersonalizedPractice.tsx:13-59 | every handler keeps the state valid |
| Practice.RunValid | src/components/PersonalizedPractice.tsx:13-59 | every state reached from a valid state is valid |
| Practice.CorrectAll | src/components/PersonalizedPractice.tsx:42-44 | every answer counts iff every answer is the correct option |
| Practice.AnsweringScore | src/components/PersonalizedPractice.tsx:41-51 | answering the remaining questions ends on the result screen with one point per correct answer |
| Practice.PlayScore | src/components/PersonalizedPractice.tsx:13-59 | a whole quiz scores the number of correct answers, and shows the perfect line iff every answer is correct |
| ActionPlan.Without | src/components/ActionPlanSelector.tsx:13 | `filter(id !== stepId)` drops every copy of the id and keeps each other id as many times as it occurs |
| ActionPlan.WithoutSnoc | src/components/ActionPlanSelector.tsx:13 | the filter keeps one more id at the end exactly when it is not the removed one, so the kept ids stay in order |
| ActionPlan.WithoutOnce | src/components/ActionPlanSelector.tsx:13 | in a duplicate-free list the filter drops exactly that position and keeps the other ids in order |
| ActionPlan.Toggle | src/components/ActionPlanSelector.tsx:11-15 | after a toggle the id is listed iff it was not before; every other id occurs exactly as often as before; an absent id is appended |
| ActionPlan.ToggleKeepsDistinct | src/components/ActionPlanSelector.tsx:11-15 | a duplicate-free list stays duplicate-free, and a listed id is removed in place |
| ActionPlan.ToggleTwice | src/components/ActionPlanSelector.tsx:11-15 | ticking an unticked step and unticking it restores the list |
| ActionPlan.SelectScenario | src/components/ActionPlanSelector.tsx:36-39 | picking a scenario selects it and empties the ticked steps |
| ActionPlan.ApplyValid | src/components/ActionPlanSelector.tsx:11-39 | ticked ids stay distinct step ids of the selected scenario |
| ActionPlan.RunValid | src/components/ActionPlanSelector.tsx:11-39 | every state reached from a valid state is valid |
| ActionPlan.NoScenariosNoChange | src/components/ActionPlanSelector.tsx:17 | a course without scenarios renders nothing, and no click changes the state |
| ActionPlan.ShippedCoursesRenderNothing | src/data/courses.ts:120 | no shipped course renders the checklist |
| Chatbot.LastSegment | src/components/Chatbot.tsx:56 | `split("/").pop()` is the slash-free suffix that follows the last slash, or the whole path |
| Chatbot.LastSegmentAfterSlash | src/components/Chatbot.tsx:56 | the segment after a slash is exactly what follows it, when that has no slash |
| Chatbot.Context | src/components/Chatbot.tsx:51-59 | with a course id, the course's title or else the raw id; else on a `/courses/` path, the title of the segment's course, else the segment, else "General"; else "General High School" |
| Chatbot.ContextOfCoursePath | src/components/Chatbot.tsx:55-58 | without a course id, the path of a known course yields its title |
| Chatbot.ContextNonEmpty | src/components/Chatbot.tsx:51-59 | the context is never empty |
| Chatbot.Question | src/components/Chatbot.tsx:61-69 | the request carries the input, no `mode`, and the situation or "General Inquiry" |
| Chatbot.QuestionUsesChatTemplate | src/components/Chatbot.tsx:64-68 | every question reaches the gateway's chat template with the derived context and situation |
| Chatbot.ReplyText | src/components/Chatbot.tsx:73-84 | a failed request shows the connection message; an error naming GEMINI_API_KEY shows the setup hint; any other error "Error: " and the error; otherwise the reply's text |
| Chatbot.Send | src/components/Chatbot.tsx:41-88 | blank input changes nothing and sends nothing; otherwise the user line, then exactly one AI line, input cleared and loading over |
| Chatbot.MissingKeyShowsHint | src/components/Chatbot.tsx:73-75 | against a gateway without a key, a question is answered with the setup hint |
| Chatbot.ReplyShown | src/components/Chatbot.tsx:80 | against a working gateway, the model's reply is the line shown |
| Chatbot.GuideFor | src/components/Chatbot.tsx:28-31 | a guide exists iff course id and situation are both set, the course exists and has a guide for the situation |
| Chatbot.Greet | src/components/Chatbot.tsx:27-39 | the greeting line is appended and the widget opened exactly when a guide exists; nothing changes otherwise |
| Chatbot.KnownCourseGreets | src/components/Chatbot.tsx:27-39 | every catalogue course greets for each of the five situations, naming the course and passing on the guide's briefing |
| Chatbot.UnknownSituationNoGreeting | src/components/StudentSituationSelector.tsx:6 | a situation outside the five keys never greets |
| Chatbot.RunValid | src/components/Chatbot.tsx:10-88 | the transcript keeps its welcome line, never shrinks, and every user line is a non-blank question |
| StrategyGuide.ShowSchedule | src/components/AIStrategyGuide.tsx:67 | `${schedule}` prints the schedule, or "null" when there is none |
| StrategyGuide.GenerateRequest | src/components/AIStrategyGuide.tsx:21-26 | a plan request always has mode "schedule", context "High School Studies" and the user's text as message |
| StrategyGuide.RefineMessage | src/components/AIStrategyGuide.tsx:67 | the refinement message contains the feedback and the whole current schedule |
| StrategyGuide.EditRequest | src/components/AIStrategyGuide.tsx:66-71 | the refinement request has mode "schedule", context "High School Studies", situation "Refining the plan", and the refinement message |
| StrategyGuide.Generate | src/components/AIStrategyGuide.tsx:13-38 | blank input sends nothing; otherwise the schedule is replaced only by a reply with text, and generating is over whatever happened |
| StrategyGuide.Edit | src/components/AIStrategyGuide.tsx:58-84 | blank feedback sends nothing; a reply with text replaces the schedule, leaves edit mode and clears the feedback; otherwise those three are unchanged; generating is over |
| StrategyGuide.GenerateUsesScheduleTemplate | src/components/AIStrategyGuide.tsx:18-27 | a plan request reaches the schedule template, which quotes the student's text |
| StrategyGuide.EditCarriesSchedule | src/components/AIStrategyGuide.tsx:63-72 | the instruction of a refinement contains the feedback and the whole current schedule |
| StrategyGuide.RunValid | src/components/AIStrategyGuide.tsx:13-84 | between handlers nothing is generating, edit mode implies a schedule, and a schedule once shown is never lost |
| Catalogue.SituationKeysClosed | src/components/StudentSituationSelector.tsx:6 | the five situations have distinct keys, and the keys are exactly the guide keys |
| Catalogue.LabelsDistinct | src/data/courses.ts:6 | quote categories and step types are closed enumerations with distinct labels |
| Catalogue.Find | src/components/Chatbot.tsx:53 | `courses.find(c => c.id === id)`: nothing iff no course has the id, otherwise a catalogue course with that id |
| Catalogue.FindOwnId | src/components/Chatbot.tsx:53 | with distinct ids, looking a course up by its own id finds it |
| Catalogue.CatalogueInvariants | src/data/courses.ts:62-369 | four courses with distinct ids, each with no scenarios and exactly the five guide keys, subjects Math, Science, Science, History |
| Catalogue.ShippedWellFormed | src/data/courses.ts:62-369 | the shipped catalogue meets what the widgets assume: distinct single-segment ids, non-empty titles, the five guides |
| Academy.AddCourse | src/app/academy/page.tsx:11-14 | one reduce step creates the subject's array when missing, then appends the course, leaving the other arrays alone |
| Academy.GroupBySubject | src/app/academy/page.tsx:10-16 | thin: its own contract states only that the subjects in key order and the subjects with an array are the same set; GroupKeys, GroupSubjects and GroupMembers state what the groups are |
| Academy.Entries | src/app/academy/page.tsx:10-16 | `Object.entries` lists the key/array pairs in key order |
| Academy.GroupKeys | src/app/academy/page.tsx:10-16 | the groups are enumerated in first-appearance order of their subject |
| Academy.GroupSubjects | src/app/academy/page.tsx:11-13 | there is a group for a subject iff some course has that subject |
| Academy.GroupMembers | src/app/academy/page.tsx:14 | each group holds exactly the courses of its subject, in catalogue order |
| Academy.TotalIsCourseCount | src/app/academy/page.tsx:10-16 | the group sizes add up to the number of courses |
| Academy.CourseInOwnGroup | src/app/academy/page.tsx:10-16 | every course is in its own subject's group and in no other |
| Academy.ShippedGroups | src/app/academy/page.tsx:10-16 | the shipped catalogue yields Math, then Science with two courses, then History |

## Left out

- Currency and unit formatting (`toLocaleString`, `toFixed`, the `sqft` and `acres` suffixes) is left out; prices, areas and lot sizes stay numbers, because the formatting depends on the locale.
- RealEstate.CalculateScore: JavaScript doubles are modelled as exact reals, so rounding errors of the division are not reproduced. A zero price is modelled as JavaScript evaluates it: infinity clamps to 98 or 40, and 0/0 gives NaN.
- The `fetch` calls, the Gemini SDK, the HasData scraper, `response.json()` and `JSON.parse` of model output are inputs to the model, not modelled code.
- The gateway's fixed "Understood. I am ready." model turn in the synthesized history is left out; the model parameter sees only the instruction and the message.
- `Math.random()` is left out; its draws are parameters in [0, 1).
- TextTools.SentenceScore: Python's float division is modelled as exact real division, so rounding of the scores, and the ties rounding would create or break, are not reproduced.
- RealEstate.Post: `address` is modelled as absent or a string. A truthy non-string address, such as the number 123, passes the 400 check and then makes `address.replace` throw, which gives 500; that case is not modelled.
- ChatRoute.Instruction: `context`, `situation` and `message` are modelled as absent or a string. A JSON `null` prints as `null` rather than `undefined` in the quiz and schedule templates, and a number prints as its decimal text; neither case is modelled.
- TextTools.ExtractKeywords: Python's default arguments (`n=10`, `max_sentences=3`) are the constants `DefaultKeywordCount` and `DefaultSummarySentences`; the functions always take the count explicitly.
- Practice.ReceiveQuiz: the parsed array's elements are typed as questions. The code starts the quiz on any non-empty array, and an element without `options` then throws while rendering; that case is not modelled.
- TextTools.Words: Python's `\w` is the parameter `isWord`, because its Unicode class cannot be written out here.
- Text.Lower: `str.lower()` is modelled on the ASCII letters only. Python also lower-cases non-ASCII capitals such as `É`, and the model keeps them as they are, because Unicode case mapping cannot be written out here.
- Object.entries order for integer-like keys is not modelled, since no subject is an integer-like string. Keys shadowing `Object.prototype` members are not modelled either.
- The page content of the catalogue is not modelled, since no logic reads it: course descriptions, teachers, success tips, resources, class advice, student quotes, and each situation guide's advice and priority action. The quote and step-type enumerations are kept.
- Copy to clipboard, file download, `alert`, `console` logging, the scroll-to-bottom effect, animation and all markup are rendering or browser effects.
- React's asynchronous state batching is not modelled; each handler runs as one sequential transition.
- The widgets take the catalogue as a parameter `cs`; the properties they state hold for any catalogue meeting `WellFormedCatalogue`, which the shipped one does.
- The 3D city scene, its camera path, the timer-driven components and the other pages are rendering only.
- TextTools.Summarize: a negative `max_sentences` follows Python's slice rules through `PyTake` and `Top`, but no lemma states anything about that case beyond the length bounds.
- RealEstate.MockSimilar: the mock's neighbours are numbered 1, 2, 3 while provider homes are numbered 0, 1, 2, as in the code.

## Findings

| source | as written | input that shows it | evidently intended | confidence | as-written member | corrected member |
|---|---|---|---|---|---|---|
| src/components/PersonalizedPractice.tsx:16 | the quiz widget posts to `/academy/api/chat`; the app serves its gateway at `/api/chat` and has no route, base path or rewrite for `/academy/api/chat` | starting any quiz, for any course and whatever the gateway would answer | post to `/api/chat`, as the chat widget and the strategy guide do | medium, not executed | Practice.QuizAsWrittenNeverStarts | Practice.QuizAtGatewayStarts |
