/** The course catalogue: its record types, the four shipped courses and
    the invariants the widgets rely on (distinct ids, the five situation
    guides on every course, no scenarios shipped). Descriptions, student
    quotes, teachers, success tips, resources, class advice and each guide's
    advice and priority action are page content that no modelled operation
    reads, so the records leave them out; the quote record and its closed set
    of categories are kept. */
module Catalogue {
  import opened Js

  datatype StepType = Review | Practice | Strategy | Admin

  datatype ActionStep = ActionStep(id: string, action: string, detail: string, duration: string, kind: StepType)

  datatype Scenario = Scenario(id: string, emoji: string, labelText: string, description: string,
                               color: string, steps: seq<ActionStep>)

  datatype SituationGuide = SituationGuide(chatbotContext: string)

  datatype QuoteCategory = StudyTips | TestPrep | MentalHealth | General

  datatype Quote = Quote(category: QuoteCategory, text: string, author: string)

  datatype Course = Course(id: string, title: string, subject: string, scenarios: seq<Scenario>,
                           situationGuides: map<string, SituationGuide>)

  /** The five situations a student can pick. */
  datatype Situation = Confused | LowScores | Behind | HighAchiever | Overwhelmed

  function SituationKey(s: Situation): string {
    match s
    case Confused => "confused"
    case LowScores => "low-scores"
    case Behind => "behind"
    case HighAchiever => "high-achiever"
    case Overwhelmed => "overwhelmed"
  }

  const SituationKeys: set<string> := {"confused", "low-scores", "behind", "high-achiever", "overwhelmed"}

  /** Distinct situations have distinct keys, and the keys are exactly the five guide keys. */
  lemma SituationKeysClosed()
    ensures forall s, t :: SituationKey(s) == SituationKey(t) ==> s == t
    ensures forall k :: k in SituationKeys <==> exists s :: SituationKey(s) == k
  {
    assert SituationKey(Confused) in SituationKeys;
    assert SituationKey(LowScores) in SituationKeys;
    assert SituationKey(Behind) in SituationKeys;
    assert SituationKey(HighAchiever) in SituationKeys;
    assert SituationKey(Overwhelmed) in SituationKeys;
  }

  function CategoryLabel(c: QuoteCategory): string {
    match c
    case StudyTips => "Study Tips"
    case TestPrep => "Test Prep"
    case MentalHealth => "Mental Health"
    case General => "General"
  }

  function StepTypeLabel(t: StepType): string {
    match t
    case Review => "review"
    case Practice => "practice"
    case Strategy => "strategy"
    case Admin => "admin"
  }

  /** Both closed enumerations print to pairwise distinct labels. */
  lemma LabelsDistinct()
    ensures forall c, d :: CategoryLabel(c) == CategoryLabel(d) ==> c == d
    ensures forall t, u :: StepTypeLabel(t) == StepTypeLabel(u) ==> t == u
  {
  }

  /** Index of the first course with id `id`, or `|cs|` when there is none. */
  function FindIndex(cs: seq<Course>, id: string): (i: nat)
    ensures i <= |cs|
    ensures forall k :: 0 <= k < i ==> cs[k].id != id
    ensures i < |cs| ==> cs[i].id == id
  {
    if cs == [] then 0
    else if cs[0].id == id then 0
    else 1 + FindIndex(cs[1..], id)
  }

  /** `courses.find(c => c.id === id)`: the first course with that id. */
  function Find(cs: seq<Course>, id: string): (r: Option<Course>)
    ensures r.None? <==> forall i :: 0 <= i < |cs| ==> cs[i].id != id
    ensures r.Some? ==> exists i :: 0 <= i < |cs| && cs[i] == r.value && r.value.id == id
                          && forall k :: 0 <= k < i ==> cs[k].id != id
  {
    var i := FindIndex(cs, id);
    if i < |cs| then Some(cs[i]) else None
  }

  predicate DistinctIds(cs: seq<Course>) {
    forall i, j :: 0 <= i < j < |cs| ==> cs[i].id != cs[j].id
  }

  /** With distinct ids, looking a course up by its own id finds that course. */
  lemma FindOwnId(cs: seq<Course>, i: nat)
    requires DistinctIds(cs) && i < |cs|
    ensures Find(cs, cs[i].id) == Some(cs[i])
  {
    var j := FindIndex(cs, cs[i].id);
    assert j < |cs| && cs[j].id == cs[i].id;
  }

  const CalculusGuides: map<string, SituationGuide> :=
    map[
      "confused" := SituationGuide(
        "The student is confused. Focus on breaking down "
          + "concepts into very simple steps. Avoid jargon. "
          + "Suggest visual resources like 3Blue1Brown."),
      "low-scores" := SituationGuide(
        "The student understands concepts but scores low. "
          + "Focus on test-taking strategies, common pitfalls, "
          + "and algebra mistakes."),
      "behind" := SituationGuide(
        "The student is behind. Help them prioritize. "
          + "Suggest skipping minor details to catch up on "
          + "major units."),
      "high-achiever" := SituationGuide(
        "The student wants a 5. Challenge them with hard "
          + "problems. Focus on rigorous mathematical justification "
          + "and notation."),
      "overwhelmed" := SituationGuide(
        "The student is overwhelmed. Be very supportive "
          + "and encouraging. Give small, manageable tasks.")
    ]

  const Calculus: Course := Course(
    "ap-calculus-ab", "AP Calculus AB", "Math", [], CalculusGuides)

  const ChemistryGuides: map<string, SituationGuide> :=
    map[
      "confused" := SituationGuide(
        "Student is confused. Use analogies. Explain things "
          + "at a particle level."),
      "low-scores" := SituationGuide(
        "Student has low scores. Focus on application "
          + "questions and 'explain your reasoning' prompts."),
      "behind" := SituationGuide(
        "Student is behind. Emphasize the foundational "
          + "units (Stoich, Bonding, IMF)."),
      "high-achiever" := SituationGuide(
        "Student wants a 5. Nitpick their significant "
          + "figures and unit conversions."),
      "overwhelmed" := SituationGuide(
        "Student is overwhelmed. Break tasks down. Focus "
          + "on vocabulary first.")
    ]

  const Chemistry: Course := Course(
    "ap-chemistry", "AP Chemistry", "Science", [], ChemistryGuides)

  const PhysicsGuides: map<string, SituationGuide> :=
    map[
      "confused" := SituationGuide(
        "Student is confused. Ask them to describe the "
          + "physical situation before doing any math."),
      "low-scores" := SituationGuide(
        "Student has low scores. Check their algebra skills "
          + "and unit conversions."),
      "behind" := SituationGuide(
        "Student is behind. Focus on F=ma and conservation laws."),
      "high-achiever" := SituationGuide(
        "Student wants an A. Challenge them with conceptual "
          + "questions that require no math."),
      "overwhelmed" := SituationGuide(
        "Student is overwhelmed. Guide them through the "
          + "GUESS method (Given, Unknown, Equation, Substitute, Solve).")
    ]

  const Physics: Course := Course(
    "honors-physics", "Honors Physics", "Science", [], PhysicsGuides)

  const WorldHistoryGuides: map<string, SituationGuide> :=
    map[
      "confused" := SituationGuide(
        "Student is confused. Zoom out to the big picture. "
          + "Focus on SPICE-T themes."),
      "low-scores" := SituationGuide(
        "Student has low scores. Focus on writing structure "
          + "(Thesis, Contextualization, Evidence)."),
      "behind" := SituationGuide(
        "Student is behind. Teach skimming strategies. "
          + "Focus on main ideas."),
      "high-achiever" := SituationGuide(
        "Student wants a 5. Push for complexity and synthesis "
          + "in their arguments."),
      "overwhelmed" := SituationGuide(
        "Student is overwhelmed. Direct them to Heimler's "
          + "History videos.")
    ]

  const WorldHistory: Course := Course(
    "ap-world-history", "AP World History", "History", [], WorldHistoryGuides)

  const Courses: seq<Course> := [Calculus, Chemistry, Physics, WorldHistory]

  /** What every shipped course looks like: its id is one non-empty path segment, its title is
      non-empty, it has exactly the five situation guides and no scenarios. */
  predicate ShippedShape(c: Course) {
    c.id != "" && '/' !in c.id && c.title != "" && c.scenarios == [] && c.situationGuides.Keys == SituationKeys
  }

  lemma CalculusShape()
    ensures ShippedShape(Calculus) && Calculus.id == "ap-calculus-ab"
  {
    assert '/' !in Calculus.id;
    assert CalculusGuides.Keys == SituationKeys;
  }

  lemma ChemistryShape()
    ensures ShippedShape(Chemistry) && Chemistry.id == "ap-chemistry"
  {
    assert '/' !in Chemistry.id;
    assert ChemistryGuides.Keys == SituationKeys;
  }

  lemma PhysicsShape()
    ensures ShippedShape(Physics) && Physics.id == "honors-physics"
  {
    assert '/' !in Physics.id;
    assert PhysicsGuides.Keys == SituationKeys;
  }

  lemma WorldHistoryShape()
    ensures ShippedShape(WorldHistory) && WorldHistory.id == "ap-world-history"
  {
    assert '/' !in WorldHistory.id;
    assert WorldHistoryGuides.Keys == SituationKeys;
  }

  /** The shipped catalogue: four courses with distinct ids, subjects in order Math, Science,
      Science, History, and every course of the shipped shape. */
  lemma CatalogueInvariants()
    ensures |Courses| == 4
    ensures DistinctIds(Courses)
    ensures forall i :: 0 <= i < |Courses| ==> ShippedShape(Courses[i])
    ensures Subjects(Courses) == ["Math", "Science", "Science", "History"]
  {
    CalculusShape();
    ChemistryShape();
    PhysicsShape();
    WorldHistoryShape();
  }

  /** What the widgets assume of a catalogue: distinct ids that are single non-empty path
      segments, non-empty titles, and the five situation guides on every course. */
  predicate WellFormedCatalogue(cs: seq<Course>) {
    && DistinctIds(cs)
    && (forall i :: 0 <= i < |cs| ==> cs[i].id != "" && '/' !in cs[i].id && cs[i].title != "")
    && (forall i :: 0 <= i < |cs| ==> cs[i].situationGuides.Keys == SituationKeys)
  }

  lemma ShippedWellFormed()
    ensures WellFormedCatalogue(Courses)
  {
    CatalogueInvariants();
  }

  /** The subject of each course, in catalogue order. */
  function Subjects(cs: seq<Course>): (r: seq<string>)
    ensures |r| == |cs|
    ensures forall i :: 0 <= i < |cs| ==> r[i] == cs[i].subject
  {
    seq(|cs|, i requires 0 <= i < |cs| => cs[i].subject)
  }
}
