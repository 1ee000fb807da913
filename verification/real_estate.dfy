/** The real-estate lookup endpoint: request validation, the address slug
    sent to the property-data provider, the rental-yield score with its
    verdict bands, the remapping of the provider's payload and the demo-mode
    generator used when no provider key is configured.

    Prices, rents and the yield are `real`s; `Math.round(x)` is
    `Floor(x + 1/2)`. A zero price divides by zero in the source, which JavaScript
    turns into an infinity or NaN; both are modelled. */
module RealEstate {
  import opened Js
  import Text
  import Seqs

  // ---------------------------------------------------------------- slug

  /** `address.replace(/,/g, '')`. */
  function RemoveCommas(s: string): (r: string)
    ensures ',' !in r
    ensures |r| + Seqs.Count(s, ',') == |s|
    ensures ',' !in s ==> r == s
  {
    if s == [] then []
    else RemoveCommas(s[..|s| - 1]) + (if s[|s| - 1] == ',' then [] else [s[|s| - 1]])
  }

  /** Commas are removed independently in each part of a text, so the result keeps every
      other character in order. */
  lemma {:induction false} RemoveCommasAppend(a: string, b: string)
    ensures RemoveCommas(a + b) == RemoveCommas(a) + RemoveCommas(b)
    decreases |b|
  {
    if b == [] {
      assert a + b == a;
    } else {
      var init := b[..|b| - 1];
      assert (a + b)[..|a + b| - 1] == a + init;
      assert (a + b)[|a + b| - 1] == b[|b| - 1];
      RemoveCommasAppend(a, init);
    }
  }

  /** `s.replace(/\s+/g, '-')`: every maximal run of whitespace becomes one dash. */
  function CollapseSpaces(s: string): (r: string)
    ensures forall i :: 0 <= i < |r| ==> !Text.IsJsSpace(r[i])
    ensures ',' !in s ==> ',' !in r
    ensures |r| <= |s|
    decreases |s|
  {
    if s == [] then []
    else if Text.IsJsSpace(s[0]) then "-" + CollapseSpaces(Text.TrimStart(s, Text.IsJsSpace))
    else [s[0]] + CollapseSpaces(s[1..])
  }

  /** The address as it appears in the provider's listing URL. */
  function Slug(address: string): (r: string)
    ensures ',' !in r
    ensures forall i :: 0 <= i < |r| ==> !Text.IsJsSpace(r[i])
  {
    CollapseSpaces(RemoveCommas(address))
  }

  const ListingPrefix: string := "https://www.zillow.com/homes/"
  const ListingSuffix: string := "_rb/"

  function ListingUrl(address: string): (u: string)
    ensures |u| == |ListingPrefix| + |Slug(address)| + |ListingSuffix|
    ensures u[..|ListingPrefix|] == ListingPrefix && u[|u| - |ListingSuffix|..] == ListingSuffix
    ensures forall i :: |ListingPrefix| <= i < |u| - |ListingSuffix| ==> u[i] != ',' && !Text.IsJsSpace(u[i])
  {
    ListingPrefix + Slug(address) + ListingSuffix
  }

  /** Text without whitespace passes through the collapse unchanged. */
  lemma {:induction false} CollapseKeepsSpaceFree(s: string)
    requires forall i :: 0 <= i < |s| ==> !Text.IsJsSpace(s[i])
    ensures CollapseSpaces(s) == s
    decreases |s|
  {
    if s != [] {
      CollapseKeepsSpaceFree(s[1..]);
    }
  }

  /** Skipping leading whitespace of `a + t` stops inside `a` when `a` ends in a non-space. */
  lemma {:induction false} TrimStartOfPrefix(a: string, t: string)
    requires a != [] && !Text.IsJsSpace(a[|a| - 1])
    ensures Text.TrimStart(a + t, Text.IsJsSpace) == Text.TrimStart(a, Text.IsJsSpace) + t
    decreases |a|
  {
    if Text.IsJsSpace(a[0]) {
      assert (a + t)[1..] == a[1..] + t;
      TrimStartOfPrefix(a[1..], t);
    }
  }

  predicate AllSpace(w: string) {
    forall i :: 0 <= i < |w| ==> Text.IsJsSpace(w[i])
  }

  /** One maximal whitespace run `w` between `a` and `b` becomes exactly one dash. */
  lemma {:induction false} CollapseRun(a: string, w: string, b: string)
    requires w != [] && AllSpace(w)
    requires a == [] || !Text.IsJsSpace(a[|a| - 1])
    requires b == [] || !Text.IsJsSpace(b[0])
    ensures CollapseSpaces(a + w + b) == CollapseSpaces(a) + "-" + CollapseSpaces(b)
    decreases |a|, 1
  {
    if a == [] {
      assert a + w + b == w + b;
      WhitespaceRunThenText(w, b);
    } else if Text.IsJsSpace(a[0]) {
      CollapseRunAfterSpace(a, w, b);
    } else {
      CollapseRunAfterChar(a, w, b);
    }
  }

  lemma {:induction false} CollapseRunAfterSpace(a: string, w: string, b: string)
    requires w != [] && AllSpace(w)
    requires a != [] && Text.IsJsSpace(a[0]) && !Text.IsJsSpace(a[|a| - 1])
    requires b == [] || !Text.IsJsSpace(b[0])
    ensures CollapseSpaces(a + w + b) == CollapseSpaces(a) + "-" + CollapseSpaces(b)
    decreases |a|, 0
  {
    var s := a + w + b;
    var a' := Text.TrimStart(a, Text.IsJsSpace);
    assert |a'| > 0 && a'[|a'| - 1] == a[|a| - 1];
    TrimStartOfPrefix(a, w + b);
    assert s == a + (w + b);
    assert a' + (w + b) == a' + w + b;
    assert CollapseSpaces(s) == "-" + CollapseSpaces(a' + w + b);
    CollapseRun(a', w, b);
    Regroup("-", CollapseSpaces(a'), CollapseSpaces(b));
  }

  lemma {:induction false} CollapseRunAfterChar(a: string, w: string, b: string)
    requires w != [] && AllSpace(w)
    requires a != [] && !Text.IsJsSpace(a[0]) && !Text.IsJsSpace(a[|a| - 1])
    requires b == [] || !Text.IsJsSpace(b[0])
    ensures CollapseSpaces(a + w + b) == CollapseSpaces(a) + "-" + CollapseSpaces(b)
    decreases |a|, 0
  {
    var s := a + w + b;
    assert s[0] == a[0] && s[1..] == a[1..] + w + b;
    CollapseRun(a[1..], w, b);
    Regroup([a[0]], CollapseSpaces(a[1..]), CollapseSpaces(b));
  }

  lemma Regroup(h: string, x: string, y: string)
    ensures h + (x + "-" + y) == (h + x) + "-" + y
  {
  }

  lemma {:induction false} WhitespaceRunThenText(w: string, b: string)
    requires AllSpace(w)
    requires b == [] || !Text.IsJsSpace(b[0])
    ensures Text.TrimStart(w + b, Text.IsJsSpace) == b
    decreases |w|
  {
    if w != [] {
      assert (w + b)[1..] == w[1..] + b;
      WhitespaceRunThenText(w[1..], b);
    }
  }

  // ---------------------------------------------------------------- score

  /** A `goodBuyScore`: a whole number, or NaN when the yield is 0/0. */
  datatype ScoreValue = Score(value: int) | NaN

  /** JavaScript's `Math.round` on a finite value. */
  function Round(x: real): int {
    (x + 0.5).Floor
  }

  /** `Math.min(Math.max(v, lo), hi)`. */
  function Clamp(v: int, lo: int, hi: int): (r: int)
    requires lo <= hi
    ensures lo <= r <= hi
    ensures lo <= v <= hi ==> r == v
  {
    if v < lo then lo else if v > hi then hi else v
  }

  const MinScore: int := 40
  const MaxScore: int := 98

  /** `calculateScore`: twelve times the annual rental yield in percent, rounded and
      clamped to [40, 98]. With a zero price the yield is +Infinity (clamped to 98),
      -Infinity (clamped to 40) or NaN. */
  function CalculateScore(price: real, rent: real): (r: ScoreValue)
    ensures price != 0.0 ==> r.Score? && MinScore <= r.value <= MaxScore
    ensures r.NaN? <==> price == 0.0 && rent == 0.0
    ensures price == 0.0 && rent > 0.0 ==> r == Score(MaxScore)
    ensures price == 0.0 && rent < 0.0 ==> r == Score(MinScore)
  {
    if price == 0.0 then
      (if rent > 0.0 then Score(MaxScore) else if rent < 0.0 then Score(MinScore) else NaN)
    else
      var annualRent := rent * 12.0;
      var yieldPercent := annualRent / price * 100.0;
      Score(Clamp(Round(yieldPercent * 12.0), MinScore, MaxScore))
  }

  lemma FloorMonotone(x: real, y: real)
    requires x <= y
    ensures x.Floor <= y.Floor
  {
    assert x.Floor as real <= x;
    assert y < y.Floor as real + 1.0;
  }

  /** For a fixed positive price a higher rent never lowers the score. */
  lemma ScoreMonotoneInRent(price: real, rent1: real, rent2: real)
    requires price > 0.0
    requires rent1 <= rent2
    ensures CalculateScore(price, rent1).value <= CalculateScore(price, rent2).value
  {
    var y1 := rent1 * 12.0 / price * 100.0 * 12.0;
    var y2 := rent2 * 12.0 / price * 100.0 * 12.0;
    assert rent1 * 12.0 / price <= rent2 * 12.0 / price by {
      assert rent1 * 12.0 <= rent2 * 12.0;
      DivideMonotone(rent1 * 12.0, rent2 * 12.0, price);
    }
    FloorMonotone(y1 + 0.5, y2 + 0.5);
  }

  lemma DivideMonotone(a: real, b: real, d: real)
    requires d > 0.0 && a <= b
    ensures a / d <= b / d
  {
    assert b / d - a / d == (b - a) / d;
  }

  /** The worked examples: a 6% yield scores 72 ("Good Buy"); a negligible yield is
      floored to 40 ("Neutral"). */
  lemma ScoreExamples()
    ensures CalculateScore(500000.0, 2500.0) == Score(72)
    ensures CalculateVerdict(500000.0, 2500.0) == GoodBuy
    ensures CalculateScore(2000000.0, 100.0) == Score(40)
    ensures CalculateVerdict(2000000.0, 100.0) == Neutral
  {
    assert (72.0 + 0.5).Floor == 72;
    assert (0.72 + 0.5).Floor == 1;
  }

  // ---------------------------------------------------------------- verdict

  datatype Verdict = StrongBuy | GoodBuy | Neutral

  function VerdictLabel(v: Verdict): string {
    match v
    case StrongBuy => "Strong Buy"
    case GoodBuy => "Good Buy"
    case Neutral => "Neutral"
  }

  /** The banding `> 80`, `> 70`, otherwise; NaN fails both comparisons. */
  function Band(s: ScoreValue): Verdict {
    if s.Score? && s.value > 80 then StrongBuy
    else if s.Score? && s.value > 70 then GoodBuy
    else Neutral
  }

  /** `calculateVerdict`. */
  function CalculateVerdict(price: real, rent: real): (v: Verdict)
    ensures v == StrongBuy <==> CalculateScore(price, rent).Score? && CalculateScore(price, rent).value > 80
    ensures v == Neutral <==> CalculateScore(price, rent).NaN? || CalculateScore(price, rent).value <= 70
    ensures price == 0.0 && rent > 0.0 ==> v == StrongBuy
    ensures price == 0.0 && rent <= 0.0 ==> v == Neutral
  {
    Band(CalculateScore(price, rent))
  }

  /** The three bands, each as an if-and-only-if on the score. */
  lemma VerdictBands(s: ScoreValue)
    ensures Band(s) == StrongBuy <==> s.Score? && s.value > 80
    ensures Band(s) == GoodBuy <==> s.Score? && 70 < s.value <= 80
    ensures Band(s) == Neutral <==> s.NaN? || s.value <= 70
  {
  }

  const StrongBuyDesc: string := "Excellent rental yield potential with strong "
    + "appreciation prospects."
  const GoodBuyDesc: string := "Solid investment opportunity with stable expected returns."
  const NeutralDesc: string := "Market value is high relative to rental income. "
    + "Consider negotiation."

  function DescriptionOf(v: Verdict): string {
    match v
    case StrongBuy => StrongBuyDesc
    case GoodBuy => GoodBuyDesc
    case Neutral => NeutralDesc
  }

  /** `generateVerdictDesc`: recomputes the score and applies its own thresholds. */
  function GenerateVerdictDesc(price: real, rent: real): (d: string)
    ensures d == StrongBuyDesc <==> CalculateVerdict(price, rent) == StrongBuy
    ensures d == GoodBuyDesc <==> CalculateVerdict(price, rent) == GoodBuy
    ensures d == NeutralDesc <==> CalculateVerdict(price, rent) == Neutral
  {
    var score := CalculateScore(price, rent);
    if score.Score? && score.value > 80 then StrongBuyDesc
    else if score.Score? && score.value > 70 then GoodBuyDesc
    else NeutralDesc
  }

  /** The description always belongs to the verdict computed for the same inputs. */
  lemma DescriptionMatchesVerdict(price: real, rent: real)
    ensures GenerateVerdictDesc(price, rent) == DescriptionOf(CalculateVerdict(price, rent))
  {
  }

  /** Border colour of the score circle on the analyzer page. */
  function ScoreColour(s: ScoreValue): string {
    if s.Score? && s.value > 80 then "#10b981"
    else if s.Score? && s.value > 70 then "#f59e0b"
    else "#ef4444"
  }

  function VerdictColour(v: Verdict): string {
    match v
    case StrongBuy => "#10b981"
    case GoodBuy => "#f59e0b"
    case Neutral => "#ef4444"
  }

  /** The page colours a score with the same bands the endpoint uses for its verdict. */
  lemma ColourMatchesVerdict(s: ScoreValue)
    ensures ScoreColour(s) == VerdictColour(Band(s))
  {
  }

  // ---------------------------------------------------------------- records

  datatype SimilarHome = SimilarHome(id: int, address: Option<string>, price: real, image: string)

  /** The display record returned to the page (currency and unit formatting left out). */
  datatype PropertyRecord = PropertyRecord(
    address: string,
    price: real,
    status: string,
    rent: real,
    schoolRating: real,
    area: real,
    lotSize: real,
    goodBuyScore: ScoreValue,
    verdict: Verdict,
    verdictDesc: string,
    similar: seq<SimilarHome>)

  // ---------------------------------------------------------------- provider payload

  datatype School = School(rating: Option<real>)
  datatype ProviderHome = ProviderHome(address: Option<string>, price: Option<real>, imgSrc: Option<string>)

  datatype ProviderProperty = ProviderProperty(
    price: Option<real>,
    zestimate: Option<real>,
    rentZestimate: Option<real>,
    address: Option<string>,
    homeStatus: Option<string>,
    schools: Option<seq<School>>,
    livingArea: Option<real>,
    lotSize: Option<real>,
    similarHomes: Option<seq<ProviderHome>>)

  /** The provider's JSON: the property sits under `data` when that field is present. */
  datatype ProviderPayload = ProviderPayload(data: Option<ProviderProperty>, top: ProviderProperty)

  const DefaultHomeImage: string := "https://images.unsplash.com/photo-1564013799919-ab600027ffc6?auto=form"
    + "at&fit=crop&q=80"

  function PropertyOf(payload: ProviderPayload): ProviderProperty {
    if payload.data.Some? then payload.data.value else payload.top
  }

  /** `price || zestimate || 0`. */
  function ListPrice(p: ProviderProperty): (v: real)
    ensures NumTruthy(p.price) ==> v == p.price.value
    ensures !NumTruthy(p.price) && NumTruthy(p.zestimate) ==> v == p.zestimate.value
    ensures !NumTruthy(p.price) && !NumTruthy(p.zestimate) ==> v == 0.0
  {
    NumOr(p.price, NumOr(p.zestimate, 0.0))
  }

  /** `rentZestimate || price * 0.005`. */
  function MonthlyRent(p: ProviderProperty): (rent: real)
    ensures NumTruthy(p.rentZestimate) ==> rent == p.rentZestimate.value
    ensures !NumTruthy(p.rentZestimate) ==> rent == ListPrice(p) * 0.005
  {
    NumOr(p.rentZestimate, ListPrice(p) * 0.005)
  }

  /** `schools ? schools[0]?.rating || 7 : 8`; an empty list is still truthy. */
  function SchoolRating(p: ProviderProperty): (v: real)
    ensures p.schools.None? ==> v == 8.0
    ensures p.schools.Some? && p.schools.value != [] && NumTruthy(p.schools.value[0].rating) ==>
              v == p.schools.value[0].rating.value
    ensures p.schools.Some? && (p.schools.value == [] || !NumTruthy(p.schools.value[0].rating)) ==> v == 7.0
  {
    match p.schools
    case None => 8.0
    case Some(list) => if list != [] then NumOr(list[0].rating, 7.0) else 7.0
  }

  /** The first three provider homes, numbered 0, 1, 2 in provider order; `None` when one
      of them has no price (the source's `home.price.toLocaleString()` throws). */
  function SimilarOf(homes: seq<ProviderHome>): (r: Option<seq<SimilarHome>>)
    ensures r.Some? <==> forall i :: 0 <= i < |homes| && i < 3 ==> homes[i].price.Some?
    ensures r.Some? ==> |r.value| == (if |homes| < 3 then |homes| else 3)
    ensures r.Some? ==> forall i :: 0 <= i < |r.value| ==>
              r.value[i].id == i && r.value[i].address == homes[i].address
              && r.value[i].price == homes[i].price.value
  {
    var first := if |homes| < 3 then homes else homes[..3];
    if forall i :: 0 <= i < |first| ==> first[i].price.Some? then
      Some(seq(|first|, i requires 0 <= i < |first| && first[i].price.Some? =>
        SimilarHome(i, first[i].address, first[i].price.value,
                    if first[i].imgSrc.Some? && first[i].imgSrc.value != "" then first[i].imgSrc.value else DefaultHomeImage)))
    else None
  }

  /** `property.similarHomes || []`. */
  function HomesOf(p: ProviderProperty): seq<ProviderHome> {
    if p.similarHomes.Some? then p.similarHomes.value else []
  }

  /** `processHasDataResponse`; `None` when the mapping throws, which happens exactly when
      one of the first three similar homes has no price. */
  function ProcessHasDataResponse(payload: ProviderPayload, address: string): (r: Option<PropertyRecord>)
    ensures r.Some? <==> forall i :: 0 <= i < |HomesOf(PropertyOf(payload))| && i < 3 ==>
                           HomesOf(PropertyOf(payload))[i].price.Some?
    ensures r.Some? ==>
      var p := PropertyOf(payload);
      && r.value.address == (if p.address.Some? && p.address.value != "" then p.address.value else address)
      && r.value.price == ListPrice(p)
      && r.value.status == (if p.homeStatus.Some? && p.homeStatus.value != "" then p.homeStatus.value else "For Sale")
      && r.value.rent == MonthlyRent(p)
      && r.value.schoolRating == SchoolRating(p)
      && (NumTruthy(p.livingArea) ==> r.value.area == p.livingArea.value)
      && (!NumTruthy(p.livingArea) ==> r.value.area == 2000.0)
      && (NumTruthy(p.lotSize) ==> r.value.lotSize == p.lotSize.value)
      && (!NumTruthy(p.lotSize) ==> r.value.lotSize == 0.25)
      && r.value.goodBuyScore == CalculateScore(ListPrice(p), MonthlyRent(p))
      && r.value.verdict == Band(r.value.goodBuyScore)
      && r.value.verdictDesc == DescriptionOf(r.value.verdict)
      && r.value.similar == SimilarOf(HomesOf(p)).value
  {
    var p := PropertyOf(payload);
    var price := ListPrice(p);
    var rent := MonthlyRent(p);
    var similar := SimilarOf(HomesOf(p));
    if similar.None? then None
    else
      DescriptionMatchesVerdict(price, rent);
      Some(PropertyRecord(
        Or(p.address, address),
        price,
        Or(p.homeStatus, "For Sale"),
        rent,
        SchoolRating(p),
        NumOr(p.livingArea, 2000.0),
        NumOr(p.lotSize, 0.25),
        CalculateScore(price, rent),
        CalculateVerdict(price, rent),
        GenerateVerdictDesc(price, rent),
        similar.value))
  }

  /** With neither a price nor a rent estimate the source's score is NaN (0/0), and the
      verdict falls through to "Neutral". */
  lemma MissingPriceAndRentGiveNaN(payload: ProviderPayload, address: string)
    requires !NumTruthy(PropertyOf(payload).price) && !NumTruthy(PropertyOf(payload).zestimate)
    requires !NumTruthy(PropertyOf(payload).rentZestimate)
    requires ProcessHasDataResponse(payload, address).Some?
    ensures ProcessHasDataResponse(payload, address).value.goodBuyScore == NaN
    ensures ProcessHasDataResponse(payload, address).value.verdict == Neutral
  {
  }

  // ---------------------------------------------------------------- demo mode

  /** The five `Math.random()` draws of the demo generator, in call order. */
  datatype MockDraws = MockDraws(price: real, score: real, school: real, area: real, lot: real)

  predicate Unit(x: real) {
    0.0 <= x < 1.0
  }

  predicate ValidDraws(d: MockDraws) {
    Unit(d.price) && Unit(d.score) && Unit(d.school) && Unit(d.area) && Unit(d.lot)
  }

  const MockStrongDesc: string := "This property shows excellent rental yield potential "
    + "and is in a high-growth neighborhood."
  const MockOtherDesc: string := "Solid property but watch out for slightly higher "
    + "than average property taxes in this area."

  lemma UnitScale(x: real, d: real)
    requires Unit(x) && 0.0 < d
    ensures 0.0 <= x * d < d
  {
  }

  /** `Math.floor(Math.random() * (hi - lo) + lo)`: an integer in [lo, hi). */
  function RandomInt(x: real, lo: int, hi: int): (n: int)
    requires Unit(x) && lo < hi
    ensures lo <= n < hi
  {
    var d := (hi - lo) as real;
    UnitScale(x, d);
    var v := x * d + lo as real;
    FloorBetween(v, lo, hi);
    v.Floor
  }

  /** A real in [lo, hi) between two integers floors to an integer in [lo, hi). */
  lemma FloorBetween(v: real, lo: int, hi: int)
    requires lo as real <= v < hi as real
    ensures lo <= v.Floor < hi
  {
  }

  const MapleImage: string := "https://images.unsplash.com/photo-1570129477492-45c003edd2be?auto=form"
    + "at&fit=crop&q=80"
  const OakImage: string := "https://images.unsplash.com/photo-1568605114967-8130f3a36994?auto=form"
    + "at&fit=crop&q=80"
  const SunsetImage: string := "https://images.unsplash.com/photo-1572120360610-d971b9d7767c?auto=form"
    + "at&fit=crop&q=80"

  /** The three fixed neighbours, priced at 90%, 110% and 105% of the mock price. */
  function MockSimilar(price: real): (s: seq<SimilarHome>)
    ensures |s| == 3 && forall i :: 0 <= i < 3 ==> s[i].id == i + 1 && s[i].address.Some?
    ensures s[0].price == price * 0.9 && s[1].price == price * 1.1 && s[2].price == price * 1.05
  {
    [ SimilarHome(1, Some("124 Maple Ave"), price * 0.9, MapleImage),
      SimilarHome(2, Some("892 Oak Lane"), price * 1.1, OakImage),
      SimilarHome(3, Some("45 Sunset Blvd"), price * 1.05, SunsetImage) ]
  }

  /** `generateMockData`: prices in [500000, 2000000), a score in [60, 95) and the same
      verdict thresholds; the description only distinguishes "> 80". */
  function GenerateMockData(address: string, d: MockDraws): (r: PropertyRecord)
    requires ValidDraws(d)
    ensures r.address == address
    ensures 500000.0 <= r.price < 2000000.0
    ensures r.goodBuyScore.Score? && 60 <= r.goodBuyScore.value <= 94
    ensures r.verdict == Band(r.goodBuyScore)
    ensures r.verdictDesc == (if r.verdict == StrongBuy then MockStrongDesc else MockOtherDesc)
    ensures 1.0 <= r.schoolRating <= 10.0
    ensures |r.similar| == 3 && forall i :: 0 <= i < 3 ==> r.similar[i].id == i + 1
  {
    var mockPrice := RandomInt(d.price, 500000, 2000000);
    var mockRent := (mockPrice as real * 0.005).Floor;
    var score := RandomInt(d.score, 60, 95);
    PropertyRecord(
      address,
      mockPrice as real,
      "For Sale",
      mockRent as real,
      (RandomInt(d.school, 0, 10) + 1) as real,
      RandomInt(d.area, 1500, 4000) as real,
      d.lot * (0.5 - 0.1) + 0.1,
      Score(score),
      if score > 80 then StrongBuy else if score > 70 then GoodBuy else Neutral,
      if score > 80 then MockStrongDesc else MockOtherDesc,
      MockSimilar(mockPrice as real))
  }

  // ---------------------------------------------------------------- handler

  /** The request body: unparseable JSON, or an object whose `address` may be absent. */
  datatype RequestBody = Malformed | Parsed(address: Option<string>)

  datatype Body = ErrorBody(error: string) | DataBody(isMock: bool, data: PropertyRecord)
  datatype Response = Response(status: int, body: Body)

  /** What the provider call yields: a parsed payload, a non-OK status, or a network failure. */
  datatype ProviderReply = ProviderOk(payload: ProviderPayload) | ProviderNotOk | ProviderUnreachable

  /** The response together with the listing URLs sent to the provider. */
  datatype Exchange = Exchange(response: Response, providerRequests: seq<string>)

  const AddressRequired: string := "Address is required"
  const AnalysisFailed: string := "Failed to analyze property"

  /** `POST /api/real-estate`. The provider key, the random draws and the provider
      itself (a function of the listing URL) are parameters. */
  function Post(body: RequestBody, apiKey: Option<string>, draws: MockDraws,
                provider: string -> ProviderReply): (x: Exchange)
    requires ValidDraws(draws)
    ensures body.Malformed? ==> x == Exchange(Response(500, ErrorBody(AnalysisFailed)), [])
    ensures body.Parsed? && !Truthy(body.address) ==>
              x == Exchange(Response(400, ErrorBody(AddressRequired)), [])
    ensures body.Parsed? && Truthy(body.address) && !Truthy(apiKey) ==>
              x == Exchange(Response(200, DataBody(true, GenerateMockData(body.address.value, draws))), [])
    ensures body.Parsed? && Truthy(body.address) && Truthy(apiKey) ==>
              && x.providerRequests == [ListingUrl(body.address.value)]
              && (x.response.status == 200 <==> x.response.body.DataBody?)
              && (x.response.body.DataBody? ==> !x.response.body.isMock)
              && (x.response.body.ErrorBody? ==> x.response == Response(500, ErrorBody(AnalysisFailed)))
    ensures body.Parsed? && Truthy(body.address) && Truthy(apiKey) ==>
              var reply := provider(ListingUrl(body.address.value));
              && (x.response.status == 200 <==>
                    reply.ProviderOk? && ProcessHasDataResponse(reply.payload, body.address.value).Some?)
              && (x.response.status == 200 ==>
                    x.response.body.data == ProcessHasDataResponse(reply.payload, body.address.value).value)
  {
    match body
    case Malformed => Exchange(Response(500, ErrorBody(AnalysisFailed)), [])
    case Parsed(address) =>
      if !Truthy(address) then Exchange(Response(400, ErrorBody(AddressRequired)), [])
      else if !Truthy(apiKey) then
        Exchange(Response(200, DataBody(true, GenerateMockData(address.value, draws))), [])
      else
        var url := ListingUrl(address.value);
        var reply := provider(url);
        var record := if reply.ProviderOk? then ProcessHasDataResponse(reply.payload, address.value) else None;
        if record.Some? then Exchange(Response(200, DataBody(false, record.value)), [url])
        else Exchange(Response(500, ErrorBody(AnalysisFailed)), [url])
  }

  /** Without a provider key the answer does not depend on the provider at all. */
  lemma DemoModeIgnoresProvider(address: string, apiKey: Option<string>, draws: MockDraws,
                                p1: string -> ProviderReply, p2: string -> ProviderReply)
    requires ValidDraws(draws) && !Truthy(apiKey)
    ensures Post(Parsed(Some(address)), apiKey, draws, p1) == Post(Parsed(Some(address)), apiKey, draws, p2)
  {
  }
}
