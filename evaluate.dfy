/**
 * The essay-evaluation request handler (`onRequest` in api/evaluate.js) as a pure function of
 * its inputs. Everything the handler obtains over the network is a parameter: the request, the
 * five rubric files (or the fact that loading them failed), the chat-completion endpoint as a
 * function from a category and the essay to the reply, and `JSON.parse` as a partial function
 * from text to a category result.
 */
module Evaluate {
  import opened Wrappers
  import opened JsText
  import opened Fences

  /* ---------------------------------------------------------------- data */

  /** A rubric item: a JSON value that is only serialised into the prompt, never inspected. */
  type Item = string

  /** What a rubric file holds under one concept name; either field may be absent. */
  datatype RubricEntry = RubricEntry(category: Option<string>, items: Option<seq<Item>>)

  /** A parsed rubric file: its top-level object, from concept name to entry. */
  type RubricFile = map<string, RubricEntry>

  /** The five rubric files, in the order the handler fetches them. */
  datatype RubricFiles = RubricFiles(
    cat1: RubricFile, cat2: RubricFile, cat3: RubricFile, cat4: RubricFile, cat5: RubricFile)

  /** A category as the handler builds it: the entry's fields spread into a fresh object, plus
      the slot's key. */
  datatype Category = Category(category: Option<string>, items: Option<seq<Item>>, key: string)

  datatype Example = Example(
    original: string, issue: string, suggestion: string, reason: string, comparison: string)

  /** One deficient standard in a category result. */
  datatype Standard = Standard(
    name: string, score: int, maxScore: int, problem: string, examples: seq<Example>)

  /** The per-category object the handler returns; `score` is absent when the model left it out. */
  datatype CategoryResult = CategoryResult(
    categoryName: Option<string>, score: Option<int>, maxScore: int, standards: seq<Standard>)

  /** The body of the chat-completion reply: not JSON at all, or a JSON envelope whose
      `choices[0].message.content` is `Some` exactly when that path exists and holds a string. */
  datatype ReplyBody = NotJson | Envelope(content: Option<string>)

  datatype Reply = Reply(status: int, body: ReplyBody)

  /** The chat-completion endpoint, asked about one category of one essay. */
  type Remote = (Category, string) -> Reply

  /** `JSON.parse`, read as a category result; `None` where it throws. */
  type JsonParse = string -> Option<CategoryResult>

  /** What one category's evaluation settles to: a result, or a rejection that aborts the
      whole request. */
  datatype Outcome = Aborted | Done(result: CategoryResult)

  /** The `essay` property of the request body: absent (or `undefined`), a string, or any
      other JSON value. */
  datatype EssayField = Absent | Text(text: string) | OtherValue

  /** The request body as `request.json()` and the destructuring `{ essay }` see it: not JSON,
      the JSON value `null` (which cannot be destructured), or any other JSON value. */
  datatype RequestBody = Unparseable | JsonNull | JsonValue(essay: EssayField)

  datatype Request = Request(httpMethod: string, body: RequestBody)

  datatype Report = Report(
    totalScore: int, deductPoints: int, overallSummary: string, categories: seq<CategoryResult>)

  /** An HTTP response: an error status (its JSON error message is not modelled) or 200 with
      the report. */
  datatype Response = Error(status: int) | Success(report: Report)

  datatype Gate = Reject(status: int) | Proceed(essay: string)

  /* ----------------------------------------------------------- constants */

  /** The points each rubric item is worth; a category's maximum is its item count times this. */
  const PointsPerItem: int := 5

  /** The score the deduction is counted from. */
  const DeductionBase: int := 90

  const OverallSummary: string := "综合评估完成"

  /** The concept name each rubric file is read under; the second and third file share one. */
  const Concepts: seq<string> :=
    ["PersonalStrengths", "LogicalConsistency", "LogicalConsistency", "Readability", "LanguageQuality"]

  /** The key each slot is tagged with; these five are distinct. */
  const SlotKeys: seq<string> :=
    ["PersonalStrengths", "LogicalConsistency", "LogicalConsistency2", "Readability", "LanguageQuality"]

  /* -------------------------------------------------------- request gate */

  /** `!essay || typeof essay !== 'string'` fails exactly for these. */
  predicate IsValidEssay(e: EssayField) {
    e.Text? && e.text != []
  }

  /** The checks made before anything is fetched: the method first (405, the body unread), then
      the body (500 when reading it throws, 400 when the essay is missing, empty or not a
      string). */
  function CheckRequest(req: Request): (g: Gate)
    ensures g == Reject(405) <==> req.httpMethod != "POST"
    ensures g == Reject(500) <==> req.httpMethod == "POST" && !req.body.JsonValue?
    ensures g == Reject(400) <==>
      req.httpMethod == "POST" && req.body.JsonValue? && !IsValidEssay(req.body.essay)
    ensures g.Proceed? <==>
      req.httpMethod == "POST" && req.body.JsonValue? && IsValidEssay(req.body.essay)
    ensures g.Proceed? ==> g.essay == req.body.essay.text && g.essay != []
  {
    if req.httpMethod != "POST" then Reject(405)
    else
      match req.body
      case Unparseable => Reject(500)
      case JsonNull => Reject(500)
      case JsonValue(e) => if IsValidEssay(e) then Proceed(e.text) else Reject(400)
  }

  /* ---------------------------------------------------------- categories */

  /** `{ ...file[concept], key }`: spreading a missing entry gives an object with neither
      `category` nor `items`. */
  function Spread(file: RubricFile, concept: string, key: string): (cat: Category)
    ensures cat.key == key
    ensures concept in file ==> cat.category == file[concept].category && cat.items == file[concept].items
    ensures concept !in file ==> cat.category.None? && !HasItems(cat)
  {
    if concept in file then Category(file[concept].category, file[concept].items, key)
    else Category(None, None, key)
  }

  /** The five categories, one per rubric file, in the fixed slot order. */
  function Categories(files: RubricFiles): (cats: seq<Category>)
    ensures |cats| == |SlotKeys| == 5
    ensures forall i :: 0 <= i < 5 ==> cats[i].key == SlotKeys[i]
    ensures cats[0] == Spread(files.cat1, Concepts[0], SlotKeys[0])
    ensures cats[1] == Spread(files.cat2, Concepts[1], SlotKeys[1])
    ensures cats[2] == Spread(files.cat3, Concepts[2], SlotKeys[2])
    ensures cats[3] == Spread(files.cat4, Concepts[3], SlotKeys[3])
    ensures cats[4] == Spread(files.cat5, Concepts[4], SlotKeys[4])
  {
    [ Spread(files.cat1, Concepts[0], SlotKeys[0]),
      Spread(files.cat2, Concepts[1], SlotKeys[1]),
      Spread(files.cat3, Concepts[2], SlotKeys[2]),
      Spread(files.cat4, Concepts[3], SlotKeys[3]),
      Spread(files.cat5, Concepts[4], SlotKeys[4]) ]
  }

  /* ------------------------------------------------ one category's outcome */

  /** `cat.items` is present and non-empty. */
  predicate HasItems(cat: Category) {
    cat.items.Some? && |cat.items.value| > 0
  }

  function ItemCount(cat: Category): nat {
    if cat.items.Some? then |cat.items.value| else 0
  }

  /** `Response.ok`: a status in the range 200 to 299. */
  predicate IsOk(status: int) {
    200 <= status <= 299
  }

  /** The result used when the model's reply cannot be used: score 0, the category's full
      maximum, no standards. */
  function DegradedResult(cat: Category): CategoryResult {
    CategoryResult(cat.category, Some(0), ItemCount(cat) * PointsPerItem, [])
  }

  /** One category: no call for a category without items; a rejection on a non-OK status or a
      reply body that is not JSON; the parsed, fence-stripped reply otherwise, or the degraded
      result where the envelope or the parse fails. */
  function EvaluateCategory(cat: Category, essay: string, remote: Remote, parse: JsonParse): (o: Outcome)
    ensures o.Aborted? <==>
      HasItems(cat) && (!IsOk(remote(cat, essay).status) || remote(cat, essay).body.NotJson?)
  {
    if !HasItems(cat) then
      Done(CategoryResult(cat.category, Some(0), 0, []))
    else
      var reply := remote(cat, essay);
      if !IsOk(reply.status) then Aborted
      else
        match reply.body
        case NotJson => Aborted
        case Envelope(None) => Done(DegradedResult(cat))
        case Envelope(Some(text)) =>
          match parse(StripFences(text))
          case None => Done(DegradedResult(cat))
          case Some(result) => Done(result)
  }

  /** A category without items gets the zero result whatever the endpoint would answer: the
      endpoint is not consulted. */
  lemma EmptyCategorySkipsRemote(cat: Category, essay: string, remote1: Remote, remote2: Remote, parse: JsonParse)
    requires !HasItems(cat)
    ensures EvaluateCategory(cat, essay, remote1, parse) == EvaluateCategory(cat, essay, remote2, parse)
    ensures EvaluateCategory(cat, essay, remote1, parse) == Done(CategoryResult(cat.category, Some(0), 0, []))
  {
  }

  /** An OK reply whose envelope has no string content, or whose stripped content does not
      parse, gives the degraded result: score 0, maximum five points per item, no standards. */
  lemma UnusableReplyDegrades(cat: Category, essay: string, remote: Remote, parse: JsonParse)
    requires HasItems(cat)
    requires IsOk(remote(cat, essay).status) && remote(cat, essay).body.Envelope?
    requires remote(cat, essay).body.content.None?
      || parse(StripFences(remote(cat, essay).body.content.value)).None?
    ensures EvaluateCategory(cat, essay, remote, parse) ==
      Done(CategoryResult(cat.category, Some(0), |cat.items.value| * 5, []))
  {
  }

  /** A reply that parses is the category's result as it is. */
  lemma ParsedReplyPassesThrough(cat: Category, essay: string, remote: Remote, parse: JsonParse, text: string)
    requires HasItems(cat)
    requires IsOk(remote(cat, essay).status) && remote(cat, essay).body == Envelope(Some(text))
    requires parse(StripFences(text)).Some?
    ensures EvaluateCategory(cat, essay, remote, parse) == Done(parse(StripFences(text)).value)
  {
  }

  /** Nothing checks a parsed reply against the category: a reply claiming 1000 points for a
      one-item category (maximum 5) is returned as it is. */
  lemma NoScoreRangeCheck(item: Item, essay: string)
    ensures var cat := Category(Some("Readability"), Some([item]), "Readability");
      var claimed := CategoryResult(Some("Readability"), Some(1000), 5, []);
      EvaluateCategory(cat, essay, (c: Category, e: string) => Reply(200, Envelope(Some("{}"))),
        (t: string) => Some(claimed))
      == Done(claimed)
  {
  }

  /* ----------------------------------------------- all categories, joined */

  /** `Promise.all` over the categories, read in order: every category's result, in category
      order, or nothing at all as soon as one category aborts. */
  function EvaluateAll(cats: seq<Category>, essay: string, remote: Remote, parse: JsonParse): (r: Option<seq<CategoryResult>>)
    ensures r.Some? <==>
      forall i :: 0 <= i < |cats| ==> EvaluateCategory(cats[i], essay, remote, parse).Done?
    ensures r.Some? ==> |r.value| == |cats|
    ensures r.Some? ==>
      forall i :: 0 <= i < |cats| ==> r.value[i] == EvaluateCategory(cats[i], essay, remote, parse).result
  {
    if cats == [] then Some([])
    else
      match EvaluateCategory(cats[0], essay, remote, parse)
      case Aborted => None
      case Done(first) =>
        match EvaluateAll(cats[1..], essay, remote, parse)
        case None => None
        case Some(rest) => Some([first] + rest)
  }

  /** The join consults the endpoint only for categories with items: two endpoints that agree on
      those give the same outcome. */
  lemma {:induction false} EvaluateAllConsultsOnlyCategoriesWithItems(
    cats: seq<Category>, essay: string, remote1: Remote, remote2: Remote, parse: JsonParse)
    requires forall i :: 0 <= i < |cats| && HasItems(cats[i]) ==>
      remote1(cats[i], essay) == remote2(cats[i], essay)
    ensures EvaluateAll(cats, essay, remote1, parse) == EvaluateAll(cats, essay, remote2, parse)
  {
    if cats != [] {
      assert EvaluateCategory(cats[0], essay, remote1, parse) == EvaluateCategory(cats[0], essay, remote2, parse);
      EvaluateAllConsultsOnlyCategoriesWithItems(cats[1..], essay, remote1, remote2, parse);
    }
  }

  /* --------------------------------------------------------- aggregation */

  /** `cat.score || 0`: a missing score, like a zero one, counts as 0. */
  function ScoreOf(r: CategoryResult): (score: int)
    ensures r.score.None? ==> score == 0
    ensures r.score.Some? ==> score == r.score.value
  {
    if r.score.Some? then r.score.value else 0
  }

  /** `results.reduce((sum, cat) => sum + (cat.score || 0), sum)`: a left fold, which from any
      starting sum adds exactly the sum of the scores. */
  function FoldScores(sum: int, results: seq<CategoryResult>): (total: int)
    ensures total == sum + SumScores(results)
    decreases results
  {
    if results == [] then sum else FoldScores(sum + ScoreOf(results[0]), results[1..])
  }

  /** The sum of the scores, as a right-to-left recursion: the reference the fold is proved
      against. */
  function SumScores(results: seq<CategoryResult>): int {
    if results == [] then 0 else ScoreOf(results[0]) + SumScores(results[1..])
  }

  /** The report for the joined results: the results in order, their total, and the deduction
      from 90, which is not clamped and goes negative once the total passes 90. */
  function MakeReport(results: seq<CategoryResult>): (rep: Report)
    ensures rep.categories == results
    ensures rep.totalScore == SumScores(results)
    ensures rep.deductPoints == DeductionBase - rep.totalScore
    ensures rep.deductPoints < 0 <==> rep.totalScore > DeductionBase
    ensures rep.overallSummary == OverallSummary
  {
    var total := FoldScores(0, results);
    Report(total, DeductionBase - total, OverallSummary, results)
  }

  /** Five results sum to the sum of their five scores. */
  lemma SumOfFive(results: seq<CategoryResult>)
    requires |results| == 5
    ensures SumScores(results) ==
      ScoreOf(results[0]) + ScoreOf(results[1]) + ScoreOf(results[2]) + ScoreOf(results[3]) + ScoreOf(results[4])
  {
    assert results[4..][1..] == [];
    assert results[3..][1..] == results[4..];
    assert results[2..][1..] == results[3..];
    assert results[1..][1..] == results[2..];
    assert SumScores(results[4..]) == ScoreOf(results[4]);
    assert SumScores(results[3..]) == ScoreOf(results[3]) + SumScores(results[4..]);
    assert SumScores(results[2..]) == ScoreOf(results[2]) + SumScores(results[3..]);
    assert SumScores(results[1..]) == ScoreOf(results[1]) + SumScores(results[2..]);
  }

  /* ------------------------------------------------------------- handler */

  /** `onRequest`: the gate, then the rubric files (a failed load is a 500), then the joined
      category outcomes (an aborted one is a 500), then the report. */
  function HandleRequest(req: Request, rubrics: Option<RubricFiles>, remote: Remote, parse: JsonParse): (resp: Response)
    ensures resp.Error? ==> resp.status == 405 || resp.status == 400 || resp.status == 500
    ensures CheckRequest(req).Proceed? && rubrics.None? ==> resp == Error(500)
  {
    match CheckRequest(req)
    case Reject(status) => Error(status)
    case Proceed(essay) =>
      if rubrics.None? then Error(500)
      else
        match EvaluateAll(Categories(rubrics.value), essay, remote, parse)
        case None => Error(500)
        case Some(results) => Success(MakeReport(results))
  }

  /** A method other than POST is answered 405 whatever the body, the rubric files, the endpoint
      and the parser: none of them is touched. */
  lemma NonPostIsRejectedFirst(verb: string, body: RequestBody, rubrics: Option<RubricFiles>, remote: Remote, parse: JsonParse)
    requires verb != "POST"
    ensures HandleRequest(Request(verb, body), rubrics, remote, parse) == Error(405)
  {
  }

  /** A POST whose essay is absent, empty or not a string is answered 400; one whose body is not
      JSON, or is `null`, is answered 500, not 400. */
  lemma BadBodyStatuses(req: Request, rubrics: Option<RubricFiles>, remote: Remote, parse: JsonParse)
    requires req.httpMethod == "POST"
    ensures req.body.JsonValue? && !IsValidEssay(req.body.essay) ==>
      HandleRequest(req, rubrics, remote, parse) == Error(400)
    ensures !req.body.JsonValue? ==> HandleRequest(req, rubrics, remote, parse) == Error(500)
  {
  }

  /** All or nothing: if any one of the five categories aborts, the whole request is a 500 and
      no partial report is returned. */
  lemma AnyAbortFailsRequest(req: Request, files: RubricFiles, remote: Remote, parse: JsonParse, i: int)
    requires CheckRequest(req).Proceed? && 0 <= i < 5
    requires EvaluateCategory(Categories(files)[i], CheckRequest(req).essay, remote, parse).Aborted?
    ensures HandleRequest(req, Some(files), remote, parse) == Error(500)
  {
  }

  /** A request succeeds exactly when it passes the gate, the rubric files load, and none of the
      five categories aborts. */
  lemma SuccessIff(req: Request, rubrics: Option<RubricFiles>, remote: Remote, parse: JsonParse)
    ensures HandleRequest(req, rubrics, remote, parse).Success? <==>
      CheckRequest(req).Proceed? && rubrics.Some? &&
      forall i :: 0 <= i < 5 ==>
        EvaluateCategory(Categories(rubrics.value)[i], CheckRequest(req).essay, remote, parse).Done?
  {
  }

  /** A successful report holds one result per slot, in slot order, each the outcome of that
      slot's category; its total is the sum of the five scores (a missing one counted as 0) and
      its deduction is 90 minus the total. */
  lemma SuccessfulReport(req: Request, rubrics: Option<RubricFiles>, remote: Remote, parse: JsonParse)
    requires HandleRequest(req, rubrics, remote, parse).Success?
    ensures req.httpMethod == "POST" && req.body.JsonValue? && IsValidEssay(req.body.essay)
    ensures rubrics.Some?
    ensures var rep := HandleRequest(req, rubrics, remote, parse).report;
      var cats := Categories(rubrics.value);
      |rep.categories| == 5 &&
      (forall i :: 0 <= i < 5 ==>
        rep.categories[i] == EvaluateCategory(cats[i], req.body.essay.text, remote, parse).result) &&
      rep.totalScore == ScoreOf(rep.categories[0]) + ScoreOf(rep.categories[1]) +
        ScoreOf(rep.categories[2]) + ScoreOf(rep.categories[3]) + ScoreOf(rep.categories[4]) &&
      rep.deductPoints == 90 - rep.totalScore
  {
    var rep := HandleRequest(req, rubrics, remote, parse).report;
    SumOfFive(rep.categories);
  }

  /** The endpoint is consulted only for categories with items: two endpoints that agree on
      every category with items give the same response. */
  lemma RemoteConsultedOnlyForCategoriesWithItems(req: Request, rubrics: Option<RubricFiles>, remote1: Remote, remote2: Remote, parse: JsonParse)
    requires forall c: Category, e: string :: HasItems(c) ==> remote1(c, e) == remote2(c, e)
    ensures HandleRequest(req, rubrics, remote1, parse) == HandleRequest(req, rubrics, remote2, parse)
  {
    if CheckRequest(req).Proceed? && rubrics.Some? {
      EvaluateAllConsultsOnlyCategoriesWithItems(
        Categories(rubrics.value), CheckRequest(req).essay, remote1, remote2, parse);
    }
  }
}
