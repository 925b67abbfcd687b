/** `POST /api/gemini/reading-plan`: asks for a plan of daily readings and
    answers with the model's JSON object, or with a plan built locally when
    the reply holds no object. Unlike the other three routes it has no key
    guard and its catch block does not classify the error. The book table is
    the parameter `books`; the application passes `BOOKS`. */
module ReadingPlan {
  import opened Common
  import opened Json
  import Text
  import opened Chapters
  import opened RouteCommon
  import opened FallbackPlan
  import Gemini

  /** The destructured fields `{ goal, chaptersPerDay, daysPerWeek, focus }`;
      `chaptersPerDay` is a whole number, `None` when absent or null. */
  datatype PlanRequest = PlanRequest(goal: Scalar, chaptersPerDay: Option<int>, daysPerWeek: Scalar, focus: Scalar)

  const Failure: string := "Failed to generate reading plan"

  /** `goal`, `chaptersPerDay` and `daysPerWeek` are truthy. */
  predicate Complete(f: PlanRequest)
  {
    Truthy(f.goal) && f.chaptersPerDay.Some? && f.chaptersPerDay.value != 0 && Truthy(f.daysPerWeek)
  }

  /** `Math.ceil(a / k)` for whole numbers. */
  function CeilDiv(a: int, k: int): (r: int)
    requires k != 0
    ensures k > 0 ==> (r - 1) * k < a <= r * k
    ensures k < 0 ==> r * k <= a < (r - 1) * k
  {
    if k > 0 then (a + k - 1) / k else -(a / -k)
  }

  /** The number of days the instruction asks for, `total` being the sum of
      the chapter counts. */
  function PromptDays(total: int, k: int): int
    requires k != 0
  {
    Min(MaxDays, CeilDiv(total, k))
  }

  /** The goal as the instruction words it. */
  function GoalText(goal: Scalar): string
  {
    if goal == Str("complete") then "Complete the entire Book of Mormon"
    else if goal == Str("topic") then "Study by specific topics"
    else "Daily spiritual boost"
  }

  /** `"<name> (<n> chapters)"` for each book, joined by `", "`. */
  function BooksData(books: seq<Book>): string
  {
    if |books| == 0 then ""
    else
      var entry := books[0].name + " (" + Text.IntToString(books[0].chapters) + " chapters)";
      if |books| == 1 then entry else entry + ", " + BooksData(books[1..])
  }

  const PromptIntro: string :=
    "Create a personalized Book of Mormon "
    + "reading plan with the following parameters:\n"
    + "\nGoal: "

  /** The fixed text between the chapter total and the day count: the
      requested JSON shape. */
  const PromptFormat: string :=
    "\n\n"
    + "Generate a reading plan in JSON format:\n"
    + "{\n"
    + "  \"summary\": \"A brief encouraging summary "
    + "of this plan\",\n"
    + "  \"plan\": [\n"
    + "    {\n"
    + "      \"day\": 1,\n"
    + "      \"chapters\": [\"1 Nephi 1-2\"],\n"
    + "      \"motivation\": \"A short motivational "
    + "message for this day\"\n"
    + "    },\n    ...\n"
    + "  ]\n}\n\n"
    + "Create a plan for the first "

  /** The focus line, empty for a falsy focus. */
  function FocusLine(focus: Scalar): string
  {
    if Truthy(focus) then "Personal focus: " + Render(focus) else ""
  }

  /** The closing focus clause, empty for a falsy focus. */
  function FocusClause(focus: Scalar): string
  {
    if Truthy(focus) then " with focus on " + Render(focus) else ""
  }

  /** The instruction sent to the model. */
  function PlanPrompt(books: seq<Book>, f: PlanRequest): string
    requires Complete(f)
  {
    var k := f.chaptersPerDay.value;
    PromptIntro + GoalText(f.goal)
      + "\nChapters per day: " + Text.IntToString(k)
      + "\nDays per week: " + Render(f.daysPerWeek)
      + "\n" + FocusLine(f.focus)
      + "\n\nBooks in the Book of Mormon: " + BooksData(books)
      + "\nTotal chapters: " + Text.IntToString(SumChapters(books))
    + PromptFormat + Text.IntToString(PromptDays(SumChapters(books), k))
      + " days. Make it encouraging and personalized" + FocusClause(f.focus) + "."
  }

  /** The summary of the locally built plan. */
  function Summary(f: PlanRequest): string
    requires Complete(f)
  {
    "A " + Render(f.daysPerWeek) + "-day per week plan to read "
    + Text.IntToString(f.chaptersPerDay.value) + " chapter(s) daily."
  }

  /** The handler. `generate` stands for the Gemini SDK and `parse` for
      `JSON.parse`; the local plan is the reference the route's loops are
      proved to compute (`FallbackPlan.GenerateFallbackPlan`). */
  function ReadingPlanPost(books: seq<Book>, env: Env, cache: ClientCache, body: RequestBody<PlanRequest>,
                           generate: string -> Result<string>, parse: string -> Parsed): (h: Handled)
    requires ValidTable(books)
    ensures h.response.status in {200, 400, 500}
    ensures h.response.status == 400 <==> body.Fields? && !Complete(body.fields)
    ensures h.response.status == 400 ==> h.response.body == ErrorBody(MissingFields)
    ensures h.response.status == 500 ==> h.response.body == ErrorBody(Failure)
    ensures !(body.Fields? && Complete(body.fields)) ==> h.cache == cache
    ensures h.response.status == 200 ==>
              && body.Fields? && Complete(body.fields)
              && var out := Gemini.GenerateContent(cache, env.geminiKey, PlanPrompt(books, body.fields), generate);
                 && out.result.Ok?
                 && (h.response.body.Verbatim? ==> ParseReply(out.result.value, parse) == Extracted(h.response.body.value))
                 && (!h.response.body.Verbatim? ==>
                       && !HasBraceSpan(out.result.value)
                       && h.response.body == PlanBody(Summary(body.fields), FallbackReadings(books, body.fields.chaptersPerDay.value)))
    ensures body.Malformed? ==> h == Handled(Response(500, ErrorBody(Failure)), cache)
    ensures body.Fields? && Complete(body.fields) ==>
              var out := Gemini.GenerateContent(cache, env.geminiKey, PlanPrompt(books, body.fields), generate);
              && h.cache == out.cache
              && (h.response.status == 200 <==> out.result.Ok? && !ParseReply(out.result.value, parse).ParseError?)
              && (out.result.Ok? ==>
                    match ParseReply(out.result.value, parse)
                    case Extracted(v) => h.response == Response(200, Verbatim(v))
                    case NoObject => h.response == Response(200, PlanBody(Summary(body.fields),
                                                                        FallbackReadings(books, body.fields.chaptersPerDay.value)))
                    case ParseError(_) => h.response == Response(500, ErrorBody(Failure)))
  {
    match body
    case Malformed(_) => Handled(Response(500, ErrorBody(Failure)), cache)
    case Fields(f) =>
      if !Complete(f) then Handled(Response(400, ErrorBody(MissingFields)), cache)
      else
        var out := Gemini.GenerateContent(cache, env.geminiKey, PlanPrompt(books, f), generate);
        match out.result
        case Err(_) => Handled(Response(500, ErrorBody(Failure)), out.cache)
        case Ok(text) =>
          match ParseReply(text, parse)
          case Extracted(v) => Handled(Response(200, Verbatim(v)), out.cache)
          case ParseError(_) => Handled(Response(500, ErrorBody(Failure)), out.cache)
          case NoObject =>
            var plan := FallbackReadings(books, f.chaptersPerDay.value);
            assert plan[..Min(MaxDays, |plan|)] == plan;
            Handled(Response(200, PlanBody(Summary(f), plan[..Min(MaxDays, |plan|)])), out.cache)
  }

  /** With no key set at all the route still calls the model, and answers 500
      where the other routes answer 503. */
  lemma NoKeyIs500(books: seq<Book>, f: PlanRequest, generate: string -> Result<string>, parse: string -> Parsed)
    requires ValidTable(books) && Complete(f)
    ensures ReadingPlanPost(books, Env("", ""), NoClient, Fields(f), generate, parse)
            == Handled(Response(500, ErrorBody(Failure)), NoClient)
  {
  }

  /** The route never reads the OpenAI key. */
  lemma OpenAIKeyIgnored(books: seq<Book>, geminiKey: string, a: string, b: string, cache: ClientCache,
                         body: RequestBody<PlanRequest>, generate: string -> Result<string>, parse: string -> Parsed)
    requires ValidTable(books)
    ensures ReadingPlanPost(books, Env(geminiKey, a), cache, body, generate, parse)
            == ReadingPlanPost(books, Env(geminiKey, b), cache, body, generate, parse)
  {
  }

  /** The instruction asks for the fewest days that cover the `total`
      chapters at `k` a day, capped at thirty. */
  lemma PromptDaysCoverBook(total: nat, k: int)
    requires total >= 1 && k >= 1
    ensures var d := PromptDays(total, k);
            1 <= d <= MaxDays && (d == MaxDays || ((d - 1) * k < total <= d * k))
  {
  }

  /** The local plan has at least as many days as the instruction asks for:
      it reads book by book, so a day never spans two books. */
  lemma LocalPlanAtLeastPromptDays(books: seq<Book>, k: int)
    requires ValidTable(books) && k >= 1
    ensures |FallbackReadings(books, k)| >= PromptDays(SumChapters(books), k)
  {
    CoverHoldsAllChapters(books, 0, k);
    assert books[0..] == books;
    var c := |CoverFrom(books, 0, k)|;
    var d := CeilDiv(SumChapters(books), k);
    if c < d {
      MoreDaysMoreChapters(c, d - 1, k);
    }
  }

  lemma MoreDaysMoreChapters(a: int, b: int, k: int)
    requires a <= b && k >= 1
    ensures a * k <= b * k
  {
  }

  /** For the real table and a positive amount, the local plan's first day
      starts at chapter 1 of 1 Nephi and the instruction asks for
      `min(30, ceil(239 / k))` days. */
  lemma RealTablePlan(k: int)
    requires k >= 1
    ensures ValidTable(BOOKS)
    ensures FallbackSpans(BOOKS, k)[0] == Span(0, 1, Min(k, 22))
    ensures PromptDays(SumChapters(BOOKS), k) == PromptDays(239, k)
  {
    BooksTableValid();
    FallbackReadsInOrder(BOOKS, k);
    var s := FallbackSpans(BOOKS, k);
    assert ValidSpan(BOOKS, s[0], k);
    TotalIs239();
  }

  /** The summary names the daily amount. */
  lemma SummaryNamesAmount(f: PlanRequest)
    requires Complete(f)
    ensures Text.Contains(Summary(f), Text.IntToString(f.chaptersPerDay.value) + " chapter(s) daily.")
  {
    var head := "A " + Render(f.daysPerWeek) + "-day per week plan to read ";
    assert Summary(f) == head + (Text.IntToString(f.chaptersPerDay.value) + " chapter(s) daily.") + [];
    Text.ContainsMiddle(head, Text.IntToString(f.chaptersPerDay.value) + " chapter(s) daily.", []);
  }
}
