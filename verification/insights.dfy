/** `POST /api/gemini/insights`: analyses a journal entry about a chapter and
    answers with the model's JSON object, or with a fixed-shape insight around
    the raw reply when the reply holds no object. */
module Insights {
  import opened Common
  import opened Json
  import Text
  import opened RouteCommon
  import Gemini

  /** The destructured fields `{ book, chapter, entry }`. */
  datatype InsightsRequest = InsightsRequest(book: Scalar, chapter: Scalar, entry: Scalar)

  const Failure: string := "Failed to generate insights. Please "
    + "try again."
  const FallbackThemes: seq<string> := ["Faith", "Personal Growth"]
  const FallbackQuestion: string := "How can you apply this principle in "
    + "your life today?"
  const FallbackApplication: string := "Take time to reflect on what you've learned."

  /** All three fields are truthy. */
  predicate Complete(f: InsightsRequest)
  {
    Truthy(f.book) && Truthy(f.chapter) && Truthy(f.entry)
  }

  /** The fixed text of the instruction before the book. */
  const Opening: string := "You are a thoughtful scripture study "
    + "companion. Analyze this journal entry "
    + "about "

  /** The fixed text between the chapter and the entry. */
  const EntryIntro: string := " from the Book of Mormon.\n"
    + "\nJournal Entry:\n"
    + "\""

  /** The fixed text of the instruction after the entry: the requested JSON
      shape and the tone. */
  const PromptFormat: string :=
    "\"\n\n"
    + "Provide a response in the following "
    + "JSON format:\n{\n"
    + "  \"themes\": [\"theme1\", \"theme2\", \"theme3\"],\n"
    + "  \"insight\": \"A thoughtful insight about "
    + "what this person is learning\",\n"
    + "  \"question\": \"A reflection question "
    + "to deepen their understanding\",\n"
    + "  \"application\": \"A practical way to "
    + "apply this principle\"\n"
    + "}\n\n"
    + "Focus on being encouraging, respectful, "
    + "and spiritually uplifting. Keep responses "
    + "concise and meaningful."

  /** The instruction sent to the model. */
  function InsightsPrompt(f: InsightsRequest): string
  {
    Opening + Render(f.book) + " chapter " + Render(f.chapter) + EntryIntro + Render(f.entry) + PromptFormat
  }

  /** The body answered when the reply holds no object: the reply becomes the
      insight, around fixed themes, question and application. */
  function Fallback(reply: string): (b: Body)
    ensures b.InsightBody? && b.insight == reply && b.themes == FallbackThemes
  {
    InsightBody(FallbackThemes, reply, FallbackQuestion, FallbackApplication)
  }

  /** The handler. `generate` stands for the Gemini SDK and `parse` for
      `JSON.parse`. */
  function InsightsPost(env: Env, cache: ClientCache, body: RequestBody<InsightsRequest>,
                        generate: string -> Result<string>, parse: string -> Parsed): (h: Handled)
    ensures h.response.status in {200, 400, 429, 500, 503}
    ensures h.response.status == 503 ==> h.response.body in {ErrorBody(NotConfigured), ErrorBody(ConfigurationError)}
    ensures !Configured(env) ==> h == Handled(NotConfiguredResponse(), cache)
    ensures h.response.status == 400 <==> Configured(env) && body.Fields? && !Complete(body.fields)
    ensures h.response.status == 400 ==> h.response.body == ErrorBody(MissingFields)
    ensures !(Configured(env) && body.Fields? && Complete(body.fields)) ==> h.cache == cache
    ensures h.response.status == 200 ==>
              && Configured(env) && body.Fields? && Complete(body.fields)
              && var out := Gemini.GenerateContent(cache, env.geminiKey, InsightsPrompt(body.fields), generate);
                 && out.result.Ok?
                 && (h.response.body.Verbatim? ==> ParseReply(out.result.value, parse) == Extracted(h.response.body.value))
                 && (!h.response.body.Verbatim? ==> !HasBraceSpan(out.result.value) && h.response.body == Fallback(out.result.value))
    ensures Configured(env) && body.Malformed? ==> h == Handled(ErrorResponse(body.message, Failure), cache)
    ensures Configured(env) && body.Fields? && Complete(body.fields) ==>
              var out := Gemini.GenerateContent(cache, env.geminiKey, InsightsPrompt(body.fields), generate);
              && h.cache == out.cache
              && (h.response.status == 200 <==> out.result.Ok? && !ParseReply(out.result.value, parse).ParseError?)
              && (out.result.Err? ==> h.response == ErrorResponse(out.result.message, Failure))
              && (out.result.Ok? ==>
                    match ParseReply(out.result.value, parse)
                    case Extracted(v) => h.response == Response(200, Verbatim(v))
                    case NoObject => h.response == Response(200, Fallback(out.result.value))
                    case ParseError(m) => h.response == ErrorResponse(m, Failure))
  {
    if !Configured(env) then Handled(NotConfiguredResponse(), cache)
    else match body
      case Malformed(m) => Handled(ErrorResponse(m, Failure), cache)
      case Fields(f) =>
        if !Complete(f) then Handled(Response(400, ErrorBody(MissingFields)), cache)
        else
          var out := Gemini.GenerateContent(cache, env.geminiKey, InsightsPrompt(f), generate);
          match out.result
          case Err(m) => Handled(ErrorResponse(m, Failure), out.cache)
          case Ok(text) =>
            match ParseReply(text, parse)
            case Extracted(v) => Handled(Response(200, Verbatim(v)), out.cache)
            case NoObject => Handled(Response(200, Fallback(text)), out.cache)
            case ParseError(m) => Handled(ErrorResponse(m, Failure), out.cache)
  }

  /** Only a malformed request body or a reply whose brace span does not
      parse can draw the 429 answer, or the 503 of a configured service. */
  lemma LimitOrConfigErrorNeedsBadInput(env: Env, cache: ClientCache, body: RequestBody<InsightsRequest>,
                                         generate: string -> Result<string>, parse: string -> Parsed)
    ensures var r := InsightsPost(env, cache, body, generate, parse).response;
            (r.status == 429 || (Configured(env) && r.status == 503)) ==>
              || body.Malformed?
              || (&& body.Fields? && Complete(body.fields)
                  && var out := Gemini.GenerateContent(cache, env.geminiKey, InsightsPrompt(body.fields), generate);
                     out.result.Ok? && ParseReply(out.result.value, parse).ParseError?)
  {
    WrapperFailuresAreInternal();
  }

  /** A failure of the backend (or a missing Gemini key) always answers 500
      with the route's own failure text. */
  lemma BackendFailureIs500(env: Env, cache: ClientCache, f: InsightsRequest,
                            generate: string -> Result<string>, parse: string -> Parsed)
    requires Configured(env) && Complete(f)
    requires Gemini.GenerateContent(cache, env.geminiKey, InsightsPrompt(f), generate).result.Err?
    ensures InsightsPost(env, cache, Fields(f), generate, parse).response == Response(500, ErrorBody(Failure))
  {
    WrapperFailuresAreInternal();
  }

  /** With only the OpenAI key set the guard lets the request through, and the
      Gemini client then cannot be created: the answer is a 500. */
  lemma OnlyOpenAIKeyIs500(openaiKey: string, f: InsightsRequest,
                           generate: string -> Result<string>, parse: string -> Parsed)
    requires openaiKey != "" && Complete(f)
    ensures InsightsPost(Env("", openaiKey), NoClient, Fields(f), generate, parse)
            == Handled(Response(500, ErrorBody(Failure)), NoClient)
  {
    BackendFailureIs500(Env("", openaiKey), NoClient, f, generate, parse);
  }

  /** A reply without any brace comes back as the insight text itself. */
  lemma PlainReplyBecomesInsight(env: Env, cache: ClientCache, f: InsightsRequest,
                                 generate: string -> Result<string>, parse: string -> Parsed)
    requires Configured(env) && Complete(f)
    requires var out := Gemini.GenerateContent(cache, env.geminiKey, InsightsPrompt(f), generate);
             out.result.Ok? && '{' !in out.result.value
    ensures var out := Gemini.GenerateContent(cache, env.geminiKey, InsightsPrompt(f), generate);
            InsightsPost(env, cache, Fields(f), generate, parse).response
            == Response(200, InsightBody(FallbackThemes, out.result.value, FallbackQuestion, FallbackApplication))
  {
  }

  /** The prompt carries the entry verbatim, and the book and the chapter as
      rendered. */
  lemma PromptCarriesFields(f: InsightsRequest)
    ensures Text.Contains(InsightsPrompt(f), Render(f.book))
    ensures Text.Contains(InsightsPrompt(f), Render(f.chapter))
    ensures Text.Contains(InsightsPrompt(f), Render(f.entry))
  {
    PromptCarriesBook(f);
    PromptCarriesChapter(f);
    PromptCarriesEntry(f);
  }

  lemma PromptCarriesBook(f: InsightsRequest)
    ensures Text.Contains(InsightsPrompt(f), Render(f.book))
  {
    var (b, c, e) := (Render(f.book), Render(f.chapter), Render(f.entry));
    Text.ContainsEnd(Opening, b);
    Text.ContainsExtended(Opening + b, b, " chapter ");
    Text.ContainsExtended(Opening + b + " chapter ", b, c);
    Text.ContainsExtended(Opening + b + " chapter " + c, b, EntryIntro);
    Text.ContainsExtended(Opening + b + " chapter " + c + EntryIntro, b, e);
    Text.ContainsExtended(Opening + b + " chapter " + c + EntryIntro + e, b, PromptFormat);
  }

  lemma PromptCarriesChapter(f: InsightsRequest)
    ensures Text.Contains(InsightsPrompt(f), Render(f.chapter))
  {
    var (b, c, e) := (Render(f.book), Render(f.chapter), Render(f.entry));
    Text.ContainsEnd(Opening + b + " chapter ", c);
    Text.ContainsExtended(Opening + b + " chapter " + c, c, EntryIntro);
    Text.ContainsExtended(Opening + b + " chapter " + c + EntryIntro, c, e);
    Text.ContainsExtended(Opening + b + " chapter " + c + EntryIntro + e, c, PromptFormat);
  }

  lemma PromptCarriesEntry(f: InsightsRequest)
    ensures Text.Contains(InsightsPrompt(f), Render(f.entry))
  {
    var (b, c, e) := (Render(f.book), Render(f.chapter), Render(f.entry));
    Text.ContainsEnd(Opening + b + " chapter " + c + EntryIntro, e);
    Text.ContainsExtended(Opening + b + " chapter " + c + EntryIntro + e, e, PromptFormat);
  }
}
