/** `POST /api/gemini/prompts`: asks for a reflection prompt on a chapter and
    answers with the model's JSON object, or with a fixed prompt naming the
    chapter when the reply holds no object. */
module Prompts {
  import opened Common
  import opened Json
  import Text
  import opened RouteCommon
  import Gemini

  /** The destructured fields `{ book, chapter }`. */
  datatype PromptsRequest = PromptsRequest(book: Scalar, chapter: Scalar)

  const Failure: string := "Failed to generate prompt. Please try again."
  const FallbackFocusAreas: seq<string> := ["Personal Application", "Spiritual Growth", "Faith"]

  /** Both fields are truthy. */
  predicate Complete(f: PromptsRequest)
  {
    Truthy(f.book) && Truthy(f.chapter)
  }

  /** The fixed text of the instruction after the chapter: what the prompt
      should be like and the requested JSON shape. */
  const PromptFormat: string :=
    " from the Book of Mormon.\n"
    + "\n"
    + "The prompt should:\n"
    + "- Be personal and thought-provoking\n"
    + "- Focus on application and spiritual "
    + "growth\n"
    + "- Be 2-3 sentences long\n"
    + "- Encourage deep reflection\n"
    + "\n"
    + "Provide the response in JSON format:\n"
    + "{\n"
    + "  \"prompt\": \"Your reflection prompt "
    + "here\",\n"
    + "  \"focusAreas\": [\"area1\", \"area2\", \"area3\"]\n"
    + "}"

  /** The fixed text of the instruction before the book. */
  const Opening: string := "Generate a thoughtful reflection prompt for "

  /** The instruction sent to the model. */
  function ReflectionPrompt(f: PromptsRequest): string
  {
    Opening + Render(f.book) + " chapter " + Render(f.chapter) + PromptFormat
  }

  const FallbackOpening: string := "Reflect on the teachings in "
  const FallbackQuestion: string :=
    ". What principle stands out to you, "
    + "and how can you apply it in your life "
    + "today?"

  /** The prompt answered when the reply holds no object. */
  function FallbackPrompt(f: PromptsRequest): string
  {
    FallbackOpening + Render(f.book) + " " + Render(f.chapter) + FallbackQuestion
  }

  /** The handler. `generate` stands for the Gemini SDK and `parse` for
      `JSON.parse`. */
  function PromptsPost(env: Env, cache: ClientCache, body: RequestBody<PromptsRequest>,
                       generate: string -> Result<string>, parse: string -> Parsed): (h: Handled)
    ensures h.response.status in {200, 400, 429, 500, 503}
    ensures h.response.status == 503 ==> h.response.body in {ErrorBody(NotConfigured), ErrorBody(ConfigurationError)}
    ensures !Configured(env) ==> h == Handled(NotConfiguredResponse(), cache)
    ensures h.response.status == 400 <==> Configured(env) && body.Fields? && !Complete(body.fields)
    ensures h.response.status == 400 ==> h.response.body == ErrorBody(MissingFields)
    ensures !(Configured(env) && body.Fields? && Complete(body.fields)) ==> h.cache == cache
    ensures h.response.status == 200 ==>
              && Configured(env) && body.Fields? && Complete(body.fields)
              && var out := Gemini.GenerateContent(cache, env.geminiKey, ReflectionPrompt(body.fields), generate);
                 && out.result.Ok?
                 && (h.response.body.Verbatim? ==> ParseReply(out.result.value, parse) == Extracted(h.response.body.value))
                 && (!h.response.body.Verbatim? ==>
                       && !HasBraceSpan(out.result.value)
                       && h.response.body == PromptBody(FallbackPrompt(body.fields), FallbackFocusAreas))
    ensures Configured(env) && body.Malformed? ==> h == Handled(ErrorResponse(body.message, Failure), cache)
    ensures Configured(env) && body.Fields? && Complete(body.fields) ==>
              var out := Gemini.GenerateContent(cache, env.geminiKey, ReflectionPrompt(body.fields), generate);
              && h.cache == out.cache
              && (h.response.status == 200 <==> out.result.Ok? && !ParseReply(out.result.value, parse).ParseError?)
              && (out.result.Err? ==> h.response == ErrorResponse(out.result.message, Failure))
              && (out.result.Ok? ==>
                    match ParseReply(out.result.value, parse)
                    case Extracted(v) => h.response == Response(200, Verbatim(v))
                    case NoObject => h.response == Response(200, PromptBody(FallbackPrompt(body.fields), FallbackFocusAreas))
                    case ParseError(m) => h.response == ErrorResponse(m, Failure))
  {
    if !Configured(env) then Handled(NotConfiguredResponse(), cache)
    else match body
      case Malformed(m) => Handled(ErrorResponse(m, Failure), cache)
      case Fields(f) =>
        if !Complete(f) then Handled(Response(400, ErrorBody(MissingFields)), cache)
        else
          var out := Gemini.GenerateContent(cache, env.geminiKey, ReflectionPrompt(f), generate);
          match out.result
          case Err(m) => Handled(ErrorResponse(m, Failure), out.cache)
          case Ok(text) =>
            match ParseReply(text, parse)
            case Extracted(v) => Handled(Response(200, Verbatim(v)), out.cache)
            case NoObject => Handled(Response(200, PromptBody(FallbackPrompt(f), FallbackFocusAreas)), out.cache)
            case ParseError(m) => Handled(ErrorResponse(m, Failure), out.cache)
  }

  /** Only a malformed request body or a reply whose brace span does not
      parse can draw the 429 answer, or the 503 of a configured service. */
  lemma LimitOrConfigErrorNeedsBadInput(env: Env, cache: ClientCache, body: RequestBody<PromptsRequest>,
                                         generate: string -> Result<string>, parse: string -> Parsed)
    ensures var r := PromptsPost(env, cache, body, generate, parse).response;
            (r.status == 429 || (Configured(env) && r.status == 503)) ==>
              || body.Malformed?
              || (&& body.Fields? && Complete(body.fields)
                  && var out := Gemini.GenerateContent(cache, env.geminiKey, ReflectionPrompt(body.fields), generate);
                     out.result.Ok? && ParseReply(out.result.value, parse).ParseError?)
  {
    WrapperFailuresAreInternal();
  }

  /** A failure of the backend (or a missing Gemini key) always answers 500
      with the route's own failure text. */
  lemma BackendFailureIs500(env: Env, cache: ClientCache, f: PromptsRequest,
                            generate: string -> Result<string>, parse: string -> Parsed)
    requires Configured(env) && Complete(f)
    requires Gemini.GenerateContent(cache, env.geminiKey, ReflectionPrompt(f), generate).result.Err?
    ensures PromptsPost(env, cache, Fields(f), generate, parse).response == Response(500, ErrorBody(Failure))
  {
    WrapperFailuresAreInternal();
  }

  /** With only the OpenAI key set the guard lets the request through, and the
      Gemini client then cannot be created: the answer is a 500. */
  lemma OnlyOpenAIKeyIs500(openaiKey: string, f: PromptsRequest,
                           generate: string -> Result<string>, parse: string -> Parsed)
    requires openaiKey != "" && Complete(f)
    ensures PromptsPost(Env("", openaiKey), NoClient, Fields(f), generate, parse)
            == Handled(Response(500, ErrorBody(Failure)), NoClient)
  {
    BackendFailureIs500(Env("", openaiKey), NoClient, f, generate, parse);
  }

  /** The fallback prompt names the book and the chapter it was asked about. */
  lemma FallbackNamesChapter(f: PromptsRequest)
    ensures Text.Contains(FallbackPrompt(f), Render(f.book) + " " + Render(f.chapter))
  {
    var named := Render(f.book) + " " + Render(f.chapter);
    assert FallbackOpening + Render(f.book) + " " + Render(f.chapter) == FallbackOpening + named;
    Text.ContainsEnd(FallbackOpening, named);
    Text.ContainsExtended(FallbackOpening + named, named, FallbackQuestion);
  }

  /** The instruction names the chapter it asks about. */
  lemma PromptCarriesChapter(f: PromptsRequest)
    ensures Text.Contains(ReflectionPrompt(f), Render(f.book) + " chapter " + Render(f.chapter))
  {
    var named := Render(f.book) + " chapter " + Render(f.chapter);
    assert Opening + Render(f.book) + " chapter " + Render(f.chapter) == Opening + named;
    Text.ContainsEnd(Opening, named);
    Text.ContainsExtended(Opening + named, named, PromptFormat);
  }
}
