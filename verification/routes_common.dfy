/** What the four API routes share: the environment they read, the request
    body they receive, the responses they build, the classification of a
    caught error message into a status, and the extraction of a JSON object
    from a model reply. */
module RouteCommon {
  import opened Common
  import opened Json
  import Text
  import Gemini

  /** The two keys, an unset variable being the empty string. */
  datatype Env = Env(geminiKey: string, openaiKey: string)

  /** The guard the chat, insights and prompts routes apply: at least one key
      is set, whichever it is. */
  predicate Configured(env: Env)
  {
    env.geminiKey != "" || env.openaiKey != ""
  }

  /** `await request.json()`: the destructured fields, or the error a
      malformed body throws. */
  datatype RequestBody<F> = Malformed(message: string) | Fields(fields: F)

  /** One day of a reading plan. */
  datatype DailyReading = DailyReading(day: int, chapters: seq<string>, motivation: string)

  /** The JSON bodies the routes answer with. */
  datatype Body =
    | ErrorBody(error: string)
    | Verbatim(value: JsonValue)
    | InsightBody(themes: seq<string>, insight: string, question: string, application: string)
    | PromptBody(prompt: string, focusAreas: seq<string>)
    | PlanBody(summary: string, plan: seq<DailyReading>)
    | ChatBody(response: string)

  datatype Response = Response(status: int, body: Body)

  /** A route's response together with the Gemini client cache it leaves. */
  datatype Handled = Handled(response: Response, cache: ClientCache)

  const NotConfigured: string := "AI service is not configured. Please "
    + "contact support."
  const ConfigurationError: string := "AI service configuration error. Please "
    + "contact support."
  const TemporarilyUnavailable: string := "AI service is temporarily unavailable. "
    + "Please try again later."
  const MissingFields: string := "Missing required fields"

  /** The answer to a request arriving while no key is set. */
  function NotConfiguredResponse(): (r: Response)
    ensures r.status == 503 && r.body.ErrorBody?
  {
    Response(503, ErrorBody(NotConfigured))
  }

  /** What a caught error message is taken to mean. */
  datatype ErrorKind = Configuration | RateLimited | Internal

  /** The key check comes first: a message naming the Gemini key or an API
      key is a configuration error; else one mentioning a quota, a rate limit
      or 429 is a rate limit; anything else is internal. */
  function Classify(message: string): (k: ErrorKind)
    ensures k == Configuration <==> Text.Contains(message, "GEMINI_API_KEY") || Text.Contains(message, "API key")
    ensures k == RateLimited <==>
              && !(Text.Contains(message, "GEMINI_API_KEY") || Text.Contains(message, "API key"))
              && (Text.Contains(message, "quota") || Text.Contains(message, "rate limit") || Text.Contains(message, "429"))
  {
    if Text.Contains(message, "GEMINI_API_KEY") || Text.Contains(message, "API key") then Configuration
    else if Text.Contains(message, "quota") || Text.Contains(message, "rate limit") || Text.Contains(message, "429") then RateLimited
    else Internal
  }

  /** The response of a classifying catch block, whose last resort names the
      route's own failure. */
  function ErrorResponse(message: string, failure: string): (r: Response)
    ensures r.status == 503 <==> Classify(message) == Configuration
    ensures r.status == 429 <==> Classify(message) == RateLimited
    ensures r.status == 500 <==> Classify(message) == Internal
    ensures r.status == 503 ==> r.body == ErrorBody(ConfigurationError)
    ensures r.status == 429 ==> r.body == ErrorBody(TemporarilyUnavailable)
    ensures r.status == 500 ==> r.body == ErrorBody(failure)
  {
    match Classify(message)
    case Configuration => Response(503, ErrorBody(ConfigurationError))
    case RateLimited => Response(429, ErrorBody(TemporarilyUnavailable))
    case Internal => Response(500, ErrorBody(failure))
  }

  /** The Gemini wrapper's fixed failure messages classify as internal: no
      backend failure, a missing key or an exhausted quota included, can
      reach the 503 or 429 branches of a catch block. */
  lemma WrapperFailuresAreInternal()
    ensures Classify(Gemini.ContentFailure) == Internal
    ensures Classify(Gemini.ChatFailure) == Internal
  {
    ContentFailureLacks('G'); ContentFailureLacks('P'); ContentFailureLacks('q');
    ContentFailureLacks('m'); ContentFailureLacks('4');
    ChatFailureLacks('G'); ChatFailureLacks('P'); ChatFailureLacks('q');
    ChatFailureLacks('m'); ChatFailureLacks('4');
    NoKeyOrLimitWords(Gemini.ContentFailure);
    NoKeyOrLimitWords(Gemini.ChatFailure);
  }

  /** The letters the two fixed failure messages lack. */
  lemma ContentFailureLacks(c: char)
    requires c in {'G', 'P', 'q', 'm', '4'}
    ensures c !in Gemini.ContentFailure
  {
  }

  lemma ChatFailureLacks(c: char)
    requires c in {'G', 'P', 'q', 'm', '4'}
    ensures c !in Gemini.ChatFailure
  {
  }

  /** A message lacking 'G', 'P', 'q', 'm' and '4' mentions none of the words
      the classifier looks for. */
  lemma NoKeyOrLimitWords(m: string)
    requires 'G' !in m && 'P' !in m && 'q' !in m && 'm' !in m && '4' !in m
    ensures Classify(m) == Internal
  {
    Text.AbsentCharNotContained(m, "GEMINI_API_KEY", 0);
    Text.AbsentCharNotContained(m, "API key", 1);
    Text.AbsentCharNotContained(m, "quota", 0);
    Text.AbsentCharNotContained(m, "rate limit", 7);
    Text.AbsentCharNotContained(m, "429", 0);
  }

  /** Were the Gemini key error to reach a catch block unwrapped, it would be
      recognised as a configuration error. */
  lemma MissingKeyWouldBeConfiguration()
    ensures Classify(Gemini.MissingKey) == Configuration
  {
    Text.ContainsMiddle([], Gemini.KeyName, " is not defined in environment variables");
    assert [] + Gemini.KeyName + " is not defined in environment variables" == Gemini.MissingKey;
  }

  /** What becomes of a model reply: the object its brace span parses to, no
      brace span at all, or the error parsing the span throws. */
  datatype Reply = Extracted(value: JsonValue) | NoObject | ParseError(message: string)

  /** `text.match(/\{[\s\S]*\}/)` followed by `JSON.parse` of the match. */
  function ParseReply(text: string, parse: string -> Parsed): (r: Reply)
    ensures r.NoObject? <==> !HasBraceSpan(text)
    ensures r.Extracted? ==> exists i, j :: IsLeftmostLongestSpan(text, i, j) && parse(text[i..j + 1]) == Parsed(r.value)
    ensures r.ParseError? ==> exists i, j :: IsLeftmostLongestSpan(text, i, j) && parse(text[i..j + 1]) == SyntaxError(r.message)
  {
    match BraceSpan(text)
    case None => NoObject
    case Some(span) =>
      match parse(span)
      case Parsed(v) => Extracted(v)
      case SyntaxError(m) => ParseError(m)
  }

  /** A reply that is one object between brace-free text is handed to the
      parser whole. */
  lemma ParseReplyOfObject(prefix: string, obj: string, suffix: string, parse: string -> Parsed)
    requires 2 <= |obj| && obj[0] == '{' && obj[|obj| - 1] == '}'
    requires '{' !in prefix && '}' !in suffix
    ensures ParseReply(prefix + obj + suffix, parse)
            == match parse(obj) case Parsed(v) => Extracted(v) case SyntaxError(m) => ParseError(m)
  {
    BraceSpanOfObjectText(prefix, obj, suffix);
  }
}
