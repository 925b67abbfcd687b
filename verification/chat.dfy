/** `POST /api/gemini/chat`: continues a conversation about a chapter. When a
    chapter context is given, a scripted exchange naming it is put before the
    user's messages. */
module Chat {
  import opened Common
  import opened Json
  import Text
  import opened RouteCommon
  import Gemini

  /** The `messages` field: an array of chat messages, or any other value. */
  datatype MessagesField = NotAnArray(v: Scalar) | AnArray(items: seq<Message>)

  /** The `context` field: an object with `book` and `chapter`, or absent
      (any non-object reads as absent, its properties being undefined). */
  datatype ChatContext = NoContext | ContextObject(book: Scalar, chapter: Scalar)

  /** The destructured fields `{ messages, context }`. */
  datatype ChatRequest = ChatRequest(messages: MessagesField, context: ChatContext)

  const Failure: string := "Failed to generate response. Please "
    + "try again."
  const MessagesRequired: string := "Messages array is required"

  /** The system prompt handed to the chat call (which ignores it). */
  const SystemPrompt: string :=
    "You are a knowledgeable and respectful "
    + "scripture study companion for the Book "
    + "of Mormon. \n\n"
    + "Your role is to:\n"
    + "- Help users understand scripture passages "
    + "with historical context and insights\n"
    + "- Provide thoughtful cross-references "
    + "to related verses\n"
    + "- Encourage personal application and "
    + "spiritual growth\n"
    + "- Be respectful, encouraging, and spiritually "
    + "uplifting\n"
    + "- Keep responses concise (2-3 paragraphs "
    + "maximum)\n\n"
    + "Focus on helping users deepen their "
    + "understanding and apply principles in "
    + "their lives."

  /** `messages` is a non-empty array. */
  predicate HasMessages(f: ChatRequest)
  {
    f.messages.AnArray? && |f.messages.items| > 0
  }

  /** `context?.book && context?.chapter` is truthy. */
  predicate HasContext(c: ChatContext)
  {
    c.ContextObject? && Truthy(c.book) && Truthy(c.chapter)
  }

  const StudyingOpening: string := "Context: I'm currently studying "

  /** The scripted user turn naming the chapter under study. */
  function ContextOpening(book: Scalar, chapter: Scalar): string
  {
    StudyingOpening + Render(book) + " chapter " + Render(chapter) + "."
  }

  /** The scripted assistant turn acknowledging it. */
  function ContextReply(book: Scalar, chapter: Scalar): string
  {
    "Great! I'm here to help you understand " + Render(book) + " " + Render(chapter) + ". What would you like to know?"
  }

  /** The scripted exchange. */
  function ContextTurns(book: Scalar, chapter: Scalar): (t: seq<Message>)
    ensures |t| == 2 && t[0].role == "user" && t[1].role == "assistant"
  {
    [Message("user", ContextOpening(book, chapter)), Message("assistant", ContextReply(book, chapter))]
  }

  /** The conversation handed to the chat call. */
  function Conversation(messages: seq<Message>, context: ChatContext): seq<Message>
  {
    if HasContext(context) then ContextTurns(context.book, context.chapter) + messages else messages
  }

  /** The handler. `send` stands for the Gemini chat session. */
  function ChatPost(env: Env, cache: ClientCache, body: RequestBody<ChatRequest>,
                    send: Gemini.ChatTurn -> Result<string>): (h: Handled)
    ensures h.response.status in {200, 400, 429, 500, 503}
    ensures h.response.status == 503 ==> h.response.body in {ErrorBody(NotConfigured), ErrorBody(ConfigurationError)}
    ensures !Configured(env) ==> h == Handled(NotConfiguredResponse(), cache)
    ensures h.response.status == 400 <==> Configured(env) && body.Fields? && !HasMessages(body.fields)
    ensures h.response.status == 400 ==> h.response.body == ErrorBody(MessagesRequired)
    ensures !(Configured(env) && body.Fields? && HasMessages(body.fields)) ==> h.cache == cache
    ensures h.response.status == 200 ==>
              && Configured(env) && body.Fields? && HasMessages(body.fields)
              && var conversation := Conversation(body.fields.messages.items, body.fields.context);
                 && GetClient(cache, env.geminiKey, Gemini.MissingKey).0.Ok?
                 && send(Gemini.TurnOf(conversation)).Ok?
                 && h.response.body == ChatBody(send(Gemini.TurnOf(conversation)).value)
    ensures Configured(env) && body.Malformed? ==> h == Handled(ErrorResponse(body.message, Failure), cache)
    ensures Configured(env) && body.Fields? && HasMessages(body.fields) ==>
              var out := Gemini.GenerateChat(cache, env.geminiKey, Conversation(body.fields.messages.items, body.fields.context),
                                             Some(SystemPrompt), send);
              && h.cache == out.cache
              && (h.response.status == 200 <==> out.result.Ok?)
              && (out.result.Ok? ==> h.response == Response(200, ChatBody(out.result.value)))
              && (out.result.Err? ==> h.response == ErrorResponse(out.result.message, Failure))
  {
    if !Configured(env) then Handled(NotConfiguredResponse(), cache)
    else match body
      case Malformed(m) => Handled(ErrorResponse(m, Failure), cache)
      case Fields(f) =>
        if !HasMessages(f) then Handled(Response(400, ErrorBody(MessagesRequired)), cache)
        else
          var conversation := Conversation(f.messages.items, f.context);
          var out := Gemini.GenerateChat(cache, env.geminiKey, conversation, Some(SystemPrompt), send);
          match out.result
          case Err(m) => Handled(ErrorResponse(m, Failure), out.cache)
          case Ok(text) => Handled(Response(200, ChatBody(text)), out.cache)
  }

  /** The context adds exactly two turns in front and changes nothing else; in
      particular the message sent is still the user's last one, and the
      scripted turns reach Gemini as a user turn then a model turn. */
  lemma ConversationShape(messages: seq<Message>, context: ChatContext)
    requires |messages| > 0
    ensures var c := Conversation(messages, context);
            && (HasContext(context) ==> |c| == |messages| + 2 && c[2..] == messages)
            && (!HasContext(context) ==> c == messages)
            && Gemini.TurnOf(c).message == messages[|messages| - 1].content
            && (HasContext(context) ==>
                  Gemini.TurnOf(c).history[0].role == Gemini.User && Gemini.TurnOf(c).history[1].role == Gemini.Model)
  {
  }

  /** Only a malformed request body can draw the 429 answer, or the 503 of a
      configured service. */
  lemma LimitOrConfigErrorNeedsBadBody(env: Env, cache: ClientCache, body: RequestBody<ChatRequest>,
                                        send: Gemini.ChatTurn -> Result<string>)
    ensures var r := ChatPost(env, cache, body, send).response;
            (r.status == 429 || (Configured(env) && r.status == 503)) ==> body.Malformed?
  {
    WrapperFailuresAreInternal();
  }

  /** A failure of the backend, a missing Gemini key included, always answers
      500 with the route's own failure text. */
  lemma BackendFailureIs500(env: Env, cache: ClientCache, f: ChatRequest, send: Gemini.ChatTurn -> Result<string>)
    requires Configured(env) && HasMessages(f)
    requires Gemini.GenerateChat(cache, env.geminiKey, Conversation(f.messages.items, f.context), Some(SystemPrompt), send).result.Err?
    ensures ChatPost(env, cache, Fields(f), send).response == Response(500, ErrorBody(Failure))
  {
    WrapperFailuresAreInternal();
  }

  /** With only the OpenAI key set the guard lets the request through, and the
      Gemini client then cannot be created: the answer is a 500. */
  lemma OnlyOpenAIKeyIs500(openaiKey: string, f: ChatRequest, send: Gemini.ChatTurn -> Result<string>)
    requires openaiKey != "" && HasMessages(f)
    ensures ChatPost(Env("", openaiKey), NoClient, Fields(f), send) == Handled(Response(500, ErrorBody(Failure)), NoClient)
  {
    BackendFailureIs500(Env("", openaiKey), NoClient, f, send);
  }

  /** The scripted opening names the chapter under study. */
  lemma ContextNamesChapter(book: Scalar, chapter: Scalar)
    ensures Text.Contains(ContextOpening(book, chapter), Render(book) + " chapter " + Render(chapter))
  {
    var named := Render(book) + " chapter " + Render(chapter);
    assert StudyingOpening + Render(book) + " chapter " + Render(chapter) == StudyingOpening + named;
    Text.ContainsEnd(StudyingOpening, named);
    Text.ContainsExtended(StudyingOpening + named, named, ".");
  }
}
