/** The Gemini wrapper: a lazily created client and two calls, one-shot
    generation and a chat turn. Every failure inside either call, the missing
    key included, is replaced by one fixed message. The SDK is the parameter
    `generate` (prompt to reply) or `send` (chat session to reply). */
module Gemini {
  import opened Common

  const ModelName: string := "gemini-2.0-flash"
  const MaxOutputTokens: int := 1000
  /** The environment variable holding the key. */
  const KeyName: string := "GEMINI_API_KEY"
  const MissingKey: string := KeyName + " is not defined in environment variables"
  const ContentFailure: string := "Failed to generate AI response"
  const ChatFailure: string := "Failed to generate chat response"

  /** Gemini's two conversation roles. */
  datatype Role = User | Model

  /** One history entry: a role and a single text part. */
  datatype Content = Content(role: Role, text: string)

  /** What a chat turn sends: the prior history and the text of the last
      message. */
  datatype ChatTurn = ChatTurn(history: seq<Content>, message: string)

  /** One-shot generation: the reply text when a client exists and the backend
      answers; otherwise the fixed content failure, whatever went wrong. */
  function GenerateContent(cache: ClientCache, envKey: string, prompt: string,
                           generate: string -> Result<string>): (r: Outcome)
    ensures var (client, cache') := GetClient(cache, envKey, MissingKey);
            && r.cache == cache'
            && (r.result.Ok? <==> client.Ok? && generate(prompt).Ok?)
            && (r.result.Ok? ==> r.result.value == generate(prompt).value)
    ensures r.result.Err? ==> r.result.message == ContentFailure
  {
    var (client, cache') := GetClient(cache, envKey, MissingKey);
    if client.Err? then Outcome(Err(ContentFailure), cache')
    else match generate(prompt)
      case Ok(text) => Outcome(Ok(text), cache')
      case Err(_) => Outcome(Err(ContentFailure), cache')
  }

  /** A message's role in Gemini terms: "user" stays the user, anything else
      is the model. */
  function GeminiRole(role: string): (r: Role)
    ensures r == User <==> role == "user"
  {
    if role == "user" then User else Model
  }

  /** `messages.slice(0, -1)` mapped to history entries. */
  function History(messages: seq<Message>): (h: seq<Content>)
    ensures |messages| == 0 ==> |h| == 0
    ensures |messages| > 0 ==> |h| == |messages| - 1
    ensures forall i :: 0 <= i < |h| ==>
              h[i].text == messages[i].content && (h[i].role == User <==> messages[i].role == "user")
  {
    if |messages| == 0 then []
    else
      seq(|messages| - 1, i requires 0 <= i < |messages| - 1 =>
        Content(GeminiRole(messages[i].role), messages[i].content))
  }

  /** The turn a non-empty conversation sends: the history before the last
      message, and the last message's text. */
  function TurnOf(messages: seq<Message>): (t: ChatTurn)
    requires |messages| > 0
    ensures t.message == messages[|messages| - 1].content
    ensures |t.history| == |messages| - 1
  {
    ChatTurn(History(messages), messages[|messages| - 1].content)
  }

  /** A chat turn. The system prompt is accepted and ignored. An empty
      conversation has no last message to send and fails like every other
      error, with the fixed chat failure. */
  function GenerateChat(cache: ClientCache, envKey: string, messages: seq<Message>,
                        systemPrompt: Option<string>, send: ChatTurn -> Result<string>): (r: Outcome)
    ensures var (client, cache') := GetClient(cache, envKey, MissingKey);
            && r.cache == cache'
            && (r.result.Ok? <==> client.Ok? && |messages| > 0 && send(TurnOf(messages)).Ok?)
            && (r.result.Ok? ==> r.result.value == send(TurnOf(messages)).value)
    ensures r.result.Err? ==> r.result.message == ChatFailure
  {
    var (client, cache') := GetClient(cache, envKey, MissingKey);
    if client.Err? || |messages| == 0 then Outcome(Err(ChatFailure), cache')
    else match send(TurnOf(messages))
      case Ok(text) => Outcome(Ok(text), cache')
      case Err(_) => Outcome(Err(ChatFailure), cache')
  }

  /** The system prompt has no effect on a chat turn. */
  lemma SystemPromptIgnored(cache: ClientCache, envKey: string, messages: seq<Message>,
                            p1: Option<string>, p2: Option<string>, send: ChatTurn -> Result<string>)
    ensures GenerateChat(cache, envKey, messages, p1, send) == GenerateChat(cache, envKey, messages, p2, send)
  {
  }

  /** The history and the sent message together carry every message's text,
      in order. */
  lemma TurnCarriesConversation(messages: seq<Message>)
    requires |messages| > 0
    ensures var t := TurnOf(messages);
            forall i :: 0 <= i < |messages| ==>
              messages[i].content == (if i < |t.history| then t.history[i].text else t.message)
  {
  }

  /** Without a key neither call reaches the backend, so its replies do not
      matter, and no client is created. */
  lemma MissingKeyNeverCallsBackend(prompt: string, messages: seq<Message>, systemPrompt: Option<string>,
                                    generate1: string -> Result<string>, generate2: string -> Result<string>,
                                    send1: ChatTurn -> Result<string>, send2: ChatTurn -> Result<string>)
    ensures GenerateContent(NoClient, "", prompt, generate1) == GenerateContent(NoClient, "", prompt, generate2)
            == Outcome(Err(ContentFailure), NoClient)
    ensures GenerateChat(NoClient, "", messages, systemPrompt, send1) == GenerateChat(NoClient, "", messages, systemPrompt, send2)
            == Outcome(Err(ChatFailure), NoClient)
  {
  }
}
