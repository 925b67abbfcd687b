/** The OpenAI wrapper: a lazily created client, one-shot generation with a
    fixed system instruction, and a chat call that converts the conversation
    to OpenAI's three roles. Errors are rethrown unchanged; an empty reply is
    an error of its own. The SDK is the parameter `complete`, from the
    messages sent to the completion received. */
module OpenAI {
  import opened Common

  const ModelName: string := "gpt-4o-mini"
  const MaxTokens: int := 1000
  /** The environment variable holding the key. */
  const KeyName: string := "OPENAI_API_KEY"
  const MissingKey: string := KeyName + " is not defined in environment variables"
  const EmptyResponse: string := "Empty response from OpenAI"
  const SystemInstruction: string :=
    "You are a knowledgeable and respectful "
    + "scripture study companion for the Book "
    + "of Mormon."

  datatype Role = System | User | Assistant

  datatype ChatMessage = ChatMessage(role: Role, content: string)

  /** What the completion call settles to: the content of the first choice
      (`None` when there is no choice or no content), or the SDK's failure. */
  datatype Completion = Completion(firstContent: Option<string>) | ApiFailure(message: string)

  /** The reply text of a completion; a missing or empty reply is an error. */
  function Respond(c: Completion): (r: Result<string>)
    ensures r.Ok? <==> c.Completion? && c.firstContent.Some? && c.firstContent.value != ""
    ensures r.Ok? ==> r.value == c.firstContent.value && r.value != ""
    ensures c.Completion? && r.Err? ==> r.message == EmptyResponse
    ensures c.ApiFailure? ==> r == Err(c.message)
  {
    match c
    case ApiFailure(m) => Err(m)
    case Completion(Some(s)) => if s == "" then Err(EmptyResponse) else Ok(s)
    case Completion(None) => Err(EmptyResponse)
  }

  /** The messages a one-shot generation sends. */
  function ContentRequest(prompt: string): (m: seq<ChatMessage>)
    ensures |m| == 2 && m[0] == ChatMessage(System, SystemInstruction) && m[1] == ChatMessage(User, prompt)
  {
    [ChatMessage(System, SystemInstruction), ChatMessage(User, prompt)]
  }

  /** One-shot generation: the key check first, then the completion. */
  function GenerateContentWithOpenAI(cache: ClientCache, envKey: string, prompt: string,
                                     complete: seq<ChatMessage> -> Completion): (r: Outcome)
    ensures var (client, cache') := GetClient(cache, envKey, MissingKey);
            && r.cache == cache'
            && (client.Err? ==> r.result == Err(MissingKey))
            && (client.Ok? ==> r.result == Respond(complete(ContentRequest(prompt))))
  {
    var (client, cache') := GetClient(cache, envKey, MissingKey);
    if client.Err? then Outcome(Err(MissingKey), cache')
    else Outcome(Respond(complete(ContentRequest(prompt))), cache')
  }

  /** A message's OpenAI role: "user" is the user, "assistant" and "model"
      the assistant; any other role is dropped. */
  function ConvertRole(role: string): (r: Option<Role>)
    ensures r == Some(User) <==> role == "user"
    ensures r == Some(Assistant) <==> role == "assistant" || role == "model"
    ensures r.None? <==> role != "user" && role != "assistant" && role != "model"
  {
    if role == "user" then Some(User)
    else if role == "assistant" || role == "model" then Some(Assistant)
    else None
  }

  /** The conversation filtered to the messages whose role converts, in order
      (the reference for the conversion loop). */
  function Kept(messages: seq<Message>): (k: seq<ChatMessage>)
    ensures |k| <= |messages|
    decreases |messages|
  {
    if |messages| == 0 then []
    else
      var rest := Kept(messages[1..]);
      match ConvertRole(messages[0].role)
      case Some(role) => [ChatMessage(role, messages[0].content)] + rest
      case None => rest
  }

  /** The leading system message, present only for a truthy system prompt. */
  function SystemPrefix(systemPrompt: Option<string>): (p: seq<ChatMessage>)
    ensures |p| <= 1
    ensures |p| == 1 <==> systemPrompt.Some? && systemPrompt.value != ""
    ensures |p| == 1 ==> p[0] == ChatMessage(System, systemPrompt.value)
  {
    match systemPrompt
    case Some(s) => if s != "" then [ChatMessage(System, s)] else []
    case None => []
  }

  /** Filtering distributes over concatenation. */
  lemma {:induction false} KeptAppend(xs: seq<Message>, ys: seq<Message>)
    ensures Kept(xs + ys) == Kept(xs) + Kept(ys)
    decreases |xs|
  {
    if |xs| > 0 {
      assert (xs + ys)[1..] == xs[1..] + ys;
      assert (xs + ys)[0] == xs[0];
      KeptAppend(xs[1..], ys);
    } else {
      assert xs + ys == ys;
    }
  }

  /** The conversion loop: the system prompt if truthy, then each message whose
      role converts. */
  method ConvertMessages(messages: seq<Message>, systemPrompt: Option<string>) returns (out: seq<ChatMessage>)
    ensures out == SystemPrefix(systemPrompt) + Kept(messages)
  {
    out := [];
    if systemPrompt.Some? && systemPrompt.value != "" {
      out := out + [ChatMessage(System, systemPrompt.value)];
    }
    for i := 0 to |messages|
      invariant out == SystemPrefix(systemPrompt) + Kept(messages[..i])
    {
      var msg := messages[i];
      KeptStep(messages, i);
      ghost var before := out;
      if msg.role == "user" {
        out := out + [ChatMessage(User, msg.content)];
      } else if msg.role == "assistant" || msg.role == "model" {
        out := out + [ChatMessage(Assistant, msg.content)];
      }
      assert out == before + Kept([msg]);
    }
    assert messages[..|messages|] == messages;
  }

  /** One more message extends the filtered prefix by its conversion, if any. */
  lemma KeptStep(messages: seq<Message>, i: int)
    requires 0 <= i < |messages|
    ensures Kept(messages[..i + 1]) == Kept(messages[..i]) + Kept([messages[i]])
    ensures Kept([messages[i]]) == match ConvertRole(messages[i].role)
                                   case Some(r) => [ChatMessage(r, messages[i].content)]
                                   case None => []
  {
    KeptAppend(messages[..i], [messages[i]]);
    assert messages[..i + 1] == messages[..i] + [messages[i]];
    assert [messages[i]][1..] == [];
  }

  /** `m` is the conversion of the message at index `j`. */
  predicate ConvertedFrom(messages: seq<Message>, m: ChatMessage, j: int)
  {
    0 <= j < |messages| && ConvertRole(messages[j].role) == Some(m.role) && m.content == messages[j].content
  }

  /** Every kept message is the conversion of some message of the
      conversation, so none of them is a system message: a "system" message
      is dropped. */
  lemma {:induction false} KeptComesFromConversation(messages: seq<Message>)
    ensures forall i :: 0 <= i < |Kept(messages)| ==>
              Kept(messages)[i].role != System && exists j :: ConvertedFrom(messages, Kept(messages)[i], j)
    decreases |messages|
  {
    if |messages| > 0 {
      var rest := messages[1..];
      KeptComesFromConversation(rest);
      forall i | 0 <= i < |Kept(messages)|
        ensures Kept(messages)[i].role != System && exists j :: ConvertedFrom(messages, Kept(messages)[i], j)
      {
        var k := Kept(messages);
        if ConvertRole(messages[0].role).Some? && i == 0 {
          assert ConvertedFrom(messages, k[0], 0);
        } else {
          var i' := if ConvertRole(messages[0].role).Some? then i - 1 else i;
          assert k[i] == Kept(rest)[i'];
          var j :| ConvertedFrom(rest, Kept(rest)[i'], j);
          assert ConvertedFrom(messages, k[i], j + 1);
        }
      }
    }
  }

  /** When every role converts, nothing is dropped and each message keeps its
      place. */
  lemma {:induction false} KeptAllKnown(messages: seq<Message>)
    requires forall i :: 0 <= i < |messages| ==> ConvertRole(messages[i].role).Some?
    ensures |Kept(messages)| == |messages|
    ensures forall i :: 0 <= i < |messages| ==>
              Kept(messages)[i] == ChatMessage(ConvertRole(messages[i].role).value, messages[i].content)
    decreases |messages|
  {
    if |messages| > 0 {
      KeptAllKnown(messages[1..]);
    }
  }

  /** Among mixed roles, a message whose role converts is kept in its place
      between what is kept before and after it, and any other message is
      dropped without disturbing the rest. */
  lemma KeptInPlace(xs: seq<Message>, m: Message, ys: seq<Message>)
    ensures ConvertRole(m.role).Some? ==>
              Kept(xs + [m] + ys) == Kept(xs) + [ChatMessage(ConvertRole(m.role).value, m.content)] + Kept(ys)
    ensures ConvertRole(m.role).None? ==> Kept(xs + [m] + ys) == Kept(xs) + Kept(ys)
  {
    KeptAppend(xs + [m], ys);
    KeptAppend(xs, [m]);
    assert [m][1..] == [];
  }

  /** The request a chat call sends starts with the system message exactly
      when the system prompt is truthy, and is otherwise the kept messages. */
  lemma ChatRequestShape(messages: seq<Message>, systemPrompt: Option<string>)
    ensures var req := SystemPrefix(systemPrompt) + Kept(messages);
            && (|req| > 0 && req[0].role == System <==> systemPrompt.Some? && systemPrompt.value != "")
            && |req| == |SystemPrefix(systemPrompt)| + |Kept(messages)|
  {
    var req := SystemPrefix(systemPrompt) + Kept(messages);
    KeptComesFromConversation(messages);
    if !(systemPrompt.Some? && systemPrompt.value != "") && |req| > 0 {
      assert req[0] == Kept(messages)[0];
    }
  }

  /** A chat call: the key check first, then the converted conversation. */
  method GenerateChatWithOpenAI(cache: ClientCache, envKey: string, messages: seq<Message>,
                                systemPrompt: Option<string>, complete: seq<ChatMessage> -> Completion)
    returns (r: Outcome)
    ensures var (client, cache') := GetClient(cache, envKey, MissingKey);
            && r.cache == cache'
            && (client.Err? ==> r.result == Err(MissingKey))
            && (client.Ok? ==> r.result == Respond(complete(SystemPrefix(systemPrompt) + Kept(messages))))
  {
    var (client, cache') := GetClient(cache, envKey, MissingKey);
    if client.Err? {
      return Outcome(Err(MissingKey), cache');
    }
    var request := ConvertMessages(messages, systemPrompt);
    r := Outcome(Respond(complete(request)), cache');
  }
}
