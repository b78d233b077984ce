/** The chat-completions exchange both AI helpers perform: the request they
    build, the reply the external judgment service gives back, and how the
    reply text is read out of it. The service itself is an oracle: its answer
    is a parameter, never computed here. */
module ChatApi {
  import opened Outcomes
  import opened JsBuiltins

  /** The model both helpers ask for. */
  const ModelName: string := "gpt-4o-mini"

  datatype Role = System | User

  datatype ChatMessage = ChatMessage(role: Role, content: string)

  datatype ChatRequest = ChatRequest(model: string, messages: seq<ChatMessage>)

  /** The `ai` section of the configuration: the credential and the optional
      operator-supplied system prompt (both `''` when unset). */
  datatype AiConfig = AiConfig(apiKey: string, systemPrompt: string)

  /** A client is created at module load exactly when the key is truthy. */
  predicate HasClient(cfg: AiConfig) {
    cfg.apiKey != ""
  }

  /** What the service does with a request: it throws (network failure,
      timeout, rejected request), or it returns a completion whose first
      choice may or may not carry message content. */
  datatype ServiceReply = ServiceFailed | Replied(content: Option<string>)

  /** The outcome of one AI helper call. `NotConfigured` is the error thrown
      before any request exists; `Unavailable` is the service's own failure,
      after the request was sent; `Answered` carries the request and the value
      read from the reply. */
  datatype Call<+T> =
    | NotConfigured
    | Unavailable(request: ChatRequest)
    | Answered(request: ChatRequest, value: T)
  {
    /** The request that reached the service, if one did. */
    function Sent(): Option<ChatRequest> {
      if NotConfigured? then None else Some(request)
    }
  }

  /** `chat.choices[0]?.message?.content?.trim() || ''`. */
  function ReplyText(content: Option<string>): (r: string)
    ensures Trimmed(r)
    ensures content.None? ==> r == ""
    ensures content.Some? ==> r == Trim(content.value)
    ensures content.Some? && Trimmed(content.value) ==> r == content.value
    ensures content.Some? && AllWhitespace(content.value) ==> r == ""
  {
    match content
    case None => ""
    case Some(c) =>
      assert Trimmed(c) ==> Trim(c) == c by {
        if Trimmed(c) { TrimOfTrimmed(c); }
      }
      assert AllWhitespace(c) ==> Trim(c) == "" by {
        if AllWhitespace(c) { assert c + "" + "" == c; TrimPadded(c, "", ""); }
      }
      Trim(c)
  }
}
