/** `generateResponse` of src/ai/openai.ts: the general-purpose AI reply.
    It refuses to run without a client, sends the optional operator system
    prompt followed by the caller's prompt, and returns the trimmed reply. */
module Responder {
  import opened Outcomes
  import opened JsBuiltins
  import opened ChatApi

  /** The message list: the system prompt when one is configured, then the user prompt. */
  function ResponderMessages(systemPrompt: string, prompt: string): (ms: seq<ChatMessage>)
    ensures 1 <= |ms| <= 2
    ensures ms[|ms| - 1] == ChatMessage(User, prompt)
    ensures ms[0].role == System <==> systemPrompt != ""
    ensures ms[0].role == System ==> ms[0].content == systemPrompt
    ensures forall i :: 0 <= i < |ms| - 1 ==> ms[i].role == System
  {
    (if systemPrompt != "" then [ChatMessage(System, systemPrompt)] else [])
    + [ChatMessage(User, prompt)]
  }

  /** `generateResponse(prompt)` against configuration `cfg`, where `reply`
      is what the service answers to the request. */
  function GenerateResponse(cfg: AiConfig, prompt: string, reply: ServiceReply): (r: Call<string>)
    ensures !HasClient(cfg) <==> r.NotConfigured?
    ensures r.Unavailable? <==> HasClient(cfg) && reply.ServiceFailed?
    ensures !r.NotConfigured? ==>
              r.request.model == ModelName && r.request.messages == ResponderMessages(cfg.systemPrompt, prompt)
    ensures r.Answered? ==> Trimmed(r.value) && (reply.content.None? ==> r.value == "")
  {
    if !HasClient(cfg) then NotConfigured
    else
      var request := ChatRequest(ModelName, ResponderMessages(cfg.systemPrompt, prompt));
      match reply
      case ServiceFailed => Unavailable(request)
      case Replied(content) => Answered(request, ReplyText(content))
  }

  /** A reply that is already trimmed comes back unchanged, and any amount of
      surrounding whitespace is removed. */
  lemma GenerateResponseReturnsTrimmedReply(cfg: AiConfig, prompt: string, pre: string, text: string, post: string)
    requires HasClient(cfg)
    requires AllWhitespace(pre) && AllWhitespace(post) && Trimmed(text)
    ensures GenerateResponse(cfg, prompt, Replied(Some(pre + text + post))) ==
      Answered(ChatRequest(ModelName, ResponderMessages(cfg.systemPrompt, prompt)), text)
  {
    TrimPadded(pre, text, post);
  }
}
