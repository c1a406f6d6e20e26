/**
 * `AIService.chat` (server/aiService.ts): which integration a model's name selects, what each
 * integration does without its API key, the catch-all fallback to a canned demo reply, the shape
 * of the requests sent to the providers, and the demo reply itself.
 *
 * Nothing here talks to a network. Whether each API key is set is an input (`Keys`), and so is
 * what the one provider call a request can make came back with (`CallOutcome`): a reply text, or a
 * failure of any kind (the fetch rejected, the status was not ok, or the body could not be read).
 * The demo reply's template is chosen by `Math.random`; here the choice is the input `pick`.
 */
module AiService {
  import opened Wrappers
  import opened Text
  import opened Schema

  datatype ChatRole = UserRole | AssistantRole | SystemRole

  datatype ChatMessage = ChatMessage(role: ChatRole, content: string)

  datatype ChatResponse = ChatResponse(content: string, model: string)

  /** The two fields of a model the demo reply reads. */
  datatype Persona = Persona(name: string, displayName: string)

  /** Which provider API keys the environment holds. */
  datatype Keys = Keys(deepSeek: bool, qwen: bool, glm: bool, huggingFace: bool, openAi: bool, anthropic: bool)

  /** What the provider call of a request came back with. */
  datatype CallOutcome = Replied(text: string) | CallFailed

  /** How the promise `chat` returns settles: with a response, or rejected. */
  datatype ChatResult = Answered(response: ChatResponse) | Rejected

  function PersonaOf(m: AiModel): Persona {
    Persona(m.name, m.displayName)
  }

  // ---------------------------------------------------------------------------------------------
  // The demo reply

  /** What follows every demo reply. */
  const DemoNotice := "\n\n注意：这是演示回复。要使用真实AI模型，请配置相应的API密钥。"

  // The fixed text around the display name and the quoted last message in each template.
  const Lead0 := "我是"
  const Mid0 := "，您好！我收到了您的问题：\""
  const Tail0 := "\"。"
  const Lead1 := "作为"
  const Tail1 := "，我很高兴为您服务。关于您的问题，我建议..."
  const Mid2 := "为您分析：您提到的\""
  const Tail2 := "\"是一个很有意思的话题。"
  const Lead3 := "感谢您选择"
  const Mid3 := "！我理解您想了解关于\""
  const Tail3 := "\"的信息。"

  /** The four demo templates, filled with the display name `d` and the last message `last`. */
  function Template(pick: nat, d: string, last: string): string
    requires pick < 4
  {
    if pick == 0 then Lead0 + d + Mid0 + last + Tail0
    else if pick == 1 then Lead1 + d + Tail1
    else if pick == 2 then d + Mid2 + last + Tail2
    else Lead3 + d + Mid3 + last + Tail3
  }

  /**
   * `mockResponse(model, messages)`: the picked template followed by the notice, labelled with the
   * model's name. Reading the last message of an empty list throws: `None`.
   */
  function MockResponse(model: Persona, messages: seq<ChatMessage>, pick: nat): Option<ChatResponse>
    requires pick < 4
  {
    if messages == [] then None
    else Some(ChatResponse(Template(pick, model.displayName, messages[|messages| - 1].content) + DemoNotice, model.name))
  }

  /** Both filled-in parts of a five-piece template occur in the reply built from it. */
  lemma {:induction false} InnerPartsOccur(a: string, b: string, c: string, d: string, e: string, f: string)
    ensures Contains(a + b + c + d + e + f, b) && Contains(a + b + c + d + e + f, d)
  {
    var s := a + b + c + d + e + f;
    assert s[|a|..|a| + |b|] == b;
    assert OccursAt(s, b, |a|);
    assert s[|a| + |b| + |c|..|a| + |b| + |c| + |d|] == d;
    assert OccursAt(s, d, |a| + |b| + |c|);
  }

  /** The same for a template that opens with the display name. */
  lemma {:induction false} LeadingPartsOccur(b: string, c: string, d: string, e: string, f: string)
    ensures Contains(b + c + d + e + f, b) && Contains(b + c + d + e + f, d)
  {
    var s := b + c + d + e + f;
    assert s[..|b|] == b;
    assert OccursAt(s, b, 0);
    assert s[|b| + |c|..|b| + |c| + |d|] == d;
    assert OccursAt(s, d, |b| + |c|);
  }

  /** The display name occurs in the one template that does not quote the message. */
  lemma {:induction false} NameOccurs(a: string, b: string, c: string, f: string)
    ensures Contains(a + b + c + f, b)
  {
    var s := a + b + c + f;
    assert s[|a|..|a| + |b|] == b;
    assert OccursAt(s, b, |a|);
  }

  /** What a filled-in template followed by the notice contains. */
  lemma {:induction false} TemplateMentions(pick: nat, d: string, last: string)
    requires pick < 4
    ensures Contains(Template(pick, d, last) + DemoNotice, d)
    ensures pick != 1 ==> Contains(Template(pick, d, last) + DemoNotice, last)
  {
    if pick == 0 {
      InnerPartsOccur(Lead0, d, Mid0, last, Tail0, DemoNotice);
    } else if pick == 1 {
      NameOccurs(Lead1, d, Tail1, DemoNotice);
    } else if pick == 2 {
      LeadingPartsOccur(d, Mid2, last, Tail2, DemoNotice);
    } else {
      InnerPartsOccur(Lead3, d, Mid3, last, Tail3, DemoNotice);
    }
  }

  /**
   * The demo reply always names the model, quotes the last message in every template but the
   * second, ends with the notice and is labelled with the model's name; it fails exactly on an
   * empty message list.
   */
  lemma MockResponseContent(model: Persona, messages: seq<ChatMessage>, pick: nat)
    requires pick < 4
    ensures MockResponse(model, messages, pick).None? <==> messages == []
    ensures messages != [] ==>
              var r := MockResponse(model, messages, pick).value;
              var last := messages[|messages| - 1].content;
              && Contains(r.content, model.displayName)
              && (pick != 1 ==> Contains(r.content, last))
              && |r.content| >= |DemoNotice|
              && r.content[|r.content| - |DemoNotice|..] == DemoNotice
              && r.model == model.name
  {
    if messages != [] {
      var t := Template(pick, model.displayName, messages[|messages| - 1].content);
      TemplateMentions(pick, model.displayName, messages[|messages| - 1].content);
      assert (t + DemoNotice)[|t|..] == DemoNotice;
    }
  }

  // ---------------------------------------------------------------------------------------------
  // Request shaping

  /** The body posted to an OpenAI-style chat completion endpoint (the temperature 0.7 is not modelled). */
  datatype CompletionRequest = CompletionRequest(model: string, messages: seq<ChatMessage>, maxTokens: int)

  /** The body posted to Anthropic's messages endpoint. */
  datatype ClaudeRequest = ClaudeRequest(model: string, maxTokens: int, messages: seq<ChatMessage>, system: Option<string>)

  const MaxTokens := 1000

  /** `messages.filter(msg => msg.role !== 'system')`. */
  function WithoutSystem(s: seq<ChatMessage>): (r: seq<ChatMessage>)
    ensures |r| <= |s|
    decreases |s|
  {
    if s == [] then []
    else (if s[0].role == SystemRole then [] else [s[0]]) + WithoutSystem(s[1..])
  }

  /** The filter keeps exactly the entries that are not system entries. */
  lemma {:induction false} WithoutSystemMembers(s: seq<ChatMessage>)
    ensures forall m :: m in WithoutSystem(s) <==> m in s && m.role != SystemRole
    decreases |s|
  {
    if s != [] {
      WithoutSystemMembers(s[1..]);
      assert s == [s[0]] + s[1..];
    }
  }

  /** Filtering a concatenation filters each part and keeps them in order. */
  lemma {:induction false} WithoutSystemAppend(a: seq<ChatMessage>, b: seq<ChatMessage>)
    ensures WithoutSystem(a + b) == WithoutSystem(a) + WithoutSystem(b)
    decreases |a|
  {
    if a == [] {
      assert a + b == b;
    } else {
      var h := if a[0].role == SystemRole then [] else [a[0]];
      assert (a + b)[0] == a[0];
      assert (a + b)[1..] == a[1..] + b;
      WithoutSystemAppend(a[1..], b);
      calc {
        WithoutSystem(a + b);
        h + WithoutSystem(a[1..] + b);
        h + (WithoutSystem(a[1..]) + WithoutSystem(b));
        (h + WithoutSystem(a[1..])) + WithoutSystem(b);
        WithoutSystem(a) + WithoutSystem(b);
      }
    }
  }

  /** A conversation with no system entry is sent unchanged, in its order. */
  lemma {:induction false} WithoutSystemKeepsPlain(s: seq<ChatMessage>)
    requires forall i :: 0 <= i < |s| ==> s[i].role != SystemRole
    ensures WithoutSystem(s) == s
    decreases |s|
  {
    if s != [] {
      WithoutSystemKeepsPlain(s[1..]);
    }
  }

  /** `i` is the position of the first system entry of `s`. */
  predicate FirstSystemAt(s: seq<ChatMessage>, i: int) {
    0 <= i < |s| && s[i].role == SystemRole && forall j :: 0 <= j < i ==> s[j].role != SystemRole
  }

  /** `messages.find(msg => msg.role === 'system')?.content`. */
  function FirstSystem(s: seq<ChatMessage>): (r: Option<string>)
    ensures r.None? <==> forall i :: 0 <= i < |s| ==> s[i].role != SystemRole
    ensures r.Some? ==> exists i :: FirstSystemAt(s, i) && s[i].content == r.value
    decreases |s|
  {
    if s == [] then None
    else if s[0].role == SystemRole then
      assert FirstSystemAt(s, 0);
      Some(s[0].content)
    else
      var r := FirstSystem(s[1..]);
      if r.Some? then
        var i :| FirstSystemAt(s[1..], i) && s[1..][i].content == r.value;
        assert FirstSystemAt(s, i + 1);
        r
      else r
  }

  function DeepSeekRequest(messages: seq<ChatMessage>): CompletionRequest {
    CompletionRequest("deepseek-chat", messages, MaxTokens)
  }

  function OpenAiRequest(messages: seq<ChatMessage>, model: string): CompletionRequest {
    CompletionRequest(model, messages, MaxTokens)
  }

  function ClaudeRequestFor(messages: seq<ChatMessage>): ClaudeRequest {
    ClaudeRequest("claude-3-haiku-20240307", MaxTokens, WithoutSystem(messages), FirstSystem(messages))
  }

  /**
   * The Claude request carries the conversation without its system entries, in order, and the
   * first system entry's text (if any) as its `system` field; the completion endpoints get the
   * conversation unchanged.
   */
  lemma ClaudeRequestShape(messages: seq<ChatMessage>, model: string)
    ensures var q := ClaudeRequestFor(messages);
            && q.model == "claude-3-haiku-20240307" && q.maxTokens == MaxTokens
            && (forall m :: m in q.messages <==> m in messages && m.role != SystemRole)
            && (q.system.None? <==> forall i :: 0 <= i < |messages| ==> messages[i].role != SystemRole)
            && (q.system.Some? ==> exists i :: FirstSystemAt(messages, i) && messages[i].content == q.system.value)
            && (q.system.None? ==> q.messages == messages)
            && q.messages == WithoutSystem(messages)
    ensures DeepSeekRequest(messages).messages == messages && OpenAiRequest(messages, model).messages == messages
    ensures OpenAiRequest(messages, model).model == model
  {
    WithoutSystemMembers(messages);
    if FirstSystem(messages).None? {
      WithoutSystemKeepsPlain(messages);
    }
  }

  // ---------------------------------------------------------------------------------------------
  // The integrations and the dispatch. `None` stands for a thrown error.

  const DeepSeekPersona := Persona("deepseek-chat", "深度求索DeepSeek")
  const QwenPersona := Persona("qwen2.5-72b", "通义千问Qwen2.5")
  const GlmPersona := Persona("glm-4-9b", "智谱清言GLM-4")
  const LlamaPersona := Persona("llama3.1-8b", "美洲驼Llama3.1")
  const ClaudePersona := Persona("claude-3-haiku", "凤凰Claude Haiku")
  const OpenAiDisplayName := "龙神GPT-4o Mini"

  /** `callDeepSeek`: the demo reply without a key; otherwise the provider's text, or a throw. */
  function CallDeepSeek(messages: seq<ChatMessage>, keys: Keys, outcome: CallOutcome, pick: nat): Option<ChatResponse>
    requires pick < 4
  {
    if !keys.deepSeek then MockResponse(DeepSeekPersona, messages, pick)
    else
      match outcome
      case Replied(text) => Some(ChatResponse(text, "deepseek-chat"))
      case CallFailed => None
  }

  /** `callQwen`, `callGLM` and `callLlama`: the demo reply, with or without a key. */
  function CallStub(persona: Persona, messages: seq<ChatMessage>, pick: nat): Option<ChatResponse>
    requires pick < 4
  {
    MockResponse(persona, messages, pick)
  }

  /** `callOpenAI(messages, model)`. */
  function CallOpenAi(messages: seq<ChatMessage>, model: string, keys: Keys, outcome: CallOutcome, pick: nat)
    : Option<ChatResponse>
    requires pick < 4
  {
    if !keys.openAi then MockResponse(Persona(model, OpenAiDisplayName), messages, pick)
    else
      match outcome
      case Replied(text) => Some(ChatResponse(text, model))
      case CallFailed => None
  }

  /** `callClaude`: the reply is labelled with the short name, not the dated id the request names. */
  function CallClaude(messages: seq<ChatMessage>, keys: Keys, outcome: CallOutcome, pick: nat): Option<ChatResponse>
    requires pick < 4
  {
    if !keys.anthropic then MockResponse(ClaudePersona, messages, pick)
    else
      match outcome
      case Replied(text) => Some(ChatResponse(text, "claude-3-haiku"))
      case CallFailed => None
  }

  /** The body of the `try`: the `switch` on the exact model name. */
  function Attempt(model: AiModel, messages: seq<ChatMessage>, keys: Keys, outcome: CallOutcome, pick: nat)
    : Option<ChatResponse>
    requires pick < 4
  {
    if model.name == "deepseek-chat" then CallDeepSeek(messages, keys, outcome, pick)
    else if model.name == "qwen2.5-72b" then CallStub(QwenPersona, messages, pick)
    else if model.name == "glm-4-9b" then CallStub(GlmPersona, messages, pick)
    else if model.name == "llama3.1-8b" then CallStub(LlamaPersona, messages, pick)
    else if model.name == "gpt-4o-mini" then CallOpenAi(messages, "gpt-4o-mini", keys, outcome, pick)
    else if model.name == "claude-3-haiku" then CallClaude(messages, keys, outcome, pick)
    else MockResponse(PersonaOf(model), messages, pick)
  }

  /**
   * `chat(model, messages)`: the attempt, and when it throws, the demo reply of the model asked
   * for; when that throws too the promise is rejected. (The demo reply can only throw on an empty
   * list, so a single template choice covers both places it may be built.)
   */
  function Chat(model: AiModel, messages: seq<ChatMessage>, keys: Keys, outcome: CallOutcome, pick: nat): ChatResult
    requires pick < 4
  {
    match Attempt(model, messages, keys, outcome, pick)
    case Some(r) => Answered(r)
    case None =>
      match MockResponse(PersonaOf(model), messages, pick)
      case Some(r) => Answered(r)
      case None => Rejected
  }

  /** The six names `chat` dispatches on. */
  const IntegratedNames: seq<string> := ["deepseek-chat", "qwen2.5-72b", "glm-4-9b", "llama3.1-8b", "gpt-4o-mini", "claude-3-haiku"]

  /** The demo reply as `chat` settles with it. */
  function Settled(r: Option<ChatResponse>): ChatResult {
    match r
    case Some(x) => Answered(x)
    case None => Rejected
  }

  /** Any name outside the six, compared exactly, gets the demo reply of the model itself. */
  lemma OtherNamesGetMock(model: AiModel, messages: seq<ChatMessage>, keys: Keys, outcome: CallOutcome, pick: nat)
    requires pick < 4 && model.name !in IntegratedNames
    ensures Chat(model, messages, keys, outcome, pick) == Settled(MockResponse(PersonaOf(model), messages, pick))
  {
  }

  /**
   * None of the six names the database is seeded with is one of the six integrations, so a seeded
   * model always gets the demo reply of itself.
   */
  lemma SeededModelsGetMock(model: AiModel, messages: seq<ChatMessage>, keys: Keys, outcome: CallOutcome, pick: nat)
    requires pick < 4
    requires model.name in ["gpt-4", "claude", "gemini", "dall-e", "midjourney", "codex"]
    ensures Chat(model, messages, keys, outcome, pick) == Settled(MockResponse(PersonaOf(model), messages, pick))
  {
    OtherNamesGetMock(model, messages, keys, outcome, pick);
  }

  /**
   * A real integration with its key whose call fails falls back to the demo reply of the model
   * asked for, under that model's own display name.
   */
  lemma FailureFallsBack(model: AiModel, messages: seq<ChatMessage>, keys: Keys, pick: nat)
    requires pick < 4
    requires || (model.name == "deepseek-chat" && keys.deepSeek)
             || (model.name == "gpt-4o-mini" && keys.openAi)
             || (model.name == "claude-3-haiku" && keys.anthropic)
    ensures Chat(model, messages, keys, CallFailed, pick) == Settled(MockResponse(PersonaOf(model), messages, pick))
  {
  }

  /**
   * A real integration with its key whose call succeeds answers with the provider's text, labelled
   * "deepseek-chat", the id passed to OpenAI, or "claude-3-haiku" (which differs from the id the
   * Claude request names).
   */
  lemma ProviderReplyLabels(model: AiModel, messages: seq<ChatMessage>, keys: Keys, text: string, pick: nat)
    requires pick < 4
    ensures model.name == "deepseek-chat" && keys.deepSeek ==>
              Chat(model, messages, keys, Replied(text), pick) == Answered(ChatResponse(text, "deepseek-chat"))
    ensures model.name == "gpt-4o-mini" && keys.openAi ==>
              Chat(model, messages, keys, Replied(text), pick) == Answered(ChatResponse(text, "gpt-4o-mini"))
    ensures model.name == "claude-3-haiku" && keys.anthropic ==>
              && Chat(model, messages, keys, Replied(text), pick) == Answered(ChatResponse(text, "claude-3-haiku"))
              && ClaudeRequestFor(messages).model != "claude-3-haiku"
  {
  }

  /**
   * Without its key each integration answers with its own hard-coded demo persona, and Qwen, GLM
   * and Llama do so even with a key; the provider is never called.
   */
  lemma KeyAbsentPersonas(model: AiModel, messages: seq<ChatMessage>, keys: Keys, outcome: CallOutcome, pick: nat)
    requires pick < 4
    ensures model.name == "deepseek-chat" && !keys.deepSeek ==>
              Chat(model, messages, keys, outcome, pick) == Chat(model, messages, keys, CallFailed, pick)
              && (messages != [] ==> Chat(model, messages, keys, outcome, pick) == Settled(MockResponse(DeepSeekPersona, messages, pick)))
    ensures model.name == "qwen2.5-72b" && messages != [] ==>
              Chat(model, messages, keys, outcome, pick) == Settled(MockResponse(QwenPersona, messages, pick))
    ensures model.name == "glm-4-9b" && messages != [] ==>
              Chat(model, messages, keys, outcome, pick) == Settled(MockResponse(GlmPersona, messages, pick))
    ensures model.name == "llama3.1-8b" && messages != [] ==>
              Chat(model, messages, keys, outcome, pick) == Settled(MockResponse(LlamaPersona, messages, pick))
    ensures model.name == "gpt-4o-mini" && !keys.openAi && messages != [] ==>
              Chat(model, messages, keys, outcome, pick)
                == Settled(MockResponse(Persona("gpt-4o-mini", OpenAiDisplayName), messages, pick))
    ensures model.name == "claude-3-haiku" && !keys.anthropic && messages != [] ==>
              Chat(model, messages, keys, outcome, pick) == Settled(MockResponse(ClaudePersona, messages, pick))
  {
  }

  /**
   * With no messages `chat` can only answer through a provider that is called and replies; every
   * path through the demo reply rejects.
   */
  lemma EmptyConversation(model: AiModel, keys: Keys, outcome: CallOutcome, pick: nat)
    requires pick < 4
    ensures Chat(model, [], keys, outcome, pick).Answered? <==>
              && outcome.Replied?
              && (|| (model.name == "deepseek-chat" && keys.deepSeek)
                  || (model.name == "gpt-4o-mini" && keys.openAi)
                  || (model.name == "claude-3-haiku" && keys.anthropic))
  {
  }

  /** With at least one message `chat` always answers, whatever the keys and the provider do. */
  lemma ChatAnswers(model: AiModel, messages: seq<ChatMessage>, keys: Keys, outcome: CallOutcome, pick: nat)
    requires pick < 4 && messages != []
    ensures Chat(model, messages, keys, outcome, pick).Answered?
  {
  }
}
