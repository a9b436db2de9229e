/**
 * The Gemini provider's translation layer: OpenAI-style messages become
 * Gemini chat turns plus a system instruction, the conversation is split
 * into a history and the message to send, and the SDK's response is shaped
 * back into the OpenAI-style result dictionary. The SDK call itself is a
 * function parameter.
 */
module GeminiProvider {
  import opened Wrappers
  import opened Sequences
  import opened Strings
  import opened Chat
  import ToolClassifier

  /** `{"role": role, "parts": parts}`. */
  datatype GeminiMessage = GeminiMessage(role: string, parts: seq<string>)

  // ------------------------------------------------------ message format

  /** The chat turns the conversion produces for `ms`: user turns stay, assistant turns become model turns. */
  function GeminiMessages(ms: seq<ChatMessage>): (r: seq<GeminiMessage>)
    ensures |r| <= |ms|
    ensures forall i :: 0 <= i < |r| ==> r[i].role in {"user", "model"} && |r[i].parts| == 1
  {
    if ms == [] then []
    else
      var init, m := GeminiMessages(ms[..|ms| - 1]), ms[|ms| - 1];
      if m.role == "user" then init + [GeminiMessage("user", [m.content])]
      else if m.role == "assistant" then init + [GeminiMessage("model", [m.content])]
      else init
  }

  /** The contents of the system messages of `ms`, in order. */
  function SystemParts(ms: seq<ChatMessage>): (r: seq<string>)
    ensures |r| <= |ms|
  {
    if ms == [] then []
    else
      var init, m := SystemParts(ms[..|ms| - 1]), ms[|ms| - 1];
      if m.role == "system" then init + [m.content] else init
  }

  /** The system parts joined by newlines, or None when there are none. */
  function SystemInstruction(ms: seq<ChatMessage>): (r: Option<string>)
    ensures r.None? <==> SystemParts(ms) == []
  {
    var parts := SystemParts(ms);
    if parts == [] then None else Some(Join("\n", parts))
  }

  /** `_convert_messages_to_gemini_format`: one pass over the messages, appending to two lists. */
  method ConvertMessages(ms: seq<ChatMessage>) returns (gemini: seq<GeminiMessage>, system: Option<string>)
    ensures gemini == GeminiMessages(ms)
    ensures system == SystemInstruction(ms)
  {
    gemini := [];
    var systemParts: seq<string> := [];
    ghost var done: seq<ChatMessage> := [];
    for i := 0 to |ms|
      invariant done == ms[..i]
      invariant gemini == GeminiMessages(done)
      invariant systemParts == SystemParts(done)
    {
      var msg := ms[i];
      assert (done + [msg])[..|done|] == done;
      PrefixSnoc(ms, i);
      if msg.role == "system" {
        systemParts := systemParts + [msg.content];
      } else if msg.role == "user" {
        gemini := gemini + [GeminiMessage("user", [msg.content])];
      } else if msg.role == "assistant" {
        gemini := gemini + [GeminiMessage("model", [msg.content])];
      }
      done := done + [msg];
    }
    assert done == ms;
    system := if systemParts != [] then Some(Join("\n", systemParts)) else None;
  }

  /** Conversion works message by message: converting `a + b` converts `a`, then `b`. */
  lemma {:induction false} ConvertAppend(a: seq<ChatMessage>, b: seq<ChatMessage>)
    ensures GeminiMessages(a + b) == GeminiMessages(a) + GeminiMessages(b)
    ensures SystemParts(a + b) == SystemParts(a) + SystemParts(b)
    decreases |b|
  {
    if b == [] {
      assert a + b == a;
    } else {
      var init, m := b[..|b| - 1], b[|b| - 1];
      assert (a + b)[..|a + b| - 1] == a + init;
      assert (a + b)[|a + b| - 1] == m;
      ConvertAppend(a, init);
    }
  }

  /** How a single message converts, by role; any other role is dropped. */
  lemma ConvertOne(m: ChatMessage)
    ensures GeminiMessages([m]) ==
      if m.role == "user" then [GeminiMessage("user", [m.content])]
      else if m.role == "assistant" then [GeminiMessage("model", [m.content])]
      else []
    ensures SystemParts([m]) == if m.role == "system" then [m.content] else []
  {
    assert [m][..0] == [];
  }

  predicate KnownRole(m: ChatMessage)
  {
    m.role in {"system", "user", "assistant"}
  }

  /** Nothing is lost exactly when every message has one of the three known roles. */
  lemma {:induction false} ConvertCount(ms: seq<ChatMessage>)
    ensures |GeminiMessages(ms)| + |SystemParts(ms)| <= |ms|
    ensures |GeminiMessages(ms)| + |SystemParts(ms)| == |ms| <==> forall i :: 0 <= i < |ms| ==> KnownRole(ms[i])
  {
    if ms != [] {
      var init := ms[..|ms| - 1];
      ConvertCount(init);
      if forall i :: 0 <= i < |ms| ==> KnownRole(ms[i]) {
        assert forall i :: 0 <= i < |init| ==> KnownRole(init[i]) by {
          forall i | 0 <= i < |init|
            ensures KnownRole(init[i])
          {
            assert init[i] == ms[i];
          }
        }
      } else if forall i :: 0 <= i < |init| ==> KnownRole(init[i]) {
        var k :| 0 <= k < |ms| && !KnownRole(ms[k]);
        if k < |init| {
          assert init[k] == ms[k];
        }
      }
    }
  }

  /** The OpenAI-style message a Gemini turn stands for. */
  function FromGemini(g: GeminiMessage): (m: ChatMessage)
    requires |g.parts| >= 1
    ensures m.content == g.parts[0]
  {
    ChatMessage(if g.role == "model" then "assistant" else "user", g.parts[0])
  }

  /**
   * A conversation of user and assistant messages converts without loss:
   * turning each Gemini turn back gives the original messages.
   */
  lemma {:induction false} ConvertRoundTrip(ms: seq<ChatMessage>)
    requires forall i :: 0 <= i < |ms| ==> ms[i].role in {"user", "assistant"}
    ensures SystemParts(ms) == []
    ensures var g := GeminiMessages(ms);
      |g| == |ms| && forall i :: 0 <= i < |ms| ==> FromGemini(g[i]) == ms[i]
  {
    if ms != [] {
      var init := ms[..|ms| - 1];
      forall i | 0 <= i < |init|
        ensures init[i].role in {"user", "assistant"}
      {
        assert init[i] == ms[i];
      }
      ConvertRoundTrip(init);
      var g := GeminiMessages(ms);
      var gi := GeminiMessages(init);
      forall i | 0 <= i < |ms|
        ensures FromGemini(g[i]) == ms[i]
      {
        if i < |init| {
          assert g[i] == gi[i] && init[i] == ms[i];
        }
      }
    }
  }

  // ------------------------------------------------------------ tool calls

  /** `{"name": ..., "args": ...}`. */
  datatype FunctionArgs = FunctionArgs(name: string, args: string)

  /**
   * `_convert_tool_calls_to_gemini`: None for no calls, otherwise the first
   * call's function name and arguments; a missing key raises `KeyError`,
   * reported here by the key.
   */
  function ConvertToolCalls(calls: seq<RawToolCall>): (r: Result<Option<FunctionArgs>, string>)
    ensures calls == [] ==> r == Ok(None)
    ensures calls != [] ==>
      var f := calls[0].func;
      && (r.Ok? <==> f.Some? && f.value.name.Some? && f.value.arguments.Some?)
      && (r.Ok? ==> r.value == Some(FunctionArgs(f.value.name.value, f.value.arguments.value)))
  {
    if calls == [] then Ok(None)
    else
      var f := calls[0].func;
      if f.None? then Err("function")
      else if f.value.name.None? then Err("name")
      else if f.value.arguments.None? then Err("arguments")
      else Ok(Some(FunctionArgs(f.value.name.value, f.value.arguments.value)))
  }

  /** Only the first tool call is converted; the others are ignored. */
  lemma ConvertToolCallsFirstOnly(calls: seq<RawToolCall>, others: seq<RawToolCall>)
    requires calls != [] && others != [] && calls[0] == others[0]
    ensures ConvertToolCalls(calls) == ConvertToolCalls(others)
  {
  }

  // --------------------------------------------------------- the SDK call

  /** The conversation minus its last turn when there are two or more, else nothing. */
  function History(gs: seq<GeminiMessage>): (r: seq<GeminiMessage>)
    ensures |gs| <= 1 ==> r == []
    ensures |gs| > 1 ==> r + [gs[|gs| - 1]] == gs
  {
    if |gs| > 1 then gs[..|gs| - 1] else []
  }

  /** The text sent: the last turn's content, or "" when there are no turns. */
  function LastMessage(gs: seq<GeminiMessage>): (r: string)
    requires forall i :: 0 <= i < |gs| ==> |gs[i].parts| >= 1
    ensures gs == [] ==> r == ""
    ensures gs != [] ==> r == gs[|gs| - 1].parts[0]
  {
    if gs == [] then "" else gs[|gs| - 1].parts[0]
  }

  /** What reaches the SDK: model, system instruction, temperature, chat history and the message sent. */
  datatype GeminiRequest = GeminiRequest(
    model: string,
    systemInstruction: Option<string>,
    temperature: real,
    history: seq<GeminiMessage>,
    message: string)

  /** A function call in the response: its name and `str(fc.args)`. */
  datatype GeminiCall = GeminiCall(name: string, args: string)

  /** The SDK's response: `response.text` (None when absent) and its function calls. */
  datatype GeminiResponse = GeminiResponse(text: Option<string>, functionCalls: seq<GeminiCall>)

  /** The SDK request `chat_completion` makes for `req`; an empty instruction counts as none. */
  function Prepare(req: Request): (g: GeminiRequest)
    ensures g.model == req.model && g.temperature == req.temperature
    ensures g.systemInstruction.Some? <==> SystemInstruction(req.messages).Some? && SystemInstruction(req.messages).value != ""
    ensures g.systemInstruction.Some? ==> g.systemInstruction == SystemInstruction(req.messages)
    ensures var gs := GeminiMessages(req.messages);
      && (gs == [] ==> g.history == [] && g.message == "")
      && (gs != [] ==> g.history + [GeminiMessage(gs[|gs| - 1].role, [g.message])] == gs)
  {
    var gs := GeminiMessages(req.messages);
    var instruction := SystemInstruction(req.messages);
    assert gs != [] ==> var last := gs[|gs| - 1]; last.parts == [last.parts[0]];
    GeminiRequest(
      req.model,
      if instruction.Some? && instruction.value != "" then instruction else None,
      req.temperature,
      History(gs),
      LastMessage(gs))
  }

  /** The tool definitions and the tool choice are not passed on. */
  lemma ToolsIgnored(req: Request, tools: Option<seq<ToolSpec>>, toolChoice: Option<string>)
    ensures Prepare(req.(tools := tools, toolChoice := toolChoice)) == Prepare(req)
  {
  }

  /** `call_0`, `call_1`, ... */
  function CallId(i: nat): string
  {
    "call_" + NatToString(i)
  }

  /** Different positions get different ids. */
  lemma CallIdsDistinct(i: nat, j: nat)
    requires i != j
    ensures CallId(i) != CallId(j)
  {
    if CallId(i) == CallId(j) {
      assert CallId(i)[5..] == NatToString(i);
      assert CallId(j)[5..] == NatToString(j);
      ParseNatToString(i);
      ParseNatToString(j);
    }
  }

  /**
   * The result dictionary: the response text or "", and, when there are
   * function calls, one `tool_calls` entry per call in order, with id
   * `call_<i>` and type `function`.
   */
  function ShapeResult(resp: GeminiResponse): (r: RawResult)
    ensures r.content == Some(if resp.text.Some? then resp.text.value else "")
    ensures r.toolCalls.Some? <==> resp.functionCalls != []
    ensures r.toolCalls.Some? ==>
      var fcs := resp.functionCalls;
      && |r.toolCalls.value| == |fcs|
      && forall i :: 0 <= i < |fcs| ==>
           r.toolCalls.value[i] == RawToolCall(Some(CallId(i)), Some("function"), Some(RawFunction(Some(fcs[i].name), Some(fcs[i].args))))
  {
    var fcs := resp.functionCalls;
    RawResult(
      Some(if resp.text.Some? then resp.text.value else ""),
      if fcs == [] then None
      else Some(seq(|fcs|, i requires 0 <= i < |fcs| =>
        RawToolCall(Some(CallId(i)), Some("function"), Some(RawFunction(Some(fcs[i].name), Some(fcs[i].args)))))))
  }

  /** `chat_completion`, with the SDK call `send` as a parameter. */
  function ChatCompletion(req: Request, send: GeminiRequest -> GeminiResponse): RawResult
  {
    ShapeResult(send(Prepare(req)))
  }

  /**
   * What the tool classifier reads from a Gemini result: no tool calls
   * exactly when Gemini returned no function calls; otherwise one call per
   * function call, in order, with distinct ids, type `function`, and the
   * name and arguments Gemini gave.
   */
  lemma ShapeResultDecodes(resp: GeminiResponse)
    ensures var m := ToolClassifier.Decode(ShapeResult(resp));
      && m.content.Some?
      && (m.toolCalls.None? <==> resp.functionCalls == [])
      && (m.toolCalls.Some? ==>
            var fcs := resp.functionCalls;
            && |m.toolCalls.value| == |fcs|
            && (forall i :: 0 <= i < |fcs| ==>
                 m.toolCalls.value[i] == ToolClassifier.ToolCall(Some(CallId(i)), Some("function"),
                                                                 ToolClassifier.FunctionCall(Some(fcs[i].name), Some(fcs[i].args))))
            && (forall i, j :: 0 <= i < j < |fcs| ==> m.toolCalls.value[i].id != m.toolCalls.value[j].id))
  {
    var m := ToolClassifier.Decode(ShapeResult(resp));
    if m.toolCalls.Some? {
      var fcs := resp.functionCalls;
      forall i, j | 0 <= i < j < |fcs|
        ensures m.toolCalls.value[i].id != m.toolCalls.value[j].id
      {
        CallIdsDistinct(i, j);
      }
    }
  }
}
