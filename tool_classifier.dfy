/**
 * `llm_tool_call`: the action schema offered to the language model, the
 * request built from a candidate fact and its similar memories, and the
 * decoding of the returned dictionary into a message with tool calls.
 */
module ToolClassifier {
  import opened Wrappers
  import opened Strings
  import opened Chat

  /** The four actions the model may choose from. */
  const TOOLS: seq<ToolSpec> := [
    ToolSpec("add_memory", "Add a new memory", [Property("text", "string")], Some(["text"])),
    ToolSpec("update_memory", "Update an existing memory",
             [Property("memory_id", "integer"), Property("text", "string")], Some(["memory_id", "text"])),
    ToolSpec("delete_memory", "Delete an existing memory", [Property("memory_id", "integer")], Some(["memory_id"])),
    ToolSpec("noop", "Do nothing", [], None)
  ]

  function ToolNames(tools: seq<ToolSpec>): (r: seq<string>)
    ensures |r| == |tools|
    ensures forall i :: 0 <= i < |tools| ==> r[i] == tools[i].name
  {
    seq(|tools|, i requires 0 <= i < |tools| => tools[i].name)
  }

  /** The arguments a tool requires; none when it declares no `required` list. */
  function RequiredOf(t: ToolSpec): seq<string>
  {
    if t.required.Some? then t.required.value else []
  }

  ghost predicate Declared(t: ToolSpec, key: string)
  {
    exists p :: p in t.properties && p.name == key
  }

  /**
   * Exactly four actions with distinct names; `add_memory` requires `text`,
   * `update_memory` requires `memory_id` and `text`, `delete_memory`
   * requires `memory_id`, `noop` requires nothing, and every required
   * argument is a declared property.
   */
  lemma ToolsSchema()
    ensures ToolNames(TOOLS) == ["add_memory", "update_memory", "delete_memory", "noop"]
    ensures RequiredOf(TOOLS[0]) == ["text"]
    ensures RequiredOf(TOOLS[1]) == ["memory_id", "text"]
    ensures RequiredOf(TOOLS[2]) == ["memory_id"]
    ensures RequiredOf(TOOLS[3]) == []
    ensures forall i, k :: 0 <= i < |TOOLS| && k in RequiredOf(TOOLS[i]) ==> Declared(TOOLS[i], k)
  {
    assert TOOLS[0].properties[0].name == "text";
    assert TOOLS[1].properties[0].name == "memory_id" && TOOLS[1].properties[1].name == "text";
    assert TOOLS[2].properties[0].name == "memory_id";
  }

  // ---------------------------------------------------------------- prompt

  /** A similar memory as the prompt shows it: its id and text. */
  datatype Neighbour = Neighbour(id: int, text: string)

  /** `-ID {id}: {text}`. */
  function ContextLine(n: Neighbour): string
  {
    "-ID " + IntToString(n.id) + ": " + n.text
  }

  function ContextLines(ns: seq<Neighbour>): (r: seq<string>)
    ensures |r| == |ns|
    ensures forall i :: 0 <= i < |ns| ==> r[i] == ContextLine(ns[i])
  {
    seq(|ns|, i requires 0 <= i < |ns| => ContextLine(ns[i]))
  }

  /** The memory context: one line per similar memory, in order, joined by newlines. */
  function MemoryContext(ns: seq<Neighbour>): string
  {
    Join("\n", ContextLines(ns))
  }

  ghost predicate SingleLine(s: string)
  {
    '\n' !in s
  }

  ghost predicate SingleLineTexts(ns: seq<Neighbour>)
  {
    forall i :: 0 <= i < |ns| ==> SingleLine(ns[i].text)
  }

  lemma ContextLineSingle(n: Neighbour)
    requires SingleLine(n.text)
    ensures SingleLine(ContextLine(n))
  {
    var p := "-ID " + IntToString(n.id);
    assert ContextLine(n) == p + ": " + n.text;
    assert '\n' !in p;
  }

  /** No similar memories give an empty context. */
  lemma MemoryContextEmpty()
    ensures MemoryContext([]) == ""
  {
  }

  /** With single-line texts the context splits back into one line per memory. */
  lemma MemoryContextLines(ns: seq<Neighbour>)
    requires |ns| >= 1 && SingleLineTexts(ns)
    ensures Split(MemoryContext(ns), '\n') == ContextLines(ns)
  {
    var lines := ContextLines(ns);
    forall i | 0 <= i < |lines|
      ensures '\n' !in lines[i]
    {
      ContextLineSingle(ns[i]);
    }
    SplitJoin(lines, '\n');
  }

  /** The id can be read back from its line: it is what stands between `-ID ` and the first colon. */
  lemma ContextLineId(n: Neighbour)
    ensures var head := Split(ContextLine(n), ':')[0];
      && |head| > 4 && head[..4] == "-ID "
      && head[4..] == IntToString(n.id)
      && ParseInt(head[4..]) == n.id
  {
    var p := "-ID " + IntToString(n.id);
    assert ':' !in IntToString(n.id) by {
      if n.id < 0 {
        assert IntToString(n.id)[1..] == NatToString(-n.id);
      }
    }
    assert ':' !in p;
    assert ContextLine(n) == p + [':'] + (" " + n.text);
    SplitAt(p, ':', " " + n.text);
    assert p[4..] == IntToString(n.id);
    ParseIntToString(n.id);
  }

  /** The lines of the user message above the memory context. */
  function PromptHeader(fact: string): seq<string>
  {
    ["", "Candidate fact:", fact, "", "Similar existing memories:"]
  }

  /**
   * The user message: a newline, the fact under its heading, a blank line,
   * the memory context under its heading, and a final newline; that is,
   * these lines joined by newlines.
   */
  function UserContent(fact: string, context: string): string
  {
    Join("\n", PromptHeader(fact) + [context] + [""])
  }

  /**
   * The user message read line by line: a blank line, the fact under its
   * heading, a blank line, the heading of the memories, one line per
   * similar memory (a single blank line when there are none), and the
   * closing blank line.
   */
  lemma UserContentLines(fact: string, ns: seq<Neighbour>)
    requires SingleLine(fact) && SingleLineTexts(ns)
    ensures Split(UserContent(fact, MemoryContext(ns)), '\n') ==
      PromptHeader(fact) + (if ns == [] then [""] else ContextLines(ns)) + [""]
  {
    var body := if ns == [] then [""] else ContextLines(ns);
    assert Join("\n", body) == MemoryContext(ns);
    UserContentJoin(fact, body);
    ContextLinesSingle(ns);
    PartsSingleLine(fact, body);
    SplitJoin(PromptHeader(fact) + body + [""], '\n');
  }

  lemma ContextLinesSingle(ns: seq<Neighbour>)
    requires SingleLineTexts(ns)
    ensures NoneContains(ContextLines(ns), '\n')
  {
    forall i | 0 <= i < |ns|
      ensures '\n' !in ContextLines(ns)[i]
    {
      ContextLineSingle(ns[i]);
    }
  }

  lemma HeaderSingleLine(fact: string)
    requires SingleLine(fact)
    ensures NoneContains(PromptHeader(fact), '\n')
  {
    var h := PromptHeader(fact);
    forall i | 0 <= i < |h|
      ensures '\n' !in h[i]
    {
      assert i == 0 || i == 1 || i == 2 || i == 3 || i == 4;
    }
  }

  lemma PartsSingleLine(fact: string, body: seq<string>)
    requires SingleLine(fact) && NoneContains(body, '\n')
    ensures NoneContains(PromptHeader(fact) + body + [""], '\n')
  {
    var h := PromptHeader(fact);
    var parts := h + body + [""];
    HeaderSingleLine(fact);
    forall i | 0 <= i < |parts|
      ensures '\n' !in parts[i]
    {
      if i < |h| {
        assert parts[i] == h[i];
      } else if i < |h| + |body| {
        assert parts[i] == body[i - |h|];
      } else {
        assert parts[i] == "";
      }
    }
  }

  lemma UserContentJoin(fact: string, body: seq<string>)
    requires |body| >= 1
    ensures Join("\n", PromptHeader(fact) + body + [""]) == UserContent(fact, Join("\n", body))
  {
    var h := PromptHeader(fact);
    JoinConcat("\n", h, body);
    JoinConcat("\n", h + body, [""]);
    JoinConcat("\n", h, [Join("\n", body)]);
    JoinConcat("\n", h + [Join("\n", body)], [""]);
  }

  /**
   * The request `llm_tool_call` sends: the system prompt, then the user
   * message; all four tools offered, the choice left to the model, and
   * temperature 0.
   */
  function DecisionRequest(model: string, systemPrompt: string, fact: string, ns: seq<Neighbour>): (r: Request)
    ensures |r.messages| == 2
    ensures r.messages[0] == ChatMessage("system", systemPrompt)
    ensures r.messages[1].role == "user" && r.messages[1].content == UserContent(fact, MemoryContext(ns))
    ensures r.tools == Some(TOOLS) && r.toolChoice == Some("auto") && r.temperature == 0.0 && r.model == model
  {
    Request(model,
            [ChatMessage("system", systemPrompt), ChatMessage("user", UserContent(fact, MemoryContext(ns)))],
            0.0, Some(TOOLS), Some("auto"))
  }

  // -------------------------------------------------------------- decoding

  datatype FunctionCall = FunctionCall(name: Option<string>, arguments: Option<string>)

  datatype ToolCall = ToolCall(id: Option<string>, kind: Option<string>, func: FunctionCall)

  /** The message object: the content, and the tool calls (None when there are none). */
  datatype Message = Message(content: Option<string>, toolCalls: Option<seq<ToolCall>>)

  /** `ToolCall(tc)`: a missing `function` entry reads as an empty one. */
  function DecodeCall(tc: RawToolCall): (r: ToolCall)
    ensures r.id == tc.id && r.kind == tc.kind
    ensures tc.func.None? ==> r.func == FunctionCall(None, None)
    ensures tc.func.Some? ==> r.func.name == tc.func.value.name && r.func.arguments == tc.func.value.arguments
  {
    var f := tc.func.GetOr(RawFunction(None, None));
    ToolCall(tc.id, tc.kind, FunctionCall(f.name, f.arguments))
  }

  /** `Message(result)`. */
  function Decode(raw: RawResult): (m: Message)
    ensures m.content == raw.content
    ensures m.toolCalls.None? <==> raw.toolCalls.None? || raw.toolCalls.value == []
    ensures m.toolCalls.Some? ==>
      && |m.toolCalls.value| == |raw.toolCalls.value|
      && forall i :: 0 <= i < |m.toolCalls.value| ==> m.toolCalls.value[i] == DecodeCall(raw.toolCalls.value[i])
  {
    var calls := raw.toolCalls.GetOr([]);
    if calls == [] then Message(raw.content, None)
    else Message(raw.content, Some(seq(|calls|, i requires 0 <= i < |calls| => DecodeCall(calls[i]))))
  }

  /** The dictionary a message decodes from, every key present. */
  function EncodeCall(c: ToolCall): RawToolCall
  {
    RawToolCall(c.id, c.kind, Some(RawFunction(c.func.name, c.func.arguments)))
  }

  function Encode(m: Message): RawResult
  {
    match m.toolCalls
    case None => RawResult(m.content, None)
    case Some(cs) => RawResult(m.content, Some(seq(|cs|, i requires 0 <= i < |cs| => EncodeCall(cs[i]))))
  }

  /** Decoding loses nothing: every message without an empty call list is decoded from its encoding. */
  lemma DecodeEncode(m: Message)
    requires m.toolCalls != Some([])
    ensures Decode(Encode(m)) == m
  {
    if m.toolCalls.Some? {
      var cs := m.toolCalls.value;
      var d := Decode(Encode(m)).toolCalls.value;
      assert |d| == |cs|;
      forall i | 0 <= i < |cs|
        ensures d[i] == cs[i]
      {
      }
      assert d == cs;
    }
  }

  /**
   * And the other way: a result whose calls all carry a `function` entry
   * is the encoding of its decoding, once an empty call list is read as
   * an absent one.
   */
  lemma EncodeDecode(raw: RawResult)
    requires raw.toolCalls.Some? ==> forall i :: 0 <= i < |raw.toolCalls.value| ==> raw.toolCalls.value[i].func.Some?
    ensures Encode(Decode(raw)) == if raw.toolCalls == Some([]) then RawResult(raw.content, None) else raw
  {
    if raw.toolCalls.Some? && raw.toolCalls.value != [] {
      var cs := raw.toolCalls.value;
      var e := Encode(Decode(raw)).toolCalls.value;
      assert |e| == |cs|;
      forall i | 0 <= i < |cs|
        ensures e[i] == cs[i]
      {
      }
      assert e == cs;
    }
  }
}
