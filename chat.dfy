/**
 * The chat-completion interface every provider implements: OpenAI-style
 * messages and tool definitions going in, and the result dictionary coming
 * back, with its optional keys made explicit.
 */
module Chat {
  import opened Wrappers

  /** `{"role": role, "content": content}`. */
  datatype ChatMessage = ChatMessage(role: string, content: string)

  /** One entry of a tool's `properties`: its name and JSON type. */
  datatype Property = Property(name: string, kind: string)

  /**
   * A `{"type": "function", "function": ...}` tool definition whose
   * parameters are an object with the given properties; `required` is
   * None when the definition has no `required` key.
   */
  datatype ToolSpec = ToolSpec(name: string, description: string, properties: seq<Property>, required: Option<seq<string>>)

  /** The arguments of `chat_completion`. */
  datatype Request = Request(
    model: string,
    messages: seq<ChatMessage>,
    temperature: real,
    tools: Option<seq<ToolSpec>>,
    toolChoice: Option<string>)

  /** The `function` entry of a returned tool call; a missing key is None. */
  datatype RawFunction = RawFunction(name: Option<string>, arguments: Option<string>)

  /** One entry of the returned `tool_calls`; a missing key is None. */
  datatype RawToolCall = RawToolCall(id: Option<string>, kind: Option<string>, func: Option<RawFunction>)

  /** The dictionary `chat_completion` returns; a missing key is None. */
  datatype RawResult = RawResult(content: Option<string>, toolCalls: Option<seq<RawToolCall>>)
}
