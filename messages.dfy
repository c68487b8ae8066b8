/**
 * The conversation messages the agent graph passes around (LangChain's
 * message classes), reduced to the fields the backend reads.
 */
module Messages {

  /** One tool call requested by the model: the tool's name, its single argument (code or query) and the call id. */
  datatype ToolCall = ToolCall(name: string, args: string, id: string)

  /** A message of the conversation; every kind has a `content` text. */
  datatype Message =
    | Human(content: string)
    | System(content: string)
    | Ai(content: string, toolCalls: seq<ToolCall>)
    | Tool(toolCallId: string, name: string, content: string)
}
