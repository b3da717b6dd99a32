/** What the chat backends share (pkg/providers/types.go). */
module Providers {
  datatype Role = System | User | Assistant | Tool

  datatype ToolCall = ToolCall(id: string, name: string, args: string)

  datatype Message = Message(
    role: Role,
    content: string,
    toolCallID: string,
    name: string,
    toolCalls: seq<ToolCall>)

  /** `Unset` is the empty string a response without choices is left with. */
  datatype FinishReason = Unset | Stop | ToolUse | Length

  datatype Usage = Usage(inputTokens: int, outputTokens: int)

  datatype ChatResponse = ChatResponse(
    content: string,
    toolCalls: seq<ToolCall>,
    finish: FinishReason,
    usage: Usage)
}
