/** The messages of a conversation, as the agent, the session and the compactor see them. */
module Conversation {
  import opened Prelude

  datatype ModelRef = ModelRef(provider: string, modelId: string)

  datatype StopReason = Stop | Length | ToolUse | Error | Aborted

  /** A tool call: `arguments` is its JSON text and `path` its `path` argument, empty when absent. */
  datatype ToolCall = ToolCall(id: string, name: string, arguments: string, path: string)

  /** `usage` is the context size the provider reported with an assistant message. */
  datatype Message =
    | User(text: string)
    | Assistant(text: string, calls: seq<ToolCall>, model: ModelRef, stop: StopReason, usage: nat,
                error: Option<string>)
    | ToolResult(callId: string, text: string, images: nat, isError: bool)
    | BashExecution(command: string, output: string)
    | CustomNote(kind: string, text: string, images: nat)
    | BranchNote(summary: string, fromId: string)
    | CompactionNote(summary: string, tokensBefore: nat)

  predicate Failed(m: Message)
  {
    m.Assistant? && (m.stop.Error? || m.stop.Aborted?)
  }
}
