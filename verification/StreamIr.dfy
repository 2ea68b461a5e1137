/** The parts of a streamed response, in the gateway's own terms. */
module StreamIr {
  import opened Wrappers
  import opened TokenUsage

  datatype FinishReason = Stop | Length | ContentFilter | ToolCalls | Other(reason: string)

  /** `Args` is the type of a tool call's argument text. */
  datatype StreamPart<Args> =
    | ResponseStarted(id: string)
    | TextDelta(text: string)
    | ReasoningDelta(text: string)
    | ToolCallDelta(id: string, name: Option<string>, arguments: Args)
    | UsageReport(usage: Usage)
    | Finish(reason: FinishReason)
    | ResponseCompleted(id: string)
    | ProgramItem  // programmatic tool calling: other protocols only
}
