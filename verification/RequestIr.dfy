/** The message part of the request IR, and the JSON library both request codecs use. */
module RequestIr {
  import opened JsonValue
  import opened Wrappers

  datatype Role = System | User | Assistant | Tool

  /** `Silent` stands for the content no request encoder emits: program items and media files by id. */
  datatype Content =
    | Text(text: string, breakpoint: bool)
    | Refusal(text: string)
    | Reasoning(text: string)
    | ToolCall(id: string, name: string, arguments: Json, callId: Option<string>, wireType: Option<string>)
    | ToolResult(toolCallId: string, name: string, content: string)
    | Silent

  datatype Message = Message(role: Role, content: seq<Content>)

  /** The JSON library: printing, and parsing that may refuse. */
  datatype JsonText = JsonText(toText: Json -> string, fromText: string -> Option<Json>) {

    /** Printed values are read back. */
    ghost predicate Faithful() { forall j :: fromText(toText(j)) == Some(j) }
  }
}
