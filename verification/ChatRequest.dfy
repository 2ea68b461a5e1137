/**
 The messages of a Chat Completions request: decoding them into the IR and
 encoding the IR back. Image parts are not modelled. An absent string field of a
 tool call or of a content part is read as the empty string, as the code does.
 */
module ChatRequest {
  import opened JsonValue
  import opened RequestIr
  import opened Sequences
  import opened Wrappers

  // ---------------------------------------------------------------------
  // The wire
  // ---------------------------------------------------------------------

  datatype Part =
    | TextPart(text: string, breakpoint: bool)         // type "text"
    | ToolPart(toolCallId: string, content: string)    // type "tool_use" or "tool_result"
    | OtherPart(text: string)

  datatype WireContent = NoContent | Plain(s: string) | Parts(parts: seq<Part>)

  datatype WireArguments = Missing | Raw(s: string) | Parsed(j: Json)

  datatype WireCall =
    | Function(id: string, name: string, arguments: WireArguments)
    | Custom(id: string, name: string, input: string)

  datatype Wire = Wire(role: string, toolCallId: Option<string>, name: string, content: WireContent,
                       reasoningContent: Option<string>, reasoning: Option<string>, thinking: Option<string>,
                       toolCalls: Option<seq<WireCall>>)

  datatype Request = Request(system: Option<string>, messages: seq<Message>)

  // ---------------------------------------------------------------------
  // Decoding
  // ---------------------------------------------------------------------

  function RoleOf(role: string): Role {
    if role == "system" || role == "developer" then System
    else if role == "assistant" then Assistant
    else if role == "tool" || role == "function" then Tool
    else User
  }

  function DecodePart(role: Role, p: Part): Content {
    match p
    case TextPart(text, breakpoint) => Text(text, breakpoint)
    case ToolPart(id, content) => if role.Tool? then ToolResult(id, "", content) else Text(content, false)
    case OtherPart(text) => Text(text, false)
  }

  function PartDecoder(role: Role): Part -> seq<Content> { p => [DecodePart(role, p)] }

  function DecodeArguments(json: JsonText, arguments: WireArguments): Json {
    match arguments
    case Missing => Obj(map[])
    case Raw(s) => json.fromText(s).GetOr(Str(s))
    case Parsed(j) => if j.Null? then Obj(map[]) else j
  }

  function DecodeCall(json: JsonText, c: WireCall): Content {
    match c
    case Custom(id, name, input) => ToolCall(id, name, Str(input), None, Some("custom"))
    case Function(id, name, arguments) => ToolCall(id, name, DecodeArguments(json, arguments), None, None)
  }

  function CallDecoder(json: JsonText): WireCall -> seq<Content> { c => [DecodeCall(json, c)] }

  function DecodeBody(role: Role, w: Wire): seq<Content> {
    match w.content
    case Parts(parts) => Each(PartDecoder(role), parts)
    case Plain(s) =>
      if role.Tool? then [ToolResult(w.toolCallId.GetOr(""), w.name, s)] else if s == "" then [] else [Text(s, false)]
    case NoContent => if role.Tool? then [ToolResult(w.toolCallId.GetOr(""), w.name, "")] else []
  }

  function ReasoningOf(w: Wire): string {
    if w.reasoningContent.Some? then w.reasoningContent.value
    else if w.reasoning.Some? then w.reasoning.value
    else w.thinking.GetOr("")
  }

  function Leading(reasoning: string): seq<Content> { if reasoning == "" then [] else [Reasoning(reasoning)] }

  function OrBlank(content: seq<Content>): seq<Content> { if content == [] then [Text("", false)] else content }

  function DecodeMessage(json: JsonText, w: Wire): Message {
    var role := RoleOf(w.role);
    Message(role, OrBlank(Leading(ReasoningOf(w)) + DecodeBody(role, w) +
                          Each(CallDecoder(json), w.toolCalls.GetOr([]))))
  }

  function MessageDecoder(json: JsonText): Wire -> seq<Message> { w => [DecodeMessage(json, w)] }

  predicate Breaks(c: Content) { c.Text? && c.breakpoint }

  predicate HasBreakpoint(m: Message) { m.role.System? && exists c :: c in m.content && Breaks(c) }

  predicate AnyBreakpoint(ms: seq<Message>) { exists m :: m in ms && HasBreakpoint(m) }

  function ChunkOf(c: Content): seq<string> { if c.Text? then [c.text] else [] }

  function TextChunks(m: Message): seq<string> { if m.role.System? then Each(ChunkOf, m.content) else [] }

  function NonSystem(m: Message): seq<Message> { if m.role.System? then [] else [m] }

  /** Rust's `join("\n")`. */
  function Lines(chunks: seq<string>): string {
    if chunks == [] then "" else if |chunks| == 1 then chunks[0] else chunks[0] + "\n" + Lines(chunks[1..])
  }

  /** System messages become the system text, unless one of them carries a breakpoint. */
  function Extracted(ms: seq<Message>): Request {
    if AnyBreakpoint(ms) then Request(None, ms)
    else
      var chunks := Each(TextChunks, ms);
      Request(if chunks == [] then None else Some(Lines(chunks)), Each(NonSystem, ms))
  }

  function Decoded(json: JsonText, wires: seq<Wire>): Request { Extracted(Each(MessageDecoder(json), wires)) }

  method ParseContentArray(parts: seq<Part>, role: Role) returns (content: seq<Content>)
    ensures content == Each(PartDecoder(role), parts)
  {
    content := [];
    for i := 0 to |parts|
      invariant content + Each(PartDecoder(role), parts[i..]) == Each(PartDecoder(role), parts)
    {
      EachStep(PartDecoder(role), parts, i, content);
      match parts[i] {
        case TextPart(text, breakpoint) => content := content + [Text(text, breakpoint)];
        case ToolPart(id, c) =>
          if role == Tool {
            content := content + [ToolResult(id, "", c)];
          } else {
            content := content + [Text(c, false)];
          }
        case OtherPart(text) => content := content + [Text(text, false)];
      }
    }
  }

  method DecodeCalls(json: JsonText, calls: seq<WireCall>, before: seq<Content>) returns (content: seq<Content>)
    ensures content == before + Each(CallDecoder(json), calls)
  {
    content := before;
    for i := 0 to |calls|
      invariant content + Each(CallDecoder(json), calls[i..]) == before + Each(CallDecoder(json), calls)
    {
      EachStep(CallDecoder(json), calls, i, content);
      content := content + [DecodeCall(json, calls[i])];
    }
  }

  method DecodeContent(role: Role, msg: Wire) returns (content: seq<Content>)
    ensures content == DecodeBody(role, msg)
  {
    if role == Tool {
      if msg.content.Parts? {
        content := ParseContentArray(msg.content.parts, role);
      } else {
        content := [ToolResult(msg.toolCallId.GetOr(""), msg.name, if msg.content.Plain? then msg.content.s else "")];
      }
    } else if msg.content.Plain? {
      content := if msg.content.s == "" then [] else [Text(msg.content.s, false)];
    } else if msg.content.Parts? {
      content := ParseContentArray(msg.content.parts, role);
    } else {
      content := [];
    }
  }

  method DecodeOne(json: JsonText, msg: Wire) returns (m: Message)
    ensures m == DecodeMessage(json, msg)
  {
    var role := RoleOf(msg.role);
    var content := DecodeContent(role, msg);
    var rc := if msg.reasoningContent.Some? then msg.reasoningContent
              else if msg.reasoning.Some? then msg.reasoning else msg.thinking;
    if rc.Some? && rc.value != "" {
      content := [Reasoning(rc.value)] + content;
    }
    assert content == Leading(ReasoningOf(msg)) + DecodeBody(role, msg);
    if msg.toolCalls.Some? {
      content := DecodeCalls(json, msg.toolCalls.value, content);
    }
    if content == [] {
      content := [Text("", false)];
    }
    m := Message(role, content);
  }

  method DecodeRequest(json: JsonText, wires: seq<Wire>) returns (r: Request)
    ensures r == Decoded(json, wires)
  {
    var messages := [];
    for i := 0 to |wires|
      invariant messages + Each(MessageDecoder(json), wires[i..]) == Each(MessageDecoder(json), wires)
    {
      EachStep(MessageDecoder(json), wires, i, messages);
      var m := DecodeOne(json, wires[i]);
      messages := messages + [m];
    }
    assert wires[|wires|..] == [] && messages + [] == messages;
    r := Extracted(messages);
  }

  // ---------------------------------------------------------------------
  // Encoding
  // ---------------------------------------------------------------------

  predicate IsCustom(wireType: Option<string>) { wireType == Some("custom") || wireType == Some("custom_tool_call") }

  function CustomInput(json: JsonText, arguments: Json): string {
    if arguments.Obj? && "input" in arguments.fields && arguments.fields["input"].Str? then arguments.fields["input"].s
    else if arguments.Str? then arguments.s
    else json.toText(arguments)
  }

  function ArgumentsText(json: JsonText, arguments: Json): string {
    if arguments.Str? then arguments.s else json.toText(arguments)
  }

  function EncodeCall(json: JsonText, c: Content): WireCall
    requires c.ToolCall?
  {
    var id := c.callId.GetOr(c.id);
    if IsCustom(c.wireType) then Custom(id, c.name, CustomInput(json, c.arguments))
    else Function(id, c.name, Raw(ArgumentsText(json, c.arguments)))
  }

  function CallEncoder(json: JsonText): Content -> seq<WireCall> {
    (c: Content) => if c.ToolCall? then [EncodeCall(json, c)] else []
  }

  function EncodeText(c: Content): seq<Part> {
    match c
    case Text(text, breakpoint) => [TextPart(text, breakpoint)]
    case Refusal(text) => [TextPart(text, false)]
    case _ => []
  }

  function ResultMessage(id: string, content: string): Wire {
    Wire("tool", Some(id), "", Plain(content), None, None, None, None)
  }

  function EncodeResult(c: Content): seq<Wire> {
    if c.ToolResult? then [ResultMessage(c.toolCallId, c.content)] else []
  }

  /** Reasoning texts joined by newlines; an empty text so far takes no newline. */
  function ReasoningFrom(text: string, content: seq<Content>): string
    decreases |content|
  {
    if content == [] then text
    else if content[0].Reasoning? then
      ReasoningFrom((if text == "" then "" else text + "\n") + content[0].text, content[1..])
    else ReasoningFrom(text, content[1..])
  }

  function RoleName(role: Role): string {
    match role
    case System => "system"
    case User => "user"
    case Assistant => "assistant"
    case Tool => "tool"
  }

  function ContentField(texts: seq<Part>, calls: seq<WireCall>): WireContent {
    if |texts| == 1 && texts[0].TextPart? && !texts[0].breakpoint then Plain(texts[0].text)
    else if texts != [] then Parts(texts)
    else if calls != [] then NoContent
    else Plain("")
  }

  function MainMessage(role: Role, texts: seq<Part>, reasoning: string, calls: seq<WireCall>): Wire {
    Wire(RoleName(role), None, "", ContentField(texts, calls),
         if reasoning != "" && calls != [] then Some(reasoning) else None, None, None,
         if calls != [] then Some(calls) else None)
  }

  function EncodeMessage(json: JsonText, m: Message): seq<Wire> {
    var texts, calls := Each(EncodeText, m.content), Each(CallEncoder(json), m.content);
    Each(EncodeResult, m.content) +
    if texts != [] || calls != [] || m.content == [] then
      [MainMessage(m.role, texts, ReasoningFrom("", m.content), calls)]
    else
      []
  }

  function MessageEncoder(json: JsonText): Message -> seq<Wire> { m => EncodeMessage(json, m) }

  function SystemWire(system: Option<string>): seq<Wire> {
    match system
    case None => []
    case Some(s) => [Wire("system", None, "", Plain(s), None, None, None, None)]
  }

  function Encoded(json: JsonText, ir: Request): seq<Wire> {
    SystemWire(ir.system) + Each(MessageEncoder(json), ir.messages)
  }

  /** The pass over a message's content: results go out at once, the rest is collected. */
  method Collect(json: JsonText, content: seq<Content>, before: seq<Wire>)
    returns (messages: seq<Wire>, textParts: seq<Part>, reasoningText: string, toolCalls: seq<WireCall>)
    ensures messages == before + Each(EncodeResult, content)
    ensures textParts == Each(EncodeText, content) && toolCalls == Each(CallEncoder(json), content)
    ensures reasoningText == ReasoningFrom("", content)
  {
    messages, textParts, reasoningText, toolCalls := before, [], "", [];
    for i := 0 to |content|
      invariant textParts + Each(EncodeText, content[i..]) == Each(EncodeText, content)
      invariant toolCalls + Each(CallEncoder(json), content[i..]) == Each(CallEncoder(json), content)
      invariant messages + Each(EncodeResult, content[i..]) == before + Each(EncodeResult, content)
      invariant ReasoningFrom(reasoningText, content[i..]) == ReasoningFrom("", content)
    {
      ghost var texts, calls, results := textParts, toolCalls, messages;
      assert content[i..][1..] == content[i + 1..];
      match content[i] {
        case Text(text, breakpoint) => textParts := textParts + [TextPart(text, breakpoint)];
        case Refusal(text) => textParts := textParts + [TextPart(text, false)];
        case Reasoning(text) =>
          if reasoningText != "" {
            reasoningText := reasoningText + "\n";
          }
          reasoningText := reasoningText + text;
        case ToolCall(_, _, _, _, _) => toolCalls := toolCalls + [EncodeCall(json, content[i])];
        case ToolResult(id, _, result) => messages := messages + [ResultMessage(id, result)];
        case Silent =>
      }
      assert textParts == texts + EncodeText(content[i]);
      assert toolCalls == calls + CallEncoder(json)(content[i]);
      assert messages == results + EncodeResult(content[i]);
      EachStep(EncodeText, content, i, texts);
      EachStep(CallEncoder(json), content, i, calls);
      EachStep(EncodeResult, content, i, results);
    }
    assert content[|content|..] == [];
  }

  method EncodeOne(json: JsonText, msg: Message, before: seq<Wire>) returns (messages: seq<Wire>)
    ensures messages == before + EncodeMessage(json, msg)
  {
    var textParts, reasoningText, toolCalls;
    messages, textParts, reasoningText, toolCalls := Collect(json, msg.content, before);
    if textParts != [] || toolCalls != [] || msg.content == [] {
      messages := messages + [MainMessage(msg.role, textParts, reasoningText, toolCalls)];
    }
  }

  method EncodeRequest(json: JsonText, ir: Request) returns (messages: seq<Wire>)
    ensures messages == Encoded(json, ir)
  {
    messages := [];
    if ir.system.Some? {
      messages := messages + [Wire("system", None, "", Plain(ir.system.value), None, None, None, None)];
    }
    for i := 0 to |ir.messages|
      invariant messages + Each(MessageEncoder(json), ir.messages[i..]) == Encoded(json, ir)
    {
      EachStep(MessageEncoder(json), ir.messages, i, messages);
      messages := EncodeOne(json, ir.messages[i], messages);
    }
  }
}
