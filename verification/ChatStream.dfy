/**
 The Chat Completions streaming codec: an encoder that numbers tool calls and a
 decoder that puts interleaved fragments back together. SSE lines are modelled
 after parsing; error frames are not modelled.
 */
module ChatStream {
  import opened Wrappers
  import opened TokenUsage
  import opened StreamIr

  type Part = StreamPart<string>

  // ---------------------------------------------------------------------
  // The wire
  // ---------------------------------------------------------------------

  datatype WireCall = WireCall(index: Option<nat>, id: Option<string>, name: Option<string>, arguments: Option<string>)

  /** One choice; `details` is `reasoning_details.text`. A field of the wrong type reads as absent. */
  datatype Choice = Choice(content: Option<string>, reasoningContent: Option<string>, reasoning: Option<string>,
                           details: Option<string>, toolCalls: seq<WireCall>, finishReason: Option<string>)

  datatype Frame =
    | Done                                                                     // data: [DONE]
    | Chunk(id: Option<string>, choices: seq<Choice>, usage: Option<ChatUsage>)  // a chat.completion.chunk
    | Ignored                                                                  // blank lines, comments, other objects

  const EMPTY_CHOICE := Choice(None, None, None, None, [], None)

  // ---------------------------------------------------------------------
  // Encoder
  // ---------------------------------------------------------------------

  datatype EncoderState = EncoderState(responseId: Option<string>, indices: map<string, nat>)

  function IndexFor(indices: map<string, nat>, id: string): nat {
    if id == "" then SaturatingSub(|indices|, 1)
    else if id in indices then indices[id]
    else |indices|
  }

  function WithIndex(indices: map<string, nat>, id: string): map<string, nat> {
    if id == "" || id in indices then indices else indices[id := |indices|]
  }

  function ReasonText(reason: FinishReason): string {
    match reason
    case Stop => "stop"
    case Length => "length"
    case ContentFilter => "content_filter"
    case ToolCalls => "tool_calls"
    case Other(_) => "stop"
  }

  function ChunkOf(e: EncoderState, choice: Choice, usage: Option<ChatUsage>): Frame {
    Chunk(Some(e.responseId.GetOr("")), [choice], usage)
  }

  function Encode(e: EncoderState, part: Part): (EncoderState, Option<Frame>) {
    match part
    case ResponseStarted(id) => (e.(responseId := Some(id)), None)
    case TextDelta(text) => (e, Some(ChunkOf(e, EMPTY_CHOICE.(content := Some(text)), None)))
    case ReasoningDelta(text) => (e, Some(ChunkOf(e, EMPTY_CHOICE.(reasoningContent := Some(text)), None)))
    case ToolCallDelta(id, name, arguments) =>
      (e.(indices := WithIndex(e.indices, id)),
       Some(ChunkOf(e, EMPTY_CHOICE.(toolCalls :=
         [WireCall(Some(IndexFor(e.indices, id)), Some(id), name, Some(arguments))]), None)))
    case UsageReport(usage) => (e, Some(ChunkOf(e, EMPTY_CHOICE, Some(EncodeChatStream(usage)))))
    case Finish(reason) => (e, Some(ChunkOf(e, EMPTY_CHOICE.(finishReason := Some(ReasonText(reason))), None)))
    case ResponseCompleted(_) => (e, Some(Done))
    case ProgramItem => (e, None)
  }

  class ChatStreamEncoder {
    var responseId: Option<string>
    var toolCallIndices: map<string, nat>

    ghost function State(): EncoderState
      reads this
    {
      EncoderState(responseId, toolCallIndices)
    }

    constructor ()
      ensures State() == EncoderState(None, map[])
    {
      responseId, toolCallIndices := None, map[];
    }

    /** The stable index of a call id; an empty id falls back to the latest call. */
    method ToolCallIndex(id: string) returns (index: nat)
      modifies this`toolCallIndices
      ensures index == IndexFor(old(toolCallIndices), id)
      ensures toolCallIndices == WithIndex(old(toolCallIndices), id)
    {
      if id == "" { return SaturatingSub(|toolCallIndices|, 1); }
      var next := |toolCallIndices|;
      if id !in toolCallIndices {
        toolCallIndices := toolCallIndices[id := next];
      }
      return toolCallIndices[id];
    }

    method EncodePart(part: Part) returns (frame: Option<Frame>)
      modifies this
      ensures (State(), frame) == Encode(old(State()), part)
    {
      var id := responseId.GetOr("");
      match part
      case ResponseStarted(newId) =>
        responseId := Some(newId);
        return None;
      case TextDelta(text) =>
        return Some(Chunk(Some(id), [EMPTY_CHOICE.(content := Some(text))], None));
      case ReasoningDelta(text) =>
        return Some(Chunk(Some(id), [EMPTY_CHOICE.(reasoningContent := Some(text))], None));
      case ToolCallDelta(callId, name, arguments) =>
        var index := ToolCallIndex(callId);
        var call := WireCall(Some(index), Some(callId), name, Some(arguments));
        return Some(Chunk(Some(id), [EMPTY_CHOICE.(toolCalls := [call])], None));
      case UsageReport(usage) =>
        return Some(Chunk(Some(id), [EMPTY_CHOICE], Some(EncodeChatStream(usage))));
      case Finish(reason) =>
        return Some(Chunk(Some(id), [EMPTY_CHOICE.(finishReason := Some(ReasonText(reason)))], None));
      case ResponseCompleted(_) =>
        return Some(Done);
      case ProgramItem =>
        return None;
    }
  }

  // ---------------------------------------------------------------------
  // Decoder
  // ---------------------------------------------------------------------

  /** `calls` holds the `(id, name)` last seen at each index. */
  datatype DecoderState = DecoderState(responseId: Option<string>, calls: seq<(string, string)>,
                                       sawFinish: bool, sawToolCalls: bool)

  /** `calls` grown to hold `index`. */
  function Slots(calls: seq<(string, string)>, index: nat): (r: seq<(string, string)>)
    ensures |r| == if |calls| <= index then index + 1 else |calls|
  {
    if |calls| <= index then calls + seq(index + 1 - |calls|, _ => ("", "")) else calls
  }

  function NonEmpty(s: Option<string>): Option<string> { if s == Some("") then None else s }

  /** The fragment's slot after its id and name are recorded. */
  function Recorded(calls: seq<(string, string)>, call: WireCall): (r: seq<(string, string)>)
    ensures |r| > call.index.GetOr(0)
  {
    var index := call.index.GetOr(0);
    var slots := Slots(calls, index);
    slots[index := (NonEmpty(call.id).GetOr(slots[index].0), NonEmpty(call.name).GetOr(slots[index].1))]
  }

  /** The opener and the argument fragment are distinct deltas. */
  function CallParts(id: string, name: Option<string>, arguments: Option<string>): seq<Part> {
    if name.Some? then
      [ToolCallDelta(id, name, "")] +
      if arguments.Some? && arguments.value != "" then [ToolCallDelta(id, None, arguments.value)] else []
    else if arguments.Some? then [ToolCallDelta(id, None, arguments.value)]
    else []
  }

  function DecodeCalls(d: DecoderState, calls: seq<WireCall>): (DecoderState, seq<Part>)
    decreases |calls|
  {
    if calls == [] then (d, [])
    else
      var n := |calls| - 1;
      var (d', parts) := DecodeCalls(d, calls[..n]);
      var slots := Recorded(d'.calls, calls[n]);
      (d'.(calls := slots, sawToolCalls := true),
       parts + CallParts(slots[calls[n].index.GetOr(0)].0, NonEmpty(calls[n].name), calls[n].arguments))
  }

  function ReasonOf(text: string): FinishReason {
    match text
    case "stop" => Stop
    case "length" => Length
    case "content_filter" => ContentFilter
    case "tool_calls" => ToolCalls
    case "function_call" => ToolCalls
    case _ => Other(text)
  }

  function TextParts(choice: Choice): seq<Part> {
    if choice.content.Some? && choice.content.value != "" then [TextDelta(choice.content.value)] else []
  }

  function ReasoningParts(choice: Choice): seq<Part> {
    var text := if choice.reasoningContent.Some? then choice.reasoningContent else choice.reasoning;
    if text.Some? then (if text.value != "" then [ReasoningDelta(text.value)] else [])
    else if choice.details.Some? then [ReasoningDelta(choice.details.value)]
    else []
  }

  function Finishes(choice: Choice): seq<Part> {
    if choice.finishReason.Some? && choice.finishReason.value != "null" && choice.finishReason.value != ""
    then [Finish(ReasonOf(choice.finishReason.value))] else []
  }

  /** The parts of the choices, with their finishes held back. */
  function DecodeChoices(d: DecoderState, choices: seq<Choice>): (DecoderState, seq<Part>, seq<Part>)
    decreases |choices|
  {
    if choices == [] then (d, [], [])
    else
      var n := |choices| - 1;
      var (d', parts, pending) := DecodeChoices(d, choices[..n]);
      var (d'', calls) := DecodeCalls(d', choices[n].toolCalls);
      (d''.(sawFinish := d''.sawFinish || Finishes(choices[n]) != []),
       parts + (TextParts(choices[n]) + ReasoningParts(choices[n]) + calls),
       pending + Finishes(choices[n]))
  }

  function UsageParts(usage: Option<ChatUsage>): seq<Part> {
    match usage
    case None => []
    case Some(w) =>
      match DecodeChatStream(w)
      case None => []
      case Some(u) => [UsageReport(u)]
  }

  function Announce(d: DecoderState, id: Option<string>): (DecoderState, seq<Part>) {
    if id.Some? && d.responseId.None? then (d.(responseId := id), [ResponseStarted(id.value)]) else (d, [])
  }

  function Decode(d: DecoderState, frame: Frame): (DecoderState, seq<Part>) {
    match frame
    case Ignored => (d, [])
    case Done =>
      (d, (if !d.sawFinish && d.sawToolCalls then [Finish(ToolCalls)] else []) +
       [ResponseCompleted(d.responseId.GetOr(""))])
    case Chunk(id, choices, usage) =>
      var (d', started) := Announce(d, id);
      var (d'', parts, pending) := DecodeChoices(d', choices);
      (d'', started + parts + UsageParts(usage) + pending)
  }

  class ChatStreamDecoder {
    var responseId: Option<string>
    var toolCalls: seq<(string, string)>
    var sawFinish: bool
    var sawToolCalls: bool

    ghost function State(): DecoderState
      reads this
    {
      DecoderState(responseId, toolCalls, sawFinish, sawToolCalls)
    }

    constructor ()
      ensures State() == DecoderState(None, [], false, false)
    {
      responseId, toolCalls, sawFinish, sawToolCalls := None, [], false, false;
    }

    /** Make room for `index`. */
    method Slot(index: nat)
      modifies this`toolCalls
      ensures toolCalls == Slots(old(toolCalls), index)
    {
      if |toolCalls| <= index {
        toolCalls := toolCalls + seq(index + 1 - |toolCalls|, _ => ("", ""));
      }
    }

    /** Bind one fragment to its call and emit it. */
    method FeedCall(call: WireCall) returns (parts: seq<Part>)
      modifies this`toolCalls, this`sawToolCalls
      ensures toolCalls == Recorded(old(toolCalls), call) && sawToolCalls
      ensures parts == CallParts(toolCalls[call.index.GetOr(0)].0, NonEmpty(call.name), call.arguments)
    {
      sawToolCalls := true;
      var index := call.index.GetOr(0);
      Slot(index);
      if call.id.Some? && call.id.value != "" {
        toolCalls := toolCalls[index := (call.id.value, toolCalls[index].1)];
      }
      var name := NonEmpty(call.name);
      if name.Some? {
        toolCalls := toolCalls[index := (toolCalls[index].0, name.value)];
      }
      var id := toolCalls[index].0;
      parts := [];
      if name.Some? {
        parts := [ToolCallDelta(id, name, "")];
        if call.arguments.Some? && call.arguments.value != "" {
          parts := parts + [ToolCallDelta(id, None, call.arguments.value)];
        }
      } else if call.arguments.Some? {
        parts := [ToolCallDelta(id, None, call.arguments.value)];
      }
    }

    method FeedCalls(calls: seq<WireCall>) returns (parts: seq<Part>)
      modifies this`toolCalls, this`sawToolCalls
      ensures (State(), parts) == DecodeCalls(old(State()), calls)
    {
      parts := [];
      for i := 0 to |calls|
        invariant (State(), parts) == DecodeCalls(old(State()), calls[..i])
      {
        assert calls[..i + 1][..i] == calls[..i];
        var fragment := FeedCall(calls[i]);
        parts := parts + fragment;
      }
      assert calls[..|calls|] == calls;
    }

    /** One choice; its finish is held back until the chunk's usage is out. */
    method FeedChoice(choice: Choice) returns (parts: seq<Part>, pending: seq<Part>)
      modifies this`toolCalls, this`sawToolCalls, this`sawFinish
      ensures pending == Finishes(choice)
      ensures var (d, calls) := DecodeCalls(old(State()), choice.toolCalls);
              && State() == d.(sawFinish := d.sawFinish || Finishes(choice) != [])
              && parts == TextParts(choice) + ReasoningParts(choice) + calls
    {
      parts, pending := [], [];
      if choice.content.Some? && choice.content.value != "" {
        parts := [TextDelta(choice.content.value)];
      }
      var text := if choice.reasoningContent.Some? then choice.reasoningContent else choice.reasoning;
      if text.Some? {
        if text.value != "" { parts := parts + [ReasoningDelta(text.value)]; }
      } else if choice.details.Some? {
        parts := parts + [ReasoningDelta(choice.details.value)];
      }
      assert parts == TextParts(choice) + ReasoningParts(choice);
      var calls := FeedCalls(choice.toolCalls);
      parts := parts + calls;
      if choice.finishReason.Some? && choice.finishReason.value != "null" && choice.finishReason.value != "" {
        pending := [Finish(ReasonOf(choice.finishReason.value))];
        sawFinish := true;
      }
    }

    method FeedChoices(choices: seq<Choice>) returns (parts: seq<Part>, pending: seq<Part>)
      modifies this`toolCalls, this`sawToolCalls, this`sawFinish
      ensures (State(), parts, pending) == DecodeChoices(old(State()), choices)
    {
      parts, pending := [], [];
      for i := 0 to |choices|
        invariant (State(), parts, pending) == DecodeChoices(old(State()), choices[..i])
      {
        assert choices[..i + 1][..i] == choices[..i];
        var more, finishes := FeedChoice(choices[i]);
        parts, pending := parts + more, pending + finishes;
      }
      assert choices[..|choices|] == choices;
    }

    method Feed(frame: Frame) returns (parts: seq<Part>)
      modifies this
      ensures (State(), parts) == Decode(old(State()), frame)
    {
      parts := [];
      match frame
      case Ignored =>
      case Done =>
        if !sawFinish && sawToolCalls { parts := [Finish(ToolCalls)]; }
        parts := parts + [ResponseCompleted(responseId.GetOr(""))];
      case Chunk(id, choices, usage) =>
        if id.Some? && responseId.None? {
          responseId := id;
          parts := [ResponseStarted(id.value)];
        }
        ghost var announced, started := State(), parts;
        assert (announced, started) == Announce(old(State()), id);
        var more, pending := FeedChoices(choices);
        parts := parts + more;
        if usage.Some? {
          var u := DecodeChatStream(usage.value);
          if u.Some? { parts := parts + [UsageReport(u.value)]; }
        }
        parts := parts + pending;
        assert (State(), more, pending) == DecodeChoices(announced, choices);
        assert parts == started + more + UsageParts(usage) + pending;
    }
  }

  // ---------------------------------------------------------------------
  // What survives the trip
  // ---------------------------------------------------------------------

  /**
   The normal form of a stream, told without indices. `announced` is the first
   response id that reached the wire, `current` the last one started, and
   `seen` the call ids in order of appearance.
   */
  datatype NormalState = NormalState(current: Option<string>, announced: Option<string>, seen: seq<string>,
                                     sawFinish: bool, sawToolCalls: bool)

  const START := NormalState(None, None, [], false, false)

  /** The call a fragment belongs to: its own id, or the latest call's when it has none. */
  function CallOf(n: NormalState, id: string): string {
    if id != "" then id else if n.seen == [] then "" else n.seen[|n.seen| - 1]
  }

  function Seeing(n: NormalState, id: string): NormalState {
    n.(seen := if id == "" || id in n.seen then n.seen else n.seen + [id], sawToolCalls := true)
  }

  function NormalReason(reason: FinishReason): FinishReason { if reason.Other? then Stop else reason }

  function NormalUsage(u: Usage): Usage {
    Usage(u.prompt, u.completion, FullPrompt(u) + u.completion,
          IfPositive(u.reasoning), IfPositive(u.cacheRead), IfPositive(u.cacheWrite))
  }

  /** The first part that makes a chunk announces the response. */
  function Announced(n: NormalState): (NormalState, seq<Part>) {
    if n.announced.None? then (n.(announced := Some(n.current.GetOr(""))), [ResponseStarted(n.current.GetOr(""))])
    else (n, [])
  }

  function Normal(n: NormalState, part: Part): (NormalState, seq<Part>) {
    match part
    case ResponseStarted(id) => (n.(current := Some(id)), [])
    case ProgramItem => (n, [])
    case ResponseCompleted(_) =>
      (n, (if !n.sawFinish && n.sawToolCalls then [Finish(ToolCalls)] else []) +
       [ResponseCompleted(n.announced.GetOr(""))])
    case _ =>
      var (n', started) := Announced(n);
      match part
      case TextDelta(text) => (n', started + if text != "" then [part] else [])
      case ReasoningDelta(text) => (n', started + if text != "" then [part] else [])
      case UsageReport(u) => (n', started + [UsageReport(NormalUsage(u))])
      case Finish(reason) => (n'.(sawFinish := true), started + [Finish(NormalReason(reason))])
      case ToolCallDelta(id, name, arguments) =>
        (Seeing(n', id), started + CallParts(CallOf(n, id), NonEmpty(name), Some(arguments)))
  }

  function Normalise(n: NormalState, parts: seq<Part>): seq<Part>
    decreases |parts|
  {
    if parts == [] then []
    else
      var (n', out) := Normal(n, parts[0]);
      out + Normalise(n', parts[1..])
  }

  /** Encode the parts one by one and decode each frame as it comes. */
  function RoundTrip(e: EncoderState, d: DecoderState, parts: seq<Part>): seq<Part>
    decreases |parts|
  {
    if parts == [] then []
    else
      match Encode(e, parts[0])
      case (e', None) => RoundTrip(e', d, parts[1..])
      case (e', Some(frame)) =>
        var (d', out) := Decode(d, frame);
        out + RoundTrip(e', d', parts[1..])
  }

  /** Encoder and decoder agree on which id sits at which index. */
  ghost predicate Agree(n: NormalState, e: EncoderState, d: DecoderState) {
    && e.responseId == n.current && d.responseId == n.announced
    && d.sawFinish == n.sawFinish && d.sawToolCalls == n.sawToolCalls
    && Numbered(n.seen, e.indices) && Slotted(n.seen, d.calls)
  }

  /** Ids are numbered in order of appearance. */
  ghost predicate Numbered(seen: seq<string>, indices: map<string, nat>) {
    && |indices| == |seen|
    && "" !in seen
    && (forall i :: 0 <= i < |seen| ==> seen[i] in indices && indices[seen[i]] == i)
    && (forall id :: id in indices ==> id in seen)
  }

  ghost predicate Slotted(seen: seq<string>, calls: seq<(string, string)>) {
    if seen == [] then |calls| <= 1 && (forall i :: 0 <= i < |calls| ==> calls[i].0 == "")
    else |calls| == |seen| && forall i :: 0 <= i < |seen| ==> calls[i].0 == seen[i]
  }

  lemma NumberedKept(n: NormalState, indices: map<string, nat>, id: string)
    requires Numbered(n.seen, indices)
    ensures Numbered(Seeing(n, id).seen, WithIndex(indices, id))
    ensures id != "" ==> IndexFor(indices, id) < |Seeing(n, id).seen| && Seeing(n, id).seen[IndexFor(indices, id)] == id
    ensures id == "" ==> IndexFor(indices, id) == SaturatingSub(|n.seen|, 1)
  {
    if id in n.seen {
      var i :| 0 <= i < |n.seen| && n.seen[i] == id;
    }
  }

  lemma SlottedKept(n: NormalState, calls: seq<(string, string)>, index: nat, id: string, name: Option<string>,
                    arguments: Option<string>)
    requires Slotted(n.seen, calls) && "" !in n.seen
    requires id != "" ==> index < |Seeing(n, id).seen| && Seeing(n, id).seen[index] == id
    requires id == "" ==> index == SaturatingSub(|n.seen|, 1)
    ensures var slots := Recorded(calls, WireCall(Some(index), Some(id), name, arguments));
            Slotted(Seeing(n, id).seen, slots) && slots[index].0 == CallOf(n, id)
  {
  }

  lemma ReasonTextsDecode(reason: FinishReason)
    ensures ReasonOf(ReasonText(reason)) == NormalReason(reason)
    ensures ReasonText(reason) != "" && ReasonText(reason) != "null"
  {
    assert "stop"[0] == 's' && "length"[0] == 'l' && "content_filter"[0] == 'c' && "tool_calls"[0] == 't';
    assert "null"[0] == 'n' && "function_call"[0] == 'f';
  }

  lemma UsageDecodes(u: Usage)
    ensures UsageParts(Some(EncodeChatStream(u))) == [UsageReport(NormalUsage(u))]
  {
  }

  /** A chunk with one choice, decoded. */
  lemma OneChoice(d: DecoderState, id: string, choice: Choice, usage: Option<ChatUsage>)
    ensures var (d', started) := Announce(d, Some(id));
            var (d'', calls) := DecodeCalls(d', choice.toolCalls);
            Decode(d, Chunk(Some(id), [choice], usage)) ==
            (d''.(sawFinish := d''.sawFinish || Finishes(choice) != []),
             started + (TextParts(choice) + ReasoningParts(choice) + calls) + UsageParts(usage) + Finishes(choice))
  {
    var (d', started) := Announce(d, Some(id));
    var (d'', calls) := DecodeCalls(d', choice.toolCalls);
    var out := TextParts(choice) + ReasoningParts(choice) + calls;
    assert [choice][..0] == [];
    assert DecodeChoices(d', [choice][..0]) == (d', [], []);
    assert [] + out == out && [] + Finishes(choice) == Finishes(choice);
    assert [choice][0] == choice;
    assert DecodeChoices(d', [choice]) ==
      (d''.(sawFinish := d''.sawFinish || Finishes(choice) != []), out, Finishes(choice));
  }

  /** The step keeps the agreement and emits the normal form. */
  ghost predicate StepIsNormal(n: NormalState, e: EncoderState, d: DecoderState, part: Part) {
    var (n', out) := Normal(n, part);
    match Encode(e, part)
    case (e', None) => out == [] && Agree(n', e', d)
    case (e', Some(frame)) => Decode(d, frame).1 == out && Agree(n', e', Decode(d, frame).0)
  }

  /** A chunk with one tool-call fragment, decoded. */
  lemma OneCallChunk(d: DecoderState, id: string, call: WireCall)
    ensures var (d', started) := Announce(d, Some(id));
            var slots := Recorded(d'.calls, call);
            Decode(d, Chunk(Some(id), [EMPTY_CHOICE.(toolCalls := [call])], None)) ==
            (d'.(calls := slots, sawToolCalls := true),
             started + CallParts(slots[call.index.GetOr(0)].0, NonEmpty(call.name), call.arguments))
  {
    var choice := EMPTY_CHOICE.(toolCalls := [call]);
    var (d', started) := Announce(d, Some(id));
    OneChoice(d, id, choice, None);
    OneCall(d', call);
    var parts := DecodeCalls(d', [call]).1;
    assert Finishes(choice) == [] && UsageParts(None) == [];
    assert started + (TextParts(choice) + ReasoningParts(choice) + parts) + [] + [] == started + parts;
  }

  /** What a fragment does to the tables, on both sides of the wire. */
  lemma CallKeepsTables(n: NormalState, e: EncoderState, calls: seq<(string, string)>, part: Part)
    requires part.ToolCallDelta? && Numbered(n.seen, e.indices) && Slotted(n.seen, calls)
    ensures var index := IndexFor(e.indices, part.id);
            var slots := Recorded(calls, WireCall(Some(index), Some(part.id), part.name, Some(part.arguments)));
            && Numbered(Seeing(n, part.id).seen, WithIndex(e.indices, part.id))
            && Slotted(Seeing(n, part.id).seen, slots)
            && slots[index].0 == CallOf(n, part.id)
  {
    NumberedKept(n, e.indices, part.id);
    SlottedKept(n, calls, IndexFor(e.indices, part.id), part.id, part.name, Some(part.arguments));
  }

  lemma CallStepIsNormal(n: NormalState, e: EncoderState, d: DecoderState, part: Part)
    requires Agree(n, e, d) && part.ToolCallDelta?
    ensures StepIsNormal(n, e, d, part)
  {
    var id, index := e.responseId.GetOr(""), IndexFor(e.indices, part.id);
    var call := WireCall(Some(index), Some(part.id), part.name, Some(part.arguments));
    OneCallChunk(d, id, call);
    CallKeepsTables(n, e, d.calls, part);
    CallStepFrom(n, e, d, part, Decode(d, Chunk(Some(id), [EMPTY_CHOICE.(toolCalls := [call])], None)));
  }

  lemma CallStepFrom(n: NormalState, e: EncoderState, d: DecoderState, part: Part, decoded: (DecoderState, seq<Part>))
    requires Agree(n, e, d) && part.ToolCallDelta?
    requires Numbered(Seeing(n, part.id).seen, WithIndex(e.indices, part.id))
    requires var index := IndexFor(e.indices, part.id);
             var slots := Recorded(d.calls, WireCall(Some(index), Some(part.id), part.name, Some(part.arguments)));
             var (d', started) := Announce(d, Some(e.responseId.GetOr("")));
             && Slotted(Seeing(n, part.id).seen, slots)
             && decoded == (d'.(calls := slots, sawToolCalls := true),
                            started + CallParts(CallOf(n, part.id), NonEmpty(part.name), Some(part.arguments)))
    ensures var (n', out) := Normal(n, part);
            decoded.1 == out && Agree(n', Encode(e, part).0, decoded.0)
  {
  }

  lemma FinishStepIsNormal(n: NormalState, e: EncoderState, d: DecoderState, part: Part)
    requires Agree(n, e, d) && part.Finish?
    ensures StepIsNormal(n, e, d, part)
  {
    var id, choice := e.responseId.GetOr(""), EMPTY_CHOICE.(finishReason := Some(ReasonText(part.reason)));
    OneChoice(d, id, choice, None);
    ReasonTextsDecode(part.reason);
    var started := Announced(n).1;
    assert started + (TextParts(choice) + ReasoningParts(choice) + []) + UsageParts(None) + Finishes(choice) ==
      started + Finishes(choice);
  }

  lemma UsageStepIsNormal(n: NormalState, e: EncoderState, d: DecoderState, part: Part)
    requires Agree(n, e, d) && part.UsageReport?
    ensures StepIsNormal(n, e, d, part)
  {
    var id, usage := e.responseId.GetOr(""), Some(EncodeChatStream(part.usage));
    OneChoice(d, id, EMPTY_CHOICE, usage);
    UsageDecodes(part.usage);
    var started := Announced(n).1;
    assert started + (TextParts(EMPTY_CHOICE) + ReasoningParts(EMPTY_CHOICE) + []) + UsageParts(usage) +
      Finishes(EMPTY_CHOICE)
        == started + UsageParts(usage);
  }

  lemma TextStepIsNormal(n: NormalState, e: EncoderState, d: DecoderState, part: Part)
    requires Agree(n, e, d) && (part.TextDelta? || part.ReasoningDelta?)
    ensures StepIsNormal(n, e, d, part)
  {
    var id := e.responseId.GetOr("");
    var choice := if part.TextDelta? then EMPTY_CHOICE.(content := Some(part.text))
                  else EMPTY_CHOICE.(reasoningContent := Some(part.text));
    OneChoice(d, id, choice, None);
    var started := Announced(n).1;
    var out := if part.text != "" then [part] else [];
    assert TextParts(choice) + ReasoningParts(choice) + [] == out;
    assert started + out + UsageParts(None) + Finishes(choice) == started + out;
  }

  lemma StepAgrees(n: NormalState, e: EncoderState, d: DecoderState, part: Part)
    requires Agree(n, e, d)
    ensures StepIsNormal(n, e, d, part)
  {
    match part
    case ResponseStarted(_) =>
    case ProgramItem =>
    case ResponseCompleted(_) =>
    case TextDelta(_) => TextStepIsNormal(n, e, d, part);
    case ReasoningDelta(_) => TextStepIsNormal(n, e, d, part);
    case UsageReport(_) => UsageStepIsNormal(n, e, d, part);
    case Finish(_) => FinishStepIsNormal(n, e, d, part);
    case ToolCallDelta(_, _, _) => CallStepIsNormal(n, e, d, part);
  }

  lemma OneCall(d: DecoderState, call: WireCall)
    ensures DecodeCalls(d, [call]) ==
            (var slots := Recorded(d.calls, call);
             (d.(calls := slots, sawToolCalls := true),
              CallParts(slots[call.index.GetOr(0)].0, NonEmpty(call.name), call.arguments)))
  {
    assert [call][..0] == [];
    assert DecodeCalls(d, [call][..0]) == (d, []);
    var slots := Recorded(d.calls, call);
    var out := CallParts(slots[call.index.GetOr(0)].0, NonEmpty(call.name), call.arguments);
    assert [] + out == out;
  }

  /**
   Decoding what the encoder wrote gives the normal form, whatever parts come
   in whatever order, tool calls interleaved and fragments without ids included.
   */
  lemma {:induction false} RoundTripIsNormalForm(n: NormalState, e: EncoderState, d: DecoderState, parts: seq<Part>)
    requires Agree(n, e, d)
    ensures RoundTrip(e, d, parts) == Normalise(n, parts)
    decreases |parts|
  {
    if parts != [] {
      StepAgrees(n, e, d, parts[0]);
      var (n', out) := Normal(n, parts[0]);
      match Encode(e, parts[0])
      case (e', None) =>
        RoundTripIsNormalForm(n', e', d, parts[1..]);
      case (e', Some(frame)) =>
        RoundTripIsNormalForm(n', e', Decode(d, frame).0, parts[1..]);
    }
  }

  const FRESH_ENCODER := EncoderState(None, map[])
  const FRESH_DECODER := DecoderState(None, [], false, false)

  /** The two objects joined wire to wire: what comes out is the normal form. */
  method Relay(parts: seq<Part>) returns (out: seq<Part>)
    ensures out == Normalise(START, parts)
  {
    var encoder := new ChatStreamEncoder();
    var decoder := new ChatStreamDecoder();
    out := [];
    for i := 0 to |parts|
      invariant RoundTrip(FRESH_ENCODER, FRESH_DECODER, parts) ==
                out + RoundTrip(encoder.State(), decoder.State(), parts[i..])
    {
      ghost var e, d := encoder.State(), decoder.State();
      assert parts[i..][0] == parts[i] && parts[i..][1..] == parts[i + 1..];
      var frame := encoder.EncodePart(parts[i]);
      match frame
      case None =>
        assert RoundTrip(e, d, parts[i..]) == RoundTrip(encoder.State(), d, parts[i + 1..]);
      case Some(line) =>
        var decoded := decoder.Feed(line);
        assert RoundTrip(e, d, parts[i..]) == decoded + RoundTrip(encoder.State(), decoder.State(), parts[i + 1..]);
        out := out + decoded;
    }
    RoundTripIsNormalForm(START, FRESH_ENCODER, FRESH_DECODER, parts);
  }

  // ---------------------------------------------------------------------
  // Nothing said is lost, and no call speaks for another
  // ---------------------------------------------------------------------

  /** What a reader collects: the text, the reasoning, or the arguments of one call. */
  datatype Topic = Text | Reasoning | Call(id: string)

  function Says(part: Part, topic: Topic): string {
    match topic
    case Text => if part.TextDelta? then part.text else ""
    case Reasoning => if part.ReasoningDelta? then part.text else ""
    case Call(id) => if part.ToolCallDelta? && part.id == id then part.arguments else ""
  }

  function Collected(parts: seq<Part>, topic: Topic): string {
    if parts == [] then "" else Says(parts[0], topic) + Collected(parts[1..], topic)
  }

  /** The part with its call named: a fragment without an id belongs to the latest call. */
  function Named(n: NormalState, part: Part): Part {
    if part.ToolCallDelta? then part.(id := CallOf(n, part.id)) else part
  }

  /** What the sender meant. */
  function Meant(n: NormalState, parts: seq<Part>, topic: Topic): string
    decreases |parts|
  {
    if parts == [] then "" else Says(Named(n, parts[0]), topic) + Meant(Normal(n, parts[0]).0, parts[1..], topic)
  }

  lemma {:induction false} CollectedFromConcat(a: seq<Part>, b: seq<Part>, topic: Topic)
    ensures Collected(a + b, topic) == Collected(a, topic) + Collected(b, topic)
    decreases |a|
  {
    if a == [] {
      assert a + b == b;
    } else {
      CollectedFromConcat(a[1..], b, topic);
      assert (a + b)[1..] == a[1..] + b;
    }
  }

  lemma CallPartsSay(id: string, name: Option<string>, arguments: string, topic: Topic)
    ensures Collected(CallParts(id, name, Some(arguments)), topic) == if topic == Call(id) then arguments else ""
  {
    var out := CallParts(id, name, Some(arguments));
    if |out| == 2 {
      assert out[1..] == [out[1]];
      assert Collected(out[1..], topic) == Says(out[1], topic) + Collected(out[1..][1..], topic);
    }
  }

  /** A part that is no call comes out alone or behind an announcement, or not at all. */
  lemma OtherStepCollects(n: NormalState, part: Part, topic: Topic)
    requires !part.ToolCallDelta?
    ensures Collected(Normal(n, part).1, topic) == Says(part, topic)
  {
    var out := Normal(n, part).1;
    if |out| == 2 {
      assert out[1..] == [out[1]];
      assert Collected(out[1..], topic) == Says(out[1], topic) + Collected(out[1..][1..], topic);
    }
  }

  lemma StepCollects(n: NormalState, part: Part, topic: Topic)
    ensures Collected(Normal(n, part).1, topic) == Says(Named(n, part), topic)
  {
    if part.ToolCallDelta? {
      var started, mine := Announced(n).1, CallParts(CallOf(n, part.id), NonEmpty(part.name), Some(part.arguments));
      CollectedFromConcat(started, mine, topic);
      CallPartsSay(CallOf(n, part.id), NonEmpty(part.name), part.arguments, topic);
      assert Normal(n, part).1 == started + mine;
    } else {
      OtherStepCollects(n, part, topic);
    }
  }

  /** Text, reasoning and each call's arguments arrive as they were meant. */
  lemma {:induction false} ContentSurvives(n: NormalState, parts: seq<Part>, topic: Topic)
    ensures Collected(Normalise(n, parts), topic) == Meant(n, parts, topic)
    decreases |parts|
  {
    if parts != [] {
      var (n', out) := Normal(n, parts[0]);
      StepCollects(n, parts[0], topic);
      CollectedFromConcat(out, Normalise(n', parts[1..]), topic);
      ContentSurvives(n', parts[1..], topic);
    }
  }

  /** When every fragment names its call, that is what a reader of the original collects. */
  lemma {:induction false} NamedContentSurvives(n: NormalState, parts: seq<Part>, topic: Topic)
    requires forall i :: 0 <= i < |parts| && parts[i].ToolCallDelta? ==> parts[i].id != ""
    ensures Collected(Normalise(n, parts), topic) == Collected(parts, topic)
    decreases |parts|
  {
    if parts != [] {
      var n' := Normal(n, parts[0]).0;
      NamedContentSurvives(n', parts[1..], topic);
      ContentSurvives(n', parts[1..], topic);
      assert Named(n, parts[0]) == parts[0];
    }
    ContentSurvives(n, parts, topic);
  }

  function EncodeAll(e: EncoderState, parts: seq<Part>): EncoderState
    decreases |parts|
  {
    if parts == [] then e else EncodeAll(Encode(e, parts[0]).0, parts[1..])
  }

  ghost predicate InjectiveBelowSize(indices: map<string, nat>) {
    && (forall id :: id in indices ==> indices[id] < |indices|)
    && (forall a, b :: a in indices && b in indices && indices[a] == indices[b] ==> a == b)
  }

  /** Over any stream the ids keep their indices, and the indices stay distinct and dense. */
  lemma {:induction false} IndicesAreStable(e: EncoderState, parts: seq<Part>)
    requires InjectiveBelowSize(e.indices)
    ensures InjectiveBelowSize(EncodeAll(e, parts).indices)
    ensures forall id :: id in e.indices ==>
                           id in EncodeAll(e, parts).indices && EncodeAll(e, parts).indices[id] == e.indices[id]
    decreases |parts|
  {
    if parts != [] {
      IndicesAreStable(Encode(e, parts[0]).0, parts[1..]);
    }
  }
}
