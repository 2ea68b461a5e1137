/**
 What the Chat Completions request codec makes of any messages, and the messages
 it writes, said without its own helpers: the texts of the system messages at
 their places in the system text, every other message in its place.
 */
module ChatRequestReading {
  import opened JsonValue
  import opened RequestIr
  import opened Sequences
  import opened Wrappers
  import opened ChatRequest

  // ---------------------------------------------------------------------
  // Texts joined by newlines
  // ---------------------------------------------------------------------

  /** Where the text of this number begins: behind those before it, each followed by a newline. */
  function Offset(texts: seq<string>, i: nat): nat
    requires i <= |texts|
  {
    if i == 0 then 0 else Offset(texts, i - 1) + |texts[i - 1]| + 1
  }

  predicate StandsAt(s: string, text: string, at: nat) { at + |text| <= |s| && s[at..at + |text|] == text }

  /** The text of this number stands at its place, with a newline ahead of it unless it is the first. */
  predicate InPlace(s: string, texts: seq<string>, i: nat)
    requires i < |texts|
  {
    StandsAt(s, texts[i], Offset(texts, i)) && (i > 0 ==> StandsAt(s, "\n", Offset(texts, i) - 1))
  }

  /** The texts stand in this order with one newline between neighbours, and nothing else is there. */
  ghost predicate Joins(s: string, texts: seq<string>) {
    && |s| == (if texts == [] then 0 else Offset(texts, |texts|) - 1)
    && forall i :: 0 <= i < |texts| ==> InPlace(s, texts, i)
  }

  lemma {:induction false} OffsetOfRest(first: string, rest: seq<string>, i: nat)
    requires i <= |rest|
    ensures Offset([first] + rest, i + 1) == |first| + 1 + Offset(rest, i)
  {
    if i > 0 {
      OffsetOfRest(first, rest, i - 1);
      assert ([first] + rest)[i] == rest[i - 1];
    } else {
      assert Offset([first] + rest, 0) == 0;
    }
  }

  lemma {:induction false} OffsetOfMore(texts: seq<string>, last: string, i: nat)
    requires i <= |texts|
    ensures Offset(texts + [last], i) == Offset(texts, i)
  {
    if i > 0 { OffsetOfMore(texts, last, i - 1); }
  }

  lemma {:induction false} OffsetsGrow(texts: seq<string>, i: nat, j: nat)
    requires i < j <= |texts|
    ensures Offset(texts, i) + |texts[i]| + 1 <= Offset(texts, j)
  {
    if i + 1 < j { OffsetsGrow(texts, i, j - 1); }
  }

  lemma StandsBehind(before: string, s: string, text: string, at: nat)
    requires StandsAt(s, text, at)
    ensures StandsAt(before + s, text, |before| + at)
  {
    assert (before + s)[|before| + at..|before| + at + |text|] == s[at..at + |text|];
  }

  lemma StandsAhead(s: string, behind: string, text: string, at: nat)
    requires StandsAt(s, text, at)
    ensures StandsAt(s + behind, text, at)
  {
    assert (s + behind)[at..at + |text|] == s[at..at + |text|];
  }

  lemma OneJoins(text: string)
    ensures Joins(text, [text])
  {
    assert Offset([text], 1) == Offset([text], 0) + |text| + 1;
    assert text[0..|text|] == text;
  }

  lemma FirstInPlace(first: string, s: string, rest: seq<string>)
    ensures InPlace(first + "\n" + s, [first] + rest, 0)
  {
    Associative(first, "\n", s);
    assert first[0..|first|] == first;
    StandsAhead(first, "\n" + s, first, 0);
  }

  lemma NextInPlace(first: string, s: string, rest: seq<string>, i: nat)
    requires i < |rest| && InPlace(s, rest, i)
    ensures InPlace(first + "\n" + s, [first] + rest, i + 1)
  {
    OffsetOfRest(first, rest, i);
    StandsBehind(first + "\n", s, rest[i], Offset(rest, i));
    if i > 0 {
      StandsBehind(first + "\n", s, "\n", Offset(rest, i) - 1);
    } else {
      NewlineStands(first, s);
    }
  }

  lemma NewlineStands(first: string, s: string)
    ensures StandsAt(first + "\n" + s, "\n", |first|)
  {
    assert (first + "\n" + s)[|first|..|first| + 1] == "\n";
  }

  lemma JoinsInFront(first: string, s: string, rest: seq<string>)
    requires Joins(s, rest) && rest != []
    ensures Joins(first + "\n" + s, [first] + rest)
  {
    OffsetOfRest(first, rest, |rest|);
    FirstInPlace(first, s, rest);
    forall i | 0 < i < |rest| + 1
      ensures InPlace(first + "\n" + s, [first] + rest, i)
    {
      NextInPlace(first, s, rest, i - 1);
    }
  }

  lemma StaysInPlace(s: string, texts: seq<string>, last: string, i: nat)
    requires i < |texts| && InPlace(s, texts, i)
    ensures InPlace(s + "\n" + last, texts + [last], i)
  {
    OffsetOfMore(texts, last, i);
    Associative(s, "\n", last);
    StandsAhead(s, "\n" + last, texts[i], Offset(texts, i));
    if i > 0 { StandsAhead(s, "\n" + last, "\n", Offset(texts, i) - 1); }
  }

  lemma LastInPlace(s: string, texts: seq<string>, last: string)
    requires texts != [] && |s| + 1 == Offset(texts, |texts|)
    ensures InPlace(s + "\n" + last, texts + [last], |texts|)
  {
    OffsetOfMore(texts, last, |texts|);
    NewlineStands(s, last);
    assert last[0..|last|] == last;
    StandsBehind(s + "\n", last, last, 0);
  }

  lemma JoinsBehind(s: string, texts: seq<string>, last: string)
    requires Joins(s, texts) && texts != []
    ensures Joins(s + "\n" + last, texts + [last])
  {
    OffsetOfMore(texts, last, |texts|);
    LastInPlace(s, texts, last);
    forall i | 0 <= i < |texts|
      ensures InPlace(s + "\n" + last, texts + [last], i)
    {
      StaysInPlace(s, texts, last, i);
    }
  }

  lemma {:induction false} LinesJoin(texts: seq<string>)
    ensures Joins(Lines(texts), texts)
  {
    if |texts| == 1 {
      OneJoins(texts[0]);
      assert texts == [texts[0]];
    } else if texts != [] {
      LinesJoin(texts[1..]);
      JoinsInFront(texts[0], Lines(texts[1..]), texts[1..]);
      assert texts == [texts[0]] + texts[1..];
    }
  }

  // ---------------------------------------------------------------------
  // Messages as they are told
  // ---------------------------------------------------------------------

  predicate IsSystem(w: Wire) { w.role == "system" || w.role == "developer" }

  predicate IsResult(w: Wire) { w.role == "tool" || w.role == "function" }

  function ToldRole(w: Wire): Role {
    if IsSystem(w) then System else if IsResult(w) then Tool else if w.role == "assistant" then Assistant else User
  }

  /** The first of three fields that is there. */
  function ToldReasoning(w: Wire): string {
    match (w.reasoningContent, w.reasoning, w.thinking)
    case (Some(text), _, _) => text
    case (None, Some(text), _) => text
    case (None, None, Some(text)) => text
    case (None, None, None) => ""
  }

  function PartText(p: Part): string {
    match p
    case TextPart(text, _) => text
    case ToolPart(_, content) => content
    case OtherPart(text) => text
  }

  function ToldPart(w: Wire, p: Part): Content {
    if IsResult(w) && p.ToolPart? then ToolResult(p.toolCallId, "", p.content)
    else Text(PartText(p), p.TextPart? && p.breakpoint)
  }

  function ToldBody(w: Wire): seq<Content> {
    match w.content
    case Parts(parts) => seq(|parts|, i requires 0 <= i < |parts| => ToldPart(w, parts[i]))
    case Plain(s) =>
      if IsResult(w) then [ToolResult(if w.toolCallId.Some? then w.toolCallId.value else "", w.name, s)]
      else if |s| > 0 then [Text(s, false)]
      else []
    case NoContent =>
      if IsResult(w) then [ToolResult(if w.toolCallId.Some? then w.toolCallId.value else "", w.name, "")] else []
  }

  /** Arguments are JSON in a string or as they are; a string that is no JSON stays a string. */
  function ToldArguments(json: JsonText, arguments: WireArguments): Json {
    match arguments
    case Missing => Obj(map[])
    case Parsed(Null) => Obj(map[])
    case Parsed(j) => j
    case Raw(s) => if json.fromText(s) == None then Str(s) else json.fromText(s).value
  }

  function ToldCall(json: JsonText, c: WireCall): Content {
    match c
    case Function(id, name, arguments) => ToolCall(id, name, ToldArguments(json, arguments), None, None)
    case Custom(id, name, input) => ToolCall(id, name, Str(input), None, Some("custom"))
  }

  function ToldCalls(json: JsonText, w: Wire): seq<Content> {
    match w.toolCalls
    case None => []
    case Some(calls) => seq(|calls|, i requires 0 <= i < |calls| => ToldCall(json, calls[i]))
  }

  /** Nothing is on the wire that would become content. */
  predicate SaysNothing(w: Wire) {
    && !IsResult(w) && ToldReasoning(w) == ""
    && (w.content == NoContent || w.content == Plain("") || w.content == Parts([]))
    && (w.toolCalls == None || w.toolCalls == Some([]))
  }

  predicate IsEmptyResult(w: Wire) {
    IsResult(w) && ToldReasoning(w) == "" && w.content == Parts([]) && (w.toolCalls == None || w.toolCalls == Some([]))
  }

  /** Reasoning, then the body, then the calls; a message with none of them has one empty text. */
  function ToldContent(json: JsonText, w: Wire): seq<Content> {
    if SaysNothing(w) || IsEmptyResult(w) then [Text("", false)]
    else
      (if ToldReasoning(w) == "" then [] else [Reasoning(ToldReasoning(w))]) + ToldBody(w) + ToldCalls(json, w)
  }

  function Told(json: JsonText, w: Wire): Message { Message(ToldRole(w), ToldContent(json, w)) }

  lemma BodyIsTold(w: Wire)
    ensures DecodeBody(RoleOf(w.role), w) == ToldBody(w)
  {
    if w.content.Parts? {
      EachSingle(PartDecoder(RoleOf(w.role)), w.content.parts);
    }
  }

  lemma CallsAreTold(json: JsonText, w: Wire)
    ensures Each(CallDecoder(json), w.toolCalls.GetOr([])) == ToldCalls(json, w)
  {
    if w.toolCalls.Some? {
      var calls := w.toolCalls.value;
      EachSingle(CallDecoder(json), calls);
      forall i | 0 <= i < |calls|
        ensures DecodeCall(json, calls[i]) == ToldCall(json, calls[i])
      {
      }
    }
  }

  lemma MessageIsTold(json: JsonText, w: Wire)
    ensures DecodeMessage(json, w) == Told(json, w)
  {
    BodyIsTold(w);
    CallsAreTold(json, w);
    var content :=
      Leading(ReasoningOf(w)) + DecodeBody(RoleOf(w.role), w) + Each(CallDecoder(json), w.toolCalls.GetOr([]));
    assert content == [] <==> SaysNothing(w) || IsEmptyResult(w);
  }

  // ---------------------------------------------------------------------
  // The system text
  // ---------------------------------------------------------------------

  /** The texts of a system message as they are on the wire; one with nothing at all has an empty text. */
  function SystemTexts(w: Wire): seq<string> {
    if !IsSystem(w) then []
    else if SaysNothing(w) then [""]
    else
      match w.content
      case Parts(parts) => seq(|parts|, i requires 0 <= i < |parts| => PartText(parts[i]))
      case Plain(s) => if s == "" then [] else [s]
      case NoContent => []
  }

  predicate Marks(w: Wire) { IsSystem(w) && w.content.Parts? && exists p :: p in w.content.parts && IsMarked(p) }

  predicate IsMarked(p: Part) { p.TextPart? && p.breakpoint }

  /** Some system message has a part that ends a cached prefix. */
  predicate AnyMarks(wires: seq<Wire>) { exists w :: w in wires && Marks(w) }

  function Kept(json: JsonText): Wire -> seq<Message> {
    w => if IsSystem(w) then [] else [Told(json, w)]
  }

  lemma TextsOfCalls(calls: seq<Content>)
    requires forall c :: c in calls ==> c.ToolCall?
    ensures Each(ChunkOf, calls) == []
  {
    EachNothing(ChunkOf, calls);
  }

  lemma TextsOfBody(w: Wire)
    requires IsSystem(w)
    ensures Each(ChunkOf, ToldBody(w)) ==
            match w.content
            case Parts(parts) => seq(|parts|, i requires 0 <= i < |parts| => PartText(parts[i]))
            case Plain(s) => if s == "" then [] else [s]
            case NoContent => []
  {
    EachSingle(ChunkOf, ToldBody(w));
  }

  lemma OnlyBodyHasTexts(json: JsonText, w: Wire)
    ensures var lead := if ToldReasoning(w) == "" then [] else [Reasoning(ToldReasoning(w))];
            Each(ChunkOf, lead + ToldBody(w) + ToldCalls(json, w)) == Each(ChunkOf, ToldBody(w))
  {
    var lead := if ToldReasoning(w) == "" then [] else [Reasoning(ToldReasoning(w))];
    EachConcat(ChunkOf, lead + ToldBody(w), ToldCalls(json, w));
    EachConcat(ChunkOf, lead, ToldBody(w));
    EachNothing(ChunkOf, lead);
    TextsOfCalls(ToldCalls(json, w));
  }

  lemma SystemTextsAre(json: JsonText, w: Wire)
    ensures TextChunks(Told(json, w)) == SystemTexts(w)
  {
    if IsSystem(w) {
      if SaysNothing(w) {
        EachOne(ChunkOf, Text("", false));
      } else {
        OnlyBodyHasTexts(json, w);
        TextsOfBody(w);
      }
    }
  }

  lemma MarksBreak(json: JsonText, w: Wire)
    requires Marks(w)
    ensures HasBreakpoint(Told(json, w))
  {
    var parts, body := w.content.parts, ToldBody(w);
    var i :| 0 <= i < |parts| && IsMarked(parts[i]);
    assert body[i] == ToldPart(w, parts[i]) && Breaks(body[i]);
    assert body[i] in ToldContent(json, w);
  }

  lemma BreaksAreMarks(json: JsonText, w: Wire)
    requires HasBreakpoint(Told(json, w))
    ensures Marks(w)
  {
    var body := ToldBody(w);
    var c :| c in ToldContent(json, w) && Breaks(c);
    assert c in body;
    var i :| 0 <= i < |body| && body[i] == c;
    assert IsMarked(w.content.parts[i]);
  }

  lemma MarksAre(json: JsonText, w: Wire)
    ensures HasBreakpoint(Told(json, w)) <==> Marks(w)
  {
    if Marks(w) { MarksBreak(json, w); }
    if HasBreakpoint(Told(json, w)) { BreaksAreMarks(json, w); }
  }

  lemma AllAreTold(json: JsonText, wires: seq<Wire>)
    ensures var all := Each(MessageDecoder(json), wires);
            && |all| == |wires|
            && (forall i :: 0 <= i < |wires| ==> all[i] == Told(json, wires[i]))
            && (AnyBreakpoint(all) <==> AnyMarks(wires))
  {
    var all := Each(MessageDecoder(json), wires);
    EachSingle(MessageDecoder(json), wires);
    forall i | 0 <= i < |wires|
      ensures all[i] == Told(json, wires[i])
      ensures HasBreakpoint(all[i]) <==> Marks(wires[i])
    {
      MessageIsTold(json, wires[i]);
      MarksAre(json, wires[i]);
    }
    if m :| m in all && HasBreakpoint(m) {
      var i :| 0 <= i < |all| && all[i] == m;
      assert Marks(wires[i]);
    }
    if w :| w in wires && Marks(w) {
      var i :| 0 <= i < |wires| && wires[i] == w;
      assert HasBreakpoint(all[i]);
    }
  }

  lemma SystemIsTakenOut(json: JsonText, wires: seq<Wire>)
    ensures var all := Each(MessageDecoder(json), wires);
            && Each(TextChunks, all) == Each(SystemTexts, wires) && Each(NonSystem, all) == Each(Kept(json), wires)
  {
    forall w: Wire
      ensures Each(TextChunks, MessageDecoder(json)(w)) == SystemTexts(w)
      ensures Each(NonSystem, MessageDecoder(json)(w)) == Kept(json)(w)
    {
      MessageIsTold(json, w);
      SystemTextsAre(json, w);
      EachOne(TextChunks, Told(json, w));
      EachOne(NonSystem, Told(json, w));
    }
    EachFused(MessageDecoder(json), TextChunks, SystemTexts, wires);
    EachFused(MessageDecoder(json), NonSystem, Kept(json), wires);
  }

  /**
   Without a breakpoint among the system messages every one of their texts is found in
   the system text, in order and with a newline between neighbours, and there is no
   system text exactly when the wire has none. The other messages stay in order.
   */
  lemma SystemTextIsJoined(json: JsonText, wires: seq<Wire>)
    requires !AnyMarks(wires)
    ensures var r, texts := Decoded(json, wires), Each(SystemTexts, wires);
            && (r.system.None? <==> texts == [])
            && (r.system.Some? ==> Joins(r.system.value, texts))
            && r.messages == Each(Kept(json), wires)
  {
    AllAreTold(json, wires);
    SystemIsTakenOut(json, wires);
    LinesJoin(Each(SystemTexts, wires));
  }

  /** With a breakpoint there is no system text, and every message stays in its place. */
  lemma MarkedMessagesStay(json: JsonText, wires: seq<Wire>)
    requires AnyMarks(wires)
    ensures var r := Decoded(json, wires);
            && r.system == None && |r.messages| == |wires|
            && forall i :: 0 <= i < |wires| ==> r.messages[i] == Told(json, wires[i])
  {
    AllAreTold(json, wires);
  }

  // ---------------------------------------------------------------------
  // Messages as they are written
  // ---------------------------------------------------------------------

  function WrittenRole(role: Role): string {
    if role == System then "system" else if role == Tool then "tool" else if role == User then "user" else "assistant"
  }

  function WrittenText(c: Content): seq<Part> {
    if c.Text? then [TextPart(c.text, c.breakpoint)] else if c.Refusal? then [TextPart(c.text, false)] else []
  }

  /** The input of a custom call: its "input" string, the string it is, or its JSON. */
  function WrittenInput(json: JsonText, arguments: Json): string {
    match arguments
    case Str(s) => s
    case Obj(fields) => if "input" in fields && fields["input"].Str? then fields["input"].s else json.toText(arguments)
    case _ => json.toText(arguments)
  }

  function WrittenCall(json: JsonText): Content -> seq<WireCall> {
    (c: Content) =>
      match c
      case ToolCall(id, name, arguments, callId, wireType) =>
        var wireId := if callId.Some? then callId.value else id;
        if wireType == Some("custom") || wireType == Some("custom_tool_call")
        then [Custom(wireId, name, WrittenInput(json, arguments))]
        else [Function(wireId, name, Raw(match arguments case Str(s) => s case _ => json.toText(arguments)))]
      case _ => []
  }

  function WrittenResult(c: Content): seq<Wire> {
    match c
    case ToolResult(id, _, content) => [Wire("tool", Some(id), "", Plain(content), None, None, None, None)]
    case _ => []
  }

  predicate IsUnmarked(p: Part) { p.TextPart? && !p.breakpoint }

  function Thought(c: Content): seq<string> { if c.Reasoning? then [c.text] else [] }

  function FromFirstText(texts: seq<string>): seq<string> {
    if texts != [] && texts[0] == "" then FromFirstText(texts[1..]) else texts
  }

  /**
   One unmarked text stands alone and several as a list; calls without a text have no
   content. Reasoning goes with calls only.
   */
  function WrittenMain(role: Role, texts: seq<Part>, reasoning: string, calls: seq<WireCall>): Wire {
    var content := if |texts| == 1 && IsUnmarked(texts[0]) then Plain(texts[0].text)
                   else if |texts| > 0 then Parts(texts)
                   else if |calls| > 0 then NoContent
                   else Plain("");
    if calls == [] then Wire(WrittenRole(role), None, "", content, None, None, None, None)
    else Wire(WrittenRole(role), None, "", content, if reasoning == "" then None else Some(reasoning), None, None,
              Some(calls))
  }

  function Written(json: JsonText): Message -> seq<Wire> {
    (m: Message) =>
      var texts, calls := Each(WrittenText, m.content), Each(WrittenCall(json), m.content);
      Each(WrittenResult, m.content) +
      if m.content == [] || texts != [] || calls != [] then
        [WrittenMain(m.role, texts, ReasoningFrom("", m.content), calls)]
      else
        []
  }

  lemma {:induction false} ReasoningFollows(text: string, before: seq<string>, content: seq<Content>)
    requires text != "" && before != [] && Joins(text, before)
    ensures Joins(ReasoningFrom(text, content), before + Each(Thought, content))
    decreases |content|
  {
    if content == [] {
      assert before + [] == before;
    } else if content[0].Reasoning? {
      var more, rest := content[0].text, content[1..];
      JoinsBehind(text, before, more);
      ReasoningFollows(text + "\n" + more, before + [more], rest);
      Associative(before, [more], Each(Thought, rest));
    } else {
      ReasoningFollows(text, before, content[1..]);
      assert [] + Each(Thought, content[1..]) == Each(Thought, content[1..]);
    }
  }

  /** From the first that is not empty on, the reasoning texts are joined. */
  lemma {:induction false} ReasoningIsJoined(content: seq<Content>)
    ensures Joins(ReasoningFrom("", content), FromFirstText(Each(Thought, content)))
  {
    if content != [] {
      var rest := content[1..];
      ReasoningIsJoined(rest);
      if content[0].Reasoning? {
        var more := content[0].text;
        assert Each(Thought, content) == [more] + Each(Thought, rest);
        assert ([more] + Each(Thought, rest))[0] == more && ([more] + Each(Thought, rest))[1..] == Each(Thought, rest);
        assert "" + more == more;
        if more != "" {
          OneJoins(more);
          ReasoningFollows(more, [more], rest);
        }
      } else {
        assert [] + Each(Thought, rest) == Each(Thought, rest);
      }
    }
  }

  lemma {:induction false} SameEach<A, B>(f: A -> seq<B>, g: A -> seq<B>, xs: seq<A>)
    requires forall x :: x in xs ==> f(x) == g(x)
    ensures Each(f, xs) == Each(g, xs)
  {
    if xs != [] { SameEach(f, g, xs[1..]); }
  }

  lemma CallIsWritten(json: JsonText, c: Content)
    ensures CallEncoder(json)(c) == WrittenCall(json)(c)
  {
    if c.ToolCall? {
      assert CustomInput(json, c.arguments) == WrittenInput(json, c.arguments);
    }
  }

  lemma MainIsWritten(role: Role, texts: seq<Part>, reasoning: string, calls: seq<WireCall>)
    ensures MainMessage(role, texts, reasoning, calls) == WrittenMain(role, texts, reasoning, calls)
  {
  }

  lemma MessageIsWritten(json: JsonText, m: Message)
    ensures EncodeMessage(json, m) == Written(json)(m)
  {
    SameEach(EncodeText, WrittenText, m.content);
    forall c | c in m.content
      ensures CallEncoder(json)(c) == WrittenCall(json)(c)
    {
      CallIsWritten(json, c);
    }
    SameEach(CallEncoder(json), WrittenCall(json), m.content);
    SameEach(EncodeResult, WrittenResult, m.content);
    MainIsWritten(m.role, Each(WrittenText, m.content), ReasoningFrom("", m.content),
                  Each(WrittenCall(json), m.content));
  }

  /** Every request is written as the system text and then each message: its results, and what else it says. */
  lemma RequestIsWritten(json: JsonText, ir: Request)
    ensures Encoded(json, ir) ==
            (match ir.system
             case None => []
             case Some(s) => [Wire("system", None, "", Plain(s), None, None, None, None)]) +
            Each(Written(json), ir.messages)
  {
    forall m | m in ir.messages
      ensures MessageEncoder(json)(m) == Written(json)(m)
    {
      MessageIsWritten(json, m);
    }
    SameEach(MessageEncoder(json), Written(json), ir.messages);
  }
}
