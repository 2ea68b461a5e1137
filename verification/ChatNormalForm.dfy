/**
 What encoding a Chat Completions request and decoding it again does to the IR,
 said on the IR alone, and exactly when doing it twice is doing it once.
 */
module ChatNormalForm {
  import opened ChatRequest
  import opened JsonValue
  import opened RequestIr
  import opened Sequences
  import opened Wrappers

  // ---------------------------------------------------------------------
  // The normal form
  // ---------------------------------------------------------------------

  function NormalText(c: Content): seq<Content> {
    match c
    case Text(_, _) => [c]
    case Refusal(text) => [Text(text, false)]
    case _ => []
  }

  /** Text that happens to be JSON is read as that JSON; any other value stays. */
  function NormalArguments(json: JsonText, arguments: Json): Json {
    if arguments.Str? then json.fromText(arguments.s).GetOr(arguments) else arguments
  }

  function NormalCall(json: JsonText, c: Content): Content
    requires c.ToolCall?
  {
    if IsCustom(c.wireType) then
      ToolCall(c.callId.GetOr(c.id), c.name, Str(CustomInput(json, c.arguments)), None, Some("custom"))
    else
      ToolCall(c.callId.GetOr(c.id), c.name, NormalArguments(json, c.arguments), None, None)
  }

  function CallNormalizer(json: JsonText): Content -> seq<Content> {
    (c: Content) => if c.ToolCall? then [NormalCall(json, c)] else []
  }

  function NormalResult(c: Content): seq<Message> {
    if c.ToolResult? then [Message(Tool, [ToolResult(c.toolCallId, "", c.content)])] else []
  }

  /** The texts go out as an array. */
  predicate Listed(texts: seq<Content>) { |texts| > 1 || (|texts| == 1 && texts[0].Text? && texts[0].breakpoint) }

  /** A lone text of a tool message turns into a result without an id; a lone empty text elsewhere is dropped. */
  function Body(role: Role, texts: seq<Content>): seq<Content> {
    if Listed(texts) then texts
    else
      var text := if texts != [] && texts[0].Text? then texts[0].text else "";
      if role.Tool? then [ToolResult("", "", text)] else if text == "" then [] else [Text(text, false)]
  }

  /** Reasoning first and only with tool calls, then the texts, then the calls. */
  function Assembled(role: Role, reasoning: string, texts: seq<Content>, calls: seq<Content>): seq<Content> {
    OrBlank((if calls == [] then [] else Leading(reasoning)) + Body(role, texts) + calls)
  }

  function Main(json: JsonText, m: Message): seq<Message> {
    var texts, calls := Each(NormalText, m.content), Each(CallNormalizer(json), m.content);
    if texts == [] && calls == [] && m.content != [] then []
    else [Message(m.role, Assembled(m.role, ReasoningFrom("", m.content), texts, calls))]
  }

  /** Every tool result in a message of its own, ahead of what remains of the message. */
  function NormalMessage(json: JsonText, m: Message): seq<Message> { Each(NormalResult, m.content) + Main(json, m) }

  function Normalizer(json: JsonText): Message -> seq<Message> { m => NormalMessage(json, m) }

  function SystemMessage(system: Option<string>): seq<Message> {
    match system
    case None => []
    case Some(s) => [Message(System, [Text(s, false)])]
  }

  function NormalForm(json: JsonText, ir: Request): Request {
    Extracted(Each(Normalizer(json), SystemMessage(ir.system) + ir.messages))
  }

  // ---------------------------------------------------------------------
  // Decoding what was encoded
  // ---------------------------------------------------------------------

  lemma TextsDecode(role: Role, content: seq<Content>)
    ensures Each(PartDecoder(role), Each(EncodeText, content)) == Each(NormalText, content)
  {
    forall c: Content
      ensures Each(PartDecoder(role), EncodeText(c)) == NormalText(c)
    {
      if EncodeText(c) != [] { EachOne(PartDecoder(role), EncodeText(c)[0]); }
    }
    EachFused(EncodeText, PartDecoder(role), NormalText, content);
  }

  lemma ArgumentsDecode(json: JsonText, arguments: Json)
    requires json.Faithful()
    ensures DecodeArguments(json, Raw(ArgumentsText(json, arguments))) == NormalArguments(json, arguments)
  {
  }

  lemma CallsDecode(json: JsonText, content: seq<Content>)
    requires json.Faithful()
    ensures Each(CallDecoder(json), Each(CallEncoder(json), content)) == Each(CallNormalizer(json), content)
  {
    forall c: Content
      ensures Each(CallDecoder(json), CallEncoder(json)(c)) == CallNormalizer(json)(c)
    {
      if c.ToolCall? {
        EachOne(CallDecoder(json), EncodeCall(json, c));
        ArgumentsDecode(json, c.arguments);
      }
    }
    EachFused(CallEncoder(json), CallDecoder(json), CallNormalizer(json), content);
  }

  lemma ResultsDecode(json: JsonText, content: seq<Content>)
    ensures Each(MessageDecoder(json), Each(EncodeResult, content)) == Each(NormalResult, content)
  {
    forall c: Content
      ensures Each(MessageDecoder(json), EncodeResult(c)) == NormalResult(c)
    {
      if c.ToolResult? {
        var w := ResultMessage(c.toolCallId, c.content);
        EachOne(MessageDecoder(json), w);
        assert Each(CallDecoder(json), []) == [];
        assert [] + [ToolResult(c.toolCallId, "", c.content)] + [] == [ToolResult(c.toolCallId, "", c.content)];
      }
    }
    EachFused(EncodeResult, MessageDecoder(json), NormalResult, content);
  }

  /** Encoded texts are "text" parts, one for each text of the normal form. */
  lemma TextsAreTextParts(role: Role, content: seq<Content>)
    ensures var parts, texts := Each(EncodeText, content), Each(NormalText, content);
            |parts| == |texts| && forall i :: 0 <= i < |parts| ==>
              parts[i].TextPart? && texts[i] == Text(parts[i].text, parts[i].breakpoint)
  {
    var parts := Each(EncodeText, content);
    TextsDecode(role, content);
    EachSingle(PartDecoder(role), parts);
    forall p | p in parts
      ensures p.TextPart?
    {
      EachMember(EncodeText, content, p);
    }
  }

  lemma BodyDecodes(role: Role, content: seq<Content>, w: Wire, calls: seq<WireCall>)
    requires w.content == ContentField(Each(EncodeText, content), calls) && w.toolCallId.None? && w.name == ""
    ensures DecodeBody(role, w) == Body(role, Each(NormalText, content))
  {
    TextsAreTextParts(role, content);
    TextsDecode(role, content);
  }

  lemma RolesDecode(role: Role)
    ensures RoleOf(RoleName(role)) == role
  {
  }

  lemma MainDecodes(json: JsonText, m: Message)
    requires json.Faithful()
    ensures var texts, calls := Each(EncodeText, m.content), Each(CallEncoder(json), m.content);
            DecodeMessage(json, MainMessage(m.role, texts, ReasoningFrom("", m.content), calls)) ==
            Message(m.role, Assembled(m.role, ReasoningFrom("", m.content), Each(NormalText, m.content),
                                      Each(CallNormalizer(json), m.content)))
  {
    var texts, calls := Each(EncodeText, m.content), Each(CallEncoder(json), m.content);
    var w := MainMessage(m.role, texts, ReasoningFrom("", m.content), calls);
    RolesDecode(m.role);
    BodyDecodes(m.role, m.content, w, calls);
    CallsDecode(json, m.content);
    EachSingle(CallDecoder(json), calls);
    assert w.toolCalls.GetOr([]) == calls;
  }

  lemma MessageDecodes(json: JsonText, m: Message)
    requires json.Faithful()
    ensures Each(MessageDecoder(json), EncodeMessage(json, m)) == NormalMessage(json, m)
  {
    var texts, calls := Each(EncodeText, m.content), Each(CallEncoder(json), m.content);
    var main := MainMessage(m.role, texts, ReasoningFrom("", m.content), calls);
    var tail := if texts != [] || calls != [] || m.content == [] then [main] else [];
    EachConcat(MessageDecoder(json), Each(EncodeResult, m.content), tail);
    ResultsDecode(json, m.content);
    MainDecodes(json, m);
    EachOne(MessageDecoder(json), main);
    TextsAreTextParts(m.role, m.content);
    CallsDecode(json, m.content);
    EachSingle(CallDecoder(json), calls);
  }

  lemma SystemDecodes(json: JsonText, system: Option<string>)
    ensures Each(MessageDecoder(json), SystemWire(system)) == Each(Normalizer(json), SystemMessage(system)) ==
            SystemMessage(system)
  {
    if system.Some? {
      var s := system.value;
      var m := Message(System, [Text(s, false)]);
      EachOne(MessageDecoder(json), SystemWire(system)[0]);
      EachOne(Normalizer(json), m);
      EachOne(NormalText, m.content[0]);
      EachOne(CallNormalizer(json), m.content[0]);
      EachOne(NormalResult, m.content[0]);
      assert Each(CallDecoder(json), []) == [];
      assert DecodeMessage(json, SystemWire(system)[0]) == m;
      assert Main(json, m) == [m];
    }
  }

  /** Decoding an encoded request gives the IR's normal form. */
  lemma RoundTripIsNormalForm(json: JsonText, ir: Request)
    requires json.Faithful()
    ensures Decoded(json, Encoded(json, ir)) == NormalForm(json, ir)
  {
    forall m: Message
      ensures Each(MessageDecoder(json), MessageEncoder(json)(m)) == Normalizer(json)(m)
    {
      MessageDecodes(json, m);
    }
    EachFused(MessageEncoder(json), MessageDecoder(json), Normalizer(json), ir.messages);
    SystemDecodes(json, ir.system);
    EachConcat(MessageDecoder(json), SystemWire(ir.system), Each(MessageEncoder(json), ir.messages));
    EachConcat(Normalizer(json), SystemMessage(ir.system), ir.messages);
  }

  // ---------------------------------------------------------------------
  // When the normal form is final
  // ---------------------------------------------------------------------

  predicate HasCalls(m: Message) { exists c :: c in m.content && c.ToolCall? }

  /** A string argument that parses as JSON parses as something that will not parse on. */
  predicate ArgumentsSettle(json: JsonText, c: Content) {
    c.ToolCall? && !IsCustom(c.wireType) && c.arguments.Str? ==>
      match json.fromText(c.arguments.s)
      case None => true
      case Some(j) => j.Str? ==> json.fromText(j.s) == None || json.fromText(j.s) == Some(j)
  }

  /** The call arguments settle, and a tool message with calls carries its texts as an array. */
  predicate Settled(json: JsonText, m: Message) {
    && (forall c :: c in m.content ==> ArgumentsSettle(json, c))
    && (m.role.Tool? && HasCalls(m) ==> Listed(Each(NormalText, m.content)))
  }

  lemma CallSettles(json: JsonText, c: Content)
    requires c.ToolCall?
    ensures NormalCall(json, NormalCall(json, c)) == NormalCall(json, c) <==> ArgumentsSettle(json, c)
  {
  }

  /** Arguments that are JSON printed twice over change twice. */
  lemma QuotedTwiceChangesTwice(json: JsonText, id: string, name: string, inner: Json)
    requires json.Faithful() && !inner.Str?
    ensures var once := Str(json.toText(inner));
            var c := ToolCall(id, name, Str(json.toText(once)), None, None);
            && !ArgumentsSettle(json, c) && NormalCall(json, c) == c.(arguments := once)
            && NormalCall(json, NormalCall(json, c)) == c.(arguments := inner)
  {
    var once := Str(json.toText(inner));
    assert json.fromText(json.toText(inner)) == Some(inner) && json.fromText(json.toText(once)) == Some(once);
  }

  lemma CallsSettle(json: JsonText, content: seq<Content>)
    ensures var calls := Each(CallNormalizer(json), content);
            && (Each(CallNormalizer(json), calls) == calls <==> forall c :: c in content ==> ArgumentsSettle(json, c))
            && |Each(CallNormalizer(json), calls)| == |calls|
            && (calls != [] <==> exists c :: c in content && c.ToolCall?)
            && (forall x :: x in calls ==> x.ToolCall?)
  {
    var f := CallNormalizer(json);
    var calls := Each(f, content);
    forall x
      ensures x in calls <==> exists c :: c in content && c.ToolCall? && x == NormalCall(json, c)
    {
      EachMember(f, content, x);
      if c :| c in content && c.ToolCall? && x == NormalCall(json, c) { assert x in f(c); }
    }
    EachSingle(f, calls);
    EachKeepsIff(f, calls);
    forall c | c in content && c.ToolCall?
      ensures NormalCall(json, c) in calls
      ensures f(NormalCall(json, c)) == [NormalCall(json, c)] <==> ArgumentsSettle(json, c)
    {
      CallSettles(json, c);
    }
    if calls != [] { assert calls[0] in calls; }
  }

  /** The texts of a normal form. */
  ghost predicate AreTexts(texts: seq<Content>) { forall c :: c in texts ==> c.Text? }

  lemma TextsAreTexts(content: seq<Content>)
    ensures AreTexts(Each(NormalText, content))
  {
    forall c | c in Each(NormalText, content)
      ensures c.Text?
    {
      EachMember(NormalText, content, c);
    }
  }

  lemma TextsStay(texts: seq<Content>)
    requires AreTexts(texts)
    ensures Each(NormalText, texts) == texts
  {
    EachKeepsIff(NormalText, texts);
  }

  lemma {:induction false} NoReasoning(text: string, content: seq<Content>)
    requires forall c :: c in content ==> !c.Reasoning?
    ensures ReasoningFrom(text, content) == text
    decreases |content|
  {
    if content != [] { NoReasoning(text, content[1..]); }
  }

  lemma TextsOfParts(lead: seq<Content>, body: seq<Content>, calls: seq<Content>)
    requires (forall c :: c in lead ==> c.Reasoning?) && (forall c :: c in calls ==> c.ToolCall?)
    ensures Each(NormalText, lead + body + calls) == Each(NormalText, body)
    ensures Each(NormalResult, lead + body + calls) == Each(NormalResult, body)
  {
    MiddleOnly(NormalText, lead, body, calls);
    MiddleOnly(NormalResult, lead, body, calls);
  }

  lemma CallsOfParts(json: JsonText, lead: seq<Content>, body: seq<Content>, calls: seq<Content>)
    requires (forall c :: c in lead ==> c.Reasoning?) && (forall c :: c in body ==> !c.ToolCall?)
    ensures Each(CallNormalizer(json), lead + body + calls) == Each(CallNormalizer(json), calls)
  {
    LastOnly(CallNormalizer(json), lead, body, calls);
  }

  /** The content of a main message taken apart again. */
  lemma PartsOfAssembled(json: JsonText, reasoning: string, body: seq<Content>, calls: seq<Content>)
    requires forall c :: c in calls ==> c.ToolCall?
    requires forall c :: c in body ==> c.Text? || c.ToolResult?
    ensures var content := (if calls == [] then [] else Leading(reasoning)) + body + calls;
            && Each(NormalText, content) == Each(NormalText, body)
            && Each(NormalResult, content) == Each(NormalResult, body)
            && Each(CallNormalizer(json), content) == Each(CallNormalizer(json), calls)
            && ReasoningFrom("", content) == if calls == [] then "" else reasoning
  {
    var lead := if calls == [] then [] else Leading(reasoning);
    TextsOfParts(lead, body, calls);
    CallsOfParts(json, lead, body, calls);
    ReasoningOfParts(lead, body, calls);
  }

  lemma ReasoningOfParts(lead: seq<Content>, body: seq<Content>, calls: seq<Content>)
    requires lead == [] || (|lead| == 1 && lead[0].Reasoning?)
    requires forall c :: c in calls ==> c.ToolCall?
    requires forall c :: c in body ==> c.Text? || c.ToolResult?
    ensures ReasoningFrom("", lead + body + calls) == if lead == [] then "" else lead[0].text
  {
    Associative(lead, body, calls);
    LeadingReasoning(lead, body + calls);
  }

  lemma MiddleOnly<B>(f: Content -> seq<B>, a: seq<Content>, b: seq<Content>, c: seq<Content>)
    requires forall x :: x in a || x in c ==> f(x) == []
    ensures Each(f, a + b + c) == Each(f, b)
  {
    EachConcat(f, a + b, c);
    EachConcat(f, a, b);
    EachNothing(f, a);
    EachNothing(f, c);
  }

  lemma LastOnly<B>(f: Content -> seq<B>, a: seq<Content>, b: seq<Content>, c: seq<Content>)
    requires forall x :: x in a || x in b ==> f(x) == []
    ensures Each(f, a + b + c) == Each(f, c)
  {
    EachConcat(f, a + b, c);
    EachConcat(f, a, b);
    EachNothing(f, a);
    EachNothing(f, b);
  }

  lemma LeadingReasoning(lead: seq<Content>, rest: seq<Content>)
    requires lead == [] || (|lead| == 1 && lead[0].Reasoning?)
    requires forall c :: c in rest ==> !c.Reasoning?
    ensures ReasoningFrom("", lead + rest) == if lead == [] then "" else lead[0].text
  {
    if lead == [] {
      assert lead + rest == rest;
      NoReasoning("", rest);
    } else {
      assert (lead + rest)[1..] == rest;
      NoReasoning(lead[0].text, rest);
      assert "" + lead[0].text == lead[0].text;
    }
  }

  /** Normalising an assembled message that holds no result: only the calls can change. */
  lemma AssembledAgain(json: JsonText, role: Role, reasoning: string, texts: seq<Content>, calls: seq<Content>)
    requires AreTexts(texts) && (forall c :: c in calls ==> c.ToolCall?)
    requires role.Tool? ==> Listed(texts)
    requires |Each(CallNormalizer(json), calls)| == |calls|
    ensures NormalMessage(json, Message(role, Assembled(role, reasoning, texts, calls))) ==
            [Message(role, Assembled(role, reasoning, texts, Each(CallNormalizer(json), calls)))]
  {
    var body, calls' := Body(role, texts), Each(CallNormalizer(json), calls);
    var x := Message(role, Assembled(role, reasoning, texts, calls));
    if body == [] && calls == [] {
      assert x.content == [Text("", false)];
      BlankIsFixed(json, role);
    } else {
      PartsOfAssembled(json, reasoning, body, calls);
      TextsStay(body);
      EachNothing(NormalResult, body);
      OneMessage(json, x);
      assert Body(role, body) == body;
    }
  }

  lemma OneMessage(json: JsonText, x: Message)
    requires Each(NormalResult, x.content) == []
    requires Each(NormalText, x.content) != [] || Each(CallNormalizer(json), x.content) != []
    ensures NormalMessage(json, x) ==
            [Message(x.role, Assembled(x.role, ReasoningFrom("", x.content), Each(NormalText, x.content),
                                       Each(CallNormalizer(json), x.content)))]
  {
  }

  lemma BlankIsFixed(json: JsonText, role: Role)
    requires !role.Tool?
    ensures Fixed(json, Message(role, [Text("", false)]))
  {
    var c := Text("", false);
    EachOne(NormalText, c);
    EachOne(NormalResult, c);
    EachOne(CallNormalizer(json), c);
  }

  /** A tool message with calls and a lone text: its result leaves it, and the calls stay behind. */
  lemma ToolMainAgain(json: JsonText, reasoning: string, texts: seq<Content>, calls: seq<Content>)
    requires (forall c :: c in calls ==> c.ToolCall?) && !Listed(texts) && calls != []
    requires |Each(CallNormalizer(json), calls)| == |calls|
    ensures var x := Message(Tool, Assembled(Tool, reasoning, texts, calls));
            && |NormalMessage(json, x)| == 2 && NormalMessage(json, x)[1] in Main(json, x)
            && Each(NormalText, x.content) == []
  {
    var body := Body(Tool, texts);
    var x := Message(Tool, Assembled(Tool, reasoning, texts, calls));
    assert x.content == Leading(reasoning) + body + calls;
    PartsOfAssembled(json, reasoning, body, calls);
    LoneResult(body[0]);
    TwoMessages(json, x);
  }

  lemma LoneResult(c: Content)
    requires c.ToolResult?
    ensures |Each(NormalResult, [c])| == 1 && Each(NormalText, [c]) == []
  {
    EachOne(NormalResult, c);
    EachOne(NormalText, c);
  }

  lemma TwoMessages(json: JsonText, x: Message)
    requires |Each(NormalResult, x.content)| == 1 && Each(CallNormalizer(json), x.content) != []
    ensures |NormalMessage(json, x)| == 2 && NormalMessage(json, x)[1] in Main(json, x)
  {
  }

  predicate Fixed(json: JsonText, m: Message) { NormalMessage(json, m) == [m] }

  lemma ResultsAreFixed(json: JsonText, id: string, content: string)
    ensures Fixed(json, Message(Tool, [ToolResult(id, "", content)]))
  {
    var m := Message(Tool, [ToolResult(id, "", content)]);
    EachOne(NormalText, m.content[0]);
    EachOne(CallNormalizer(json), m.content[0]);
    EachOne(NormalResult, m.content[0]);
  }

  lemma MainSettles(json: JsonText, m: Message)
    requires Main(json, m) != []
    ensures var x := Main(json, m)[0];
            NormalMessage(json, x) != [] && (Fixed(json, x) <==> Settled(json, m))
  {
    var texts, calls := Each(NormalText, m.content), Each(CallNormalizer(json), m.content);
    var reasoning := ReasoningFrom("", m.content);
    var calls' := Each(CallNormalizer(json), calls);
    TextsAreTexts(m.content);
    CallsSettle(json, m.content);
    if m.role.Tool? && !Listed(texts) {
      if calls == [] {
        assert Main(json, m)[0].content == Body(Tool, texts);
        ResultsAreFixed(json, "", Body(Tool, texts)[0].content);
      } else {
        ToolMainAgain(json, reasoning, texts, calls);
      }
    } else {
      AssembledAgain(json, m.role, reasoning, texts, calls);
      AssembledInjective(m.role, reasoning, texts, calls, calls');
    }
  }

  lemma AssembledInjective(role: Role, reasoning: string, texts: seq<Content>, calls: seq<Content>,
                           calls': seq<Content>)
    requires |calls| == |calls'|
    ensures Assembled(role, reasoning, texts, calls) == Assembled(role, reasoning, texts, calls') <==> calls == calls'
  {
    var front := (if calls == [] then [] else Leading(reasoning)) + Body(role, texts);
    assert (front + calls)[|front|..] == calls && (front + calls')[|front|..] == calls';
  }

  /**
   A tool message with calls and no array of texts never comes to rest: every
   round splits off one more message and leaves one of the same kind.
   */
  lemma ToolCallsGrowForever(json: JsonText, m: Message)
    requires m.role.Tool? && HasCalls(m) && !Listed(Each(NormalText, m.content))
    ensures Main(json, m) != []
    ensures var x := Main(json, m)[0];
            && |NormalMessage(json, x)| == 2 && NormalMessage(json, x)[1] in Main(json, x)
            && x.role.Tool? && HasCalls(x) && !Listed(Each(NormalText, x.content))
  {
    var texts, calls := Each(NormalText, m.content), Each(CallNormalizer(json), m.content);
    TextsAreTexts(m.content);
    CallsSettle(json, m.content);
    ToolMainAgain(json, ReasoningFrom("", m.content), texts, calls);
    assert calls[0] in Main(json, m)[0].content;
  }

  lemma ResultMessagesAreFixed(json: JsonText, m: Message)
    ensures forall y :: y in Each(NormalResult, m.content) ==> y.role.Tool? && Fixed(json, y)
  {
    forall y | y in Each(NormalResult, m.content)
      ensures y.role.Tool? && Fixed(json, y)
    {
      EachMember(NormalResult, m.content, y);
      var c :| c in m.content && y in NormalResult(c);
      ResultsAreFixed(json, c.toolCallId, c.content);
    }
  }

  /** The messages one message turns into are final exactly when it is settled. */
  lemma MessageSettles(json: JsonText, m: Message)
    ensures forall y :: y in NormalMessage(json, m) ==> NormalMessage(json, y) != []
    ensures (forall y :: y in NormalMessage(json, m) ==> Fixed(json, y)) <==> Settled(json, m)
    ensures forall y :: y in NormalMessage(json, m) ==>
            (y.role == m.role && y in Main(json, m)) || (y.role.Tool? && Fixed(json, y))
  {
    ResultMessagesAreFixed(json, m);
    if Main(json, m) != [] {
      MainSettles(json, m);
      assert Main(json, m)[0] in NormalMessage(json, m);
    } else {
      CallsSettle(json, m.content);
    }
  }

  // ---------------------------------------------------------------------
  // Whole requests
  // ---------------------------------------------------------------------

  lemma AssembledBreaks(role: Role, reasoning: string, texts: seq<Content>, calls: seq<Content>, c: Content)
    requires AreTexts(texts) && (forall x :: x in calls ==> x.ToolCall?) && Breaks(c)
    ensures c in Assembled(role, reasoning, texts, calls) <==> c in texts
  {
    if c in texts { assert Listed(texts); }
    assert c in Body(role, texts) <==> c in texts;
  }

  lemma TextBreaksKept(content: seq<Content>, c: Content)
    requires Breaks(c)
    ensures c in Each(NormalText, content) <==> c in content
  {
    EachMember(NormalText, content, c);
    if c in content { assert c in NormalText(c); }
  }

  lemma CallsAreCalls(json: JsonText, content: seq<Content>)
    ensures forall x :: x in Each(CallNormalizer(json), content) ==> x.ToolCall?
  {
    CallsSettle(json, content);
  }

  lemma BreaksKept(json: JsonText, m: Message, c: Content)
    requires Breaks(c)
    ensures c in Each(NormalText, m.content) <==> c in m.content
    ensures Main(json, m) != [] ==> (c in Main(json, m)[0].content <==> c in m.content)
  {
    var texts, calls := Each(NormalText, m.content), Each(CallNormalizer(json), m.content);
    TextsAreTexts(m.content);
    CallsAreCalls(json, m.content);
    TextBreaksKept(m.content, c);
    AssembledBreaks(m.role, ReasoningFrom("", m.content), texts, calls, c);
  }

  /** Breakpoints of a system message survive, and none appears. */
  lemma MainBreakpoint(json: JsonText, m: Message)
    ensures HasBreakpoint(m) <==> Main(json, m) != [] && HasBreakpoint(Main(json, m)[0])
  {
    if HasBreakpoint(m) {
      var c :| c in m.content && Breaks(c);
      BreaksKept(json, m, c);
    } else if Main(json, m) != [] && HasBreakpoint(Main(json, m)[0]) {
      var c :| c in Main(json, m)[0].content && Breaks(c);
      BreaksKept(json, m, c);
    }
  }

  lemma BreakpointSurvives(json: JsonText, ms: seq<Message>, m: Message)
    requires m in ms && HasBreakpoint(m)
    ensures AnyBreakpoint(Each(Normalizer(json), ms))
  {
    MainBreakpoint(json, m);
    var y := Main(json, m)[0];
    assert y in Normalizer(json)(m);
    EachMember(Normalizer(json), ms, y);
  }

  lemma BreakpointWasThere(json: JsonText, ms: seq<Message>, y: Message)
    requires y in Each(Normalizer(json), ms) && HasBreakpoint(y)
    ensures AnyBreakpoint(ms)
  {
    EachMember(Normalizer(json), ms, y);
    var m :| m in ms && y in Normalizer(json)(m);
    MessageSettles(json, m);
    MainBreakpoint(json, m);
  }

  lemma BreakpointsSurvive(json: JsonText, ms: seq<Message>)
    ensures AnyBreakpoint(Each(Normalizer(json), ms)) <==> AnyBreakpoint(ms)
  {
    if m :| m in ms && HasBreakpoint(m) { BreakpointSurvives(json, ms, m); }
    if y :| y in Each(Normalizer(json), ms) && HasBreakpoint(y) { BreakpointWasThere(json, ms, y); }
  }

  /** What a request's messages turn into is final exactly when each message that stays is settled. */
  lemma MessagesSettle(json: JsonText, ms: seq<Message>, keepSystem: bool)
    ensures var normal := Each(Normalizer(json), ms);
            (forall y :: y in normal && (keepSystem || !y.role.System?) ==> Fixed(json, y)) <==>
            (forall m :: m in ms && (keepSystem || !m.role.System?) ==> Settled(json, m))
    ensures forall y :: y in Each(Normalizer(json), ms) ==> NormalMessage(json, y) != []
  {
    var normal := Each(Normalizer(json), ms);
    forall y | y in normal
      ensures NormalMessage(json, y) != []
      ensures ((forall m :: m in ms && (keepSystem || !m.role.System?) ==> Settled(json, m)) &&
               (keepSystem || !y.role.System?))
              ==> Fixed(json, y)
    {
      EachMember(Normalizer(json), ms, y);
      var m :| m in ms && y in Normalizer(json)(m);
      MessageSettles(json, m);
    }
    if forall y :: y in normal && (keepSystem || !y.role.System?) ==> Fixed(json, y) {
      forall m | m in ms && (keepSystem || !m.role.System?)
        ensures Settled(json, m)
      {
        MessageSettles(json, m);
        forall y | y in NormalMessage(json, m)
          ensures Fixed(json, y)
        {
          assert y in Normalizer(json)(m);
          EachMember(Normalizer(json), ms, y);
        }
      }
    }
  }

  lemma FixedIff(json: JsonText, ms: seq<Message>)
    requires forall y :: y in ms ==> NormalMessage(json, y) != []
    ensures Each(Normalizer(json), ms) == ms <==> forall y :: y in ms ==> Fixed(json, y)
  {
    forall y | y in ms
      ensures Normalizer(json)(y) != []
    {
    }
    EachKeepsIff(Normalizer(json), ms);
    assert forall y :: Normalizer(json)(y) == NormalMessage(json, y);
  }

  lemma NonSystemMember(ms: seq<Message>, y: Message)
    ensures y in Each(NonSystem, ms) <==> y in ms && !y.role.System?
  {
    EachMember(NonSystem, ms, y);
  }

  lemma {:induction false} NonSystemStays(ms: seq<Message>)
    requires forall y :: y in ms ==> !y.role.System?
    ensures Each(NonSystem, ms) == ms && Each(TextChunks, ms) == []
  {
    if ms != [] {
      NonSystemStays(ms[1..]);
      assert ms == [ms[0]] + ms[1..];
    }
  }

  /** Normalising makes no system message out of another. */
  lemma NoNewSystem(json: JsonText, ms: seq<Message>)
    requires forall m :: m in ms ==> !m.role.System?
    ensures forall y :: y in Each(Normalizer(json), ms) ==> !y.role.System?
  {
    forall y | y in Each(Normalizer(json), ms)
      ensures !y.role.System?
    {
      EachMember(Normalizer(json), ms, y);
      var m :| m in ms && y in Normalizer(json)(m);
      MessageSettles(json, m);
    }
  }

  /** The system text, put in front of messages that are not system messages, is taken out again. */
  lemma SystemExtracted(system: Option<string>, ms: seq<Message>)
    requires forall y :: y in ms ==> !y.role.System?
    ensures Extracted(SystemMessage(system) + ms) == Request(system, ms)
  {
    NonSystemStays(ms);
    EachConcat(NonSystem, SystemMessage(system), ms);
    EachConcat(TextChunks, SystemMessage(system), ms);
    assert !AnyBreakpoint(SystemMessage(system) + ms);
    if system.Some? {
      var m := SystemMessage(system)[0];
      EachOne(NonSystem, m);
      EachOne(TextChunks, m);
      EachOne(ChunkOf, m.content[0]);
      assert Each(TextChunks, SystemMessage(system) + ms) == [system.value];
    }
  }

  /** With a breakpoint every message stays in place. */
  lemma FinalWithBreakpoint(json: JsonText, ms: seq<Message>)
    requires AnyBreakpoint(ms)
    ensures var n := Extracted(Each(Normalizer(json), ms));
            NormalForm(json, n) == n <==> forall m :: m in ms ==> Settled(json, m)
  {
    var normal := Each(Normalizer(json), ms);
    BreakpointsSurvive(json, ms);
    MessagesSettle(json, ms, true);
    FixedIff(json, normal);
    assert SystemMessage(None) + normal == normal;
    var again := Each(Normalizer(json), normal);
    if !AnyBreakpoint(again) && Extracted(again).messages == normal {
      var y :| y in normal && HasBreakpoint(y);
      NonSystemMember(again, y);
    }
  }

  /** Without one the system messages have become the system text. */
  lemma FinalWithoutBreakpoint(json: JsonText, ms: seq<Message>)
    requires !AnyBreakpoint(ms)
    ensures var n := Extracted(Each(Normalizer(json), ms));
            NormalForm(json, n) == n <==> forall m :: m in ms && !m.role.System? ==> Settled(json, m)
  {
    var normal := Each(Normalizer(json), ms);
    BreakpointsSurvive(json, ms);
    MessagesSettle(json, ms, false);
    var n := Extracted(normal);
    var rest := n.messages;
    forall y
      ensures y in rest <==> y in normal && !y.role.System?
    {
      NonSystemMember(normal, y);
    }
    FixedIff(json, rest);
    var again := Each(Normalizer(json), rest);
    NoNewSystem(json, rest);
    EachConcat(Normalizer(json), SystemMessage(n.system), rest);
    SystemDecodes(json, n.system);
    SystemExtracted(n.system, again);
  }

  /**
   Encoding and decoding twice is the same as once exactly when each message that
   stays a message is settled; system messages stay only when one of them carries
   a breakpoint.
   */
  lemma NormalFormIsFinal(json: JsonText, ir: Request)
    ensures var n := NormalForm(json, ir);
            NormalForm(json, n) == n <==>
            forall m :: m in ir.messages && (AnyBreakpoint(ir.messages) || !m.role.System?) ==> Settled(json, m)
  {
    var all := SystemMessage(ir.system) + ir.messages;
    assert forall m :: m in all <==> m in SystemMessage(ir.system) || m in ir.messages;
    assert AnyBreakpoint(all) <==> AnyBreakpoint(ir.messages) by {
      if m :| m in ir.messages && HasBreakpoint(m) { assert m in all; }
    }
    assert forall m :: m in SystemMessage(ir.system) ==> Settled(json, m);
    if AnyBreakpoint(all) {
      FinalWithBreakpoint(json, all);
    } else {
      FinalWithoutBreakpoint(json, all);
    }
  }

  /** The same, said of the codec: one round trip later, a second changes nothing. */
  lemma SecondRoundTripChangesNothing(json: JsonText, ir: Request)
    requires json.Faithful()
    ensures var n := Decoded(json, Encoded(json, ir));
            Decoded(json, Encoded(json, n)) == n <==>
            forall m :: m in ir.messages && (AnyBreakpoint(ir.messages) || !m.role.System?) ==> Settled(json, m)
  {
    RoundTripIsNormalForm(json, ir);
    RoundTripIsNormalForm(json, NormalForm(json, ir));
    NormalFormIsFinal(json, ir);
  }
}
