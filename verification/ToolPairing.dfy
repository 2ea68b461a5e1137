/**
 Tool calls and their results in an encoded Chat Completions request: none is
 lost, and exactly when every result still follows its call. And in a decoded
 one: they come in as the client sent them.
 */
module ToolPairing {
  import opened ChatNormalForm
  import opened ChatRequest
  import opened RequestIr
  import opened Sequences
  import opened Wrappers

  datatype Event = Called(id: string) | Answered(id: string)

  /** Calls and results in the order of the IR. */
  function EventOf(c: Content): seq<Event> {
    match c
    case ToolCall(_, _, _, _, _) => [Called(c.callId.GetOr(c.id))]
    case ToolResult(id, _, _) => [Answered(id)]
    case _ => []
  }

  function EventsOf(m: Message): seq<Event> { Each(EventOf, m.content) }

  function CallEvent(c: WireCall): seq<Event> { [Called(c.id)] }

  /** On the wire a message with a call id is a result. */
  function WireEvents(w: Wire): seq<Event> {
    (if w.toolCallId.Some? then [Answered(w.toolCallId.value)] else []) + Each(CallEvent, w.toolCalls.GetOr([]))
  }

  function Calls(c: Content): seq<Event> { if c.ToolCall? then EventOf(c) else [] }

  function Answers(c: Content): seq<Event> { if c.ToolResult? then EventOf(c) else [] }

  // ---------------------------------------------------------------------
  // The events of one message
  // ---------------------------------------------------------------------

  lemma CallEvents(json: JsonText, content: seq<Content>)
    ensures Each(CallEvent, Each(CallEncoder(json), content)) == Each(Calls, content)
  {
    forall c: Content
      ensures Each(CallEvent, CallEncoder(json)(c)) == Calls(c)
    {
      if c.ToolCall? { EachOne(CallEvent, EncodeCall(json, c)); }
    }
    EachFused(CallEncoder(json), CallEvent, Calls, content);
  }

  lemma AnswerEvents(content: seq<Content>)
    ensures Each(WireEvents, Each(EncodeResult, content)) == Each(Answers, content)
  {
    forall c: Content
      ensures Each(WireEvents, EncodeResult(c)) == Answers(c)
    {
      if c.ToolResult? { EachOne(WireEvents, ResultMessage(c.toolCallId, c.content)); }
    }
    EachFused(EncodeResult, WireEvents, Answers, content);
  }

  /** An encoded message answers first and calls afterwards, each in the IR's order. */
  lemma MessageEvents(json: JsonText, m: Message)
    ensures Each(WireEvents, EncodeMessage(json, m)) == Each(Answers, m.content) + Each(Calls, m.content)
  {
    var texts, calls := Each(EncodeText, m.content), Each(CallEncoder(json), m.content);
    var main := MainMessage(m.role, texts, ReasoningFrom("", m.content), calls);
    var tail := if texts != [] || calls != [] || m.content == [] then [main] else [];
    EachConcat(WireEvents, Each(EncodeResult, m.content), tail);
    AnswerEvents(m.content);
    CallEvents(json, m.content);
    EachOne(WireEvents, main);
    assert [] + Each(CallEvent, calls) == Each(CallEvent, calls);
  }

  lemma SystemEvents(system: Option<string>)
    ensures Each(WireEvents, SystemWire(system)) == []
  {
    if system.Some? { EachOne(WireEvents, SystemWire(system)[0]); }
  }

  function AnswersThenCalls(m: Message): seq<Event> { Each(Answers, m.content) + Each(Calls, m.content) }

  lemma RequestEvents(json: JsonText, ir: Request)
    ensures Each(WireEvents, Encoded(json, ir)) == Each(AnswersThenCalls, ir.messages)
  {
    forall m: Message
      ensures Each(WireEvents, MessageEncoder(json)(m)) == AnswersThenCalls(m)
    {
      MessageEvents(json, m);
    }
    EachFused(MessageEncoder(json), WireEvents, AnswersThenCalls, ir.messages);
    EachConcat(WireEvents, SystemWire(ir.system), Each(MessageEncoder(json), ir.messages));
    SystemEvents(ir.system);
  }

  // ---------------------------------------------------------------------
  // Conservation
  // ---------------------------------------------------------------------

  lemma {:induction false} SplitConserves(content: seq<Content>)
    ensures multiset(Each(EventOf, content)) == multiset(Each(Answers, content)) + multiset(Each(Calls, content))
  {
    if content != [] { SplitConserves(content[1..]); }
  }

  lemma {:induction false} MessagesConserve(ms: seq<Message>)
    ensures multiset(Each(AnswersThenCalls, ms)) == multiset(Each(EventsOf, ms))
  {
    if ms != [] {
      MessagesConserve(ms[1..]);
      SplitConserves(ms[0].content);
    }
  }

  /** Calls and results go out one for one. */
  lemma CallsAndResultsAreConserved(json: JsonText, ir: Request)
    ensures multiset(Each(WireEvents, Encoded(json, ir))) == multiset(Each(EventsOf, ir.messages))
  {
    RequestEvents(json, ir);
    MessagesConserve(ir.messages);
  }

  // ---------------------------------------------------------------------
  // Order
  // ---------------------------------------------------------------------

  /** Every result follows a call with its id. */
  ghost predicate Paired(events: seq<Event>) {
    forall i :: 0 <= i < |events| && events[i].Answered? ==> Called(events[i].id) in events[..i]
  }

  predicate CalledIn(m: Message, id: string) { exists c :: c in m.content && c.ToolCall? && c.callId.GetOr(c.id) == id }

  predicate AnsweredIn(m: Message, id: string) { exists c :: c in m.content && c.ToolResult? && c.toolCallId == id }

  /** Every result has its call in an earlier message. */
  ghost predicate PairedAcross(ms: seq<Message>) {
    forall k, id :: 0 <= k < |ms| && AnsweredIn(ms[k], id) ==> exists j :: 0 <= j < k && CalledIn(ms[j], id)
  }

  lemma EventMembers(m: Message, id: string)
    ensures Called(id) in AnswersThenCalls(m) <==> CalledIn(m, id)
    ensures Called(id) in Each(Calls, m.content) <==> CalledIn(m, id)
    ensures Answered(id) in Each(Answers, m.content) <==> AnsweredIn(m, id)
    ensures Called(id) !in Each(Answers, m.content) && Answered(id) !in Each(Calls, m.content)
  {
    EachMember(Calls, m.content, Called(id));
    EachMember(Answers, m.content, Called(id));
    EachMember(Calls, m.content, Answered(id));
    EachMember(Answers, m.content, Answered(id));
    if CalledIn(m, id) {
      var c :| c in m.content && c.ToolCall? && c.callId.GetOr(c.id) == id;
      assert Called(id) in Calls(c);
    }
    if AnsweredIn(m, id) {
      var c :| c in m.content && c.ToolResult? && c.toolCallId == id;
      assert Answered(id) in Answers(c);
    }
  }

  lemma {:induction false} CallsSoFar(ms: seq<Message>, id: string)
    ensures Called(id) in Each(AnswersThenCalls, ms) <==> exists j :: 0 <= j < |ms| && CalledIn(ms[j], id)
  {
    EachMember(AnswersThenCalls, ms, Called(id));
    if m :| m in ms && Called(id) in AnswersThenCalls(m) { EventMembers(m, id); }
    if j :| 0 <= j < |ms| && CalledIn(ms[j], id) {
      EventMembers(ms[j], id);
      assert ms[j] in ms;
    }
  }

  lemma PairedSnoc(before: seq<Event>, answers: seq<Event>, calls: seq<Event>)
    requires (forall e :: e in answers ==> e.Answered?) && (forall e :: e in calls ==> e.Called?)
    ensures Paired(before + (answers + calls)) <==>
            Paired(before) && forall id :: Answered(id) in answers ==> Called(id) in before
  {
    var all := before + (answers + calls);
    assert forall i :: 0 <= i < |before| ==> all[i] == before[i] && all[..i] == before[..i];
    var n := |before| + |answers|;
    assert forall i :: n <= i < |all| ==> all[i] == calls[i - n] && calls[i - n] in calls;
    forall i | |before| <= i < n
      ensures all[i] in answers && (Called(all[i].id) in all[..i] <==> Called(all[i].id) in before)
    {
      assert all[i] == answers[i - |before|];
      var part := answers[..i - |before|];
      assert all[..i] == before + part && forall e :: e in part ==> e in answers;
    }
    if Paired(all) {
      forall id | Answered(id) in answers
        ensures Called(id) in before
      {
        var k :| 0 <= k < |answers| && answers[k] == Answered(id);
        assert all[|before| + k] == Answered(id);
      }
    }
  }

  lemma MessageEventKinds(m: Message)
    ensures (forall e :: e in Each(Answers, m.content) ==> e.Answered?) &&
            (forall e :: e in Each(Calls, m.content) ==> e.Called?)
  {
    forall e
      ensures e in Each(Answers, m.content) ==> e.Answered?
      ensures e in Each(Calls, m.content) ==> e.Called?
    {
      EachMember(Answers, m.content, e);
      EachMember(Calls, m.content, e);
    }
  }

  lemma {:induction false} PairedIffAcross(ms: seq<Message>)
    ensures Paired(Each(AnswersThenCalls, ms)) <==> PairedAcross(ms)
  {
    if ms != [] {
      var rest, m := ms[..|ms| - 1], ms[|ms| - 1];
      assert ms == rest + [m];
      PairedIffAcross(rest);
      EachConcat(AnswersThenCalls, rest, [m]);
      EachOne(AnswersThenCalls, m);
      MessageEventKinds(m);
      PairedSnoc(Each(AnswersThenCalls, rest), Each(Answers, m.content), Each(Calls, m.content));
      AcrossSnoc(rest, m);
      forall id
        ensures Answered(id) in Each(Answers, m.content) <==> AnsweredIn(m, id)
        ensures Called(id) in Each(AnswersThenCalls, rest) <==> exists j :: 0 <= j < |rest| && CalledIn(rest[j], id)
      {
        EventMembers(m, id);
        CallsSoFar(rest, id);
      }
    }
  }

  lemma AcrossSnoc(rest: seq<Message>, m: Message)
    ensures PairedAcross(rest + [m]) <==>
            PairedAcross(rest) && forall id :: AnsweredIn(m, id) ==>
              exists j :: 0 <= j < |rest| && CalledIn(rest[j], id)
  {
    var ms := rest + [m];
    assert ms[|rest|] == m && forall j :: 0 <= j < |rest| ==> ms[j] == rest[j];
    if PairedAcross(ms) {
      forall k, id | 0 <= k < |rest| && AnsweredIn(rest[k], id)
        ensures exists j :: 0 <= j < k && CalledIn(rest[j], id)
      {
        assert AnsweredIn(ms[k], id);
        var j :| 0 <= j < k && CalledIn(ms[j], id);
        assert CalledIn(rest[j], id);
      }
      forall id | AnsweredIn(m, id)
        ensures exists j :: 0 <= j < |rest| && CalledIn(rest[j], id)
      {
        assert AnsweredIn(ms[|rest|], id);
        var j :| 0 <= j < |rest| && CalledIn(ms[j], id);
        assert CalledIn(rest[j], id);
      }
    } else {
      var k, id :| 0 <= k < |ms| && AnsweredIn(ms[k], id) && !exists j :: 0 <= j < k && CalledIn(ms[j], id);
      assert forall j :: 0 <= j < k && j < |rest| && CalledIn(rest[j], id) ==> CalledIn(ms[j], id);
    }
  }

  /** The encoded messages are paired exactly when every result has its call in an earlier message of the IR. */
  lemma EncodedIsPairedIff(json: JsonText, ir: Request)
    ensures Paired(Each(WireEvents, Encoded(json, ir))) <==> PairedAcross(ir.messages)
  {
    RequestEvents(json, ir);
    PairedIffAcross(ir.messages);
  }

  lemma IrEventMembers(m: Message, id: string)
    ensures Called(id) in EventsOf(m) <==> CalledIn(m, id)
    ensures Answered(id) in EventsOf(m) <==> AnsweredIn(m, id)
  {
    EachMember(EventOf, m.content, Called(id));
    EachMember(EventOf, m.content, Answered(id));
    if CalledIn(m, id) {
      var c :| c in m.content && c.ToolCall? && c.callId.GetOr(c.id) == id;
      assert Called(id) in EventOf(c);
    }
    if AnsweredIn(m, id) {
      var c :| c in m.content && c.ToolResult? && c.toolCallId == id;
      assert Answered(id) in EventOf(c);
    }
  }

  lemma {:induction false} IrCallsSoFar(ms: seq<Message>, id: string)
    ensures Called(id) in Each(EventsOf, ms) <==> exists j :: 0 <= j < |ms| && CalledIn(ms[j], id)
  {
    EachMember(EventsOf, ms, Called(id));
    if m :| m in ms && Called(id) in EventsOf(m) { IrEventMembers(m, id); }
    if j :| 0 <= j < |ms| && CalledIn(ms[j], id) {
      IrEventMembers(ms[j], id);
      assert ms[j] in ms;
    }
  }

  /** No message carries a call together with its own result. */
  predicate Separated(ms: seq<Message>) {
    forall m, c, r :: m in ms && c in m.content && r in m.content && c.ToolCall? && r.ToolResult? ==>
      c.callId.GetOr(c.id) != r.toolCallId
  }

  lemma {:induction false} SeparatedPairsLieAcross(ms: seq<Message>)
    requires Paired(Each(EventsOf, ms)) && Separated(ms)
    ensures PairedAcross(ms)
  {
    if ms != [] {
      var rest, m := ms[..|ms| - 1], ms[|ms| - 1];
      assert ms == rest + [m];
      EachConcat(EventsOf, rest, [m]);
      EachOne(EventsOf, m);
      var before, own := Each(EventsOf, rest), EventsOf(m);
      var all := before + own;
      assert forall i :: 0 <= i < |before| ==> all[i] == before[i] && all[..i] == before[..i];
      SeparatedPairsLieAcross(rest);
      AcrossSnoc(rest, m);
      forall id | AnsweredIn(m, id)
        ensures exists j :: 0 <= j < |rest| && CalledIn(rest[j], id)
      {
        IrEventMembers(m, id);
        var k :| 0 <= k < |own| && own[k] == Answered(id);
        assert all[|before| + k] == Answered(id) && all[..|before| + k] == before + own[..k];
        assert Called(id) in before + own[..k];
        assert forall e :: e in own[..k] ==> e in own;
        assert Called(id) in before;
        IrCallsSoFar(rest, id);
      }
    }
  }

  /** Results that follow their calls in the IR, never in the same message, follow them on the wire. */
  lemma PairingIsKept(json: JsonText, ir: Request)
    requires Paired(Each(EventsOf, ir.messages)) && Separated(ir.messages)
    ensures Paired(Each(WireEvents, Encoded(json, ir)))
  {
    SeparatedPairsLieAcross(ir.messages);
    EncodedIsPairedIff(json, ir);
  }

  /** In one message the result is sent ahead of its call. */
  lemma SameMessagePairIsParted(json: JsonText, call: Content, name: string, content: string, role: Role)
    requires call.ToolCall?
    ensures var ms := [Message(role, [call, ToolResult(call.callId.GetOr(call.id), name, content)])];
            Paired(Each(EventsOf, ms)) && !Paired(Each(WireEvents, Encoded(json, Request(None, ms))))
  {
    var id := call.callId.GetOr(call.id);
    var result := ToolResult(id, name, content);
    var m := Message(role, [call, result]);
    EachOne(EventsOf, m);
    EachOne(EventOf, result);
    assert m.content[1..] == [result];
    assert EventsOf(m) == [Called(id)] + [Answered(id)];
    EncodedIsPairedIff(json, Request(None, [m]));
    assert [m][0] == m && AnsweredIn(m, id);
  }

  // ---------------------------------------------------------------------
  // Decoding
  // ---------------------------------------------------------------------

  function PartEvents(role: Role): Part -> seq<Event> {
    (p: Part) => if role.Tool? && p.ToolPart? then [Answered(p.toolCallId)] else []
  }

  /** What a client's message says: a tool message answers, by its id or part by part, and any message may call. */
  function TurnEvents(w: Wire): seq<Event> {
    var role := RoleOf(w.role);
    (if w.content.Parts? then Each(PartEvents(role), w.content.parts)
     else if role.Tool? then [Answered(w.toolCallId.GetOr(""))] else []) +
    Each(CallEvent, w.toolCalls.GetOr([]))
  }

  lemma BodyEvents(w: Wire)
    ensures var role := RoleOf(w.role);
            Each(EventOf, DecodeBody(role, w)) ==
            if w.content.Parts? then Each(PartEvents(role), w.content.parts)
            else if role.Tool? then [Answered(w.toolCallId.GetOr(""))] else []
  {
    var role := RoleOf(w.role);
    if w.content.Parts? {
      forall p: Part
        ensures Each(EventOf, PartDecoder(role)(p)) == PartEvents(role)(p)
      {
        EachOne(EventOf, DecodePart(role, p));
      }
      EachFused(PartDecoder(role), EventOf, PartEvents(role), w.content.parts);
    } else if DecodeBody(role, w) != [] {
      EachOne(EventOf, DecodeBody(role, w)[0]);
    }
  }

  lemma DecodedCallEvents(json: JsonText, calls: seq<WireCall>)
    ensures Each(EventOf, Each(CallDecoder(json), calls)) == Each(CallEvent, calls)
  {
    forall c: WireCall
      ensures Each(EventOf, CallDecoder(json)(c)) == CallEvent(c)
    {
      EachOne(EventOf, DecodeCall(json, c));
    }
    EachFused(CallDecoder(json), EventOf, CallEvent, calls);
  }

  /** Reasoning in front and a blank in place of nothing are no events. */
  lemma PiecesEvents(lead: seq<Content>, body: seq<Content>, calls: seq<Content>)
    requires forall c :: c in lead ==> c.Reasoning?
    ensures Each(EventOf, OrBlank(lead + body + calls)) == Each(EventOf, body) + Each(EventOf, calls)
  {
    EachConcat(EventOf, lead + body, calls);
    EachConcat(EventOf, lead, body);
    EachNothing(EventOf, lead);
    assert [] + Each(EventOf, body) == Each(EventOf, body);
    EachOne(EventOf, Text("", false));
  }

  lemma DecodedMessageEvents(json: JsonText, w: Wire)
    ensures EventsOf(DecodeMessage(json, w)) == TurnEvents(w)
  {
    var calls := w.toolCalls.GetOr([]);
    PiecesEvents(Leading(ReasoningOf(w)), DecodeBody(RoleOf(w.role), w), Each(CallDecoder(json), calls));
    BodyEvents(w);
    DecodedCallEvents(json, calls);
  }

  /** Dropping the system messages drops their events, and no others. */
  lemma {:induction false} DroppedSystemEvents(ms: seq<Message>)
    ensures var kept := Each(EventsOf, Each(NonSystem, ms));
            && |kept| <= |Each(EventsOf, ms)|
            && (kept == Each(EventsOf, ms) <==> forall m :: m in ms && m.role.System? ==> EventsOf(m) == [])
  {
    if ms != [] {
      var m, rest := ms[0], ms[1..];
      assert ms == [m] + rest;
      DroppedSystemEvents(rest);
      EachConcat(EventsOf, NonSystem(m), Each(NonSystem, rest));
      if m.role.System? {
        assert Each(NonSystem, ms) == Each(NonSystem, rest);
        if EventsOf(m) == [] {
          assert Each(EventsOf, ms) == Each(EventsOf, rest);
        } else {
          assert |Each(EventsOf, ms)| > |Each(EventsOf, rest)| && m in ms;
        }
      } else {
        EachOne(EventsOf, m);
        SamePrefix(EventsOf(m), Each(EventsOf, Each(NonSystem, rest)), Each(EventsOf, rest));
      }
    }
  }

  lemma SamePrefix(a: seq<Event>, b: seq<Event>, c: seq<Event>)
    ensures a + b == a + c <==> b == c
  {
    assert (a + b)[|a|..] == b && (a + c)[|a|..] == c;
  }

  lemma SystemTurnEvents(w: Wire)
    requires RoleOf(w.role).System?
    ensures TurnEvents(w) == [] <==> w.toolCalls.GetOr([]) == []
  {
    var calls := w.toolCalls.GetOr([]);
    if w.content.Parts? { EachNothing(PartEvents(System), w.content.parts); }
    EachSingle(CallEvent, calls);
  }

  lemma DecodedEvents(json: JsonText, wires: seq<Wire>)
    ensures Each(EventsOf, Each(MessageDecoder(json), wires)) == Each(TurnEvents, wires)
  {
    forall w: Wire
      ensures Each(EventsOf, MessageDecoder(json)(w)) == TurnEvents(w)
    {
      EachOne(EventsOf, DecodeMessage(json, w));
      DecodedMessageEvents(json, w);
    }
    EachFused(MessageDecoder(json), EventsOf, TurnEvents, wires);
  }

  /**
   Decoding keeps the calls and results of a client's messages, in order, unless a
   system message carries calls and the system messages are flattened into a text.
   */
  lemma DecodingKeepsCallsAndResults(json: JsonText, wires: seq<Wire>)
    ensures Each(EventsOf, Decoded(json, wires).messages) == Each(TurnEvents, wires) <==>
            || AnyBreakpoint(Each(MessageDecoder(json), wires))
            || forall w :: w in wires && RoleOf(w.role).System? ==> w.toolCalls.GetOr([]) == []
  {
    var messages := Each(MessageDecoder(json), wires);
    DecodedEvents(json, wires);
    DroppedSystemEvents(messages);
    forall w | w in wires
      ensures DecodeMessage(json, w) in messages
      ensures RoleOf(w.role).System? ==> (EventsOf(DecodeMessage(json, w)) == [] <==> w.toolCalls.GetOr([]) == [])
    {
      assert DecodeMessage(json, w) in MessageDecoder(json)(w);
      EachMember(MessageDecoder(json), wires, DecodeMessage(json, w));
      DecodedMessageEvents(json, w);
      if RoleOf(w.role).System? { SystemTurnEvents(w); }
    }
    forall m | m in messages
      ensures exists w :: w in wires && m == DecodeMessage(json, w)
    {
      EachMember(MessageDecoder(json), wires, m);
    }
  }
}
