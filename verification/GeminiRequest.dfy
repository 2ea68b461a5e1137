/**
 The contents of a Gemini request: naming every function response after its call
 and replaying the thought signatures of earlier turns. Media parts are not
 modelled.
 */
module GeminiRequest {
  import opened JsonValue
  import opened RequestIr
  import opened Sequences
  import opened Wrappers

  datatype Part =
    | TextPart(text: string, thought: bool)
    | FunctionCall(name: string, args: Json, thoughtSignature: Option<Json>)
    | FunctionResponse(name: string, response: Json)

  datatype Turn = Turn(role: string, parts: seq<Part>)

  const CALL_PREFIX: string := "gemini_call_"
  const SKIP_THOUGHT_SIGNATURE_VALIDATOR: string := "skip_thought_signature_validator"

  // ---------------------------------------------------------------------
  // Names of results
  // ---------------------------------------------------------------------

  predicate Calls(c: Content, id: string) { c.ToolCall? && c.id == id && c.name != "" }

  /** The first named call with this id. */
  function NameIn(content: seq<Content>, id: string): Option<string> {
    if content == [] then None else if Calls(content[0], id) then Some(content[0].name) else NameIn(content[1..], id)
  }

  /** The name given by the last assistant message that has such a call. */
  function NameFrom(messages: seq<Message>, id: string): Option<string> {
    if messages == [] then None
    else
      var last := messages[|messages| - 1];
      if last.role.Assistant? && NameIn(last.content, id).Some? then NameIn(last.content, id)
      else NameFrom(messages[..|messages| - 1], id)
  }

  function StripCallPrefix(id: string): Option<string> {
    if CALL_PREFIX <= id && id != CALL_PREFIX then Some(id[|CALL_PREFIX|..]) else None
  }

  function LookedUp(messages: seq<Message>, id: string): Option<string> {
    var found := if id == "" then None else NameFrom(messages, id);
    if found.Some? then found else StripCallPrefix(id)
  }

  method LookupToolCallName(messages: seq<Message>, toolCallId: string) returns (name: Option<string>)
    ensures name == LookedUp(messages, toolCallId)
  {
    if toolCallId != "" {
      var i := |messages|;
      assert messages[..i] == messages;
      while i > 0
        invariant 0 <= i <= |messages|
        invariant NameFrom(messages[..i], toolCallId) == NameFrom(messages, toolCallId)
      {
        i := i - 1;
        var msg := messages[i];
        assert messages[..i + 1][..i] == messages[..i];
        if msg.role == Assistant {
          for j := 0 to |msg.content|
            invariant NameIn(msg.content[j..], toolCallId) == NameIn(msg.content, toolCallId)
          {
            var content := msg.content[j];
            assert msg.content[j..][1..] == msg.content[j + 1..];
            if content.ToolCall? && content.id == toolCallId && content.name != "" {
              return Some(content.name);
            }
          }
        }
      }
    }
    return StripCallPrefix(toolCallId);
  }

  /** The name a result is sent under. */
  function Resolved(messages: seq<Message>, c: Content): Option<string>
    requires c.ToolResult?
  {
    if c.name == "" then LookedUp(messages, c.toolCallId) else Some(c.name)
  }

  lemma {:induction false} NameInIs(content: seq<Content>, id: string)
    ensures match NameIn(content, id)
            case Some(name) => exists c :: c in content && Calls(c, id) && c.name == name
            case None => forall c :: c in content ==> !Calls(c, id)
  {
    if content != [] { NameInIs(content[1..], id); }
  }

  predicate CalledByAssistant(messages: seq<Message>, id: string, name: string) {
    exists m, c :: m in messages && m.role.Assistant? && c in m.content && Calls(c, id) && c.name == name
  }

  /** A name is found exactly when an assistant message has a named call with the id, and it is such a call's name. */
  lemma {:induction false} NameFromIs(messages: seq<Message>, id: string)
    ensures match NameFrom(messages, id)
            case Some(name) => CalledByAssistant(messages, id, name)
            case None => forall name :: !CalledByAssistant(messages, id, name)
  {
    if messages != [] {
      var rest, last := messages[..|messages| - 1], messages[|messages| - 1];
      assert messages == rest + [last];
      NameInIs(last.content, id);
      NameFromIs(rest, id);
      forall name
        ensures CalledByAssistant(messages, id, name) <==>
                CalledByAssistant(rest, id, name) ||
                  (last.role.Assistant? && exists c :: c in last.content && Calls(c, id) && c.name == name)
      {
        assert forall m :: m in messages <==> m in rest || m == last;
      }
    }
  }

  /** Calls of one id agree on the name; unique ids do so. */
  ghost predicate NamesAgree(messages: seq<Message>) {
    forall id, a, b :: CalledByAssistant(messages, id, a) && CalledByAssistant(messages, id, b) ==> a == b
  }

  /** A nameless result is sent under the name of the assistant's call whose item id it carries. */
  lemma ResultsGetTheirCallsName(messages: seq<Message>, m: Message, call: Content, result: Content)
    requires NamesAgree(messages) && m in messages && m.role.Assistant? && call in m.content
    requires call.ToolCall? && call.id != "" && call.name != ""
    requires result.ToolResult? && result.name == "" && result.toolCallId == call.id
    ensures Resolved(messages, result) == Some(call.name)
  {
    NameFromIs(messages, call.id);
    assert CalledByAssistant(messages, call.id, call.name);
  }

  /** A synthesised id gives the name away, unless a call of that id bears another. */
  lemma SynthesisedIdsResolve(messages: seq<Message>, name: string, content: string)
    requires name != ""
    ensures var result := ToolResult(CALL_PREFIX + name, "", content);
            && Resolved(messages, result).Some?
            && ((forall other :: CalledByAssistant(messages, CALL_PREFIX + name, other) ==> other == name) ==>
                  Resolved(messages, result) == Some(name))
  {
    NameFromIs(messages, CALL_PREFIX + name);
    assert CALL_PREFIX <= CALL_PREFIX + name && (CALL_PREFIX + name)[|CALL_PREFIX|..] == name;
  }

  // ---------------------------------------------------------------------
  // Encoding
  // ---------------------------------------------------------------------

  function Lower(c: char): char { if 'A' <= c <= 'Z' then c - 'A' + 'a' else c }

  predicate Gemini3At(model: string, i: nat)
    requires i <= |model|
  {
    |model| - i >= 8 && forall j :: 0 <= j < 8 ==> Lower(model[i..][j]) == "gemini-3"[j]
  }

  predicate IsGemini3Model(model: string) { exists i :: 0 <= i <= |model| && Gemini3At(model, i) }

  /**
   What the encoder works with: the whole request, the stashed signatures, and
   whether the model needs one on every call.
   */
  datatype Context = Context(json: JsonText, messages: seq<Message>, signatures: seq<Json>, gemini3: bool)

  function RoleName(role: Role): string {
    match role
    case User => "user"
    case Assistant => "model"
    case Tool => "function"
    case System => "user"
  }

  /** `Failed` names the result that has no function name. */
  datatype Step<T> = Failed(toolCallId: string) | Emitted(items: seq<T>, sigIdx: nat)

  function Prepend<T>(items: seq<T>, rest: Step<T>): Step<T> {
    match rest
    case Failed(_) => rest
    case Emitted(more, idx) => Emitted(items + more, idx)
  }

  function Response(json: JsonText, content: string): Json {
    json.fromText(content).GetOr(Obj(map["output" := Str(content)]))
  }

  function EncodePart(ctx: Context, c: Content, sigIdx: nat): Step<Part> {
    match c
    case Text(text, _) => Emitted([TextPart(text, false)], sigIdx)
    case Refusal(text) => Emitted([TextPart(text, false)], sigIdx)
    case Reasoning(text) => Emitted([TextPart(text, true)], sigIdx)
    case Silent => Emitted([], sigIdx)
    case ToolCall(_, name, arguments, _, _) =>
      if sigIdx < |ctx.signatures| then
        Emitted([FunctionCall(name, arguments, Some(ctx.signatures[sigIdx]))], sigIdx + 1)
      else if ctx.gemini3 then
        Emitted([FunctionCall(name, arguments, Some(Str(SKIP_THOUGHT_SIGNATURE_VALIDATOR)))], sigIdx + 1)
      else Emitted([FunctionCall(name, arguments, None)], sigIdx)
    case ToolResult(id, _, content) =>
      match Resolved(ctx.messages, c)
      case None => Failed(id)
      case Some(name) => Emitted([FunctionResponse(name, Response(ctx.json, content))], sigIdx)
  }

  function EncodeParts(ctx: Context, content: seq<Content>, sigIdx: nat): Step<Part>
    decreases |content|
  {
    if content == [] then Emitted([], sigIdx)
    else match EncodePart(ctx, content[0], sigIdx)
      case Failed(id) => Failed(id)
      case Emitted(parts, idx) => Prepend(parts, EncodeParts(ctx, content[1..], idx))
  }

  function TurnOf(role: Role, parts: seq<Part>): seq<Turn> { if parts == [] then [] else [Turn(RoleName(role), parts)] }

  function EncodeTurns(ctx: Context, messages: seq<Message>, sigIdx: nat): Step<Turn>
    decreases |messages|
  {
    if messages == [] then Emitted([], sigIdx)
    else match EncodeParts(ctx, messages[0].content, sigIdx)
      case Failed(id) => Failed(id)
      case Emitted(parts, idx) => Prepend(TurnOf(messages[0].role, parts), EncodeTurns(ctx, messages[1..], idx))
  }

  method EncodeMessageParts(ctx: Context, content: seq<Content>, start: nat) returns (r: Step<Part>)
    ensures r == EncodeParts(ctx, content, start)
  {
    var parts: seq<Part> := [];
    var sigIdx := start;
    for i := 0 to |content|
      invariant Prepend(parts, EncodeParts(ctx, content[i..], sigIdx)) == EncodeParts(ctx, content, start)
    {
      var c := content[i];
      ghost var before, idx, rest := parts, sigIdx, content[i + 1..];
      assert content[i..][0] == c && content[i..][1..] == rest;
      match c {
        case Text(text, _) => parts := parts + [TextPart(text, false)];
        case Refusal(text) => parts := parts + [TextPart(text, false)];
        case Reasoning(text) => parts := parts + [TextPart(text, true)];
        case Silent =>
        case ToolCall(_, name, arguments, _, _) =>
          var part := FunctionCall(name, arguments, None);
          if sigIdx < |ctx.signatures| {
            part := part.(thoughtSignature := Some(ctx.signatures[sigIdx]));
            sigIdx := sigIdx + 1;
          } else if ctx.gemini3 {
            part := part.(thoughtSignature := Some(Str(SKIP_THOUGHT_SIGNATURE_VALIDATOR)));
            sigIdx := sigIdx + 1;
          }
          parts := parts + [part];
        case ToolResult(id, name, text) =>
          var resolvedName := Some(name);
          if name == "" {
            resolvedName := LookupToolCallName(ctx.messages, id);
          }
          if resolvedName.None? {
            return Failed(id);
          }
          parts := parts + [FunctionResponse(resolvedName.value, Response(ctx.json, text))];
      }
      assert EncodePart(ctx, c, idx) == Emitted(parts[|before|..], sigIdx) && parts == before + parts[|before|..];
      PrependTwice(before, parts[|before|..], EncodeParts(ctx, rest, sigIdx));
    }
    assert content[|content|..] == [] && parts + [] == parts;
    r := Emitted(parts, sigIdx);
  }

  lemma PrependTwice<T>(a: seq<T>, b: seq<T>, rest: Step<T>)
    ensures Prepend(a, Prepend(b, rest)) == Prepend(a + b, rest)
  {
    if rest.Emitted? { assert a + (b + rest.items) == a + b + rest.items; }
  }

  method EncodeContents(json: JsonText, model: string, messages: seq<Message>, signatures: seq<Json>)
    returns (r: Step<Turn>)
    ensures r == EncodeTurns(Context(json, messages, signatures, IsGemini3Model(model)), messages, 0)
  {
    var ctx := Context(json, messages, signatures, IsGemini3Model(model));
    var contents: seq<Turn> := [];
    var sigIdx := 0;
    for i := 0 to |messages|
      invariant Prepend(contents, EncodeTurns(ctx, messages[i..], sigIdx)) == EncodeTurns(ctx, messages, 0)
    {
      var msg := messages[i];
      assert messages[i..][0] == msg && messages[i..][1..] == messages[i + 1..];
      var step := EncodeMessageParts(ctx, msg.content, sigIdx);
      if step.Failed? {
        return Failed(step.toolCallId);
      }
      var turn := TurnOf(msg.role, step.items);
      PrependTwice(contents, turn, EncodeTurns(ctx, messages[i + 1..], step.sigIdx));
      if step.items != [] {
        contents := contents + [Turn(RoleName(msg.role), step.items)];
      } else {
        assert contents + turn == contents;
      }
      sigIdx := step.sigIdx;
    }
    assert messages[|messages|..] == [] && contents + [] == contents;
    r := Emitted(contents, sigIdx);
  }

  // ---------------------------------------------------------------------
  // When encoding succeeds
  // ---------------------------------------------------------------------

  predicate AllResolve(ctx: Context, content: seq<Content>) {
    forall c :: c in content && c.ToolResult? ==> Resolved(ctx.messages, c).Some?
  }

  lemma {:induction false} PartsFailIff(ctx: Context, content: seq<Content>, sigIdx: nat)
    ensures EncodeParts(ctx, content, sigIdx).Emitted? <==> AllResolve(ctx, content)
    decreases |content|
  {
    if content != [] {
      assert content == [content[0]] + content[1..];
      var step := EncodePart(ctx, content[0], sigIdx);
      if step.Emitted? { PartsFailIff(ctx, content[1..], step.sigIdx); }
    }
  }

  lemma {:induction false} TurnsFailIff(ctx: Context, messages: seq<Message>, sigIdx: nat)
    ensures EncodeTurns(ctx, messages, sigIdx).Emitted? <==> forall m :: m in messages ==> AllResolve(ctx, m.content)
    decreases |messages|
  {
    if messages != [] {
      assert messages == [messages[0]] + messages[1..];
      PartsFailIff(ctx, messages[0].content, sigIdx);
      var step := EncodeParts(ctx, messages[0].content, sigIdx);
      if step.Emitted? { TurnsFailIff(ctx, messages[1..], step.sigIdx); }
    }
  }

  /** A result's call stands in an assistant message, with an id and a name. */
  predicate HasCall(messages: seq<Message>, result: Content)
    requires result.ToolResult?
  {
    result.toolCallId != "" &&
    exists m, c :: m in messages && m.role.Assistant? && c in m.content && Calls(c, result.toolCallId)
  }

  lemma ResultWithCallResolves(messages: seq<Message>, c: Content)
    requires c.ToolResult? && (c.name != "" || HasCall(messages, c))
    ensures Resolved(messages, c).Some?
  {
    if c.name == "" {
      NameFromIs(messages, c.toolCallId);
      var m, call :| m in messages && m.role.Assistant? && call in m.content && Calls(call, c.toolCallId);
      assert CalledByAssistant(messages, c.toolCallId, call.name);
    }
  }

  /** Requests whose nameless results all carry the item id of a named call are never refused. */
  lemma ResultsWithCallsNeverFail(ctx: Context)
    requires forall m, c :: m in ctx.messages && c in m.content && c.ToolResult? ==>
             c.name != "" || HasCall(ctx.messages, c)
    ensures EncodeTurns(ctx, ctx.messages, 0).Emitted?
  {
    TurnsFailIff(ctx, ctx.messages, 0);
    forall m, c | m in ctx.messages && c in m.content && c.ToolResult?
      ensures Resolved(ctx.messages, c).Some?
    {
      ResultWithCallResolves(ctx.messages, c);
    }
  }

  // ---------------------------------------------------------------------
  // What it emits
  // ---------------------------------------------------------------------

  /** The part without its signature. */
  function PlainPart(ctx: Context): Content -> seq<Part> {
    (c: Content) =>
      match c
      case Text(text, _) => [TextPart(text, false)]
      case Refusal(text) => [TextPart(text, false)]
      case Reasoning(text) => [TextPart(text, true)]
      case Silent => []
      case ToolCall(_, name, arguments, _, _) => [FunctionCall(name, arguments, None)]
      case ToolResult(_, _, content) =>
        [FunctionResponse(Resolved(ctx.messages, c).GetOr(""), Response(ctx.json, content))]
  }

  function Unsigned(p: Part): seq<Part> { if p.FunctionCall? then [p.(thoughtSignature := None)] else [p] }

  function UnsignedTurn(t: Turn): seq<Turn> { [Turn(t.role, Each(Unsigned, t.parts))] }

  function PlainTurn(ctx: Context): Message -> seq<Turn> {
    (m: Message) => TurnOf(m.role, Each(PlainPart(ctx), m.content))
  }

  function SignaturesIn(p: Part): seq<Option<Json>> { if p.FunctionCall? then [p.thoughtSignature] else [] }

  function SignaturesOf(t: Turn): seq<Option<Json>> { Each(SignaturesIn, t.parts) }

  function CallsIn(c: Content): seq<Content> { if c.ToolCall? then [c] else [] }

  function CallsOf(m: Message): seq<Content> { Each(CallsIn, m.content) }

  /** The signature due to the `k`-th call of the request. */
  function SignatureFor(ctx: Context, k: nat): Option<Json> {
    if k < |ctx.signatures| then Some(ctx.signatures[k])
    else if ctx.gemini3 then Some(Str(SKIP_THOUGHT_SIGNATURE_VALIDATOR))
    else None
  }

  /** The signatures due to `n` calls from the `k`-th on. */
  function SignaturesFor(ctx: Context, k: nat, n: nat): seq<Option<Json>>
    decreases n
  {
    if n == 0 then [] else [SignatureFor(ctx, k)] + SignaturesFor(ctx, k + 1, n - 1)
  }

  lemma {:induction false} SignaturesForConcat(ctx: Context, k: nat, n: nat, n': nat)
    ensures SignaturesFor(ctx, k, n + n') == SignaturesFor(ctx, k, n) + SignaturesFor(ctx, k + n, n')
    decreases n
  {
    if n > 0 { SignaturesForConcat(ctx, k + 1, n - 1, n'); }
  }

  /** The index into the stash once `k` calls have been sent. */
  function IndexAfter(ctx: Context, k: nat): nat {
    if ctx.gemini3 || k <= |ctx.signatures| then k else |ctx.signatures|
  }

  /** The parts say what the content says, the calls among them signed from the `k`-th signature on. */
  ghost predicate PartsMatch(ctx: Context, parts: seq<Part>, content: seq<Content>, k: nat) {
    && Each(Unsigned, parts) == Each(PlainPart(ctx), content)
    && Each(SignaturesIn, parts) == SignaturesFor(ctx, k, |Each(CallsIn, content)|)
  }

  lemma PartsMatchConcat(ctx: Context, a: seq<Part>, x: seq<Content>, b: seq<Part>, y: seq<Content>, k: nat)
    requires PartsMatch(ctx, a, x, k) && PartsMatch(ctx, b, y, k + |Each(CallsIn, x)|)
    ensures PartsMatch(ctx, a + b, x + y, k)
  {
    SignedConcat(ctx, a, x, b, y, k);
    EachConcat(Unsigned, a, b);
    EachConcat(PlainPart(ctx), x, y);
  }

  lemma SignedConcat(ctx: Context, a: seq<Part>, x: seq<Content>, b: seq<Part>, y: seq<Content>, k: nat)
    requires Each(SignaturesIn, a) == SignaturesFor(ctx, k, |Each(CallsIn, x)|)
    requires Each(SignaturesIn, b) == SignaturesFor(ctx, k + |Each(CallsIn, x)|, |Each(CallsIn, y)|)
    ensures Each(SignaturesIn, a + b) == SignaturesFor(ctx, k, |Each(CallsIn, x + y)|)
  {
    EachConcat(SignaturesIn, a, b);
    EachConcat(CallsIn, x, y);
    SignaturesForConcat(ctx, k, |Each(CallsIn, x)|, |Each(CallsIn, y)|);
  }

  lemma PartIs(ctx: Context, c: Content, k: nat)
    requires EncodePart(ctx, c, IndexAfter(ctx, k)).Emitted?
    ensures var step := EncodePart(ctx, c, IndexAfter(ctx, k));
            PartsMatch(ctx, step.items, [c], k) && step.sigIdx == IndexAfter(ctx, k + |Each(CallsIn, [c])|)
  {
    var step := EncodePart(ctx, c, IndexAfter(ctx, k));
    EachOne(PlainPart(ctx), c);
    EachOne(CallsIn, c);
    if step.items != [] {
      EachOne(Unsigned, step.items[0]);
      EachOne(SignaturesIn, step.items[0]);
      assert step.items == [step.items[0]];
    }
    assert SignaturesFor(ctx, k, 1) == [SignatureFor(ctx, k)] + SignaturesFor(ctx, k + 1, 0);
  }

  /** The first part, and what the rest goes on from. */
  lemma HeadIs(ctx: Context, content: seq<Content>, k: nat) returns (head: seq<Part>, k': nat)
    requires content != [] && EncodeParts(ctx, content, IndexAfter(ctx, k)).Emitted?
    ensures PartsMatch(ctx, head, [content[0]], k) && k' == k + |Each(CallsIn, [content[0]])|
    ensures var rest := EncodeParts(ctx, content[1..], IndexAfter(ctx, k'));
            rest.Emitted? && EncodeParts(ctx, content, IndexAfter(ctx, k)) == Emitted(head + rest.items, rest.sigIdx)
  {
    PartIs(ctx, content[0], k);
    head := EncodePart(ctx, content[0], IndexAfter(ctx, k)).items;
    k' := k + |Each(CallsIn, [content[0]])|;
  }

  ghost predicate StepMatches(ctx: Context, step: Step<Part>, content: seq<Content>, k: nat) {
    && step.Emitted? && PartsMatch(ctx, step.items, content, k)
    && step.sigIdx == IndexAfter(ctx, k + |Each(CallsIn, content)|)
  }

  lemma StepMatchesCons(ctx: Context, head: seq<Part>, c: Content, rest: Step<Part>, content: seq<Content>, k: nat)
    requires PartsMatch(ctx, head, [c], k) && StepMatches(ctx, rest, content, k + |Each(CallsIn, [c])|)
    ensures StepMatches(ctx, Emitted(head + rest.items, rest.sigIdx), [c] + content, k)
  {
    PartsMatchConcat(ctx, head, [c], rest.items, content, k);
    EachConcat(CallsIn, [c], content);
  }

  lemma {:induction false} PartsAre(ctx: Context, content: seq<Content>, k: nat)
    requires EncodeParts(ctx, content, IndexAfter(ctx, k)).Emitted?
    ensures StepMatches(ctx, EncodeParts(ctx, content, IndexAfter(ctx, k)), content, k)
    decreases |content|
  {
    if content != [] {
      var head, k' := HeadIs(ctx, content, k);
      PartsAre(ctx, content[1..], k');
      StepMatchesCons(ctx, head, content[0], EncodeParts(ctx, content[1..], IndexAfter(ctx, k')), content[1..], k);
      assert content == [content[0]] + content[1..];
    }
  }

  lemma {:induction false} UnsignedKeepsLength(parts: seq<Part>)
    ensures |Each(Unsigned, parts)| == |parts|
  {
    EachSingle(Unsigned, parts);
  }

  lemma TurnIs(ctx: Context, m: Message, k: nat)
    requires EncodeParts(ctx, m.content, IndexAfter(ctx, k)).Emitted?
    ensures var step := EncodeParts(ctx, m.content, IndexAfter(ctx, k));
            var turn := TurnOf(m.role, step.items);
            && Each(UnsignedTurn, turn) == PlainTurn(ctx)(m)
            && Each(SignaturesOf, turn) == SignaturesFor(ctx, k, |CallsOf(m)|)
            && step.sigIdx == IndexAfter(ctx, k + |CallsOf(m)|)
  {
    var step := EncodeParts(ctx, m.content, IndexAfter(ctx, k));
    PartsAre(ctx, m.content, k);
    UnsignedKeepsLength(step.items);
    if step.items != [] {
      EachOne(UnsignedTurn, Turn(RoleName(m.role), step.items));
      EachOne(SignaturesOf, Turn(RoleName(m.role), step.items));
    }
  }

  ghost predicate TurnsMatch(ctx: Context, turns: seq<Turn>, messages: seq<Message>, k: nat) {
    && Each(UnsignedTurn, turns) == Each(PlainTurn(ctx), messages)
    && Each(SignaturesOf, turns) == SignaturesFor(ctx, k, |Each(CallsOf, messages)|)
  }

  lemma TurnsMatchConcat(ctx: Context, a: seq<Turn>, m: Message, b: seq<Turn>, ms: seq<Message>, k: nat)
    requires Each(UnsignedTurn, a) == PlainTurn(ctx)(m) && Each(SignaturesOf, a) == SignaturesFor(ctx, k, |CallsOf(m)|)
    requires TurnsMatch(ctx, b, ms, k + |CallsOf(m)|)
    ensures TurnsMatch(ctx, a + b, [m] + ms, k)
  {
    EachConcat(UnsignedTurn, a, b);
    EachConcat(SignaturesOf, a, b);
    EachOne(PlainTurn(ctx), m);
    EachOne(CallsOf, m);
    EachConcat(PlainTurn(ctx), [m], ms);
    EachConcat(CallsOf, [m], ms);
    SignaturesForConcat(ctx, k, |CallsOf(m)|, |Each(CallsOf, ms)|);
  }

  /** The first message's turn, if it has one, and what the rest goes on from. */
  lemma HeadTurnIs(ctx: Context, messages: seq<Message>, k: nat) returns (head: seq<Turn>, k': nat)
    requires messages != [] && EncodeTurns(ctx, messages, IndexAfter(ctx, k)).Emitted?
    ensures k' == k + |CallsOf(messages[0])|
    ensures Each(UnsignedTurn, head) == PlainTurn(ctx)(messages[0]) &&
            Each(SignaturesOf, head) == SignaturesFor(ctx, k, |CallsOf(messages[0])|)
    ensures var rest := EncodeTurns(ctx, messages[1..], IndexAfter(ctx, k'));
            rest.Emitted? && EncodeTurns(ctx, messages, IndexAfter(ctx, k)) == Emitted(head + rest.items, rest.sigIdx)
  {
    var m := messages[0];
    TurnIs(ctx, m, k);
    head := TurnOf(m.role, EncodeParts(ctx, m.content, IndexAfter(ctx, k)).items);
    k' := k + |CallsOf(m)|;
  }

  lemma {:induction false} TurnsAre(ctx: Context, messages: seq<Message>, k: nat)
    requires EncodeTurns(ctx, messages, IndexAfter(ctx, k)).Emitted?
    ensures TurnsMatch(ctx, EncodeTurns(ctx, messages, IndexAfter(ctx, k)).items, messages, k)
    decreases |messages|
  {
    if messages != [] {
      var head, k' := HeadTurnIs(ctx, messages, k);
      TurnsAre(ctx, messages[1..], k');
      TurnsMatchConcat(ctx, head, messages[0], EncodeTurns(ctx, messages[1..], IndexAfter(ctx, k')).items,
                       messages[1..], k);
      assert messages == [messages[0]] + messages[1..];
    }
  }

  lemma {:induction false} SignaturesForAre(ctx: Context, k: nat, n: nat)
    ensures |SignaturesFor(ctx, k, n)| == n
    ensures forall j :: 0 <= j < n ==> SignaturesFor(ctx, k, n)[j] == SignatureFor(ctx, k + j)
    decreases n
  {
    if n > 0 {
      SignaturesForAre(ctx, k + 1, n - 1);
      assert forall j :: 0 < j < n ==> SignaturesFor(ctx, k, n)[j] == SignaturesFor(ctx, k + 1, n - 1)[j - 1];
    }
  }

  /**
   An accepted request is encoded part by part, each result under its resolved
   name, and its `j`-th call carries the `j`-th stashed signature; past the stash
   the sentinel if the model needs one, and nothing otherwise.
   */
  lemma EncodingIs(ctx: Context)
    requires EncodeTurns(ctx, ctx.messages, 0).Emitted?
    ensures var turns, n := EncodeTurns(ctx, ctx.messages, 0).items, |Each(CallsOf, ctx.messages)|;
            && Each(UnsignedTurn, turns) == Each(PlainTurn(ctx), ctx.messages)
            && |Each(SignaturesOf, turns)| == n
            && forall j :: 0 <= j < n ==> Each(SignaturesOf, turns)[j] == SignatureFor(ctx, j)
  {
    TurnsAre(ctx, ctx.messages, 0);
    var n := |Each(CallsOf, ctx.messages)|;
    SignaturesForAre(ctx, 0, n);
  }
}
