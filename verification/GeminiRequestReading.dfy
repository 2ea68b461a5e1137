/**
 The contents of a Gemini request, said without the encoder's own helpers: which
 call names a result, and every part of every turn.
 */
module GeminiRequestReading {
  import opened JsonValue
  import opened RequestIr
  import opened Sequences
  import opened Wrappers
  import opened G = GeminiRequest
  import S = GeminiStream

  // ---------------------------------------------------------------------
  // Which call names a result
  // ---------------------------------------------------------------------

  /** The content at this place calls by the id and has a name. */
  predicate NamesAt(content: seq<Content>, j: nat, id: string) {
    j < |content| && content[j].ToolCall? && content[j].id == id && |content[j].name| > 0
  }

  predicate NamesNone(m: Message, id: string) {
    !m.role.Assistant? || forall j :: 0 <= j < |m.content| ==> !NamesAt(m.content, j, id)
  }

  /** The first named call with the id, in the last assistant message that has one. */
  predicate IsNearest(messages: seq<Message>, i: nat, j: nat, id: string) {
    && i < |messages| && messages[i].role.Assistant? && NamesAt(messages[i].content, j, id)
    && (forall k :: 0 <= k < j ==> !NamesAt(messages[i].content, k, id))
    && (forall k :: i < k < |messages| ==> NamesNone(messages[k], id))
  }

  lemma {:induction false} FirstNamed(content: seq<Content>, j: nat, id: string)
    requires NamesAt(content, j, id) && forall k :: 0 <= k < j ==> !NamesAt(content, k, id)
    ensures NameIn(content, id) == Some(content[j].name)
  {
    if j > 0 {
      assert !NamesAt(content, 0, id);
      forall k | 0 <= k < j - 1
        ensures !NamesAt(content[1..], k, id)
      {
        assert !NamesAt(content, k + 1, id);
      }
      FirstNamed(content[1..], j - 1, id);
    }
  }

  lemma {:induction false} NoneNamed(content: seq<Content>, id: string)
    requires forall j :: 0 <= j < |content| ==> !NamesAt(content, j, id)
    ensures NameIn(content, id) == None
  {
    if content != [] {
      assert !NamesAt(content, 0, id);
      forall j | 0 <= j < |content[1..]|
        ensures !NamesAt(content[1..], j, id)
      {
        assert !NamesAt(content, j + 1, id);
      }
      NoneNamed(content[1..], id);
    }
  }

  /** The nearest named call gives the name. */
  lemma {:induction false} NearestNames(messages: seq<Message>, i: nat, j: nat, id: string)
    requires IsNearest(messages, i, j, id)
    ensures NameFrom(messages, id) == Some(messages[i].content[j].name)
  {
    var n := |messages| - 1;
    if i == n {
      FirstNamed(messages[n].content, j, id);
    } else {
      if messages[n].role.Assistant? { NoneNamed(messages[n].content, id); }
      assert IsNearest(messages[..n], i, j, id);
      NearestNames(messages[..n], i, j, id);
    }
  }

  lemma {:induction false} NothingNames(messages: seq<Message>, id: string)
    requires forall k :: 0 <= k < |messages| ==> NamesNone(messages[k], id)
    ensures NameFrom(messages, id) == None
  {
    if messages != [] {
      var n := |messages| - 1;
      if messages[n].role.Assistant? { NoneNamed(messages[n].content, id); }
      NothingNames(messages[..n], id);
    }
  }

  lemma NearestCallIsLookedUp(messages: seq<Message>, i: nat, j: nat, id: string)
    requires id != "" && IsNearest(messages, i, j, id)
    ensures LookedUp(messages, id) == Some(messages[i].content[j].name)
  {
    NearestNames(messages, i, j, id);
  }

  /** Without such a call the id itself names the function, or nothing does. */
  lemma OtherwiseTheIdTells(messages: seq<Message>, id: string)
    requires id == "" || forall k :: 0 <= k < |messages| ==> NamesNone(messages[k], id)
    ensures LookedUp(messages, id) == if |id| > 12 && id[..12] == "gemini_call_" then Some(id[12..]) else None
  {
    if id != "" { NothingNames(messages, id); }
    assert |"gemini_call_"| == 12;
  }

  /**
   The id both decoders give a call without one of its own leads back to its name,
   whatever the request holds, unless a call of that id bears another.
   */
  lemma DecodedIdsLeadBack(messages: seq<Message>, call: S.FunctionCall)
    requires !(call.id.Some? && call.id.value != "") && call.name.Some? && call.name.value != ""
    requires forall other :: CalledByAssistant(messages, S.CallId(call), other) ==> other == call.name.value
    ensures LookedUp(messages, S.CallId(call)) == call.name
  {
    SynthesisedIdsResolve(messages, call.name.value, "");
  }

  // ---------------------------------------------------------------------
  // Every part of every turn
  // ---------------------------------------------------------------------

  predicate IsLetter(c: char, lower: char, upper: char) { c == lower || c == upper }

  predicate SpellsGemini3(s: string) {
    && |s| == 8 && IsLetter(s[0], 'g', 'G') && IsLetter(s[1], 'e', 'E') && IsLetter(s[2], 'm', 'M')
    && IsLetter(s[3], 'i', 'I') && IsLetter(s[4], 'n', 'N') && IsLetter(s[5], 'i', 'I') && s[6] == '-' && s[7] == '3'
  }

  /** The model's name holds "gemini-3" in letters of any case. */
  ghost predicate HoldsGemini3(model: string) {
    exists before, middle, after :: model == before + middle + after && SpellsGemini3(middle)
  }

  function ToldName(messages: seq<Message>, id: string, name: string): string {
    if |name| > 0 then name else LookedUp(messages, id).GetOr("")
  }

  /** A result that is no JSON goes out as the one field of an object. */
  function ToldResponse(json: JsonText, content: string): Json {
    match json.fromText(content)
    case Some(j) => j
    case None => Obj(map["output" := Str(content)])
  }

  /** What the `k`-th call of the request is signed with. */
  function ToldSignature(ctx: Context, k: nat): Option<Json> {
    if k < |ctx.signatures| then Some(ctx.signatures[k])
    else if ctx.gemini3 then Some(Str("skip_thought_signature_validator"))
    else None
  }

  function ToldParts(ctx: Context, content: seq<Content>, k: nat): seq<Part>
    decreases |content|
  {
    if content == [] then []
    else
      var rest := content[1..];
      match content[0]
      case Text(text, _) => [TextPart(text, false)] + ToldParts(ctx, rest, k)
      case Refusal(text) => [TextPart(text, false)] + ToldParts(ctx, rest, k)
      case Reasoning(text) => [TextPart(text, true)] + ToldParts(ctx, rest, k)
      case ToolCall(_, name, arguments, _, _) =>
        [FunctionCall(name, arguments, ToldSignature(ctx, k))] + ToldParts(ctx, rest, k + 1)
      case ToolResult(id, name, text) =>
        [FunctionResponse(ToldName(ctx.messages, id, name), ToldResponse(ctx.json, text))] + ToldParts(ctx, rest, k)
      case Silent => ToldParts(ctx, rest, k)
  }

  function ToldRole(role: Role): string {
    if role == Assistant then "model" else if role == Tool then "function" else "user"
  }

  function NumberOfCalls(content: seq<Content>): nat {
    if content == [] then 0 else (if content[0].ToolCall? then 1 else 0) + NumberOfCalls(content[1..])
  }

  /** One turn for each message that has parts. */
  function ToldTurns(ctx: Context, messages: seq<Message>, k: nat): seq<Turn>
    decreases |messages|
  {
    if messages == [] then []
    else
      var m := messages[0];
      var parts, rest := ToldParts(ctx, m.content, k), ToldTurns(ctx, messages[1..], k + NumberOfCalls(m.content));
      if parts == [] then rest else [Turn(ToldRole(m.role), parts)] + rest
  }

  lemma Gemini3Spelled(s: string)
    requires |s| >= 8
    ensures Gemini3At(s, 0) <==> SpellsGemini3(s[..8])
  {
    var want := "gemini-3";
    assert want[0] == 'g' && want[1] == 'e' && want[2] == 'm' && want[3] == 'i' && want[4] == 'n' && want[5] == 'i';
    assert want[6] == '-' && want[7] == '3';
    assert s[0..] == s;
    if SpellsGemini3(s[..8]) {
      forall j | 0 <= j < 8
        ensures Lower(s[0..][j]) == want[j]
      {
        assert s[j] == s[..8][j];
      }
    }
    if Gemini3At(s, 0) {
      forall j | 0 <= j < 8
        ensures Lower(s[..8][j]) == want[j]
      {
        assert s[j] == s[..8][j];
      }
    }
  }

  lemma RecognisedModelsHold(model: string, i: nat)
    requires i <= |model| && Gemini3At(model, i)
    ensures HoldsGemini3(model)
  {
    var rest := model[i..];
    assert rest[0..] == rest;
    Gemini3Spelled(rest);
    assert model == model[..i] + rest[..8] + rest[8..];
  }

  lemma HoldersAreRecognised(before: string, middle: string, after: string)
    requires SpellsGemini3(middle)
    ensures IsGemini3Model(before + middle + after)
  {
    var model, i, rest := before + middle + after, |before|, middle + after;
    assert model[i..] == rest && rest[..8] == middle && rest[0..] == rest;
    Gemini3Spelled(rest);
    assert Gemini3At(model, i);
  }

  /** A signature is asked for exactly when the model's name holds "gemini-3" in letters of any case. */
  lemma ModelsAreRecognised(model: string)
    ensures IsGemini3Model(model) <==> HoldsGemini3(model)
  {
    if IsGemini3Model(model) {
      var i :| 0 <= i <= |model| && Gemini3At(model, i);
      RecognisedModelsHold(model, i);
    }
    if HoldsGemini3(model) {
      var before, middle, after :| model == before + middle + after && SpellsGemini3(middle);
      HoldersAreRecognised(before, middle, after);
    }
  }

  lemma {:induction false} PartsAreTold(ctx: Context, content: seq<Content>, k: nat)
    requires EncodeParts(ctx, content, IndexAfter(ctx, k)).Emitted?
    ensures EncodeParts(ctx, content, IndexAfter(ctx, k)) ==
            Emitted(ToldParts(ctx, content, k), IndexAfter(ctx, k + NumberOfCalls(content)))
    decreases |content|
  {
    if content != [] {
      PartsAreTold(ctx, content[1..], if content[0].ToolCall? then k + 1 else k);
    }
  }

  lemma {:induction false} TurnsAreTold(ctx: Context, messages: seq<Message>, k: nat)
    requires EncodeTurns(ctx, messages, IndexAfter(ctx, k)).Emitted?
    ensures EncodeTurns(ctx, messages, IndexAfter(ctx, k)).items == ToldTurns(ctx, messages, k)
    decreases |messages|
  {
    if messages != [] {
      var m := messages[0];
      PartsAreTold(ctx, m.content, k);
      TurnsAreTold(ctx, messages[1..], k + NumberOfCalls(m.content));
      assert RoleName(m.role) == ToldRole(m.role);
    }
  }

  /** Every accepted request goes out as told, part by part and turn by turn. */
  lemma RequestIsTold(ctx: Context)
    requires EncodeTurns(ctx, ctx.messages, 0).Emitted?
    ensures EncodeTurns(ctx, ctx.messages, 0).items == ToldTurns(ctx, ctx.messages, 0)
  {
    assert IndexAfter(ctx, 0) == 0;
    TurnsAreTold(ctx, ctx.messages, 0);
  }
}
