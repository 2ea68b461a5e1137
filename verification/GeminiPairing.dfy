/**
 Tool results in a Gemini request, against the pairing of calls and results that
 the other codecs keep: a result belongs to the call whose `call_id`, or whose id
 when it has none, is the result's. The encoder looks at ids only.
 */
module GeminiPairing {
  import opened JsonValue
  import opened RequestIr
  import opened Sequences
  import opened Wrappers
  import G = GeminiRequest
  import P = ToolPairing

  /** The result is the call's own. */
  predicate IsAnswerTo(r: Content, c: Content) { r.ToolResult? && c.ToolCall? && r.toolCallId == c.callId.GetOr(c.id) }

  predicate Stands(ms: seq<Message>, c: Content) { exists m :: m in ms && c in m.content }

  predicate FromAssistant(ms: seq<Message>, c: Content) { exists m :: m in ms && m.role.Assistant? && c in m.content }

  predicate ShareId(c: Content, d: Content)
    requires c.ToolCall? && d.ToolCall?
  {
    c.id == d.id || c.callId == Some(d.id) || d.callId == Some(c.id) || (c.callId.Some? && c.callId == d.callId)
  }

  /** No id, of either kind, stands for two calls. */
  ghost predicate UniqueIds(ms: seq<Message>) {
    forall c, d :: Stands(ms, c) && Stands(ms, d) && c.ToolCall? && d.ToolCall? && ShareId(c, d) ==> c == d
  }

  ghost predicate NamedCalls(ms: seq<Message>) { forall c :: Stands(ms, c) && c.ToolCall? ==> c.name != "" }

  /** An assistant's call whose own id is the one its results carry. */
  predicate Found(ms: seq<Message>, c: Content)
    requires c.ToolCall?
  {
    FromAssistant(ms, c) && c.id != "" && (c.callId.None? || c.callId == Some(c.id))
  }

  /** A result is sent under its call's name when the call is found, and else under what its id spells. */
  lemma ResultResolves(ms: seq<Message>, c: Content, r: Content)
    requires UniqueIds(ms) && NamedCalls(ms) && Stands(ms, c) && IsAnswerTo(r, c) && r.name == ""
    ensures G.Resolved(ms, r) == if Found(ms, c) then Some(c.name) else G.StripCallPrefix(r.toolCallId)
  {
    var id := r.toolCallId;
    G.NameFromIs(ms, id);
    forall name | G.CalledByAssistant(ms, id, name)
      ensures name == c.name && FromAssistant(ms, c) && c.id == id
    {
      var m, d :| m in ms && m.role.Assistant? && d in m.content && G.Calls(d, id) && d.name == name;
      assert Stands(ms, d) && ShareId(d, c);
    }
    if Found(ms, c) {
      var m :| m in ms && m.role.Assistant? && c in m.content;
      assert G.Calls(c, id);
      assert G.CalledByAssistant(ms, id, c.name);
    }
  }

  lemma PrefixSpells(id: string, name: string)
    requires name != ""
    ensures G.StripCallPrefix(id) == Some(name) <==> id == G.CALL_PREFIX + name
  {
    if G.StripCallPrefix(id).Some? { assert id == G.CALL_PREFIX + id[|G.CALL_PREFIX|..]; }
    if id == G.CALL_PREFIX + name { assert id[|G.CALL_PREFIX|..] == name; }
  }

  /** In paired messages every result has its call. */
  lemma PairedResultsHaveCalls(ms: seq<Message>, r: Content) returns (c: Content)
    requires P.Paired(Each(P.EventsOf, ms)) && Stands(ms, r) && r.ToolResult?
    ensures Stands(ms, c) && IsAnswerTo(r, c)
  {
    var events, id := Each(P.EventsOf, ms), r.toolCallId;
    var m :| m in ms && r in m.content;
    P.IrEventMembers(m, id);
    EachMember(P.EventsOf, ms, P.Answered(id));
    var i :| 0 <= i < |events| && events[i] == P.Answered(id);
    assert P.Called(id) in events[..i];
    P.IrCallsSoFar(ms, id);
    var j :| 0 <= j < |ms| && P.CalledIn(ms[j], id);
    c :| c in ms[j].content && c.ToolCall? && c.callId.GetOr(c.id) == id;
    assert ms[j] in ms;
  }

  /**
   Paired messages with unique ids and named calls are accepted exactly when every
   nameless result's call is found or the result's id spells a name.
   */
  lemma AcceptedExactlyWhenFound(ctx: G.Context)
    requires P.Paired(Each(P.EventsOf, ctx.messages)) && UniqueIds(ctx.messages) && NamedCalls(ctx.messages)
    ensures G.EncodeTurns(ctx, ctx.messages, 0).Emitted? <==>
            forall c, r :: Stands(ctx.messages, c) && Stands(ctx.messages, r) && IsAnswerTo(r, c) && r.name == "" ==>
                             Found(ctx.messages, c) || G.StripCallPrefix(r.toolCallId).Some?
  {
    var ms := ctx.messages;
    G.TurnsFailIff(ctx, ms, 0);
    if forall c, r :: Stands(ms, c) && Stands(ms, r) && IsAnswerTo(r, c) && r.name == "" ==>
                        Found(ms, c) || G.StripCallPrefix(r.toolCallId).Some? {
      forall m, r | m in ms && r in m.content && r.ToolResult?
        ensures G.Resolved(ms, r).Some?
      {
        assert Stands(ms, r);
        var c := PairedResultsHaveCalls(ms, r);
        if r.name == "" { ResultResolves(ms, c, r); }
      }
    }
    if forall m :: m in ms ==> G.AllResolve(ctx, m.content) {
      forall c, r | Stands(ms, c) && Stands(ms, r) && IsAnswerTo(r, c) && r.name == ""
        ensures Found(ms, c) || G.StripCallPrefix(r.toolCallId).Some?
      {
        var m :| m in ms && r in m.content;
        assert G.AllResolve(ctx, m.content);
        ResultResolves(ms, c, r);
      }
    }
  }

  /** And then a result bears its own call's name exactly when the call is found or the id spells that name. */
  lemma NamedAfterItsCallExactlyWhen(ms: seq<Message>, c: Content, r: Content)
    requires UniqueIds(ms) && NamedCalls(ms) && Stands(ms, c) && IsAnswerTo(r, c) && r.name == ""
    ensures G.Resolved(ms, r) == Some(c.name) <==> Found(ms, c) || r.toolCallId == G.CALL_PREFIX + c.name
  {
    ResultResolves(ms, c, r);
    PrefixSpells(r.toolCallId, c.name);
  }

  /** A call and its result from the Responses protocol, with an item id and a `call_id`: paired, and refused. */
  lemma CallIdsAreNotLookedUp(json: JsonText, signatures: seq<Json>, gemini3: bool, item: string, id: string,
                              name: string, arguments: Json, content: string)
    requires name != "" && item != id && G.StripCallPrefix(id).None?
    ensures var ms := [Message(Assistant, [ToolCall(item, name, arguments, Some(id), None)]),
                       Message(Tool, [ToolResult(id, "", content)])];
            && P.Paired(Each(P.EventsOf, ms)) && P.PairedAcross(ms) && UniqueIds(ms) && NamedCalls(ms)
            && G.EncodeTurns(G.Context(json, ms, signatures, gemini3), ms, 0).Failed?
  {
    var call, result := ToolCall(item, name, arguments, Some(id), None), ToolResult(id, "", content);
    var m, n := Message(Assistant, [call]), Message(Tool, [result]);
    var ms := [m, n];
    EachOne(P.EventOf, call);
    EachOne(P.EventOf, result);
    EachOne(P.EventsOf, n);
    assert ms[1..] == [n];
    assert Each(P.EventsOf, ms) == [P.Called(id)] + [P.Answered(id)];
    assert P.CalledIn(ms[0], id) && !P.AnsweredIn(m, id);
    assert forall k, x :: 0 <= k < |ms| && P.AnsweredIn(ms[k], x) ==> k == 1 && x == id;
    assert forall c :: Stands(ms, c) ==> c == call || c == result;
    assert Stands(ms, call) by { assert call in ms[0].content; }
    assert Stands(ms, result) by { assert result in ms[1].content; }
    assert IsAnswerTo(result, call) && !Found(ms, call);
    AcceptedExactlyWhenFound(G.Context(json, ms, signatures, gemini3));
  }
}
