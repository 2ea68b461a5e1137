/**
 What the two Gemini response decoders make of the wire, field by field and in
 order, said without their own helpers.
 */
module GeminiReading {
  import opened JsonValue
  import opened Sequences
  import opened StreamIr
  import opened TokenUsage
  import opened Wrappers
  import opened GeminiStream

  /** The text of a thought that is no flag. */
  function SpokenThought(p: GeminiPart): Option<string> {
    match p.thought
    case NoThought => None
    case Flagged(_) => None
    case ThoughtText(text) => Some(text)
    case ThoughtObject(inner) => inner
  }

  /** The id a call is told under: its own, or one made from its name, or none. */
  function ToldId(call: FunctionCall): string {
    match (call.id, call.name)
    case (Some(id), Some(name)) => if id != "" then id else if name != "" then "gemini_call_" + name else ""
    case (Some(id), None) => id
    case (None, Some(name)) => if name != "" then "gemini_call_" + name else ""
    case (None, None) => ""
  }

  /** What one part says when streamed: text, then thought, then call. */
  function ToldParts(p: GeminiPart): seq<Part> {
    (match p.text
     case None => []
     case Some(text) => if p.thought == Flagged(true) then [ReasoningDelta(text)] else [TextDelta(text)]) +
    (match SpokenThought(p)
     case None => []
     case Some(text) => [ReasoningDelta(text)]) +
    (match p.call
     case None => []
     case Some(call) => [ToolCallDelta(ToldId(call), call.name, if call.args == Null then Obj(map[]) else call.args)])
  }

  /** What it holds when decoded whole: the first of text, thought and call. */
  function ToldContent(p: GeminiPart): seq<Content> {
    match (p.text, SpokenThought(p), p.call)
    case (Some(text), _, _) => if p.thought == Flagged(true) then [Reasoning(text)] else [Text(text)]
    case (None, Some(text), _) => [Reasoning(text)]
    case (None, None, Some(call)) =>
      if p.thought == Flagged(true) then [] else [ToolCall(ToldId(call), call.name.GetOr(""), call.args)]
    case (None, None, None) => []
  }

  /** The finish that a reason tells, after calls or not. */
  function ToldFinish(reason: string, calls: bool): FinishReason {
    if reason == "STOP" && calls then ToolCalls
    else if reason == "STOP" then Stop
    else if reason == "MAX_TOKENS" then Length
    else if reason == "SAFETY" then ContentFilter
    else Other(reason)
  }

  lemma IdsAreTold(call: FunctionCall)
    ensures CallId(call) == ToldId(call)
  {
  }

  lemma FinishesAreTold(reason: string, calls: bool)
    ensures ReasonOf(reason, calls) == ToldFinish(reason, calls)
  {
    assert "STOP"[0] == 'S' && "STOP"[1] == 'T' && "SAFETY"[1] == 'A' && "MAX_TOKENS"[0] == 'M';
  }

  lemma PartIsTold(p: GeminiPart)
    ensures DeltasOf(p) == ToldParts(p) && ContentOf(p) == ToldContent(p)
  {
    if p.call.Some? { IdsAreTold(p.call.value); }
  }

  lemma {:induction false} PartsAreTold(ps: seq<GeminiPart>)
    ensures Deltas(ps) == Each(ToldParts, ps) && Contents(ps) == Each(ToldContent, ps)
  {
    if ps != [] {
      PartIsTold(ps[0]);
      PartsAreTold(ps[1..]);
    }
  }

  predicate Calling(parts: seq<GeminiPart>) { exists p :: p in parts && p.call.Some? }

  /** A candidate's parts in order, and the finish it tells. */
  function ToldCandidate(c: Candidate, calls: bool): seq<Part> {
    Each(ToldParts, c.parts) +
    (match c.finishReason
     case None => []
     case Some(reason) => [Finish(ToldFinish(reason, calls || Calling(c.parts)))])
  }

  /** All candidates of an event, the calls of earlier ones counting for the finishes of later ones. */
  function ToldCandidates(cs: seq<Candidate>, calls: bool): seq<Part>
    decreases |cs|
  {
    if cs == [] then []
    else ToldCandidate(cs[0], calls) + ToldCandidates(cs[1..], calls || Calling(cs[0].parts))
  }

  predicate AnyCalling(cs: seq<Candidate>) { exists c :: c in cs && Calling(c.parts) }

  predicate AnyFinishing(cs: seq<Candidate>) { exists c :: c in cs && c.finishReason.Some? }

  lemma CandidateIsTold(d: DecoderState, c: Candidate)
    ensures var (after, out) := StepCandidate(d, c);
            && out == ToldCandidate(c, d.sawToolCalls)
            && after == Past(d, c.parts).(sawFinish := d.sawFinish || c.finishReason.Some?)
  {
    PartsAreRead(d, c.parts);
    PartsAreTold(c.parts);
    if c.finishReason.Some? { FinishesAreTold(c.finishReason.value, Past(d, c.parts).sawToolCalls); }
    assert Each(ToldParts, c.parts) + [] == Each(ToldParts, c.parts);
  }

  /** What the events' candidates leave behind. */
  ghost predicate LeftBy(d: DecoderState, cs: seq<Candidate>, after: DecoderState) {
    && after.responseId == d.responseId && after.sawToolCalls == (d.sawToolCalls || AnyCalling(cs))
    && after.sawFinish == (d.sawFinish || AnyFinishing(cs))
  }

  lemma {:induction false} ToldSnoc(cs: seq<Candidate>, c: Candidate, calls: bool)
    ensures ToldCandidates(cs + [c], calls) == ToldCandidates(cs, calls) + ToldCandidate(c, calls || AnyCalling(cs))
    decreases |cs|
  {
    if cs == [] {
      assert [c][1..] == [] && [] + [c] == [c];
      assert ToldCandidates([c], calls) == ToldCandidate(c, calls) + [];
    } else {
      assert (cs + [c])[0] == cs[0] && (cs + [c])[1..] == cs[1..] + [c] && cs == [cs[0]] + cs[1..];
      ToldSnoc(cs[1..], c, calls || Calling(cs[0].parts));
      Associative(ToldCandidate(cs[0], calls), ToldCandidates(cs[1..], calls || Calling(cs[0].parts)),
                  ToldCandidate(c, calls || AnyCalling(cs)));
    }
  }

  lemma {:induction false} CandidatesAreTold(d: DecoderState, cs: seq<Candidate>)
    ensures StepCandidates(d, cs).1 == ToldCandidates(cs, d.sawToolCalls) && LeftBy(d, cs, StepCandidates(d, cs).0)
    decreases |cs|
  {
    if cs != [] {
      var rest, c := cs[..|cs| - 1], cs[|cs| - 1];
      assert cs == rest + [c];
      CandidatesAreTold(d, rest);
      CandidateIsTold(StepCandidates(d, rest).0, c);
      ToldSnoc(rest, c, d.sawToolCalls);
    }
  }

  /**
   Every event says in this order: the response's id when it is the first told, the
   candidates, the usage, and a made-up finish after it when there was none before.
   */
  lemma EventSays(d: DecoderState, e: Event)
    ensures var (after, out) := Step(d, e);
            var calls := d.sawToolCalls || AnyCalling(e.candidates);
            var finished := d.sawFinish || AnyFinishing(e.candidates);
            var usage := if e.usage.Some? then DecodeGeminiStream(e.usage.value) else None;
            && out == (if d.responseId.None? && e.responseId.Some? then [ResponseStarted(e.responseId.value)] else []) +
                      ToldCandidates(e.candidates, d.sawToolCalls) +
                      (if usage.None? then []
                       else if finished then [UsageReport(usage.value)]
                       else [UsageReport(usage.value), Finish(if calls then ToolCalls else Stop)])
            && after.responseId == (if d.responseId.Some? then d.responseId else e.responseId)
            && after.sawToolCalls == calls && after.sawFinish == (finished || usage.Some?)
  {
    CandidatesAreTold(StepStart(d, e.responseId).0, e.candidates);
  }

  function PartsIn(c: Candidate): seq<GeminiPart> { c.parts }

  lemma {:induction false} AllPartsInOrder(cs: seq<Candidate>)
    ensures AllParts(cs) == Each(PartsIn, cs)
  {
    if cs != [] { AllPartsInOrder(cs[1..]); }
  }

  /** A whole response holds its id, the contents of all candidates in order, the first one's finish, and the usage. */
  lemma ResponseHolds(body: Event)
    ensures var r, content := DecodeResponse(body), Each(ToldContent, Each(PartsIn, body.candidates));
            var calls := exists i :: 0 <= i < |content| && content[i].ToolCall?;
            && r.responseId == body.responseId && r.content == content
            && r.finish == (if body.candidates == [] || body.candidates[0].finishReason.None? then None
                            else Some(ToldFinish(body.candidates[0].finishReason.value, calls)))
            && r.usage == (if body.usage.Some? then DecodeGemini(body.usage.value) else None)
  {
    AllPartsInOrder(body.candidates);
    PartsAreTold(AllParts(body.candidates));
    if body.candidates != [] && body.candidates[0].finishReason.Some? {
      FinishesAreTold(body.candidates[0].finishReason.value, HasToolCall(Contents(AllParts(body.candidates))));
    }
  }

  /** A call as it is told: the id, the name, and the arguments, an empty object for none. */
  function ToldCalls(p: GeminiPart): seq<Call> {
    match p.call
    case None => []
    case Some(call) => [Call(ToldId(call), call.name.GetOr(""), if call.args == Null then Obj(map[]) else call.args)]
  }

  lemma {:induction false} CallsAreTold(ps: seq<GeminiPart>)
    ensures Each(SentCalls, ps) == Each(ToldCalls, ps)
  {
    if ps != [] {
      SentIs(ps[0]);
      if ps[0].call.Some? { IdsAreTold(ps[0].call.value); }
      CallsAreTold(ps[1..]);
    }
  }

  /**
   However a response is cut, the calls streamed are the calls on the wire in order,
   each under its own id when it has one.
   */
  lemma StreamedCallsAreTheWires(cut: Cut, body: Event)
    requires Delivers(cut, body)
    ensures Streamed(StepAll(FRESH, Events(cut)).1).calls == Each(ToldCalls, body.candidates[0].parts)
  {
    var ps := body.candidates[0].parts;
    var a, b, c := CutReads(cut, body);
    StreamedByPart(ps);
    CallsAreTold(ps);
  }

  /** Two calls with ids of their own are told apart by them, in both decoders, whatever their names. */
  lemma OwnIdsAreKept(p: GeminiPart)
    requires p.call.Some? && p.call.value.id.Some? && p.call.value.id.value != ""
    ensures SentCalls(p) == [Call(p.call.value.id.value, p.call.value.name.GetOr(""), ArgumentsOf(p.call.value.args))]
    ensures CallIsRead(p) ==>
              KeptCalls(p) == [Call(p.call.value.id.value, p.call.value.name.GetOr(""), p.call.value.args)]
  {
    SentIs(p);
    KeptIs(p);
    IdsAreTold(p.call.value);
  }
}
