/**
 The Gemini response decoders: the whole-body one and the streaming one, and
 what a response loses or keeps when it is cut into events. Events are modelled
 after parsing; error events and grounding citations are not modelled.
 */
module GeminiStream {
  import opened JsonValue
  import opened Sequences
  import opened StreamIr
  import opened TokenUsage
  import opened Wrappers

  type Part = StreamPart<Json>

  // ---------------------------------------------------------------------
  // The wire
  // ---------------------------------------------------------------------

  /** The `thought` field: a flag, or the text some proxies put there. */
  datatype Thought = NoThought | Flagged(b: bool) | ThoughtText(text: string) | ThoughtObject(inner: Option<string>)

  /** `args` is null when absent. */
  datatype FunctionCall = FunctionCall(name: Option<string>, id: Option<string>, args: Json)

  datatype GeminiPart = GeminiPart(text: Option<string>, thought: Thought, call: Option<FunctionCall>,
                                   signature: Option<Json>)

  datatype Candidate = Candidate(parts: seq<GeminiPart>, finishReason: Option<string>)

  datatype Event = Event(responseId: Option<string>, candidates: seq<Candidate>, usage: Option<GeminiUsage>)

  function SynthCallId(name: string): string { if name == "" then "" else "gemini_call_" + name }

  function CallId(call: FunctionCall): string {
    if call.id.Some? && call.id.value != "" then call.id.value else SynthCallId(call.name.GetOr(""))
  }

  predicate IsFlagged(p: GeminiPart) { p.thought == Flagged(true) }

  /** The reasoning text of an unflagged part. */
  function LooseThought(p: GeminiPart): Option<string> {
    match p.thought
    case ThoughtText(t) => Some(t)
    case ThoughtObject(t) => t
    case _ => None
  }

  // ---------------------------------------------------------------------
  // The whole-body decoder
  // ---------------------------------------------------------------------

  datatype Content = Text(text: string) | Reasoning(text: string) | ToolCall(id: string, name: string, arguments: Json)

  datatype Response = Response(responseId: Option<string>, content: seq<Content>, signatures: seq<Json>,
                               finish: Option<FinishReason>, usage: Option<Usage>)

  /** A part yields its first kind of content only. */
  function ContentOf(p: GeminiPart): seq<Content> {
    if IsFlagged(p) then (if p.text.Some? then [Reasoning(p.text.value)] else [])
    else if p.text.Some? then [Text(p.text.value)]
    else if LooseThought(p).Some? then [Reasoning(LooseThought(p).value)]
    else if p.call.Some? then [ToolCall(CallId(p.call.value), p.call.value.name.GetOr(""), p.call.value.args)]
    else []
  }

  function Contents(ps: seq<GeminiPart>): seq<Content> { Each(ContentOf, ps) }

  function SignatureOf(p: GeminiPart): seq<Json> { if p.signature.Some? then [p.signature.value] else [] }

  function Signatures(ps: seq<GeminiPart>): seq<Json> { Each(SignatureOf, ps) }

  function AllParts(candidates: seq<Candidate>): seq<GeminiPart> {
    if candidates == [] then [] else candidates[0].parts + AllParts(candidates[1..])
  }

  predicate HasToolCall(content: seq<Content>) { exists i :: 0 <= i < |content| && content[i].ToolCall? }

  function ReasonOf(text: string, sawToolCalls: bool): FinishReason {
    match text
    case "STOP" => if sawToolCalls then ToolCalls else Stop
    case "MAX_TOKENS" => Length
    case "SAFETY" => ContentFilter
    case _ => Other(text)
  }

  function DecodeResponse(body: Event): Response {
    var ps := AllParts(body.candidates);
    var content := Contents(ps);
    var finish :=
      if body.candidates != [] && body.candidates[0].finishReason.Some?
      then Some(ReasonOf(body.candidates[0].finishReason.value, HasToolCall(content))) else None;
    Response(body.responseId, content, Signatures(ps), finish,
             if body.usage.Some? then DecodeGemini(body.usage.value) else None)
  }

  // ---------------------------------------------------------------------
  // The streaming decoder
  // ---------------------------------------------------------------------

  datatype DecoderState = DecoderState(responseId: Option<string>, sawFinish: bool, sawToolCalls: bool,
                                       signatures: seq<Json>)

  /** Argument text of a call: the serialised object, `{}` when there is none. */
  function ArgumentsOf(args: Json): Json { if args.Null? then Obj(map[]) else args }

  function SpeechDeltas(p: GeminiPart): seq<Part> {
    if IsFlagged(p) then (if p.text.Some? then [ReasoningDelta(p.text.value)] else [])
    else (if p.text.Some? then [TextDelta(p.text.value)] else []) +
         (if LooseThought(p).Some? then [ReasoningDelta(LooseThought(p).value)] else [])
  }

  function CallDeltas(p: GeminiPart): seq<Part> {
    match p.call
    case None => []
    case Some(call) => [ToolCallDelta(CallId(call), call.name, ArgumentsOf(call.args))]
  }

  function StepPart(d: DecoderState, p: GeminiPart): (DecoderState, seq<Part>) {
    (if p.call.Some? then d.(sawToolCalls := true, signatures := d.signatures + SignatureOf(p)) else d,
     SpeechDeltas(p) + CallDeltas(p))
  }

  function StepParts(d: DecoderState, ps: seq<GeminiPart>): (DecoderState, seq<Part>)
    decreases |ps|
  {
    if ps == [] then (d, [])
    else
      var (d', out) := StepParts(d, ps[..|ps| - 1]);
      var (d'', more) := StepPart(d', ps[|ps| - 1]);
      (d'', out + more)
  }

  function StepCandidate(d: DecoderState, c: Candidate): (DecoderState, seq<Part>) {
    var (d', out) := StepParts(d, c.parts);
    match c.finishReason
    case None => (d', out)
    case Some(fr) => (d'.(sawFinish := true), out + [Finish(ReasonOf(fr, d'.sawToolCalls))])
  }

  function StepCandidates(d: DecoderState, cs: seq<Candidate>): (DecoderState, seq<Part>)
    decreases |cs|
  {
    if cs == [] then (d, [])
    else
      var (d', out) := StepCandidates(d, cs[..|cs| - 1]);
      var (d'', more) := StepCandidate(d', cs[|cs| - 1]);
      (d'', out + more)
  }

  /** Usage without a finish before it synthesises one. */
  function StepUsage(d: DecoderState, usage: Option<GeminiUsage>): (DecoderState, seq<Part>) {
    if usage.None? || DecodeGeminiStream(usage.value).None? then (d, [])
    else
      var report := [UsageReport(DecodeGeminiStream(usage.value).value)];
      if d.sawFinish then (d, report)
      else (d.(sawFinish := true), report + [Finish(if d.sawToolCalls then ToolCalls else Stop)])
  }

  function StepStart(d: DecoderState, id: Option<string>): (DecoderState, seq<Part>) {
    if d.responseId.None? && id.Some? then (d.(responseId := id), [ResponseStarted(id.value)]) else (d, [])
  }

  function Step(d: DecoderState, e: Event): (DecoderState, seq<Part>) {
    var (d1, started) := StepStart(d, e.responseId);
    var (d2, out) := StepCandidates(d1, e.candidates);
    var (d3, tail) := StepUsage(d2, e.usage);
    (d3, started + out + tail)
  }

  function StepAll(d: DecoderState, es: seq<Event>): (DecoderState, seq<Part>)
    decreases |es|
  {
    if es == [] then (d, [])
    else
      var (d', out) := Step(d, es[0]);
      var (d'', more) := StepAll(d', es[1..]);
      (d'', out + more)
  }

  const FRESH := DecoderState(None, false, false, [])

  /** What the end of the stream hands over: nothing when no event told the response's id. */
  function Completed(d: DecoderState): Option<(string, seq<Json>)> {
    match d.responseId
    case None => None
    case Some(id) => Some((id, d.signatures))
  }

  class GeminiStreamDecoder {
    var responseId: Option<string>
    var sawFinish: bool
    var sawToolCalls: bool
    var thoughtSignatures: seq<Json>

    ghost function State(): DecoderState
      reads this
    {
      DecoderState(responseId, sawFinish, sawToolCalls, thoughtSignatures)
    }

    constructor ()
      ensures State() == FRESH
    {
      responseId, sawFinish, sawToolCalls, thoughtSignatures := None, false, false, [];
    }

    method FeedPart(p: GeminiPart) returns (parts: seq<Part>)
      modifies this`sawToolCalls, this`thoughtSignatures
      ensures (State(), parts) == StepPart(old(State()), p)
    {
      parts := [];
      if p.thought == Flagged(true) {
        if p.text.Some? { parts := [ReasoningDelta(p.text.value)]; }
      } else {
        if p.text.Some? { parts := [TextDelta(p.text.value)]; }
        match p.thought {
          case ThoughtText(t) => parts := parts + [ReasoningDelta(t)];
          case ThoughtObject(Some(t)) => parts := parts + [ReasoningDelta(t)];
          case _ =>
        }
      }
      assert parts == SpeechDeltas(p);
      if p.call.Some? {
        sawToolCalls := true;
        if p.signature.Some? { thoughtSignatures := thoughtSignatures + [p.signature.value]; }
        var call := p.call.value;
        var id := if call.id.Some? && call.id.value != "" then call.id.value
                  else if call.name.Some? then SynthCallId(call.name.value) else "";
        var arguments := if !call.args.Null? then call.args else Obj(map[]);
        parts := parts + [ToolCallDelta(id, call.name, arguments)];
      }
      assert parts == SpeechDeltas(p) + CallDeltas(p);
      assert old(thoughtSignatures) + [] == old(thoughtSignatures);
    }

    method FeedCandidate(c: Candidate) returns (parts: seq<Part>)
      modifies this`sawToolCalls, this`thoughtSignatures, this`sawFinish
      ensures (State(), parts) == StepCandidate(old(State()), c)
    {
      parts := [];
      for i := 0 to |c.parts|
        invariant (State(), parts) == StepParts(old(State()), c.parts[..i])
      {
        assert c.parts[..i + 1][..i] == c.parts[..i];
        var more := FeedPart(c.parts[i]);
        parts := parts + more;
      }
      assert c.parts[..|c.parts|] == c.parts;
      if c.finishReason.Some? {
        parts := parts + [Finish(ReasonOf(c.finishReason.value, sawToolCalls))];
        sawFinish := true;
      }
    }

    method FeedCandidates(cs: seq<Candidate>) returns (parts: seq<Part>)
      modifies this`sawToolCalls, this`thoughtSignatures, this`sawFinish
      ensures (State(), parts) == StepCandidates(old(State()), cs)
    {
      parts := [];
      for i := 0 to |cs|
        invariant (State(), parts) == StepCandidates(old(State()), cs[..i])
      {
        assert cs[..i + 1][..i] == cs[..i];
        var more := FeedCandidate(cs[i]);
        parts := parts + more;
      }
      assert cs[..|cs|] == cs;
    }

    method Feed(e: Event) returns (parts: seq<Part>)
      modifies this
      ensures (State(), parts) == Step(old(State()), e)
    {
      parts := [];
      if responseId.None? && e.responseId.Some? {
        responseId := e.responseId;
        parts := [ResponseStarted(e.responseId.value)];
      }
      ghost var d1, started := State(), parts;
      var more := FeedCandidates(e.candidates);
      ghost var d2, tail := State(), [];
      parts := parts + more;
      if e.usage.Some? {
        var usage := DecodeGeminiStream(e.usage.value);
        if usage.Some? {
          parts := parts + [UsageReport(usage.value)];
          tail := [UsageReport(usage.value)];
          if !sawFinish {
            var reason := if sawToolCalls then ToolCalls else Stop;
            parts := parts + [Finish(reason)];
            tail := tail + [Finish(reason)];
            sawFinish := true;
          }
        }
      }
      assert (d1, started) == StepStart(old(State()), e.responseId);
      assert (State(), tail) == StepUsage(d2, e.usage);
      assert parts == started + more + tail;
    }

    /** The end of the stream hands over the id and the signatures and forgets both. */
    method FinishStream() returns (completed: Option<(string, seq<Json>)>)
      modifies this`responseId, this`thoughtSignatures
      ensures completed == Completed(old(State()))
      ensures State() == old(State()).(responseId := None,
                                       signatures := if completed.Some? then [] else old(thoughtSignatures))
    {
      match responseId
      case None => return None;
      case Some(id) =>
        var signatures := thoughtSignatures;
        responseId, thoughtSignatures := None, [];
        return Some((id, signatures));
    }
  }

  // ---------------------------------------------------------------------
  // What a reader makes of a response
  // ---------------------------------------------------------------------

  datatype Call = Call(id: string, name: string, arguments: Json)

  datatype Summary = Summary(text: string, reasoning: string, calls: seq<Call>, finishes: seq<FinishReason>,
                             usages: seq<Usage>)

  const NOTHING := Summary("", "", [], [], [])

  function Plus(a: Summary, b: Summary): Summary {
    Summary(a.text + b.text, a.reasoning + b.reasoning, a.calls + b.calls, a.finishes + b.finishes, a.usages + b.usages)
  }

  function OfPart(part: Part): Summary {
    match part
    case TextDelta(t) => NOTHING.(text := t)
    case ReasoningDelta(t) => NOTHING.(reasoning := t)
    case ToolCallDelta(id, name, arguments) => NOTHING.(calls := [Call(id, name.GetOr(""), arguments)])
    case Finish(reason) => NOTHING.(finishes := [reason])
    case UsageReport(u) => NOTHING.(usages := [u])
    case _ => NOTHING
  }

  function Streamed(parts: seq<Part>): Summary {
    if parts == [] then NOTHING else Plus(OfPart(parts[0]), Streamed(parts[1..]))
  }

  function OfContent(c: Content): Summary {
    match c
    case Text(t) => NOTHING.(text := t)
    case Reasoning(t) => NOTHING.(reasoning := t)
    case ToolCall(id, name, arguments) => NOTHING.(calls := [Call(id, name, arguments)])
  }

  function Spoken(content: seq<Content>): Summary {
    if content == [] then NOTHING else Plus(OfContent(content[0]), Spoken(content[1..]))
  }

  function Whole(r: Response): Summary {
    Spoken(r.content).(finishes := if r.finish.Some? then [r.finish.value] else [],
                       usages := if r.usage.Some? then [r.usage.value] else [])
  }

  lemma NothingIsUnit(a: Summary)
    ensures Plus(NOTHING, a) == a == Plus(a, NOTHING)
  {
    Units(a.text);
    Units(a.reasoning);
    Units(a.calls);
    Units(a.finishes);
    Units(a.usages);
  }

  lemma Units<T>(a: seq<T>)
    ensures a + [] == a == [] + a
  {
  }

  lemma PlusLaws(a: Summary, b: Summary, c: Summary)
    ensures Plus(NOTHING, a) == a == Plus(a, NOTHING)
    ensures Plus(Plus(a, b), c) == Plus(a, Plus(b, c))
  {
    NothingIsUnit(a);
    Associative(a.text, b.text, c.text);
    Associative(a.reasoning, b.reasoning, c.reasoning);
    Associative(a.calls, b.calls, c.calls);
    Associative(a.finishes, b.finishes, c.finishes);
    Associative(a.usages, b.usages, c.usages);
  }

  lemma {:induction false} StreamedConcat(a: seq<Part>, b: seq<Part>)
    ensures Streamed(a + b) == Plus(Streamed(a), Streamed(b))
    decreases |a|
  {
    if a == [] {
      assert a + b == b;
      PlusLaws(Streamed(b), NOTHING, NOTHING);
    } else {
      StreamedConcat(a[1..], b);
      assert (a + b)[1..] == a[1..] + b;
      PlusLaws(OfPart(a[0]), Streamed(a[1..]), Streamed(b));
    }
  }

  lemma {:induction false} SpokenConcat(a: seq<Content>, b: seq<Content>)
    ensures Spoken(a + b) == Plus(Spoken(a), Spoken(b))
    decreases |a|
  {
    if a == [] {
      assert a + b == b;
      PlusLaws(Spoken(b), NOTHING, NOTHING);
    } else {
      SpokenConcat(a[1..], b);
      assert (a + b)[1..] == a[1..] + b;
      PlusLaws(OfContent(a[0]), Spoken(a[1..]), Spoken(b));
    }
  }

  lemma OneStreamed(a: Part, b: Part)
    ensures Streamed([a]) == OfPart(a)
    ensures Streamed([a, b]) == Plus(OfPart(a), OfPart(b))
  {
    PlusLaws(OfPart(a), NOTHING, NOTHING);
    PlusLaws(OfPart(b), NOTHING, NOTHING);
    assert [a][1..] == [] && [a, b][1..] == [b] && [b][1..] == [];
  }

  lemma OneSpoken(c: Content)
    ensures Spoken([c]) == OfContent(c)
  {
    PlusLaws(OfContent(c), NOTHING, NOTHING);
    assert [c][1..] == [] && [c][0] == c;
  }

  // ---------------------------------------------------------------------
  // What the stream says of parts
  // ---------------------------------------------------------------------

  function DeltasOf(p: GeminiPart): seq<Part> { SpeechDeltas(p) + CallDeltas(p) }

  function Deltas(ps: seq<GeminiPart>): seq<Part> { Each(DeltasOf, ps) }

  function StashOf(p: GeminiPart): seq<Json> { if p.call.Some? then SignatureOf(p) else [] }

  /** The signatures that the stream keeps: those of calls. */
  function Stash(ps: seq<GeminiPart>): seq<Json> { Each(StashOf, ps) }

  predicate AnyCall(ps: seq<GeminiPart>) { exists p :: p in ps && p.call.Some? }

  /** Where the parts take the decoder. */
  function Past(d: DecoderState, ps: seq<GeminiPart>): DecoderState {
    d.(sawToolCalls := d.sawToolCalls || AnyCall(ps), signatures := d.signatures + Stash(ps))
  }

  lemma PartsConcat(ps: seq<GeminiPart>, qs: seq<GeminiPart>)
    ensures Deltas(ps + qs) == Deltas(ps) + Deltas(qs) && Stash(ps + qs) == Stash(ps) + Stash(qs)
    ensures AnyCall(ps + qs) <==> AnyCall(ps) || AnyCall(qs)
  {
    EachConcat(DeltasOf, ps, qs);
    EachConcat(StashOf, ps, qs);
    if p :| p in ps && p.call.Some? { assert p in ps + qs; }
    if p :| p in qs && p.call.Some? { assert p in ps + qs; }
  }

  lemma PastSnoc(d: DecoderState, ps: seq<GeminiPart>, p: GeminiPart)
    ensures StepPart(Past(d, ps), p) == (Past(d, ps + [p]), DeltasOf(p))
    ensures Deltas(ps + [p]) == Deltas(ps) + DeltasOf(p)
  {
    PartsConcat(ps, [p]);
    EachOne(DeltasOf, p);
    EachOne(StashOf, p);
    assert AnyCall([p]) <==> p.call.Some? by { assert p in [p]; }
    Associative(d.signatures, Stash(ps), StashOf(p));
    assert Stash(ps) + [] == Stash(ps);
  }

  /** The parts of one candidate, whatever they are. */
  lemma {:induction false} PartsAreRead(d: DecoderState, ps: seq<GeminiPart>)
    ensures StepParts(d, ps) == (Past(d, ps), Deltas(ps))
    decreases |ps|
  {
    if ps == [] {
      assert d.signatures + [] == d.signatures && !AnyCall(ps);
    } else {
      var rest, p := ps[..|ps| - 1], ps[|ps| - 1];
      assert ps == rest + [p];
      PartsAreRead(d, rest);
      PastSnoc(d, rest, p);
    }
  }

  lemma {:induction false} DeltasOnly(parts: seq<Part>)
    requires forall part :: part in parts ==> part.TextDelta? || part.ReasoningDelta? || part.ToolCallDelta?
    ensures Streamed(parts).finishes == [] && Streamed(parts).usages == []
  {
    if parts != [] {
      assert parts == [parts[0]] + parts[1..] && parts[0] in parts;
      DeltasOnly(parts[1..]);
    }
  }

  lemma DeltaKinds(p: GeminiPart, part: Part)
    requires part in DeltasOf(p)
    ensures part.TextDelta? || part.ReasoningDelta? || part.ToolCallDelta?
  {
    assert part in SpeechDeltas(p) || part in CallDeltas(p);
  }

  lemma DeltasSayNoMore(ps: seq<GeminiPart>)
    ensures Streamed(Deltas(ps)).finishes == [] && Streamed(Deltas(ps)).usages == []
  {
    forall part | part in Deltas(ps)
      ensures part.TextDelta? || part.ReasoningDelta? || part.ToolCallDelta?
    {
      EachMember(DeltasOf, ps, part);
      var p :| p in ps && part in DeltasOf(p);
      DeltaKinds(p, part);
    }
    DeltasOnly(Deltas(ps));
  }

  // ---------------------------------------------------------------------
  // Event by event
  // ---------------------------------------------------------------------

  function PartsOf(es: seq<Event>): seq<GeminiPart> {
    if es == [] then [] else AllParts(es[0].candidates) + PartsOf(es[1..])
  }

  function UsagesOf(es: seq<Event>): seq<Usage> { Each(UsageOf, es) }

  function UsageOf(e: Event): seq<Usage> {
    if e.usage.Some? && DecodeGeminiStream(e.usage.value).Some? then [DecodeGeminiStream(e.usage.value).value] else []
  }

  /** At most one candidate, and it does not finish. */
  predicate Unfinished(e: Event) { |e.candidates| <= 1 && (e.candidates != [] ==> e.candidates[0].finishReason.None?) }

  lemma OneCandidate(d: DecoderState, e: Event)
    requires |e.candidates| <= 1
    ensures AllParts(e.candidates) == if e.candidates == [] then [] else e.candidates[0].parts
    ensures StepCandidates(d, e.candidates) == if e.candidates == [] then (d, []) else StepCandidate(d, e.candidates[0])
  {
    if e.candidates != [] {
      assert e.candidates[1..] == [] && e.candidates[..0] == [];
      assert StepCandidates(d, e.candidates[..0]) == (d, []);
      var (d', more) := StepCandidate(d, e.candidates[0]);
      assert [] + more == more;
      assert AllParts(e.candidates) == e.candidates[0].parts + [];
    }
  }

  /** `said` is what the stream says of the parts, and the usages, apart from finishes. */
  ghost predicate Says(said: Summary, ps: seq<GeminiPart>, usages: seq<Usage>) {
    said.(finishes := [], usages := []) == Streamed(Deltas(ps)) && said.usages == usages
  }

  /** What the parts and usages leave in the decoder. */
  ghost predicate Leaves(d: DecoderState, after: DecoderState, ps: seq<GeminiPart>, usages: seq<Usage>) {
    after == Past(d, ps).(responseId := after.responseId, sawFinish := d.sawFinish || usages != [])
  }

  /** How a stretch of unfinished events is read from state `d`. */
  ghost predicate ReadsAs(d: DecoderState, after: DecoderState, said: Summary, ps: seq<GeminiPart>,
                          usages: seq<Usage>) {
    && Says(said, ps, usages) && Leaves(d, after, ps, usages)
    && |said.finishes| == (if usages != [] && !d.sawFinish then 1 else 0)
  }

  lemma StartIsSilent(d: DecoderState, id: Option<string>)
    ensures Streamed(StepStart(d, id).1) == NOTHING
    ensures StepStart(d, id).0 == d.(responseId := if d.responseId.Some? then d.responseId else id)
  {
    var started := StepStart(d, id).1;
    if started != [] { OneStreamed(started[0], started[0]); assert started == [started[0]]; }
  }

  lemma UsageIsRead(d: DecoderState, e: Event)
    ensures var (after, tail) := StepUsage(d, e.usage);
            && Streamed(tail) == NOTHING.(finishes := Streamed(tail).finishes, usages := UsageOf(e))
            && |Streamed(tail).finishes| == (if UsageOf(e) != [] && !d.sawFinish then 1 else 0)
            && after == d.(sawFinish := d.sawFinish || UsageOf(e) != [])
  {
    var tail := StepUsage(d, e.usage).1;
    if tail != [] {
      OneStreamed(tail[0], tail[|tail| - 1]);
      assert tail == [tail[0]] || tail == [tail[0], tail[|tail| - 1]];
    }
  }

  lemma StepStreams(d: DecoderState, e: Event)
    ensures var (d1, started) := StepStart(d, e.responseId);
            var (d2, out) := StepCandidates(d1, e.candidates);
            var (d3, tail) := StepUsage(d2, e.usage);
            Step(d, e).0 == d3 && Streamed(Step(d, e).1) == Plus(Plus(Streamed(started), Streamed(out)), Streamed(tail))
  {
    var (d1, started) := StepStart(d, e.responseId);
    var (d2, out) := StepCandidates(d1, e.candidates);
    var (d3, tail) := StepUsage(d2, e.usage);
    StreamedConcat(started + out, tail);
    StreamedConcat(started, out);
  }

  lemma CandidatesRead(d: DecoderState, e: Event)
    requires Unfinished(e)
    ensures StepCandidates(d, e.candidates) == (Past(d, AllParts(e.candidates)), Deltas(AllParts(e.candidates)))
  {
    OneCandidate(d, e);
    PartsAreRead(d, AllParts(e.candidates));
  }

  lemma EventFromPieces(out: Summary, tail: Summary, ps: seq<GeminiPart>, usages: seq<Usage>)
    requires out == Streamed(Deltas(ps)) && tail == NOTHING.(finishes := tail.finishes, usages := usages)
    ensures var said := Plus(Plus(NOTHING, out), tail);
            Says(said, ps, usages) && said.finishes == tail.finishes
  {
    DeltasSayNoMore(ps);
    PlusLaws(out, NOTHING, NOTHING);
  }

  lemma UnfinishedEvent(d: DecoderState, e: Event)
    requires Unfinished(e)
    ensures ReadsAs(d, Step(d, e).0, Streamed(Step(d, e).1), AllParts(e.candidates), UsageOf(e))
  {
    var (d1, started) := StepStart(d, e.responseId);
    var (d2, out) := StepCandidates(d1, e.candidates);
    var (d3, tail) := StepUsage(d2, e.usage);
    StartIsSilent(d, e.responseId);
    CandidatesRead(d1, e);
    UsageIsRead(d2, e);
    StepStreams(d, e);
    EventFromPieces(Streamed(out), Streamed(tail), AllParts(e.candidates), UsageOf(e));
  }

  ghost predicate AllUnfinished(es: seq<Event>) { forall i :: 0 <= i < |es| ==> Unfinished(es[i]) }

  /** A stretch of unfinished events says its parts, its usages, and a made-up finish at the first usage. */
  lemma {:induction false} UnfinishedEvents(d: DecoderState, es: seq<Event>)
    requires AllUnfinished(es)
    ensures ReadsAs(d, StepAll(d, es).0, Streamed(StepAll(d, es).1), PartsOf(es), UsagesOf(es))
    decreases |es|
  {
    if es == [] {
      assert d.signatures + [] == d.signatures && !AnyCall([]);
    } else {
      var first, rest := AllParts(es[0].candidates), PartsOf(es[1..]);
      var (d', out) := Step(d, es[0]);
      var (d'', more) := StepAll(d', es[1..]);
      UnfinishedEvent(d, es[0]);
      UnfinishedEvents(d', es[1..]);
      StreamedConcat(out, more);
      ReadsAsConcat(d, d', d'', Streamed(out), Streamed(more), first, rest, UsageOf(es[0]), UsagesOf(es[1..]));
    }
  }

  lemma SaysConcat(a: Summary, b: Summary, ps: seq<GeminiPart>, qs: seq<GeminiPart>, us: seq<Usage>, vs: seq<Usage>)
    requires Says(a, ps, us) && Says(b, qs, vs)
    ensures Says(Plus(a, b), ps + qs, us + vs)
  {
    PartsConcat(ps, qs);
    StreamedConcat(Deltas(ps), Deltas(qs));
    assert Plus(a, b).(finishes := [], usages := []) ==
           Plus(a.(finishes := [], usages := []), b.(finishes := [], usages := []));
  }

  lemma LeavesConcat(d: DecoderState, d': DecoderState, d'': DecoderState,
                     ps: seq<GeminiPart>, qs: seq<GeminiPart>, us: seq<Usage>, vs: seq<Usage>)
    requires Leaves(d, d', ps, us) && Leaves(d', d'', qs, vs)
    ensures Leaves(d, d'', ps + qs, us + vs)
  {
    PartsConcat(ps, qs);
    Associative(d.signatures, Stash(ps), Stash(qs));
  }

  lemma ReadsAsConcat(d: DecoderState, d': DecoderState, d'': DecoderState, a: Summary, b: Summary,
                      ps: seq<GeminiPart>, qs: seq<GeminiPart>, us: seq<Usage>, vs: seq<Usage>)
    requires ReadsAs(d, d', a, ps, us) && ReadsAs(d', d'', b, qs, vs)
    ensures ReadsAs(d, d'', Plus(a, b), ps + qs, us + vs)
  {
    SaysConcat(a, b, ps, qs, us, vs);
    LeavesConcat(d, d', d'', ps, qs, us, vs);
  }

  /** How the event that finishes is read. */
  ghost predicate FinishesAs(d: DecoderState, after: DecoderState, said: Summary, ps: seq<GeminiPart>,
                             usages: seq<Usage>, fr: string) {
    && Says(said, ps, usages)
    && after == Past(d, ps).(responseId := after.responseId, sawFinish := true)
    && said.finishes == [ReasonOf(fr, d.sawToolCalls || AnyCall(ps))]
  }

  lemma ThenFinish(parts: seq<Part>, reason: FinishReason)
    ensures Streamed(parts + [Finish(reason)]) == Plus(Streamed(parts), NOTHING.(finishes := [reason]))
  {
    StreamedConcat(parts, [Finish(reason)]);
    OneStreamed(Finish(reason), Finish(reason));
  }

  lemma FinishingCandidate(d: DecoderState, e: Event)
    requires |e.candidates| == 1 && e.candidates[0].finishReason.Some?
    ensures var ps, step := e.candidates[0].parts, StepCandidates(d, e.candidates);
            && step.0 == Past(d, ps).(sawFinish := true)
            && Streamed(step.1) == Plus(Streamed(Deltas(ps)), NOTHING.(finishes :=
                 [ReasonOf(e.candidates[0].finishReason.value, d.sawToolCalls || AnyCall(ps))]))
  {
    var ps := e.candidates[0].parts;
    OneCandidate(d, e);
    PartsAreRead(d, ps);
    ThenFinish(Deltas(ps), ReasonOf(e.candidates[0].finishReason.value, Past(d, ps).sawToolCalls));
  }

  lemma FinishingEvent(d: DecoderState, e: Event)
    requires |e.candidates| == 1 && e.candidates[0].finishReason.Some?
    ensures FinishesAs(d, Step(d, e).0, Streamed(Step(d, e).1), e.candidates[0].parts, UsageOf(e),
                       e.candidates[0].finishReason.value)
  {
    var (d1, started) := StepStart(d, e.responseId);
    var (d2, out) := StepCandidates(d1, e.candidates);
    var (d3, tail) := StepUsage(d2, e.usage);
    var ps := e.candidates[0].parts;
    StartIsSilent(d, e.responseId);
    FinishingCandidate(d1, e);
    UsageIsRead(d2, e);
    StepStreams(d, e);
    var finish := NOTHING.(finishes := [ReasonOf(e.candidates[0].finishReason.value, d1.sawToolCalls || AnyCall(ps))]);
    FinishFromPieces(Streamed(Deltas(ps)), finish, Streamed(tail), ps, UsageOf(e));
  }

  lemma FinishFromPieces(spoken: Summary, finish: Summary, tail: Summary, ps: seq<GeminiPart>, usages: seq<Usage>)
    requires spoken == Streamed(Deltas(ps))
    requires finish == NOTHING.(finishes := finish.finishes) && tail == NOTHING.(usages := usages)
    ensures var said := Plus(Plus(NOTHING, Plus(spoken, finish)), tail);
            Says(said, ps, usages) && said.finishes == finish.finishes
  {
    DeltasSayNoMore(ps);
    PlusLaws(Plus(spoken, finish), NOTHING, NOTHING);
    Units(spoken.text);
    Units(spoken.reasoning);
    Units(spoken.calls);
    Units(finish.finishes);
    Units(usages);
  }

  lemma {:induction false} StepAllConcat(d: DecoderState, es: seq<Event>, fs: seq<Event>)
    ensures var (d', out) := StepAll(d, es);
            var (d'', more) := StepAll(d', fs);
            StepAll(d, es + fs).0 == d'' && Streamed(StepAll(d, es + fs).1) == Plus(Streamed(out), Streamed(more))
    decreases |es|
  {
    if es == [] {
      assert es + fs == fs;
      PlusLaws(Streamed(StepAll(d, fs).1), NOTHING, NOTHING);
    } else {
      assert (es + fs)[0] == es[0] && (es + fs)[1..] == es[1..] + fs;
      var (d1, first) := Step(d, es[0]);
      StepAllConcat(d1, es[1..], fs);
      var (d', rest) := StepAll(d1, es[1..]);
      var more := StepAll(d', fs).1;
      StreamedConcat(first, StepAll(d1, es[1..] + fs).1);
      StreamedConcat(first, rest);
      PlusLaws(Streamed(first), Streamed(rest), Streamed(more));
    }
  }

  // ---------------------------------------------------------------------
  // Where the two decoders agree on parts
  // ---------------------------------------------------------------------

  /** No text stands beside a thought that says something. */
  predicate Quiet(p: GeminiPart) { !IsFlagged(p) && p.text.Some? ==> LooseThought(p).GetOr("") == "" }

  /** The whole decoder gets to the call: nothing it looks at first is there. */
  predicate CallIsRead(p: GeminiPart) {
    p.call.Some? ==> !IsFlagged(p) && p.text.None? && LooseThought(p).None?
  }

  predicate HasArguments(p: GeminiPart) { p.call.Some? ==> !p.call.value.args.Null? }

  predicate SignsCall(p: GeminiPart) { p.signature.Some? ==> p.call.Some? }

  function SentText(p: GeminiPart): string { Streamed(DeltasOf(p)).text }

  function SentReasoning(p: GeminiPart): string { Streamed(DeltasOf(p)).reasoning }

  function SentCalls(p: GeminiPart): seq<Call> { Streamed(DeltasOf(p)).calls }

  function KeptText(p: GeminiPart): string { Spoken(ContentOf(p)).text }

  function KeptReasoning(p: GeminiPart): string { Spoken(ContentOf(p)).reasoning }

  function KeptCalls(p: GeminiPart): seq<Call> { Spoken(ContentOf(p)).calls }

  lemma {:induction false} StreamedByPart(ps: seq<GeminiPart>)
    ensures Streamed(Deltas(ps)).text == Each(SentText, ps)
    ensures Streamed(Deltas(ps)).reasoning == Each(SentReasoning, ps)
    ensures Streamed(Deltas(ps)).calls == Each(SentCalls, ps)
  {
    if ps != [] {
      StreamedByPart(ps[1..]);
      StreamedConcat(DeltasOf(ps[0]), Deltas(ps[1..]));
    }
  }

  lemma {:induction false} SpokenByPart(ps: seq<GeminiPart>)
    ensures Spoken(Contents(ps)).text == Each(KeptText, ps)
    ensures Spoken(Contents(ps)).reasoning == Each(KeptReasoning, ps)
    ensures Spoken(Contents(ps)).calls == Each(KeptCalls, ps)
    ensures Spoken(Contents(ps)).finishes == [] && Spoken(Contents(ps)).usages == []
    ensures HasToolCall(Contents(ps)) <==> Spoken(Contents(ps)).calls != []
  {
    var content := Contents(ps);
    if ps != [] {
      SpokenByPart(ps[1..]);
      SpokenConcat(ContentOf(ps[0]), Contents(ps[1..]));
    }
    SpokenHasCalls(content);
  }

  lemma {:induction false} SpokenHasCalls(content: seq<Content>)
    ensures HasToolCall(content) <==> Spoken(content).calls != []
    ensures Spoken(content).finishes == [] && Spoken(content).usages == []
  {
    if content != [] {
      SpokenHasCalls(content[1..]);
      HasToolCallCons(content);
    }
  }

  lemma HasToolCallCons(content: seq<Content>)
    requires content != []
    ensures HasToolCall(content) <==> content[0].ToolCall? || HasToolCall(content[1..])
  {
    if HasToolCall(content[1..]) {
      var i :| 0 <= i < |content[1..]| && content[1..][i].ToolCall?;
      assert content[i + 1].ToolCall?;
    }
    if i :| 0 <= i < |content| && content[i].ToolCall? {
      assert i > 0 ==> content[1..][i - 1].ToolCall?;
    }
  }

  lemma SpeechIs(p: GeminiPart)
    ensures Streamed(SpeechDeltas(p)) ==
            if IsFlagged(p) then NOTHING.(reasoning := p.text.GetOr(""))
            else NOTHING.(text := p.text.GetOr(""), reasoning := LooseThought(p).GetOr(""))
  {
    var speech := SpeechDeltas(p);
    if speech != [] {
      OneStreamed(speech[0], speech[|speech| - 1]);
      assert speech == [speech[0]] || speech == [speech[0], speech[|speech| - 1]];
    }
  }

  /** What the stream makes of one part. */
  lemma SentIs(p: GeminiPart)
    ensures SentText(p) == if IsFlagged(p) then "" else p.text.GetOr("")
    ensures SentReasoning(p) == if IsFlagged(p) then p.text.GetOr("") else LooseThought(p).GetOr("")
    ensures SentCalls(p) ==
            if p.call.None? then []
            else [Call(CallId(p.call.value), p.call.value.name.GetOr(""), ArgumentsOf(p.call.value.args))]
  {
    SpeechIs(p);
    StreamedConcat(SpeechDeltas(p), CallDeltas(p));
    if p.call.Some? { OneStreamed(CallDeltas(p)[0], CallDeltas(p)[0]); }
    Units(SentText(p));
    Units(SentReasoning(p));
  }

  /** What the whole decoder makes of it. */
  lemma KeptIs(p: GeminiPart)
    ensures KeptText(p) == if IsFlagged(p) then "" else p.text.GetOr("")
    ensures KeptReasoning(p) ==
            if IsFlagged(p) then p.text.GetOr("") else if p.text.Some? then "" else LooseThought(p).GetOr("")
    ensures KeptCalls(p) ==
            if p.call.None? || !CallIsRead(p) then []
            else [Call(CallId(p.call.value), p.call.value.name.GetOr(""), p.call.value.args)]
  {
    var content := ContentOf(p);
    if content != [] {
      assert content == [content[0]];
      OneSpoken(content[0]);
    }
  }

  /**
   The two decoders agree on a part exactly when text does not hide a thought or a
   call from the whole one, a call has arguments, and only a call is signed.
   */
  lemma PartsAgreeExactlyWhen(d: DecoderState, p: GeminiPart)
    ensures (Streamed(StepPart(d, p).1) == Spoken(ContentOf(p)) &&
             StepPart(d, p).0.signatures == d.signatures + SignatureOf(p)) <==>
            Quiet(p) && CallIsRead(p) && HasArguments(p) && SignsCall(p)
  {
    PartIsSaidAlike(p);
    assert |d.signatures + SignatureOf(p)| == |d.signatures| + |SignatureOf(p)| && d.signatures + [] == d.signatures;
  }

  lemma PartIsSaidAlike(p: GeminiPart)
    ensures Streamed(DeltasOf(p)) == Spoken(ContentOf(p)) <==> Quiet(p) && CallIsRead(p) && HasArguments(p)
  {
    DeltasSayNoMore([p]);
    EachOne(DeltasOf, p);
    SpokenHasCalls(ContentOf(p));
    PartReasoningAgrees(p);
    PartCallsAgree(p);
  }

  lemma PartReasoningAgrees(p: GeminiPart)
    ensures SentText(p) == KeptText(p) && |SentReasoning(p)| >= |KeptReasoning(p)|
    ensures SentReasoning(p) == KeptReasoning(p) <==> Quiet(p)
  {
    SentIs(p);
    KeptIs(p);
  }

  lemma PartCallsAgree(p: GeminiPart)
    ensures |SentCalls(p)| >= |KeptCalls(p)|
    ensures SentCalls(p) == KeptCalls(p) <==> CallIsRead(p) && HasArguments(p)
  {
    SentIs(p);
    KeptIs(p);
    if p.call.Some? && CallIsRead(p) { assert SentCalls(p)[0] == KeptCalls(p)[0] <==> HasArguments(p); }
  }

  /** On texts the decoders agree; on reasoning, calls and signatures exactly when they do on every part. */
  lemma ResponsesAgreeExactlyWhen(ps: seq<GeminiPart>)
    ensures Streamed(Deltas(ps)).text == Spoken(Contents(ps)).text
    ensures Streamed(Deltas(ps)).reasoning == Spoken(Contents(ps)).reasoning <==> forall p :: p in ps ==> Quiet(p)
    ensures Streamed(Deltas(ps)).calls == Spoken(Contents(ps)).calls <==>
            forall p :: p in ps ==> CallIsRead(p) && HasArguments(p)
    ensures Stash(ps) == Signatures(ps) <==> forall p :: p in ps ==> SignsCall(p)
  {
    StreamedByPart(ps);
    SpokenByPart(ps);
    forall p: GeminiPart
      ensures SentText(p) == KeptText(p) && |SentReasoning(p)| >= |KeptReasoning(p)| && |SentCalls(p)| >= |KeptCalls(p)|
      ensures SentReasoning(p) == KeptReasoning(p) <==> Quiet(p)
      ensures SentCalls(p) == KeptCalls(p) <==> CallIsRead(p) && HasArguments(p)
    {
      PartReasoningAgrees(p);
      PartCallsAgree(p);
    }
    EachAgrees(SentText, KeptText, ps);
    EachAgrees(SentReasoning, KeptReasoning, ps);
    EachAgrees(SentCalls, KeptCalls, ps);
    EachAgrees(SignatureOf, StashOf, ps);
  }

  lemma KeepsCallExactlyWhen(p: GeminiPart)
    ensures KeptCalls(p) != [] <==> p.call.Some? && CallIsRead(p)
  {
    KeptIs(p);
  }

  /** The whole decoder tells of calls exactly when it reads one. */
  lemma CallsAreSeen(ps: seq<GeminiPart>)
    ensures HasToolCall(Contents(ps)) <==> exists p :: p in ps && p.call.Some? && CallIsRead(p)
  {
    SpokenByPart(ps);
    EachNonempty(KeptCalls, ps);
    forall p | p in ps
      ensures KeptCalls(p) != [] <==> p.call.Some? && CallIsRead(p)
    {
      KeepsCallExactlyWhen(p);
    }
  }

  // ---------------------------------------------------------------------
  // Cutting a response into events
  // ---------------------------------------------------------------------

  /** Plain or flagged text, which may be broken anywhere. */
  predicate IsSpeech(p: GeminiPart) {
    p.text.Some? && p.call.None? && p.signature.None? && (p.thought.NoThought? || p.thought.Flagged?)
  }

  function TextOf(ps: seq<GeminiPart>): string {
    if ps == [] then "" else ps[0].text.GetOr("") + TextOf(ps[1..])
  }

  /** `pieces` is the part whole, or its text broken into pieces of the same kind. */
  predicate BreaksInto(p: GeminiPart, pieces: seq<GeminiPart>) {
    || pieces == [p]
    || (IsSpeech(p) && TextOf(pieces) == p.text.value &&
        forall i :: 0 <= i < |pieces| ==> IsSpeech(pieces[i]) && pieces[i].thought == p.thought)
  }

  /** `qs` is `ps` with its texts broken. */
  predicate IsBroken(ps: seq<GeminiPart>, qs: seq<GeminiPart>) {
    if ps == [] then qs == []
    else exists k :: 0 <= k <= |qs| && BreaksInto(ps[0], qs[..k]) && IsBroken(ps[1..], qs[k..])
  }

  /** What a piece of this kind with this text says. */
  function PieceSaid(thought: Thought, text: string): Summary {
    if thought == Flagged(true) then NOTHING.(reasoning := text) else NOTHING.(text := text)
  }

  lemma PieceSays(p: GeminiPart)
    requires IsSpeech(p)
    ensures Streamed(DeltasOf(p)) == PieceSaid(p.thought, p.text.value) && StashOf(p) == []
  {
    SpeechIs(p);
    assert DeltasOf(p) == SpeechDeltas(p);
  }

  lemma SpeechLeavesNothing(pieces: seq<GeminiPart>)
    requires forall i :: 0 <= i < |pieces| ==> IsSpeech(pieces[i])
    ensures Stash(pieces) == [] && !AnyCall(pieces)
  {
    EachNothing(StashOf, pieces);
  }

  lemma {:induction false} PiecesSayTheSame(thought: Thought, pieces: seq<GeminiPart>)
    requires forall i :: 0 <= i < |pieces| ==> IsSpeech(pieces[i]) && pieces[i].thought == thought
    ensures Streamed(Deltas(pieces)) == PieceSaid(thought, TextOf(pieces))
  {
    if pieces != [] {
      var p, rest := pieces[0], pieces[1..];
      PiecesSayTheSame(thought, rest);
      PieceSays(p);
      StreamedConcat(DeltasOf(p), Deltas(rest));
      SaidConcat(thought, p.text.value, TextOf(rest));
    }
  }

  lemma SaidConcat(thought: Thought, a: string, b: string)
    ensures Plus(PieceSaid(thought, a), PieceSaid(thought, b)) == PieceSaid(thought, a + b)
  {
  }

  /** The two lists of parts say the same, call or not, and leave the same signatures. */
  ghost predicate SameSpeech(ps: seq<GeminiPart>, qs: seq<GeminiPart>) {
    && Streamed(Deltas(ps)) == Streamed(Deltas(qs))
    && (AnyCall(ps) <==> AnyCall(qs))
    && Stash(ps) == Stash(qs)
  }

  lemma SameSpeechConcat(ps: seq<GeminiPart>, ps': seq<GeminiPart>, qs: seq<GeminiPart>, qs': seq<GeminiPart>)
    requires SameSpeech(ps, ps') && SameSpeech(qs, qs')
    ensures SameSpeech(ps + qs, ps' + qs')
  {
    PartsConcat(ps, qs);
    PartsConcat(ps', qs');
    StreamedConcat(Deltas(ps), Deltas(qs));
    StreamedConcat(Deltas(ps'), Deltas(qs'));
  }

  lemma BreakingSaysTheSame(p: GeminiPart, pieces: seq<GeminiPart>)
    requires BreaksInto(p, pieces)
    ensures SameSpeech([p], pieces)
  {
    if pieces != [p] {
      PiecesSayTheSame(p.thought, pieces);
      PiecesSayTheSame(p.thought, [p]);
      SpeechLeavesNothing(pieces);
      SpeechLeavesNothing([p]);
      assert [p][1..] == [];
      assert TextOf([p]) == p.text.value + TextOf([p][1..]);
    }
  }

  lemma {:induction false} BrokenSaysTheSame(ps: seq<GeminiPart>, qs: seq<GeminiPart>)
    requires IsBroken(ps, qs)
    ensures SameSpeech(ps, qs)
  {
    if ps != [] {
      var k :| 0 <= k <= |qs| && BreaksInto(ps[0], qs[..k]) && IsBroken(ps[1..], qs[k..]);
      var p, rest, pieces, more := ps[0], ps[1..], qs[..k], qs[k..];
      assert qs == pieces + more && ps == [p] + rest;
      BreakingSaysTheSame(p, pieces);
      BrokenSaysTheSame(rest, more);
      SameSpeechConcat([p], pieces, rest, more);
    }
  }

  /** The events up to the finish, the one that finishes, and what trails it. */
  datatype Cut = Cut(before: seq<Event>, last: Event, after: seq<Event>)

  function Events(cut: Cut): seq<Event> { cut.before + [cut.last] + cut.after }

  /** The whole response, one candidate with a finish reason, is delivered by the events of the cut. */
  ghost predicate Delivers(cut: Cut, body: Event) {
    && |body.candidates| == 1 && body.candidates[0].finishReason.Some?
    && |cut.last.candidates| == 1 && cut.last.candidates[0].finishReason == body.candidates[0].finishReason
    && AllUnfinished(cut.before) && AllUnfinished(cut.after) && PartsOf(cut.after) == []
    && IsBroken(body.candidates[0].parts, PartsOf(cut.before) + cut.last.candidates[0].parts)
    && UsagesOf(Events(cut)) == UsageOf(body)
  }

  /** The id that the events tell first. */
  function FirstId(es: seq<Event>): (id: Option<string>)
    ensures id.Some? <==> exists e :: e in es && e.responseId.Some?
  {
    if es == [] then None
    else
      assert es == [es[0]] + es[1..];
      if es[0].responseId.Some? then es[0].responseId else FirstId(es[1..])
  }

  lemma StepKeepsId(d: DecoderState, e: Event)
    requires |e.candidates| <= 1
    ensures Step(d, e).0.responseId == if d.responseId.Some? then d.responseId else e.responseId
  {
    var d1 := StepStart(d, e.responseId).0;
    OneCandidate(d1, e);
    if e.candidates != [] { PartsAreRead(d1, e.candidates[0].parts); }
  }

  lemma {:induction false} StepAllKeepsId(d: DecoderState, es: seq<Event>)
    requires forall e :: e in es ==> |e.candidates| <= 1
    ensures StepAll(d, es).0.responseId == if d.responseId.Some? then d.responseId else FirstId(es)
    decreases |es|
  {
    if es != [] {
      StepKeepsId(d, es[0]);
      StepAllKeepsId(Step(d, es[0]).0, es[1..]);
    }
  }

  /** The finish of the whole response is said of calls exactly when the stream says it. */
  predicate FinishAgrees(candidate: Candidate) {
    candidate.finishReason == Some("STOP") && AnyCall(candidate.parts) ==>
      exists p :: p in candidate.parts && p.call.Some? && CallIsRead(p)
  }

  /**
   However a response is cut into events, streaming it yields the text of decoding
   it whole. It yields the same reasoning exactly when no text hides a thought
   from the whole decoder; the same calls exactly when nothing hides a call and
   every call has arguments; the same usage exactly when the gates agree on it; and
   the same finish exactly when no usage came before it and, where calls decide
   it, the whole decoder reads one of them.
   */
  lemma StreamingRefinesWhole(cut: Cut, body: Event)
    requires Delivers(cut, body)
    ensures var said, whole := Streamed(StepAll(FRESH, Events(cut)).1), Whole(DecodeResponse(body));
            var ps := body.candidates[0].parts;
            && said.text == whole.text
            && (said.reasoning == whole.reasoning <==> forall p :: p in ps ==> Quiet(p))
            && (said.calls == whole.calls <==> forall p :: p in ps ==> CallIsRead(p) && HasArguments(p))
            && (said.usages == whole.usages <==> (body.usage.Some? ==> CountsPlainly(body.usage.value)))
            && (said.finishes == whole.finishes <==> UsagesOf(cut.before) == [] && FinishAgrees(body.candidates[0]))
  {
    var a, b, c := CutReads(cut, body);
    var ps, fr := body.candidates[0].parts, body.candidates[0].finishReason.value;
    WholeIs(body);
    ResponsesAgreeExactlyWhen(ps);
    CallsAreSeen(ps);
    if body.usage.Some? { GatesAgreeExactlyWhen(body.usage.value); }
    CutFinishes(a, b, c, UsagesOf(cut.before), ReasonOf(fr, AnyCall(ps)), ReasonOf(fr, HasToolCall(Contents(ps))));
  }

  /** The signatures that the end of the stream hands over. */
  function HandedOver(d: DecoderState): seq<Json> {
    match Completed(d)
    case None => []
    case Some((_, signatures)) => signatures
  }

  lemma HandsOver(es: seq<Event>, ps: seq<GeminiPart>)
    requires forall e :: e in es ==> |e.candidates| <= 1
    requires StepAll(FRESH, es).0.signatures == Stash(ps)
    ensures Completed(StepAll(FRESH, es).0) ==
            match FirstId(es) case None => None case Some(id) => Some((id, Stash(ps)))
    ensures HandedOver(StepAll(FRESH, es).0) == Signatures(ps) <==>
            || Signatures(ps) == []
            || ((forall p :: p in ps ==> SignsCall(p)) && exists e :: e in es && e.responseId.Some?)
  {
    ResponsesAgreeExactlyWhen(ps);
    StepAllKeepsId(FRESH, es);
    if Signatures(ps) == [] {
      forall p | p in ps
        ensures SignsCall(p)
      {
        if p.signature.Some? { EachMember(SignatureOf, ps, p.signature.value); }
      }
    }
  }

  /**
   The end of the stream hands over the first id told and the signatures of calls;
   it hands over nothing when no id was told. So the signatures of the whole
   response arrive exactly when there are none, or only calls are signed and some
   event told an id.
   */
  lemma SignaturesArriveExactlyWhen(cut: Cut, body: Event)
    requires Delivers(cut, body)
    ensures var ps, es, after := body.candidates[0].parts, Events(cut), StepAll(FRESH, Events(cut)).0;
            && Completed(after) == (match FirstId(es) case None => None case Some(id) => Some((id, Stash(ps))))
            && (HandedOver(after) == DecodeResponse(body).signatures <==>
                || DecodeResponse(body).signatures == []
                || ((forall p :: p in ps ==> SignsCall(p)) && exists e :: e in es && e.responseId.Some?))
  {
    var a, b, c := CutReads(cut, body);
    WholeIs(body);
    EventsHaveOneCandidate(cut);
    HandsOver(Events(cut), body.candidates[0].parts);
  }

  /** The response has no finish reason, or no candidate at all, and neither has any event. */
  ghost predicate DeliversUnfinished(es: seq<Event>, body: Event) {
    && Unfinished(body) && AllUnfinished(es)
    && IsBroken(AllParts(body.candidates), PartsOf(es)) && UsagesOf(es) == UsageOf(body)
  }

  /**
   Such a response is streamed with the same differences, except that the finish is
   the same exactly when the stream reports no usage: with usage it makes one up.
   */
  lemma UnfinishedRefinesWhole(es: seq<Event>, body: Event)
    requires DeliversUnfinished(es, body)
    ensures var said, whole := Streamed(StepAll(FRESH, es).1), Whole(DecodeResponse(body));
            var ps := AllParts(body.candidates);
            && said.text == whole.text
            && (said.reasoning == whole.reasoning <==> forall p :: p in ps ==> Quiet(p))
            && (said.calls == whole.calls <==> forall p :: p in ps ==> CallIsRead(p) && HasArguments(p))
            && (said.usages == whole.usages <==> (body.usage.Some? ==> CountsPlainly(body.usage.value)))
            && (said.finishes == whole.finishes <==> UsageOf(body) == [])
    ensures HandedOver(StepAll(FRESH, es).0) == DecodeResponse(body).signatures <==>
            || DecodeResponse(body).signatures == []
            || ((forall p :: p in AllParts(body.candidates) ==> SignsCall(p)) &&
                exists e :: e in es && e.responseId.Some?)
  {
    var ps := AllParts(body.candidates);
    UnfinishedEvents(FRESH, es);
    BrokenSaysTheSame(ps, PartsOf(es));
    ResponsesAgreeExactlyWhen(ps);
    SpokenHasCalls(Contents(ps));
    OneCandidate(FRESH, body);
    Units(Stash(ps));
    HandsOver(es, ps);
    if body.usage.Some? { GatesAgreeExactlyWhen(body.usage.value); }
  }

  lemma EventsHaveOneCandidate(cut: Cut)
    requires AllUnfinished(cut.before) && AllUnfinished(cut.after) && |cut.last.candidates| == 1
    ensures forall e :: e in Events(cut) ==> |e.candidates| <= 1
  {
    forall e | e in Events(cut)
      ensures |e.candidates| <= 1
    {
      assert e in cut.before || e == cut.last || e in cut.after;
    }
  }

  lemma CutReads(cut: Cut, body: Event) returns (a: Summary, b: Summary, c: Summary)
    requires Delivers(cut, body)
    ensures Streamed(StepAll(FRESH, Events(cut)).1) == Plus(Plus(a, b), c)
    ensures Says(Plus(Plus(a, b), c), body.candidates[0].parts, UsageOf(body))
    ensures StepAll(FRESH, Events(cut)).0.signatures == Stash(body.candidates[0].parts)
    ensures |a.finishes| == (if UsagesOf(cut.before) != [] then 1 else 0) && c.finishes == []
    ensures b.finishes == [ReasonOf(body.candidates[0].finishReason.value, AnyCall(body.candidates[0].parts))]
  {
    var ps := body.candidates[0].parts;
    var qs, rs := PartsOf(cut.before), cut.last.candidates[0].parts;
    BrokenSaysTheSame(ps, qs + rs);
    a, b, c := ReadCut(cut, qs, rs);
    EachConcat(UsageOf, cut.before + [cut.last], cut.after);
    EachConcat(UsageOf, cut.before, [cut.last]);
    EachOne(UsageOf, cut.last);
    CutSays(ps, qs, rs, a, b, c, UsagesOf(cut.before), UsageOf(cut.last), UsagesOf(cut.after));
  }

  /** What the three stretches of a cut say, one by one. */
  lemma ReadCut(cut: Cut, qs: seq<GeminiPart>, rs: seq<GeminiPart>) returns (a: Summary, b: Summary, c: Summary)
    requires |cut.last.candidates| == 1 && cut.last.candidates[0].finishReason.Some?
    requires AllUnfinished(cut.before) && AllUnfinished(cut.after) && PartsOf(cut.after) == []
    requires qs == PartsOf(cut.before) && rs == cut.last.candidates[0].parts
    ensures Streamed(StepAll(FRESH, Events(cut)).1) == Plus(Plus(a, b), c)
    ensures StepAll(FRESH, Events(cut)).0.signatures == Stash(qs + rs)
    ensures Says(a, qs, UsagesOf(cut.before)) && Says(b, rs, UsageOf(cut.last)) && Says(c, [], UsagesOf(cut.after))
    ensures |a.finishes| == (if UsagesOf(cut.before) != [] then 1 else 0) && c.finishes == []
    ensures b.finishes == [ReasonOf(cut.last.candidates[0].finishReason.value, AnyCall(qs + rs))]
  {
    var (d1, out1) := StepAll(FRESH, cut.before);
    var (d2, out2) := Step(d1, cut.last);
    var (d3, out3) := StepAll(d2, cut.after);
    a, b, c := Streamed(out1), Streamed(out2), Streamed(out3);
    UnfinishedEvents(FRESH, cut.before);
    FinishingEvent(d1, cut.last);
    UnfinishedEvents(d2, cut.after);
    EventsStream(cut);
    ReadThrough(d1, d2, d3, a, b, c, qs, rs, UsagesOf(cut.before), UsageOf(cut.last), UsagesOf(cut.after),
                cut.last.candidates[0].finishReason.value);
  }

  lemma ReadThrough(d1: DecoderState, d2: DecoderState, d3: DecoderState, a: Summary, b: Summary, c: Summary,
                    qs: seq<GeminiPart>, rs: seq<GeminiPart>, us: seq<Usage>, vs: seq<Usage>, ws: seq<Usage>,
                    fr: string)
    requires ReadsAs(FRESH, d1, a, qs, us) && FinishesAs(d1, d2, b, rs, vs, fr) && ReadsAs(d2, d3, c, [], ws)
    ensures d3.signatures == Stash(qs + rs)
    ensures |a.finishes| == (if us != [] then 1 else 0) && c.finishes == []
    ensures b.finishes == [ReasonOf(fr, AnyCall(qs + rs))]
  {
    PartsConcat(qs, rs);
    Units(Stash(qs));
    Units(Stash(qs) + Stash(rs));
  }

  lemma EventsStream(cut: Cut)
    ensures var (d1, out1) := StepAll(FRESH, cut.before);
            var (d2, out2) := Step(d1, cut.last);
            var (d3, out3) := StepAll(d2, cut.after);
            StepAll(FRESH, Events(cut)).0 == d3 &&
            Streamed(StepAll(FRESH, Events(cut)).1) == Plus(Plus(Streamed(out1), Streamed(out2)), Streamed(out3))
  {
    StepAllConcat(FRESH, cut.before + [cut.last], cut.after);
    StepAllConcat(FRESH, cut.before, [cut.last]);
    OneEvent(StepAll(FRESH, cut.before).0, cut.last);
  }

  lemma OneEvent(d: DecoderState, e: Event)
    ensures StepAll(d, [e]).0 == Step(d, e).0 && Streamed(StepAll(d, [e]).1) == Streamed(Step(d, e).1)
  {
    var (d', out) := Step(d, e);
    assert [e][1..] == [];
    assert StepAll(d', [e][1..]) == (d', []);
    assert out + [] == out;
  }

  /** The whole-body decoder, on a response with one candidate that finishes. */
  lemma WholeIs(body: Event)
    requires |body.candidates| == 1 && body.candidates[0].finishReason.Some?
    ensures var ps, whole := body.candidates[0].parts, Whole(DecodeResponse(body));
            && whole.(finishes := [], usages := []) == Spoken(Contents(ps))
            && whole.finishes == [ReasonOf(body.candidates[0].finishReason.value, HasToolCall(Contents(ps)))]
            && DecodeResponse(body).signatures == Signatures(ps)
  {
    OneCandidate(FRESH, body);
    SpokenHasCalls(Contents(body.candidates[0].parts));
  }

  lemma CutSays(ps: seq<GeminiPart>, qs: seq<GeminiPart>, rs: seq<GeminiPart>, a: Summary, b: Summary, c: Summary,
                us: seq<Usage>, vs: seq<Usage>, ws: seq<Usage>)
    requires SameSpeech(ps, qs + rs)
    requires Says(a, qs, us) && Says(b, rs, vs) && Says(c, [], ws)
    ensures Says(Plus(Plus(a, b), c), ps, us + vs + ws)
  {
    SaysConcat(a, b, qs, rs, us, vs);
    SaysConcat(Plus(a, b), c, qs + rs, [], us + vs, ws);
    assert qs + rs + [] == qs + rs;
  }

  lemma CutFinishes(a: Summary, b: Summary, c: Summary, us: seq<Usage>, sent: FinishReason, kept: FinishReason)
    requires |a.finishes| == if us != [] then 1 else 0
    requires b.finishes == [sent] && c.finishes == []
    ensures Plus(Plus(a, b), c).finishes == [kept] <==> us == [] && sent == kept
  {
    assert us == [] ==> Plus(Plus(a, b), c).finishes == [sent];
    assert [sent] == [kept] <==> sent == kept by { assert [sent][0] == sent && [kept][0] == kept; }
  }

  // ---------------------------------------------------------------------
  // Responses of one part that come out differently
  // ---------------------------------------------------------------------

  function BodyOf(id: Option<string>, p: GeminiPart, usage: Option<GeminiUsage>): Event {
    Event(id, [Candidate([p], Some("STOP"))], usage)
  }

  /** The response delivered by one event, itself. */
  lemma OneEventDelivers(id: Option<string>, p: GeminiPart, usage: Option<GeminiUsage>)
    ensures Delivers(Cut([], BodyOf(id, p, usage), []), BodyOf(id, p, usage))
    ensures Events(Cut([], BodyOf(id, p, usage), [])) == [BodyOf(id, p, usage)]
  {
    var body := BodyOf(id, p, usage);
    assert Events(Cut([], body, [])) == [body] && PartsOf([]) == [] && [] + [p] == [p];
    assert BreaksInto(p, [p][..1]) && [p][1..] == [] && IsBroken([p][1..], [p][1..]);
    assert IsBroken([p], [p]);
    EachOne(UsageOf, body);
  }

  /** What the stream makes of it. */
  lemma OnePartStreams(id: Option<string>, p: GeminiPart, usage: Option<GeminiUsage>)
    ensures var body := BodyOf(id, p, usage);
            var (after, parts) := StepAll(FRESH, [body]);
            && Streamed(parts).calls == SentCalls(p) && Streamed(parts).usages == UsageOf(body)
            && Streamed(parts).finishes == [ReasonOf("STOP", p.call.Some?)] && after.signatures == StashOf(p)
  {
    var body := BodyOf(id, p, usage);
    OneEvent(FRESH, body);
    FinishingEvent(FRESH, body);
    StreamedByPart([p]);
    EachOne(SentCalls, p);
    EachOne(StashOf, p);
    assert AnyCall([p]) <==> p.call.Some? by { assert p in [p]; }
    Units(StashOf(p));
  }

  /** What the whole decoder makes of it. */
  lemma OnePartDecodes(id: Option<string>, p: GeminiPart, usage: Option<GeminiUsage>)
    ensures var body := BodyOf(id, p, usage);
            var whole := Whole(DecodeResponse(body));
            && whole.calls == KeptCalls(p) && whole.finishes == [ReasonOf("STOP", KeptCalls(p) != [])]
            && DecodeResponse(body).signatures == SignatureOf(p)
  {
    WholeIs(BodyOf(id, p, usage));
    SpokenByPart([p]);
    EachOne(KeptCalls, p);
    EachOne(SignatureOf, p);
  }

  /** A call without arguments: null when decoded whole, an empty object when streamed. */
  lemma MissingArgumentsDiffer(id: Option<string>, name: string)
    ensures var body := BodyOf(id, GeminiPart(None, NoThought, Some(FunctionCall(Some(name), None, Null)), None), None);
            var said, whole := Streamed(StepAll(FRESH, [body]).1), Whole(DecodeResponse(body));
            && said.calls == [Call(SynthCallId(name), name, Obj(map[]))]
            && whole.calls == [Call(SynthCallId(name), name, Null)]
  {
    var p := GeminiPart(None, NoThought, Some(FunctionCall(Some(name), None, Null)), None);
    OnePartStreams(id, p, None);
    OnePartDecodes(id, p, None);
    SentIs(p);
    KeptIs(p);
  }

  /** A call beside a text: streamed it is there, decoded whole it is not, and so the finish differs. */
  lemma CallsBesideTextAreHidden(id: Option<string>, text: string, call: FunctionCall)
    ensures var body := BodyOf(id, GeminiPart(Some(text), NoThought, Some(call), None), None);
            var said, whole := Streamed(StepAll(FRESH, [body]).1), Whole(DecodeResponse(body));
            && |said.calls| == 1 && said.finishes == [ToolCalls]
            && whole.calls == [] && whole.finishes == [Stop]
  {
    var p := GeminiPart(Some(text), NoThought, Some(call), None);
    OnePartStreams(id, p, None);
    OnePartDecodes(id, p, None);
    SentIs(p);
    KeptIs(p);
  }

  /** A usage object with a cache count alone: reported when streamed, dropped when decoded whole. */
  lemma CacheCountAloneDiffers(id: Option<string>, p: GeminiPart, cached: nat)
    ensures var usage := GeminiUsage(Missing, Missing, Missing, Count(cached), Missing);
            var body := BodyOf(id, p, Some(usage));
            Streamed(StepAll(FRESH, [body]).1).usages == [GeminiFields(usage)] && DecodeResponse(body).usage == None
  {
    OnePartStreams(id, p, Some(GeminiUsage(Missing, Missing, Missing, Count(cached), Missing)));
  }

  /** A signed text: decoded whole its signature is kept, streamed it is lost, id or not. */
  lemma SignedTextLosesSignature(id: Option<string>, text: string, signature: Json)
    ensures var body := BodyOf(id, GeminiPart(Some(text), NoThought, None, Some(signature)), None);
            && DecodeResponse(body).signatures == [signature]
            && StepAll(FRESH, [body]).0.signatures == []
  {
    OnePartStreams(id, GeminiPart(Some(text), NoThought, None, Some(signature)), None);
    OnePartDecodes(id, GeminiPart(Some(text), NoThought, None, Some(signature)), None);
  }

  /** A signed call in a stream that tells no id: the whole decoder returns the signature, the stream does not. */
  lemma SignaturesAreLostWithoutId(call: FunctionCall, signature: Json)
    ensures var body := BodyOf(None, GeminiPart(None, NoThought, Some(call), Some(signature)), None);
            DecodeResponse(body).signatures == [signature] && Completed(StepAll(FRESH, [body]).0).None?
  {
    var p := GeminiPart(None, NoThought, Some(call), Some(signature));
    OnePartDecodes(None, p, None);
    OneEventDelivers(None, p, None);
    SignaturesArriveExactlyWhen(Cut([], BodyOf(None, p, None), []), BodyOf(None, p, None));
  }

  /** A response that reports usage and tells no finish: the stream makes one up. */
  lemma FinishIsMadeUp(usage: GeminiUsage)
    requires DecodeGeminiStream(usage).Some?
    ensures var body := Event(None, [], Some(usage));
            |Streamed(StepAll(FRESH, [body]).1).finishes| == 1 && DecodeResponse(body).finish == None
  {
    var body := Event(None, [], Some(usage));
    UnfinishedEvents(FRESH, [body]);
    EachOne(UsageOf, body);
  }
}
