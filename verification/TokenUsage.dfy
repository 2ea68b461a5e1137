/**
 Token accounting through the Chat Completions and Gemini codecs. The IR keeps
 the prompt count free of cache; both wire formats count the cache in.
 */
module TokenUsage {
  import opened Wrappers

  datatype Usage = Usage(prompt: nat, completion: nat, total: nat,
                         reasoning: Option<nat>, cacheRead: Option<nat>, cacheWrite: Option<nat>)

  function SaturatingSub(a: nat, b: nat): nat { if a < b then 0 else a - b }

  /** A detail field is written only when it is positive. */
  function IfPositive(n: Option<nat>): Option<nat> { if n.Some? && n.value > 0 then n else None }

  /** Prompt tokens as both wire formats count them. */
  function FullPrompt(u: Usage): nat { u.prompt + u.cacheRead.GetOr(0) + u.cacheWrite.GetOr(0) }

  // ---------------------------------------------------------------------
  // Chat Completions
  // ---------------------------------------------------------------------

  datatype ChatUsage = ChatUsage(prompt: Option<nat>, completion: Option<nat>, total: Option<nat>,
                                 cached: Option<nat>, cacheWrite: Option<nat>, reasoning: Option<nat>)

  function EncodeChat(u: Usage): ChatUsage {
    ChatUsage(Some(FullPrompt(u)), Some(u.completion), Some(FullPrompt(u) + u.completion),
              IfPositive(u.cacheRead), IfPositive(u.cacheWrite), u.reasoning)
  }

  function EncodeChatStream(u: Usage): ChatUsage {
    ChatUsage(Some(FullPrompt(u)), Some(u.completion), Some(FullPrompt(u) + u.completion),
              IfPositive(u.cacheRead), IfPositive(u.cacheWrite), IfPositive(u.reasoning))
  }

  predicate ChatCounts(w: ChatUsage) { w.prompt.Some? || w.completion.Some? || w.total.Some? }

  function ChatPrompt(w: ChatUsage): nat {
    SaturatingSub(SaturatingSub(w.prompt.GetOr(0), w.cached.GetOr(0)), w.cacheWrite.GetOr(0))
  }

  function DecodeChat(w: ChatUsage): Option<Usage> {
    if ChatCounts(w) then
      Some(Usage(ChatPrompt(w), w.completion.GetOr(0), w.total.GetOr(0), w.reasoning, w.cached, w.cacheWrite))
    else None
  }

  function DecodeChatStream(w: ChatUsage): Option<Usage> {
    if ChatCounts(w) then
      Some(Usage(ChatPrompt(w), w.completion.GetOr(0), w.total.GetOr(w.prompt.GetOr(0) + w.completion.GetOr(0)),
                 w.reasoning, w.cached, w.cacheWrite))
    else None
  }

  // ---------------------------------------------------------------------
  // Gemini
  // ---------------------------------------------------------------------

  /** A field of the usage object: `NoCount` is there, but no number the decoders take. */
  datatype Field = Missing | NoCount | Count(n: nat) {

    function Read(): Option<nat> { if Count? then Some(n) else None }
  }

  function FieldFor(n: Option<nat>): Field { if n.Some? then Count(n.value) else Missing }

  datatype GeminiUsage = GeminiUsage(prompt: Field, candidates: Field, total: Field, cached: Field, thoughts: Field)

  function EncodeGemini(u: Usage): GeminiUsage {
    GeminiUsage(Count(FullPrompt(u)), Count(u.completion), Count(FullPrompt(u) + u.completion),
                FieldFor(IfPositive(u.cacheRead)), FieldFor(u.reasoning))
  }

  function EncodeGeminiStream(u: Usage): GeminiUsage {
    GeminiUsage(Count(FullPrompt(u)), Count(u.completion), Count(FullPrompt(u) + u.completion),
                FieldFor(IfPositive(u.cacheRead)), FieldFor(IfPositive(u.reasoning)))
  }

  function GeminiFields(w: GeminiUsage): Usage {
    Usage(SaturatingSub(w.prompt.Read().GetOr(0), w.cached.Read().GetOr(0)), w.candidates.Read().GetOr(0),
          w.total.Read().GetOr(0), w.thoughts.Read(), w.cached.Read(), None)
  }

  /** The whole-body gate asks for a number in one of three fields. */

  function DecodeGemini(w: GeminiUsage): Option<Usage> {
    if w.prompt.Count? || w.candidates.Count? || w.total.Count? then Some(GeminiFields(w)) else None
  }

  /** The streaming gate asks for any of five fields, number or not. */
  function DecodeGeminiStream(w: GeminiUsage): Option<Usage> {
    if w == GeminiUsage(Missing, Missing, Missing, Missing, Missing) then None else Some(GeminiFields(w))
  }

  /** One of the three fields has a number, or none of the five is there. */
  predicate CountsPlainly(w: GeminiUsage) {
    || w.prompt.Count? || w.candidates.Count? || w.total.Count?
    || (w.prompt.Missing? && w.candidates.Missing? && w.total.Missing? && w.cached.Missing? && w.thoughts.Missing?)
  }

  /** The two gates agree on exactly these objects. */
  lemma GatesAgreeExactlyWhen(w: GeminiUsage)
    ensures DecodeGemini(w) == DecodeGeminiStream(w) <==> CountsPlainly(w)
  {
  }

  // ---------------------------------------------------------------------
  // What the counts mean
  // ---------------------------------------------------------------------

  /** On the wire the prompt counts cache reads and writes in, and the total is the sum. */
  lemma EncodedCountsAre(u: Usage)
    ensures forall w :: w in [EncodeChat(u), EncodeChatStream(u)] ==>
              && w.prompt == Some(u.prompt + u.cacheRead.GetOr(0) + u.cacheWrite.GetOr(0))
              && w.completion == Some(u.completion)
              && w.total == Some(u.prompt + u.cacheRead.GetOr(0) + u.cacheWrite.GetOr(0) + u.completion)
              && w.cached.GetOr(0) == u.cacheRead.GetOr(0) && w.cached != Some(0)
              && w.cacheWrite.GetOr(0) == u.cacheWrite.GetOr(0) && w.cacheWrite != Some(0)
              && w.reasoning.GetOr(0) == u.reasoning.GetOr(0)
    ensures forall w :: w in [EncodeGemini(u), EncodeGeminiStream(u)] ==>
              && w.prompt == Count(u.prompt + u.cacheRead.GetOr(0) + u.cacheWrite.GetOr(0))
              && w.candidates == Count(u.completion)
              && w.total == Count(u.prompt + u.cacheRead.GetOr(0) + u.cacheWrite.GetOr(0) + u.completion)
              && w.cached.Read().GetOr(0) == u.cacheRead.GetOr(0) && w.cached != Count(0) && w.cached != NoCount
              && w.thoughts.Read().GetOr(0) == u.reasoning.GetOr(0) && w.thoughts != NoCount
  {
  }

  /** Read from the wire, the prompt is what the cached counts leave of it, at least none. */
  lemma ChatCountsAre(w: ChatUsage, u: Usage)
    requires DecodeChat(w) == Some(u) || DecodeChatStream(w) == Some(u)
    ensures var prompt, cached, written := w.prompt.GetOr(0), w.cached.GetOr(0), w.cacheWrite.GetOr(0);
            u.prompt == if prompt >= cached + written then prompt - cached - written else 0
    ensures u.completion == w.completion.GetOr(0) && u.reasoning == w.reasoning
    ensures u.cacheRead == w.cached && u.cacheWrite == w.cacheWrite
    ensures w.total.Some? ==> u.total == w.total.value
  {
  }

  /** Chat usage is taken exactly when one of three counts is there; a missing total is made up when streaming only. */
  lemma ChatGatesAre(w: ChatUsage)
    ensures DecodeChat(w).Some? <==> w.prompt.Some? || w.completion.Some? || w.total.Some?
    ensures DecodeChatStream(w).Some? <==> w.prompt.Some? || w.completion.Some? || w.total.Some?
    ensures w.total.None? && DecodeChat(w).Some? ==>
              && DecodeChat(w).value.total == 0
              && DecodeChatStream(w).value.total == w.prompt.GetOr(0) + w.completion.GetOr(0)
  {
  }

  lemma GeminiCountsAre(w: GeminiUsage, u: Usage)
    requires DecodeGemini(w) == Some(u) || DecodeGeminiStream(w) == Some(u)
    ensures var prompt := if w.prompt.Count? then w.prompt.n else 0;
            var cached := if w.cached.Count? then w.cached.n else 0;
            u.prompt == if prompt >= cached then prompt - cached else 0
    ensures u.completion == (if w.candidates.Count? then w.candidates.n else 0)
    ensures u.total == (if w.total.Count? then w.total.n else 0)
    ensures u.reasoning == (if w.thoughts.Count? then Some(w.thoughts.n) else None)
    ensures u.cacheRead == (if w.cached.Count? then Some(w.cached.n) else None) && u.cacheWrite == None
  {
  }

  // ---------------------------------------------------------------------
  // Chains of hops
  // ---------------------------------------------------------------------

  datatype Protocol = Chat | Gemini

  /** IR to wire and back by one protocol, each way streaming or not. */
  datatype Hop = Hop(protocol: Protocol, encodeStream: bool, decodeStream: bool)

  function Through(h: Hop, u: Usage): Option<Usage> {
    match h.protocol
    case Chat =>
      var w := if h.encodeStream then EncodeChatStream(u) else EncodeChat(u);
      if h.decodeStream then DecodeChatStream(w) else DecodeChat(w)
    case Gemini =>
      var w := if h.encodeStream then EncodeGeminiStream(u) else EncodeGemini(u);
      if h.decodeStream then DecodeGeminiStream(w) else DecodeGemini(w)
  }

  function ThroughAll(hops: seq<Hop>, u: Usage): Option<Usage> {
    if hops == [] then Some(u)
    else
      match Through(hops[0], u)
      case None => None
      case Some(v) => ThroughAll(hops[1..], v)
  }

  /** Billable counts are equal, an absent detail counting as zero. */
  predicate SameBill(u: Usage, v: Usage) {
    && FullPrompt(u) == FullPrompt(v) && u.completion == v.completion
    && u.cacheRead.GetOr(0) == v.cacheRead.GetOr(0) && u.reasoning.GetOr(0) == v.reasoning.GetOr(0)
  }

  predicate OnlyChat(hops: seq<Hop>) { forall i :: 0 <= i < |hops| ==> hops[i].protocol.Chat? }

  lemma HopKeepsBill(h: Hop, u: Usage)
    ensures Through(h, u).Some?
    ensures var v := Through(h, u).value;
            && SameBill(u, v) && v.total == FullPrompt(v) + v.completion
            && v.cacheWrite.GetOr(0) == if h.protocol.Chat? then u.cacheWrite.GetOr(0) else 0
  {
  }

  /**
   No chain of hops loses the usage or changes what is billed. From the first
   hop on the total is the sum of its parts; cache writes stay apart from the
   prompt exactly on chains without Gemini.
   */
  lemma {:induction false} TokensAreConserved(hops: seq<Hop>, u: Usage)
    ensures ThroughAll(hops, u).Some?
    ensures var v := ThroughAll(hops, u).value;
            && SameBill(u, v)
            && (hops != [] ==> v.total == FullPrompt(v) + v.completion)
            && v.cacheWrite.GetOr(0) == if OnlyChat(hops) then u.cacheWrite.GetOr(0) else 0
  {
    if hops != [] {
      HopKeepsBill(hops[0], u);
      var v := Through(hops[0], u).value;
      TokensAreConserved(hops[1..], v);
      assert OnlyChat(hops) <==> hops[0].protocol.Chat? && OnlyChat(hops[1..]) by {
        assert hops == [hops[0]] + hops[1..];
      }
    }
  }
}
