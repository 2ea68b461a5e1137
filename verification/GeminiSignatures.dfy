/**
 Thought signatures from one turn to the next: the decoders keep those of a
 response in a plain list, and the request encoder puts the list back, the `j`-th
 signature on the `j`-th call. When does every call get its own back?
 */
module GeminiSignatures {
  import opened JsonValue
  import opened Sequences
  import opened Wrappers
  import G = GeminiRequest
  import S = GeminiStream

  /** What a call without a signature is sent with. */
  function Filler(ctx: G.Context): Option<Json> {
    if ctx.gemini3 then Some(Str(G.SKIP_THOUGHT_SIGNATURE_VALIDATOR)) else None
  }

  /** What a call is to be sent with: its own signature, if it has one. */
  function Own(filler: Option<Json>, p: S.GeminiPart): Option<Json> {
    if p.signature.Some? then p.signature else filler
  }

  function OwnIn(filler: Option<Json>): S.GeminiPart -> seq<Option<Json>> {
    (p: S.GeminiPart) => if p.call.Some? then [Own(filler, p)] else []
  }

  /** The same of the calls in these parts, in order. */
  function Owns(filler: Option<Json>, ps: seq<S.GeminiPart>): seq<Option<Json>> { Each(OwnIn(filler), ps) }

  /** Every call after one without a signature has none either, or one that is the filler. */
  predicate SignedFirst(filler: Option<Json>, ps: seq<S.GeminiPart>) {
    forall i, j :: 0 <= i < j < |ps| && ps[i].call.Some? && ps[i].signature.None? && ps[j].call.Some? ==>
                     Own(filler, ps[j]) == filler
  }

  predicate AllFiller(filler: Option<Json>, ps: seq<S.GeminiPart>) {
    forall j :: 0 <= j < |ps| && ps[j].call.Some? ==> Own(filler, ps[j]) == filler
  }

  lemma SignedFirstCons(filler: Option<Json>, ps: seq<S.GeminiPart>)
    requires ps != []
    ensures SignedFirst(filler, ps) <==>
            SignedFirst(filler, ps[1..]) && (ps[0].call.Some? && ps[0].signature.None? ==> AllFiller(filler, ps[1..]))
  {
    var p, rest := ps[0], ps[1..];
    assert forall j :: 0 <= j < |rest| ==> rest[j] == ps[j + 1];
    if SignedFirst(filler, rest) && (p.call.Some? && p.signature.None? ==> AllFiller(filler, rest)) {
      forall i, j | 0 <= i < j < |ps| && ps[i].call.Some? && ps[i].signature.None? && ps[j].call.Some?
        ensures Own(filler, ps[j]) == filler
      {
        assert ps[j] == rest[j - 1] && (i > 0 ==> ps[i] == rest[i - 1]);
      }
    }
  }

  /** From the `from`-th call of the request up to the `to`-th the filler is sent. */
  predicate FillerBetween(ctx: G.Context, from: nat, to: nat) {
    forall k: nat :: from <= k < to ==> G.SignatureFor(ctx, k) == Filler(ctx)
  }

  /** A signed call ahead of which `c - b` calls had no signature. */
  lemma SignedHead(ctx: G.Context, b: nat, c: nat)
    requires b <= c && b < |ctx.signatures|
    ensures var own := Some(ctx.signatures[b]);
            FillerBetween(ctx, b, c) && G.SignatureFor(ctx, c) == own <==>
            (b == c || own == Filler(ctx)) && FillerBetween(ctx, b + 1, c + 1)
  {
    var own := Some(ctx.signatures[b]);
    assert G.SignatureFor(ctx, b) == own;
    if b < c && FillerBetween(ctx, b + 1, c + 1) { assert G.SignatureFor(ctx, c) == Filler(ctx); }
  }

  lemma FillerNext(ctx: G.Context, b: nat, c: nat)
    requires b <= c
    ensures FillerBetween(ctx, b, c + 1) <==> FillerBetween(ctx, b, c) && G.SignatureFor(ctx, c) == Filler(ctx)
  {
  }

  /**
   The calls of `ps` are sent from the `c`-th signature on, and their own signatures
   stand in the list from the `b`-th on: `c - b` calls before them had none.
   */
  lemma {:induction false} SentFrom(ctx: G.Context, ps: seq<S.GeminiPart>, b: nat, c: nat)
    requires b <= c && b <= |ctx.signatures| && ctx.signatures[b..] == S.Stash(ps)
    ensures FillerBetween(ctx, b, c) && G.SignaturesFor(ctx, c, |Owns(Filler(ctx), ps)|) == Owns(Filler(ctx), ps) <==>
            if b == c then SignedFirst(Filler(ctx), ps) else AllFiller(Filler(ctx), ps)
    decreases |ps|
  {
    if ps != [] {
      var p, rest, filler := ps[0], ps[1..], Filler(ctx);
      assert Owns(filler, ps) == OwnIn(filler)(p) + Owns(filler, rest);
      assert S.Stash(ps) == S.StashOf(p) + S.Stash(rest);
      SignedFirstCons(filler, ps);
      assert AllFiller(filler, ps) <==> (p.call.Some? ==> Own(filler, p) == filler) && AllFiller(filler, rest) by {
        assert forall j :: 0 <= j < |rest| ==> rest[j] == ps[j + 1];
        assert forall j :: 0 < j < |ps| ==> ps[j] == rest[j - 1];
      }
      if p.call.None? {
        SentFrom(ctx, rest, b, c);
      } else if p.signature.None? {
        SentFrom(ctx, rest, b, c + 1);
        HeadSent(ctx, c, filler, Owns(filler, rest));
        FillerNext(ctx, b, c);
      } else {
        assert ctx.signatures[b] == p.signature.value && ctx.signatures[b + 1..] == S.Stash(rest);
        SentFrom(ctx, rest, b + 1, c + 1);
        HeadSent(ctx, c, p.signature, Owns(filler, rest));
        SignedHead(ctx, b, c);
      }
    }
  }

  lemma HeadSent(ctx: G.Context, c: nat, own: Option<Json>, rest: seq<Option<Json>>)
    ensures G.SignaturesFor(ctx, c, |[own] + rest|) == [own] + rest <==>
            G.SignatureFor(ctx, c) == own && G.SignaturesFor(ctx, c + 1, |rest|) == rest
  {
    var sent := G.SignaturesFor(ctx, c, |[own] + rest|);
    assert sent == [G.SignatureFor(ctx, c)] + G.SignaturesFor(ctx, c + 1, |rest|);
    assert sent[0] == G.SignatureFor(ctx, c) && sent[1..] == G.SignaturesFor(ctx, c + 1, |rest|);
    assert ([own] + rest)[0] == own && ([own] + rest)[1..] == rest;
  }

  /** The request has been accepted, and `sent` is what its calls are signed with. */
  ghost predicate Sends(ctx: G.Context, sent: seq<Option<Json>>) {
    && G.EncodeTurns(ctx, ctx.messages, 0).Emitted?
    && sent == Each(G.SignaturesOf, G.EncodeTurns(ctx, ctx.messages, 0).items)
  }

  lemma SentIs(ctx: G.Context, sent: seq<Option<Json>>, n: nat)
    requires Sends(ctx, sent) && |Each(G.CallsOf, ctx.messages)| == n
    ensures sent == G.SignaturesFor(ctx, 0, n)
  {
    G.TurnsAre(ctx, ctx.messages, 0);
  }

  /**
   A request with the calls of streamed responses and the signatures the stream kept
   of them sends every call with its own signature, and a call that had none as one
   without, exactly when no call without a signature comes before one with.
   */
  lemma StreamedSignaturesReturn(ctx: G.Context, ps: seq<S.GeminiPart>, sent: seq<Option<Json>>)
    requires Sends(ctx, sent) && |Each(G.CallsOf, ctx.messages)| == |Owns(Filler(ctx), ps)|
    requires ctx.signatures == S.Stash(ps)
    ensures sent == Owns(Filler(ctx), ps) <==> SignedFirst(Filler(ctx), ps)
  {
    SentIs(ctx, sent, |Owns(Filler(ctx), ps)|);
    assert ctx.signatures[0..] == ctx.signatures;
    SentFrom(ctx, ps, 0, 0);
  }

  // ---------------------------------------------------------------------
  // Responses decoded whole: every part's signature is kept
  // ---------------------------------------------------------------------

  /** The call of the part comes out of the whole decoder. */
  predicate IsKept(p: S.GeminiPart) { p.call.Some? && S.CallIsRead(p) }

  function KeptOwnIn(filler: Option<Json>): S.GeminiPart -> seq<Option<Json>> {
    (p: S.GeminiPart) => if IsKept(p) then [Own(filler, p)] else []
  }

  function KeptOwns(filler: Option<Json>, ps: seq<S.GeminiPart>): seq<Option<Json>> { Each(KeptOwnIn(filler), ps) }

  /**
   After `calls` calls and `sigs` signatures of `all`: a signed call is ahead of by as
   many signatures as calls, and a call without a signature comes after all of them.
   */
  predicate InStep(ps: seq<S.GeminiPart>, calls: nat, sigs: nat, all: nat) {
    ps == [] ||
    (&& (IsKept(ps[0]) ==> if ps[0].signature.Some? then calls == sigs else calls >= all)
     && InStep(ps[1..], if IsKept(ps[0]) then calls + 1 else calls, sigs + |S.SignatureOf(ps[0])|, all))
  }

  /** The signatures of the list are all different, and none is the filler. */
  ghost predicate ToldApart(ctx: G.Context) {
    && (forall i, j :: 0 <= i < j < |ctx.signatures| ==> ctx.signatures[i] != ctx.signatures[j])
    && (forall i :: 0 <= i < |ctx.signatures| ==> Some(ctx.signatures[i]) != Filler(ctx))
  }

  lemma {:induction false} KeptSentFrom(ctx: G.Context, ps: seq<S.GeminiPart>, sigs: nat, c: nat)
    requires ToldApart(ctx) && sigs <= |ctx.signatures| && ctx.signatures[sigs..] == S.Signatures(ps)
    ensures G.SignaturesFor(ctx, c, |KeptOwns(Filler(ctx), ps)|) == KeptOwns(Filler(ctx), ps) <==>
            InStep(ps, c, sigs, |ctx.signatures|)
    decreases |ps|
  {
    if ps != [] {
      var p, rest, filler := ps[0], ps[1..], Filler(ctx);
      assert KeptOwns(filler, ps) == KeptOwnIn(filler)(p) + KeptOwns(filler, rest);
      assert S.Signatures(ps) == S.SignatureOf(p) + S.Signatures(rest);
      var sigs' := sigs + |S.SignatureOf(p)|;
      assert ctx.signatures[sigs'..] == S.Signatures(rest);
      assert p.signature.Some? ==> ctx.signatures[sigs] == p.signature.value;
      if IsKept(p) {
        KeptSentFrom(ctx, rest, sigs', c + 1);
        HeadSent(ctx, c, Own(filler, p), KeptOwns(filler, rest));
      } else {
        KeptSentFrom(ctx, rest, sigs', c);
      }
    }
  }

  lemma SentAfter(ctx: G.Context, earlier: nat, n: nat)
    ensures var sent := G.SignaturesFor(ctx, 0, earlier + n);
            |sent| == earlier + n && sent[earlier..] == G.SignaturesFor(ctx, earlier, n)
  {
    G.SignaturesForConcat(ctx, 0, earlier, n);
    G.SignaturesForAre(ctx, 0, earlier);
    G.SignaturesForAre(ctx, earlier, n);
  }

  /**
   The same of a response decoded whole, whose list holds the signatures of all its
   parts, in a request with `earlier` calls before its own: every call gets its own
   back exactly when calls and signatures keep step.
   */
  lemma WholeSignaturesReturn(ctx: G.Context, ps: seq<S.GeminiPart>, earlier: nat, sent: seq<Option<Json>>)
    requires Sends(ctx, sent) && |Each(G.CallsOf, ctx.messages)| == earlier + |KeptOwns(Filler(ctx), ps)|
    requires ctx.signatures == S.Signatures(ps) && ToldApart(ctx)
    ensures |sent| == earlier + |KeptOwns(Filler(ctx), ps)|
    ensures sent[earlier..] == KeptOwns(Filler(ctx), ps) <==> InStep(ps, earlier, 0, |ctx.signatures|)
  {
    var n := |KeptOwns(Filler(ctx), ps)|;
    SentIs(ctx, sent, earlier + n);
    SentAfter(ctx, earlier, n);
    assert ctx.signatures[0..] == ctx.signatures;
    KeptSentFrom(ctx, ps, 0, earlier);
  }

  function CallPart(call: S.FunctionCall, signature: Option<Json>): S.GeminiPart {
    S.GeminiPart(None, S.NoThought, Some(call), signature)
  }

  /** A call without a signature takes that of the call after it. */
  lemma UnsignedCallsTakeTheNext(ctx: G.Context, a: S.FunctionCall, b: S.FunctionCall, signature: Json,
                                 sent: seq<Option<Json>>)
    requires Sends(ctx, sent) && |Each(G.CallsOf, ctx.messages)| == 2
    requires ctx.signatures == S.Stash([CallPart(a, None), CallPart(b, Some(signature))])
    ensures sent == [Some(signature), Filler(ctx)]
  {
    var p, q := CallPart(a, None), CallPart(b, Some(signature));
    EachConcat(S.StashOf, [p], [q]);
    EachOne(S.StashOf, p);
    EachOne(S.StashOf, q);
    assert [p] + [q] == [p, q] && ctx.signatures == [signature];
    SentIs(ctx, sent, 2);
    G.SignaturesForAre(ctx, 0, 2);
  }

  /** A signed text, decoded whole, gives its signature to the call after it. */
  lemma SignedTextsGiveTheirs(ctx: G.Context, text: string, mark: Json, call: S.FunctionCall, signature: Json,
                              sent: seq<Option<Json>>)
    requires Sends(ctx, sent) && |Each(G.CallsOf, ctx.messages)| == 1
    requires ctx.signatures ==
             S.Signatures([S.GeminiPart(Some(text), S.NoThought, None, Some(mark)), CallPart(call, Some(signature))])
    ensures sent == [Some(mark)]
  {
    var p, q := S.GeminiPart(Some(text), S.NoThought, None, Some(mark)), CallPart(call, Some(signature));
    EachConcat(S.SignatureOf, [p], [q]);
    EachOne(S.SignatureOf, p);
    EachOne(S.SignatureOf, q);
    assert [p] + [q] == [p, q] && ctx.signatures == [mark] + [signature];
    SentIs(ctx, sent, 1);
    G.SignaturesForAre(ctx, 0, 1);
  }

  /** Earlier calls of the conversation take the signatures of a later response. */
  lemma EarlierCallsTakeThem(ctx: G.Context, call: S.FunctionCall, signature: Json, sent: seq<Option<Json>>)
    requires Sends(ctx, sent) && |Each(G.CallsOf, ctx.messages)| == 2
    requires ctx.signatures == S.Stash([CallPart(call, Some(signature))])
    ensures sent == [Some(signature), Filler(ctx)]
  {
    EachOne(S.StashOf, CallPart(call, Some(signature)));
    SentIs(ctx, sent, 2);
    G.SignaturesForAre(ctx, 0, 2);
  }
}
