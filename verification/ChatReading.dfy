/**
 What the Chat Completions stream decoder makes of any frames an upstream may
 send, and the frames its encoder writes, said without their own helpers. The
 decoder's tables are replaced by the history of the wire.
 */
module ChatReading {
  import opened Sequences
  import opened StreamIr
  import opened TokenUsage
  import opened Wrappers
  import opened ChatStream

  // ---------------------------------------------------------------------
  // The history of the wire
  // ---------------------------------------------------------------------

  function FragmentsIn(choice: Choice): seq<WireCall> { choice.toolCalls }

  function FragmentsOf(frame: Frame): seq<WireCall> {
    match frame
    case Chunk(_, choices, _) => Each(FragmentsIn, choices)
    case _ => []
  }

  /** All tool-call fragments, in the order they came. */
  function Fragments(frames: seq<Frame>): seq<WireCall> { Each(FragmentsOf, frames) }

  predicate IsAt(call: WireCall, index: nat) { call.index == Some(index) || (call.index == None && index == 0) }

  /** The id given last at this index, if any was. */
  function IdAt(history: seq<WireCall>, index: nat): string {
    if history == [] then ""
    else
      var last := history[|history| - 1];
      if IsAt(last, index) && last.id.Some? && last.id.value != "" then last.id.value
      else IdAt(history[..|history| - 1], index)
  }

  /** The id that the response was given first. */
  function FirstId(frames: seq<Frame>): Option<string> {
    if frames == [] then None
    else if frames[0].Chunk? && frames[0].id.Some? then frames[0].id
    else FirstId(frames[1..])
  }

  predicate Finishing(choice: Choice) {
    choice.finishReason.Some? && choice.finishReason.value != "" && choice.finishReason.value != "null"
  }

  /** Some choice told a finish. */
  predicate Finished(frames: seq<Frame>) {
    exists frame, choice :: frame in frames && frame.Chunk? && choice in frame.choices && Finishing(choice)
  }

  // ---------------------------------------------------------------------
  // What is to come out
  // ---------------------------------------------------------------------

  function IndexOf(call: WireCall): nat { match call.index case None => 0 case Some(i) => i }

  /**
   A fragment that names its call opens it and then brings its arguments, all under
   the id last given at its index.
   */
  function ToldFragment(history: seq<WireCall>, call: WireCall): seq<Part> {
    var id := IdAt(history + [call], IndexOf(call));
    if call.name.Some? && call.name.value != "" then
      [ToolCallDelta(id, call.name, "")] +
      (if call.arguments.Some? && call.arguments.value != ""
       then [ToolCallDelta(id, None, call.arguments.value)] else [])
    else if call.arguments.Some? then [ToolCallDelta(id, None, call.arguments.value)]
    else []
  }

  function ToldFragments(history: seq<WireCall>, calls: seq<WireCall>): seq<Part>
    decreases |calls|
  {
    if calls == [] then []
    else ToldFragment(history, calls[0]) + ToldFragments(history + [calls[0]], calls[1..])
  }

  function ToldText(choice: Choice): seq<Part> {
    match choice.content
    case None => []
    case Some(text) => if text == "" then [] else [TextDelta(text)]
  }

  /** The first of three fields that is there, an empty one silencing the others. */
  function ToldReasoning(choice: Choice): seq<Part> {
    match (choice.reasoningContent, choice.reasoning, choice.details)
    case (Some(text), _, _) => if text == "" then [] else [ReasoningDelta(text)]
    case (None, Some(text), _) => if text == "" then [] else [ReasoningDelta(text)]
    case (None, None, Some(text)) => [ReasoningDelta(text)]
    case (None, None, None) => []
  }

  /** Text, reasoning and calls of each choice. */
  function ToldChoices(history: seq<WireCall>, choices: seq<Choice>): seq<Part>
    decreases |choices|
  {
    if choices == [] then []
    else
      ToldText(choices[0]) + ToldReasoning(choices[0]) + ToldFragments(history, choices[0].toolCalls) +
      ToldChoices(history + choices[0].toolCalls, choices[1..])
  }

  function ToldReason(text: string): FinishReason {
    if text == "stop" then Stop
    else if text == "length" then Length
    else if text == "content_filter" then ContentFilter
    else if text == "tool_calls" || text == "function_call" then ToolCalls
    else Other(text)
  }

  function ToldFinish(choice: Choice): seq<Part> {
    if Finishing(choice) then [Finish(ToldReason(choice.finishReason.value))] else []
  }

  function ToldUsage(usage: Option<ChatUsage>): seq<Part> {
    if usage.Some? && DecodeChatStream(usage.value).Some?
    then [UsageReport(DecodeChatStream(usage.value).value)] else []
  }

  /** A frame after `earlier` ones: finishes come behind the usage, and the end of a call turn may lack one. */
  function ToldFrame(earlier: seq<Frame>, frame: Frame): seq<Part> {
    match frame
    case Ignored => []
    case Done =>
      (if !Finished(earlier) && Fragments(earlier) != [] then [Finish(ToolCalls)] else []) +
      [ResponseCompleted(FirstId(earlier).GetOr(""))]
    case Chunk(id, choices, usage) =>
      (if id.Some? && FirstId(earlier).None? then [ResponseStarted(id.value)] else []) +
      ToldChoices(Fragments(earlier), choices) + ToldUsage(usage) + Each(ToldFinish, choices)
  }

  // ---------------------------------------------------------------------
  // And that it does
  // ---------------------------------------------------------------------

  /** The decoder's tables are what the history says. */
  ghost predicate Remembers(calls: seq<(string, string)>, history: seq<WireCall>) {
    forall index: nat :: IdAt(history, index) == if index < |calls| then calls[index].0 else ""
  }

  lemma FragmentIsTold(calls: seq<(string, string)>, history: seq<WireCall>, call: WireCall)
    requires Remembers(calls, history)
    ensures var slots := Recorded(calls, call);
            && Remembers(slots, history + [call])
            && ToldFragment(history, call) ==
               CallParts(slots[call.index.GetOr(0)].0, NonEmpty(call.name), call.arguments)
  {
    var slots := Recorded(calls, call);
    assert (history + [call])[..|history|] == history;
    forall index: nat
      ensures IdAt(history + [call], index) == if index < |slots| then slots[index].0 else ""
    {
      assert IdAt(history, index) == if index < |calls| then calls[index].0 else "";
    }
  }

  lemma {:induction false} ToldFragmentsSnoc(history: seq<WireCall>, calls: seq<WireCall>, call: WireCall)
    ensures ToldFragments(history, calls + [call]) ==
            ToldFragments(history, calls) + ToldFragment(history + calls, call)
    decreases |calls|
  {
    if calls == [] {
      assert [] + [call] == [call] && [call][1..] == [] && history + [] == history;
      assert ToldFragments(history, [call]) == ToldFragment(history, call) + [];
    } else {
      assert (calls + [call])[0] == calls[0] && (calls + [call])[1..] == calls[1..] + [call];
      ToldFragmentsSnoc(history + [calls[0]], calls[1..], call);
      assert history + [calls[0]] + calls[1..] == history + calls;
      Associative(ToldFragment(history, calls[0]), ToldFragments(history + [calls[0]], calls[1..]),
                  ToldFragment(history + calls, call));
    }
  }

  lemma DecodeCallsSnoc(d: DecoderState, calls: seq<WireCall>, call: WireCall)
    ensures var (d', parts) := DecodeCalls(d, calls);
            var slots := Recorded(d'.calls, call);
            DecodeCalls(d, calls + [call]) ==
            (d'.(calls := slots, sawToolCalls := true),
             parts + CallParts(slots[call.index.GetOr(0)].0, NonEmpty(call.name), call.arguments))
  {
    assert (calls + [call])[..|calls|] == calls && (calls + [call])[|calls|] == call;
  }

  /** How fragments are told, and what they leave. */
  ghost predicate AreTold(d: DecoderState, history: seq<WireCall>, calls: seq<WireCall>) {
    var (after, parts) := DecodeCalls(d, calls);
    && parts == ToldFragments(history, calls) && Remembers(after.calls, history + calls)
    && after == d.(calls := after.calls, sawToolCalls := d.sawToolCalls || calls != [])
  }

  lemma OneMoreIsTold(d: DecoderState, history: seq<WireCall>, calls: seq<WireCall>, call: WireCall)
    requires AreTold(d, history, calls)
    ensures AreTold(d, history, calls + [call])
  {
    DecodeCallsSnoc(d, calls, call);
    FragmentIsTold(DecodeCalls(d, calls).0.calls, history + calls, call);
    ToldFragmentsSnoc(history, calls, call);
    Associative(history, calls, [call]);
  }

  lemma {:induction false} FragmentsAreTold(d: DecoderState, history: seq<WireCall>, calls: seq<WireCall>)
    requires Remembers(d.calls, history)
    ensures AreTold(d, history, calls)
    decreases |calls|
  {
    if calls == [] {
      assert history + [] == history;
    } else {
      var rest, call := calls[..|calls| - 1], calls[|calls| - 1];
      assert calls == rest + [call];
      FragmentsAreTold(d, history, rest);
      OneMoreIsTold(d, history, rest, call);
    }
  }

  lemma ReasonsAreTold(text: string)
    ensures ReasonOf(text) == ToldReason(text)
  {
    assert "stop"[0] == 's' && "length"[0] == 'l' && "content_filter"[0] == 'c' && "tool_calls"[0] == 't';
    assert "function_call"[0] == 'f';
  }

  lemma ChoiceIsTold(choice: Choice)
    ensures TextParts(choice) == ToldText(choice) && ReasoningParts(choice) == ToldReasoning(choice)
    ensures Finishes(choice) == ToldFinish(choice)
  {
    if choice.finishReason.Some? { ReasonsAreTold(choice.finishReason.value); }
  }

  lemma {:induction false} ToldChoicesSnoc(history: seq<WireCall>, choices: seq<Choice>, choice: Choice)
    ensures ToldChoices(history, choices + [choice]) ==
            ToldChoices(history, choices) +
            (ToldText(choice) + ToldReasoning(choice) +
             ToldFragments(history + Each(FragmentsIn, choices), choice.toolCalls))
    decreases |choices|
  {
    var last := ToldText(choice) + ToldReasoning(choice) +
                ToldFragments(history + Each(FragmentsIn, choices), choice.toolCalls);
    if choices == [] {
      assert [] + [choice] == [choice] && [choice][1..] == [] && history + [] == history;
      assert ToldChoices(history, [choice]) == last + [];
    } else {
      var first := ToldText(choices[0]) + ToldReasoning(choices[0]) + ToldFragments(history, choices[0].toolCalls);
      var later := history + choices[0].toolCalls;
      assert (choices + [choice])[0] == choices[0] && (choices + [choice])[1..] == choices[1..] + [choice];
      ToldChoicesSnoc(later, choices[1..], choice);
      Associative(history, choices[0].toolCalls, Each(FragmentsIn, choices[1..]));
      Associative(first, ToldChoices(later, choices[1..]), last);
    }
  }

  lemma FragmentsSnoc(choices: seq<Choice>, choice: Choice)
    ensures Each(FragmentsIn, choices + [choice]) == Each(FragmentsIn, choices) + choice.toolCalls
    ensures Each(ToldFinish, choices + [choice]) == Each(ToldFinish, choices) + ToldFinish(choice)
  {
    EachConcat(FragmentsIn, choices, [choice]);
    EachOne(FragmentsIn, choice);
    EachConcat(ToldFinish, choices, [choice]);
    EachOne(ToldFinish, choice);
  }

  /** What the choices of one chunk leave in the decoder. */
  ghost predicate LeftBy(d: DecoderState, history: seq<WireCall>, choices: seq<Choice>, after: DecoderState) {
    && Remembers(after.calls, history + Each(FragmentsIn, choices)) && after.responseId == d.responseId
    && after.sawToolCalls == (d.sawToolCalls || Each(FragmentsIn, choices) != [])
    && after.sawFinish == (d.sawFinish || Each(ToldFinish, choices) != [])
  }

  lemma {:induction false} ChoicesAreTold(d: DecoderState, history: seq<WireCall>, choices: seq<Choice>)
    requires Remembers(d.calls, history)
    ensures var (after, parts, pending) := DecodeChoices(d, choices);
            && parts == ToldChoices(history, choices) && pending == Each(ToldFinish, choices)
            && LeftBy(d, history, choices, after)
    decreases |choices|
  {
    if choices == [] {
      assert history + [] == history;
    } else {
      var rest, choice := choices[..|choices| - 1], choices[|choices| - 1];
      assert choices == rest + [choice];
      ChoicesAreTold(d, history, rest);
      var before := history + Each(FragmentsIn, rest);
      FragmentsAreTold(DecodeChoices(d, rest).0, before, choice.toolCalls);
      ChoiceIsTold(choice);
      ToldChoicesSnoc(history, rest, choice);
      FragmentsSnoc(rest, choice);
      Associative(history, Each(FragmentsIn, rest), choice.toolCalls);
    }
  }

  /** The decoder after these frames. */
  ghost predicate Knows(d: DecoderState, frames: seq<Frame>) {
    && Remembers(d.calls, Fragments(frames)) && d.responseId == FirstId(frames)
    && (d.sawFinish <==> Finished(frames)) && (d.sawToolCalls <==> Fragments(frames) != [])
  }

  lemma {:induction false} FirstIdSnoc(frames: seq<Frame>, frame: Frame)
    ensures FirstId(frames + [frame]) ==
            if FirstId(frames).Some? then FirstId(frames) else if frame.Chunk? then frame.id else None
  {
    if frames == [] {
      assert [] + [frame] == [frame] && [frame][1..] == [];
      assert FirstId([frame][1..]) == None;
    } else {
      assert (frames + [frame])[0] == frames[0] && (frames + [frame])[1..] == frames[1..] + [frame];
      FirstIdSnoc(frames[1..], frame);
    }
  }

  lemma FinishedSnoc(frames: seq<Frame>, frame: Frame)
    ensures Finished(frames + [frame]) <==> Finished(frames) || (frame.Chunk? && Each(ToldFinish, frame.choices) != [])
  {
    if frame.Chunk? { EachNonempty(ToldFinish, frame.choices); }
    if Finished(frames) {
      var f, choice :| f in frames && f.Chunk? && choice in f.choices && Finishing(choice);
      assert f in frames + [frame];
    }
    if frame.Chunk? && Each(ToldFinish, frame.choices) != [] {
      var choice :| choice in frame.choices && ToldFinish(choice) != [];
      assert frame in frames + [frame];
    }
    if Finished(frames + [frame]) {
      var f, choice :| f in frames + [frame] && f.Chunk? && choice in f.choices && Finishing(choice);
      assert ToldFinish(choice) != [] && (f in frames || f == frame);
    }
  }

  lemma FrameIsTold(d: DecoderState, earlier: seq<Frame>, frame: Frame)
    requires Knows(d, earlier)
    ensures Decode(d, frame).1 == ToldFrame(earlier, frame) && Knows(Decode(d, frame).0, earlier + [frame])
  {
    EachConcat(FragmentsOf, earlier, [frame]);
    EachOne(FragmentsOf, frame);
    FirstIdSnoc(earlier, frame);
    FinishedSnoc(earlier, frame);
    if frame.Chunk? {
      ChoicesAreTold(Announce(d, frame.id).0, Fragments(earlier), frame.choices);
    } else {
      assert Fragments(earlier) + [] == Fragments(earlier);
    }
  }

  function DecodeAll(d: DecoderState, frames: seq<Frame>): seq<Part>
    decreases |frames|
  {
    if frames == [] then [] else Decode(d, frames[0]).1 + DecodeAll(Decode(d, frames[0]).0, frames[1..])
  }

  function ToldAll(earlier: seq<Frame>, frames: seq<Frame>): seq<Part>
    decreases |frames|
  {
    if frames == [] then [] else ToldFrame(earlier, frames[0]) + ToldAll(earlier + [frames[0]], frames[1..])
  }

  /**
   Whatever frames come, every one is told in the light of those before it: each
   fragment under the id last given at its index on the wire.
   */
  lemma {:induction false} FramesAreTold(d: DecoderState, earlier: seq<Frame>, frames: seq<Frame>)
    requires Knows(d, earlier)
    ensures DecodeAll(d, frames) == ToldAll(earlier, frames)
    decreases |frames|
  {
    if frames != [] {
      FrameIsTold(d, earlier, frames[0]);
      FramesAreTold(Decode(d, frames[0]).0, earlier + [frames[0]], frames[1..]);
    }
  }

  lemma StreamsAreTold(frames: seq<Frame>)
    ensures DecodeAll(FRESH_DECODER, frames) == ToldAll([], frames)
  {
    assert Remembers([], Fragments([]));
    FramesAreTold(FRESH_DECODER, [], frames);
  }

  // ---------------------------------------------------------------------
  // The arguments of a call
  // ---------------------------------------------------------------------

  /** The argument texts sent at one index, joined. */
  function ArgumentsAt(calls: seq<WireCall>, index: nat): string {
    if calls == [] then ""
    else (if IsAt(calls[0], index) then calls[0].arguments.GetOr("") else "") + ArgumentsAt(calls[1..], index)
  }

  lemma {:induction false} ArgumentsAtConcat(a: seq<WireCall>, b: seq<WireCall>, index: nat)
    ensures ArgumentsAt(a + b, index) == ArgumentsAt(a, index) + ArgumentsAt(b, index)
  {
    if a == [] {
      assert a + b == b;
    } else {
      assert (a + b)[0] == a[0] && (a + b)[1..] == a[1..] + b;
      ArgumentsAtConcat(a[1..], b, index);
    }
  }

  /** The fragments at this index bear this id, from the first one on, or none; and no other index is given it. */
  predicate OnlyAt(all: seq<WireCall>, index: nat, id: string) {
    && id != ""
    && (forall k :: 0 <= k < |all| && IsAt(all[k], index) ==> all[k].id.GetOr("") == "" || all[k].id == Some(id))
    && (forall k :: 0 <= k < |all| && IsAt(all[k], index) ==> IsGiven(all[..k + 1], index, id))
    && (forall k :: 0 <= k < |all| && !IsAt(all[k], index) ==> all[k].id != Some(id))
  }

  /** Some fragment at the index bears the id. */
  predicate IsGiven(history: seq<WireCall>, index: nat, id: string) {
    exists j :: 0 <= j < |history| && IsAt(history[j], index) && history[j].id == Some(id)
  }

  lemma {:induction false} IdAtWasGiven(history: seq<WireCall>, index: nat)
    ensures IdAt(history, index) != "" ==> IsGiven(history, index, IdAt(history, index))
    ensures (exists j :: 0 <= j < |history| && IsAt(history[j], index) && history[j].id.GetOr("") != "") ==>
              IdAt(history, index) != ""
  {
    if history != [] {
      var n := |history| - 1;
      IdAtWasGiven(history[..n], index);
      if j :| 0 <= j < n && IsAt(history[j], index) && history[j].id.GetOr("") != "" {
        assert history[..n][j] == history[j];
      }
    }
  }

  /** The fragments told under this id are those at this index. */
  predicate Owned(history: seq<WireCall>, calls: seq<WireCall>, index: nat, id: string) {
    forall k :: 0 <= k < |calls| ==>
      (IsAt(calls[k], index) <==> IdAt(history + calls[..k + 1], IndexOf(calls[k])) == id)
  }

  lemma OwnFragmentsBear(all: seq<WireCall>, k: nat, index: nat, id: string)
    requires OnlyAt(all, index, id) && k < |all| && IsAt(all[k], index)
    ensures IdAt(all[..k + 1], index) == id
  {
    var history := all[..k + 1];
    IdAtWasGiven(history, index);
    assert IsGiven(history, index, id);
    var j :| 0 <= j < |history| && IsAt(history[j], index) && history[j].id == Some(id);
    assert history[j].id.GetOr("") != "";
    var given :|
      0 <= given < |history| && IsAt(history[given], index) && history[given].id == Some(IdAt(history, index));
    assert all[given] == history[given];
  }

  lemma OtherFragmentsBearOthers(all: seq<WireCall>, k: nat, index: nat, id: string)
    requires OnlyAt(all, index, id) && k < |all| && !IsAt(all[k], index)
    ensures IdAt(all[..k + 1], IndexOf(all[k])) != id
  {
    var history, mine := all[..k + 1], IndexOf(all[k]);
    IdAtWasGiven(history, mine);
    forall j | 0 <= j < |history| && IsAt(history[j], mine)
      ensures history[j].id != Some(id)
    {
      assert all[j] == history[j] && !IsAt(all[j], index);
    }
  }

  lemma OnlyAtIsOwned(all: seq<WireCall>, index: nat, id: string)
    requires OnlyAt(all, index, id)
    ensures Owned([], all, index, id)
  {
    forall k | 0 <= k < |all|
      ensures IsAt(all[k], index) <==> IdAt([] + all[..k + 1], IndexOf(all[k])) == id
    {
      assert [] + all[..k + 1] == all[..k + 1];
      if IsAt(all[k], index) {
        OwnFragmentsBear(all, k, index, id);
      } else {
        OtherFragmentsBearOthers(all, k, index, id);
      }
    }
  }

  lemma OwnedSplits(history: seq<WireCall>, a: seq<WireCall>, b: seq<WireCall>, index: nat, id: string)
    requires Owned(history, a + b, index, id)
    ensures Owned(history, a, index, id) && Owned(history + a, b, index, id)
  {
    var all := a + b;
    forall k | 0 <= k < |a|
      ensures IsAt(a[k], index) <==> IdAt(history + a[..k + 1], IndexOf(a[k])) == id
    {
      assert all[k] == a[k] && all[..k + 1] == a[..k + 1];
    }
    forall k | 0 <= k < |b|
      ensures IsAt(b[k], index) <==> IdAt(history + a + b[..k + 1], IndexOf(b[k])) == id
    {
      assert all[|a| + k] == b[k] && all[..|a| + k + 1] == a + b[..k + 1];
      Associative(history, a, b[..k + 1]);
    }
  }

  lemma FragmentSays(history: seq<WireCall>, call: WireCall, id: string)
    ensures Collected(ToldFragment(history, call), Topic.Call(id)) ==
            if IdAt(history + [call], IndexOf(call)) == id then call.arguments.GetOr("") else ""
  {
    var out := ToldFragment(history, call);
    if out != [] { assert out[1..] == [] || (|out| == 2 && out[1..] == [out[1]] && out[1..][1..] == []); }
    if |out| == 2 { assert Collected(out[1..], Topic.Call(id)) == Says(out[1], Topic.Call(id)) + ""; }
  }

  lemma {:induction false} FragmentsSay(history: seq<WireCall>, calls: seq<WireCall>, index: nat, id: string)
    requires Owned(history, calls, index, id)
    ensures Collected(ToldFragments(history, calls), Topic.Call(id)) == ArgumentsAt(calls, index)
    decreases |calls|
  {
    if calls != [] {
      assert calls == [calls[0]] + calls[1..] && calls[..1] == [calls[0]];
      OwnedSplits(history, [calls[0]], calls[1..], index, id);
      FragmentSays(history, calls[0], id);
      FragmentsSay(history + [calls[0]], calls[1..], index, id);
      CollectedFromConcat(ToldFragment(history, calls[0]), ToldFragments(history + [calls[0]], calls[1..]),
                          Topic.Call(id));
    }
  }

  predicate NoCalls(parts: seq<Part>) { forall part :: part in parts ==> !part.ToolCallDelta? }

  lemma {:induction false} NoCallsSayNothing(parts: seq<Part>, id: string)
    requires NoCalls(parts)
    ensures Collected(parts, Topic.Call(id)) == ""
  {
    if parts != [] {
      assert parts == [parts[0]] + parts[1..] && parts[0] in parts;
      NoCallsSayNothing(parts[1..], id);
    }
  }

  lemma SpeechIsNoCall(choice: Choice)
    ensures NoCalls(ToldText(choice) + ToldReasoning(choice))
  {
  }

  lemma ChoiceSays(history: seq<WireCall>, choice: Choice, index: nat, id: string)
    requires Owned(history, choice.toolCalls, index, id)
    ensures Collected(ToldText(choice) + ToldReasoning(choice) + ToldFragments(history, choice.toolCalls),
                      Topic.Call(id)) == ArgumentsAt(choice.toolCalls, index)
  {
    var spoken := ToldText(choice) + ToldReasoning(choice);
    CollectedFromConcat(spoken, ToldFragments(history, choice.toolCalls), Topic.Call(id));
    SpeechIsNoCall(choice);
    NoCallsSayNothing(spoken, id);
    FragmentsSay(history, choice.toolCalls, index, id);
  }

  lemma {:induction false} ChoicesSay(history: seq<WireCall>, choices: seq<Choice>, index: nat, id: string)
    requires Owned(history, Each(FragmentsIn, choices), index, id)
    ensures Collected(ToldChoices(history, choices), Topic.Call(id)) == ArgumentsAt(Each(FragmentsIn, choices), index)
    decreases |choices|
  {
    if choices != [] {
      var first, rest := choices[0].toolCalls, Each(FragmentsIn, choices[1..]);
      assert Each(FragmentsIn, choices) == first + rest;
      OwnedSplits(history, first, rest, index, id);
      ChoiceSays(history, choices[0], index, id);
      ChoicesSay(history + first, choices[1..], index, id);
      ArgumentsAtConcat(first, rest, index);
      CollectedFromConcat(ToldText(choices[0]) + ToldReasoning(choices[0]) + ToldFragments(history, first),
                          ToldChoices(history + first, choices[1..]), Topic.Call(id));
    }
  }

  lemma ThreeParts(a: seq<Part>, b: seq<Part>, c: seq<Part>, id: string)
    requires NoCalls(a) && NoCalls(c)
    ensures Collected(a + b + c, Topic.Call(id)) == Collected(b, Topic.Call(id))
  {
    CollectedFromConcat(a + b, c, Topic.Call(id));
    CollectedFromConcat(a, b, Topic.Call(id));
    NoCallsSayNothing(a, id);
    NoCallsSayNothing(c, id);
  }

  lemma FrameSays(earlier: seq<Frame>, frame: Frame, index: nat, id: string)
    requires Owned(Fragments(earlier), FragmentsOf(frame), index, id)
    ensures Collected(ToldFrame(earlier, frame), Topic.Call(id)) == ArgumentsAt(FragmentsOf(frame), index)
  {
    if frame.Chunk? {
      var started :=
        if frame.id.Some? && FirstId(earlier).None? then [ResponseStarted(frame.id.value)] else [];
      var told, behind := ToldChoices(Fragments(earlier), frame.choices), Each(ToldFinish, frame.choices);
      forall part | part in behind
        ensures !part.ToolCallDelta?
      {
        EachMember(ToldFinish, frame.choices, part);
      }
      ChoicesSay(Fragments(earlier), frame.choices, index, id);
      Associative(started + told, ToldUsage(frame.usage), behind);
      ThreeParts(started, told, ToldUsage(frame.usage) + behind, id);
    } else {
      NoCallsSayNothing(ToldFrame(earlier, frame), id);
    }
  }

  lemma {:induction false} StreamSays(earlier: seq<Frame>, frames: seq<Frame>, index: nat, id: string)
    requires Owned(Fragments(earlier), Fragments(frames), index, id)
    ensures Collected(ToldAll(earlier, frames), Topic.Call(id)) == ArgumentsAt(Fragments(frames), index)
    decreases |frames|
  {
    if frames != [] {
      var first, rest := FragmentsOf(frames[0]), Fragments(frames[1..]);
      assert Fragments(frames) == first + rest;
      EachConcat(FragmentsOf, earlier, [frames[0]]);
      EachOne(FragmentsOf, frames[0]);
      OwnedSplits(Fragments(earlier), first, rest, index, id);
      FrameSays(earlier, frames[0], index, id);
      StreamSays(earlier + [frames[0]], frames[1..], index, id);
      ArgumentsAtConcat(first, rest, index);
      CollectedFromConcat(ToldFrame(earlier, frames[0]), ToldAll(earlier + [frames[0]], frames[1..]), Topic.Call(id));
    }
  }

  /**
   When an index is given one id, and no other index that id, the arguments collected
   under it are those sent at the index, however the calls are interleaved.
   */
  lemma ArgumentsAreBoundByIndex(frames: seq<Frame>, index: nat, id: string)
    requires OnlyAt(Fragments(frames), index, id)
    ensures Collected(DecodeAll(FRESH_DECODER, frames), Topic.Call(id)) == ArgumentsAt(Fragments(frames), index)
  {
    StreamsAreTold(frames);
    OnlyAtIsOwned(Fragments(frames), index, id);
    StreamSays([], frames, index, id);
  }

  // ---------------------------------------------------------------------
  // What the encoder writes
  // ---------------------------------------------------------------------

  /** One choice and the response's id; an empty delta where nothing is said. */
  predicate IsLone(frame: Frame, e: EncoderState, choice: Choice) {
    frame.Chunk? && frame.id == Some(e.responseId.GetOr("")) && frame.choices == [choice]
  }

  /** Each part is written as one frame of its own field, or as none. */
  lemma PartsAreWritten(e: EncoderState, part: Part)
    ensures var (after, frame) := Encode(e, part);
            match part
            case ResponseStarted(id) => frame == None && after == e.(responseId := Some(id))
            case ProgramItem => frame == None && after == e
            case ResponseCompleted(_) => frame == Some(Done) && after == e
            case TextDelta(text) =>
              after == e && frame.Some? && frame.value.Chunk? && frame.value.usage == None &&
              IsLone(frame.value, e, Choice(Some(text), None, None, None, [], None))
            case ReasoningDelta(text) =>
              after == e && frame.Some? && frame.value.Chunk? && frame.value.usage == None &&
              IsLone(frame.value, e, Choice(None, Some(text), None, None, [], None))
            case UsageReport(usage) =>
              after == e && frame.Some? && frame.value.Chunk? && frame.value.usage == Some(EncodeChatStream(usage)) &&
              IsLone(frame.value, e, Choice(None, None, None, None, [], None))
            case Finish(reason) =>
              after == e && frame.Some? && frame.value.Chunk? && frame.value.usage == None &&
              IsLone(frame.value, e, Choice(None, None, None, None, [], Some(
                       if reason == Length then "length" else if reason == ContentFilter then "content_filter"
                       else if reason == ToolCalls then "tool_calls" else "stop")))
            case ToolCallDelta(id, name, arguments) =>
              after.responseId == e.responseId && frame.Some? && frame.value.Chunk? && frame.value.usage == None &&
              exists index ::
                && IsLone(frame.value, e, Choice(None, None, None, None,
                            [WireCall(Some(index), Some(id), name, Some(arguments))], None))
                && (id != "" ==> after.indices == e.indices + map[id := index])
                && (id != "" && id !in e.indices ==> index == |e.indices|)
                && (id == "" ==> after == e && index == if e.indices == map[] then 0 else |e.indices| - 1)
  {
    if part.ToolCallDelta? {
      var index := IndexFor(e.indices, part.id);
      var (after, frame) := Encode(e, part);
      assert IsLone(frame.value, e, Choice(None, None, None, None,
                      [WireCall(Some(index), Some(part.id), part.name, Some(part.arguments))], None));
      assert part.id != "" ==> after.indices == e.indices + map[part.id := index];
      assert e.indices == map[] <==> |e.indices| == 0;
    }
  }
}
