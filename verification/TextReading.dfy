/**
 Words and bytes said from the outside: what is left of a text laid out with any
 white space, and which bytes stand for a character.
 */
module TextReading {
  import opened EmbeddingCache
  import opened Utf8
  import opened Whitespace

  // ---------------------------------------------------------------------
  // Words
  // ---------------------------------------------------------------------

  /** A word and the white space behind it. */
  datatype Spaced = Spaced(word: string, gap: string)

  predicate AllWhite(s: string) { forall k :: 0 <= k < |s| ==> IsWhitespace(s[k]) }

  predicate NoneWhite(s: string) { forall k :: 0 <= k < |s| ==> !IsWhitespace(s[k]) }

  /** Only the last word may have no white space behind it. */
  predicate IsLayout(lead: string, spaced: seq<Spaced>) {
    && AllWhite(lead)
    && (forall i :: 0 <= i < |spaced| ==>
          spaced[i].word != "" && NoneWhite(spaced[i].word) && AllWhite(spaced[i].gap))
    && (forall i :: 0 <= i < |spaced| - 1 ==> spaced[i].gap != "")
  }

  function LaidOut(lead: string, spaced: seq<Spaced>): string {
    if spaced == [] then lead
    else LaidOut(lead, spaced[..|spaced| - 1]) + spaced[|spaced| - 1].word + spaced[|spaced| - 1].gap
  }

  function WordsIn(spaced: seq<Spaced>): (words: seq<string>)
    ensures |words| == |spaced| && forall i :: 0 <= i < |spaced| ==> words[i] == spaced[i].word
  {
    seq(|spaced|, i requires 0 <= i < |spaced| => spaced[i].word)
  }

  lemma {:induction false} GapsAddNothing(s: string, gap: string)
    requires AllWhite(gap)
    ensures Words(s + gap) == Words(s)
  {
    if gap == "" {
      assert s + gap == s;
    } else {
      var n := |gap| - 1;
      GapsAddNothing(s, gap[..n]);
      assert (s + gap)[..|s + gap| - 1] == s + gap[..n];
    }
  }

  lemma {:induction false} WordsAreAdded(s: string, word: string)
    requires (s == "" || EndsInSpace(s)) && word != "" && NoneWhite(word)
    ensures Words(s + word) == Words(s) + [word]
  {
    var n := |word| - 1;
    var before, c := s + word[..n], word[n];
    assert s + word == before + [c];
    assert (before + [c])[..|before|] == before;
    if n == 0 {
      assert before == s && word == [c];
    } else {
      WordsAreAdded(s, word[..n]);
      assert word == word[..n] + [c];
      assert !EndsInSpace(before);
    }
  }

  /** The text so far ends where a word may begin. */
  lemma EndsOpen(lead: string, spaced: seq<Spaced>)
    requires IsLayout(lead, spaced) && (spaced != [] ==> spaced[|spaced| - 1].gap != "")
    ensures LaidOut(lead, spaced) == "" || EndsInSpace(LaidOut(lead, spaced))
  {
    if spaced != [] {
      var last := spaced[|spaced| - 1];
      assert IsWhitespace(last.gap[|last.gap| - 1]);
    }
  }

  /** However words are laid out with white space, they are the words of the text. */
  lemma {:induction false} LaidOutWordsAreFound(lead: string, spaced: seq<Spaced>)
    requires IsLayout(lead, spaced)
    ensures Words(LaidOut(lead, spaced)) == WordsIn(spaced)
  {
    if spaced == [] {
      GapsAddNothing("", lead);
      assert "" + lead == lead;
    } else {
      var n := |spaced| - 1;
      var before, last := LaidOut(lead, spaced[..n]), spaced[n];
      LaidOutWordsAreFound(lead, spaced[..n]);
      EndsOpen(lead, spaced[..n]);
      WordsAreAdded(before, last.word);
      GapsAddNothing(before + last.word, last.gap);
      assert WordsIn(spaced) == WordsIn(spaced[..n]) + [last.word];
    }
  }

  predicate EndsInWord(spaced: seq<Spaced>) { spaced != [] && spaced[|spaced| - 1].gap == "" }

  lemma BlankIsLaid(lead: string, spaced: seq<Spaced>, c: char) returns (lead': string, spaced': seq<Spaced>)
    requires IsLayout(lead, spaced) && IsWhitespace(c)
    ensures IsLayout(lead', spaced') && LaidOut(lead', spaced') == LaidOut(lead, spaced) + [c]
  {
    if spaced == [] {
      lead', spaced' := lead + [c], [];
    } else {
      var n := |spaced| - 1;
      var last := spaced[n];
      lead', spaced' := lead, spaced[..n] + [Spaced(last.word, last.gap + [c])];
      assert spaced'[..n] == spaced[..n];
    }
  }

  lemma LetterIsLaid(lead: string, spaced: seq<Spaced>, c: char) returns (spaced': seq<Spaced>)
    requires IsLayout(lead, spaced) && !IsWhitespace(c)
    ensures IsLayout(lead, spaced') && LaidOut(lead, spaced') == LaidOut(lead, spaced) + [c]
  {
    if EndsInWord(spaced) {
      var n := |spaced| - 1;
      spaced' := spaced[..n] + [Spaced(spaced[n].word + [c], "")];
      assert spaced'[..n] == spaced[..n];
    } else {
      spaced' := spaced + [Spaced([c], "")];
      assert spaced'[..|spaced|] == spaced;
    }
  }

  /** And every text is such a layout. */
  lemma {:induction false} EveryTextIsLaidOut(s: string) returns (lead: string, spaced: seq<Spaced>)
    ensures IsLayout(lead, spaced) && s == LaidOut(lead, spaced)
  {
    if s == "" {
      lead, spaced := "", [];
    } else {
      var n := |s| - 1;
      lead, spaced := EveryTextIsLaidOut(s[..n]);
      assert s == s[..n] + [s[n]];
      if IsWhitespace(s[n]) {
        lead, spaced := BlankIsLaid(lead, spaced, s[n]);
      } else {
        spaced := LetterIsLaid(lead, spaced, s[n]);
      }
    }
  }

  /** The layout with one blank between neighbours and nothing at the ends. */
  function Tight(words: seq<string>): (spaced: seq<Spaced>)
    ensures |spaced| == |words|
  {
    seq(|words|, i requires 0 <= i < |words| => Spaced(words[i], if i < |words| - 1 then " " else ""))
  }

  lemma {:induction false} LooseIs(words: seq<string>)
    ensures LaidOut("", seq(|words|, i requires 0 <= i < |words| => Spaced(words[i], " "))) ==
            if words == [] then "" else Joined(words) + " "
  {
    if words != [] {
      var n := |words| - 1;
      var all := seq(|words|, i requires 0 <= i < |words| => Spaced(words[i], " "));
      var before := seq(n, i requires 0 <= i < n => Spaced(words[..n][i], " "));
      LooseIs(words[..n]);
      assert all[..n] == before;
    }
  }

  lemma JoinedIsTight(words: seq<string>)
    ensures Joined(words) == LaidOut("", Tight(words))
  {
    if words != [] {
      var n := |words| - 1;
      var before := seq(n, i requires 0 <= i < n => Spaced(words[..n][i], " "));
      LooseIs(words[..n]);
      assert Tight(words)[..n] == before;
      if n > 0 { assert Joined(words[..n]) + " " + words[n] + "" == Joined(words); }
    }
  }

  /** However the words of an input are laid out, the key has them with one blank between neighbours. */
  lemma KeysAreTight(lead: string, spaced: seq<Spaced>)
    requires IsLayout(lead, spaced)
    ensures Normalized(LaidOut(lead, spaced)) == LaidOut("", Tight(WordsIn(spaced)))
  {
    LaidOutWordsAreFound(lead, spaced);
    JoinedIsTight(WordsIn(spaced));
  }

  // ---------------------------------------------------------------------
  // Bytes
  // ---------------------------------------------------------------------

  predicate Continues(b: byte) { 0x80 <= b < 0xC0 }

  function Above(b: int, mark: int): int { b - mark }

  /**
   A character takes one byte to four, by its number, and its bits are those of the
   first byte and six of each byte behind it (RFC 3629, section 3).
   */
  lemma CharactersAreUtf8(c: char)
    ensures var n, bs := c as int, EncodeChar(c);
            match |bs|
            case 1 => n < 0x80 && bs[0] == n
            case 2 => 0x80 <= n < 0x800 && Continues(bs[1]) && n == Above(bs[0], 0xC0) * 0x40 + Above(bs[1], 0x80)
            case 3 =>
              && 0x800 <= n < 0x1_0000 && Continues(bs[1]) && Continues(bs[2])
              && n == Above(bs[0], 0xE0) * 0x1000 + Above(bs[1], 0x80) * 0x40 + Above(bs[2], 0x80)
            case _ =>
              && |bs| == 4 && 0x1_0000 <= n && Continues(bs[1]) && Continues(bs[2]) && Continues(bs[3])
              && n == Above(bs[0], 0xF0) * 0x4_0000 + Above(bs[1], 0x80) * 0x1000 + Above(bs[2], 0x80) * 0x40 +
                      Above(bs[3], 0x80)
  {
    var n := c as int;
    assert n / 0x40 / 0x40 == n / 0x1000 && n / 0x40 / 0x40 / 0x40 == n / 0x4_0000;
  }
}
