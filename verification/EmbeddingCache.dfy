/**
 The embedding cache: inputs that differ only in white space share an entry, and
 the entry is filed under the hash of the delimiter-joined request. The hash is
 a parameter; entries may vanish at any time (expiry, capacity).
 */
module EmbeddingCache {
  import opened JsonValue
  import opened Utf8
  import opened Whitespace
  import opened Wrappers

  // ---------------------------------------------------------------------
  // Normalising
  // ---------------------------------------------------------------------

  /** The text ends inside a run of white space. */
  predicate EndsInSpace(s: string) { s != [] && IsWhitespace(s[|s| - 1]) }

  /** The maximal stretches without white space. */
  function Words(s: string): (words: seq<string>)
    ensures s != [] && !EndsInSpace(s) ==> words != []
  {
    if s == [] then []
    else
      var n, c := |s| - 1, s[|s| - 1];
      var words := Words(s[..n]);
      if IsWhitespace(c) then words
      else if n == 0 || EndsInSpace(s[..n]) then words + [[c]]
      else words[..|words| - 1] + [words[|words| - 1] + [c]]
  }

  /** The words with one blank between neighbours. */
  function Joined(words: seq<string>): string {
    if words == [] then []
    else if |words| == 1 then words[0]
    else Joined(words[..|words| - 1]) + " " + words[|words| - 1]
  }

  function Normalized(s: string): string { Joined(Words(s)) }

  /** What the loop of `normalize` puts out for `c` after reading `s`. */
  function Emitted(s: string, c: char): string {
    if !IsWhitespace(c) then [c] else if EndsInSpace(s) then [] else " "
  }

  /** What it has put out after reading `s`. */
  function Folded(s: string): string {
    if s == [] then [] else Folded(s[..|s| - 1]) + Emitted(s[..|s| - 1], s[|s| - 1])
  }

  method Normalize(s: string) returns (r: string)
    ensures r == Normalized(s)
  {
    var out := "";
    var lastWasSpace := false;
    for i := 0 to |s|
      invariant out == Folded(s[..i])
      invariant lastWasSpace <==> EndsInSpace(s[..i])
    {
      assert s[..i + 1][..i] == s[..i];
      var c := s[i];
      if IsWhitespace(c) {
        if !lastWasSpace {
          out := out + " ";
          lastWasSpace := true;
        }
      } else {
        out := out + [c];
        lastWasSpace := false;
      }
    }
    assert s[..|s|] == s;
    TrimFolded(s);
    r := Trim(out);
  }

  predicate IsWord(w: string) { w != [] && forall i :: 0 <= i < |w| ==> !IsWhitespace(w[i]) }

  lemma {:induction false} WordsAreWords(s: string)
    ensures forall i :: 0 <= i < |Words(s)| ==> IsWord(Words(s)[i])
  {
    if s != [] { WordsAreWords(s[..|s| - 1]); }
  }

  lemma JoinedExtends(words: seq<string>, c: char)
    requires words != []
    ensures Joined(words[..|words| - 1] + [words[|words| - 1] + [c]]) == Joined(words) + [c]
  {
    var n := |words| - 1;
    var longer := words[..n] + [words[n] + [c]];
    assert longer[..n] == words[..n];
  }

  lemma JoinedSnoc(words: seq<string>, w: string)
    ensures Joined(words + [w]) == if words == [] then w else Joined(words) + " " + w
  {
    assert (words + [w])[..|words|] == words;
  }

  function Lead(s: string): string { if s != [] && IsWhitespace(s[0]) then " " else "" }

  function Trail(s: string): string { if Words(s) != [] && EndsInSpace(s) then " " else "" }

  lemma EndsSnoc(t: string, c: char)
    ensures Lead(t + [c]) == if t != [] then Lead(t) else if IsWhitespace(c) then " " else ""
    ensures EndsInSpace(t + [c]) == IsWhitespace(c)
  {
  }

  lemma WordsSnoc(t: string, c: char)
    ensures IsWhitespace(c) ==> Words(t + [c]) == Words(t)
    ensures !IsWhitespace(c) && (t == [] || EndsInSpace(t)) ==>
            Joined(Words(t + [c])) == if Words(t) == [] then [c] else Joined(Words(t)) + " " + [c]
    ensures !IsWhitespace(c) && !(t == [] || EndsInSpace(t)) ==>
            Words(t) != [] && Joined(Words(t + [c])) == Joined(Words(t)) + [c]
  {
    assert (t + [c])[..|t|] == t;
    if !IsWhitespace(c) {
      if t == [] || EndsInSpace(t) {
        JoinedSnoc(Words(t), [c]);
      } else {
        JoinedExtends(Words(t), c);
      }
    }
  }

  /** What comes out of the loop: the joined words, with a blank for white space at either end. */
  predicate IsFolded(s: string, out: string) { out == Lead(s) + Joined(Words(s)) + Trail(s) }

  lemma LetterKeepsFolded(t: string, c: char, out: string)
    requires IsFolded(t, out) && !IsWhitespace(c)
    ensures IsFolded(t + [c], out + [c])
  {
    EndsSnoc(t, c);
    WordsSnoc(t, c);
    var lead, core := Lead(t), Joined(Words(t));
    if t == [] {
      assert out == "" && IsFolded([c], [c]) && t + [c] == [c] && out + [c] == [c];
    } else if Words(t) == [] {
      AllSpace(t);
      assert out == " ";
    } else if EndsInSpace(t) {
      ShapeSnoc(lead, core, " ", [c]);
    } else {
      ShapeSnoc(lead, core, "", [c]);
    }
  }

  lemma SpaceKeepsFolded(t: string, c: char, out: string)
    requires IsFolded(t, out) && IsWhitespace(c)
    ensures IsFolded(t + [c], out + if EndsInSpace(t) then [] else " ")
  {
    EndsSnoc(t, c);
    WordsSnoc(t, c);
    if Words(t) == [] { AllSpace(t); }
  }

  lemma {:induction false} FoldedIs(s: string)
    ensures IsFolded(s, Folded(s))
  {
    if s != [] {
      var t, c := s[..|s| - 1], s[|s| - 1];
      assert s == t + [c];
      FoldedIs(t);
      if IsWhitespace(c) { SpaceKeepsFolded(t, c, Folded(t)); } else { LetterKeepsFolded(t, c, Folded(t)); }
    }
  }

  lemma ShapeSnoc(lead: string, core: string, trail: string, more: string)
    ensures lead + core + trail + more == lead + (core + trail + more)
  {
  }

  lemma {:induction false} AllSpace(s: string)
    requires Words(s) == []
    ensures forall i :: 0 <= i < |s| ==> IsWhitespace(s[i])
  {
    if s != [] { AllSpace(s[..|s| - 1]); }
  }

  /** Joined words neither start nor end in white space. */
  lemma {:induction false} JoinedIsTight(words: seq<string>)
    requires forall i :: 0 <= i < |words| ==> IsWord(words[i])
    ensures words != [] ==> var j := Joined(words); j != [] && !IsWhitespace(j[0]) && !IsWhitespace(j[|j| - 1])
  {
    if |words| > 1 { JoinedIsTight(words[..|words| - 1]); }
    if words != [] { assert IsWord(words[|words| - 1]); }
  }

  lemma TrimTight(lead: string, core: string, trail: string)
    requires lead in ["", " "] && trail in ["", " "]
    requires core == [] ==> trail == []
    requires core != [] ==> !IsWhitespace(core[0]) && !IsWhitespace(core[|core| - 1])
    ensures Trim(lead + core + trail) == core
  {
    var body := core + trail;
    assert lead + core + trail == lead + body;
    if lead == "" {
      assert lead + body == body;
    } else {
      assert (lead + body)[1..] == body && (lead + body)[0] == ' ';
    }
    assert TrimStart(lead + body) == body;
    if trail == "" {
      assert body == core;
    } else {
      assert body[..|body| - 1] == core && body[|body| - 1] == ' ' && TrimEnd(core) == core;
    }
  }

  lemma TrimFolded(s: string)
    ensures Trim(Folded(s)) == Normalized(s)
  {
    FoldedIs(s);
    WordsAreWords(s);
    JoinedIsTight(Words(s));
    TrimTight(Lead(s), Joined(Words(s)), Trail(s));
  }

  lemma {:induction false} WordsOfSnoc(s: string, w: string)
    requires IsWord(w)
    ensures Words(s + " " + w) == Words(s) + [w]
  {
    var t, n := s + " " + w, |w| - 1;
    assert t[..|t| - 1] == s + " " + w[..n];
    if n == 0 {
      assert s + " " + w[..n] == s + " ";
      assert (s + " ")[..|s|] == s && w == [w[0]];
    } else {
      WordsOfSnoc(s, w[..n]);
      assert w == w[..n] + [w[n]];
    }
  }

  lemma {:induction false} WordsOfWord(w: string)
    requires IsWord(w)
    ensures Words(w) == [w]
  {
    if |w| > 1 {
      WordsOfWord(w[..|w| - 1]);
      assert w == w[..|w| - 1] + [w[|w| - 1]];
    } else {
      assert w == [w[0]];
    }
  }

  lemma {:induction false} WordsOfJoined(words: seq<string>)
    requires forall i :: 0 <= i < |words| ==> IsWord(words[i])
    ensures Words(Joined(words)) == words
  {
    if words == [] {
    } else {
      var rest, w := words[..|words| - 1], words[|words| - 1];
      assert words == rest + [w] && IsWord(w);
      JoinedSnoc(rest, w);
      if rest == [] {
        WordsOfWord(w);
      } else {
        WordsOfJoined(rest);
        WordsOfSnoc(Joined(rest), w);
      }
    }
  }

  /** Two inputs share an entry exactly when they are the same words. */
  lemma SameWordsSameKey(a: string, b: string)
    ensures Normalized(a) == Normalized(b) <==> Words(a) == Words(b)
  {
    WordsAreWords(a);
    WordsAreWords(b);
    WordsOfJoined(Words(a));
    WordsOfJoined(Words(b));
  }

  lemma NormalizingTwiceIsOnce(s: string)
    ensures Normalized(Normalized(s)) == Normalized(s)
  {
    WordsAreWords(s);
    WordsOfJoined(Words(s));
  }

  // ---------------------------------------------------------------------
  // The key
  // ---------------------------------------------------------------------

  type u32 = n: nat | n < 0x1_0000_0000

  datatype Key = Key(model: string, input: string, dimensions: Option<u32>, encodingFormat: Option<string>)

  function NewKey(model: string, input: string): Key { Key(model, Normalized(input), None, None) }

  const BAR: byte := 0x7C

  function LittleEndian(n: u32): (bs: seq<byte>)
    ensures |bs| == 4
  {
    [n % 0x100, n / 0x100 % 0x100, n / 0x1_0000 % 0x100, n / 0x100_0000]
  }

  function Dimensions(k: Key): seq<byte> {
    match k.dimensions
    case None => []
    case Some(d) => LittleEndian(d)
  }

  /** The bytes that are hashed. */
  function Preimage(k: Key): seq<byte> {
    Encode(k.model) + [BAR] + Encode(k.input) + [BAR] + Dimensions(k) + [BAR] + Encode(k.encodingFormat.GetOr(""))
  }

  /** An absent format and an empty one are told apart by nothing in the key. */
  predicate SameRequest(k: Key, k': Key) {
    && k.model == k'.model && k.input == k'.input && k.dimensions == k'.dimensions
    && k.encodingFormat.GetOr("") == k'.encodingFormat.GetOr("")
  }

  predicate BarFree(k: Key) { '|' !in k.model && '|' !in k.encodingFormat.GetOr("") }

  /** The last of the dimensions' bytes reads as a delimiter. */
  predicate DimensionsEndInBar(k: Key) { k.dimensions.Some? && k.dimensions.value / 0x100_0000 == BAR }

  lemma LittleEndianInjective(a: u32, b: u32)
    requires LittleEndian(a) == LittleEndian(b)
    ensures a == b
  {
    assert LittleEndian(a)[0] == LittleEndian(b)[0] && LittleEndian(a)[1] == LittleEndian(b)[1];
    assert LittleEndian(a)[2] == LittleEndian(b)[2] && LittleEndian(a)[3] == LittleEndian(b)[3];
    assert forall n: u32 :: n == n % 0x100 + 0x100 * (n / 0x100);
    assert forall n: u32 {:trigger n / 0x1_0000} ::
      n / 0x100 / 0x100 == n / 0x1_0000 && n / 0x1_0000 / 0x100 == n / 0x100_0000;
  }

  lemma FirstBarIs(a: seq<byte>, b: seq<byte>, all: seq<byte>)
    requires BAR !in a && all == a + [BAR] + b
    ensures all[|a|] == BAR && forall i :: 0 <= i < |a| ==> all[i] != BAR
    ensures all[..|a|] == a && all[|a| + 1..] == b
  {
    assert forall i :: 0 <= i < |a| ==> all[i] == a[i];
  }

  lemma LastBarIs(a: seq<byte>, b: seq<byte>, all: seq<byte>)
    requires BAR !in b && all == a + [BAR] + b
    ensures all[|a|] == BAR && forall i :: |a| < i < |all| ==> all[i] != BAR
    ensures all[..|a|] == a && all[|a| + 1..] == b
  {
    assert forall i :: |a| < i < |all| ==> all[i] == b[i - |a| - 1];
  }

  /** The first delimiter splits off what has none. */
  lemma SplitAtFirstBar(a: seq<byte>, b: seq<byte>, a': seq<byte>, b': seq<byte>)
    requires BAR !in a && BAR !in a' && a + [BAR] + b == a' + [BAR] + b'
    ensures a == a' && b == b'
  {
    FirstBarIs(a, b, a + [BAR] + b);
    FirstBarIs(a', b', a + [BAR] + b);
    assert |a| == |a'|;
  }

  /** So does the last one. */
  lemma SplitAtLastBar(a: seq<byte>, b: seq<byte>, a': seq<byte>, b': seq<byte>)
    requires BAR !in b && BAR !in b' && a + [BAR] + b == a' + [BAR] + b'
    ensures a == a' && b == b'
  {
    LastBarIs(a, b, a + [BAR] + b);
    LastBarIs(a', b', a + [BAR] + b);
    assert |a| == |a'|;
  }

  lemma OuterSplit(a: seq<byte>, m: seq<byte>, f: seq<byte>, a': seq<byte>, m': seq<byte>, f': seq<byte>)
    requires BAR !in a && BAR !in a' && BAR !in f && BAR !in f'
    requires a + [BAR] + (m + [BAR] + f) == a' + [BAR] + (m' + [BAR] + f')
    ensures a == a' && m == m' && f == f'
  {
    SplitAtFirstBar(a, m + [BAR] + f, a', m' + [BAR] + f');
    SplitAtLastBar(m, f, m', f');
  }

  /** Input and dimensions, as they stand between the outer delimiters. */
  function Middle(k: Key): seq<byte> { Encode(k.input) + [BAR] + Dimensions(k) }

  /** A text without delimiters is encoded without them. */
  lemma BarFreeEncodes(s: string)
    requires '|' !in s
    ensures BAR !in Encode(s)
  {
    AsciiStandsForItself(s, '|');
  }

  lemma PreimageIs(k: Key)
    ensures Preimage(k) == Encode(k.model) + [BAR] + (Middle(k) + [BAR] + Encode(k.encodingFormat.GetOr("")))
  {
    Regroup(Encode(k.model), Encode(k.input), Dimensions(k), Encode(k.encodingFormat.GetOr("")));
  }

  lemma Regroup(a: seq<byte>, i: seq<byte>, d: seq<byte>, f: seq<byte>)
    ensures a + [BAR] + i + [BAR] + d + [BAR] + f == a + [BAR] + (i + [BAR] + d + [BAR] + f)
  {
  }

  lemma OuterPartsAreTold(k: Key, k': Key)
    requires BarFree(k) && BarFree(k')
    ensures Preimage(k) == Preimage(k') <==>
            k.model == k'.model && Middle(k) == Middle(k') && k.encodingFormat.GetOr("") == k'.encodingFormat.GetOr("")
  {
    var f, f' := k.encodingFormat.GetOr(""), k'.encodingFormat.GetOr("");
    PreimageIs(k);
    PreimageIs(k');
    if Preimage(k) == Preimage(k') {
      BarFreeEncodes(k.model);
      BarFreeEncodes(k'.model);
      BarFreeEncodes(f);
      BarFreeEncodes(f');
      OuterSplit(Encode(k.model), Middle(k), Encode(f), Encode(k'.model), Middle(k'), Encode(f'));
      Injective(k.model, k'.model);
      Injective(f, f');
    }
  }

  /** `k` has dimensions whose bytes read as more input of `k'`, which has none. */
  predicate SwallowsDimensions(k: Key, k': Key) {
    && k.dimensions.Some? && k'.dimensions.None? && DimensionsEndInBar(k)
    && Encode(k'.input) == Encode(k.input) + [BAR] + LittleEndian(k.dimensions.value)[..3]
  }

  lemma SwallowedMiddle(k: Key, k': Key)
    requires k.dimensions.Some? && k'.dimensions.None?
    ensures Middle(k) == Middle(k') <==> SwallowsDimensions(k, k')
  {
    var d := LittleEndian(k.dimensions.value);
    assert Middle(k) == (Encode(k.input) + [BAR] + d[..3]) + [d[3]];
    assert Middle(k') == Encode(k'.input) + [BAR] + [];
    assert Middle(k') == Encode(k'.input) + [BAR];
    if Middle(k) == Middle(k') {
      assert Middle(k)[..|Middle(k)| - 1] == Encode(k.input) + [BAR] + d[..3];
      assert Middle(k')[..|Middle(k')| - 1] == Encode(k'.input);
      assert Middle(k)[|Middle(k)| - 1] == d[3];
    }
  }

  lemma LikeMiddle(k: Key, k': Key)
    requires k.dimensions.Some? <==> k'.dimensions.Some?
    ensures Middle(k) == Middle(k') <==> k.input == k'.input && k.dimensions == k'.dimensions
  {
    if Middle(k) == Middle(k') {
      var n := |Middle(k)| - |Dimensions(k)| - 1;
      assert Encode(k.input) == Middle(k)[..n] == Middle(k')[..n] == Encode(k'.input);
      assert Dimensions(k) == Middle(k)[n + 1..] == Middle(k')[n + 1..] == Dimensions(k');
      Injective(k.input, k'.input);
      if k.dimensions.Some? { LittleEndianInjective(k.dimensions.value, k'.dimensions.value); }
    }
  }

  /**
   Exactly which keys share a preimage, when model and format hold no delimiter:
   keys of one request, and a key whose dimensions end in the delimiter's byte
   with one whose input goes on with the rest of them.
   */
  lemma CollisionsAre(k: Key, k': Key)
    requires BarFree(k) && BarFree(k')
    ensures Preimage(k) == Preimage(k') <==>
            || SameRequest(k, k')
            || (k.model == k'.model && k.encodingFormat.GetOr("") == k'.encodingFormat.GetOr("") &&
                (SwallowsDimensions(k, k') || SwallowsDimensions(k', k)))
  {
    OuterPartsAreTold(k, k');
    if k.dimensions.Some? <==> k'.dimensions.Some? {
      LikeMiddle(k, k');
    } else if k.dimensions.Some? {
      SwallowedMiddle(k, k');
    } else {
      SwallowedMiddle(k', k);
    }
  }

  /** Free of delimiters, and of dimensions from 0x7C000000 up to 0x7CFFFFFF. */
  predicate Plain(k: Key) { BarFree(k) && !DimensionsEndInBar(k) }

  /** The hashed bytes of plain keys tell every request from every other. */
  lemma PreimageIsFaithful(k: Key, k': Key)
    requires Plain(k) && Plain(k')
    ensures Preimage(k) == Preimage(k') <==> SameRequest(k, k')
  {
    CollisionsAre(k, k');
  }

  /** Requests made of a model name and a text share an entry exactly when model and words agree. */
  lemma EntriesAreSharedByWords(model: string, a: string, model': string, b: string)
    requires '|' !in model && '|' !in model'
    ensures Preimage(NewKey(model, a)) == Preimage(NewKey(model', b)) <==> model == model' && Words(a) == Words(b)
  {
    PreimageIsFaithful(NewKey(model, a), NewKey(model', b));
    SameWordsSameKey(a, b);
  }

  /** Letter case is kept, so it tells requests apart. */
  lemma CaseIsKept(model: string)
    requires '|' !in model
    ensures Preimage(NewKey(model, "A")) != Preimage(NewKey(model, "a"))
  {
    WordsOfWord("A");
    WordsOfWord("a");
    assert "A"[0] != "a"[0];
    EntriesAreSharedByWords(model, "A", model, "a");
  }

  lemma EncodeAround(s: string, t: string)
    ensures Encode(s + "|" + t) == Encode(s) + [BAR] + Encode(t)
  {
    EncodeConcat(s + "|", t);
    EncodeConcat(s, "|");
    assert "|"[1..] == "" && Encode("|") == [BAR] + [];
  }

  /** A delimiter in the model name can make different requests collide. */
  lemma BarsInModelsCollide(a: string, b: string, c: string, d: Option<u32>, f: Option<string>)
    ensures Preimage(Key(a + "|" + b, c, d, f)) == Preimage(Key(a, b + "|" + c, d, f))
  {
    EncodeAround(a, b);
    EncodeAround(b, c);
    BarsRegroup(Encode(a), Encode(b), Encode(c));
  }

  lemma BarsRegroup(x: seq<byte>, y: seq<byte>, z: seq<byte>)
    ensures (x + [BAR] + y) + [BAR] + z == x + [BAR] + (y + [BAR] + z)
  {
  }

  /** And so can dimensions in the excluded range: here the input has gained three letters. */
  lemma DimensionsInRangeCollide(model: string, input: string)
    ensures var k, k' := Key(model, input, Some(0x7C61_6161), None), Key(model, input + "|aaa", None, None);
            Preimage(k) == Preimage(k') && !SameRequest(k, k')
  {
    var k, k' := Key(model, input, Some(0x7C61_6161), None), Key(model, input + "|aaa", None, None);
    EncodeAround(input, "aaa");
    assert input + "|" + "aaa" == input + "|aaa";
    assert "aaa"[1..] == "aa" && "aa"[1..] == "a" && "a"[1..] == "";
    assert Encode("a") == [0x61] + [];
    assert Encode("aa") == [0x61] + [0x61];
    assert Encode("aaa") == [0x61] + [0x61, 0x61];
    assert LittleEndian(0x7C61_6161)[..3] == [0x61, 0x61, 0x61];
    SwallowedMiddle(k, k');
    PreimageIs(k);
    PreimageIs(k');
  }

  // ---------------------------------------------------------------------
  // The cache
  // ---------------------------------------------------------------------

  datatype CachedEmbedding = CachedEmbedding(response: Json, cachedAtMs: nat)

  class EmbeddingCache {
    const hash: seq<byte> -> string
    var inner: map<string, CachedEmbedding>

    constructor (hash: seq<byte> -> string)
      ensures this.hash == hash && inner == map[]
    {
      this.hash := hash;
      inner := map[];
    }

    method Get(key: Key) returns (v: Option<CachedEmbedding>)
      ensures v == Answer(inner, hash, Lookup(key))
    {
      var digest := hash(Preimage(key));
      v := if digest in inner then Some(inner[digest]) else None;
    }

    method Put(key: Key, response: Json, now: nat)
      modifies this
      ensures inner == After(old(inner), hash, Insert(key, CachedEmbedding(response, now)))
    {
      var v := CachedEmbedding(response, now);
      inner := inner[hash(Preimage(key)) := v];
    }

    /** The cache library drops an entry on its own: expired, or no room. */
    method Drop(key: Key)
      modifies this
      ensures inner == After(old(inner), hash, Evict(key))
    {
      inner := inner - {hash(Preimage(key))};
    }

    method InvalidateAll()
      modifies this
      ensures inner == After(old(inner), hash, Clear)
    {
      inner := map[];
    }
  }

  datatype Op = Lookup(key: Key) | Insert(key: Key, value: CachedEmbedding) | Evict(key: Key) | Clear

  function After(inner: map<string, CachedEmbedding>, hash: seq<byte> -> string, op: Op): map<string, CachedEmbedding> {
    match op
    case Lookup(_) => inner
    case Insert(key, value) => inner[hash(Preimage(key)) := value]
    case Evict(key) => inner - {hash(Preimage(key))}
    case Clear => map[]
  }

  function Answer(inner: map<string, CachedEmbedding>, hash: seq<byte> -> string, op: Op): Option<CachedEmbedding> {
    if op.Lookup? && hash(Preimage(op.key)) in inner then Some(inner[hash(Preimage(op.key))]) else None
  }

  function Answers(inner: map<string, CachedEmbedding>, hash: seq<byte> -> string,
                   ops: seq<Op>): seq<Option<CachedEmbedding>>
    decreases |ops|
  {
    if ops == [] then [] else [Answer(inner, hash, ops[0])] + Answers(After(inner, hash, ops[0]), hash, ops[1..])
  }

  /** The request itself, with an absent format read as the empty one. */
  function RequestOf(k: Key): Key { k.(encodingFormat := Some(k.encodingFormat.GetOr(""))) }

  /** A plain map from requests to values. */
  function PlainAfter(m: map<Key, CachedEmbedding>, op: Op): map<Key, CachedEmbedding> {
    match op
    case Lookup(_) => m
    case Insert(key, value) => m[RequestOf(key) := value]
    case Evict(key) => m - {RequestOf(key)}
    case Clear => map[]
  }

  function PlainAnswer(m: map<Key, CachedEmbedding>, op: Op): Option<CachedEmbedding> {
    if op.Lookup? && RequestOf(op.key) in m then Some(m[RequestOf(op.key)]) else None
  }

  function PlainAnswers(m: map<Key, CachedEmbedding>, ops: seq<Op>): seq<Option<CachedEmbedding>>
    decreases |ops|
  {
    if ops == [] then [] else [PlainAnswer(m, ops[0])] + PlainAnswers(PlainAfter(m, ops[0]), ops[1..])
  }

  /** No two of these keys collide in the hash without sharing the hashed bytes. */
  ghost predicate CollisionFree(hash: seq<byte> -> string, keys: iset<Key>) {
    forall k, k' :: k in keys && k' in keys && hash(Preimage(k)) == hash(Preimage(k')) ==> Preimage(k) == Preimage(k')
  }

  ghost predicate Mirrors(inner: map<string, CachedEmbedding>, m: map<Key, CachedEmbedding>, hash: seq<byte> -> string,
                          keys: iset<Key>) {
    forall k :: k in keys ==>
      (hash(Preimage(k)) in inner <==> RequestOf(k) in m) &&
      (RequestOf(k) in m ==> inner[hash(Preimage(k))] == m[RequestOf(k)])
  }

  lemma SameEntryIffSameRequest(hash: seq<byte> -> string, keys: iset<Key>, k: Key, k': Key)
    requires CollisionFree(hash, keys) && k in keys && k' in keys && Plain(k) && Plain(k')
    ensures hash(Preimage(k)) == hash(Preimage(k')) <==> RequestOf(k) == RequestOf(k')
  {
    PreimageIsFaithful(k, k');
  }

  lemma StepMirrors(inner: map<string, CachedEmbedding>, m: map<Key, CachedEmbedding>, hash: seq<byte> -> string,
                    keys: iset<Key>, op: Op)
    requires CollisionFree(hash, keys) && Mirrors(inner, m, hash, keys)
    requires forall k :: k in keys ==> Plain(k)
    requires !op.Clear? ==> op.key in keys
    ensures Answer(inner, hash, op) == PlainAnswer(m, op)
    ensures Mirrors(After(inner, hash, op), PlainAfter(m, op), hash, keys)
  {
    forall k | k in keys
      ensures var d, after, plain := hash(Preimage(k)), After(inner, hash, op), PlainAfter(m, op);
              (d in after <==> RequestOf(k) in plain) && (RequestOf(k) in plain ==> after[d] == plain[RequestOf(k)])
    {
      if !op.Clear? { SameEntryIffSameRequest(hash, keys, k, op.key); }
    }
  }

  /**
   Over any run on plain keys, with a hash that does not collide on them, the
   cache answers as a plain map from requests to values: every hit is the latest
   value stored for that very request.
   */
  lemma {:induction false} CacheRefinesPlainMap(inner: map<string, CachedEmbedding>, m: map<Key, CachedEmbedding>,
                                                hash: seq<byte> -> string, keys: iset<Key>, ops: seq<Op>)
    requires CollisionFree(hash, keys) && Mirrors(inner, m, hash, keys)
    requires forall k :: k in keys ==> Plain(k)
    requires forall i :: 0 <= i < |ops| ==> !ops[i].Clear? ==> ops[i].key in keys
    ensures Answers(inner, hash, ops) == PlainAnswers(m, ops)
    decreases |ops|
  {
    if ops != [] {
      StepMirrors(inner, m, hash, keys, ops[0]);
      CacheRefinesPlainMap(After(inner, hash, ops[0]), PlainAfter(m, ops[0]), hash, keys, ops[1..]);
    }
  }
}
