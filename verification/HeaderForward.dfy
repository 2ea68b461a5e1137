/**
 The header-forwarding policy: literal and glob deny entries, and the greedy
 glob matcher behind them. The matcher is compared with a wildcard relation
 defined on the characters of the pattern alone.
 */
module HeaderForward {
  import opened Wrappers
  import opened Whitespace

  // ---------------------------------------------------------------------
  // The declarative meaning of a pattern
  // ---------------------------------------------------------------------

  /** `*` stands for any run of characters, every other character for itself. */
  ghost predicate Matches(pattern: string, value: string) {
    if pattern == [] then value == []
    else if pattern[0] == '*' then
      exists k :: 0 <= k <= |value| && Matches(pattern[1..], value[k..])
    else
      value != [] && value[0] == pattern[0] && Matches(pattern[1..], value[1..])
  }

  // ---------------------------------------------------------------------
  // Library operations on strings used by the matcher
  // ---------------------------------------------------------------------

  predicate IsPrefix(part: string, s: string) {
    |part| <= |s| && s[..|part|] == part
  }

  predicate OccursAt(s: string, part: string, k: nat) {
    k + |part| <= |s| && s[k..k + |part|] == part
  }

  /** Rust's `str::split('*')`: one more segment than there are stars. */
  function Split(pattern: string): (parts: seq<string>)
    ensures |parts| >= 1
  {
    if pattern == [] then [[]]
    else
      var rest := Split(pattern[1..]);
      if pattern[0] == '*' then [[]] + rest else [[pattern[0]] + rest[0]] + rest[1..]
  }

  /** Rust's `str::find`: the leftmost occurrence of `part` in `s`, from `k` on. */
  function Find(s: string, part: string, k: nat := 0): (r: Option<nat>)
    requires k <= |s|
    ensures r.Some? ==>
              k <= r.value && OccursAt(s, part, r.value) &&
              forall j :: k <= j < r.value ==> !OccursAt(s, part, j)
    ensures r.None? ==> forall j :: k <= j ==> !OccursAt(s, part, j)
    decreases |s| - k
  {
    if OccursAt(s, part, k) then Some(k)
    else if k == |s| then None
    else Find(s, part, k + 1)
  }

  predicate EndsWithStar(pattern: string) {
    pattern != [] && pattern[|pattern| - 1] == '*'
  }

  // ---------------------------------------------------------------------
  // Segment view of the two sides
  // ---------------------------------------------------------------------

  /** The wildcard relation on segments: each gap between two segments is free. */
  ghost predicate SegMatches(parts: seq<string>, s: string)
    requires |parts| >= 1
    decreases |parts|, 0
  {
    if |parts| == 1 then s == parts[0]
    else IsPrefix(parts[0], s) && Floats(parts[1..], s[|parts[0]|..])
  }

  /** The segments match somewhere after a star. */
  ghost predicate Floats(parts: seq<string>, s: string)
    requires |parts| >= 1
    decreases |parts|, 1
  {
    exists k :: 0 <= k <= |s| && SegMatches(parts, s[k..])
  }

  /** Leftmost placement of floating segments; the text that is left over. */
  function Place(parts: seq<string>, s: string): Option<string> {
    if parts == [] then Some(s)
    else
      match Find(s, parts[0])
      case None => None
      case Some(k) => Place(parts[1..], s[k + |parts[0]|..])
  }

  /** As `Place`, with the first segment anchored at the start. */
  function PlaceAll(parts: seq<string>, s: string): Option<string>
    requires |parts| >= 1
  {
    if IsPrefix(parts[0], s) then Place(parts[1..], s[|parts[0]|..]) else None
  }

  function Last(parts: seq<string>): string
    requires |parts| >= 1
  {
    parts[|parts| - 1]
  }

  function Init(parts: seq<string>): seq<string>
    requires |parts| >= 1
  {
    parts[..|parts| - 1]
  }

  /**
   The matcher's blind spot: behind the leftmost placement of the other
   segments, the pattern's last segment occurs before the end of the value.
   */
  ghost predicate Shadowed(pattern: string, value: string) {
    var parts := Split(pattern);
    && |parts| >= 2
    && Last(parts) != []
    && PlaceAll(Init(parts), value).Some?
    && var rest := PlaceAll(Init(parts), value).value;
       exists k :: 0 <= k && k + |Last(parts)| < |rest| && OccursAt(rest, Last(parts), k)
  }

  lemma {:induction false} SplitMatches(pattern: string, value: string)
    ensures Matches(pattern, value) <==> SegMatches(Split(pattern), value)
    decreases |pattern|
  {
    if pattern == [] {
    } else {
      var rest := Split(pattern[1..]);
      if pattern[0] == '*' {
        assert Split(pattern)[1..] == rest;
        assert value[0..] == value;
        forall k | 0 <= k <= |value|
          ensures Matches(pattern[1..], value[k..]) <==> SegMatches(rest, value[k..])
        {
          SplitMatches(pattern[1..], value[k..]);
        }
      } else if value != [] {
        var parts := Split(pattern);
        SplitMatches(pattern[1..], value[1..]);
        assert parts[0] == [pattern[0]] + rest[0] && parts[1..] == rest[1..];
        assert value == [value[0]] + value[1..];
        if |rest| > 1 && |parts[0]| <= |value| {
          assert value[1..][|rest[0]|..] == value[|parts[0]|..];
          assert value[..|parts[0]|] == [value[0]] + value[1..][..|rest[0]|];
          assert value[..|parts[0]|][1..] == value[1..][..|rest[0]|];
        }
      } else {
        assert |Split(pattern)[0]| >= 1;
      }
    }
  }

  lemma FloatsEarlier(parts: seq<string>, s: string, j: nat)
    requires |parts| >= 1 && j <= |s|
    requires Floats(parts, s[j..])
    ensures Floats(parts, s)
  {
    var k :| 0 <= k <= |s[j..]| && SegMatches(parts, s[j..][k..]);
    assert s[j..][k..] == s[j + k..];
  }

  lemma FloatsFromLeftmost(parts: seq<string>, s: string)
    requires |parts| >= 2 && Floats(parts, s)
    ensures Find(s, parts[0]).Some? && Floats(parts[1..], s[Find(s, parts[0]).value + |parts[0]|..])
  {
    var part, n := parts[0], |parts[0]|;
    var k :| 0 <= k <= |s| && SegMatches(parts, s[k..]);
    assert s[k..][..n] == s[k..k + n];
    assert OccursAt(s, part, k);
    var f := Find(s, part).value;
    assert s[k..][n..] == s[f + n..][k - f..];
    FloatsEarlier(parts[1..], s[f + n..], k - f);
  }

  lemma FloatsFrom(parts: seq<string>, s: string, f: nat)
    requires |parts| >= 2 && OccursAt(s, parts[0], f) && Floats(parts[1..], s[f + |parts[0]|..])
    ensures Floats(parts, s)
  {
    var n := |parts[0]|;
    assert s[f..][..n] == s[f..f + n] && s[f..][n..] == s[f + n..];
    assert SegMatches(parts, s[f..]);
  }

  /** Nothing is lost by taking the leftmost occurrence of a segment that is not the last. */
  lemma LeftmostIsBest(parts: seq<string>, s: string)
    requires |parts| >= 2
    ensures Floats(parts, s) <==>
            Find(s, parts[0]).Some? &&
            Floats(parts[1..], s[Find(s, parts[0]).value + |parts[0]|..])
  {
    if Floats(parts, s) {
      FloatsFromLeftmost(parts, s);
    } else if Find(s, parts[0]).Some? && Floats(parts[1..], s[Find(s, parts[0]).value + |parts[0]|..]) {
      FloatsFrom(parts, s, Find(s, parts[0]).value);
    }
  }

  lemma PlaceInit(parts: seq<string>, s: string)
    requires |parts| >= 2
    ensures Last(parts) == Last(parts[1..])
    ensures Place(Init(parts), s) ==
            match Find(s, parts[0])
            case None => None
            case Some(k) => Place(Init(parts[1..]), s[k + |parts[0]|..])
  {
    assert Init(parts)[1..] == Init(parts[1..]);
  }

  lemma OneFloats(parts: seq<string>, s: string)
    requires |parts| == 1
    ensures Floats(parts, s) <==> IsSuffix(parts[0], s)
    ensures Place(Init(parts), s) == Some(s)
  {
    if Floats(parts, s) {
      var k :| 0 <= k <= |s| && SegMatches(parts, s[k..]);
    }
    if IsSuffix(parts[0], s) {
      assert SegMatches(parts, s[|s| - |parts[0]|..]);
    }
  }

  /** Floating segments match exactly when all but the last can be placed and the last is a suffix of the rest. */
  lemma {:induction false} FloatsByPlacement(parts: seq<string>, s: string)
    requires |parts| >= 1
    ensures Floats(parts, s) <==>
            Place(Init(parts), s).Some? && IsSuffix(Last(parts), Place(Init(parts), s).value)
  {
    if |parts| == 1 {
      OneFloats(parts, s);
    } else {
      LeftmostIsBest(parts, s);
      PlaceInit(parts, s);
      if Find(s, parts[0]).Some? {
        var t := s[Find(s, parts[0]).value + |parts[0]|..];
        FloatsByPlacement(parts[1..], t);
        assert Floats(parts, s) <==> Floats(parts[1..], t);
        assert Place(Init(parts), s) == Place(Init(parts[1..]), t);
      }
    }
  }

  predicate IsSuffix(part: string, s: string) {
    |part| <= |s| && s[|s| - |part|..] == part
  }

  lemma {:induction false} PlaceLast(parts: seq<string>, s: string)
    requires |parts| >= 1
    ensures Place(parts, s) ==
            match Place(Init(parts), s)
            case None => None
            case Some(rest) => Place([Last(parts)], rest)
  {
    if |parts| > 1 {
      PlaceInit(parts, s);
      match Find(s, parts[0])
      case None =>
      case Some(k) => PlaceLast(parts[1..], s[k + |parts[0]|..]);
    } else {
      assert parts == [Last(parts)];
    }
  }

  lemma {:induction false} StarAtEnd(pattern: string)
    ensures EndsWithStar(pattern) <==> |Split(pattern)| >= 2 && Last(Split(pattern)) == []
  {
    if |pattern| == 0 {
    } else if |pattern| == 1 {
      assert Split(pattern[1..]) == [[]];
    } else {
      StarAtEnd(pattern[1..]);
      var rest := Split(pattern[1..]);
      assert EndsWithStar(pattern) == EndsWithStar(pattern[1..]);
      if pattern[0] != '*' && |rest| == 1 {
        assert |Split(pattern)| == 1;
      } else if pattern[0] == '*' && |rest| == 1 {
        NoStarNoSplit(pattern[1..]);
      }
    }
  }

  lemma {:induction false} NoStarNoSplit(pattern: string)
    ensures |Split(pattern)| == 1 <==> '*' !in pattern
    ensures |Split(pattern)| == 1 ==> Split(pattern)[0] == pattern
  {
    if pattern != [] {
      NoStarNoSplit(pattern[1..]);
      assert pattern == [pattern[0]] + pattern[1..];
    }
  }

  // ---------------------------------------------------------------------
  // The matcher
  // ---------------------------------------------------------------------

  /** What the segment loop accepts, as a function of the segments. */
  ghost predicate Accepts(parts: seq<string>, value: string)
    requires |parts| >= 2
  {
    PlaceAll(parts, value).Some? && (Last(parts) != [] ==> PlaceAll(parts, value).value == [])
  }

  lemma AcceptsExactly(pattern: string, value: string)
    requires |Split(pattern)| >= 2
    ensures Accepts(Split(pattern), value) <==> Matches(pattern, value) && !Shadowed(pattern, value)
  {
    var parts := Split(pattern);
    SplitMatches(pattern, value);
    if IsPrefix(parts[0], value) {
      var s := value[|parts[0]|..];
      var tail := parts[1..];
      assert Init(parts)[1..] == Init(tail) && Last(parts) == Last(tail);
      FloatsByPlacement(tail, s);
      PlaceLast(tail, s);
      assert PlaceAll(Init(parts), value) == Place(Init(tail), s);
      if Place(Init(tail), s).Some? {
        var rest := Place(Init(tail), s).value;
        LastSegment(Last(tail), rest);
      }
    }
  }

  /** The last segment alone: leftmost occurrence against suffix. */
  lemma LastSegment(part: string, rest: string)
    ensures part == [] ==> Place([part], rest).Some?
    ensures part != [] ==>
              ((Place([part], rest).Some? && Place([part], rest).value == []) <==>
               (IsSuffix(part, rest) && !exists k :: 0 <= k && k + |part| < |rest| && OccursAt(rest, part, k)))
  {
    if part == [] {
      assert OccursAt(rest, part, 0);
      assert [part][1..] == [];
    } else {
      if IsSuffix(part, rest) {
        assert OccursAt(rest, part, |rest| - |part|);
      }
      assert Place([part][1..], []) == Some([]);
    }
  }

  /** The first `i` segments have been placed, up to `pos`. */
  predicate PlacedTo(parts: seq<string>, value: string, i: nat, pos: nat) {
    && i <= |parts| && parts != [] && pos <= |value|
    && (if i == 0 then pos == 0 else PlaceAll(parts, value) == Place(parts[i..], value[pos..]))
  }

  /** One turn of the segment loop: the segment must be found, the first one at the start. */
  lemma PlaceNext(parts: seq<string>, value: string, i: nat, pos: nat)
    requires PlacedTo(parts, value, i, pos) && i < |parts|
    ensures match Find(value[pos..], parts[i])
            case None => PlaceAll(parts, value).None?
            case Some(found) =>
              if i == 0 && found != 0 then PlaceAll(parts, value).None?
              else PlacedTo(parts, value, i + 1, pos + found + |parts[i]|)
  {
    var part, rest := parts[i], value[pos..];
    if i == 0 {
      assert rest == value && parts[0..] == parts;
      if Find(value, part) != Some(0) { assert !OccursAt(value, part, 0); }
      assert OccursAt(value, part, 0) <==> IsPrefix(part, value);
    } else {
      assert parts[i..][0] == part && parts[i..][1..] == parts[i + 1..];
    }
    match Find(rest, part)
    case None =>
    case Some(found) => assert rest[found + |part|..] == value[pos + found + |part|..];
  }

  lemma EmptyIsFound(s: string)
    ensures Find(s, "") == Some(0)
  {
    assert OccursAt(s, "", 0);
  }

  /** What the matcher answers once every segment is placed. */
  lemma AllPlaced(pattern: string, value: string, pos: nat)
    requires |Split(pattern)| >= 2 && PlacedTo(Split(pattern), value, |Split(pattern)|, pos)
    ensures Matches(pattern, value) && !Shadowed(pattern, value) <==> (EndsWithStar(pattern) || pos == |value|)
  {
    var parts := Split(pattern);
    assert parts[|parts|..] == [];
    StarAtEnd(pattern);
    AcceptsExactly(pattern, value);
  }

  lemma LoneSegment(pattern: string, value: string)
    requires |Split(pattern)| == 1
    ensures Matches(pattern, value) && !Shadowed(pattern, value) <==> pattern == value
  {
    NoStarNoSplit(pattern);
    SplitMatches(pattern, value);
  }

  lemma NotPlaced(pattern: string, value: string)
    requires |Split(pattern)| >= 2 && PlaceAll(Split(pattern), value).None?
    ensures !(Matches(pattern, value) && !Shadowed(pattern, value))
  {
    AcceptsExactly(pattern, value);
  }

  method GlobMatch(pattern: string, value: string) returns (r: bool)
    ensures r <==> Matches(pattern, value) && !Shadowed(pattern, value)
  {
    var parts := Split(pattern);
    if |parts| == 1 {
      LoneSegment(pattern, value);
      return pattern == value;
    }
    var pos: nat := 0;
    for i := 0 to |parts|
      invariant PlacedTo(parts, value, i, pos)
    {
      var part := parts[i];
      PlaceNext(parts, value, i, pos);
      if part == [] {
        EmptyIsFound(value[pos..]);
      } else {
        match Find(value[pos..], part)
        case None =>
          NotPlaced(pattern, value);
          return false;
        case Some(found) =>
          if i == 0 && found != 0 {
            NotPlaced(pattern, value);
            return false;
          }
          pos := pos + found + |part|;
      }
    }
    AllPlaced(pattern, value, pos);
    if !EndsWithStar(pattern) {
      return pos == |value|;
    }
    return true;
  }

  /** The matcher never blocks a value the pattern does not describe, and
      misses one exactly when the pattern's last segment also occurs earlier. */
  lemma DisagreesExactlyWhenShadowed(pattern: string, value: string)
    ensures (Matches(pattern, value) && !Shadowed(pattern, value)) != Matches(pattern, value)
            <==> Shadowed(pattern, value) && EndsInPlace(pattern, value)
  {
    var parts := Split(pattern);
    if Shadowed(pattern, value) {
      SplitMatches(pattern, value);
      var s := value[|parts[0]|..];
      assert Init(parts)[1..] == Init(parts[1..]);
      FloatsByPlacement(parts[1..], s);
    }
  }

  /** The last segment is a suffix of what the other segments leave over. */
  predicate EndsInPlace(pattern: string, value: string) {
    var parts := Split(pattern);
    && |parts| >= 2
    && PlaceAll(Init(parts), value).Some?
    && IsSuffix(Last(parts), PlaceAll(Init(parts), value).value)
  }

  // ---------------------------------------------------------------------
  // What is accepted, without the algorithm
  // ---------------------------------------------------------------------

  /**
   A wildcard pattern describes a value when the segments before the last can
   be placed and the last ends the value.
   */
  lemma MatchesByPlacement(pattern: string, value: string)
    requires |Split(pattern)| >= 2
    ensures Matches(pattern, value) <==> EndsInPlace(pattern, value)
  {
    var parts := Split(pattern);
    SplitMatches(pattern, value);
    if IsPrefix(parts[0], value) {
      assert Init(parts)[1..] == Init(parts[1..]);
      FloatsByPlacement(parts[1..], value[|parts[0]|..]);
    }
  }

  lemma OccursInPrefix(s: string, part: string, k: nat, n: nat)
    requires n <= |s|
    ensures OccursAt(s[..n], part, k) <==> OccursAt(s, part, k) && k + |part| <= n
  {
    if k + |part| <= n { assert s[..n][k..k + |part|] == s[k..k + |part|]; }
  }

  lemma FindInPrefix(s: string, part: string, n: nat)
    requires n <= |s|
    ensures Find(s[..n], part) ==
            if Find(s, part).Some? && Find(s, part).value + |part| <= n then Find(s, part) else None
  {
    forall k: nat
      ensures OccursAt(s[..n], part, k) <==> OccursAt(s, part, k) && k + |part| <= n
    {
      OccursInPrefix(s, part, k, n);
    }
    var short, long := Find(s[..n], part), Find(s, part);
    if long.Some? && long.value + |part| <= n { assert OccursAt(s[..n], part, long.value); }
    if short.Some? { assert OccursAt(s, part, short.value); }
  }

  /** What is left of `rest`, a suffix of `s`, when `s` ends at `n`. */
  function CutOff(s: string, rest: string, n: nat): Option<string>
    requires n <= |s|
  {
    if |rest| <= |s| && |s| - |rest| <= n then Some(s[|s| - |rest|..n]) else None
  }

  lemma CutOffFrom(s: string, j: nat, rest: string, n: nat)
    requires j <= n <= |s| && |rest| <= |s| - j
    ensures CutOff(s[j..], rest, n - j) == CutOff(s, rest, n)
  {
    var t := s[j..];
    if |s| - |rest| <= n { assert t[|t| - |rest|..n - j] == s[|s| - |rest|..n]; }
  }

  /** Segments are placed in a prefix as in the whole text, as far as it reaches. */
  lemma {:induction false} PlaceInPrefix(parts: seq<string>, s: string, n: nat)
    requires n <= |s|
    ensures Place(parts, s[..n]) == match Place(parts, s) case None => None case Some(rest) => CutOff(s, rest, n)
  {
    if parts == [] {
      assert s[0..n] == s[..n];
    } else {
      FindInPrefix(s, parts[0], n);
      if Find(s, parts[0]).Some? {
        var j := Find(s, parts[0]).value + |parts[0]|;
        var t := s[j..];
        PlaceIsSuffix(parts[1..], t);
        if j <= n {
          PlaceInPrefix(parts[1..], t, n - j);
          assert s[..n][j..] == t[..n - j];
          if Place(parts[1..], t).Some? { CutOffFrom(s, j, Place(parts[1..], t).value, n); }
        }
      }
    }
  }

  lemma PlaceAllInPrefix(parts: seq<string>, s: string, n: nat)
    requires n <= |s| && parts != [] && PlaceAll(parts, s).Some?
    ensures var rest := PlaceAll(parts, s).value;
            |rest| <= |s| && PlaceAll(parts, s[..n]) == CutOff(s, rest, n)
  {
    AnchoredInPrefix(parts[0], parts[1..], s, n);
  }

  lemma AnchoredInPrefix(first: string, tail: seq<string>, s: string, n: nat)
    requires n <= |s| && IsPrefix(first, s) && Place(tail, s[|first|..]).Some?
    ensures var rest := Place(tail, s[|first|..]).value;
            && |rest| <= |s| - |first|
            && (if IsPrefix(first, s[..n]) then Place(tail, s[..n][|first|..]) else None) == CutOff(s, rest, n)
  {
    var m, t := |first|, s[|first|..];
    PlaceIsSuffix(tail, t);
    PrefixInPrefix(first, s, n);
    if m <= n {
      PlaceInPrefix(tail, t, n - m);
      CutOffFrom(s, m, Place(tail, t).value, n);
    }
  }

  lemma PrefixInPrefix(first: string, s: string, n: nat)
    requires n <= |s| && IsPrefix(first, s)
    ensures IsPrefix(first, s[..n]) <==> |first| <= n
    ensures |first| <= n ==> s[..n][|first|..] == s[|first|..][..n - |first|]
  {
    if |first| <= n { assert s[..n][..|first|] == s[..|first|]; }
  }

  /** A proper prefix that the pattern describes too is what shadows a value. */
  lemma ShadowedByPrefix(pattern: string, value: string, n: nat)
    requires |Split(pattern)| >= 2 && Last(Split(pattern)) != [] && Matches(pattern, value) && n < |value|
    requires Matches(pattern, value[..n])
    ensures Shadowed(pattern, value)
  {
    var parts := Split(pattern);
    var part := Last(parts);
    MatchesByPlacement(pattern, value);
    MatchesByPlacement(pattern, value[..n]);
    PlaceAllInPrefix(Init(parts), value, n);
    var rest := PlaceAll(Init(parts), value).value;
    var short := PlaceAll(Init(parts), value[..n]).value;
    PlaceAllIsSuffix(Init(parts), value);
    var used := |value| - |rest|;
    assert short == rest[..n - used];
    var k := |short| - |part|;
    OccursInPrefix(rest, part, k, n - used);
    assert OccursAt(short, part, k);
  }

  lemma PlaceAllIsSuffix(parts: seq<string>, s: string)
    requires parts != [] && PlaceAll(parts, s).Some?
    ensures IsSuffix(PlaceAll(parts, s).value, s)
  {
    PlaceIsSuffix(parts[1..], s[|parts[0]|..]);
    SuffixOfSuffix(PlaceAll(parts, s).value, s[|parts[0]|..], s);
  }

  lemma ShadowHasPrefix(pattern: string, value: string) returns (n: nat)
    requires Shadowed(pattern, value)
    ensures n < |value| && Matches(pattern, value[..n])
  {
    var parts := Split(pattern);
    var part := Last(parts);
    var rest := PlaceAll(Init(parts), value).value;
    PlaceAllIsSuffix(Init(parts), value);
    var k :| 0 <= k && k + |part| < |rest| && OccursAt(rest, part, k);
    var used := |value| - |rest|;
    n := used + k + |part|;
    PlaceAllInPrefix(Init(parts), value, n);
    var short := PlaceAll(Init(parts), value[..n]).value;
    assert short == rest[..k + |part|];
    assert short[|short| - |part|..] == rest[k..k + |part|];
    MatchesByPlacement(pattern, value[..n]);
  }

  /**
   Without a star at the end the matcher accepts exactly the shortest values: those
   that the pattern describes while it describes no proper prefix of them.
   */
  lemma AcceptsTheShortest(pattern: string, value: string)
    requires !EndsWithStar(pattern)
    ensures Matches(pattern, value) && !Shadowed(pattern, value) <==>
            Matches(pattern, value) && forall n :: 0 <= n < |value| ==> !Matches(pattern, value[..n])
  {
    StarAtEnd(pattern);
    if |Split(pattern)| >= 2 {
      if Shadowed(pattern, value) {
        var n := ShadowHasPrefix(pattern, value);
      } else if Matches(pattern, value) {
        forall n | 0 <= n < |value|
          ensures !Matches(pattern, value[..n])
        {
          if Matches(pattern, value[..n]) { ShadowedByPrefix(pattern, value, n); }
        }
      }
    } else {
      NoStarNoSplit(pattern);
      SplitMatches(pattern, value);
      forall n | 0 <= n < |value|
        ensures Matches(pattern, value[..n]) ==> !Matches(pattern, value)
      {
        SplitMatches(pattern, value[..n]);
      }
    }
  }

  // ---------------------------------------------------------------------
  // Where the matcher is complete
  // ---------------------------------------------------------------------

  ghost predicate OccursOnce(value: string, part: string) {
    forall j, k :: 0 <= j && 0 <= k && OccursAt(value, part, j) && OccursAt(value, part, k) ==> j == k
  }

  lemma CompleteWhen(pattern: string, value: string)
    requires EndsWithStar(pattern) || '*' !in pattern || OccursOnce(value, Last(Split(pattern)))
    ensures !(Matches(pattern, value) && Shadowed(pattern, value))
  {
    StarAtEnd(pattern);
    NoStarNoSplit(pattern);
    if Matches(pattern, value) && Shadowed(pattern, value) {
      ShadowedOccursTwice(pattern, value);
    }
  }

  lemma ShadowedOccursTwice(pattern: string, value: string)
    requires Matches(pattern, value) && Shadowed(pattern, value)
    ensures !OccursOnce(value, Last(Split(pattern)))
  {
    var parts := Split(pattern);
    var part := Last(parts);
    var rest := PlaceAll(Init(parts), value).value;
    PlaceIsSuffix(Init(parts)[1..], value[|parts[0]|..]);
    SuffixOfSuffix(rest, value[|parts[0]|..], value);
    MatchesByPlacement(pattern, value);
    TwoOccurrences(value, rest, part);
  }

  lemma TwoOccurrences(value: string, rest: string, part: string)
    requires IsSuffix(rest, value) && IsSuffix(part, rest)
    requires exists k :: 0 <= k && k + |part| < |rest| && OccursAt(rest, part, k)
    ensures !OccursOnce(value, part)
  {
    var k :| 0 <= k && k + |part| < |rest| && OccursAt(rest, part, k);
    OccursInSuffix(value, rest, part, k);
    OccursInSuffix(value, rest, part, |rest| - |part|);
  }

  lemma SuffixOfSuffix(a: string, b: string, c: string)
    requires IsSuffix(a, b) && IsSuffix(b, c)
    ensures IsSuffix(a, c)
  {
    assert c[|c| - |a|..] == c[|c| - |b|..][|b| - |a|..];
  }

  lemma OccursInSuffix(s: string, rest: string, part: string, k: nat)
    requires IsSuffix(rest, s) && OccursAt(rest, part, k)
    ensures OccursAt(s, part, |s| - |rest| + k)
  {
    var off := |s| - |rest|;
    assert s[off..][k..k + |part|] == s[off + k..off + k + |part|];
  }

  lemma {:induction false} PlaceIsSuffix(parts: seq<string>, s: string)
    ensures Place(parts, s).Some? ==> IsSuffix(Place(parts, s).value, s)
  {
    if parts != [] && Find(s, parts[0]).Some? {
      var t := s[Find(s, parts[0]).value + |parts[0]|..];
      PlaceIsSuffix(parts[1..], t);
      if Place(parts[1..], t).Some? {
        var rest := Place(parts[1..], t).value;
        assert t[|t| - |rest|..] == s[|s| - |rest|..];
      }
    }
  }

  /** A suffix pattern misses every value that repeats the suffix. */
  lemma RepeatedSuffixIsMissed(tail: string)
    requires tail != [] && '*' !in tail
    ensures Matches(['*'] + tail, tail + tail)
    ensures Shadowed(['*'] + tail, tail + tail)
  {
    var pattern, value := ['*'] + tail, tail + tail;
    assert pattern[1..] == tail;
    NoStarNoSplit(tail);
    assert Split(tail) == [tail];
    var parts := Split(pattern);
    assert parts == [[], tail];
    assert Init(parts)[1..] == [] && value[0..] == value;
    assert PlaceAll(Init(parts), value) == Some(value);
    assert value[0..0 + |tail|] == tail;
    assert OccursAt(value, tail, 0);
    assert value[|tail|..] == tail;
    SplitMatches(tail, value[|tail|..]);
  }

  const REQUEST_ID := "request-id"

  /** The built-in response entry for request ids is such a pattern. */
  lemma RequestIdEntryMisses()
    ensures Matches(['*'] + REQUEST_ID, REQUEST_ID + REQUEST_ID)
    ensures Shadowed(['*'] + REQUEST_ID, REQUEST_ID + REQUEST_ID)
  {
    RepeatedSuffixIsMissed(REQUEST_ID);
  }

  // ---------------------------------------------------------------------
  // The policy
  // ---------------------------------------------------------------------

  function LowerChar(c: char): char {
    if 'A' <= c <= 'Z' then ((c as int) - ('A' as int) + ('a' as int)) as char else c
  }

  /** ASCII lower-casing; header names are ASCII tokens. */
  function Lower(s: string): (r: string)
    ensures |r| == |s|
    ensures forall i :: 0 <= i < |s| ==> r[i] == LowerChar(s[i])
  {
    seq(|s|, i requires 0 <= i < |s| => LowerChar(s[i]))
  }

  /** One direction's deny entries, each a lower-case literal or glob. */
  ghost predicate Denies(entries: set<string>, name: string) {
    exists e :: e in entries && Matches(e, name)
  }

  /** The entries whose glob the matcher may miss for this name. */
  ghost predicate Missed(entries: set<string>, name: string) {
    forall e :: e in entries && Matches(e, name) ==> Shadowed(e, name)
  }

  function Elements(s: seq<string>): set<string> { set x | x in s }

  class DenyList {
    var exact: set<string>
    var globs: seq<string>

    ghost predicate Valid()
      reads this
    {
      (forall e :: e in exact ==> '*' !in e) && (forall g :: g in globs ==> '*' in g)
    }

    ghost function Entries(): set<string>
      reads this
    {
      exact + Elements(globs)
    }

    constructor ()
      ensures Valid() && Entries() == {}
    {
      exact, globs := {}, [];
    }

    method Add(key: string)
      requires Valid()
      modifies this
      ensures Valid() && Entries() == old(Entries()) + {key}
    {
      if '*' in key {
        globs := globs + [key];
        assert Elements(globs) == Elements(old(globs)) + {key};
      } else {
        exact := exact + {key};
      }
    }

    /** The partition of a hardcoded list into literals and globs. */
    method AddDefaults(entries: seq<string>)
      requires Valid()
      modifies this
      ensures Valid()
      ensures Entries() == old(Entries()) + set i | 0 <= i < |entries| :: Lower(entries[i])
    {
      for i := 0 to |entries|
        invariant Valid()
        invariant Entries() == old(Entries()) + set j | 0 <= j < i :: Lower(entries[j])
      {
        Add(Lower(entries[i]));
      }
    }

    /** Operator-supplied entries: trimmed, lower-cased, blanks skipped. */
    method AddExtra(names: seq<string>)
      requires Valid()
      modifies this
      ensures Valid()
      ensures Entries() == old(Entries()) +
              set i | 0 <= i < |names| && Lower(Trim(names[i])) != [] :: Lower(Trim(names[i]))
    {
      for i := 0 to |names|
        invariant Valid()
        invariant Entries() == old(Entries()) +
                  set j | 0 <= j < i && Lower(Trim(names[j])) != [] :: Lower(Trim(names[j]))
      {
        var key := Lower(Trim(names[i]));
        if key == [] { continue; }
        Add(key);
      }
    }

    /** A header passes exactly when every entry describing it is one the matcher misses. */
    method ShouldForward(name: string) returns (r: bool)
      requires Valid()
      ensures r <==> Missed(Entries(), Lower(name))
    {
      var lower := Lower(name);
      LiteralMatchesItself(exact, lower);
      if lower in exact {
        assert lower in Entries();
        return false;
      }
      for i := 0 to |globs|
        invariant forall j :: 0 <= j < i ==> !(Matches(globs[j], lower) && !Shadowed(globs[j], lower))
      {
        var m := GlobMatch(globs[i], lower);
        if m {
          assert globs[i] in Entries();
          return false;
        }
      }
      return true;
    }
  }

  lemma LiteralMatchesItself(exact: set<string>, name: string)
    requires forall e :: e in exact ==> '*' !in e
    ensures forall e :: e in exact ==> (Matches(e, name) <==> e == name) && !Shadowed(e, name)
  {
    forall e | e in exact
      ensures (Matches(e, name) <==> e == name) && !Shadowed(e, name)
    {
      NoStarNoSplit(e);
      SplitMatches(e, name);
    }
  }

  /** When every entry is a literal or ends in a star, exactly the undenied headers pass. */
  lemma PrefixPoliciesAreExact(entries: set<string>, name: string)
    requires forall e :: e in entries ==> EndsWithStar(e) || '*' !in e
    ensures Missed(entries, name) <==> !Denies(entries, name)
  {
    forall e | e in entries
      ensures !(Matches(e, name) && Shadowed(e, name))
    {
      CompleteWhen(e, name);
    }
  }

  const DEFAULT_REQUEST_DENY: seq<string> := [
    "authorization", "proxy-authorization", "x-api-key", "x-goog-api-key", "anthropic-version",
    "cookie", "host", "content-length", "content-type", "content-encoding", "accept-encoding",
    "connection", "keep-alive", "proxy-connection", "te", "trailer", "transfer-encoding",
    "upgrade", "sec-websocket-*", "traceparent", "tracestate", "expect"
  ]

  /** The built-in request list is of that kind: it blocks every header it names. */
  lemma DefaultRequestPolicyIsExact(name: string)
    ensures Missed(Elements(DEFAULT_REQUEST_DENY), name) <==> !Denies(Elements(DEFAULT_REQUEST_DENY), name)
  {
    var all := DEFAULT_REQUEST_DENY;
    forall i | 0 <= i < |all|
      ensures EndsWithStar(all[i]) || '*' !in all[i]
    {
    }
    PrefixPoliciesAreExact(Elements(DEFAULT_REQUEST_DENY), name);
  }

  const REQUEST_ID_ENTRY: string := ['*'] + REQUEST_ID
  const REQUESTID_ENTRY: string := ['*'] + "requestid"

  const RESPONSE_DENY_FRONT: seq<string> := [
    "connection", "keep-alive", "proxy-connection", "te", "trailer", "transfer-encoding", "upgrade",
    "sec-websocket-*", "content-length", "content-encoding", "content-type", "date"
  ]

  const RESPONSE_DENY_BACK: seq<string> := [
    "server", "via", "nel", "cf-*", "eo-*", "report-to", "access-control-*", "strict-transport-security", "*trace*",
    "vary"
  ]

  const DEFAULT_RESPONSE_DENY: seq<string> :=
    RESPONSE_DENY_FRONT + [REQUEST_ID_ENTRY, REQUESTID_ENTRY] + RESPONSE_DENY_BACK

  /** The name ends in `tail`, and `tail` also ends earlier in it. */
  ghost predicate Repeats(name: string, tail: string) {
    IsSuffix(tail, name) && exists k :: 0 <= k && k + |tail| < |name| && OccursAt(name, tail, k)
  }

  /** A suffix entry describes the names with that suffix and misses those that repeat it. */
  lemma SuffixEntry(tail: string, name: string)
    requires tail != [] && '*' !in tail
    ensures Matches(['*'] + tail, name) <==> IsSuffix(tail, name)
    ensures Matches(['*'] + tail, name) && Shadowed(['*'] + tail, name) <==> Repeats(name, tail)
  {
    var pattern := ['*'] + tail;
    assert pattern[1..] == tail;
    NoStarNoSplit(tail);
    var parts := Split(pattern);
    assert parts == [[], tail] && Init(parts)[1..] == [] && name[0..] == name;
    assert PlaceAll(Init(parts), name) == Some(name);
    MatchesByPlacement(pattern, name);
  }

  lemma FrontIsExact(name: string)
    ensures forall e :: e in RESPONSE_DENY_FRONT ==> !(Matches(e, name) && Shadowed(e, name))
  {
    var all := RESPONSE_DENY_FRONT;
    forall i | 0 <= i < |all|
      ensures EndsWithStar(all[i]) || '*' !in all[i]
    {
    }
    forall e | e in all
      ensures !(Matches(e, name) && Shadowed(e, name))
    {
      CompleteWhen(e, name);
    }
  }

  lemma BackIsExact(name: string)
    ensures forall e :: e in RESPONSE_DENY_BACK ==> !(Matches(e, name) && Shadowed(e, name))
  {
    var all := RESPONSE_DENY_BACK;
    forall i | 0 <= i < |all|
      ensures EndsWithStar(all[i]) || '*' !in all[i]
    {
    }
    forall e | e in all
      ensures !(Matches(e, name) && Shadowed(e, name))
    {
      CompleteWhen(e, name);
    }
  }

  /** Among exact entries, two that never describe the same name. */
  lemma TwoEntriesMiss(others: set<string>, a: string, b: string, name: string)
    requires forall e :: e in others ==> !(Matches(e, name) && Shadowed(e, name))
    requires !(Matches(a, name) && Matches(b, name))
    ensures Missed(others + {a, b}, name) && Denies(others + {a, b}, name) <==>
            && !Denies(others, name)
            && ((Matches(a, name) && Shadowed(a, name)) || (Matches(b, name) && Shadowed(b, name)))
  {
    var entries := others + {a, b};
    assert a in entries && b in entries;
  }

  lemma OneSuffixOnly(name: string)
    ensures !(IsSuffix(REQUEST_ID, name) && IsSuffix("requestid", name))
  {
    assert REQUEST_ID[7] == '-' && "requestid"[6] == 't';
    SuffixAt(REQUEST_ID, name, 7);
    SuffixAt("requestid", name, 6);
  }

  lemma SuffixAt(tail: string, name: string, i: nat)
    requires i < |tail|
    ensures IsSuffix(tail, name) ==> name[|name| - |tail| + i] == tail[i]
  {
    if IsSuffix(tail, name) { assert name[|name| - |tail|..][i] == tail[i]; }
  }

  /**
   The built-in response list names a header and lets it pass exactly when no other
   entry names it and it repeats `request-id` or `requestid`.
   */
  lemma DefaultResponsePolicyMisses(name: string)
    ensures var entries, others := Elements(DEFAULT_RESPONSE_DENY), Elements(RESPONSE_DENY_FRONT + RESPONSE_DENY_BACK);
            Missed(entries, name) && Denies(entries, name) <==>
            !Denies(others, name) && (Repeats(name, REQUEST_ID) || Repeats(name, "requestid"))
  {
    FrontIsExact(name);
    BackIsExact(name);
    SuffixEntry(REQUEST_ID, name);
    SuffixEntry("requestid", name);
    OneSuffixOnly(name);
    var others := Elements(RESPONSE_DENY_FRONT + RESPONSE_DENY_BACK);
    TwoEntriesMiss(others, REQUEST_ID_ENTRY, REQUESTID_ENTRY, name);
    TwoInTheMiddle(RESPONSE_DENY_FRONT, REQUEST_ID_ENTRY, REQUESTID_ENTRY, RESPONSE_DENY_BACK);
  }

  lemma TwoInTheMiddle(front: seq<string>, a: string, b: string, back: seq<string>)
    ensures Elements(front + [a, b] + back) == Elements(front + back) + {a, b}
  {
  }
}
