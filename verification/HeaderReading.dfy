/**
 The header policies said without patterns: which headers the built-in lists
 block, name by name, and what case and blanks mean to a policy.
 */
module HeaderReading {
  import opened Sequences
  import opened Whitespace
  import opened HeaderForward

  // ---------------------------------------------------------------------
  // Case
  // ---------------------------------------------------------------------

  const UPPER_CASE: string := "ABCDEFGHIJKLMNOPQRSTUVWXYZ"
  const LOWER_CASE: string := "abcdefghijklmnopqrstuvwxyz"

  lemma LetterIs(i: nat)
    requires i < 26
    ensures UPPER_CASE[i] as int == 65 + i && LOWER_CASE[i] as int == 97 + i
  {
  }

  /** Every letter of the one alphabet becomes that of the other. */
  lemma LettersAreLowered(i: nat)
    requires i < 26
    ensures LowerChar(UPPER_CASE[i]) == LowerChar(LOWER_CASE[i]) == LOWER_CASE[i]
  {
    LetterIs(i);
  }

  /** And nothing else changes. */
  lemma OthersStay(c: char)
    ensures c in UPPER_CASE || LowerChar(c) == c
  {
    if 'A' <= c <= 'Z' {
      var i := c as int - 65;
      LetterIs(i);
      assert UPPER_CASE[i] == c;
    }
  }

  /** The same character, or the same letter in another case. */
  predicate SameLetter(c: char, d: char) {
    c == d || exists i :: 0 <= i < 26 && IsCaseOf(c, i) && IsCaseOf(d, i)
  }

  predicate IsCaseOf(c: char, i: nat)
    requires i < 26
  {
    c == UPPER_CASE[i] || c == LOWER_CASE[i]
  }

  predicate SameButForCase(a: string, b: string) {
    |a| == |b| && forall k :: 0 <= k < |a| ==> SameLetter(a[k], b[k])
  }

  lemma CasesAreLoweredAlike(c: char, i: nat)
    requires i < 26 && IsCaseOf(c, i)
    ensures LowerChar(c) == LOWER_CASE[i]
  {
    LettersAreLowered(i);
  }

  lemma LoweredAlikeAreCases(c: char, d: char)
    requires c != d && LowerChar(c) == LowerChar(d)
    ensures SameLetter(c, d)
  {
    var i := LowerChar(c) as int - 97;
    LetterIs(i);
    assert IsCaseOf(c, i) && IsCaseOf(d, i);
  }

  lemma SameLetterIs(c: char, d: char)
    ensures SameLetter(c, d) <==> LowerChar(c) == LowerChar(d)
  {
    if i :| 0 <= i < 26 && IsCaseOf(c, i) && IsCaseOf(d, i) {
      CasesAreLoweredAlike(c, i);
      CasesAreLoweredAlike(d, i);
    }
    if c != d && LowerChar(c) == LowerChar(d) { LoweredAlikeAreCases(c, d); }
  }

  /** Two names are one to a policy exactly when they differ in the case of letters only. */
  lemma CaseIsIgnored(a: string, b: string)
    ensures Lower(a) == Lower(b) <==> SameButForCase(a, b)
  {
    if Lower(a) == Lower(b) {
      assert |a| == |Lower(a)| == |b|;
      forall k | 0 <= k < |a|
        ensures SameLetter(a[k], b[k])
      {
        assert Lower(a)[k] == Lower(b)[k];
        SameLetterIs(a[k], b[k]);
      }
    }
    if SameButForCase(a, b) {
      forall k | 0 <= k < |a|
        ensures LowerChar(a[k]) == LowerChar(b[k])
      {
        SameLetterIs(a[k], b[k]);
      }
    }
  }

  /** A name without capitals stays. */
  lemma LowerCaseStays(s: string)
    requires forall k :: 0 <= k < |s| ==> s[k] !in UPPER_CASE
    ensures Lower(s) == s
  {
    forall k | 0 <= k < |s|
      ensures LowerChar(s[k]) == s[k]
    {
      OthersStay(s[k]);
    }
  }

  // ---------------------------------------------------------------------
  // Blanks
  // ---------------------------------------------------------------------

  predicate IsBlank(s: string) { forall k :: 0 <= k < |s| ==> IsWhitespace(s[k]) }

  lemma {:induction false} StartIs(s: string) returns (before: string)
    ensures IsBlank(before) && s == before + TrimStart(s)
    ensures TrimStart(s) != "" ==> !IsWhitespace(TrimStart(s)[0])
  {
    if s != [] && IsWhitespace(s[0]) {
      var more := StartIs(s[1..]);
      before := [s[0]] + more;
      Associative([s[0]], more, TrimStart(s));
      assert s == [s[0]] + s[1..];
    } else {
      before := "";
    }
  }

  lemma {:induction false} EndIs(s: string) returns (behind: string)
    ensures IsBlank(behind) && s == TrimEnd(s) + behind
    ensures TrimEnd(s) != "" ==> !IsWhitespace(TrimEnd(s)[|TrimEnd(s)| - 1])
  {
    var n := |s| - 1;
    if s != [] && IsWhitespace(s[n]) {
      var more := EndIs(s[..n]);
      behind := more + [s[n]];
      Associative(TrimEnd(s), more, [s[n]]);
      assert s == s[..n] + [s[n]];
    } else {
      behind := "";
    }
  }

  /** Trimming takes white space off both ends, and all of it. */
  lemma TrimIs(s: string) returns (before: string, behind: string)
    ensures IsBlank(before) && IsBlank(behind) && s == before + Trim(s) + behind
    ensures Trim(s) != "" ==> !IsWhitespace(Trim(s)[0]) && !IsWhitespace(Trim(s)[|Trim(s)| - 1])
  {
    before := StartIs(s);
    behind := EndIs(TrimStart(s));
  }

  /** White space: tab to carriage return, the blank, and the separators of Unicode. */
  lemma WhitespaceIs(c: char)
    ensures IsWhitespace(c) <==>
            || c in {'\t', '\n', '\U{0B}', '\U{0C}', '\r', ' ', '\U{85}', '\U{A0}', '\U{1680}'}
            || c in {'\U{2000}', '\U{2001}', '\U{2002}', '\U{2003}', '\U{2004}', '\U{2005}', '\U{2006}', '\U{2007}'}
            || c in {'\U{2008}', '\U{2009}', '\U{200A}', '\U{2028}', '\U{2029}', '\U{202F}', '\U{205F}', '\U{3000}'}
  {
  }

  // ---------------------------------------------------------------------
  // The built-in lists
  // ---------------------------------------------------------------------

  predicate OccursIn(s: string, part: string) { exists k :: 0 <= k <= |s| && OccursAt(s, part, k) }

  lemma LiteralEntry(entry: string, name: string)
    requires '*' !in entry
    ensures Matches(entry, name) <==> name == entry
  {
    LiteralMatchesItself({entry}, name);
    assert entry in {entry};
  }

  lemma {:induction false} AnythingMatchesStar(name: string)
    ensures Matches("*", name)
  {
    assert "*"[1..] == "";
    assert Matches("", name[|name|..]);
  }

  /** An entry with a star at the end describes the names that begin so. */
  lemma {:induction false} PrefixEntry(head: string, name: string)
    requires '*' !in head
    ensures Matches(head + "*", name) <==> IsPrefix(head, name)
  {
    if head == "" {
      assert head + "*" == "*";
      AnythingMatchesStar(name);
    } else {
      assert (head + "*")[1..] == head[1..] + "*";
      if name != "" { PrefixEntry(head[1..], name[1..]); }
    }
  }

  /** An entry with stars at both ends describes the names it occurs in. */
  lemma InnerEntry(part: string, name: string)
    requires '*' !in part
    ensures Matches("*" + part + "*", name) <==> OccursIn(name, part)
  {
    assert ("*" + part + "*")[1..] == part + "*";
    forall k | 0 <= k <= |name|
      ensures Matches(part + "*", name[k..]) <==> OccursAt(name, part, k)
    {
      PrefixEntry(part, name[k..]);
      assert k + |part| <= |name| ==> name[k..][..|part|] == name[k..k + |part|];
    }
  }

  predicate IsCredential(name: string) {
    || name == "authorization" || name == "proxy-authorization" || name == "x-api-key" || name == "x-goog-api-key"
    || name == "anthropic-version" || name == "cookie"
  }

  predicate IsRecomputed(name: string) {
    || name == "host" || name == "content-length" || name == "content-type" || name == "content-encoding"
    || name == "accept-encoding" || name == "expect"
  }

  predicate IsConnection(name: string) {
    || name == "connection" || name == "keep-alive" || name == "proxy-connection" || name == "te" || name == "trailer"
    || name == "transfer-encoding" || name == "upgrade"
  }

  predicate IsHopByHop(name: string) { IsConnection(name) || IsPrefix("sec-websocket-", name) }

  predicate IsTraceContext(name: string) { name == "traceparent" || name == "tracestate" }

  predicate IsSetByTheGateway(name: string) {
    name == "content-length" || name == "content-encoding" || name == "content-type" || name == "date"
  }

  predicate IsAboutTheOrigin(name: string) {
    || name == "server" || name == "via" || name == "nel" || name == "report-to" || name == "strict-transport-security"
    || name == "vary"
  }

  predicate BeginsBlocked(name: string) {
    IsPrefix("cf-", name) || IsPrefix("eo-", name) || IsPrefix("access-control-", name)
  }

  /** Some entry of the list describes the name. */
  ghost predicate Listed(entries: seq<string>, name: string) {
    exists i :: 0 <= i < |entries| && Matches(entries[i], name)
  }

  lemma DeniesIsListed(entries: seq<string>, name: string)
    ensures Denies(Elements(entries), name) <==> Listed(entries, name)
  {
    if i :| 0 <= i < |entries| && Matches(entries[i], name) { assert entries[i] in Elements(entries); }
  }

  lemma {:induction false} ListedConcat(a: seq<string>, b: seq<string>, name: string)
    ensures Listed(a + b, name) <==> Listed(a, name) || Listed(b, name)
  {
    if i :| 0 <= i < |a| && Matches(a[i], name) { assert (a + b)[i] == a[i]; }
    if i :| 0 <= i < |b| && Matches(b[i], name) { assert (a + b)[|a| + i] == b[i]; }
  }

  lemma SocketEntry(name: string)
    ensures Matches("sec-websocket-*", name) <==> IsPrefix("sec-websocket-", name)
  {
    assert "sec-websocket-*" == "sec-websocket-" + "*";
    PrefixEntry("sec-websocket-", name);
  }

  lemma LiteralRequestEntries(name: string, i: nat)
    requires i < |DEFAULT_REQUEST_DENY| && i != 18
    ensures Matches(DEFAULT_REQUEST_DENY[i], name) <==> name == DEFAULT_REQUEST_DENY[i]
  {
    assert '*' !in DEFAULT_REQUEST_DENY[i];
    LiteralEntry(DEFAULT_REQUEST_DENY[i], name);
  }

  /** The entry of this number is the name. */
  predicate NamedAt(entries: seq<string>, i: nat, name: string) { i < |entries| && entries[i] == name }

  lemma CredentialsAreListed(name: string)
    requires IsCredential(name)
    ensures exists i :: 0 <= i < 6 && NamedAt(DEFAULT_REQUEST_DENY, i, name)
  {
    var all := DEFAULT_REQUEST_DENY;
    assert all[0] == "authorization" && all[1] == "proxy-authorization" && all[2] == "x-api-key";
    assert all[3] == "x-goog-api-key" && all[4] == "anthropic-version" && all[5] == "cookie";
    assert NamedAt(all, 0, name) || NamedAt(all, 1, name) || NamedAt(all, 2, name) || NamedAt(all, 3, name) ||
           NamedAt(all, 4, name) || NamedAt(all, 5, name);
  }

  lemma RecomputedAreListed(name: string)
    requires IsRecomputed(name)
    ensures exists i :: 6 <= i < 22 && i != 18 && NamedAt(DEFAULT_REQUEST_DENY, i, name)
  {
    var all := DEFAULT_REQUEST_DENY;
    assert all[6] == "host" && all[7] == "content-length" && all[8] == "content-type";
    assert all[9] == "content-encoding" && all[10] == "accept-encoding" && all[21] == "expect";
    assert NamedAt(all, 6, name) || NamedAt(all, 7, name) || NamedAt(all, 8, name) || NamedAt(all, 9, name) ||
           NamedAt(all, 10, name) || NamedAt(all, 21, name);
  }

  lemma ConnectionsAreListed(name: string)
    requires IsConnection(name)
    ensures exists i :: 11 <= i < 18 && NamedAt(DEFAULT_REQUEST_DENY, i, name)
  {
    var all := DEFAULT_REQUEST_DENY;
    assert all[11] == "connection" && all[12] == "keep-alive" && all[13] == "proxy-connection" && all[14] == "te";
    assert all[15] == "trailer" && all[16] == "transfer-encoding" && all[17] == "upgrade";
    assert NamedAt(all, 11, name) || NamedAt(all, 12, name) || NamedAt(all, 13, name) || NamedAt(all, 14, name) ||
           NamedAt(all, 15, name) || NamedAt(all, 16, name) || NamedAt(all, 17, name);
  }

  lemma TraceContextIsListed(name: string)
    requires IsTraceContext(name)
    ensures exists i :: 19 <= i < 21 && NamedAt(DEFAULT_REQUEST_DENY, i, name)
  {
    var all := DEFAULT_REQUEST_DENY;
    assert all[19] == "traceparent" && all[20] == "tracestate";
    assert NamedAt(all, 19, name) || NamedAt(all, 20, name);
  }

  lemma ListedAreKnown(name: string, i: nat)
    requires i != 18 && NamedAt(DEFAULT_REQUEST_DENY, i, name)
    ensures IsCredential(name) || IsRecomputed(name) || IsTraceContext(name) || IsConnection(name)
  {
    var all := DEFAULT_REQUEST_DENY;
    if i < 11 {
      assert all[0] == "authorization" && all[1] == "proxy-authorization" && all[2] == "x-api-key";
      assert all[3] == "x-goog-api-key" && all[4] == "anthropic-version" && all[5] == "cookie" && all[6] == "host";
      assert all[7] == "content-length" && all[8] == "content-type" && all[9] == "content-encoding";
      assert all[10] == "accept-encoding";
    } else {
      assert all[11] == "connection" && all[12] == "keep-alive" && all[13] == "proxy-connection" && all[14] == "te";
      assert all[15] == "trailer" && all[16] == "transfer-encoding" && all[17] == "upgrade";
      assert all[19] == "traceparent" && all[20] == "tracestate" && all[21] == "expect";
    }
  }

  lemma RequestNames(name: string)
    ensures (exists i :: 0 <= i < 22 && i != 18 && NamedAt(DEFAULT_REQUEST_DENY, i, name)) <==>
            IsCredential(name) || IsRecomputed(name) || IsTraceContext(name) || IsConnection(name)
  {
    if IsCredential(name) { CredentialsAreListed(name); }
    if IsRecomputed(name) { RecomputedAreListed(name); }
    if IsConnection(name) { ConnectionsAreListed(name); }
    if IsTraceContext(name) { TraceContextIsListed(name); }
    if i :| 0 <= i < 22 && i != 18 && NamedAt(DEFAULT_REQUEST_DENY, i, name) { ListedAreKnown(name, i); }
  }

  /**
   The request list blocks credentials, what is recomputed, hop-by-hop headers and
   trace context, and nothing else.
   */
  lemma RequestHeadersBlocked(name: string)
    ensures Missed(Elements(DEFAULT_REQUEST_DENY), name) <==>
            !(IsCredential(name) || IsRecomputed(name) || IsHopByHop(name) || IsTraceContext(name))
  {
    var all := DEFAULT_REQUEST_DENY;
    DefaultRequestPolicyIsExact(name);
    DeniesIsListed(all, name);
    SocketEntry(name);
    forall i | 0 <= i < |all| && i != 18
      ensures Matches(all[i], name) <==> NamedAt(all, i, name)
    {
      LiteralRequestEntries(name, i);
    }
    RequestNames(name);
    assert all[18] == "sec-websocket-*";
  }

  // ---------------------------------------------------------------------
  // The built-in response list
  // ---------------------------------------------------------------------

  lemma LiteralFrontEntries(name: string, i: nat)
    requires i < |RESPONSE_DENY_FRONT| && i != 7
    ensures Matches(RESPONSE_DENY_FRONT[i], name) <==> name == RESPONSE_DENY_FRONT[i]
  {
    assert '*' !in RESPONSE_DENY_FRONT[i];
    LiteralEntry(RESPONSE_DENY_FRONT[i], name);
  }

  lemma FrontNames(name: string)
    ensures (exists i :: 0 <= i < 12 && i != 7 && NamedAt(RESPONSE_DENY_FRONT, i, name)) <==>
            IsConnection(name) || IsSetByTheGateway(name)
  {
    var all := RESPONSE_DENY_FRONT;
    assert all[0] == "connection" && all[1] == "keep-alive" && all[2] == "proxy-connection" && all[3] == "te";
    assert all[4] == "trailer" && all[5] == "transfer-encoding" && all[6] == "upgrade";
    assert all[8] == "content-length" && all[9] == "content-encoding" && all[10] == "content-type" && all[11] == "date";
    if IsConnection(name) {
      assert NamedAt(all, 0, name) || NamedAt(all, 1, name) || NamedAt(all, 2, name) || NamedAt(all, 3, name) ||
             NamedAt(all, 4, name) || NamedAt(all, 5, name) || NamedAt(all, 6, name);
    }
    if IsSetByTheGateway(name) {
      assert NamedAt(all, 8, name) || NamedAt(all, 9, name) || NamedAt(all, 10, name) || NamedAt(all, 11, name);
    }
  }

  lemma FrontBlocks(name: string)
    ensures Denies(Elements(RESPONSE_DENY_FRONT), name) <==> IsHopByHop(name) || IsSetByTheGateway(name)
  {
    var all := RESPONSE_DENY_FRONT;
    DeniesIsListed(all, name);
    SocketEntry(name);
    forall i | 0 <= i < |all| && i != 7
      ensures Matches(all[i], name) <==> NamedAt(all, i, name)
    {
      LiteralFrontEntries(name, i);
    }
    FrontNames(name);
    assert all[7] == "sec-websocket-*";
  }

  predicate IsGlobOfBack(i: nat) { i == 3 || i == 4 || i == 6 || i == 8 }

  lemma LiteralBackEntries(name: string, i: nat)
    requires i < |RESPONSE_DENY_BACK| && !IsGlobOfBack(i)
    ensures Matches(RESPONSE_DENY_BACK[i], name) <==> name == RESPONSE_DENY_BACK[i]
  {
    assert '*' !in RESPONSE_DENY_BACK[i];
    LiteralEntry(RESPONSE_DENY_BACK[i], name);
  }

  lemma BackNames(name: string)
    ensures (exists i :: 0 <= i < 10 && !IsGlobOfBack(i) && NamedAt(RESPONSE_DENY_BACK, i, name)) <==>
            IsAboutTheOrigin(name)
  {
    var all := RESPONSE_DENY_BACK;
    assert all[0] == "server" && all[1] == "via" && all[2] == "nel" && all[5] == "report-to";
    assert all[7] == "strict-transport-security" && all[9] == "vary";
    if IsAboutTheOrigin(name) {
      assert NamedAt(all, 0, name) || NamedAt(all, 1, name) || NamedAt(all, 2, name) || NamedAt(all, 5, name) ||
             NamedAt(all, 7, name) || NamedAt(all, 9, name);
    }
  }

  lemma BackGlobs(name: string)
    ensures (exists i :: 0 <= i < 10 && IsGlobOfBack(i) && Matches(RESPONSE_DENY_BACK[i], name)) <==>
            BeginsBlocked(name) || OccursIn(name, "trace")
  {
    var all := RESPONSE_DENY_BACK;
    assert all[3] == "cf-" + "*" && all[4] == "eo-" + "*" && all[6] == "access-control-" + "*";
    assert all[8] == "*" + "trace" + "*";
    PrefixEntry("cf-", name);
    PrefixEntry("eo-", name);
    PrefixEntry("access-control-", name);
    InnerEntry("trace", name);
    assert IsGlobOfBack(3) && IsGlobOfBack(4) && IsGlobOfBack(6) && IsGlobOfBack(8);
  }

  lemma BackBlocks(name: string)
    ensures Denies(Elements(RESPONSE_DENY_BACK), name) <==>
            IsAboutTheOrigin(name) || BeginsBlocked(name) || OccursIn(name, "trace")
  {
    var all := RESPONSE_DENY_BACK;
    DeniesIsListed(all, name);
    forall i | 0 <= i < |all| && !IsGlobOfBack(i)
      ensures Matches(all[i], name) <==> NamedAt(all, i, name)
    {
      LiteralBackEntries(name, i);
    }
    BackNames(name);
    BackGlobs(name);
  }

  /** Names that end so but do not repeat it. */
  ghost predicate EndsOnce(name: string, tail: string) { IsSuffix(tail, name) && !Repeats(name, tail) }

  lemma OthersBlock(name: string)
    ensures Denies(Elements(RESPONSE_DENY_FRONT + RESPONSE_DENY_BACK), name) <==>
            || IsHopByHop(name) || IsSetByTheGateway(name) || IsAboutTheOrigin(name) || BeginsBlocked(name)
            || OccursIn(name, "trace")
  {
    DeniesIsListed(RESPONSE_DENY_FRONT + RESPONSE_DENY_BACK, name);
    ListedConcat(RESPONSE_DENY_FRONT, RESPONSE_DENY_BACK, name);
    DeniesIsListed(RESPONSE_DENY_FRONT, name);
    DeniesIsListed(RESPONSE_DENY_BACK, name);
    FrontBlocks(name);
    BackBlocks(name);
  }

  /**
   The response list blocks hop-by-hop headers, what the gateway sets, what tells of
   the origin, tracing, and the request ids that do not repeat their ending, and
   nothing else.
   */
  lemma ResponseHeadersBlocked(name: string)
    ensures Missed(Elements(DEFAULT_RESPONSE_DENY), name) <==>
            !(|| IsHopByHop(name) || IsSetByTheGateway(name) || IsAboutTheOrigin(name) || BeginsBlocked(name)
              || OccursIn(name, "trace") || EndsOnce(name, "request-id") || EndsOnce(name, "requestid"))
  {
    var others := Elements(RESPONSE_DENY_FRONT + RESPONSE_DENY_BACK);
    OthersBlock(name);
    DefaultResponsePolicyMisses(name);
    OneSuffixOnly(name);
    SuffixEntry(REQUEST_ID, name);
    SuffixEntry("requestid", name);
    TwoInTheMiddle(RESPONSE_DENY_FRONT, REQUEST_ID_ENTRY, REQUESTID_ENTRY, RESPONSE_DENY_BACK);
    assert Elements(DEFAULT_RESPONSE_DENY) == others + {REQUEST_ID_ENTRY, REQUESTID_ENTRY};
    DeniesOfUnion(others, REQUEST_ID_ENTRY, REQUESTID_ENTRY, name);
  }

  lemma DeniesOfUnion(others: set<string>, a: string, b: string, name: string)
    ensures Denies(others + {a, b}, name) <==> Denies(others, name) || Matches(a, name) || Matches(b, name)
    ensures !Denies(others + {a, b}, name) ==> Missed(others + {a, b}, name)
  {
    assert a in others + {a, b} && b in others + {a, b};
  }

  predicate IsLowerCase(s: string) { forall k :: 0 <= k < |s| ==> !('A' <= s[k] <= 'Z') }

  lemma FirstRequestEntriesAreLowerCase(i: nat)
    requires i < 11
    ensures IsLowerCase(DEFAULT_REQUEST_DENY[i])
  {
  }

  lemma LastRequestEntriesAreLowerCase(i: nat)
    requires 11 <= i < |DEFAULT_REQUEST_DENY|
    ensures IsLowerCase(DEFAULT_REQUEST_DENY[i])
  {
  }

  lemma FrontEntriesAreLowerCase(i: nat)
    requires i < |RESPONSE_DENY_FRONT|
    ensures IsLowerCase(RESPONSE_DENY_FRONT[i])
  {
  }

  lemma BackEntriesAreLowerCase(i: nat)
    requires i < |RESPONSE_DENY_BACK|
    ensures IsLowerCase(RESPONSE_DENY_BACK[i])
  {
  }

  lemma RequestIdEntriesAreLowerCase()
    ensures IsLowerCase(REQUEST_ID_ENTRY) && IsLowerCase(REQUESTID_ENTRY)
  {
    var name := "requestid";
    assert REQUEST_ID_ENTRY == "*" + REQUEST_ID && REQUESTID_ENTRY == "*" + name;
    assert IsLowerCase(REQUEST_ID) && IsLowerCase(name);
  }

  lemma RequestEntriesAreLowerCase(i: nat)
    requires i < |DEFAULT_REQUEST_DENY|
    ensures IsLowerCase(DEFAULT_REQUEST_DENY[i])
  {
    if i < 11 { FirstRequestEntriesAreLowerCase(i); } else { LastRequestEntriesAreLowerCase(i); }
  }

  lemma ResponseEntriesAreLowerCase(i: nat)
    requires i < |DEFAULT_RESPONSE_DENY|
    ensures IsLowerCase(DEFAULT_RESPONSE_DENY[i])
  {
    var n := |RESPONSE_DENY_FRONT|;
    if i < n {
      FrontEntriesAreLowerCase(i);
    } else if i >= n + 2 {
      BackEntriesAreLowerCase(i - n - 2);
    } else {
      RequestIdEntriesAreLowerCase();
    }
  }

  lemma LoweredLists(entries: seq<string>)
    requires forall i :: 0 <= i < |entries| ==> IsLowerCase(entries[i])
    ensures (set i | 0 <= i < |entries| :: Lower(entries[i])) == Elements(entries)
  {
    forall i | 0 <= i < |entries|
      ensures Lower(entries[i]) == entries[i]
    {
      assert IsLowerCase(entries[i]);
    }
  }

  /** A new policy with the built-in lists decides on each header as said above, whatever its case. */
  method DefaultPolicies(requestName: string, responseName: string) returns (request: bool, response: bool)
    ensures var name := Lower(requestName);
            request <==> !(IsCredential(name) || IsRecomputed(name) || IsHopByHop(name) || IsTraceContext(name))
    ensures var name := Lower(responseName);
            response <==>
            !(|| IsHopByHop(name) || IsSetByTheGateway(name) || IsAboutTheOrigin(name) || BeginsBlocked(name)
              || OccursIn(name, "trace") || EndsOnce(name, "request-id") || EndsOnce(name, "requestid"))
  {
    var requestDeny := new DenyList();
    var responseDeny := new DenyList();
    requestDeny.AddDefaults(DEFAULT_REQUEST_DENY);
    responseDeny.AddDefaults(DEFAULT_RESPONSE_DENY);
    forall i | 0 <= i < |DEFAULT_REQUEST_DENY|
      ensures IsLowerCase(DEFAULT_REQUEST_DENY[i])
    {
      RequestEntriesAreLowerCase(i);
    }
    forall i | 0 <= i < |DEFAULT_RESPONSE_DENY|
      ensures IsLowerCase(DEFAULT_RESPONSE_DENY[i])
    {
      ResponseEntriesAreLowerCase(i);
    }
    LoweredLists(DEFAULT_REQUEST_DENY);
    LoweredLists(DEFAULT_RESPONSE_DENY);
    request := requestDeny.ShouldForward(requestName);
    response := responseDeny.ShouldForward(responseName);
    RequestHeadersBlocked(Lower(requestName));
    ResponseHeadersBlocked(Lower(responseName));
  }
}
