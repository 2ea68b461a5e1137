/**
 Trace context headers (W3C Trace Context, section 3.2) and the generator of
 trace ids, which counts up a random 128-bit value held as big-endian bytes.
 */
module TraceContext {
  import opened Utf8
  import opened Wrappers

  // ---------------------------------------------------------------------
  // Hexadecimal
  // ---------------------------------------------------------------------

  const HEX: string := "0123456789abcdef"

  /** The two digits of each byte. */
  function Hex(bytes: seq<byte>): (s: string)
    ensures |s| == 2 * |bytes|
  {
    if bytes == [] then []
    else Hex(bytes[..|bytes| - 1]) + [HEX[bytes[|bytes| - 1] / 0x10], HEX[bytes[|bytes| - 1] % 0x10]]
  }

  method HexLower(bytes: seq<byte>) returns (s: string)
    ensures s == Hex(bytes)
  {
    s := "";
    for i := 0 to |bytes|
      invariant s == Hex(bytes[..i])
    {
      assert bytes[..i + 1][..i] == bytes[..i];
      s := s + [HEX[bytes[i] / 0x10]];
      s := s + [HEX[bytes[i] % 0x10]];
    }
    assert bytes[..|bytes|] == bytes;
  }

  predicate IsLowerHexDigit(c: char) { '0' <= c <= '9' || 'a' <= c <= 'f' }

  predicate IsLowerHex(s: string) { forall i :: 0 <= i < |s| ==> IsLowerHexDigit(s[i]) }

  lemma DigitsAreTold(d: nat, d': nat)
    requires d < 0x10 && d' < 0x10
    ensures HEX[d] == HEX[d'] ==> d == d'
    ensures IsLowerHexDigit(HEX[d])
  {
  }

  lemma {:induction false} HexIsLowerHex(bytes: seq<byte>)
    ensures IsLowerHex(Hex(bytes))
  {
    if bytes != [] {
      var last := bytes[|bytes| - 1];
      HexIsLowerHex(bytes[..|bytes| - 1]);
      DigitsAreTold(last / 0x10, last % 0x10);
      DigitsAreTold(last % 0x10, last % 0x10);
    }
  }

  lemma ByteIsTold(a: byte, b: byte)
    requires HEX[a / 0x10] == HEX[b / 0x10] && HEX[a % 0x10] == HEX[b % 0x10]
    ensures a == b
  {
    DigitsAreTold(a / 0x10, b / 0x10);
    DigitsAreTold(a % 0x10, b % 0x10);
  }

  /** What ends the text is the last byte. */
  lemma HexSplits(bytes: seq<byte>, n: nat)
    requires |bytes| == n + 1
    ensures Hex(bytes)[..2 * n] == Hex(bytes[..n])
    ensures Hex(bytes)[2 * n] == HEX[bytes[n] / 0x10] && Hex(bytes)[2 * n + 1] == HEX[bytes[n] % 0x10]
  {
  }

  lemma {:induction false} HexInjective(a: seq<byte>, b: seq<byte>)
    requires Hex(a) == Hex(b)
    ensures a == b
  {
    assert |a| == |b|;
    if a != [] {
      var n := |a| - 1;
      HexSplits(a, n);
      HexSplits(b, n);
      HexInjective(a[..n], b[..n]);
      ByteIsTold(a[n], b[n]);
      assert a == a[..n] + [a[n]] && b == b[..n] + [b[n]];
    }
  }

  // ---------------------------------------------------------------------
  // The generator
  // ---------------------------------------------------------------------

  /** The bytes as a big-endian number. */
  function Value(bytes: seq<byte>): nat {
    if bytes == [] then 0 else 0x100 * Value(bytes[..|bytes| - 1]) + bytes[|bytes| - 1]
  }

  /** How many values `n` bytes can hold. */
  function Capacity(n: nat): nat { if n == 0 then 1 else 0x100 * Capacity(n - 1) }

  lemma {:induction false} ValueFits(bytes: seq<byte>)
    ensures Value(bytes) < Capacity(|bytes|)
  {
    if bytes != [] { ValueFits(bytes[..|bytes| - 1]); }
  }

  /** Adding one from the last byte on, with carry; all bytes full wrap to zero. */
  function Bumped(bytes: seq<byte>): (r: seq<byte>)
    ensures |r| == |bytes|
  {
    if bytes == [] then []
    else
      var n := |bytes| - 1;
      if bytes[n] < 0xFF then bytes[..n] + [bytes[n] + 1] else Bumped(bytes[..n]) + [0]
  }

  lemma {:induction false} BumpedAddsOne(bytes: seq<byte>)
    ensures Value(Bumped(bytes)) == if Value(bytes) + 1 < Capacity(|bytes|) then Value(bytes) + 1 else 0
  {
    if bytes != [] {
      var n := |bytes| - 1;
      BumpedAddsOne(bytes[..n]);
      ValueFits(bytes);
      ValueFits(bytes[..n]);
      if bytes[n] < 0xFF {
        assert Bumped(bytes)[..n] == bytes[..n];
      } else {
        assert Bumped(bytes)[..n] == Bumped(bytes[..n]);
      }
    }
  }

  predicate AllZero(bytes: seq<byte>) { forall i :: 0 <= i < |bytes| ==> bytes[i] == 0 }

  lemma {:induction false} ZeroIs(bytes: seq<byte>)
    ensures AllZero(bytes) <==> Value(bytes) == 0
  {
    if bytes != [] {
      var n := |bytes| - 1;
      ZeroIs(bytes[..n]);
      assert bytes == bytes[..n] + [bytes[n]];
    }
  }

  /** The bytes behind the next id, given what the random source would supply. */
  function NextBytes(initialized: bool, last: seq<byte>, random: seq<byte>): seq<byte> {
    if initialized && Value(last) + 1 < Capacity(|last|) then Bumped(last) else random
  }

  class TraceIdGenerator {
    const lastRandomBytes: array<byte>
    var initialized: bool

    ghost predicate Valid()
      reads this
    {
      lastRandomBytes.Length == 16
    }

    constructor ()
      ensures Valid() && !initialized && fresh(lastRandomBytes)
    {
      lastRandomBytes := new byte[16](_ => 0);
      initialized := false;
    }

    /** The carry loop; true when every byte was full. */
    method Bump() returns (wrapped: bool)
      requires Valid()
      modifies lastRandomBytes
      ensures lastRandomBytes[..] == Bumped(old(lastRandomBytes[..]))
      ensures wrapped <==> Value(old(lastRandomBytes[..])) + 1 >= Capacity(16)
    {
      ghost var was := lastRandomBytes[..];
      assert was[..16] == was && lastRandomBytes[16..] == [] && Bumped(was) + [] == Bumped(was);
      wrapped := true;
      var i := 16;
      while i > 0 && wrapped
        invariant 0 <= i <= 16
        invariant wrapped ==> lastRandomBytes[..i] == was[..i] && lastRandomBytes[..] == was[..i] + lastRandomBytes[i..]
        invariant wrapped ==> Bumped(was) == Bumped(was[..i]) + lastRandomBytes[i..] && AllZero(lastRandomBytes[i..])
        invariant !wrapped ==> lastRandomBytes[..] == Bumped(was) && !AllZero(lastRandomBytes[..])
      {
        i := i - 1;
        assert was[..i + 1][..i] == was[..i] && was[..i + 1][i] == was[i];
        var full := lastRandomBytes[i] == 0xFF;
        ghost var after := lastRandomBytes[i + 1..];
        lastRandomBytes[i] := if full then 0 else lastRandomBytes[i] + 1;
        assert lastRandomBytes[i..] == [lastRandomBytes[i]] + after;
        if !full {
          wrapped := false;
          assert lastRandomBytes[..] == was[..i] + [lastRandomBytes[i]] + after;
          assert lastRandomBytes[..][i] != 0;
        }
      }
      BumpedAddsOne(was);
      ZeroIs(Bumped(was));
      assert wrapped ==> lastRandomBytes[..] == lastRandomBytes[0..];
    }

    /** `random` is what the random source would supply. */
    method Next(random: seq<byte>) returns (id: string)
      requires Valid() && |random| == 16
      modifies this, lastRandomBytes
      ensures Valid() && initialized
      ensures lastRandomBytes[..] == NextBytes(old(initialized), old(lastRandomBytes[..]), random)
      ensures id == Hex(lastRandomBytes[..])
    {
      var wrapped := true;
      if initialized {
        wrapped := Bump();
      }
      if wrapped {
        forall i | 0 <= i < 16 { lastRandomBytes[i] := random[i]; }
        initialized := true;
      }
      id := HexLower(lastRandomBytes[..]);
    }
  }

  /** The bytes behind the ids of consecutive calls. */
  ghost predicate IsRun(states: seq<seq<byte>>, randoms: seq<seq<byte>>) {
    && |states| == |randoms| + 1 && |states[0]| == 16
    && forall i :: 0 <= i < |randoms| ==> |randoms[i]| == 16 && states[i + 1] == NextBytes(true, states[i], randoms[i])
  }

  lemma NextCountsUp(last: seq<byte>, random: seq<byte>)
    requires Value(last) + 1 < Capacity(|last|)
    ensures |NextBytes(true, last, random)| == |last| && Value(NextBytes(true, last, random)) == Value(last) + 1
  {
    BumpedAddsOne(last);
  }

  /** Until the counter wraps, call `k` gives the first value plus `k`. */
  lemma {:induction false} CallsCountUp(states: seq<seq<byte>>, randoms: seq<seq<byte>>, k: nat)
    requires IsRun(states, randoms) && k < |states| && Value(states[0]) + k < Capacity(16)
    ensures |states[k]| == 16 && Value(states[k]) == Value(states[0]) + k
  {
    if k > 0 {
      CallsCountUp(states, randoms, k - 1);
      NextCountsUp(states[k - 1], randoms[k - 1]);
    }
  }

  /** The ids of a run that does not wrap are pairwise distinct. */
  lemma IdsAreDistinct(states: seq<seq<byte>>, randoms: seq<seq<byte>>, i: nat, j: nat)
    requires IsRun(states, randoms) && i < j < |states| && Value(states[0]) + j < Capacity(16)
    ensures Hex(states[i]) != Hex(states[j])
  {
    CallsCountUp(states, randoms, i);
    CallsCountUp(states, randoms, j);
    if Hex(states[i]) == Hex(states[j]) { HexInjective(states[i], states[j]); }
  }

  // ---------------------------------------------------------------------
  // The header
  // ---------------------------------------------------------------------

  const TRACE_ID_LEN := 32
  const SPAN_ID_LEN := 16

  datatype Context = Context(traceId: string, parentSpanId: string, flags: byte, tracestate: Option<string>)

  function ToTraceparent(ctx: Context): string {
    "00-" + ctx.traceId + "-" + ctx.parentSpanId + "-" + Hex([ctx.flags])
  }

  /** At most `n` parts; the last one takes the rest, delimiters included. */
  function SplitN(s: string, n: nat): (parts: seq<string>)
    requires n > 0
    ensures 0 < |parts| <= n
    decreases |s|
  {
    if s == [] || n == 1 then [s]
    else if s[0] == '-' then [""] + SplitN(s[1..], n - 1)
    else
      var parts := SplitN(s[1..], n);
      [[s[0]] + parts[0]] + parts[1..]
  }

  function DigitValue(c: char): Option<nat> {
    if '0' <= c <= '9' then Some((c - '0') as nat)
    else if 'a' <= c <= 'f' then Some((c - 'a') as nat + 10)
    else if 'A' <= c <= 'F' then Some((c - 'A') as nat + 10)
    else None
  }

  /** Digit by digit, refusing whatever leaves the byte range. */
  function Accumulate(value: byte, digits: string): Option<byte>
    decreases |digits|
  {
    if digits == [] then Some(value)
    else match DigitValue(digits[0])
      case None => None
      case Some(d) => if 0x10 * value + d < 0x100 then Accumulate(0x10 * value + d, digits[1..]) else None
  }

  /** Rust's `u8::from_str_radix(_, 16)`: either case, any leading zeros, a leading plus sign. */
  function FromRadix16(s: string): Option<byte> {
    if s == [] || s == "+" || s == "-" then None
    else if s[0] == '+' then Accumulate(0, s[1..])
    else Accumulate(0, s)
  }

  function ExtractTraceparent(value: string): Option<Context> {
    var parts := SplitN(value, 4);
    if |parts| != 4 then None
    else if parts[0] != "00" then None
    else if |parts[1]| != TRACE_ID_LEN || !IsLowerHex(parts[1]) then None
    else if |parts[2]| != SPAN_ID_LEN || !IsLowerHex(parts[2]) then None
    else match FromRadix16(parts[3])
      case None => None
      case Some(flags) => Some(Context(parts[1], parts[2], flags, None))
  }

  /** What the extraction of headers gives when `tracestate` is present as well. */
  function ExtractFromHeaders(traceparent: Option<string>, tracestate: Option<string>): Option<Context> {
    match traceparent
    case None => None
    case Some(v) =>
      if v == "" then None
      else match ExtractTraceparent(v)
        case None => None
        case Some(ctx) => Some(ctx.(tracestate := tracestate))
  }

  predicate WellFormed(ctx: Context) {
    && |ctx.traceId| == TRACE_ID_LEN && IsLowerHex(ctx.traceId)
    && |ctx.parentSpanId| == SPAN_ID_LEN && IsLowerHex(ctx.parentSpanId)
  }

  lemma {:induction false} SplitOnce(a: string, b: string, n: nat)
    requires n > 1 && '-' !in a
    ensures SplitN(a + "-" + b, n) == [a] + SplitN(b, n - 1)
  {
    var s := a + "-" + b;
    if a == [] {
      assert s[0] == '-' && s[1..] == b;
    } else {
      SplitOnce(a[1..], b, n);
      assert s[0] == a[0] && s[1..] == a[1..] + "-" + b;
      assert [a[0]] + a[1..] == a;
    }
  }

  /** The parts with dashes between them. */
  function Lined(parts: seq<string>): string
    requires parts != []
  {
    if |parts| == 1 then parts[0] else parts[0] + "-" + Lined(parts[1..])
  }

  lemma {:induction false} SplitLined(parts: seq<string>)
    requires parts != [] && forall i :: 0 <= i < |parts| - 1 ==> '-' !in parts[i]
    ensures SplitN(Lined(parts), |parts|) == parts
    decreases |parts|
  {
    if |parts| > 1 {
      SplitLined(parts[1..]);
      SplitOnce(parts[0], Lined(parts[1..]), |parts|);
    }
  }

  lemma {:induction false} LinedSplit(s: string, n: nat)
    requires n > 0
    ensures Lined(SplitN(s, n)) == s
    decreases |s|
  {
    if s != [] && n > 1 {
      assert s == [s[0]] + s[1..];
      if s[0] == '-' {
        LinedSplit(s[1..], n - 1);
        assert SplitN(s, n)[1..] == SplitN(s[1..], n - 1);
      } else {
        LinedSplit(s[1..], n);
        LinedPrepend(SplitN(s[1..], n), s[0]);
      }
    }
  }

  lemma LinedPrepend(parts: seq<string>, c: char)
    requires parts != []
    ensures Lined([[c] + parts[0]] + parts[1..]) == [c] + Lined(parts)
  {
    var longer := [[c] + parts[0]] + parts[1..];
    assert longer[1..] == parts[1..];
  }

  /** Four fields with dashes between them. */
  function Line(a: string, b: string, c: string, d: string): string { Lined([a, b, c, d]) }

  lemma NoDashInHex(s: string)
    requires IsLowerHex(s)
    ensures '-' !in s
  {
  }

  /** `value` is such a header of this context, with the flags spelled so. */
  predicate Spells(value: string, ctx: Context, flags: string) {
    value == Line("00", ctx.traceId, ctx.parentSpanId, flags) && FromRadix16(flags) == Some(ctx.flags)
  }

  lemma AcceptedIsSpelled(value: string, ctx: Context)
    requires ExtractTraceparent(value) == Some(ctx)
    ensures WellFormed(ctx) && ctx.tracestate == None && Spells(value, ctx, SplitN(value, 4)[3])
  {
    LinedSplit(value, 4);
    assert SplitN(value, 4) == ["00", ctx.traceId, ctx.parentSpanId, SplitN(value, 4)[3]];
  }

  lemma SpelledIsAccepted(value: string, ctx: Context, flags: string)
    requires WellFormed(ctx) && ctx.tracestate == None && Spells(value, ctx, flags)
    ensures ExtractTraceparent(value) == Some(ctx)
  {
    NoDashInHex(ctx.traceId);
    NoDashInHex(ctx.parentSpanId);
    SplitLined(["00", ctx.traceId, ctx.parentSpanId, flags]);
  }

  /** A header is accepted exactly when it has this shape, and then yields these fields. */
  lemma ExtractsExactly(value: string, ctx: Context)
    ensures ExtractTraceparent(value) == Some(ctx) <==>
            WellFormed(ctx) && ctx.tracestate == None && exists flags :: Spells(value, ctx, flags)
  {
    if ExtractTraceparent(value) == Some(ctx) {
      AcceptedIsSpelled(value, ctx);
    } else if flags :| WellFormed(ctx) && ctx.tracestate == None && Spells(value, ctx, flags) {
      SpelledIsAccepted(value, ctx, flags);
    }
  }

  lemma DigitsAreRead(d: nat)
    requires d < 0x10
    ensures DigitValue(HEX[d]) == Some(d)
  {
  }

  lemma PrintedFlagsParse(flags: byte)
    ensures FromRadix16(Hex([flags])) == Some(flags)
  {
    var hi, lo := HEX[flags / 0x10], HEX[flags % 0x10];
    assert [flags][..0] == [];
    assert Hex([flags]) == [hi, lo];
    DigitsAreRead(flags / 0x10);
    DigitsAreRead(flags % 0x10);
    assert [hi, lo][1..] == [lo] && [lo][1..] == [];
    assert Accumulate(flags, []) == Some(flags);
    assert Accumulate(flags / 0x10, [lo]) == Some(flags);
    assert Accumulate(0, [hi, lo]) == Some(flags);
  }

  function Zeros(n: nat): string { seq(n, _ => '0') }

  lemma {:induction false} ZerosAreSkipped(n: nat, s: string)
    ensures Accumulate(0, Zeros(n) + s) == Accumulate(0, s)
  {
    if n == 0 {
      assert Zeros(0) + s == s;
    } else {
      ZerosAreSkipped(n - 1, s);
      assert (Zeros(n) + s)[1..] == Zeros(n - 1) + s;
    }
  }

  function UpperDigit(c: char): char { if 'a' <= c <= 'f' then c - 'a' + 'A' else c }

  function UpperHex(s: string): string { seq(|s|, i requires 0 <= i < |s| => UpperDigit(s[i])) }

  lemma {:induction false} CaseIsIgnored(value: byte, s: string)
    ensures Accumulate(value, UpperHex(s)) == Accumulate(value, s)
    decreases |s|
  {
    if s != [] {
      assert UpperHex(s)[1..] == UpperHex(s[1..]) && DigitValue(UpperDigit(s[0])) == DigitValue(s[0]);
      if DigitValue(s[0]).Some? && 0x10 * value + DigitValue(s[0]).value < 0x100 {
        CaseIsIgnored(0x10 * value + DigitValue(s[0]).value, s[1..]);
      }
    }
  }

  /** The flags `s` spells, with zeros and perhaps a plus sign in front, in either case. */
  lemma FlagsRead(n: nat, s: string)
    requires s != [] && s[0] != '+'
    ensures FromRadix16(Zeros(n) + s) == FromRadix16("+" + Zeros(n) + s) == FromRadix16(Zeros(n) + UpperHex(s)) ==
            FromRadix16(s)
  {
    ZerosAreSkipped(n, s);
    ZerosAreSkipped(n, UpperHex(s));
    CaseIsIgnored(0, s);
    assert ("+" + Zeros(n) + s)[1..] == Zeros(n) + s;
  }

  /** Context headers are accepted with such flags, and read as the printed header is. */
  lemma OddFlagsAreAccepted(ctx: Context, n: nat)
    requires WellFormed(ctx) && ctx.tracestate == None
    ensures var flags := Hex([ctx.flags]);
            forall odd :: odd in [Zeros(n) + flags, "+" + Zeros(n) + flags, Zeros(n) + UpperHex(flags)] ==>
              ExtractTraceparent(Line("00", ctx.traceId, ctx.parentSpanId, odd)) == Some(ctx)
  {
    var flags := Hex([ctx.flags]);
    PrintedFlagsParse(ctx.flags);
    HexIsLowerHex([ctx.flags]);
    FlagsRead(n, flags);
    forall odd | odd in [Zeros(n) + flags, "+" + Zeros(n) + flags, Zeros(n) + UpperHex(flags)]
      ensures ExtractTraceparent(Line("00", ctx.traceId, ctx.parentSpanId, odd)) == Some(ctx)
    {
      SpelledIsAccepted(Line("00", ctx.traceId, ctx.parentSpanId, odd), ctx, odd);
    }
  }

  lemma PrintedIsALine(ctx: Context)
    ensures ToTraceparent(ctx) == Line("00", ctx.traceId, ctx.parentSpanId, Hex([ctx.flags]))
  {
    Regroup(ctx.traceId, ctx.parentSpanId, Hex([ctx.flags]));
  }

  lemma Regroup(a: string, b: string, c: string)
    ensures "00-" + a + "-" + b + "-" + c == Line("00", a, b, c)
  {
    assert ["00", a, b, c][1..] == [a, b, c] && [a, b, c][1..] == [b, c] && [b, c][1..] == [c];
    assert Lined([b, c]) == b + "-" + c;
    assert Lined([a, b, c]) == a + "-" + (b + "-" + c);
    assert "00-" == "00" + "-";
  }

  /** A printed context is read back, without its `tracestate`, exactly when it was well formed. */
  lemma PrintedContextParses(ctx: Context)
    ensures ExtractTraceparent(ToTraceparent(ctx)) == Some(ctx.(tracestate := None)) <==> WellFormed(ctx)
  {
    var bare, flags := ctx.(tracestate := None), Hex([ctx.flags]);
    PrintedFlagsParse(ctx.flags);
    PrintedIsALine(ctx);
    assert Spells(ToTraceparent(ctx), bare, flags);
    ExtractsExactly(ToTraceparent(ctx), bare);
  }

  /** Parsing again what was parsed and printed changes nothing. */
  lemma ParsePrintParse(value: string)
    ensures var parsed := ExtractTraceparent(value);
            parsed.Some? ==> ExtractTraceparent(ToTraceparent(parsed.value)) == parsed
  {
    if ExtractTraceparent(value).Some? {
      var ctx := ExtractTraceparent(value).value;
      ExtractsExactly(value, ctx);
      PrintedContextParses(ctx);
    }
  }

  /** Generated ids make well-formed contexts, so they survive the header. */
  lemma GeneratedIdsAreWellFormed(trace: seq<byte>, span: seq<byte>, flags: byte, tracestate: Option<string>)
    requires |trace| == 16 && |span| == 8
    ensures var ctx := Context(Hex(trace), Hex(span), flags, tracestate);
            ExtractFromHeaders(Some(ToTraceparent(ctx)), tracestate) == Some(ctx)
  {
    HexIsLowerHex(trace);
    HexIsLowerHex(span);
    PrintedContextParses(Context(Hex(trace), Hex(span), flags, tracestate));
  }
}
