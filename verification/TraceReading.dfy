/**
 Trace context headers said by positions: which characters stand where, and what
 number the flags spell.
 */
module TraceReading {
  import opened Utf8
  import opened Wrappers
  import opened TraceContext

  // ---------------------------------------------------------------------
  // Digits and numbers
  // ---------------------------------------------------------------------

  const DIGITS: string := "0123456789abcdef"
  const CAPITALS: string := "0123456789ABCDEF"

  /** The character is the digit of this value, in either case. */
  predicate IsDigit(c: char, d: nat) { d < 16 && (c == DIGITS[d] || c == CAPITALS[d]) }

  lemma DigitIs(c: char, d: nat)
    ensures DigitValue(c) == Some(d) <==> IsDigit(c, d)
  {
  }

  lemma LowerDigitsAre(c: char)
    ensures IsLowerHexDigit(c) <==> c in DIGITS
  {
    if IsLowerHexDigit(c) {
      var d := DigitValue(c).value;
      DigitIs(c, d);
      assert c == DIGITS[d];
    }
  }

  predicate AreDigits(s: string, ds: seq<nat>) {
    |s| == |ds| && forall k :: 0 <= k < |s| ==> IsDigit(s[k], ds[k])
  }

  /** The number with these digits, most significant first. */
  function NumberOf(ds: seq<nat>): nat {
    if ds == [] then 0 else 16 * NumberOf(ds[..|ds| - 1]) + ds[|ds| - 1]
  }

  /** The number that a value already read becomes. */
  function NumberFrom(value: nat, ds: seq<nat>): nat
    decreases |ds|
  {
    if ds == [] then value else NumberFrom(16 * value + ds[0], ds[1..])
  }

  lemma {:induction false} NumbersGrow(value: nat, ds: seq<nat>)
    ensures value <= NumberFrom(value, ds)
    decreases |ds|
  {
    if ds != [] { NumbersGrow(16 * value + ds[0], ds[1..]); }
  }

  /** Each character is read as the digit of this value. */
  predicate AreRead(s: string, ds: seq<nat>) {
    |s| == |ds| && forall k :: 0 <= k < |s| ==> DigitValue(s[k]) == Some(ds[k])
  }

  lemma SpelledDigitsAreRead(s: string, ds: seq<nat>)
    ensures AreDigits(s, ds) <==> AreRead(s, ds)
  {
    if |s| == |ds| {
      forall k | 0 <= k < |s|
        ensures DigitValue(s[k]) == Some(ds[k]) <==> IsDigit(s[k], ds[k])
      {
        DigitIs(s[k], ds[k]);
      }
    }
  }

  lemma {:induction false} DigitsAccumulate(value: byte, s: string, ds: seq<nat>)
    requires AreRead(s, ds)
    ensures Accumulate(value, s) == if NumberFrom(value, ds) < 0x100 then Some(NumberFrom(value, ds)) else None
    decreases |s|
  {
    if s != "" {
      var next := 16 * value + ds[0];
      if next < 0x100 {
        DigitsAccumulate(next, s[1..], ds[1..]);
      } else {
        NumbersGrow(next, ds[1..]);
      }
    }
  }

  /** Whatever is read has digits only. */
  lemma {:induction false} ReadDigits(value: byte, s: string) returns (ds: seq<nat>)
    requires Accumulate(value, s).Some?
    ensures AreRead(s, ds)
    decreases |s|
  {
    ds := [];
    if s != "" {
      var d := DigitValue(s[0]).value;
      var rest := ReadDigits(0x10 * value + d, s[1..]);
      ds := [d] + rest;
    }
  }

  lemma {:induction false} NumberFromSnoc(value: nat, ds: seq<nat>, d: nat)
    ensures NumberFrom(value, ds + [d]) == 16 * NumberFrom(value, ds) + d
    decreases |ds|
  {
    if ds == [] {
      assert [] + [d] == [d] && [d][1..] == [];
    } else {
      assert (ds + [d])[0] == ds[0] && (ds + [d])[1..] == ds[1..] + [d];
      NumberFromSnoc(16 * value + ds[0], ds[1..], d);
    }
  }

  lemma {:induction false} NumberFromZero(ds: seq<nat>)
    ensures NumberFrom(0, ds) == NumberOf(ds)
  {
    if ds != [] {
      var n := |ds| - 1;
      NumberFromZero(ds[..n]);
      NumberFromSnoc(0, ds[..n], ds[n]);
      assert ds == ds[..n] + [ds[n]];
    }
  }

  predicate HasPlus(s: string) { s != "" && s[0] == '+' }

  /** The digits behind a leading plus sign. */
  function Unsigned(s: string): string { if HasPlus(s) then s[1..] else s }

  /** Some digits spell this number. */
  ghost predicate SpellsNumber(s: string, v: nat) {
    s != "" && exists ds :: AreDigits(s, ds) && NumberOf(ds) == v
  }

  /** Flags are read exactly when digits spell a number below 256, perhaps behind a plus sign. */
  lemma FlagsAreTheNumber(s: string, v: byte)
    ensures FromRadix16(s) == Some(v) <==> SpellsNumber(Unsigned(s), v)
  {
    var digits := Unsigned(s);
    if s == "-" { SignIsNoDigit(); }
    if FromRadix16(s) == Some(v) {
      var ds := ReadDigits(0, digits);
      SpelledDigitsAreRead(digits, ds);
      DigitsAccumulate(0, digits, ds);
      NumberFromZero(ds);
    } else if digits != "" {
      forall ds | AreDigits(digits, ds)
        ensures NumberOf(ds) != v
      {
        SpelledDigitsAreRead(digits, ds);
        DigitsAccumulate(0, digits, ds);
        NumberFromZero(ds);
      }
    }
  }

  lemma SignIsNoDigit()
    ensures forall ds :: !AreDigits("-", ds)
  {
    forall ds: seq<nat> | |ds| == 1
      ensures !IsDigit("-"[0], ds[0])
    {
      DigitIs('-', ds[0]);
    }
  }

  /** Each byte is printed as its two digits. */
  lemma {:induction false} DigitsArePrinted(bytes: seq<byte>, i: nat)
    requires i < |bytes|
    ensures Hex(bytes)[2 * i] == DIGITS[bytes[i] / 16] && Hex(bytes)[2 * i + 1] == DIGITS[bytes[i] % 16]
  {
    var n := |bytes| - 1;
    HexSplits(bytes, n);
    if i < n {
      DigitsArePrinted(bytes[..n], i);
      assert Hex(bytes)[..2 * n][2 * i] == Hex(bytes[..n])[2 * i];
      assert Hex(bytes)[..2 * n][2 * i + 1] == Hex(bytes[..n])[2 * i + 1];
    }
  }

  // ---------------------------------------------------------------------
  // Headers
  // ---------------------------------------------------------------------

  predicate AllDigits(s: string) { forall k :: 0 <= k < |s| ==> s[k] in DIGITS }

  lemma AllDigitsIs(s: string)
    ensures IsLowerHex(s) <==> AllDigits(s)
  {
    forall k | 0 <= k < |s|
      ensures IsLowerHexDigit(s[k]) <==> s[k] in DIGITS
    {
      LowerDigitsAre(s[k]);
    }
  }

  /** Version 00, 32 digits, 16 digits, with dashes between, and the flags to the end. */
  predicate IsHeader(value: string, traceId: string, spanId: string, flags: string) {
    && |traceId| == 32 && AllDigits(traceId) && |spanId| == 16 && AllDigits(spanId)
    && |value| == 53 + |flags| && value[..3] == "00-" && value[3..35] == traceId && value[35] == '-'
    && value[36..52] == spanId && value[52] == '-' && value[53..] == flags
  }

  lemma HeaderIsALine(value: string, traceId: string, spanId: string, flags: string)
    requires |traceId| == 32 && |spanId| == 16
    requires |value| == 53 + |flags| && value[..3] == "00-" && value[3..35] == traceId && value[35] == '-'
    requires value[36..52] == spanId && value[52] == '-' && value[53..] == flags
    ensures value == "00-" + traceId + "-" + spanId + "-" + flags
  {
    assert value == value[..3] + value[3..35] + [value[35]] + value[36..52] + [value[52]] + value[53..];
  }

  lemma LineIsAHeader(traceId: string, spanId: string, flags: string)
    requires |traceId| == 32 && |spanId| == 16 && AllDigits(traceId) && AllDigits(spanId)
    ensures IsHeader("00-" + traceId + "-" + spanId + "-" + flags, traceId, spanId, flags)
  {
  }

  lemma HeaderIs(value: string, traceId: string, spanId: string, flags: string)
    ensures IsHeader(value, traceId, spanId, flags) <==>
            && |traceId| == 32 && IsLowerHex(traceId) && |spanId| == 16 && IsLowerHex(spanId)
            && value == Line("00", traceId, spanId, flags)
  {
    AllDigitsIs(traceId);
    AllDigitsIs(spanId);
    Regroup(traceId, spanId, flags);
    if IsHeader(value, traceId, spanId, flags) { HeaderIsALine(value, traceId, spanId, flags); }
    if |traceId| == 32 && |spanId| == 16 && AllDigits(traceId) && AllDigits(spanId) {
      LineIsAHeader(traceId, spanId, flags);
    }
  }

  /** A header yields this context exactly when these fields stand in it and its flags spell this number. */
  lemma HeadersAreRead(value: string, ctx: Context)
    ensures ExtractTraceparent(value) == Some(ctx) <==>
            && ctx.tracestate == None && |value| >= 53
            && IsHeader(value, ctx.traceId, ctx.parentSpanId, value[53..])
            && SpellsNumber(Unsigned(value[53..]), ctx.flags)
  {
    ExtractsExactly(value, ctx);
    if WellFormed(ctx) && ctx.tracestate == None {
      if flags :| Spells(value, ctx, flags) {
        HeaderIs(value, ctx.traceId, ctx.parentSpanId, flags);
        FlagsAreTheNumber(flags, ctx.flags);
      }
    }
    if |value| >= 53 && IsHeader(value, ctx.traceId, ctx.parentSpanId, value[53..]) {
      HeaderIs(value, ctx.traceId, ctx.parentSpanId, value[53..]);
      FlagsAreTheNumber(value[53..], ctx.flags);
      assert FromRadix16(value[53..]) == Some(ctx.flags) ==> Spells(value, ctx, value[53..]);
    }
  }

  /** Both headers together: no context without a readable traceparent, and the tracestate as it is. */
  lemma BothHeadersAreRead(traceparent: Option<string>, tracestate: Option<string>, ctx: Context)
    ensures ExtractFromHeaders(traceparent, tracestate) == Some(ctx) <==>
            && traceparent.Some? && ExtractTraceparent(traceparent.value) == Some(ctx.(tracestate := None))
            && ctx.tracestate == tracestate
  {
    HeadersAreRead("", ctx.(tracestate := None));
    if traceparent.Some? && ExtractTraceparent(traceparent.value).Some? {
      HeadersAreRead(traceparent.value, ExtractTraceparent(traceparent.value).value);
    }
  }
}
