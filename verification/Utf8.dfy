/** UTF-8, as `str::as_bytes` gives it. */
module Utf8 {
  import opened Sequences

  type byte = n: nat | n < 0x100

  function EncodeChar(c: char): (bs: seq<byte>)
    ensures 0 < |bs| <= 4
  {
    var n := c as int;
    if n < 0x80 then [n]
    else if n < 0x800 then [0xC0 + n / 0x40, 0x80 + n % 0x40]
    else if n < 0x1_0000 then [0xE0 + n / 0x1000, 0x80 + n / 0x40 % 0x40, 0x80 + n % 0x40]
    else [0xF0 + n / 0x4_0000, 0x80 + n / 0x1000 % 0x40, 0x80 + n / 0x40 % 0x40, 0x80 + n % 0x40]
  }

  function Encode(s: string): seq<byte> { Each(EncodeChar, s) }

  /** The first byte of a character tells how many follow. */
  lemma LengthFromFirst(c: char)
    ensures var first := EncodeChar(c)[0];
            |EncodeChar(c)| == if first < 0x80 then 1 else if first < 0xE0 then 2 else if first < 0xF0 then 3 else 4
  {
  }

  lemma CharInjective(c: char, d: char)
    requires EncodeChar(c) == EncodeChar(d)
    ensures c == d
  {
    LengthFromFirst(c);
    LengthFromFirst(d);
    var n, m := c as int, d as int;
    assert n / 0x40 / 0x40 == n / 0x1000 && n / 0x40 / 0x40 / 0x40 == n / 0x4_0000;
    assert m / 0x40 / 0x40 == m / 0x1000 && m / 0x40 / 0x40 / 0x40 == m / 0x4_0000;
  }

  /** Where one text's first character ends, so does the other's. */
  lemma PrefixFree(c: char, d: char, x: seq<byte>, y: seq<byte>)
    requires EncodeChar(c) + x == EncodeChar(d) + y
    ensures c == d && x == y
  {
    LengthFromFirst(c);
    LengthFromFirst(d);
    var all := EncodeChar(c) + x;
    assert all[0] == EncodeChar(c)[0] == EncodeChar(d)[0];
    assert EncodeChar(c) == all[..|EncodeChar(c)|] == EncodeChar(d);
    CharInjective(c, d);
    assert x == all[|EncodeChar(c)|..] == y;
  }

  lemma {:induction false} Injective(s: string, t: string)
    requires Encode(s) == Encode(t)
    ensures s == t
  {
    if s != [] && t != [] {
      PrefixFree(s[0], t[0], Encode(s[1..]), Encode(t[1..]));
      Injective(s[1..], t[1..]);
      assert s == [s[0]] + s[1..] && t == [t[0]] + t[1..];
    }
  }

  lemma EncodeConcat(s: string, t: string)
    ensures Encode(s + t) == Encode(s) + Encode(t)
  {
    EachConcat(EncodeChar, s, t);
  }

  /** An ASCII byte stands for itself alone. */
  lemma {:induction false} AsciiStandsForItself(s: string, c: char)
    requires c < 0x80 as char
    ensures c as int in Encode(s) <==> c in s
  {
    if s != [] {
      AsciiStandsForItself(s[1..], c);
      assert c as int in EncodeChar(s[0]) <==> c == s[0];
      assert s == [s[0]] + s[1..];
    }
  }
}
