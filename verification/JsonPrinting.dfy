/**
 A JSON library that reads back whatever it prints. It shows that what the
 request codecs ask of their JSON library can be met.
 */
module JsonPrinting {
  import opened JsonValue
  import opened RequestIr
  import opened Sequences
  import opened Wrappers

  function Unary(n: nat): string { if n == 0 then "." else "1" + Unary(n - 1) }

  function PrintText(s: string): string { Unary(|s|) + s }

  function Abs(n: int): nat { if n < 0 then -n else n }

  function PrintInteger(n: int): string { [if n < 0 then '-' else '+'] + Unary(Abs(n)) }

  function PrintNumber(n: Decimal): string { PrintInteger(n.mantissa) + Unary(n.places) }

  /** Every kind of value starts with a sign of its own. */
  function Sign(j: Json): char {
    match j
    case Null => 'n'
    case Bool(b) => if b then 't' else 'f'
    case Num(_) => '#'
    case Str(_) => 's'
    case Arr(_) => '['
    case Obj(_) => '{'
  }

  /** What follows the sign; lists are counted. */
  ghost function Rest(j: Json): string
    decreases j, 1, 0
  {
    match j
    case Null => ""
    case Bool(_) => ""
    case Num(n) => PrintNumber(n)
    case Str(s) => PrintText(s)
    case Arr(elems) => Unary(|elems|) + PrintElems(j, 0)
    case Obj(fields) => Unary(|fields|) + PrintFields(j, fields)
  }

  ghost function Print(j: Json): string
    decreases j, 2, 0
  {
    [Sign(j)] + Rest(j)
  }

  /** The elements from the `i`-th on. */
  ghost function PrintElems(whole: Json, i: nat): string
    requires whole.Arr? && i <= |whole.elems|
    decreases whole, 0, |whole.elems| - i
  {
    if i == |whole.elems| then "" else Print(whole.elems[i]) + PrintElems(whole, i + 1)
  }

  ghost function SomeKey(m: map<string, Json>): (k: string)
    requires m != map[]
    ensures k in m
  {
    var k :| k in m;
    k
  }

  ghost function PrintFields(whole: Json, m: map<string, Json>): string
    requires whole.Obj? && forall k :: k in m ==> k in whole.fields && whole.fields[k] == m[k]
    decreases whole, 0, |m|
  {
    if m == map[] then ""
    else
      var k := SomeKey(m);
      OneLess(m, k);
      PrintText(k) + (Print(whole.fields[k]) + PrintFields(whole, m - {k}))
  }

  // ---------------------------------------------------------------------
  // No printed value is the start of another
  // ---------------------------------------------------------------------

  lemma {:induction false} UnaryEnds(n: nat, m: nat, x: string, y: string)
    requires Unary(n) + x == Unary(m) + y
    ensures n == m && x == y
  {
    var s := Unary(n) + x;
    assert s[0] == Unary(n)[0] && s[0] == Unary(m)[0];
    if n > 0 {
      assert s[1..] == Unary(n - 1) + x && s[1..] == Unary(m - 1) + y;
      UnaryEnds(n - 1, m - 1, x, y);
    } else {
      assert s[1..] == x && s[1..] == y;
    }
  }

  lemma TextEnds(s: string, t: string, x: string, y: string)
    requires PrintText(s) + x == PrintText(t) + y
    ensures s == t && x == y
  {
    assert PrintText(s) + x == Unary(|s|) + (s + x) && PrintText(t) + y == Unary(|t|) + (t + y);
    UnaryEnds(|s|, |t|, s + x, t + y);
    assert s == (s + x)[..|s|] == t && x == (s + x)[|s|..] == y;
  }

  lemma HeadTells(c: char, d: char, s: string, t: string, x: string, y: string)
    requires [c] + s + x == [d] + t + y
    ensures c == d && s + x == t + y
  {
    var all := [c] + s + x;
    assert all[0] == c && all[0] == d && all[1..] == s + x && all[1..] == t + y;
  }

  lemma IntegerEnds(n: int, m: int, x: string, y: string)
    requires PrintInteger(n) + x == PrintInteger(m) + y
    ensures n == m && x == y
  {
    HeadTells(if n < 0 then '-' else '+', if m < 0 then '-' else '+', Unary(Abs(n)), Unary(Abs(m)), x, y);
    UnaryEnds(Abs(n), Abs(m), x, y);
  }

  lemma NumberEnds(n: Decimal, m: Decimal, x: string, y: string)
    requires PrintNumber(n) + x == PrintNumber(m) + y
    ensures n == m && x == y
  {
    Associative(PrintInteger(n.mantissa), Unary(n.places), x);
    Associative(PrintInteger(m.mantissa), Unary(m.places), y);
    IntegerEnds(n.mantissa, m.mantissa, Unary(n.places) + x, Unary(m.places) + y);
    UnaryEnds(n.places, m.places, x, y);
  }

  lemma {:induction false} ValueEnds(j: Json, k: Json, x: string, y: string)
    requires Print(j) + x == Print(k) + y
    ensures j == k && x == y
    decreases j, 1, 0
  {
    HeadTells(Sign(j), Sign(k), Rest(j), Rest(k), x, y);
    match j
    case Null => assert Rest(j) + x == x && Rest(k) + y == y;
    case Bool(_) => assert Rest(j) + x == x && Rest(k) + y == y;
    case Num(n) => NumberEnds(n, k.n, x, y);
    case Str(s) => TextEnds(s, k.s, x, y);
    case Arr(elems) =>
      CountEnds(|elems|, |k.elems|, PrintElems(j, 0), PrintElems(k, 0), x, y);
      ElemsEnd(j, k, 0, x, y);
    case Obj(fields) =>
      CountEnds(|fields|, |k.fields|, PrintFields(j, fields), PrintFields(k, k.fields), x, y);
      FieldsEnd(j, k, fields, k.fields, x, y);
  }

  lemma CountEnds(n: nat, m: nat, a: string, b: string, x: string, y: string)
    requires Unary(n) + a + x == Unary(m) + b + y
    ensures n == m && a + x == b + y
  {
    Associative(Unary(n), a, x);
    Associative(Unary(m), b, y);
    UnaryEnds(n, m, a + x, b + y);
  }

  lemma {:induction false} ElemsEnd(j: Json, k: Json, i: nat, x: string, y: string)
    requires j.Arr? && k.Arr? && |j.elems| == |k.elems| && i <= |j.elems|
    requires PrintElems(j, i) + x == PrintElems(k, i) + y
    ensures j.elems[i..] == k.elems[i..] && x == y
    decreases j, 0, |j.elems| - i
  {
    if i == |j.elems| {
      assert "" + x == x && "" + y == y;
    } else {
      var a, b := PrintElems(j, i + 1), PrintElems(k, i + 1);
      Associative(Print(j.elems[i]), a, x);
      Associative(Print(k.elems[i]), b, y);
      ValueEnds(j.elems[i], k.elems[i], a + x, b + y);
      ElemsEnd(j, k, i + 1, x, y);
      assert j.elems[i..] == [j.elems[i]] + j.elems[i + 1..] && k.elems[i..] == [k.elems[i]] + k.elems[i + 1..];
    }
  }

  /** Both printed maps start with the same field. */
  lemma FirstFieldEnds(a: string, b: string, u: string, v: string, t: string, w: string, x: string, y: string)
    requires PrintText(a) + (u + t) + x == PrintText(b) + (v + w) + y
    ensures a == b && u + (t + x) == v + (w + y)
  {
    Associative(PrintText(a), u + t, x);
    Associative(PrintText(b), v + w, y);
    TextEnds(a, b, (u + t) + x, (v + w) + y);
    Associative(u, t, x);
    Associative(v, w, y);
  }

  lemma OneLess(m: map<string, Json>, k: string)
    requires k in m
    ensures |m - {k}| == |m| - 1
  {
    assert m.Keys == (m - {k}).Keys + {k};
  }

  lemma EqualButFor(m: map<string, Json>, n: map<string, Json>, k: string)
    requires k in m && k in n && m[k] == n[k] && m - {k} == n - {k}
    ensures m == n
  {
    assert m == (m - {k})[k := m[k]] && n == (n - {k})[k := n[k]];
  }

  lemma {:induction false} FieldsEnd(j: Json, k: Json, m: map<string, Json>, n: map<string, Json>, x: string, y: string)
    requires j.Obj? && forall key :: key in m ==> key in j.fields && j.fields[key] == m[key]
    requires k.Obj? && forall key :: key in n ==> key in k.fields && k.fields[key] == n[key]
    requires |m| == |n| && PrintFields(j, m) + x == PrintFields(k, n) + y
    ensures m == n && x == y
    decreases j, 0, |m|
  {
    if m == map[] {
      assert n == map[] && "" + x == x && "" + y == y;
    } else {
      assert n != map[];
      var a, b := SomeKey(m), SomeKey(n);
      var rest, rest' := m - {a}, n - {b};
      OneLess(m, a);
      OneLess(n, b);
      var t, w := PrintFields(j, rest), PrintFields(k, rest');
      FirstFieldEnds(a, b, Print(j.fields[a]), Print(k.fields[b]), t, w, x, y);
      ValueEnds(j.fields[a], k.fields[b], t + x, w + y);
      FieldsEnd(j, k, rest, rest', x, y);
      EqualButFor(m, n, a);
    }
  }

  // ---------------------------------------------------------------------
  // The library
  // ---------------------------------------------------------------------

  ghost predicate IsPrinted(s: string) { exists j :: Print(j) == s }

  ghost function Parse(s: string): Option<Json> {
    if IsPrinted(s) then
      var j :| Print(j) == s;
      Some(j)
    else None
  }

  lemma PrintedIsParsed(j: Json)
    ensures Parse(Print(j)) == Some(j)
  {
    var s := Print(j);
    assert IsPrinted(s);
    var k := Parse(s).value;
    assert Print(k) == s && Print(j) + "" == Print(k) + "";
    ValueEnds(j, k, "", "");
  }

  /** Some library reads back every value it prints. */
  lemma FaithfulLibrariesExist()
    ensures exists json: JsonText :: json.Faithful()
  {
    ghost var json := JsonText(j => Print(j), s => Parse(s));
    forall j
      ensures json.fromText(json.toText(j)) == Some(j)
    {
      PrintedIsParsed(j);
    }
    assert json.Faithful();
  }
}
