/** JSON values, as `serde_json::Value` holds them after parsing. */
module JsonValue {

  /** `mantissa` divided by ten as often as there are `places`. */
  datatype Number = Number(mantissa: int, places: nat)

  /** Numbers without a trailing zero: every finite decimal, written in one way. */
  type Decimal = n: Number | n.places == 0 || n.mantissa % 10 != 0 witness Number(0, 0)

  datatype Json =
    | Null
    | Bool(b: bool)
    | Num(n: Decimal)
    | Str(s: string)
    | Arr(elems: seq<Json>)
    | Obj(fields: map<string, Json>)

  function Pow10(k: nat): nat { if k == 0 then 1 else 10 * Pow10(k - 1) }

  /** Equal numbers are equal values: comparing JSON compares what it means. */
  lemma DecimalsAreCanonical(a: Decimal, b: Decimal)
    requires a.mantissa * Pow10(b.places) == b.mantissa * Pow10(a.places)
    ensures a == b
  {
    if a.places < b.places {
      FewerPlaces(a, b);
    } else if b.places < a.places {
      FewerPlaces(b, a);
    } else {
      Pow10Cancels(a.mantissa, b.mantissa, a.places);
    }
  }

  /** Of two ways to write a number the longer one ends in zero. */
  lemma FewerPlaces(a: Number, b: Number)
    requires a.places < b.places && a.mantissa * Pow10(b.places) == b.mantissa * Pow10(a.places)
    ensures b.mantissa % 10 == 0
  {
    var k := b.places - a.places;
    Pow10Splits(k, a.places);
    Regroup(a.mantissa, Pow10(k), Pow10(a.places));
    Pow10Cancels(a.mantissa * Pow10(k), b.mantissa, a.places);
    Regroup(a.mantissa, 10, Pow10(k - 1));
    TenTimes(a.mantissa * Pow10(k - 1));
  }

  lemma Regroup(x: int, y: int, z: int)
    ensures x * (y * z) == (x * y) * z == y * (x * z)
  {
  }

  lemma TenTimes(x: int)
    ensures 10 * x % 10 == 0
  {
  }

  lemma {:induction false} Pow10Splits(j: nat, k: nat)
    ensures Pow10(j + k) == Pow10(j) * Pow10(k)
  {
    if j > 0 { Pow10Splits(j - 1, k); }
  }

  lemma {:induction false} Pow10Cancels(x: int, y: int, k: nat)
    requires x * Pow10(k) == y * Pow10(k)
    ensures x == y
  {
    if k > 0 {
      assert 10 * (x * Pow10(k - 1)) == x * Pow10(k) == y * Pow10(k) == 10 * (y * Pow10(k - 1));
      Pow10Cancels(x, y, k - 1);
    }
  }
}
