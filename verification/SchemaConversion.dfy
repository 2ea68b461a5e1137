/**
 The compiler from JSON Schema to Gemini's OpenAPI 3.0 subset. Each language
 gets a meaning (the JSON values a schema accepts), and the conversion is
 related to both.

 A schema object is modelled by its keywords: a field is `None` when the key is
 absent, or when its value has a form the converter and the meaning both ignore.
 Keys the converter does not know sit in `others`.
 */
module SchemaConversion {
  import opened Wrappers
  import opened JsonValue

  /** The value of `type`: a name, an array, or something else. */
  datatype TypeTerm = Name(name: string) | Names(terms: seq<TypeTerm>) | Ill

  /** The value of `items`: one schema or one per position. */
  datatype Items<+T> = AnyItems | Each(schema: T) | Tuple(schemas: seq<T>)

  /** The value of `allOf`, `anyOf` or `oneOf`. */
  datatype Members<+T> = NoMembers | Members(list: seq<T>)

  /** The value of `properties`. */
  datatype Properties<+T> = NoProperties | Properties(of: map<string, T>)

  datatype JsonSchema =
    | Plain(json: Json)  // null, a number, a string or an array
    | Flag(b: bool)
    | Keywords(
        description: Option<Json>, required: Option<Json>, format: Option<Json>, minLength: Option<Json>,
        constant: Option<Json>, enumeration: Option<Json>, typ: Option<TypeTerm>,
        properties: Properties<JsonSchema>, items: Items<JsonSchema>,
        allOf: Members<JsonSchema>, anyOf: Members<JsonSchema>, oneOf: Members<JsonSchema>,
        others: map<string, Json>)

  datatype OpenApi =
    | Copied(json: Json)
    | Doc(
        description: Option<Json>, required: Option<Json>, format: Option<Json>, minLength: Option<Json>,
        enumeration: Option<Json>, typ: Option<TypeTerm>, nullable: bool,
        properties: Properties<OpenApi>, items: Items<OpenApi>,
        allOf: Members<OpenApi>, anyOf: Members<OpenApi>, oneOf: Members<OpenApi>,
        negated: Members<OpenApi>)

  const EMPTY_SCHEMA :=
    Keywords(None, None, None, None, None, None, None, NoProperties, AnyItems, NoMembers, NoMembers, NoMembers, map[])
  const EMPTY_DOC :=
    Doc(None, None, None, None, None, None, false, NoProperties, AnyItems, NoMembers, NoMembers, NoMembers, NoMembers)
  const ONE: Decimal := Number(1, 0)
  const NULL_TYPE := Name("null")
  const OBJECT_TYPE := Name("object")

  // ---------------------------------------------------------------------
  // The converter
  // ---------------------------------------------------------------------

  /** `{type: "object"}` with no properties and no `additionalProperties`. */
  predicate IsEmptyObject(s: JsonSchema)
    requires s.Keywords?
  {
    && s.typ == Some(OBJECT_TYPE)
    && (s.properties.Properties? ==> s.properties.of == map[])
    && "additionalProperties" !in s.others
  }

  function NonNullTypes(ts: seq<TypeTerm>): (r: seq<TypeTerm>)
    ensures forall t :: t in r <==> t in ts && t != NULL_TYPE
  {
    if ts == [] then []
    else (if ts[0] == NULL_TYPE then [] else [ts[0]]) + NonNullTypes(ts[1..])
  }

  function TypeDocs(ts: seq<TypeTerm>): seq<OpenApi> {
    seq(|ts|, i requires 0 <= i < |ts| => EMPTY_DOC.(typ := Some(ts[i])))
  }

  function WithType(r: OpenApi, typ: Option<TypeTerm>): (d: OpenApi)
    requires r.Doc?
    ensures d.Doc?
  {
    match typ
    case None => r
    case Some(Ill) => r
    case Some(Name(n)) => r.(typ := Some(Name(n)))
    case Some(Names(ts)) =>
      var nonNull := NonNullTypes(ts);
      if nonNull == [] then r.(typ := Some(NULL_TYPE))
      else if |nonNull| == 1 then r.(typ := Some(nonNull[0]), nullable := NULL_TYPE in ts)
      else r.(anyOf := Members(TypeDocs(nonNull)), nullable := NULL_TYPE in ts)
  }

  predicate IsNullMember(s: JsonSchema) { s.Keywords? && s.typ == Some(NULL_TYPE) }

  predicate HasNullMember(ss: seq<JsonSchema>) { exists i :: 0 <= i < |ss| && IsNullMember(ss[i]) }

  /** The images of the members that are not `null` schemas. */
  function NonNullImages(ss: seq<JsonSchema>, images: seq<OpenApi>): seq<OpenApi>
    requires |ss| == |images|
  {
    if ss == [] then []
    else (if IsNullMember(ss[0]) then [] else [images[0]]) + NonNullImages(ss[1..], images[1..])
  }

  function Pick<T>(over: Option<T>, under: Option<T>): Option<T> { if over.Some? then over else under }

  function PickMembers<T>(over: Members<T>, under: Members<T>): Members<T> { if over.Members? then over else under }

  /** Insert every key of `over` into `under`. */
  function Merge(under: OpenApi, over: OpenApi): (d: OpenApi)
    requires under.Doc?
    ensures d.Doc?
  {
    if !over.Doc? then under
    else Doc(Pick(over.description, under.description), Pick(over.required, under.required),
             Pick(over.format, under.format), Pick(over.minLength, under.minLength),
             Pick(over.enumeration, under.enumeration), Pick(over.typ, under.typ),
             over.nullable || under.nullable,
             if over.properties.Properties? then over.properties else under.properties,
             if over.items.AnyItems? then under.items else over.items,
             PickMembers(over.allOf, under.allOf), PickMembers(over.anyOf, under.anyOf),
             PickMembers(over.oneOf, under.oneOf), PickMembers(over.negated, under.negated))
  }

  function WithAnyOf(r: OpenApi, ss: seq<JsonSchema>, images: seq<OpenApi>): (d: OpenApi)
    requires r.Doc? && |ss| == |images|
    ensures d.Doc?
  {
    if HasNullMember(ss) then
      var nonNull := NonNullImages(ss, images);
      (if |nonNull| == 1 then Merge(r, nonNull[0]) else r.(anyOf := Members(nonNull))).(nullable := true)
    else r.(anyOf := Members(images))
  }

  /** The keywords copied or renamed before `type` is looked at. */
  function HeadStart(s: JsonSchema): (d: OpenApi)
    requires s.Keywords?
    ensures d.Doc?
  {
    EMPTY_DOC.(description := s.description, required := s.required, format := s.format, minLength := s.minLength,
               enumeration := if s.constant.Some? then Some(Arr([s.constant.value])) else None)
  }

  /** The keywords converted without recursion, up to the explicit `enum`. */
  function Head(s: JsonSchema): (d: OpenApi)
    requires s.Keywords?
    ensures d.Doc?
  {
    var r := WithType(HeadStart(s), s.typ);
    if s.enumeration.Some? then r.(enumeration := s.enumeration) else r
  }

  function Convert(s: JsonSchema): (r: OpenApi)
    ensures r.Doc? <==> !s.Plain?
    decreases s
  {
    match s
    case Plain(j) => Copied(j)
    case Flag(true) => EMPTY_DOC
    case Flag(false) => EMPTY_DOC.(negated := Members([EMPTY_DOC]))
    case Keywords(_, _, _, _, _, _, _, _, _, _, _, _, _) =>
      if IsEmptyObject(s) then EMPTY_DOC.(typ := Some(OBJECT_TYPE), description := s.description)
      else
        var r := Head(s);
        var r := r.(properties := ConvertProperties(s.properties), items := ConvertItems(s.items),
                    allOf := ConvertMembers(s.allOf));
        var r := if s.anyOf.Members? then WithAnyOf(r, s.anyOf.list, ConvertMembers(s.anyOf).list) else r;
        if s.oneOf.Members? then r.(oneOf := ConvertMembers(s.oneOf)) else r
  }

  function ConvertMembers(m: Members<JsonSchema>): (r: Members<OpenApi>)
    ensures r.Members? <==> m.Members?
    ensures m.Members? ==> |r.list| == |m.list|
    decreases m
  {
    match m
    case NoMembers => NoMembers
    case Members(ss) => Members(seq(|ss|, i requires 0 <= i < |ss| => Convert(ss[i])))
  }

  function ConvertItems(items: Items<JsonSchema>): Items<OpenApi>
    decreases items
  {
    match items
    case AnyItems => AnyItems
    case Each(sub) => Each(Convert(sub))
    case Tuple(subs) => Tuple(seq(|subs|, i requires 0 <= i < |subs| => Convert(subs[i])))
  }

  function ConvertProperties(p: Properties<JsonSchema>): Properties<OpenApi>
    decreases p
  {
    match p
    case NoProperties => NoProperties
    case Properties(of) => Properties(map k | k in of :: Convert(of[k]))
  }

  // ---------------------------------------------------------------------
  // Meanings shared by the two languages
  // ---------------------------------------------------------------------

  ghost predicate IsOfType(name: string, v: Json) {
    match v
    case Null => name == "null"
    case Bool(_) => name == "boolean"
    case Num(n) => name == "number" || (name == "integer" && n.places == 0)
    case Str(_) => name == "string"
    case Arr(_) => name == "array"
    case Obj(_) => name == "object"
  }

  ghost predicate TypeHolds(t: TypeTerm, v: Json) {
    match t
    case Name(n) => IsOfType(n, v)
    case Names(ts) => exists i :: 0 <= i < |ts| && TypeHolds(ts[i], v)
    case Ill => true
  }

  ghost predicate TypeOk(t: Option<TypeTerm>, v: Json) { t.Some? ==> TypeHolds(t.value, v) }

  ghost predicate RequiredOk(r: Option<Json>, v: Json) {
    r.Some? && r.value.Arr? && v.Obj? ==>
      forall i :: 0 <= i < |r.value.elems| && r.value.elems[i].Str? ==> r.value.elems[i].s in v.fields
  }

  ghost predicate MinLengthOk(m: Option<Json>, v: Json) {
    m.Some? && m.value.Num? && v.Str? ==> |v.s| * Pow10(m.value.n.places) >= m.value.n.mantissa
  }

  ghost predicate EnumOk(e: Option<Json>, v: Json) {
    e.Some? && e.value.Arr? ==> v in e.value.elems
  }

  ghost predicate Every(bs: seq<bool>) { forall i :: 0 <= i < |bs| ==> bs[i] }

  ghost predicate Any(bs: seq<bool>) { exists i :: 0 <= i < |bs| && bs[i] }

  ghost predicate ExactlyOne(bs: seq<bool>) {
    exists i :: 0 <= i < |bs| && bs[i] && forall j :: 0 <= j < |bs| && j != i ==> !bs[j]
  }

  // ---------------------------------------------------------------------
  // The meaning of JSON Schema
  // ---------------------------------------------------------------------

  /**
   How the keywords the converter drops constrain a value: any meaning at all,
   which may look at the schema around them.
   */
  type Dropped = (JsonSchema, Json) -> bool

  ghost predicate Accepts(s: JsonSchema, v: Json, dropped: Dropped)
    decreases s
  {
    match s
    case Plain(_) => true
    case Flag(b) => b
    case Keywords(_, _, _, _, _, _, _, _, _, _, _, _, _) =>
      && HeadOk(s, v) && dropped(s, v)
      && PropertiesAccept(s.properties, v, dropped) && ItemsAccept(s.items, v, dropped)
      && (s.allOf.Members? ==> Every(Verdicts(s.allOf, v, dropped)))
      && (s.anyOf.Members? ==> Any(Verdicts(s.anyOf, v, dropped)))
      && (s.oneOf.Members? ==> ExactlyOne(Verdicts(s.oneOf, v, dropped)))
  }

  ghost predicate PropertiesAccept(p: Properties<JsonSchema>, v: Json, dropped: Dropped)
    decreases p
  {
    p.Properties? && v.Obj? ==> forall k :: k in p.of && k in v.fields ==> Accepts(p.of[k], v.fields[k], dropped)
  }

  ghost predicate ItemsAccept(items: Items<JsonSchema>, v: Json, dropped: Dropped)
    decreases items
  {
    v.Arr? ==>
      match items
      case AnyItems => true
      case Each(sub) => forall i :: 0 <= i < |v.elems| ==> Accepts(sub, v.elems[i], dropped)
      case Tuple(subs) => forall i :: 0 <= i < |subs| && i < |v.elems| ==> Accepts(subs[i], v.elems[i], dropped)
  }

  /** Which members accept. */
  ghost function Verdicts(m: Members<JsonSchema>, v: Json, dropped: Dropped): seq<bool>
    requires m.Members?
    decreases m
  {
    seq(|m.list|, i requires 0 <= i < |m.list| => Accepts(m.list[i], v, dropped))
  }

  ghost predicate HeadOk(s: JsonSchema, v: Json)
    requires s.Keywords?
  {
    && TypeOk(s.typ, v) && RequiredOk(s.required, v) && MinLengthOk(s.minLength, v)
    && EnumOk(s.enumeration, v) && (s.constant.Some? ==> v == s.constant.value)
  }

  // ---------------------------------------------------------------------
  // The meaning of the OpenAPI subset
  // ---------------------------------------------------------------------

  /** `nullable: true` admits null whatever the other keywords say. */
  ghost predicate Admits(d: OpenApi, v: Json)
    decreases d, 1
  {
    d.Copied? || (d.nullable && v.Null?) || Holds(d, v)
  }

  ghost predicate Holds(d: OpenApi, v: Json)
    requires d.Doc?
    decreases d, 0
  {
    && TypeOk(d.typ, v) && RequiredOk(d.required, v) && MinLengthOk(d.minLength, v) && EnumOk(d.enumeration, v)
    && PropertiesAdmit(d.properties, v) && ItemsAdmit(d.items, v)
    && (d.allOf.Members? ==> Every(Rulings(d.allOf, v)))
    && (d.anyOf.Members? ==> Any(Rulings(d.anyOf, v)))
    && (d.oneOf.Members? ==> ExactlyOne(Rulings(d.oneOf, v)))
    && (d.negated.Members? ==> !Any(Rulings(d.negated, v)))
  }

  ghost predicate PropertiesAdmit(p: Properties<OpenApi>, v: Json)
    decreases p
  {
    p.Properties? && v.Obj? ==> forall k :: k in p.of && k in v.fields ==> Admits(p.of[k], v.fields[k])
  }

  ghost predicate ItemsAdmit(items: Items<OpenApi>, v: Json)
    decreases items
  {
    v.Arr? ==>
      match items
      case AnyItems => true
      case Each(sub) => forall i :: 0 <= i < |v.elems| ==> Admits(sub, v.elems[i])
      case Tuple(subs) => forall i :: 0 <= i < |subs| && i < |v.elems| ==> Admits(subs[i], v.elems[i])
  }

  /** Which members admit. */
  ghost function Rulings(m: Members<OpenApi>, v: Json): seq<bool>
    requires m.Members?
    decreases m
  {
    seq(|m.list|, i requires 0 <= i < |m.list| => Admits(m.list[i], v))
  }

  // ---------------------------------------------------------------------
  // Stages
  // ---------------------------------------------------------------------

  lemma {:induction false} NonNullImagesAre(ss: seq<JsonSchema>, images: seq<OpenApi>)
    requires |ss| == |images|
    ensures forall i :: 0 <= i < |ss| && !IsNullMember(ss[i]) ==> images[i] in NonNullImages(ss, images)
    ensures forall d :: d in NonNullImages(ss, images) ==>
                          exists i :: 0 <= i < |ss| && !IsNullMember(ss[i]) && images[i] == d
  {
    if ss != [] {
      NonNullImagesAre(ss[1..], images[1..]);
      forall d | d in NonNullImages(ss[1..], images[1..])
        ensures exists i :: 0 <= i < |ss| && !IsNullMember(ss[i]) && images[i] == d
      {
        var i :| 0 <= i < |ss[1..]| && !IsNullMember(ss[1..][i]) && images[1..][i] == d;
        assert !IsNullMember(ss[i + 1]) && images[i + 1] == d;
      }
      forall i | 0 <= i < |ss| && !IsNullMember(ss[i])
        ensures images[i] in NonNullImages(ss, images)
      {
        if i > 0 { assert ss[1..][i - 1] == ss[i] && images[1..][i - 1] == images[i]; }
      }
    }
  }

  /** The type documents of an array of types, against the array. */
  lemma TypeDocsAdmit(ts: seq<TypeTerm>, v: Json)
    ensures TypeHolds(Names(ts), v) <==> Any(Rulings(Members(TypeDocs(ts)), v))
  {
    var docs := TypeDocs(ts);
    var rulings := Rulings(Members(docs), v);
    forall i | 0 <= i < |ts|
      ensures TypeHolds(ts[i], v) <==> Admits(docs[i], v)
    {
      assert docs[i] == EMPTY_DOC.(typ := Some(ts[i]));
      assert Holds(docs[i], v) <==> TypeOk(docs[i].typ, v);
    }
    if i :| 0 <= i < |ts| && TypeHolds(ts[i], v) {
      assert rulings[i];
    }
    if i :| 0 <= i < |rulings| && rulings[i] {
      assert TypeHolds(ts[i], v);
    }
  }

  /** The members of `type` other than null, against all of them. */
  lemma NonNullTypesHold(ts: seq<TypeTerm>, v: Json)
    ensures TypeHolds(Names(ts), v) <==>
            (NULL_TYPE in ts && v.Null?) || TypeHolds(Names(NonNullTypes(ts)), v)
  {
    var nn := NonNullTypes(ts);
    if TypeHolds(Names(ts), v) {
      var i :| 0 <= i < |ts| && TypeHolds(ts[i], v);
      if ts[i] != NULL_TYPE {
        assert ts[i] in nn;
        var j :| 0 <= j < |nn| && nn[j] == ts[i];
      }
    }
    if TypeHolds(Names(nn), v) {
      var j :| 0 <= j < |nn| && TypeHolds(nn[j], v);
      assert nn[j] in ts;
      var i :| 0 <= i < |ts| && ts[i] == nn[j];
    }
    if NULL_TYPE in ts && v.Null? {
      var i :| 0 <= i < |ts| && ts[i] == NULL_TYPE;
      assert TypeHolds(ts[i], v);
    }
  }

  /** What `type` turns into, apart from `nullable`. */
  ghost predicate TypePartOk(d: OpenApi, v: Json)
    requires d.Doc?
  {
    TypeOk(d.typ, v) && (d.anyOf.Members? ==> Any(Rulings(d.anyOf, v)))
  }

  /** `type` is translated exactly, except that an empty array comes to admit null. */
  lemma TypesConvert(r: OpenApi, typ: Option<TypeTerm>, v: Json)
    requires r.Doc? && r.typ.None? && r.anyOf.NoMembers? && !r.nullable
    ensures var d := WithType(r, typ);
            ((d.nullable && v.Null?) || TypePartOk(d, v)) <==>
            TypeOk(typ, v) || (typ == Some(Names([])) && v.Null?)
  {
    if typ.Some? && typ.value.Names? {
      TypeArrayConverts(r, typ.value.terms, v);
    }
  }

  lemma TypeArrayConverts(r: OpenApi, ts: seq<TypeTerm>, v: Json)
    requires r.Doc? && r.typ.None? && r.anyOf.NoMembers? && !r.nullable
    ensures var d := WithType(r, Some(Names(ts)));
            ((d.nullable && v.Null?) || TypePartOk(d, v)) <==> TypeHolds(Names(ts), v) || (ts == [] && v.Null?)
  {
    var nn := NonNullTypes(ts);
    NonNullTypesHold(ts, v);
    if nn == [] {
      assert !TypeHolds(Names(nn), v);
      if ts != [] { assert ts[0] !in nn; assert ts[0] == NULL_TYPE; }
    } else if |nn| == 1 {
      assert nn == [nn[0]];
      assert TypeHolds(Names(nn), v) <==> TypeHolds(nn[0], v);
    } else {
      TypeDocsAdmit(nn, v);
    }
  }

  // ---------------------------------------------------------------------
  // No accepted value is lost
  // ---------------------------------------------------------------------

  predicate OneOfFree(s: JsonSchema)
    decreases s
  {
    s.Keywords? ==>
      && s.oneOf.NoMembers?
      && (s.properties.Properties? ==> forall k :: k in s.properties.of ==> OneOfFree(s.properties.of[k]))
      && (s.items.Each? ==> OneOfFree(s.items.schema))
      && (s.items.Tuple? ==> forall i :: 0 <= i < |s.items.schemas| ==> OneOfFree(s.items.schemas[i]))
      && (s.allOf.Members? ==> forall i :: 0 <= i < |s.allOf.list| ==> OneOfFree(s.allOf.list[i]))
      && (s.anyOf.Members? ==> forall i :: 0 <= i < |s.anyOf.list| ==> OneOfFree(s.anyOf.list[i]))
  }

  /** The document built before `anyOf` and `oneOf` are looked at. */
  function Siblings(s: JsonSchema): (d: OpenApi)
    requires s.Keywords?
    ensures d.Doc?
  {
    var r := Head(s);
    r.(properties := ConvertProperties(s.properties), items := ConvertItems(s.items),
       allOf := ConvertMembers(s.allOf))
  }

  /**
   Whatever the dropped keywords mean, a value accepted by a schema without
   `oneOf` is accepted by its conversion.
   */
  lemma {:induction false} ConversionLosesNoValue(s: JsonSchema, v: Json, dropped: Dropped)
    requires OneOfFree(s)
    requires Accepts(s, v, dropped)
    ensures Admits(Convert(s), v)
    decreases s, 1
  {
    if s.Keywords? && !IsEmptyObject(s) {
      var r, d := Siblings(s), Convert(s);
      SiblingsLoseNoValue(s, v, dropped);
      if s.anyOf.Members? {
        var ss, images := s.anyOf.list, ConvertMembers(s.anyOf).list;
        assert d == WithAnyOf(r, ss, images);
        var i :| 0 <= i < |ss| && Verdicts(s.anyOf, v, dropped)[i];
        ConversionLosesNoValue(ss[i], v, dropped);
        assert Admits(images[i], v);
        AnyOfLosesNoValue(r, ss, images, i, v);
      }
    }
  }

  lemma AnyOfLosesNoValue(r: OpenApi, ss: seq<JsonSchema>, images: seq<OpenApi>, i: nat, v: Json)
    requires r.Doc? && ((r.nullable && v.Null?) || Holds(r, v))
    requires |ss| == |images| && i < |ss|
    requires IsNullMember(ss[i]) ==> v.Null?
    requires Admits(images[i], v)
    requires r.oneOf.NoMembers?
    ensures Admits(WithAnyOf(r, ss, images), v)
  {
    NonNullImagesAre(ss, images);
    var d := WithAnyOf(r, ss, images);
    if !(d.nullable && v.Null?) {
      if HasNullMember(ss) {
        var nonNull := NonNullImages(ss, images);
        if |nonNull| == 1 {
          assert images[i] == nonNull[0];
          MergeHolds(r, nonNull[0], v);
        } else {
          var j :| 0 <= j < |nonNull| && nonNull[j] == images[i];
          assert Rulings(Members(nonNull), v)[j];
        }
      } else {
        assert Rulings(Members(images), v)[i];
      }
    }
  }

  lemma MergeHolds(under: OpenApi, over: OpenApi, v: Json)
    requires under.Doc? && Holds(under, v)
    requires over.Doc? ==> Holds(over, v)
    ensures Holds(Merge(under, over), v)
  {
  }

  lemma {:induction false} SiblingsLoseNoValue(s: JsonSchema, v: Json, dropped: Dropped)
    requires s.Keywords? && OneOfFree(s)
    requires Accepts(s, v, dropped)
    ensures (Siblings(s).nullable && v.Null?) || Holds(Siblings(s), v)
    decreases s, 0
  {
    TypesConvert(HeadStart(s), s.typ, v);
    PropertiesLoseNoValue(s.properties, v, dropped);
    ItemsLoseNoValue(s.items, v, dropped);
    AllOfLosesNoValue(s.allOf, v, dropped);
    SiblingKeywordsHold(s, WithType(HeadStart(s), s.typ), Siblings(s), v);
  }

  lemma SiblingKeywordsHold(s: JsonSchema, h: OpenApi, d: OpenApi, v: Json)
    requires s.Keywords? && HeadOk(s, v)
    requires h.Doc? && ((h.nullable && v.Null?) || TypePartOk(h, v))
    requires d.Doc? && d.required == s.required && d.minLength == s.minLength
    requires d.typ == h.typ && d.nullable == h.nullable && d.anyOf == h.anyOf
    requires d.oneOf == NoMembers && d.negated == NoMembers
    requires d.enumeration == if s.enumeration.Some? then s.enumeration
                              else if s.constant.Some? then Some(Arr([s.constant.value])) else None
    requires PropertiesAdmit(d.properties, v) && ItemsAdmit(d.items, v)
    requires d.allOf.Members? ==> Every(Rulings(d.allOf, v))
    ensures (d.nullable && v.Null?) || Holds(d, v)
  {
  }

  lemma {:induction false} PropertiesLoseNoValue(p: Properties<JsonSchema>, v: Json, dropped: Dropped)
    requires p.Properties? ==> forall k :: k in p.of ==> OneOfFree(p.of[k])
    requires PropertiesAccept(p, v, dropped)
    ensures PropertiesAdmit(ConvertProperties(p), v)
    decreases p, 0
  {
    if p.Properties? && v.Obj? {
      forall k | k in p.of && k in v.fields
        ensures Admits(Convert(p.of[k]), v.fields[k])
      {
        ConversionLosesNoValue(p.of[k], v.fields[k], dropped);
      }
    }
  }

  lemma {:induction false} ItemsLoseNoValue(items: Items<JsonSchema>, v: Json, dropped: Dropped)
    requires items.Each? ==> OneOfFree(items.schema)
    requires items.Tuple? ==> forall i :: 0 <= i < |items.schemas| ==> OneOfFree(items.schemas[i])
    requires ItemsAccept(items, v, dropped)
    ensures ItemsAdmit(ConvertItems(items), v)
    decreases items, 0
  {
    if v.Arr? {
      match items
      case AnyItems =>
      case Each(sub) =>
        forall i | 0 <= i < |v.elems|
          ensures Admits(Convert(sub), v.elems[i])
        {
          ConversionLosesNoValue(sub, v.elems[i], dropped);
        }
      case Tuple(subs) =>
        forall i | 0 <= i < |subs| && i < |v.elems|
          ensures Admits(Convert(subs[i]), v.elems[i])
        {
          ConversionLosesNoValue(subs[i], v.elems[i], dropped);
        }
    }
  }

  lemma {:induction false} AllOfLosesNoValue(m: Members<JsonSchema>, v: Json, dropped: Dropped)
    requires m.Members? ==> forall i :: 0 <= i < |m.list| ==> OneOfFree(m.list[i])
    requires m.Members? ==> Every(Verdicts(m, v, dropped))
    ensures m.Members? ==> Every(Rulings(ConvertMembers(m), v))
    decreases m, 0
  {
    if m.Members? {
      forall i | 0 <= i < |m.list|
        ensures Rulings(ConvertMembers(m), v)[i]
      {
        assert Verdicts(m, v, dropped)[i];
        ConversionLosesNoValue(m.list[i], v, dropped);
      }
    }
  }

  // ---------------------------------------------------------------------
  // Where the conversion is exact
  // ---------------------------------------------------------------------

  predicate NoLogic(s: JsonSchema)
    requires s.Keywords?
  {
    && s.constant.None? && s.enumeration.None?
    && s.allOf.NoMembers? && s.anyOf.NoMembers? && s.oneOf.NoMembers?
  }

  /** Two places of the array hold other types than null. */
  predicate SeveralTypes(ts: seq<TypeTerm>) {
    exists i, j :: 0 <= i < j < |ts| && ts[i] != Name("null") && ts[j] != Name("null")
  }

  lemma SomeTypesAre(ts: seq<TypeTerm>)
    ensures NonNullTypes(ts) != [] <==> exists t :: t in ts && t != Name("null")
  {
    if NonNullTypes(ts) != [] { assert NonNullTypes(ts)[0] in NonNullTypes(ts); }
    if t :| t in ts && t != Name("null") { assert t in NonNullTypes(ts); }
  }

  lemma SeveralTypesCons(ts: seq<TypeTerm>)
    requires ts != []
    ensures SeveralTypes(ts) <==>
            SeveralTypes(ts[1..]) || (ts[0] != Name("null") && exists t :: t in ts[1..] && t != Name("null"))
  {
    var rest := ts[1..];
    if SeveralTypes(rest) {
      var i, j :| 0 <= i < j < |rest| && rest[i] != Name("null") && rest[j] != Name("null");
      assert ts[i + 1] == rest[i] && ts[j + 1] == rest[j];
    }
    if t :| t in rest && t != Name("null") {
      var j :| 0 <= j < |rest| && rest[j] == t;
      assert ts[j + 1] == t;
    }
    if SeveralTypes(ts) {
      var i, j :| 0 <= i < j < |ts| && ts[i] != Name("null") && ts[j] != Name("null");
      assert ts[j] == rest[j - 1] && rest[j - 1] in rest && (i > 0 ==> ts[i] == rest[i - 1]);
    }
  }

  lemma {:induction false} SeveralTypesAre(ts: seq<TypeTerm>)
    ensures SeveralTypes(ts) <==> |NonNullTypes(ts)| >= 2
  {
    if ts != [] {
      SeveralTypesAre(ts[1..]);
      SomeTypesAre(ts[1..]);
      SeveralTypesCons(ts);
    }
  }

  /** `type` arrays are not empty, and their null or their alternatives do not meet another keyword. */
  predicate TypeSettled(s: JsonSchema)
    requires s.Keywords?
  {
    s.typ.Some? && s.typ.value.Names? ==>
      var ts := s.typ.value.terms;
      && ts != []
      && (Name("null") in ts && (exists t :: t in ts && t != Name("null")) ==> NoLogic(s))
      && (SeveralTypes(ts) ==> s.anyOf.NoMembers?)
  }

  /** An `anyOf` with a null member stands alone, and that member says nothing but null. */
  predicate AnyOfSettled(s: JsonSchema)
    requires s.Keywords?
  {
    s.anyOf.Members? && (exists m :: m in s.anyOf.list && m.Keywords? && m.typ == Some(Name("null"))) ==>
      && s.required.None? && s.minLength.None? && s.constant.None? && s.enumeration.None? && s.typ.None?
      && s.properties.NoProperties? && s.items.AnyItems? && s.allOf.NoMembers? && s.oneOf.NoMembers?
      && forall m :: m in s.anyOf.list && m.Keywords? && m.typ == Some(Name("null")) ==> NoLogic(m)
  }

  /** An object schema without properties and without `additionalProperties` says no more than that. */
  predicate BareObjectSettled(s: JsonSchema)
    requires s.Keywords?
  {
    && s.typ == Some(Name("object")) && (s.properties.Properties? ==> s.properties.of == map[])
    && "additionalProperties" !in s.others ==>
      s.required.None? && NoLogic(s)
  }

  /** The schemas every keyword of which survives that the converter knows, at every depth. */
  predicate Faithful(s: JsonSchema)
    decreases s
  {
    s.Keywords? ==>
      && BareObjectSettled(s)
      && !(s.constant.Some? && s.enumeration.Some?)
      && TypeSettled(s) && AnyOfSettled(s)
      && (s.properties.Properties? ==> forall k :: k in s.properties.of ==> Faithful(s.properties.of[k]))
      && (s.items.Each? ==> Faithful(s.items.schema))
      && (s.items.Tuple? ==> forall i :: 0 <= i < |s.items.schemas| ==> Faithful(s.items.schemas[i]))
      && FaithfulMembers(s.allOf) && FaithfulMembers(s.anyOf) && FaithfulMembers(s.oneOf)
  }

  predicate FaithfulMembers(m: Members<JsonSchema>)
    decreases m
  {
    m.Members? ==> forall i :: 0 <= i < |m.list| ==> Faithful(m.list[i])
  }

  /** The keywords that the converter drops, taken as not constraining. */
  const UNCONSTRAINED: Dropped := (_, _) => true

  ghost predicate Free(dropped: Dropped) { forall s: JsonSchema, v :: dropped(s, v) }

  /**
   A faithful schema and its conversion accept the same values, whatever other
   keywords stand in it, as far as those the converter knows go.
   */
  lemma ConversionIsExact(s: JsonSchema, v: Json)
    requires Faithful(s)
    ensures Accepts(s, v, UNCONSTRAINED) <==> Admits(Convert(s), v)
  {
    SchemaIsExact(s, v, UNCONSTRAINED);
  }

  /** A dropped keyword that is not there does not constrain. */
  ghost predicate AbsentMeansFree(dropped: Dropped) {
    forall s: JsonSchema, v :: s.Keywords? && s.others == map[] ==> dropped(s, v)
  }

  /** No keyword is dropped, at any depth. */
  predicate NothingDropped(s: JsonSchema)
    decreases s
  {
    s.Keywords? ==>
      && s.others == map[]
      && (s.properties.Properties? ==> forall k :: k in s.properties.of ==> NothingDropped(s.properties.of[k]))
      && (s.items.Each? ==> NothingDropped(s.items.schema))
      && (s.items.Tuple? ==> forall i :: 0 <= i < |s.items.schemas| ==> NothingDropped(s.items.schemas[i]))
      && NoneDropped(s.allOf) && NoneDropped(s.anyOf) && NoneDropped(s.oneOf)
  }

  predicate NoneDropped(m: Members<JsonSchema>)
    decreases m
  {
    m.Members? ==> forall i :: 0 <= i < |m.list| ==> NothingDropped(m.list[i])
  }

  /** Where nothing is dropped, it does not matter what dropping means. */
  lemma {:induction false} DroppingIsMoot(s: JsonSchema, v: Json, dropped: Dropped)
    requires NothingDropped(s) && AbsentMeansFree(dropped)
    ensures Accepts(s, v, dropped) <==> Accepts(s, v, UNCONSTRAINED)
    decreases s, 1
  {
    if s.Keywords? {
      assert dropped(s, v) && UNCONSTRAINED(s, v);
      MembersMoot(s.allOf, v, dropped);
      MembersMoot(s.anyOf, v, dropped);
      MembersMoot(s.oneOf, v, dropped);
      PropertiesMoot(s.properties, v, dropped);
      ItemsMoot(s.items, v, dropped);
    }
  }

  lemma {:induction false} MembersMoot(m: Members<JsonSchema>, v: Json, dropped: Dropped)
    requires NoneDropped(m) && AbsentMeansFree(dropped)
    ensures m.Members? ==> Verdicts(m, v, dropped) == Verdicts(m, v, UNCONSTRAINED)
    decreases m, 0
  {
    if m.Members? {
      forall i | 0 <= i < |m.list|
        ensures Verdicts(m, v, dropped)[i] == Verdicts(m, v, UNCONSTRAINED)[i]
      {
        DroppingIsMoot(m.list[i], v, dropped);
      }
    }
  }

  lemma {:induction false} PropertiesMoot(p: Properties<JsonSchema>, v: Json, dropped: Dropped)
    requires p.Properties? ==> forall k :: k in p.of ==> NothingDropped(p.of[k])
    requires AbsentMeansFree(dropped)
    ensures PropertiesAccept(p, v, dropped) <==> PropertiesAccept(p, v, UNCONSTRAINED)
    decreases p, 0
  {
    if p.Properties? && v.Obj? {
      forall k | k in p.of && k in v.fields
        ensures Accepts(p.of[k], v.fields[k], dropped) <==> Accepts(p.of[k], v.fields[k], UNCONSTRAINED)
      {
        DroppingIsMoot(p.of[k], v.fields[k], dropped);
      }
    }
  }

  lemma {:induction false} ItemsMoot(items: Items<JsonSchema>, v: Json, dropped: Dropped)
    requires items.Each? ==> NothingDropped(items.schema)
    requires items.Tuple? ==> forall i :: 0 <= i < |items.schemas| ==> NothingDropped(items.schemas[i])
    requires AbsentMeansFree(dropped)
    ensures ItemsAccept(items, v, dropped) <==> ItemsAccept(items, v, UNCONSTRAINED)
    decreases items, 0
  {
    if v.Arr? {
      match items
      case AnyItems =>
      case Each(sub) =>
        forall i | 0 <= i < |v.elems|
          ensures Accepts(sub, v.elems[i], dropped) <==> Accepts(sub, v.elems[i], UNCONSTRAINED)
        {
          DroppingIsMoot(sub, v.elems[i], dropped);
        }
      case Tuple(subs) =>
        forall i | 0 <= i < |subs| && i < |v.elems|
          ensures Accepts(subs[i], v.elems[i], dropped) <==> Accepts(subs[i], v.elems[i], UNCONSTRAINED)
        {
          DroppingIsMoot(subs[i], v.elems[i], dropped);
        }
    }
  }

  /** So a faithful schema in which nothing is dropped is converted exactly in any reading of dropped keywords. */
  lemma ConversionIsExactInAnyReading(s: JsonSchema, v: Json, dropped: Dropped)
    requires Faithful(s) && NothingDropped(s) && AbsentMeansFree(dropped)
    ensures Accepts(s, v, dropped) <==> Admits(Convert(s), v)
  {
    DroppingIsMoot(s, v, dropped);
    ConversionIsExact(s, v);
  }

  lemma {:induction false} SchemaIsExact(s: JsonSchema, v: Json, dropped: Dropped)
    requires Faithful(s) && Free(dropped)
    ensures Accepts(s, v, dropped) <==> Admits(Convert(s), v)
    decreases s, 1
  {
    if s.Keywords? {
      assert dropped(s, v);
      if IsEmptyObject(s) {
        EmptyObjectExact(s, v, dropped);
      } else {
        MembersExact(s.allOf, v, dropped);
        MembersExact(s.anyOf, v, dropped);
        MembersExact(s.oneOf, v, dropped);
        ItemsExact(s.items, v, dropped);
        PropertiesExact(s.properties, v, dropped);
        if s.anyOf.Members? && HasNullMember(s.anyOf.list) {
          NullAnyOfExact(s, v, dropped);
        } else {
          PlainAnyOfExact(s, v, dropped);
        }
      }
    } else if s.Flag? {
      FlagExact(s.b, v, dropped);
    }
  }

  lemma PlainAnyOfExact(s: JsonSchema, v: Json, dropped: Dropped)
    requires s.Keywords? && !IsEmptyObject(s) && dropped(s, v) && TypeSettled(s)
    requires !(s.constant.Some? && s.enumeration.Some?)
    requires s.anyOf.Members? ==> !HasNullMember(s.anyOf.list)
    requires s.allOf.Members? ==> Verdicts(s.allOf, v, dropped) == Rulings(ConvertMembers(s.allOf), v)
    requires s.anyOf.Members? ==> Verdicts(s.anyOf, v, dropped) == Rulings(ConvertMembers(s.anyOf), v)
    requires s.oneOf.Members? ==> Verdicts(s.oneOf, v, dropped) == Rulings(ConvertMembers(s.oneOf), v)
    requires PropertiesAccept(s.properties, v, dropped) <==> PropertiesAdmit(ConvertProperties(s.properties), v)
    requires ItemsAccept(s.items, v, dropped) <==> ItemsAdmit(ConvertItems(s.items), v)
    ensures Accepts(s, v, dropped) <==> Admits(Convert(s), v)
  {
    TypesConvert(HeadStart(s), s.typ, v);
    EnumExact(s, v);
    ConvertedKeywords(s);
    KeywordsExact(s, Convert(s), WithType(HeadStart(s), s.typ), v, dropped);
  }

  lemma FlagExact(b: bool, v: Json, dropped: Dropped)
    ensures Accepts(Flag(b), v, dropped) <==> Admits(Convert(Flag(b)), v)
  {
    NotesHold(EMPTY_DOC, v);
    if !b {
      var d := Convert(Flag(b));
      assert d.negated.list[0] == EMPTY_DOC && Admits(EMPTY_DOC, v);
      assert Rulings(d.negated, v)[0];
    }
  }

  lemma EmptyObjectExact(s: JsonSchema, v: Json, dropped: Dropped)
    requires s.Keywords? && IsEmptyObject(s) && s.required.None? && NoLogic(s) && dropped(s, v)
    ensures Accepts(s, v, dropped) <==> Admits(Convert(s), v)
  {
    assert PropertiesAccept(s.properties, v, dropped);
    assert TypeOk(s.typ, v) <==> v.Obj?;
    var d := Convert(s);
    assert PropertiesAdmit(d.properties, v) && ItemsAdmit(d.items, v);
    assert Holds(d, v) <==> TypeOk(d.typ, v);
  }

  lemma EnumExact(s: JsonSchema, v: Json)
    requires s.Keywords? && !(s.constant.Some? && s.enumeration.Some?)
    ensures EnumOk(Head(s).enumeration, v) <==>
            EnumOk(s.enumeration, v) && (s.constant.Some? ==> v == s.constant.value)
  {
    assert Head(s).enumeration == if s.enumeration.Some? then s.enumeration else HeadStart(s).enumeration;
  }

  /** The conversion keyword by keyword, when `anyOf` has no null member. */
  lemma ConvertedKeywords(s: JsonSchema)
    requires s.Keywords? && !IsEmptyObject(s)
    requires s.anyOf.Members? ==> !HasNullMember(s.anyOf.list)
    ensures var h := WithType(HeadStart(s), s.typ);
            Convert(s) == Doc(s.description, s.required, s.format, s.minLength, Head(s).enumeration, h.typ, h.nullable,
                              ConvertProperties(s.properties), ConvertItems(s.items), ConvertMembers(s.allOf),
                              if s.anyOf.Members? then ConvertMembers(s.anyOf) else h.anyOf,
                              ConvertMembers(s.oneOf), NoMembers)
  {
  }

  lemma KeywordsExact(s: JsonSchema, d: OpenApi, h: OpenApi, v: Json, dropped: Dropped)
    requires s.Keywords? && TypeSettled(s) && dropped(s, v)
    requires h == WithType(HeadStart(s), s.typ)
    requires ((h.nullable && v.Null?) || TypePartOk(h, v)) <==> TypeOk(s.typ, v)
    requires d.Doc? && d.required == s.required && d.minLength == s.minLength
    requires d.typ == h.typ && d.nullable == h.nullable && d.negated == NoMembers
    requires d.anyOf == if s.anyOf.Members? then ConvertMembers(s.anyOf) else h.anyOf
    requires d.oneOf == ConvertMembers(s.oneOf) && d.allOf == ConvertMembers(s.allOf)
    requires EnumOk(d.enumeration, v) <==>
             EnumOk(s.enumeration, v) && (s.constant.Some? ==> v == s.constant.value)
    requires s.allOf.Members? ==> Verdicts(s.allOf, v, dropped) == Rulings(d.allOf, v)
    requires s.anyOf.Members? ==> Verdicts(s.anyOf, v, dropped) == Rulings(d.anyOf, v)
    requires s.oneOf.Members? ==> Verdicts(s.oneOf, v, dropped) == Rulings(d.oneOf, v)
    requires PropertiesAccept(s.properties, v, dropped) <==> PropertiesAdmit(d.properties, v)
    requires ItemsAccept(s.items, v, dropped) <==> ItemsAdmit(d.items, v)
    ensures Accepts(s, v, dropped) <==> Admits(d, v)
  {
    if s.typ.Some? && s.typ.value.Names? {
      SeveralTypesAre(s.typ.value.terms);
      SomeTypesAre(s.typ.value.terms);
    }
    if h.nullable {
      assert NoLogic(s);
    }
    assert s.anyOf.Members? ==> h.anyOf.NoMembers?;
    if h.nullable && v.Null? {
      assert PropertiesAccept(s.properties, v, dropped) && ItemsAccept(s.items, v, dropped);
      assert Accepts(s, v, dropped);
    } else {
      assert TypeOk(s.typ, v) <==> TypePartOk(h, v);
    }
  }

  lemma NullAnyOfExact(s: JsonSchema, v: Json, dropped: Dropped)
    requires s.Keywords? && Faithful(s) && !IsEmptyObject(s) && Free(dropped)
    requires s.anyOf.Members? && HasNullMember(s.anyOf.list)
    requires Verdicts(s.anyOf, v, dropped) == Rulings(ConvertMembers(s.anyOf), v)
    ensures Accepts(s, v, dropped) <==> Admits(Convert(s), v)
  {
    var ss, images := s.anyOf.list, ConvertMembers(s.anyOf).list;
    var verdicts, rulings := Verdicts(s.anyOf, v, dropped), Rulings(ConvertMembers(s.anyOf), v);
    var r, d := Siblings(s), Convert(s);
    assert d == WithAnyOf(r, ss, images);
    assert dropped(s, v);
    assert PropertiesAccept(s.properties, v, dropped) && ItemsAccept(s.items, v, dropped);
    assert Accepts(s, v, dropped) <==> Any(verdicts);
    if v.Null? {
      var i :| 0 <= i < |ss| && IsNullMember(ss[i]);
      BareNullAccepts(ss[i], v, dropped);
      assert verdicts[i];
    } else {
      NonNullImagesAre(ss, images);
      var nonNull := NonNullImages(ss, images);
      assert r == EMPTY_DOC.(description := s.description, format := s.format);
      NotesHold(r, v);
      if Any(verdicts) {
        var i :| 0 <= i < |ss| && verdicts[i];
        assert rulings[i];
        AnyOfLosesNoValue(r, ss, images, i, v);
      } else {
        forall j | 0 <= j < |nonNull|
          ensures !Admits(nonNull[j], v)
        {
          assert nonNull[j] in nonNull;
          var i :| 0 <= i < |ss| && !IsNullMember(ss[i]) && images[i] == nonNull[j];
          assert !verdicts[i] && !rulings[i];
        }
        if |nonNull| == 1 {
          MergeIntoNotes(r, nonNull[0], v);
        } else {
          assert !Any(Rulings(Members(nonNull), v));
        }
      }
    }
  }

  lemma BareNullAccepts(s: JsonSchema, v: Json, dropped: Dropped)
    requires IsNullMember(s) && NoLogic(s) && Free(dropped) && v.Null?
    ensures Accepts(s, v, dropped)
  {
    assert dropped(s, v);
    assert PropertiesAccept(s.properties, v, dropped) && ItemsAccept(s.items, v, dropped);
  }

  predicate OnlyNotes(r: OpenApi) {
    r.Doc? && r == EMPTY_DOC.(description := r.description, format := r.format)
  }

  lemma NotesHold(r: OpenApi, v: Json)
    requires OnlyNotes(r)
    ensures Holds(r, v)
  {
    assert PropertiesAdmit(r.properties, v) && ItemsAdmit(r.items, v);
  }

  lemma MergeIntoNotes(r: OpenApi, over: OpenApi, v: Json)
    requires OnlyNotes(r) && over.Doc?
    ensures var d := Merge(r, over); Holds(d.(nullable := true), v) <==> Holds(over, v)
  {
    var merged := Merge(r, over);
    var d := merged.(nullable := true);
    assert d.properties == over.properties && d.items == over.items && d.allOf == over.allOf;
    assert d.anyOf == over.anyOf && d.oneOf == over.oneOf && d.negated == over.negated;
  }

  lemma {:induction false} MembersExact(m: Members<JsonSchema>, v: Json, dropped: Dropped)
    requires FaithfulMembers(m) && Free(dropped)
    ensures m.Members? ==> Verdicts(m, v, dropped) == Rulings(ConvertMembers(m), v)
    decreases m, 0
  {
    if m.Members? {
      var images := ConvertMembers(m);
      forall i | 0 <= i < |m.list|
        ensures Accepts(m.list[i], v, dropped) <==> Admits(images.list[i], v)
      {
        SchemaIsExact(m.list[i], v, dropped);
      }
    }
  }

  lemma {:induction false} ItemsExact(items: Items<JsonSchema>, v: Json, dropped: Dropped)
    requires items.Each? ==> Faithful(items.schema)
    requires items.Tuple? ==> forall i :: 0 <= i < |items.schemas| ==> Faithful(items.schemas[i])
    requires Free(dropped)
    ensures ItemsAccept(items, v, dropped) <==> ItemsAdmit(ConvertItems(items), v)
    decreases items, 0
  {
    if v.Arr? {
      match items
      case AnyItems =>
      case Each(sub) =>
        forall i | 0 <= i < |v.elems|
          ensures Accepts(sub, v.elems[i], dropped) <==> Admits(Convert(sub), v.elems[i])
        {
          SchemaIsExact(sub, v.elems[i], dropped);
        }
      case Tuple(subs) =>
        forall i | 0 <= i < |subs| && i < |v.elems|
          ensures Accepts(subs[i], v.elems[i], dropped) <==> Admits(Convert(subs[i]), v.elems[i])
        {
          SchemaIsExact(subs[i], v.elems[i], dropped);
        }
    }
  }

  lemma {:induction false} PropertiesExact(p: Properties<JsonSchema>, v: Json, dropped: Dropped)
    requires p.Properties? ==> forall k :: k in p.of ==> Faithful(p.of[k])
    requires Free(dropped)
    ensures PropertiesAccept(p, v, dropped) <==> PropertiesAdmit(ConvertProperties(p), v)
    decreases p, 0
  {
    if p.Properties? && v.Obj? {
      forall k | k in p.of && k in v.fields
        ensures Accepts(p.of[k], v.fields[k], dropped) <==> Admits(Convert(p.of[k]), v.fields[k])
      {
        SchemaIsExact(p.of[k], v.fields[k], dropped);
      }
    }
  }

  // ---------------------------------------------------------------------
  // What the document looks like
  // ---------------------------------------------------------------------

  /** The one member of `anyOf` that is not a null schema, if there is a null schema and one other. */
  ghost predicate Collapses(s: JsonSchema, only: JsonSchema)
    requires s.Keywords?
  {
    && s.anyOf.Members? && (exists m :: m in s.anyOf.list && m.Keywords? && m.typ == Some(Name("null")))
    && exists i :: 0 <= i < |s.anyOf.list| && s.anyOf.list[i] == only &&
                   forall j :: 0 <= j < |s.anyOf.list| ==>
                     (j != i <==> s.anyOf.list[j].Keywords? && s.anyOf.list[j].typ == Some(Name("null")))
  }

  lemma {:induction false} NoImagesLeft(ss: seq<JsonSchema>, images: seq<OpenApi>)
    requires |ss| == |images| && NonNullImages(ss, images) == []
    ensures forall j :: 0 <= j < |ss| ==> IsNullMember(ss[j])
  {
    if ss != [] {
      NoImagesLeft(ss[1..], images[1..]);
      assert forall j :: 0 < j < |ss| ==> ss[j] == ss[1..][j - 1];
    }
  }

  lemma {:induction false} OneNonNullImage(ss: seq<JsonSchema>, images: seq<OpenApi>) returns (i: nat)
    requires |ss| == |images| && |NonNullImages(ss, images)| == 1
    ensures i < |ss| && !IsNullMember(ss[i]) && forall j :: 0 <= j < |ss| && j != i ==> IsNullMember(ss[j])
  {
    var rest, later := ss[1..], images[1..];
    if IsNullMember(ss[0]) {
      var k := OneNonNullImage(rest, later);
      i := k + 1;
    } else {
      NoImagesLeft(rest, later);
      i := 0;
    }
    assert forall j :: 0 < j < |ss| ==> ss[j] == rest[j - 1];
  }

  lemma KeepsNotes(s: JsonSchema)
    requires s.Keywords? && !IsEmptyObject(s)
    requires s.anyOf.Members? && HasNullMember(s.anyOf.list) ==>
               |NonNullImages(s.anyOf.list, ConvertMembers(s.anyOf).list)| != 1
    ensures Convert(s).description == s.description && Convert(s).format == s.format
  {
    var r := Siblings(s);
    assert r.description == s.description && r.format == s.format;
  }

  lemma OneImageCollapses(s: JsonSchema)
    requires s.Keywords? && s.anyOf.Members? && HasNullMember(s.anyOf.list)
    ensures |NonNullImages(s.anyOf.list, ConvertMembers(s.anyOf).list)| == 1 ==> exists only :: Collapses(s, only)
  {
    var ss, images := s.anyOf.list, ConvertMembers(s.anyOf).list;
    if |NonNullImages(ss, images)| == 1 {
      var i := OneNonNullImage(ss, images);
      var k :| 0 <= k < |ss| && IsNullMember(ss[k]);
      assert ss[k] in ss;
      assert Collapses(s, ss[i]);
    }
  }

  /**
   Description and format stay, except that a bare object has no format and a member
   that takes the place of `anyOf` may bring its own. Values that are no schemas are
   copied.
   */
  lemma NotesStay(s: JsonSchema)
    ensures s.Plain? ==> Convert(s) == Copied(s.json)
    ensures s.Keywords? && (forall only :: !Collapses(s, only)) ==>
              && Convert(s).description == s.description
              && Convert(s).format ==
                 if s.typ == Some(Name("object")) && (s.properties.Properties? ==> s.properties.of == map[]) &&
                    "additionalProperties" !in s.others then None else s.format
  {
    if s.Keywords? && !IsEmptyObject(s) && forall only :: !Collapses(s, only) {
      if s.anyOf.Members? && HasNullMember(s.anyOf.list) { OneImageCollapses(s); }
      KeepsNotes(s);
    }
  }

  lemma {:induction false} ImageOfTheOther(ss: seq<JsonSchema>, images: seq<OpenApi>, i: nat)
    requires |ss| == |images| && i < |ss| && !IsNullMember(ss[i])
    requires forall j :: 0 <= j < |ss| && j != i ==> IsNullMember(ss[j])
    ensures NonNullImages(ss, images) == [images[i]]
  {
    var rest, later := ss[1..], images[1..];
    assert forall j :: 0 < j < |ss| ==> ss[j] == rest[j - 1] && images[j] == later[j - 1];
    if i == 0 {
      NonNullImagesAre(rest, later);
      if NonNullImages(rest, later) != [] { assert NonNullImages(rest, later)[0] in NonNullImages(rest, later); }
    } else {
      ImageOfTheOther(rest, later, i - 1);
    }
  }

  /** The converted keyword of the member, if it has one, and else that of the schema around it. */
  predicate Overwrites<T(==)>(got: Option<T>, member: Option<T>, around: Option<T>) {
    (member.Some? ==> got == member) && (member.None? ==> got == around)
  }

  /** The document `d` of `s`, a member of which has become `m` and taken the place of `anyOf`. */
  predicate TakenOver(s: JsonSchema, m: OpenApi, d: OpenApi)
    requires s.Keywords? && m.Doc? && d.Doc?
  {
    && d.nullable && Overwrites(d.description, m.description, s.description)
    && Overwrites(d.required, m.required, s.required) && Overwrites(d.format, m.format, s.format)
    && Overwrites(d.minLength, m.minLength, s.minLength)
    && Overwrites(d.enumeration, m.enumeration, if s.enumeration.Some? then s.enumeration
                  else if s.constant.Some? then Some(Arr([s.constant.value])) else None)
    && (m.typ.Some? ==> d.typ == m.typ) && (m.anyOf.Members? ==> d.anyOf == m.anyOf)
    && d.properties == (if m.properties.Properties? then m.properties else ConvertProperties(s.properties))
    && d.items == (if m.items.AnyItems? then ConvertItems(s.items) else m.items)
    && d.allOf == (if m.allOf.Members? then m.allOf else ConvertMembers(s.allOf))
    && d.oneOf == (if s.oneOf.Members? then ConvertMembers(s.oneOf) else m.oneOf)
  }

  /** All but type, alternatives and `nullable` are as in `r`. */
  predicate SameBut(d: OpenApi, r: OpenApi)
    requires d.Doc? && r.Doc?
  {
    && d.description == r.description && d.required == r.required && d.format == r.format
    && d.minLength == r.minLength && d.enumeration == r.enumeration && d.oneOf == r.oneOf
  }

  lemma TypeKeepsFields(r: OpenApi, typ: Option<TypeTerm>)
    requires r.Doc?
    ensures SameBut(WithType(r, typ), r)
  {
  }

  lemma HeadFields(s: JsonSchema)
    requires s.Keywords?
    ensures SameBut(Head(s), EMPTY_DOC.(description := s.description, required := s.required, format := s.format,
                                        minLength := s.minLength, enumeration :=
              if s.enumeration.Some? then s.enumeration
              else if s.constant.Some? then Some(Arr([s.constant.value])) else None))
  {
    TypeKeepsFields(HeadStart(s), s.typ);
  }

  lemma SiblingFields(s: JsonSchema)
    requires s.Keywords?
    ensures var r := Siblings(s);
            && r.description == s.description && r.required == s.required && r.format == s.format
            && r.minLength == s.minLength && r.properties == ConvertProperties(s.properties)
            && r.items == ConvertItems(s.items) && r.allOf == ConvertMembers(s.allOf) && r.oneOf == NoMembers
            && r.enumeration == if s.enumeration.Some? then s.enumeration
                                else if s.constant.Some? then Some(Arr([s.constant.value])) else None
  {
    HeadFields(s);
  }

  lemma MergedIsTakenOver(s: JsonSchema, m: OpenApi, oneOf: Members<OpenApi>)
    requires s.Keywords? && m.Doc? && oneOf == if s.oneOf.Members? then ConvertMembers(s.oneOf) else m.oneOf
    ensures var merged := Merge(Siblings(s), m);
            TakenOver(s, m, merged.(nullable := true, oneOf := oneOf))
  {
    SiblingFields(s);
  }

  lemma CollapsedIs(s: JsonSchema, m: OpenApi)
    requires s.Keywords? && !IsEmptyObject(s) && s.anyOf.Members? && HasNullMember(s.anyOf.list)
    requires NonNullImages(s.anyOf.list, ConvertMembers(s.anyOf).list) == [m] && m.Doc?
    ensures TakenOver(s, m, Convert(s))
  {
    var r, oneOf := Siblings(s), if s.oneOf.Members? then ConvertMembers(s.oneOf) else m.oneOf;
    SiblingFields(s);
    var merged := Merge(r, m);
    assert WithAnyOf(r, s.anyOf.list, ConvertMembers(s.anyOf).list) == merged.(nullable := true);
    assert Convert(s) == merged.(nullable := true, oneOf := oneOf);
    MergedIsTakenOver(s, m, oneOf);
  }

  /** A member that takes the place of `anyOf` overwrites every keyword it has, and the rest of the schema stays. */
  lemma CollapseOverwrites(s: JsonSchema, only: JsonSchema)
    requires s.Keywords? && Collapses(s, only) && !only.Plain?
    requires s.typ == Some(Name("object")) && (s.properties.Properties? ==> s.properties.of == map[]) ==>
               "additionalProperties" in s.others
    ensures TakenOver(s, Convert(only), Convert(s))
  {
    var ss, images := s.anyOf.list, ConvertMembers(s.anyOf).list;
    var i :| 0 <= i < |ss| && ss[i] == only &&
             forall j :: 0 <= j < |ss| ==> (j != i <==> ss[j].Keywords? && ss[j].typ == Some(Name("null")));
    assert HasNullMember(ss) by {
      var n :| n in ss && n.Keywords? && n.typ == Some(Name("null"));
      var k :| 0 <= k < |ss| && ss[k] == n;
      assert IsNullMember(ss[k]);
    }
    ImageOfTheOther(ss, images, i);
    CollapsedIs(s, images[i]);
  }

  /** Type arrays hold names, not all of them null. */
  predicate PlainlyTyped(s: JsonSchema)
    decreases s
  {
    s.Keywords? ==>
      && (s.typ.Some? && s.typ.value.Names? ==>
            && (forall t :: t in s.typ.value.terms ==> t.Name?)
            && exists t :: t in s.typ.value.terms && t != Name("null"))
      && (s.properties.Properties? ==> forall k :: k in s.properties.of ==> PlainlyTyped(s.properties.of[k]))
      && (s.items.Each? ==> PlainlyTyped(s.items.schema))
      && (s.items.Tuple? ==> forall i :: 0 <= i < |s.items.schemas| ==> PlainlyTyped(s.items.schemas[i]))
      && AllPlainlyTyped(s.allOf) && AllPlainlyTyped(s.anyOf) && AllPlainlyTyped(s.oneOf)
  }

  predicate AllPlainlyTyped(m: Members<JsonSchema>)
    decreases m
  {
    m.Members? ==> forall i :: 0 <= i < |m.list| ==> PlainlyTyped(m.list[i])
  }

  /** No type arrays, and no null among alternatives, at any depth. */
  predicate InSubset(d: OpenApi)
    decreases d
  {
    d.Doc? ==>
      && (d.typ.Some? ==> !d.typ.value.Names?)
      && (d.anyOf.Members? ==> forall i :: 0 <= i < |d.anyOf.list| ==> !IsNullDoc(d.anyOf.list[i]))
      && (d.properties.Properties? ==> forall k :: k in d.properties.of ==> InSubset(d.properties.of[k]))
      && (d.items.Each? ==> InSubset(d.items.schema))
      && (d.items.Tuple? ==> forall i :: 0 <= i < |d.items.schemas| ==> InSubset(d.items.schemas[i]))
      && AllInSubset(d.allOf) && AllInSubset(d.anyOf) && AllInSubset(d.oneOf)
  }

  predicate AllInSubset(m: Members<OpenApi>)
    decreases m
  {
    m.Members? ==> forall i :: 0 <= i < |m.list| ==> InSubset(m.list[i])
  }

  predicate IsNullDoc(d: OpenApi) { d.Doc? && d.typ == Some(Name("null")) }

  /** The conversion of a plainly typed schema is in the subset, and a null document only if the schema was null. */
  ghost predicate Lands(s: JsonSchema, d: OpenApi) { InSubset(d) && (IsNullDoc(d) ==> IsNullMember(s)) }

  lemma TypesLand(r: OpenApi, typ: Option<TypeTerm>)
    requires r.Doc? && OnlyNotes(r.(required := None, minLength := None, enumeration := None))
    requires typ.Some? && typ.value.Names? ==>
               (forall t :: t in typ.value.terms ==> t.Name?) && exists t :: t in typ.value.terms && t != Name("null")
    ensures var d := WithType(r, typ);
            && InSubset(d) && (IsNullDoc(d) ==> typ == Some(Name("null")))
            && d.properties == NoProperties && d.items == AnyItems && d.allOf == NoMembers && d.oneOf == NoMembers
  {
    if typ.Some? && typ.value.Names? {
      var nn := NonNullTypes(typ.value.terms);
      SomeTypesAre(typ.value.terms);
      forall t | t in nn ensures t.Name? && t != NULL_TYPE { }
      assert forall i :: 0 <= i < |nn| ==> nn[i] in nn;
      var docs := TypeDocs(nn);
      assert forall i :: 0 <= i < |docs| ==> docs[i] == EMPTY_DOC.(typ := Some(nn[i]));
    }
  }

  lemma MergeLands(s: JsonSchema, r: OpenApi, over: OpenApi)
    requires r.Doc? && Lands(s, r) && InSubset(over) && !IsNullDoc(over)
    ensures Merge(r, over).Doc? && Lands(s, Merge(r, over).(nullable := true))
  {
  }

  lemma AnyOfLands(s: JsonSchema, r: OpenApi, ss: seq<JsonSchema>, images: seq<OpenApi>)
    requires r.Doc? && Lands(s, r) && |ss| == |images| && forall i :: 0 <= i < |ss| ==> Lands(ss[i], images[i])
    ensures Lands(s, WithAnyOf(r, ss, images))
  {
    NonNullImagesAre(ss, images);
    var nonNull := NonNullImages(ss, images);
    forall i | 0 <= i < |nonNull|
      ensures InSubset(nonNull[i]) && !IsNullDoc(nonNull[i])
    {
      assert nonNull[i] in nonNull;
    }
    if HasNullMember(ss) && |nonNull| == 1 { MergeLands(s, r, nonNull[0]); }
  }

  /** Plainly typed schemas are converted into the subset: no type arrays, and no null among alternatives. */
  lemma {:induction false} ConversionIsInSubset(s: JsonSchema)
    requires PlainlyTyped(s)
    ensures Lands(s, Convert(s))
    decreases s, 1
  {
    if s.Keywords? && !IsEmptyObject(s) {
      TypesLand(HeadStart(s), s.typ);
      PropertiesLand(s.properties);
      ItemsLand(s.items);
      MembersLand(s.allOf);
      MembersLand(s.anyOf);
      MembersLand(s.oneOf);
      SiblingsLand(s);
      AnyAndOneLand(s);
    }
  }

  lemma SiblingsLand(s: JsonSchema)
    requires s.Keywords? && InSubset(Head(s)) && (IsNullDoc(Head(s)) ==> IsNullMember(s))
    requires PropertiesInSubset(ConvertProperties(s.properties)) && ItemsInSubset(ConvertItems(s.items))
    requires AllInSubset(ConvertMembers(s.allOf))
    ensures Lands(s, Siblings(s))
  {
  }

  lemma AnyAndOneLand(s: JsonSchema)
    requires s.Keywords? && !IsEmptyObject(s) && Lands(s, Siblings(s)) && AllInSubset(ConvertMembers(s.oneOf))
    requires s.anyOf.Members? ==>
               forall i :: 0 <= i < |s.anyOf.list| ==> Lands(s.anyOf.list[i], Convert(s.anyOf.list[i]))
    ensures Lands(s, Convert(s))
  {
    if s.anyOf.Members? { AnyOfLands(s, Siblings(s), s.anyOf.list, ConvertMembers(s.anyOf).list); }
  }

  predicate PropertiesInSubset(p: Properties<OpenApi>) { p.Properties? ==> forall k :: k in p.of ==> InSubset(p.of[k]) }

  predicate ItemsInSubset(items: Items<OpenApi>) {
    && (items.Each? ==> InSubset(items.schema))
    && (items.Tuple? ==> forall i :: 0 <= i < |items.schemas| ==> InSubset(items.schemas[i]))
  }

  lemma {:induction false} MembersLand(m: Members<JsonSchema>)
    requires AllPlainlyTyped(m)
    ensures AllInSubset(ConvertMembers(m))
    ensures m.Members? ==> forall i :: 0 <= i < |m.list| ==> Lands(m.list[i], Convert(m.list[i]))
    decreases m, 0
  {
    if m.Members? {
      forall i | 0 <= i < |m.list|
        ensures Lands(m.list[i], Convert(m.list[i]))
      {
        ConversionIsInSubset(m.list[i]);
      }
    }
  }

  lemma {:induction false} PropertiesLand(p: Properties<JsonSchema>)
    requires p.Properties? ==> forall k :: k in p.of ==> PlainlyTyped(p.of[k])
    ensures PropertiesInSubset(ConvertProperties(p))
    decreases p, 0
  {
    if p.Properties? {
      forall k | k in p.of
        ensures InSubset(Convert(p.of[k]))
      {
        ConversionIsInSubset(p.of[k]);
      }
    }
  }

  lemma {:induction false} ItemsLand(items: Items<JsonSchema>)
    requires items.Each? ==> PlainlyTyped(items.schema)
    requires items.Tuple? ==> forall i :: 0 <= i < |items.schemas| ==> PlainlyTyped(items.schemas[i])
    ensures ItemsInSubset(ConvertItems(items))
    decreases items, 0
  {
    match items
    case AnyItems =>
    case Each(sub) => ConversionIsInSubset(sub);
    case Tuple(subs) =>
      forall i | 0 <= i < |subs|
        ensures InSubset(Convert(subs[i]))
      {
        ConversionIsInSubset(subs[i]);
      }
  }

  // ---------------------------------------------------------------------
  // Why each restriction is there: schemas that change meaning
  // ---------------------------------------------------------------------

  /** A property-less object member loses its `required`, and `oneOf` then matches twice. */
  lemma OneOfCanLoseAValue(dropped: Dropped)
    requires AbsentMeansFree(dropped)
    ensures exists s, v :: Accepts(s, v, dropped) && !Admits(Convert(s), v)
  {
    var a := EMPTY_SCHEMA.(typ := Some(OBJECT_TYPE), required := Some(Arr([Str("a")])));
    var b := EMPTY_SCHEMA.(typ := Some(OBJECT_TYPE));
    var s := EMPTY_SCHEMA.(oneOf := Members([a, b]));
    var v := Obj(map[]);
    assert dropped(a, v) && dropped(b, v) && dropped(s, v);
    var verdicts := Verdicts(s.oneOf, v, dropped);
    assert a.required.value.elems[0] == Str("a");
    assert !RequiredOk(a.required, v);
    assert !Accepts(a, v, dropped) && !verdicts[0];
    assert Accepts(b, v, dropped);
    assert verdicts[1];
    assert ExactlyOne(verdicts);
    assert Accepts(s, v, dropped);
    assert IsEmptyObject(a) && IsEmptyObject(b) && !IsEmptyObject(s);
    assert Convert(a) == TypeOnly(OBJECT_TYPE) && Convert(b) == TypeOnly(OBJECT_TYPE);
    assert ConvertMembers(s.oneOf).list[0] == Convert(a) && ConvertMembers(s.oneOf).list[1] == Convert(b);
    var images := ConvertMembers(s.oneOf);
    assert Convert(s) == EMPTY_DOC.(oneOf := images);
    assert Holds(TypeOnly(OBJECT_TYPE), v);
    assert Admits(images.list[0], v) && Admits(images.list[1], v);
    assert Rulings(images, v)[0] && Rulings(images, v)[1];
    assert !Admits(Convert(s), v);
  }

  function TypeOnly(t: TypeTerm): OpenApi { EMPTY_DOC.(typ := Some(t)) }

  /** `nullable` outranks every sibling: `allOf` here, `oneOf` below. */
  lemma NullableOutranksAllOf(dropped: Dropped)
    requires AbsentMeansFree(dropped)
    ensures var s := EMPTY_SCHEMA.(typ := Some(Names([Name("string"), NULL_TYPE])),
                                   allOf := Members([EMPTY_SCHEMA.(typ := Some(Name("string")))]));
            !Accepts(s, Null, dropped) && Admits(Convert(s), Null)
  {
    var sub := EMPTY_SCHEMA.(typ := Some(Name("string")));
    var ts := [Name("string"), NULL_TYPE];
    var s := EMPTY_SCHEMA.(typ := Some(Names(ts)), allOf := Members([sub]));
    assert !Accepts(sub, Null, dropped);
    assert !Verdicts(s.allOf, Null, dropped)[0];
    assert ts[1..] == [NULL_TYPE] && ts[1..][1..] == [];
    assert NonNullTypes(ts[1..]) == [];
    assert NonNullTypes(ts) == [Name("string")];
    assert ts[1] == NULL_TYPE;
    assert Head(s).nullable;
  }

  lemma NullableOutranksOneOf(dropped: Dropped)
    requires AbsentMeansFree(dropped)
    ensures var s := EMPTY_SCHEMA.(typ := Some(Names([Name("string"), NULL_TYPE])),
                                   oneOf := Members([EMPTY_SCHEMA.(typ := Some(Name("string")))]));
            !Accepts(s, Null, dropped) && Admits(Convert(s), Null)
  {
    var sub := EMPTY_SCHEMA.(typ := Some(Name("string")));
    var ts := [Name("string"), NULL_TYPE];
    var s := EMPTY_SCHEMA.(typ := Some(Names(ts)), oneOf := Members([sub]));
    assert !Accepts(sub, Null, dropped);
    assert !Verdicts(s.oneOf, Null, dropped)[0];
    assert ts[1..] == [NULL_TYPE] && ts[1..][1..] == [];
    assert NonNullTypes(ts[1..]) == [];
    assert NonNullTypes(ts) == [Name("string")];
    assert ts[1] == NULL_TYPE;
    assert Head(s).nullable;
  }

  /** No value has one of no types, but the conversion admits null. */
  lemma EmptyTypeArrayAdmitsNull(dropped: Dropped)
    ensures !Accepts(EMPTY_SCHEMA.(typ := Some(Names([]))), Null, dropped)
    ensures Admits(Convert(EMPTY_SCHEMA.(typ := Some(Names([])))), Null)
  {
    var s := EMPTY_SCHEMA.(typ := Some(Names([])));
    assert Convert(s) == TypeOnly(NULL_TYPE);
    assert Holds(TypeOnly(NULL_TYPE), Null);
  }

  /** The keywords of a collapsed `anyOf` member replace their siblings. */
  lemma CollapsedAnyOfReplacesSiblings(dropped: Dropped)
    ensures var s := EMPTY_SCHEMA.(typ := Some(Name("string")),
                                   anyOf := Members([EMPTY_SCHEMA.(typ := Some(Name("number"))),
                                                     EMPTY_SCHEMA.(typ := Some(NULL_TYPE))]));
            !Accepts(s, Num(ONE), dropped) && Admits(Convert(s), Num(ONE))
  {
    var a, b := EMPTY_SCHEMA.(typ := Some(Name("number"))), EMPTY_SCHEMA.(typ := Some(NULL_TYPE));
    var s := EMPTY_SCHEMA.(typ := Some(Name("string")), anyOf := Members([a, b]));
    var v := Num(ONE);
    assert !TypeOk(s.typ, v);
    var images := ConvertMembers(s.anyOf).list;
    assert "number"[0] == 'n' && "object"[0] == 'o' && "string"[0] == 's';
    assert !IsEmptyObject(a) && !IsEmptyObject(s);
    assert Convert(a) == TypeOnly(Name("number"));
    assert images[0] == Convert(a);
    assert IsNullMember([a, b][1]) && !IsNullMember(a);
    assert [a, b][1..] == [b] && [b][1..] == [];
    assert NonNullImages([b][1..], images[1..][1..]) == [];
    assert NonNullImages([b], images[1..]) == [];
    assert NonNullImages([a, b], images) == [images[0]];
    var d := Convert(s);
    assert d == TypeOnly(Name("number")).(nullable := true);
    assert Holds(d, v);
  }

  /** An explicit `enum` replaces the `const` beside it. */
  lemma EnumReplacesConst(dropped: Dropped)
    ensures var s := EMPTY_SCHEMA.(constant := Some(Str("a")), enumeration := Some(Arr([Str("b")])));
            !Accepts(s, Str("b"), dropped) && Admits(Convert(s), Str("b"))
  {
    var s := EMPTY_SCHEMA.(constant := Some(Str("a")), enumeration := Some(Arr([Str("b")])));
    assert Str("b").s[0] == 'b';
    var d := Convert(s);
    assert d == EMPTY_DOC.(enumeration := s.enumeration);
    assert Str("b") in d.enumeration.value.elems;
    assert Holds(d, Str("b"));
  }
}
