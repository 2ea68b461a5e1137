/** The schema conversion said keyword by keyword, without the converter's own helpers. */
module SchemaReading {
  import opened JsonValue
  import opened Wrappers
  import opened SchemaConversion
  import Lists = Sequences

  predicate IsNull(s: JsonSchema) { s.Keywords? && s.typ == Some(Name("null")) }

  function NotNull(t: TypeTerm): seq<TypeTerm> { if t == Name("null") then [] else [t] }

  function ImageUnlessNull(s: JsonSchema): seq<OpenApi> { if IsNull(s) then [] else [Convert(s)] }

  function Images(m: Members<JsonSchema>): Members<OpenApi> {
    match m
    case NoMembers => NoMembers
    case Members(ss) => Members(seq(|ss|, i requires 0 <= i < |ss| => Convert(ss[i])))
  }

  function PropertyImages(p: Properties<JsonSchema>): Properties<OpenApi> {
    match p
    case NoProperties => NoProperties
    case Properties(of) => Properties(map k | k in of :: Convert(of[k]))
  }

  function ItemImages(items: Items<JsonSchema>): Items<OpenApi> {
    match items
    case AnyItems => AnyItems
    case Each(s) => Items.Each(Convert(s))
    case Tuple(ss) => Tuple(seq(|ss|, i requires 0 <= i < |ss| => Convert(ss[i])))
  }

  /** An object without properties, and without `additionalProperties`. */
  predicate IsBare(s: JsonSchema)
    requires s.Keywords?
  {
    && s.typ == Some(Name("object")) && (s.properties == NoProperties || s.properties == Properties(map[]))
    && "additionalProperties" !in s.others
  }

  function TypesNamed(s: JsonSchema): seq<TypeTerm>
    requires s.Keywords?
  {
    match s.typ
    case Some(Names(ts)) => Lists.Each(NotNull, ts)
    case _ => []
  }

  /** A name stays, of an array the one that is not null, and null if there is none. */
  function ToldType(s: JsonSchema): Option<TypeTerm>
    requires s.Keywords?
  {
    match s.typ
    case Some(Name(name)) => Some(Name(name))
    case Some(Names(ts)) =>
      if |TypesNamed(s)| == 0 then Some(Name("null")) else if |TypesNamed(s)| == 1 then Some(TypesNamed(s)[0]) else None
    case _ => None
  }

  /** Several names become alternatives. */
  function ToldAlternatives(s: JsonSchema): Members<OpenApi>
    requires s.Keywords?
  {
    var ts := TypesNamed(s);
    if |ts| < 2 then NoMembers
    else Members(seq(|ts|, i requires 0 <= i < |ts| =>
                       Doc(None, None, None, None, None, Some(ts[i]), false, NoProperties, AnyItems, NoMembers,
                           NoMembers, NoMembers, NoMembers)))
  }

  predicate NamesNull(s: JsonSchema)
    requires s.Keywords?
  {
    s.typ.Some? && s.typ.value.Names? && Name("null") in s.typ.value.terms && |TypesNamed(s)| > 0
  }

  predicate OffersNull(s: JsonSchema)
    requires s.Keywords?
  {
    s.anyOf.Members? && exists m :: m in s.anyOf.list && IsNull(m)
  }

  /** Everything but `anyOf` and `oneOf`; `enum` outranks `const`. */
  function ToldSiblings(s: JsonSchema): OpenApi
    requires s.Keywords?
  {
    Doc(s.description, s.required, s.format, s.minLength,
        if s.enumeration.Some? then s.enumeration
        else if s.constant.Some? then Some(Arr([s.constant.value])) else None,
        ToldType(s), NamesNull(s), PropertyImages(s.properties), ItemImages(s.items), Images(s.allOf),
        ToldAlternatives(s), NoMembers, NoMembers)
  }

  /** What `m` has, and what it has not as in `d`. */
  function Under(m: OpenApi, d: OpenApi): OpenApi
    requires d.Doc?
  {
    match m
    case Copied(_) => d
    case Doc(description, required, format, minLength, enumeration, typ, nullable, properties, items, allOf, anyOf,
             oneOf, negated) =>
      Doc(if description.Some? then description else d.description, if required.Some? then required else d.required,
          if format.Some? then format else d.format, if minLength.Some? then minLength else d.minLength,
          if enumeration.Some? then enumeration else d.enumeration, if typ.Some? then typ else d.typ,
          nullable || d.nullable, if properties.Properties? then properties else d.properties,
          if items.AnyItems? then d.items else items, if allOf.Members? then allOf else d.allOf,
          if anyOf.Members? then anyOf else d.anyOf, if oneOf.Members? then oneOf else d.oneOf,
          if negated.Members? then negated else d.negated)
  }

  /** A null among the alternatives is left out; if one remains, it takes the place of them all. */
  function ToldAnyOf(s: JsonSchema): OpenApi
    requires s.Keywords?
  {
    var d := ToldSiblings(s);
    if s.anyOf.NoMembers? then d
    else if !OffersNull(s) then d.(anyOf := Images(s.anyOf))
    else
      var remaining := Lists.Each(ImageUnlessNull, s.anyOf.list);
      if |remaining| == 1 then Under(remaining[0], d).(nullable := true)
      else d.(anyOf := Members(remaining), nullable := true)
  }

  function Told(s: JsonSchema): OpenApi {
    match s
    case Plain(json) => Copied(json)
    case Flag(b) =>
      var empty := Doc(None, None, None, None, None, None, false, NoProperties, AnyItems, NoMembers, NoMembers,
                       NoMembers, NoMembers);
      if b then empty else empty.(negated := Members([empty]))
    case Keywords(description, _, _, _, _, _, _, _, _, _, _, oneOf, _) =>
      if IsBare(s) then
        Doc(description, None, None, None, None, Some(Name("object")), false, NoProperties, AnyItems, NoMembers,
            NoMembers, NoMembers, NoMembers)
      else if oneOf.Members? then ToldAnyOf(s).(oneOf := Images(oneOf))
      else ToldAnyOf(s)
  }

  // ---------------------------------------------------------------------
  // And that it is
  // ---------------------------------------------------------------------

  lemma {:induction false} TypesAreTold(ts: seq<TypeTerm>)
    ensures NonNullTypes(ts) == Lists.Each(NotNull, ts)
  {
    if ts != [] { TypesAreTold(ts[1..]); }
  }

  lemma {:induction false} RemainingAreTold(ss: seq<JsonSchema>, images: seq<OpenApi>)
    requires |ss| == |images| && forall i :: 0 <= i < |ss| ==> images[i] == Convert(ss[i])
    ensures NonNullImages(ss, images) == Lists.Each(ImageUnlessNull, ss)
  {
    if ss != [] { RemainingAreTold(ss[1..], images[1..]); }
  }

  lemma NullIsOffered(s: JsonSchema)
    requires s.Keywords? && s.anyOf.Members?
    ensures HasNullMember(s.anyOf.list) <==> OffersNull(s)
  {
    var ss := s.anyOf.list;
    if i :| 0 <= i < |ss| && IsNullMember(ss[i]) { assert ss[i] in ss && IsNull(ss[i]); }
    if m :| m in ss && IsNull(m) {
      var i :| 0 <= i < |ss| && ss[i] == m;
      assert IsNullMember(ss[i]);
    }
  }

  lemma ChildrenAreTold(s: JsonSchema)
    requires s.Keywords?
    ensures ConvertMembers(s.allOf) == Images(s.allOf) && ConvertMembers(s.anyOf) == Images(s.anyOf)
    ensures ConvertMembers(s.oneOf) == Images(s.oneOf)
    ensures ConvertItems(s.items) == ItemImages(s.items)
    ensures ConvertProperties(s.properties) == PropertyImages(s.properties)
  {
  }

  lemma HeadIsTold(s: JsonSchema)
    requires s.Keywords?
    ensures Head(s).Doc?
    ensures ToldSiblings(s) == Head(s).(properties := PropertyImages(s.properties), items := ItemImages(s.items),
                                        allOf := Images(s.allOf))
  {
    if s.typ.Some? && s.typ.value.Names? {
      var ts := TypesNamed(s);
      TypesAreTold(s.typ.value.terms);
      if |ts| >= 2 { assert TypeDocs(ts) == ToldAlternatives(s).list; }
    }
  }

  lemma UnderIsMerged(d: OpenApi, m: OpenApi)
    requires d.Doc?
    ensures Merge(d, m) == Under(m, d)
  {
  }

  lemma AnyOfIsTold(s: JsonSchema)
    requires s.Keywords?
    ensures ToldAnyOf(s) == if s.anyOf.Members? then WithAnyOf(ToldSiblings(s), s.anyOf.list, Images(s.anyOf).list)
                            else ToldSiblings(s)
  {
    if s.anyOf.Members? {
      NullIsOffered(s);
      RemainingAreTold(s.anyOf.list, Images(s.anyOf).list);
      var remaining := Lists.Each(ImageUnlessNull, s.anyOf.list);
      if |remaining| == 1 { UnderIsMerged(ToldSiblings(s), remaining[0]); }
    }
  }

  /** Every schema is converted so, keyword by keyword. */
  lemma KeywordsAreTold(s: JsonSchema)
    ensures Convert(s) == Told(s)
  {
    if s.Keywords? {
      assert IsBare(s) <==> IsEmptyObject(s);
      ChildrenAreTold(s);
      HeadIsTold(s);
      AnyOfIsTold(s);
    }
  }
}
