/** `Post(CBORObject)`: a feed post record decoded from a CBOR map. */
module PostRecord {
  import opened Outcomes
  import opened CborValues

  /** What `ToEmbed()` makes of the `embed` value; the conversion is not modelled. */
  datatype EmbedFrom = EmbedFrom(source: Cbor)

  /** What `ToDateTime()` makes of the `createdAt` value (or of its absence). */
  datatype DateTimeFrom = DateTimeFrom(source: Option<Cbor>)

  /** `new Facet(n)` for one element of `facets`. */
  datatype FacetFrom = FacetFrom(source: Cbor)

  /** The get-only properties of a decoded Post. */
  datatype Post = Post(
    recordType: string,
    embed: Option<EmbedFrom>,
    createdAt: DateTimeFrom,
    text: string,
    langs: Option<seq<string>>,
    facets: Option<seq<FacetFrom>>)

  /** `!obj["embed"]?.IsNull ?? false`: present and not CBOR null. */
  predicate EmbedPresent(v: Option<Cbor>) {
    v.Some? && !v.value.CNull?
  }

  /** `obj[key]?.Values.Select(n => n.AsString()).ToArray()`. */
  function StringArray(v: Option<Cbor>): Outcome<Option<seq<string>>, CborError> {
    if v.None? then Value(None)
    else
      var vs :- Values(v.value);
      var ss :- AllAsString(vs);
      Value(Some(ss))
  }

  /** `obj[key]?.Values.Select(n => new Facet(n)).ToArray()`. */
  function FacetArray(v: Option<Cbor>): Outcome<Option<seq<FacetFrom>>, CborError> {
    if v.None? then Value(None)
    else
      var vs :- Values(v.value);
      Value(Some(seq(|vs|, i requires 0 <= i < |vs| => FacetFrom(vs[i]))))
  }

  /** The constructor, in statement order; `postType` is `Constants.FeedType.Post`. */
  function DecodePost(obj: Cbor, postType: string): (r: Outcome<Post, CborError>)
    ensures r.Value? ==> obj.CMap? && r.value.recordType == postType
    ensures !(obj.CMap? || obj.CArray?) ==> r == Throws(NotAMapOrArray)
  {
    var embedValue :- Index(obj, "embed");
    var embed := if EmbedPresent(embedValue) then Some(EmbedFrom(embedValue.value)) else None;
    // The first indexer call succeeded, so `obj` is a map and the later ones cannot throw.
    var createdAt := Field(obj, "createdAt");
    var text :- AsString(Field(obj, "text"));
    var langs :- StringArray(Field(obj, "langs"));
    var facets :- FacetArray(Field(obj, "facets"));
    Value(Post(postType, embed, DateTimeFrom(createdAt), text, langs, facets))
  }

  // ---------------------------------------------------------------------
  // Properties of DecodePost

  /** The value of `key` in a CBOR map. */
  function Field(obj: Cbor, key: string): Option<Cbor>
    requires obj.CMap?
  {
    Lookup(obj.entries, CText(key))
  }

  /** A collection-valued field the constructor can read as strings. */
  predicate StringsOrAbsent(v: Option<Cbor>) {
    v.None? || ((v.value.CArray? || v.value.CMap?) && AllText(Values(v.value).value))
  }

  /** A collection-valued field the constructor can read as facets. */
  predicate CollectionOrAbsent(v: Option<Cbor>) {
    v.None? || v.value.CArray? || v.value.CMap?
  }

  /** Decoding succeeds exactly on a map whose `text` is a text string, whose
      `langs` is absent or a collection of text strings, and whose `facets`
      is absent or a collection. */
  lemma PostDecodesExactly(obj: Cbor, postType: string)
    ensures DecodePost(obj, postType).Value? <==>
            && obj.CMap?
            && Field(obj, "text").Some? && Field(obj, "text").value.CText?
            && StringsOrAbsent(Field(obj, "langs"))
            && CollectionOrAbsent(Field(obj, "facets"))
  {
  }

  /** Each property of a decoded post against the map it came from. */
  lemma PostFields(obj: Cbor, postType: string)
    requires DecodePost(obj, postType).Value?
    ensures obj.CMap?
    ensures var p := DecodePost(obj, postType).value;
      && (p.embed.Some? <==> Field(obj, "embed").Some? && !Field(obj, "embed").value.CNull?)
      && (p.embed.Some? ==> p.embed.value.source == Field(obj, "embed").value)
      && p.createdAt.source == Field(obj, "createdAt")
      && p.text == Field(obj, "text").value.s
      && (p.langs.None? <==> Field(obj, "langs").None?)
      && (p.facets.None? <==> Field(obj, "facets").None?)
  {
  }

  /** `Langs`: same length and order as the input collection, element by element. */
  lemma PostLangsInOrder(obj: Cbor, postType: string)
    requires DecodePost(obj, postType).Value?
    requires obj.CMap? && Field(obj, "langs").Some?
    ensures var langs := DecodePost(obj, postType).value.langs;
            var vs := Values(Field(obj, "langs").value).value;
            langs.Some? && |langs.value| == |vs|
            && forall i :: 0 <= i < |vs| ==> langs.value[i] == vs[i].s
  {
  }

  /** `Facets`: one facet per input element, in order. */
  lemma PostFacetsInOrder(obj: Cbor, postType: string)
    requires DecodePost(obj, postType).Value?
    requires obj.CMap? && Field(obj, "facets").Some?
    ensures var facets := DecodePost(obj, postType).value.facets;
            var vs := Values(Field(obj, "facets").value).value;
            facets.Some? && |facets.value| == |vs|
            && forall i :: 0 <= i < |vs| ==> facets.value[i] == FacetFrom(vs[i])
  {
  }

  /** A missing `text` key makes `AsString` a call on null. */
  lemma PostWithoutTextThrows(obj: Cbor, postType: string)
    requires obj.CMap? && Field(obj, "text").None?
    ensures DecodePost(obj, postType) == Throws(NullReference)
  {
  }
}
