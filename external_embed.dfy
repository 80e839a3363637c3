/** `ExternalEmbed(CBORObject)`: a link card decoded from a CBOR map. */
module ExternalEmbedRecord {
  import opened Outcomes
  import opened CborValues
  import opened Constants

  /** What `new Image(obj["thumb"])` makes of the thumb value; not modelled. */
  datatype ImageFrom = ImageFrom(source: Cbor)

  /** The get-only properties of a decoded ExternalEmbed. */
  datatype ExternalEmbed = ExternalEmbed(
    embedType: string,
    thumb: Option<ImageFrom>,
    uri: string,
    title: string,
    description: string)

  /** The constructor, in statement order. */
  function DecodeExternalEmbed(obj: Cbor, k: EmbedTypes): (r: Outcome<ExternalEmbed, CborError>)
    ensures r.Value? ==> obj.CMap? && r.value.embedType == k.external
    ensures !(obj.CMap? || obj.CArray?) ==> r == Throws(NotAMapOrArray)
  {
    var thumbValue :- Index(obj, "thumb");
    // `is not null` tests the C# reference, so a CBOR null still builds an Image.
    var thumb := if thumbValue.Some? then Some(ImageFrom(thumbValue.value)) else None;
    // The first indexer call succeeded, so `obj` is a map and the later ones cannot throw.
    var uriText :- AsString(Field(obj, "uri"));
    var titleText :- AsString(Field(obj, "title"));
    var descriptionText :- AsString(Field(obj, "description"));
    Value(ExternalEmbed(k.external, thumb, uriText, titleText, descriptionText))
  }

  function Field(obj: Cbor, key: string): Option<Cbor>
    requires obj.CMap?
  {
    Lookup(obj.entries, CText(key))
  }

  predicate TextField(obj: Cbor, key: string)
    requires obj.CMap?
  {
    Field(obj, key).Some? && Field(obj, key).value.CText?
  }

  /** Decoding succeeds exactly on a map whose `uri`, `title` and
      `description` are all text strings; then each property is the text of
      the key of the same name, the type is the External tag, and a thumb is
      built exactly when a `thumb` key is present. */
  lemma ExternalEmbedDecodes(obj: Cbor, k: EmbedTypes)
    ensures DecodeExternalEmbed(obj, k).Value? <==>
            obj.CMap? && TextField(obj, "uri") && TextField(obj, "title") && TextField(obj, "description")
    ensures DecodeExternalEmbed(obj, k).Value? ==>
            var e := DecodeExternalEmbed(obj, k).value;
            && e.embedType == k.external
            && e.uri == Field(obj, "uri").value.s
            && e.title == Field(obj, "title").value.s
            && e.description == Field(obj, "description").value.s
            && (e.thumb.Some? <==> Field(obj, "thumb").Some?)
            && (e.thumb.Some? ==> e.thumb.value.source == Field(obj, "thumb").value)
  {
  }

  /** Unlike the embed check of Post, a `thumb` holding CBOR null still yields a thumb. */
  lemma NullThumbStillBuilt(obj: Cbor, k: EmbedTypes)
    requires obj.CMap? && Field(obj, "thumb") == Some(CNull)
    requires TextField(obj, "uri") && TextField(obj, "title") && TextField(obj, "description")
    ensures DecodeExternalEmbed(obj, k).Value?
    ensures DecodeExternalEmbed(obj, k).value.thumb == Some(ImageFrom(CNull))
  {
  }
}
