/** The JSON converter for embeds: dispatch on the `$type` tag of an
    already-parsed object to one of eight embed shapes, or to null. */
module EmbedConverter {
  import opened Outcomes
  import opened Whitespace
  import opened JsonDom
  import opened Constants

  /** What `JsonDocument.TryParseValue` makes of the reader: a parsed value,
      false when the reader holds an incomplete value, or an exception for
      malformed text. */
  datatype ReaderInput = Parsed(root: Json) | Incomplete | Malformed

  /** The six embed shapes that need one sibling field besides `$type`. */
  datatype SingleShape = ImageView | ExternalView | Images | External | Record | RecordView

  /** A decoded embed. Deserialising into a typed embed is the serializer's
      business and stays abstract: a value records which type was asked for
      and the JSON tree it was deserialised from. */
  datatype Embed =
    | Single(shape: SingleShape, source: Json)
      /** a RecordViewEmbed from `record` and an ImageViewEmbed from `media`, either possibly null */
    | RecordWithMediaView(record: Option<Json>, media: Option<Json>)
      /** a RecordEmbed from `record` and an ImagesEmbed from `media`, either possibly null */
    | RecordWithMedia(record: Option<Json>, media: Option<Json>)

  /** The tag each single shape is selected by. */
  function TagOf(k: EmbedTypes, shape: SingleShape): string {
    match shape
    case ImageView => k.imageView
    case ExternalView => k.externalView
    case Images => k.images
    case External => k.external
    case Record => k.record
    case RecordView => k.recordView
  }

  /** The sibling property a single shape requires. */
  function Sibling(shape: SingleShape): string {
    match shape
    case ImageView => "images"
    case ExternalView => "external"
    case Images => "images"
    case External => "external"
    case Record => "record"
    case RecordView => "record"
  }

  /** The tag a decoded embed was selected by. */
  function TagOfEmbed(k: EmbedTypes, e: Embed): string {
    match e
    case Single(shape, _) => TagOf(k, shape)
    case RecordWithMediaView(_, _) => k.recordWithMediaView
    case RecordWithMedia(_, _) => k.recordWithMedia
  }

  /** `JsonSerializer.Deserialize<T>(element.GetRawText())` for a class type T:
      a JSON null gives null, an object gives a T, anything else throws. */
  function Deserialize(j: Json): (r: Outcome<Option<Json>, JsonError>)
    ensures r == Value(None) <==> j.JNull?
    ensures r == Value(Some(j)) <==> j.JObject?
    ensures r.Throws? <==> !(j.JNull? || j.JObject?)
  {
    match j
    case JNull => Value(None)
    case JObject(_) => Value(Some(j))
    case _ => Throws(JsonException)
  }

  /** `GetString()?.Trim() ?? string.Empty` on a `$type` element. */
  function TagText(t: Json): (r: Outcome<string, JsonError>)
    ensures r.Throws? <==> !(t.JString? || t.JNull?)
    ensures t.JNull? ==> r == Value("")
    ensures t.JString? ==> r == Value(Trim(t.s))
  {
    var s :- GetString(t);
    Value(if s.Some? then Trim(s.value) else "")
  }

  /** A single-shape case: when the sibling is present the WHOLE root is
      deserialised; when it is missing the switch breaks out to `return default`. */
  function ReadSingle(root: Json, shape: SingleShape): (r: Outcome<Option<Embed>, JsonError>)
    requires root.JObject?
    ensures r.Value?
    ensures r.value.Some? <==> LastMember(root.members, Sibling(shape)).Some?
    ensures r.value.Some? ==> r.value.value == Single(shape, root)
  {
    // TryGetProperty on an object never throws.
    if LastMember(root.members, Sibling(shape)).None? then Value(None)
    else
      // An object always deserialises to a typed value.
      var item := Deserialize(root).value;
      Value(if item.Some? then Some(Single(shape, item.value)) else None)
  }

  /** The record part of a composite: deserialised from the `record` property alone. */
  function RecordPart(root: Json): (r: Outcome<Option<Json>, JsonError>)
    requires root.JObject?
    ensures r.Throws? ==> r.error == JsonException && LastMember(root.members, "record").Some?
    ensures r.Value? && r.value.Some? ==> LastMember(root.members, "record") == r.value && r.value.value.JObject?
  {
    var record := LastMember(root.members, "record");
    if record.None? then Value(None) else Deserialize(record.value)
  }

  /** The media part of a composite: set only when `media` carries exactly the
      one accepted tag; any other tag, or none, leaves it null. */
  function MediaPart(root: Json, accepted: string): (r: Outcome<Option<Json>, JsonError>)
    requires root.JObject?
    ensures r.Throws? ==> r.error == InvalidOperation && LastMember(root.members, "media").Some?
    ensures r.Value? && r.value.Some? ==> LastMember(root.members, "media") == r.value && r.value.value.JObject?
  {
    var media := LastMember(root.members, "media");
    if media.None? then Value(None)
    else
      var mediaType :- TryGetProperty(media.value, "$type");
      if mediaType.None? then Value(None)
      else
        var text :- TagText(mediaType.value);
        if text == accepted then Deserialize(media.value) else Value(None)
  }

  /** The `switch (text)` of `Read`. */
  function Dispatch(root: Json, text: string, k: EmbedTypes): (r: Outcome<Option<Embed>, JsonError>)
    requires root.JObject?
    ensures r.Value? && r.value.Some? ==> TagOfEmbed(k, r.value.value) == text
    ensures r.Throws? ==> text == k.recordWithMediaView || text == k.recordWithMedia
  {
    if text == k.imageView then ReadSingle(root, ImageView)
    else if text == k.externalView then ReadSingle(root, ExternalView)
    else if text == k.images then ReadSingle(root, Images)
    else if text == k.external then ReadSingle(root, External)
    else if text == k.record then ReadSingle(root, Record)
    else if text == k.recordView then ReadSingle(root, RecordView)
    else if text == k.recordWithMediaView then
      var record :- RecordPart(root);
      var media :- MediaPart(root, k.imageView);
      Value(Some(RecordWithMediaView(record, media)))
    else if text == k.recordWithMedia then
      var record :- RecordPart(root);
      var media :- MediaPart(root, k.images);
      Value(Some(RecordWithMedia(record, media)))
    else Value(None)
  }

  /** `EmbedConverter.Read`: `Value(None)` is the converter returning null. */
  function Read(input: ReaderInput, k: EmbedTypes): (r: Outcome<Option<Embed>, JsonError>)
    ensures input.Incomplete? ==> r == Value(None)
    ensures input.Malformed? ==> r == Throws(JsonException)
    ensures input.Parsed? && !input.root.JObject? ==> r == Throws(InvalidOperation)
    ensures input.Parsed? && LacksMember(input.root, "$type") ==> r == Value(None)
    ensures r.Value? && r.value.Some? ==> input.Parsed? && input.root.JObject?
  {
    match input
    case Malformed => Throws(JsonException)
    case Incomplete => Value(None)
    case Parsed(root) =>
      var typeProperty :- TryGetProperty(root, "$type");
      if typeProperty.None? then Value(None)
      else
        var text :- TagText(typeProperty.value);
        Dispatch(root, text, k)
  }

  // ---------------------------------------------------------------------
  // Properties of Read

  /** The tag of `root`, when `$type` is a string. */
  predicate TypedAs(root: Json, s: string) {
    HasMember(root, "$type", JString(s))
  }

  /** A JSON-null `$type` reads as the empty string, which is no tag: null. */
  lemma NullTagIsNull(root: Json, k: EmbedTypes)
    requires k.WellFormed()
    requires HasMember(root, "$type", JNull)
    ensures Read(Parsed(root), k) == Value(None)
  {
    k.Distinct();
  }

  /** A `$type` that is neither a string nor null makes `GetString` throw. */
  lemma NonStringTagThrows(root: Json, k: EmbedTypes, t: Json)
    requires HasMember(root, "$type", t) && !(t.JString? || t.JNull?)
    ensures Read(Parsed(root), k) == Throws(InvalidOperation)
  {
  }

  /** A tag that trims to none of the eight constants gives null; no value is
      built, so nothing of the payload is kept. */
  lemma UnknownTagIsNull(root: Json, k: EmbedTypes, s: string)
    requires TypedAs(root, s) && Trim(s) !in k.Tags()
    ensures Read(Parsed(root), k) == Value(None)
  {
    var text := Trim(s);
    NotATag(k, text);
    DispatchOfNoTag(root, text, k);
    ReadDispatchesOnTrimmedTag(root, k, s);
  }

  /** A text outside `Tags()` differs from each of the eight constants. */
  lemma NotATag(k: EmbedTypes, text: string)
    requires text !in k.Tags()
    ensures text != k.imageView && text != k.externalView && text != k.images && text != k.external
    ensures text != k.record && text != k.recordView && text != k.recordWithMediaView && text != k.recordWithMedia
  {
    var tags := k.Tags();
    assert tags[0] == k.imageView && tags[1] == k.externalView && tags[2] == k.images && tags[3] == k.external;
    assert tags[4] == k.record && tags[5] == k.recordView && tags[6] == k.recordWithMediaView && tags[7] == k.recordWithMedia;
  }

  /** The switch has no case for a text that is none of the eight tags. */
  lemma DispatchOfNoTag(root: Json, text: string, k: EmbedTypes)
    requires root.JObject?
    requires text != k.imageView && text != k.externalView && text != k.images && text != k.external
    requires text != k.record && text != k.recordView && text != k.recordWithMediaView && text != k.recordWithMedia
    ensures Dispatch(root, text, k) == Value(None)
  {
  }

  /** A single-shape tag decodes the whole root into that shape exactly when
      the required sibling is present, and to null otherwise. */
  lemma SingleShapeNeedsSibling(root: Json, k: EmbedTypes, s: string, shape: SingleShape)
    requires k.WellFormed()
    requires TypedAs(root, s) && Trim(s) == TagOf(k, shape)
    ensures Read(Parsed(root), k) ==
            Value(if LacksMember(root, Sibling(shape)) then None else Some(Single(shape, root)))
  {
    ReadDispatchesOnTrimmedTag(root, k, s);
    DispatchSelectsShape(root, k, shape);
  }

  /** A string `$type` reaches the switch as its trimmed text. */
  lemma ReadDispatchesOnTrimmedTag(root: Json, k: EmbedTypes, s: string)
    requires TypedAs(root, s)
    ensures Read(Parsed(root), k) == Dispatch(root, Trim(s), k)
  {
  }

  /** The switch sends each single-shape tag to its own case. */
  lemma DispatchSelectsShape(root: Json, k: EmbedTypes, shape: SingleShape)
    requires k.WellFormed() && root.JObject?
    ensures Dispatch(root, TagOf(k, shape), k) == ReadSingle(root, shape)
  {
    k.Distinct();
    match shape
    case ImageView =>
    case ExternalView =>
    case Images =>
    case External =>
    case Record =>
    case RecordView =>
  }

  /** White space around a tag does not change what it selects. */
  lemma PaddedTagSelectsShape(root: Json, k: EmbedTypes, p: string, q: string, shape: SingleShape)
    requires k.WellFormed()
    requires AllWhiteSpace(p) && AllWhiteSpace(q)
    requires TypedAs(root, p + TagOf(k, shape) + q)
    ensures Read(Parsed(root), k) ==
            Value(if LacksMember(root, Sibling(shape)) then None else Some(Single(shape, root)))
  {
    k.Distinct();
    TrimOfPadded(p, TagOf(k, shape), q);
    SingleShapeNeedsSibling(root, k, p + TagOf(k, shape) + q, shape);
  }

  /** A `media` value the composite cases can read without throwing: absent,
      or an object whose `$type` is absent, null or a string. */
  predicate ReadableMedia(root: Json) {
    root.JObject? &&
    match LastMember(root.members, "media")
    case None => true
    case Some(m) =>
      m.JObject? &&
      match LastMember(m.members, "$type")
      case None => true
      case Some(t) => t.JString? || t.JNull?
  }

  /** A `record` value the composite cases can deserialise: absent, null or an object. */
  predicate ReadableRecord(root: Json) {
    root.JObject? &&
    match LastMember(root.members, "record")
    case None => true
    case Some(r) => r.JNull? || r.JObject?
  }

  /** The media part is set exactly when `media` is an object whose tag trims
      to `accepted`, and is then that object. */
  lemma MediaPartExact(root: Json, accepted: string)
    requires ReadableMedia(root) && accepted != []
    ensures MediaPart(root, accepted).Value?
    ensures var media := MediaPart(root, accepted).value;
            && (media.Some? ==> exists s :: HasMember(root, "media", media.value) && TypedAs(media.value, s) && Trim(s) == accepted)
            && (forall m, s :: HasMember(root, "media", m) && TypedAs(m, s) && Trim(s) == accepted ==> media == Some(m))
  {
    var media := MediaPart(root, accepted).value;
    if media.Some? {
      var m := LastMember(root.members, "media").value;
      var t := LastMember(m.members, "$type").value;
      if t.JString? {
        assert TypedAs(m, t.s);
      }
    }
  }

  /** The record part is null exactly when `record` is absent or null, and is
      otherwise the `record` object itself. */
  lemma RecordPartExact(root: Json)
    requires ReadableRecord(root)
    ensures RecordPart(root).Value?
    ensures RecordPart(root).value.None? <==> LacksMember(root, "record") || HasMember(root, "record", JNull)
    ensures forall r :: RecordPart(root) == Value(Some(r)) <==> HasMember(root, "record", r) && r.JObject?
  {
  }

  /** A composite tag always yields a composite value, even when `record` and
      `media` are both absent; the record part comes from the `record`
      property alone and the media part only from an ImageView-tagged `media`. */
  lemma RecordWithMediaViewAlwaysBuilt(root: Json, k: EmbedTypes, s: string)
    requires k.WellFormed()
    requires TypedAs(root, s) && Trim(s) == k.recordWithMediaView
    requires ReadableRecord(root) && ReadableMedia(root)
    ensures Read(Parsed(root), k).Value?
    ensures Read(Parsed(root), k).value == Some(RecordWithMediaView(RecordPart(root).value, MediaPart(root, k.imageView).value))
  {
    k.Distinct();
    ReadDispatchesOnTrimmedTag(root, k, s);
    DispatchBuildsComposites(root, k);
    RecordPartExact(root);
    MediaPartExact(root, k.imageView);
  }

  /** The same for the RecordWithMedia tag, whose media must be Images-tagged. */
  lemma RecordWithMediaAlwaysBuilt(root: Json, k: EmbedTypes, s: string)
    requires k.WellFormed()
    requires TypedAs(root, s) && Trim(s) == k.recordWithMedia
    requires ReadableRecord(root) && ReadableMedia(root)
    ensures Read(Parsed(root), k).Value?
    ensures Read(Parsed(root), k).value == Some(RecordWithMedia(RecordPart(root).value, MediaPart(root, k.images).value))
  {
    k.Distinct();
    ReadDispatchesOnTrimmedTag(root, k, s);
    DispatchBuildsComposites(root, k);
    RecordPartExact(root);
    MediaPartExact(root, k.images);
  }

  /** The switch sends the two composite tags to their own cases. */
  lemma DispatchBuildsComposites(root: Json, k: EmbedTypes)
    requires k.WellFormed() && root.JObject?
    ensures Dispatch(root, k.recordWithMediaView, k) ==
            (var record :- RecordPart(root); var media :- MediaPart(root, k.imageView);
             Value(Some(RecordWithMediaView(record, media))))
    ensures Dispatch(root, k.recordWithMedia, k) ==
            (var record :- RecordPart(root); var media :- MediaPart(root, k.images);
             Value(Some(RecordWithMedia(record, media))))
  {
    k.Distinct();
  }

  /** A `media` object tagged with anything but the accepted tag, or carrying
      no `$type`, leaves the media part null while the record part is kept. */
  lemma OtherMediaLeavesMediaNull(root: Json, k: EmbedTypes, s: string, m: Json)
    requires k.WellFormed()
    requires TypedAs(root, s) && Trim(s) == k.recordWithMediaView
    requires ReadableRecord(root) && HasMember(root, "media", m) && m.JObject?
    requires LacksMember(m, "$type") || exists t :: TypedAs(m, t) && Trim(t) != k.imageView
    ensures Read(Parsed(root), k) == Value(Some(RecordWithMediaView(RecordPart(root).value, None)))
  {
    ReadDispatchesOnTrimmedTag(root, k, s);
    DispatchBuildsComposites(root, k);
    RecordPartExact(root);
    if !LacksMember(m, "$type") {
      var t :| TypedAs(m, t) && Trim(t) != k.imageView;
      MediaPartOtherTag(root, k.imageView, m, t);
    }
  }

  /** A composite reads `record` first: a `record` that is neither an object
      nor null makes its deserialisation throw. */
  lemma CompositeRecordThrows(root: Json, k: EmbedTypes, s: string, v: Json)
    requires k.WellFormed()
    requires TypedAs(root, s) && (Trim(s) == k.recordWithMediaView || Trim(s) == k.recordWithMedia)
    requires HasMember(root, "record", v) && !(v.JNull? || v.JObject?)
    ensures Read(Parsed(root), k) == Throws(JsonException)
  {
    ReadDispatchesOnTrimmedTag(root, k, s);
    DispatchBuildsComposites(root, k);
  }

  /** With a readable `record`, a `media` that is not an object, or whose
      `$type` is neither a string nor null, throws. */
  lemma CompositeMediaThrows(root: Json, k: EmbedTypes, s: string, m: Json)
    requires k.WellFormed()
    requires TypedAs(root, s) && (Trim(s) == k.recordWithMediaView || Trim(s) == k.recordWithMedia)
    requires ReadableRecord(root) && HasMember(root, "media", m)
    requires !m.JObject? || exists t :: HasMember(m, "$type", t) && !(t.JString? || t.JNull?)
    ensures Read(Parsed(root), k) == Throws(InvalidOperation)
  {
    ReadDispatchesOnTrimmedTag(root, k, s);
    DispatchBuildsComposites(root, k);
    RecordPartExact(root);
    MediaPartThrows(root, k.imageView, m);
    MediaPartThrows(root, k.images, m);
  }

  /** `TryGetProperty` on a non-object `media`, or `GetString` on a tag of
      the wrong kind, throws. */
  lemma MediaPartThrows(root: Json, accepted: string, m: Json)
    requires HasMember(root, "media", m)
    requires !m.JObject? || exists t :: HasMember(m, "$type", t) && !(t.JString? || t.JNull?)
    ensures MediaPart(root, accepted) == Throws(InvalidOperation)
  {
    if m.JObject? {
      var t :| HasMember(m, "$type", t) && !(t.JString? || t.JNull?);
      assert TryGetProperty(m, "$type") == Value(Some(t));
    }
  }

  /** A `media` object whose tag trims to another text gives no media part. */
  lemma MediaPartOtherTag(root: Json, accepted: string, m: Json, t: string)
    requires HasMember(root, "media", m) && TypedAs(m, t) && Trim(t) != accepted
    ensures MediaPart(root, accepted) == Value(None)
  {
    var text := Trim(t);
    assert TryGetProperty(m, "$type") == Value(Some(JString(t)));
    assert TagText(JString(t)) == Value(text);
  }

  /** Whatever is decoded was selected by the (trimmed) string tag it carries. */
  lemma DecodedEmbedMatchesTag(root: Json, k: EmbedTypes)
    requires k.WellFormed()
    requires Read(Parsed(root), k).Value? && Read(Parsed(root), k).value.Some?
    ensures exists s :: TypedAs(root, s) && Trim(s) == TagOfEmbed(k, Read(Parsed(root), k).value.value)
  {
    var t := LastMember(root.members, "$type").value;
    var text := TagText(t).value;
    if t.JNull? {
      k.Distinct();
      assert false;
    }
    assert TypedAs(root, t.s);
  }
}
