/** `ATProtocolOptions`: the settings a protocol client is built with, of
    which the session manager reads `AutoRenewSession` and
    `SessionRefreshInterval`. */
module ProtocolOptions {
  import opened Outcomes

  /** `JsonIgnoreCondition`, an ordinary (non-flags) enum. */
  datatype IgnoreCondition = Never | Always | WhenWritingDefault | WhenWritingNull

  /** The enum's numeric values. */
  function Bits(c: IgnoreCondition): bv8 {
    match c
    case Never => 0
    case Always => 1
    case WhenWritingDefault => 2
    case WhenWritingNull => 3
  }

  /** The enum member with a given number, if any. */
  function FromBits(b: bv8): (r: Option<IgnoreCondition>)
    ensures forall c :: r == Some(c) <==> Bits(c) == b
  {
    if b == 0 then Some(Never)
    else if b == 1 then Some(Always)
    else if b == 2 then Some(WhenWritingDefault)
    else if b == 3 then Some(WhenWritingNull)
    else None
  }

  /** What a property holds when an object is written. */
  datatype PropertyValue =
    | NullValue      // a null reference or an empty nullable
    | DefaultValue   // a non-null value equal to its type's default, such as 0 or false
    | OtherValue

  /** Whether the serializer leaves a property out under a condition. */
  predicate Omitted(c: IgnoreCondition, v: PropertyValue) {
    match c
    case Never => false
    case Always => true
    case WhenWritingDefault => !v.OtherValue?
    case WhenWritingNull => v.NullValue?
  }

  datatype NamingPolicy = AsDeclared | CamelCase

  /** The converters registered for identifier and facet types. */
  datatype Converter = AtUriConverter | AtHandleConverter | AtDidConverter | FacetConverter | CidConverter

  /** The `JsonSerializerOptions` settings the constructor makes;
      `ignore` is the numeric value assigned to `DefaultIgnoreCondition`. */
  datatype JsonSettings = JsonSettings(
    naming: NamingPolicy,
    caseInsensitive: bool,
    ignore: bv8,
    converters: seq<Converter>)

  datatype ATProtocolOptions = ATProtocolOptions(
    url: string,
    userAgent: string,
    autoRenewSession: bool,
    sessionRefreshInterval: Option<int>,   // milliseconds, when configured
    json: JsonSettings)

  /** The options as constructed, before any builder call changes them. */
  function DefaultOptions(): (o: ATProtocolOptions)
    ensures o.url == "https://bsky.social" && o.userAgent == "FishyFlip"
    ensures !o.autoRenewSession && o.sessionRefreshInterval.None?
    ensures o.json.naming == CamelCase && o.json.caseInsensitive
  {
    ATProtocolOptions(
      "https://bsky.social",
      "FishyFlip",
      false,
      None,
      JsonSettings(
        CamelCase,
        true,
        Bits(WhenWritingNull) | Bits(WhenWritingDefault),
        [AtUriConverter, AtHandleConverter, AtDidConverter, FacetConverter, CidConverter]))
  }

  /** The condition the serializer actually applies for the default options. */
  function EffectiveIgnore(s: JsonSettings): Option<IgnoreCondition> {
    FromBits(s.ignore)
  }

  /** Or-ing the two enum members yields WhenWritingNull itself (3 | 2 == 3). */
  lemma CombinedIgnoreIsWhenWritingNull()
    ensures EffectiveIgnore(DefaultOptions().json) == Some(WhenWritingNull)
  {
  }

  /** So a non-null default value, such as `false` or `0`, is still written. */
  lemma DefaultValueStillWritten()
    ensures EffectiveIgnore(DefaultOptions().json).Some?
    ensures !Omitted(EffectiveIgnore(DefaultOptions().json).value, DefaultValue)
  {
  }

  /** The settings with the condition the combination was meant to express. */
  function IntendedJsonSettings(): (s: JsonSettings)
    ensures EffectiveIgnore(s).Some?
    ensures forall v :: Omitted(EffectiveIgnore(s).value, v) <==> (v.NullValue? || v.DefaultValue?)
  {
    DefaultOptions().json.(ignore := Bits(WhenWritingDefault))
  }
}
