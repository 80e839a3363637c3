# FishyFlip core in Dafny

A model of three parts of the FishyFlip AT Protocol client, with proofs of what they do:

- **The embed JSON converter** (`EmbedConverter.Read`). It reads the `$type` tag of a parsed JSON object, trims it and dispatches on it. Six single shapes each need one sibling property (`images`, `external` or `record`). Two composite shapes carry a `record` part and a `media` part, and each composite accepts one media tag only. Everything else gives null.
- **The CBOR record constructors** `Post(CBORObject)` and `ExternalEmbed(CBORObject)`. Each maps the fields of a CBOR map into an immutable record.
- **The session lifecycle manager** (`SessionManager`) and the options it reads (`ATProtocolOptions`). The manager stores the session and writes the bearer header. With auto-renew on, it arms a timer. A counter guards refreshes so that only one runs at a time. Dispose drops the timer.

Layout, one module per file:

- `outcomes.dfy`: `Option`, and `Outcome` (a returned value or a thrown exception).
- `whitespace.dfy`: `char.IsWhiteSpace` and `string.Trim`.
- `json_dom.dfy`: `JsonElement` with `TryGetProperty` (the last duplicate wins) and `GetString`.
- `constants.dfy`: the eight `Constants.EmbedTypes` tags. Their values stay abstract. The model only relies on them being pairwise distinct, non-empty and free of surrounding white space.
- `embed_converter.dfy`: `Read` and the lemmas about it.
- `cbor.dfy`: the `CBORObject` calls the constructors use. These are the string indexer, `AsString` and `Values`.
- `post.dfy` and `external_embed.dfy`: the two constructors, as functions returning an `Outcome`.
- `protocol_options.dfy`: `ATProtocolOptions` and its JSON settings.
- `session_manager.dfy`: the state transitions as functions on a snapshot `Manager`, with their lemmas. Also the `SessionManager` class, whose methods update fields in place and are proved to make exactly those transitions.

Exceptions are values: `Throws(e)` is the C# call throwing `e`, and `Value(None)` is a returned null.

Where the intended design and the code differ, the model follows the code:

- An unknown tag returns null. No "unrecognised" value is kept with the raw payload.
- `Read` is not total. It throws for:
  - a non-object root;
  - a `$type` that is neither a string nor null;
  - for a composite tag, a `record` that is neither an object nor null;
  - a non-object `media`;
  - a non-string, non-null media `$type`.
- A refresh token whose expiry cannot be read makes `SetSession` throw when no interval is configured.
- Disposal neither releases the refresh guard nor clears the session.
- Disposal is not final. A later `SetSession` builds a new timer, which a second `Dispose` then leaves running.

## Model

| member | source | states |
|---|---|---|
| `Whitespace.TrimStart` | src/FishyFlip/Tools/Json/EmbedConverter.cs:17 | drops exactly the leading white space: the result is a suffix, what was removed is all white space, and the result does not start with white space |
| `Whitespace.TrimEnd` | src/FishyFlip/Tools/Json/EmbedConverter.cs:17 | drops exactly the trailing white space, symmetrically |
| `Whitespace.Trim` | src/FishyFlip/Tools/Json/EmbedConverter.cs:17 | the trimmed tag neither starts nor ends with white space, is never longer, and is empty exactly when the tag is all white space |
| `Whitespace.TrimOfPadded` | src/FishyFlip/Tools/Json/EmbedConverter.cs:17 | white space of any length around a bare core trims back to exactly that core |
| `Whitespace.TrimIdempotent` | src/FishyFlip/Tools/Json/EmbedConverter.cs:17 | trimming twice equals trimming once |
| `JsonDom.LastMemberFinds` | src/FishyFlip/Tools/Json/EmbedConverter.cs:15 | absent exactly when no member has the name; otherwise the value of the last member with that name |
| `JsonDom.LastMember` | src/FishyFlip/Tools/Json/EmbedConverter.cs:15 | the member lookup behind `TryGetProperty`; `LastMemberFinds` states its contract |
| `JsonDom.TryGetProperty` | src/FishyFlip/Tools/Json/EmbedConverter.cs:15 | throws exactly on a non-object; on an object it finds the last member with the name |
| `JsonDom.GetString` | src/FishyFlip/Tools/Json/EmbedConverter.cs:17 | a string gives its text, a JSON null gives null, and every other kind throws |
| `Constants.EmbedTypes.Distinct` | src/FishyFlip/Tools/Json/EmbedConverter.cs:18-117 | the eight case labels are pairwise different, non-empty lexicon ids |
| `EmbedConverter.Deserialize` | src/FishyFlip/Tools/Json/EmbedConverter.cs:23 | JSON null deserialises to null, an object to a typed value taken from that object, and anything else throws |
| `EmbedConverter.Read` | src/FishyFlip/Tools/Json/EmbedConverter.cs:11-122 | an incomplete reader gives null; malformed text throws; a non-object root throws; a root without `$type` gives null; a non-null result only ever comes from an object root |
| `EmbedConverter.TagText` | src/FishyFlip/Tools/Json/EmbedConverter.cs:17 | a string tag gives its trimmed text, a null tag gives the empty string, and any other kind throws |
| `EmbedConverter.Dispatch` | src/FishyFlip/Tools/Json/EmbedConverter.cs:18-121 | every embed the switch builds carries the tag it was selected by, and only the two composite cases can throw |
| `EmbedConverter.ReadSingle` | src/FishyFlip/Tools/Json/EmbedConverter.cs:20-68 | a single-shape case never throws; it yields that shape built from the whole root exactly when the sibling is present |
| `EmbedConverter.RecordPart` | src/FishyFlip/Tools/Json/EmbedConverter.cs:73-76 | it throws JsonException only when `record` is present, and a non-null part is the `record` object itself |
| `EmbedConverter.MediaPart` | src/FishyFlip/Tools/Json/EmbedConverter.cs:78-90 | it throws InvalidOperation only when `media` is present, and a non-null part is the `media` object itself |
| `EmbedConverter.ReadDispatchesOnTrimmedTag` | src/FishyFlip/Tools/Json/EmbedConverter.cs:15-18 | a string `$type` reaches the switch as its trimmed text |
| `EmbedConverter.NullTagIsNull` | src/FishyFlip/Tools/Json/EmbedConverter.cs:17-18 | a JSON-null `$type` reads as the empty string and gives null |
| `EmbedConverter.NonStringTagThrows` | src/FishyFlip/Tools/Json/EmbedConverter.cs:17 | a `$type` that is neither a string nor null throws |
| `EmbedConverter.UnknownTagIsNull` | src/FishyFlip/Tools/Json/EmbedConverter.cs:117-121 | a tag that trims to none of the eight constants gives null; nothing of the payload is kept |
| `EmbedConverter.SingleShapeNeedsSibling` | src/FishyFlip/Tools/Json/EmbedConverter.cs:20-68 | for each single-shape tag, the result is that shape deserialised from the whole root exactly when the required sibling is present, and null otherwise |
| `EmbedConverter.PaddedTagSelectsShape` | src/FishyFlip/Tools/Json/EmbedConverter.cs:17-68 | white space around a single-shape tag selects the same shape, with the same sibling rule |
| `EmbedConverter.MediaPartExact` | src/FishyFlip/Tools/Json/EmbedConverter.cs:78-90 | the media part is set only for a `media` object whose tag trims to the accepted tag, and every such object is taken |
| `EmbedConverter.MediaPartOtherTag` | src/FishyFlip/Tools/Json/EmbedConverter.cs:78-90 | a `media` object whose tag trims to a text other than the accepted tag gives no media part |
| `EmbedConverter.RecordPartExact` | src/FishyFlip/Tools/Json/EmbedConverter.cs:73-76 | the record part is null exactly when `record` is absent or null, and is otherwise the `record` object itself |
| `EmbedConverter.RecordWithMediaViewAlwaysBuilt` | src/FishyFlip/Tools/Json/EmbedConverter.cs:69-92 | the RecordWithMediaView tag always yields the composite, even with both parts absent. The record part comes from `record` alone and the media part from an ImageView-tagged `media` only |
| `EmbedConverter.RecordWithMediaAlwaysBuilt` | src/FishyFlip/Tools/Json/EmbedConverter.cs:93-116 | the RecordWithMedia tag always yields the composite, whose media comes from an Images-tagged `media` only |
| `EmbedConverter.OtherMediaLeavesMediaNull` | src/FishyFlip/Tools/Json/EmbedConverter.cs:78-92 | a `media` object with another tag, or with no `$type`, leaves the media part null while the record part is kept |
| `EmbedConverter.CompositeRecordThrows` | src/FishyFlip/Tools/Json/EmbedConverter.cs:73-76 | for either composite tag, a `record` that is neither an object nor null makes the read throw JsonException |
| `EmbedConverter.CompositeMediaThrows` | src/FishyFlip/Tools/Json/EmbedConverter.cs:78-90 | for either composite tag with a readable `record`, a `media` that is not an object, or whose `$type` is neither a string nor null, makes the read throw InvalidOperation |
| `EmbedConverter.MediaPartThrows` | src/FishyFlip/Tools/Json/EmbedConverter.cs:80-82 | `TryGetProperty` on a non-object `media`, or `GetString` on a tag of the wrong kind, throws |
| `EmbedConverter.DecodedEmbedMatchesTag` | src/FishyFlip/Tools/Json/EmbedConverter.cs:15-117 | every decoded embed came from a string `$type` whose trimmed text is that embed's tag |
| `CborValues.LookupFinds` | src/FishyFlip/Models/Post.cs:20 | absent exactly when no entry has the key; otherwise a value stored under it |
| `CborValues.Lookup` | src/FishyFlip/Models/Post.cs:20 | the key lookup behind the string indexer; `LookupFinds` states its contract |
| `CborValues.Index` | src/FishyFlip/Models/Post.cs:20-28 | the string indexer succeeds exactly on a map and gives the value stored under the key, or null for a missing key; an array throws NotAnIndex and any other item throws NotAMapOrArray |
| `CborValues.AsString` | src/FishyFlip/Models/Post.cs:26 | succeeds exactly on a text string and gives its text; a missing key throws a null reference |
| `CborValues.Values` | src/FishyFlip/Models/Post.cs:27 | succeeds exactly on an array (its items) or a map (one value per entry) |
| `CborValues.AllAsString` | src/FishyFlip/Models/Post.cs:27 | succeeds exactly when every element is text, giving one string per element in order; otherwise throws NotText |
| `PostRecord.DecodePost` | src/FishyFlip/Models/Post.cs:17-29 | a decoded post comes from a map and always has the feed post type; an input that is neither a map nor an array throws NotAMapOrArray. `PostDecodesExactly`, `PostFields`, `PostLangsInOrder`, `PostFacetsInOrder` and `PostWithoutTextThrows` state the rest |
| `PostRecord.PostDecodesExactly` | src/FishyFlip/Models/Post.cs:17-29 | decoding succeeds exactly on a map with a text `text`, with `langs` absent or a collection of text, and with `facets` absent or a collection |
| `PostRecord.PostFields` | src/FishyFlip/Models/Post.cs:20-28 | `Embed` is set exactly when `embed` is present and not CBOR null. `CreatedAt` comes from `createdAt`. `Text` is the text of `text`. `Langs` and `Facets` are null exactly when their key is absent |
| `PostRecord.PostLangsInOrder` | src/FishyFlip/Models/Post.cs:27 | `Langs` has the input's length and order, element by element |
| `PostRecord.PostFacetsInOrder` | src/FishyFlip/Models/Post.cs:28 | `Facets` holds one facet per input element, in order |
| `PostRecord.PostWithoutTextThrows` | src/FishyFlip/Models/Post.cs:26 | a map without `text` throws a null reference |
| `ExternalEmbedRecord.DecodeExternalEmbed` | src/FishyFlip/Models/ExternalEmbed.cs:9-20 | a decoded link card comes from a map and has the External tag; an input that is neither a map nor an array throws NotAMapOrArray. `ExternalEmbedDecodes` and `NullThumbStillBuilt` state the rest |
| `ExternalEmbedRecord.ExternalEmbedDecodes` | src/FishyFlip/Models/ExternalEmbed.cs:9-20 | succeeds exactly when `uri`, `title` and `description` are text. Those properties are then the texts of the same-named keys, the type is the External tag, and a thumb exists exactly when a `thumb` key is present |
| `ExternalEmbedRecord.NullThumbStillBuilt` | src/FishyFlip/Models/ExternalEmbed.cs:12-15 | a `thumb` holding CBOR null still builds a thumb |
| `ProtocolOptions.FromBits` | src/FishyFlip/ATProtocolOptions.cs:24 | the enum member with a number is the one whose value is that number |
| `ProtocolOptions.DefaultOptions` | src/FishyFlip/ATProtocolOptions.cs:17-46 | by default the service URL is `https://bsky.social` and the user agent `FishyFlip`; auto-renew is off, no refresh interval is configured, names are camelCase and reads are case-insensitive |
| `ProtocolOptions.CombinedIgnoreIsWhenWritingNull` | src/FishyFlip/ATProtocolOptions.cs:24 | the combined ignore condition is WhenWritingNull |
| `ProtocolOptions.DefaultValueStillWritten` | src/FishyFlip/ATProtocolOptions.cs:24 | under the default settings a non-null default value is not omitted |
| `ProtocolOptions.IntendedJsonSettings` | src/FishyFlip/ATProtocolOptions.cs:24 | the intended condition omits exactly null and default values |
| `SessionManagement.ClampToInt32` | src/FishyFlip/SessionManager.cs:110 | the interval is at most `Int32.MaxValue`, and unchanged below it |
| `SessionManagement.TimeToNextRenewal` | src/FishyFlip/SessionManager.cs:107-123 | a configured interval is used as it is; otherwise the delay is the refresh token's expiry minus now, and there is none exactly when the token cannot be read |
| `SessionManagement.ConfigureTimer` | src/FishyFlip/SessionManager.cs:104-113 | only the timer changes. On success it is enabled with an interval in 1..`Int32.MaxValue` and one more subscription. An unreadable token changes nothing |
| `SessionManagement.SetSessionStep` | src/FishyFlip/SessionManager.cs:69-85 | session and header always become the new session's; the disposed flag and the counter are kept. Without auto-renew the timer is kept and nothing throws; with it a timer exists afterwards, enabled unless something threw |
| `SessionManagement.DisposeStep` | src/FishyFlip/SessionManager.cs:87-102 | session, header and counter are kept. The manager is disposed afterwards exactly when it already was or had a timer. The timer is dropped only by the first disposing call that finds one |
| `SessionManagement.BeginRefresh` | src/FishyFlip/SessionManager.cs:125-141 | an entry reaches the `await` exactly when no refresh is running and there are a timer and a session. It then holds the counter and has paused the timer. Every other entry ends without a call, and a second entry leaves the state unchanged |
| `SessionManagement.CompleteRefresh` | src/FishyFlip/SessionManager.cs:141-163 | the call has been made and `finally` gives the counter back. An error keeps everything else; a new session is installed |
| `SessionManagement.Refresh` | src/FishyFlip/SessionManager.cs:125-164 | the collaborator is called exactly when no refresh is running and there are a timer and a session. A second entry changes nothing. A missing timer leaves the counter held |
| `SessionManagement.FreshIsConsistent` | src/FishyFlip/SessionManager.cs:36-40 | a new manager is unauthenticated and satisfies the manager invariant |
| `SessionManagement.SetSessionKeepsConsistent` | src/FishyFlip/SessionManager.cs:69-113 | SetSession keeps the invariant: the counter is never negative, the header carries the session's access token, and a timer exists only next to a session, with an interval in 1..`Int32.MaxValue` |
| `SessionManagement.DisposeKeepsConsistent` | src/FishyFlip/SessionManager.cs:87-102 | Dispose keeps the invariant |
| `SessionManagement.RefreshKeepsConsistent` | src/FishyFlip/SessionManager.cs:125-164 | RefreshToken keeps the invariant |
| `SessionManagement.SetSessionInstallsSession` | src/FishyFlip/SessionManager.cs:69-72 | SetSession always stores the session and the header `Bearer <AccessJwt>`, whatever the options |
| `SessionManagement.SetSessionWithoutAutoRenew` | src/FishyFlip/SessionManager.cs:75-79 | with auto-renew off nothing else changes, the timer included, and nothing throws |
| `SessionManagement.DefaultOptionsNeverArmTimer` | src/FishyFlip/ATProtocolOptions.cs:44 | under the default options SetSession never creates or touches a timer |
| `SessionManagement.SetSessionArmsTimer` | src/FishyFlip/SessionManager.cs:82-113 | with auto-renew on and a usable delay, the timer (created if absent) is enabled with the clamped delay and has one more subscription |
| `SessionManagement.ConfiguredIntervalWins` | src/FishyFlip/SessionManager.cs:107 | with a configured interval, the token's expiry makes no difference |
| `SessionManagement.HourLeftMeansHourInterval` | src/FishyFlip/SessionManager.cs:107-122 | with no configured interval, a token expiring an hour from now arms the timer for an hour |
| `SessionManagement.LongDelayIsClamped` | src/FishyFlip/SessionManager.cs:110 | a delay of at least `Int32.MaxValue` ms is clamped to it |
| `SessionManagement.UnreadableTokenThrows` | src/FishyFlip/SessionManager.cs:107-122 | an unreadable refresh token with no configured interval throws. The session is already stored and the timer created, but it is neither subscribed nor armed |
| `SessionManagement.ExpiredTokenThrows` | src/FishyFlip/SessionManager.cs:109-110 | a delay of zero or less is subscribed and then refused by the timer. SetSession throws, and the interval and enabled flag are left as they were |
| `SessionManagement.EverySetSessionSubscribes` | src/FishyFlip/SessionManager.cs:109 | n auto-renew SetSession calls add n subscriptions of the refresh handler |
| `SessionManagement.DisposeWithoutTimerIsNoOp` | src/FishyFlip/SessionManager.cs:89-92 | Dispose without a timer changes nothing, so the manager is not marked disposed |
| `SessionManagement.DisposeDropsTimer` | src/FishyFlip/SessionManager.cs:94-101 | the first Dispose with a timer drops it and marks the manager disposed; session and header stay |
| `SessionManagement.DisposeIsIdempotent` | src/FishyFlip/SessionManager.cs:87-102 | a second Dispose is a no-op |
| `SessionManagement.DisposedManagerCanBeRearmed` | src/FishyFlip/SessionManager.cs:82 | after Dispose, an auto-renew SetSession arms a new timer, which a further Dispose leaves running |
| `SessionManagement.GuardTurnsAwaySecondEntry` | src/FishyFlip/SessionManager.cs:127-132 | while an entry is in progress, another entry undoes its increment and returns, with no call and no change |
| `SessionManagement.EntriesDuringRefreshMakeNoCalls` | src/FishyFlip/SessionManager.cs:127-132 | any number of entries during a refresh make no call and leave the state unchanged |
| `SessionManagement.SingleFlight` | src/FishyFlip/SessionManager.cs:127-163 | the entry that reaches the refresh call holds the counter at 1. Entries arriving meanwhile are turned away. When the answer comes, exactly one call has been made and the counter is back to 0 |
| `SessionManagement.FailedRefreshKeepsSession` | src/FishyFlip/SessionManager.cs:135-163 | a failed refresh keeps the old session, leaves the timer disabled with no retry, and gives the counter back |
| `SessionManagement.SuccessfulRefreshSetsSession` | src/FishyFlip/SessionManager.cs:143-148 | a successful refresh runs SetSession with the new session |
| `SessionManagement.RefreshWithoutSessionSkipsCall` | src/FishyFlip/SessionManager.cs:138-157 | without a session the collaborator is not called and the counter is given back |
| `SessionManagement.MissingTimerJamsGuard` | src/FishyFlip/SessionManager.cs:135 | an entry finding no timer throws before `try`, so the counter stays at 1 and every later entry is turned away |
| `SessionManagement.HttpClient.constructor` | src/FishyFlip/SessionManager.cs:63-66 | the shared client's `Authorization` header, which the manager writes, starts unset |
| `SessionManagement.SessionManager.IsAuthenticated` | src/FishyFlip/SessionManager.cs:55 | true exactly when a session is held: the constructor ensures it is false, and `CreateWithSession` ensures it is true on success |
| `SessionManagement.SessionManager.constructor` | src/FishyFlip/SessionManager.cs:36-40 | a new manager holds no session (not authenticated), no timer, is not disposed, and its counter is 0 |
| `SessionManagement.SessionManager.CreateWithSession` | src/FishyFlip/SessionManager.cs:42-47 | the two-argument constructor is a new manager followed by SetSession. It throws exactly when SetSession does, and is otherwise authenticated. Either way the shared client's header is already `Bearer <AccessJwt>`, as SetSession leaves it |
| `SessionManagement.SessionManager.UpdateBearerToken` | src/FishyFlip/SessionManager.cs:61-67 | the client's Authorization header becomes `Bearer <AccessJwt>` |
| `SessionManagement.SessionManager.SetSession` | src/FishyFlip/SessionManager.cs:69-85 | the field updates make exactly the SetSession transition and throw what it throws |
| `SessionManagement.SessionManager.ConfigureRefreshTokenTimer` | src/FishyFlip/SessionManager.cs:104-113 | subscribe, clamp, set the interval (throwing when it is 0 or less) and enable, as the transition says |
| `SessionManagement.SessionManager.Dispose` | src/FishyFlip/SessionManager.cs:59 | the public Dispose is `Dispose(true)` |
| `SessionManagement.SessionManager.DisposeWith` | src/FishyFlip/SessionManager.cs:87-102 | the field updates make exactly the Dispose transition |
| `SessionManagement.SessionManager.RefreshToken` | src/FishyFlip/SessionManager.cs:125-164 | the field updates make exactly the refresh transition, and report whether the collaborator was called and how the entry ended |

## Left out

- JSON and CBOR text parsing: `Read` starts from what `JsonDocument.TryParseValue` produced, and the constructors start from a decoded `CBORObject`.
- EmbedConverter.Deserialize: the typed embeds' own fields are the serializer's work. A decoded value records the shape asked for and the JSON subtree it came from. Conversion errors inside an object are not modelled.
- The `ToEmbed`, `ToDateTime`, `Facet(CBORObject)` and `Image(CBORObject)` helpers. Their results are kept as "made from this CBOR value".
- `EmbedConverter.Write`: one call into the serializer. Its ignore condition has the same issue as the Finding below (src/FishyFlip/Tools/Json/EmbedConverter.cs:131).
- The camelCase naming algorithm and case-insensitive name matching. They belong to the serializer, so only the settings that select them are modelled.
- CborValues.Values: for a CBOR map the library gives no order, and the model uses entry order.
- CborValues.AsString: following the library's documented usage, CBOR null is taken as not text, so it throws.
- Threads, `Interlocked` atomicity, timer threads and `async void`:
  - `RefreshToken` runs as one sequential step.
  - The only interleaving modelled is other entries arriving at its `await`, through `BeginRefresh`/`CompleteRefresh`.
  - `Elapsed` firing is not modelled as an event. Several subscriptions mean several `RefreshToken` entries.
- An exception escaping `async void` is reported as a `Faulted` outcome. Its effect on the process is not modelled.
- The refresh collaborator throwing (a network fault). It answers with either a session or an error.
- JWT parsing: `expiryOf` gives the expiry of a token, or nothing when it cannot be read. There is no signature check to model.
- Floating point: `TimeSpan.TotalMilliseconds` is a double, and the model uses integer milliseconds.
- Wrap-around of the `refreshing` counter, which would need 2^31 nested entries.
- SessionManagement.SessionManager.ConfigureRefreshTokenTimer: its `ThrowIfNull` checks become a precondition, because its only caller always has a timer and a session.
- `protocol.ThrowIfNull()` in `RefreshToken`: the protocol is set by both constructors.
- The options are fixed for a manager's lifetime.
- `Timer.Dispose()` itself; a disposed timer is simply dropped.
- Logging calls.
- Identifier validation (DID, handle, AT URI, CID). The identifiers are kept as plain strings.
- `ATProtoRepo.cs` and `BlueskyFeed.cs`: query-string building and HTTP forwarding.
- The sample and MAUI applications: user interface only.

## Findings

| source | as written | input that shows it | evidently intended | confidence | as-written member | corrected member |
|---|---|---|---|---|---|---|
| src/FishyFlip/ATProtocolOptions.cs:24 | `WhenWritingNull \| WhenWritingDefault` or-s two members of a non-flags enum: 3 \| 2 = 3, which is WhenWritingNull | a property holding `false` or `0` is still written | leave out both null and default values (WhenWritingDefault) | high; not executed | `ProtocolOptions.DefaultValueStillWritten` | `ProtocolOptions.IntendedJsonSettings` |
