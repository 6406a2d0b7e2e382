# UnityBridgeKit request/response core in Dafny

UnityBridgeKit lets a Swift app make request/response calls to an embedded Unity runtime. The
channel between them only supports one-way, four-string C callbacks. A request is sent to Unity
as `(path, id, method, json)`, where `json` is the request envelope. Unity answers through a
separate entry point with `(path, id, method, data)`. The client then routes that answer to the
one waiting `request(target:)` call whose id it carries.

This project models that core as pure functions over immutable data and proves properties about it:

- `AnyCodable` (any_codable.dfy): the heterogeneous value codec `UBKitAnyCodable`.
  - Decoding tries Int, Double, String, Bool, array, dictionary, in that order.
  - Encoding dispatches on the runtime shape.
  - Both round trips are proved: value → wire → value, and wire → value → wire.
- `Json` (json.dfy): the JSON tree that is written and read. A Swift `Double` is modelled as a
  whole-valued number carrying its integer, or an opaque non-integral token. That is enough for
  the Int-first tie-break, where a whole number that fits in 64 bits is read back as `Int`.
- `TargetType` (target_type.dfy): the request target, its composite notification name and its
  envelope `{"path", "id", "parameters"?}`.
  - The envelope is given as a declarative rule (`Envelope`).
  - It is also given as the source's nested loops (`EncodeTarget`, `EncodeParameters`), proved equal to the rule.
- `NameBuilder` (name_builder.dfy): the three-field notification-name builder, with an
  underscore join and its inverse split.
- `ApiClient` (api_client.dfy): the observer registry, modelled as a state machine.
  - The registry maps each request id to the observer waiting for it.
  - Every continuation gets a ticket. `outcomes` records whether that ticket is still pending
    or how it was resumed.
  - The other parts are the per-observer routing decision, the host's response entry point and
    the outbound call guarded on an optional delegate.
- `RequestMethod`, `CodingKeys`, `Optional`, `Utf8`: the raw-value enum, the dynamic coding key,
  the `or`/`orEmpty` helpers, and the UTF-8 encoding a successful response's bytes use, with its decoder.

Behaviour of the code that the model keeps:

- An encoding failure does not abort the call. `encodedToJSONString()` returns `""` and that
  empty string is still sent.
- With no host delegate registered, the outbound call is only logged and skipped. The request
  still registers its observer and waits.
- There is no `cancel` operation. Removal (`removeObserverIfNeeded`) never resumes the continuation.
- The fire-and-forget and `listen` operations trap (`fatalError`). They do not return a
  "not implemented" error.
- An empty parameters dictionary writes no `parameters` key, exactly like `nil`. This is because
  the nested container is only created inside the loop body.

## Model

| member | source | states |
|---|---|---|
| Optional.Or | Sources/UnityBridgeKit/SharedPackages/Core/Optional+Extensions.swift:21-23 | a present value wins over any default; the default is returned only for nil |
| Optional.OrEmpty | Sources/UnityBridgeKit/SharedPackages/Core/Optional+Extensions.swift:29-31 | nil String gives "", Some(s) gives s |
| Optional.OrEmptyCollapsesOnlyNil | Sources/UnityBridgeKit/SharedPackages/Core/Optional+Extensions.swift:29-31 | two optionals agree after orEmpty exactly when they are equal or one is nil and the other is "" |
| Optional.OrEmptySeq | Sources/UnityBridgeKit/SharedPackages/Core/Optional+Extensions.swift:37-39 | nil collection gives one of length 0, Some(c) gives c unchanged |
| RequestMethod.RawValue | Sources/UnityBridgeKit/SharedPackages/APIClient/UBKitRequestMethod.swift:14-23 | every raw value is one of GET, POST, PUT, DELETE, is non-empty and contains no underscore |
| RequestMethod.FromRawValue | Sources/UnityBridgeKit/SharedPackages/APIClient/UBKitRequestMethod.swift:11-23 | init(rawValue:) succeeds exactly on the four raw values and returns the case with that raw value; nil otherwise |
| RequestMethod.RawValueInjective | Sources/UnityBridgeKit/SharedPackages/APIClient/UBKitRequestMethod.swift:14-23 | two cases have the same raw value iff they are the same case |
| RequestMethod.RawValueRoundTrip | Sources/UnityBridgeKit/SharedPackages/APIClient/UBKitRequestMethod.swift:11-23 | init(rawValue:) inverts rawValue on every case |
| RequestMethod.ExactlyFourMethods | Sources/UnityBridgeKit/SharedPackages/APIClient/UBKitRequestMethod.swift:11-23 | exactly four pairwise distinct raw values, and they are the only strings that parse |
| CodingKeys.FromString | Sources/UnityBridgeKit/SharedPackages/APIClient/UBKitDynamicCodingKeys.swift:23-25 | init?(stringValue:) never fails and stores the string verbatim, so the force-unwrap in the parameters encoder is safe |
| CodingKeys.FromStringInjective | Sources/UnityBridgeKit/SharedPackages/APIClient/UBKitDynamicCodingKeys.swift:23-25 | distinct parameter names give distinct keys |
| CodingKeys.IntValue | Sources/UnityBridgeKit/SharedPackages/APIClient/UBKitDynamicCodingKeys.swift:17 | every key reports no integer value |
| CodingKeys.FromInt | Sources/UnityBridgeKit/SharedPackages/APIClient/UBKitDynamicCodingKeys.swift:31-33 | init?(intValue:) always fails |
| AnyCodable.Decode | Sources/UnityBridgeKit/SharedPackages/Core/UBKitAnyCodable.swift:31-72 | decoding succeeds iff the tree has no null anywhere (null fails with typeMismatch); a whole number that fits in Int decodes as Int, any other number as Double; every decoded value is supported and canonical |
| AnyCodable.WholeDoubleComesBackAsInt | Sources/UnityBridgeKit/SharedPackages/Core/UBKitAnyCodable.swift:35-43 | an integral Double that fits in Int comes back as that Int, because Int is tried first |
| AnyCodable.Encode | Sources/UnityBridgeKit/SharedPackages/Core/UBKitAnyCodable.swift:80-113 | encoding succeeds iff the value is built from the six supported shapes at every depth; arrays keep their length and dictionaries their key set |
| AnyCodable.UnsupportedElementFailsEncode | Sources/UnityBridgeKit/SharedPackages/Core/UBKitAnyCodable.swift:96-111 | a single unsupported element inside an array or dictionary makes the whole encode fail |
| AnyCodable.RoundTrip | Tests/UnityBridgeKitTests/SharedPackages/Core/UBKitAnyCodableTests.swift:14-73 | decode(encode(v)) == v for Int, String, Bool, non-integral Double and arrays/dictionaries of them, preserving order, length, key set and every element |
| AnyCodable.WireRoundTrip | Sources/UnityBridgeKit/SharedPackages/Core/UBKitAnyCodable.swift:31-113 | re-encoding any successfully decoded tree gives the same tree back |
| NameBuilder.New | Sources/UnityBridgeKit/SharedPackages/APIClient/UBKitNotificationNameBuilder.swift:17-28 | a fresh builder has no path, id or method |
| NameBuilder.SetPath | Sources/UnityBridgeKit/SharedPackages/APIClient/UBKitNotificationNameBuilder.swift:35-38 | sets the path and leaves id and method as they were |
| NameBuilder.SetId | Sources/UnityBridgeKit/SharedPackages/APIClient/UBKitNotificationNameBuilder.swift:43-46 | sets the id and leaves path and method as they were |
| NameBuilder.SetMethod | Sources/UnityBridgeKit/SharedPackages/APIClient/UBKitNotificationNameBuilder.swift:51-54 | sets the method and leaves path and id as they were |
| NameBuilder.SettersCommuteAndOverwrite | Sources/UnityBridgeKit/SharedPackages/APIClient/UBKitNotificationNameBuilder.swift:35-54 | setter order does not matter and the last write to a field wins |
| NameBuilder.Build | Sources/UnityBridgeKit/SharedPackages/APIClient/UBKitNotificationNameBuilder.swift:58-80 | a fresh builder builds ""; with all three set the name is path_id_method |
| NameBuilder.SplitJoin | Sources/UnityBridgeKit/SharedPackages/APIClient/UBKitNotificationNameBuilder.swift:78-79 | splitting an underscore join recovers the parts when none contains an underscore |
| NameBuilder.BuildSplitsIntoParts | Sources/UnityBridgeKit/SharedPackages/APIClient/UBKitNotificationNameBuilder.swift:61-79 | the built name splits back into exactly the parts set, in path, id, method order: no leading, trailing or doubled separator |
| NameBuilder.LastComponent | Sources/UnityBridgeKit/SharedPackages/APIClient/UBKitNotificationNameBuilder.swift:73-79 | the text after the last underscore of prefix_last is last when last has no underscore |
| TargetType.NotificationName | Sources/UnityBridgeKit/SharedPackages/APIClient/UBKitTargetType.swift:46-49 | the requester's name is path_id_rawValue |
| TargetType.NotificationNameMatchesBuilder | Sources/UnityBridgeKit/SharedPackages/APIClient/UBKitAPIClient.swift:142-146 | the receiver-side builder name of (path, id, method.rawValue) equals the requester's notificationName |
| TargetType.MethodIsLastComponent | Sources/UnityBridgeKit/SharedPackages/APIClient/UBKitTargetType.swift:47 | the method parses back from the last underscore-separated component, whatever path and id contain |
| TargetType.EncodeParam | Sources/UnityBridgeKit/SharedPackages/APIClient/UBKitTargetType.swift:155-186 | String, Int, Double, Bool parameters are written as their own JSON scalar; a parameter encodes iff it is supported, and then as its AnyCodable wire form |
| TargetType.NestedParamIsWireForm | Sources/UnityBridgeKit/SharedPackages/APIClient/UBKitTargetType.swift:168-178 | the serialise-then-decode detour for dictionaries and arrays emits exactly the value's own wire form |
| TargetType.EncodedParams | Sources/UnityBridgeKit/SharedPackages/APIClient/UBKitTargetType.swift:150-152 | the parameters object has exactly the input key set, each entry the encoded value |
| TargetType.Envelope | Sources/UnityBridgeKit/SharedPackages/APIClient/UBKitTargetType.swift:136-191 | encoding succeeds iff all parameters are supported; keys are only path, id, parameters; path and id always present; parameters present iff non-nil and non-empty, with exactly the input keys |
| TargetType.EncodeParameters | Sources/UnityBridgeKit/SharedPackages/APIClient/UBKitTargetType.swift:150-188 | the inner loop succeeds iff every parameter is supported and then builds exactly the parameters object |
| TargetType.EncodeTarget | Sources/UnityBridgeKit/SharedPackages/APIClient/UBKitTargetType.swift:136-191 | the nested loops as written, with the redundant outer loop and an empty dictionary making no pass, produce exactly the envelope rule |
| TargetType.EncodedToJsonString | Sources/UnityBridgeKit/SharedPackages/APIClient/UBKitTargetType.swift:123-132 | the JSON text of the envelope, or "" when encoding throws |
| TargetType.EncodedStringEmptyIffUnsupported | Tests/UnityBridgeKitTests/SharedPackages/APIClient/UBKitTargetTests.swift:82-100 | the string is empty exactly when some parameter is unsupported |
| Utf8.EncodeScalar | Sources/UnityBridgeKit/SharedPackages/APIClient/UBKitAPIClient.swift:77 | each scalar takes one to four bytes, one byte exactly for ASCII, with continuation bytes after the first |
| Utf8.Encode | Sources/UnityBridgeKit/SharedPackages/APIClient/UBKitAPIClient.swift:77 | the byte count lies between the character count and four times it, and equals it for ASCII text |
| Utf8.RoundTrip | Sources/UnityBridgeKit/SharedPackages/APIClient/UBKitAPIClient.swift:77-84 | decoding the UTF-8 bytes of a string gives the string back |
| Utf8.EncodeInjective | Sources/UnityBridgeKit/SharedPackages/APIClient/UBKitAPIClient.swift:77 | different strings never give the same bytes |
| ApiClient.Route | Sources/UnityBridgeKit/SharedPackages/APIClient/UBKitAPIClient.swift:54-85 | nil userInfo fails with receivedInvalidData before the id check; a missing or different id is ignored; a matching id with missing or non-String data fails with receivedInvalidData; a matching id with String data succeeds with the UTF-8 bytes of data |
| ApiClient.Empty | Sources/UnityBridgeKit/SharedPackages/APIClient/UBKitAPIClient.swift:19 | the client starts with no observers and a valid registry |
| ApiClient.Remove | Sources/UnityBridgeKit/SharedPackages/APIClient/UBKitAPIClient.swift:109-116 | only requestID's entry is removed, others untouched, no continuation resumed; an absent id is a no-op |
| ApiClient.Register | Sources/UnityBridgeKit/SharedPackages/APIClient/UBKitAPIClient.swift:49-90 | after eviction and insertion the id has exactly one entry, for the new observer with a fresh pending continuation; other entries unchanged |
| ApiClient.RegisterKeepsValid | Sources/UnityBridgeKit/SharedPackages/APIClient/UBKitAPIClient.swift:87-90 | registration keeps one distinct pending continuation per entry and orphans the evicted continuation |
| ApiClient.Deliver | Sources/UnityBridgeKit/SharedPackages/APIClient/UBKitAPIClient.swift:54-85 | an observer leaves the registry iff it listens to the name and does not ignore the notification; it then resumes its own continuation with its decision; continuations of observers that stay are untouched |
| ApiClient.DeliverKeepsValid | Sources/UnityBridgeKit/SharedPackages/APIClient/UBKitAPIClient.swift:54-85 | delivery keeps the registry valid, never changes a finished continuation and never resumes an orphaned one |
| ApiClient.HostNotification | Sources/UnityBridgeKit/SharedPackages/APIClient/UBKitAPIClient.swift:140-155 | the response entry point posts the name path_id_method with userInfo holding exactly id and data |
| ApiClient.RespondFromHost | Sources/UnityBridgeKit/SharedPackages/APIClient/UBKitAPIClient.swift:140-155 | a host response delivered to a valid registry leaves it valid |
| ApiClient.RouteHostNotification | Sources/UnityBridgeKit/SharedPackages/APIClient/UBKitAPIClient.swift:148-154 | a host response succeeds for the observer whose id it carries and is ignored by every other observer |
| ApiClient.UnknownIdIsIgnored | Sources/UnityBridgeKit/SharedPackages/APIClient/UBKitAPIClient.swift:64-66 | a response for an id with no entry leaves the registry and every continuation unchanged |
| ApiClient.NameMismatchLeavesWaiter | Sources/UnityBridgeKit/SharedPackages/APIClient/UBKitAPIClient.swift:54 | a response posted under another name than the waiting observer's leaves the whole registry and every continuation unchanged |
| ApiClient.MatchingResponseResolves | Sources/UnityBridgeKit/SharedPackages/APIClient/UBKitAPIClient.swift:77-84 | the matching response removes exactly that id's entry and resolves it with the UTF-8 bytes of data; all other continuations unchanged |
| ApiClient.SendToHost | Sources/UnityBridgeKit/SharedPackages/APIClient/UBKitAPIClient.swift:157-176 | no host call without a delegate; otherwise the four strings are passed through unchanged |
| ApiClient.Request | Sources/UnityBridgeKit/SharedPackages/APIClient/UBKitAPIClient.swift:43-91 | the id's observer listens to the target's notification name with a fresh pending continuation; every other id keeps its observer unchanged; the host call, if a delegate exists, carries path, id, rawValue and the encoded JSON string |
| ApiClient.RequestThenResponse | Sources/UnityBridgeKit/SharedPackages/APIClient/UBKitAPIClient.swift:43-91 | a request followed by the host's response for the same target resolves that request's continuation with the bytes of data |
| ApiClient.ResponseBeforeRegistrationIsLost | Sources/UnityBridgeKit/SharedPackages/APIClient/UBKitAPIClient.swift:49-54 | a response arriving between the send and the observer's registration is dropped, and the continuation registered afterwards stays pending |
| ApiClient.EvictedWaiterNeverCompletes | Sources/UnityBridgeKit/SharedPackages/APIClient/UBKitAPIClient.swift:49 | after re-registering an id, no response for any id resumes the evicted continuation |

## Left out

- Concurrency: the `DispatchQueue` barrier blocks, NotificationCenter's add/remove/post,
  `withCheckedThrowingContinuation` and `[weak self]`. The registry is a sequential state
  machine and each operation is atomic. The asynchronous barrier insert is modelled as
  taking effect at registration.
- C interop: the `@_cdecl` entry points, the `UnsafePointer` conversions in String+Extensions.swift,
  and the nil-pointer guard in the outbound call. The host's callback is a plain `Option<Delegate>`
  and every field is a Dafny string. Malformed UTF-8 from the host is not modelled, because
  `String(cString:)` repairs it.
- JSON text: `JSONEncoder`, `JSONDecoder` and `JSONSerialization` layout (whitespace, key order,
  number formatting). JSON is a tree, and `EncodedToJsonString` takes the renderer as a parameter.
  `JSONSerialization` is modelled by the same tree encoding as `UBKitAnyCodable`.
- TargetType.EncodeParam: Swift's runtime casts on `Any` are not modelled. Parameters form a
  closed union with one `Opaque` variant for unsupported values, so NSNumber/Bool bridging and
  the generic `Encodable` branch are left out. An unsupported value inside a dictionary or array
  parameter makes Foundation's serialiser raise an Objective-C exception. The model treats that
  case as an ordinary encoding failure.
- Double arithmetic: a `Double` is a whole number or an opaque token. Doubles are not rounded,
  and NaN and infinities are not modelled.
- `requestWithoutWaitingResponse` and `listen`: both only call `fatalError`.
- UBKitAPIClientProtocol.swift declares the API but implements nothing.
- Logging, the logging bootstrap and DI+Registration.swift are infrastructure.
- Request ids and registry keys are compared scalar by scalar. Swift's `String ==` and `Dictionary`
  keys treat canonically equivalent strings as equal (`"\u{E9}"` and `"e\u{301}"`), and the model
  does not. This makes no difference for UUID ids, which are ASCII.
- UUID generation: the id is a string supplied with the target, as the client code uses it.
- ApiClient.Request: the model stops at the suspension point. Awaiting the continuation is
  modelled by the ticket's entry in `outcomes`.
- The test at UBKitTargetTests.swift:47 expects a `_1` suffix for POST. That test builds its own
  string and contradicts the raw value `"POST"`, so the model follows the raw value.
