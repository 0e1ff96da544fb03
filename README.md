# RequestInformation, modelled in Dafny

This project models `RequestInformation` from the Kiota Java abstractions
library (`com.microsoft.kiota`). It is the mutable object that generated API
clients fill in for one outbound HTTP request: a URL template with path and
query parameters, an explicit URI that overrides them, headers, request
options, and the request body. A transport adapter reads it afterwards.

The Dafny class `Kiota.RequestInformation` has the Java fields. Each of its
methods names the fields it may change in its `modifies` frame, and each
mutating method's `ensures` states its new state. URL resolution and the bulk
operations (adding query parameters from an object, adding many headers,
adding or removing many options) are proved against specification functions in
modules of their own:

- `UriResolution`: URL resolution. There are three branches in strict
  precedence. First, an explicit URI. Second, the `request-raw-url` path
  parameter, which is parsed, cached as the explicit URI, and clears both
  parameter maps. Third, template expansion over the query parameters overlaid
  by the path parameters. This branch checks first that a template is set and
  that a `{+baseurl}` template has a `baseurl` path parameter.
- `QueryParameters`: the reflective extractor `addQueryParameters`, working
  over an explicit list of field descriptors.
- `Headers`: the header store. Keys are lower-cased by the header API but not
  by the content setters.
- `RequestOptions`: the option store, keyed by the canonical class name of
  each option.
- `Serialization`: an abstract serialization writer that records its calls and
  its closing, plus the exact-class dispatch of scalar values.
- `JavaModel` and `Text`: Java values, exceptions, ASCII lower-casing and
  `String.contains`.
- `Scenarios`: client methods showing what a caller can conclude from the
  contracts alone.

Conventions:

- A `@Nonnull` parameter is a Dafny value, which cannot be null.
- A `@Nullable` parameter is an `Option`.
- A Java `null` stored in a parameter map, or passed as a value, is `Value.Null`.
- An exception is a `Fail`/`Failure` result.
- A writer's failures come from the factory: for the content types in
  `failingOnClose` its `close()` throws `IOException`, and for those in
  `failingOnWrite` every write primitive throws an unchecked exception.
- A content setter also returns the writer it used, so its contract can say
  what was written and that the writer was closed.

The model follows the code where the code differs from the intended design:

- An unsupported scalar value fails after `Content-Type` has already been
  overwritten. Only the body is left unchanged.
- The content setters store `Content-Type` under that literal spelling. A
  header added as `content-type` then coexists with it, so the store is not
  always normalized (`Headers.ContentTypeKeyCoexists`).
- `queryParameters` is private, is initialised, and is never reassigned. So
  the null check on it in `getUri` cannot fail, and the model has no such
  branch.
- A field holding a primitive array (`int[]`, say) makes the cast to
  `Object[]` throw `ClassCastException`. The catch only handles
  `IllegalAccessException`, so the exception escapes. The fields processed
  before it keep their effect.
- `getCanonicalName()` is null for anonymous and local classes. All such
  options share one key (`None`) in the option store.

## Model

| member | source | states |
|---|---|---|
| `Kiota.RequestInformation.constructor` | components/abstractions/src/main/java/com/microsoft/kiota/RequestInformation.java:31-36 | a new request has no template, no URI, no method, no body and empty parameter, header and option stores |
| `Kiota.RequestInformation.GetUri` | components/abstractions/src/main/java/com/microsoft/kiota/RequestInformation.java:42-61 | returns exactly what `Resolve` gives for the old state, and leaves the state `Resolve` gives: only the raw-URL branch writes the URI and the maps |
| `Kiota.RequestInformation.SetUri` | components/abstractions/src/main/java/com/microsoft/kiota/RequestInformation.java:63-71 | the URI becomes the given one and both parameter maps become empty; the template is kept |
| `UriResolution.SetUri` | components/abstractions/src/main/java/com/microsoft/kiota/RequestInformation.java:63-71 | after setUri the URI is set, both maps are empty and the template is unchanged |
| `UriResolution.Merge` | components/abstractions/src/main/java/com/microsoft/kiota/RequestInformation.java:55-58 | the expansion map has the keys of both maps, and path parameters win on a shared key |
| `UriResolution.ResolveChangesOnlyRawUrl` | components/abstractions/src/main/java/com/microsoft/kiota/RequestInformation.java:42-61 | resolution leaves the state unchanged, except a successful raw-URL resolution, which becomes setUri of the URI it returned |
| `UriResolution.ResolveIdempotent` | components/abstractions/src/main/java/com/microsoft/kiota/RequestInformation.java:42-61 | resolving again right after a resolution returns the same result and state, in every branch, failures included |
| `UriResolution.ResolveAfterSetUri` | components/abstractions/src/main/java/com/microsoft/kiota/RequestInformation.java:42-71 | after setUri, resolution returns exactly that URI, whatever parameters were set before and whatever the parser and expander do |
| `UriResolution.RawUrlBranch` | components/abstractions/src/main/java/com/microsoft/kiota/RequestInformation.java:45-48 | with no URI and a String raw-URL parameter: a parse failure is URISyntaxException with no change; otherwise the parsed URI is returned and cached, both maps are cleared, and a second resolution returns it whatever the expander does |
| `UriResolution.TemplateBranch` | components/abstractions/src/main/java/com/microsoft/kiota/RequestInformation.java:50-59 | the template branch changes nothing; a null template is NullPointerException, a missing base URL is IllegalStateException, and otherwise the result is the expansion over the merged map |
| `UriResolution.LowerMixedBaseUrl` | components/abstractions/src/main/java/com/microsoft/kiota/RequestInformation.java:52 | the template is lower-cased before the search, so `{+BaseUrl}` is the reserved expansion |
| `UriResolution.BaseUrlCheck` | components/abstractions/src/main/java/com/microsoft/kiota/RequestInformation.java:52-53 | a template starting with any casing of `{+baseurl}` fails the check exactly when the key `baseurl` is absent |
| `Text.LowerIsLower` | components/abstractions/src/main/java/com/microsoft/kiota/RequestInformation.java:153 | lower-casing yields a lower-case string, leaves one unchanged, and is idempotent |
| `Text.ContainsAt` | components/abstractions/src/main/java/com/microsoft/kiota/RequestInformation.java:52 | `Contains` holds exactly when the part occurs at some index |
| `QueryParameters.Contribution` | components/abstractions/src/main/java/com/microsoft/kiota/RequestInformation.java:87-101 | a field stores something exactly when it is readable, non-null and not a primitive array; an array is stored as the list of its elements, anything else as is |
| `QueryParameters.ExtractPasses` | components/abstractions/src/main/java/com/microsoft/kiota/RequestInformation.java:85-104 | the field loop completes exactly when no field holds a primitive array, and otherwise ends with ClassCastException |
| `QueryParameters.ExtractUntouched` | components/abstractions/src/main/java/com/microsoft/kiota/RequestInformation.java:85-105 | a key no field stores under keeps its entry, or stays absent; null and unreadable fields change nothing |
| `QueryParameters.ExtractLastWins` | components/abstractions/src/main/java/com/microsoft/kiota/RequestInformation.java:85-101 | when the loop completes, a key holds what the last field storing under it contributes |
| `QueryParameters.ExtractKeys` | components/abstractions/src/main/java/com/microsoft/kiota/RequestInformation.java:85-101 | when the loop completes, the keys are the old keys plus the names of the fields that store something |
| `QueryParameters.ExtractStopsAtFirstThrow` | components/abstractions/src/main/java/com/microsoft/kiota/RequestInformation.java:96-104 | the first primitive array ends the loop with ClassCastException, keeping the puts made before it |
| `Kiota.RequestInformation.AddQueryParameters` | components/abstractions/src/main/java/com/microsoft/kiota/RequestInformation.java:82-106 | a null source is a no-op; otherwise the store and outcome are those of the field loop `ApplyFields` |
| `Kiota.RequestInformation.AddQueryParameter` | components/abstractions/src/main/java/com/microsoft/kiota/RequestInformation.java:112-116 | a null value throws NullPointerException and changes nothing; otherwise it stores the value under the name, overwriting |
| `Kiota.RequestInformation.RemoveQueryParameter` | components/abstractions/src/main/java/com/microsoft/kiota/RequestInformation.java:121-124 | removes exactly that key; an absent key is a no-op |
| `Kiota.RequestInformation.GetQueryParameters` | components/abstractions/src/main/java/com/microsoft/kiota/RequestInformation.java:131-133 | returns a copy equal to the store, changes nothing, and is a value the store cannot alias |
| `Headers.WithHeader` | components/abstractions/src/main/java/com/microsoft/kiota/RequestInformation.java:150-154 | the value is stored under the lower-cased key, and every other key keeps its value |
| `Headers.WithoutHeader` | components/abstractions/src/main/java/com/microsoft/kiota/RequestInformation.java:159-162 | only the lower-cased key is removed, and every other key keeps its value |
| `Headers.RemoveUndoesAdd` | components/abstractions/src/main/java/com/microsoft/kiota/RequestInformation.java:150-162 | removing under any spelling that lowers to the added key undoes the add and leaves no such header |
| `Headers.CaseInsensitiveRemoveExample` | components/abstractions/src/main/java/com/microsoft/kiota/RequestInformation.java:150-162 | adding `X-Test` and then removing `x-test` leaves an empty store empty |
| `Headers.WithHeadersUntouched` | components/abstractions/src/main/java/com/microsoft/kiota/RequestInformation.java:139-144 | addRequestHeaders leaves every key that no entry lowers to as it was |
| `Headers.WithHeadersLastWins` | components/abstractions/src/main/java/com/microsoft/kiota/RequestInformation.java:139-144 | after addRequestHeaders, a lowered key holds the value of the last entry that lowers to it |
| `Headers.WithHeadersKeys` | components/abstractions/src/main/java/com/microsoft/kiota/RequestInformation.java:139-144 | the keys after addRequestHeaders are the old keys plus the lowered entry keys |
| `Headers.HeaderApiKeepsNormalized` | components/abstractions/src/main/java/com/microsoft/kiota/RequestInformation.java:139-162 | adding one header, adding many, and removing all keep an all-lower-case store all lower-case |
| `Headers.LowerContentType` | components/abstractions/src/main/java/com/microsoft/kiota/RequestInformation.java:153 | the header API stores `Content-Type` as `content-type` |
| `Headers.ContentTypeKeyCoexists` | components/abstractions/src/main/java/com/microsoft/kiota/RequestInformation.java:202-210 | the literal `Content-Type` put makes a store not normalized, and keeps an existing `content-type` entry beside it |
| `Kiota.RequestInformation.AddRequestHeaders` | components/abstractions/src/main/java/com/microsoft/kiota/RequestInformation.java:139-144 | a null or empty input is a no-op; otherwise the store is addRequestHeader applied to each entry in order |
| `Kiota.RequestInformation.AddRequestHeader` | components/abstractions/src/main/java/com/microsoft/kiota/RequestInformation.java:150-154 | the store becomes `WithHeader` of the old store |
| `Kiota.RequestInformation.RemoveRequestHeader` | components/abstractions/src/main/java/com/microsoft/kiota/RequestInformation.java:159-162 | the store becomes `WithoutHeader` of the old store |
| `Kiota.RequestInformation.GetRequestHeaders` | components/abstractions/src/main/java/com/microsoft/kiota/RequestInformation.java:169-171 | returns a copy equal to the header store and changes nothing |
| `RequestOptions.WithOptionsKeys` | components/abstractions/src/main/java/com/microsoft/kiota/RequestInformation.java:185-190 | after adding, the store's classes are the old ones plus those of the added options |
| `RequestOptions.WithOptionsLastWins` | components/abstractions/src/main/java/com/microsoft/kiota/RequestInformation.java:185-190 | the last added option of a class is the one stored for it |
| `RequestOptions.WithOptionsUntouched` | components/abstractions/src/main/java/com/microsoft/kiota/RequestInformation.java:185-190 | a class none of the added options has keeps its stored option |
| `RequestOptions.WithOptionsKeyedByKind` | components/abstractions/src/main/java/com/microsoft/kiota/RequestInformation.java:185-190 | adding keeps every option stored under its own class |
| `RequestOptions.WithOptionsSize` | components/abstractions/src/main/java/com/microsoft/kiota/RequestInformation.java:177-190 | the store never holds more entries than its old classes plus the distinct classes added, and starting from empty it holds exactly one per distinct class |
| `RequestOptions.SameKindReplaces` | components/abstractions/src/main/java/com/microsoft/kiota/RequestInformation.java:177-190 | of two options of one class, only the second is kept |
| `RequestOptions.WithoutOptionsRemovesKinds` | components/abstractions/src/main/java/com/microsoft/kiota/RequestInformation.java:195-200 | removing drops exactly the classes of the given options, whichever instances they are, and ignores absent classes |
| `Kiota.RequestInformation.GetRequestOptions` | components/abstractions/src/main/java/com/microsoft/kiota/RequestInformation.java:180 | returns the stored options |
| `Kiota.RequestInformation.AddRequestOptions` | components/abstractions/src/main/java/com/microsoft/kiota/RequestInformation.java:185-190 | a null or empty input is a no-op; otherwise the store is `WithOptions` of the old store |
| `Kiota.RequestInformation.RemoveRequestOptions` | components/abstractions/src/main/java/com/microsoft/kiota/RequestInformation.java:195-200 | a null or empty input is a no-op; otherwise the store is `WithoutOptions` of the old store |
| `Kiota.RequestInformation.SetStreamContent` | components/abstractions/src/main/java/com/microsoft/kiota/RequestInformation.java:207-211 | the stream becomes the body, and the literal `Content-Type` key gets `application/octet-stream` |
| `Kiota.RequestInformation.GetSerializationWriter` | components/abstractions/src/main/java/com/microsoft/kiota/RequestInformation.java:231-239 | empty values throw before any writer exists; otherwise a fresh, unused writer for the content type comes from the adapter's factory, failing on close or on write as the factory's writers for that type do |
| `Kiota.RequestInformation.SetContentFromParsable` | components/abstractions/src/main/java/com/microsoft/kiota/RequestInformation.java:219-230 | empty values throw with no change and no writer; otherwise it sets `Content-Type`, makes exactly one write (one object, or a collection of several) and closes the writer on every path; a throwing write leaves the body unchanged and its exception wins over a failing close; otherwise the body is the serialized output and a failing close becomes RuntimeException |
| `Kiota.RequestInformation.SetContentFromScalar` | components/abstractions/src/main/java/com/microsoft/kiota/RequestInformation.java:247-287 | empty values throw with no change; otherwise `Content-Type` is set first; the writer receives exactly the one write of `ScalarPayload` and is then closed; if the dispatch or the write throws, the body is unchanged, the writer is still closed, and that exception is what propagates |
| `Serialization.ScalarWriteIffSupported` | components/abstractions/src/main/java/com/microsoft/kiota/RequestInformation.java:250-280 | a single value is written exactly when it is non-null and its exact class is one of the 13 scalar classes; the write carries the value back unchanged; null gives NullPointerException; any other class is refused with its class name |
| `Serialization.DoubleIsRefused` | components/abstractions/src/main/java/com/microsoft/kiota/RequestInformation.java:263-280 | a Double is not a scalar class, and is refused as an unknown type |
| `Serialization.NestedArrayRefused` | components/abstractions/src/main/java/com/microsoft/kiota/RequestInformation.java:252-280 | an `int[][]` (an `Object[]` of `int[]`) is refused as the unknown type `[[I`, its JVM class name |
| `Serialization.ScalarCollection` | components/abstractions/src/main/java/com/microsoft/kiota/RequestInformation.java:281-282 | more than one value is always one collection write, never a typed single-value write |
| `Scenarios.ExplicitUriWins` | components/abstractions/src/main/java/com/microsoft/kiota/RequestInformation.java:42-71 | after setUri, getUri returns that URI and both maps are empty, even when a template, path and query parameters and a raw URL were set before |
| `Scenarios.RawUrlIsCached` | components/abstractions/src/main/java/com/microsoft/kiota/RequestInformation.java:42-48 | the raw URL is resolved once; a raw URL set afterwards no longer changes what getUri returns |
| `Scenarios.HeaderKeysAreCaseInsensitive` | components/abstractions/src/main/java/com/microsoft/kiota/RequestInformation.java:150-171 | adding `X-Test` and then removing `x-test` leaves the header store empty |
| `Scenarios.ContentTypeIsStoredTwice` | components/abstractions/src/main/java/com/microsoft/kiota/RequestInformation.java:150-211 | a content type added through the header API, under any spelling, is a separate entry from the stream setter's `Content-Type` |
| `Scenarios.SecondOptionOfAKindWins` | components/abstractions/src/main/java/com/microsoft/kiota/RequestInformation.java:177-190 | adding two options of one class leaves only the second in the store |
| `Scenarios.TwoStringsAreOneCollection` | components/abstractions/src/main/java/com/microsoft/kiota/RequestInformation.java:247-287 | two strings give one collection write followed by close |
| `Scenarios.DoubleIsRefusedAfterContentType` | components/abstractions/src/main/java/com/microsoft/kiota/RequestInformation.java:247-287 | a Double fails as an unknown type: the earlier body stays, `Content-Type` is already the new type, and the writer was only closed |
| `Scenarios.WriteFailureKeepsBody` | components/abstractions/src/main/java/com/microsoft/kiota/RequestInformation.java:219-230 | a throwing write keeps the earlier body, leaves the new `Content-Type` declared, still closes the writer, and its exception reaches the caller even when closing fails too |

## Left out

- URI-template expansion (RFC 6570, through the hal4j `URITemplate` library) and `new URI(String)` parsing (RFC 3986) are foreign code. They are the parameters `expand` and `parse` of `GetUri` and `Resolve`, which may fail. So the model does not compute the expanded URL; for `/users/{id}{?filter}` that would be `/users/42?filter=active`.
- Java reflection is replaced by the list of public field descriptors that `getFields()` would return, in that order. An unreadable field is `AccessDenied` and is skipped, as with the swallowed `IllegalAccessException`.
- `String.toLowerCase` is modelled as ASCII lower-casing. Java's locale-dependent Unicode mapping (the Turkish dotless i, for one) is not modelled.
- `Kiota.RequestInformation.AddRequestHeaders`: the entries of the Java map are a sequence in the map's iteration order. That order is unspecified in Java and decides which value wins when two keys lower to the same name. A null key or value inside the map would throw NullPointerException partway through; this is not modelled.
- `Kiota.RequestInformation.AddRequestOptions` and `RemoveRequestOptions`: a null element of the option collection would throw NullPointerException partway through; this is not modelled.
- `Kiota.RequestInformation.GetRequestOptions`: Java returns a live view of the map's values, through which a caller could remove options. The model returns the set of values.
- Assigning `null` to the public `pathParameters` field is not modelled: it is always a map. Assigning it directly is allowed, as the scenarios do.
- The concrete serialization codecs, the `RequestAdapter`, and how a `Parsable` writes its own fields are not modelled. The writer only records the calls made on it. The serialized body is `SerializedContent(contentType, calls)`, standing for the bytes. `InputStream` bodies are opaque identities.
- Only `close()` of a writer can throw `IOException`. A write primitive that throws does so with one unchecked exception, `RuntimeException(WriterFailed)`, whose kind is the writer implementation's choice. The factory is taken not to throw and never to return null, and `getSerializedContent` is taken not to throw.
- `Kiota.RequestInformation.SetUri`, `GetUri` and `AddQueryParameters`: callers' aliases of the maps and arrays are not modelled. Java's `setUri` (and `getUri`'s raw-URL branch) calls `clear()` on the public `pathParameters` map, which also empties a map a caller assigned to the field and still holds; the model assigns an empty map. `addQueryParameters` stores `Arrays.asList` of a field's array, a view backed by that array, so later writes to the array show through the stored value; the model stores the list of the elements at the time of the call.
- `Kiota.RequestInformation.GetUri` and `UriResolution.Resolve`: a failed template expansion is reported as `URISyntaxException`. The code shows only that the expanded string is turned into a `URI` through the template library; which exception that throws for a malformed result is an assumption of the model.
- `Kiota.RequestInformation.SetContentFromParsable`: a null element of the `values` varargs array is not modelled; `Parsable` is never null. Java passes such an element on to `writeObjectValue` (or inside the collection), and what the writer then does is the writer's concern.
- BigDecimal, Float, UUID and the date and time values are opaque tokens. Their contents and all floating-point behaviour are not modelled. Byte, Short, Integer and Long are bounded to their Java ranges.
- `httpMethod` is a plain field with no behaviour.
- There is no concurrency in this class.
