# Transkit client in Dafny

A model of the Go client of the Transkit transcription service. The client is
a value holding a bearer key, a base URL and an optional extra configuration.
It offers four calls:

- **online transcription**: POST of base64 audio, answered with text, words
  and consumed quota;
- **offline transcription**: POST of an audio URL, answered with a job id;
- **job status**: GET by id;
- **quota**: GET of the consumed quota.

Every call has two parts:

- a **plan**, which covers everything before the network: the argument and
  key checks, the joining of the operation's path onto the base URL, the
  marshalling of the request record and the headers;
- an **execution**, which maps the reply to the result: the transport
  error, 401, any other non-200 status, an unreadable body, or a JSON
  document decoded into the response record.

The reply is an input. A property stated for every reply therefore says
that the server cannot affect it.

Modules:

- `Common`: `Option` and `Result`.
- `Json`: ordered JSON objects.
- `Paths`: Go's `path.Clean` and `path.Join`. A path is described by whether
  it is rooted and by the stack of names it resolves to.
- `Urls`: the part of `net/url` that joinURL uses, namely `url.Parse`,
  `URL.String` and joinURL itself. It includes a parse/render round trip for
  absolute URLs.
- `Records`: the request and response records, and the objects
  `json.Marshal` makes of them. That covers omitempty fields, the flattened
  `consumedquota` member and nil tags written as `null`.
- `Decoding`: `json.Unmarshal` into the response records.
  - Members are applied in wire order and keys are matched ignoring ASCII
    case, so a later duplicate wins.
  - Unknown keys are skipped.
  - `null` keeps a scalar field and resets a pointer or slice.
  - A value of the wrong type is skipped. The first such mismatch is
    reported and decoding carries on.
- `Transport`: makeHTTPRequest with the network abstracted into a `Reply`.
- `Client`: the setters, the four plans and the four operations.
- `Scenarios`: whole calls from client state, through a server reply, to
  the decoded record.

Go's `int` is modelled as the 64-bit `Int64` newtype. An integer outside
that range is a decoding mismatch, as in `encoding/json`.

## Model

| member | source | states |
|---|---|---|
| Client.Init | go/transkit/api.go:37-41 | sets the key, resets the base URL to the service's default, keeps the extra configuration |
| Client.SetConfig | go/transkit/api.go:160-164 | replaces the extra configuration only |
| Client.SetEndpoint | go/transkit/api.go:166-170 | replaces the base URL only |
| Client.InitResetsEndpoint | go/transkit/api.go:38-41 | `Init` after `SetEndpoint` is the same as `Init` alone: a custom endpoint must be set after `Init` |
| Client.MarshalOffline | go/transkit/api.go:185-188 | marshalling the offline record fails exactly when the extra configuration cannot be encoded; otherwise the body is the record's JSON object |
| Client.Dispatch | go/transkit/api.go:184-197 | the URL parser's own error exactly when the base URL does not parse; a marshal error exactly when it parses and the POST record cannot be marshalled; otherwise the request has the verb, the headers, the joined target and a body exactly for POST |
| Client.PlanOnline | go/transkit/api.go:62-84 | refuses empty audio or pipeline first; with both given, an unparseable base URL gives the URL parser's own error; sends exactly when both are non-empty and the base URL parses; POST to the joined online path with audio, pipeline and tags, whatever the key |
| Client.PlanOffline | go/transkit/api.go:90-116 | the same argument check; with both given, an unparseable base URL gives the URL parser's own error; a marshal error exactly when the arguments are fine, the base URL parses and the configuration cannot be encoded; otherwise POST to the joined offline path carrying the stored configuration |
| Client.PlanStatus | go/transkit/api.go:122-137 | refuses exactly when the key is empty, whatever the id; with a key, an unparseable base URL gives the URL parser's own error; otherwise a bodiless GET to the status path joined with the id |
| Client.PlanQuota | go/transkit/api.go:143-158 | refuses exactly when the key is empty; with a key, an unparseable base URL gives the URL parser's own error; otherwise a bodiless GET to the joined quota path |
| Client.TranscribeOnline | go/transkit/api.go:62-84 | empty audio or pipeline is the invalid-parameters error; with both given, an unparseable base URL is the URL parser's error; otherwise the result is the reply's outcome decoded as an online response |
| Client.TranscribeOffline | go/transkit/api.go:90-116 | the same argument check and URL error; then an unencodable configuration is the marshal error; otherwise the result is the reply's outcome decoded as an offline response |
| Client.TranscribeOfflineStatus | go/transkit/api.go:122-137 | no key is the no-auth error whatever the id; with a key, an unparseable base URL is the URL parser's error; otherwise the reply's outcome decoded as a status response |
| Client.GetQuota | go/transkit/api.go:143-158 | no key is the no-auth error; with a key, an unparseable base URL is the URL parser's error; otherwise the reply's outcome decoded as a quota response |
| Client.Execute | go/transkit/api.go:82-83 | an error found before the request is returned without consulting the reply; a request that is sent gets the reply's outcome as makeHTTPRequest classifies it |
| Client.GivenTags | go/transkit/api.go:71-73 | the tags field is set exactly when at least one tag is given, and then holds the given tags in order; otherwise it stays nil |
| Client.ParametersCheckedOffline | go/transkit/api.go:64-67 | empty audio or pipeline gives the invalid-parameters error for every reply, online and offline |
| Client.KeyCheckedOffline | go/transkit/api.go:125-128 | with no key, status and quota give the no-auth error for every reply and every id |
| Client.TranscriptionSendsEmptyKey | go/transkit/api.go:199-200 | the transcription calls do not check the key: with an empty key they still send the request, with the bare token "Bearer " |
| Client.MarshalCheckedOffline | go/transkit/api.go:108-115 | an unencodable configuration gives the marshal error for every reply once the base URL parses; the URL error comes first otherwise |
| Client.OnlineTagsOnWire | go/transkit/api.go:70-73 | the online body's tags are null when none are given, else an array of the given tags in order |
| Client.OfflineBody | go/transkit/api.go:98-105 | the offline body has pipeline, url, then `config` exactly when a configuration is set (holding it), then tags |
| Client.ConfigOnlyReachesOffline | go/transkit/api.go:103-105 | the configuration changes neither the online, status nor quota requests, and an online body never has `config` |
| Client.RoutedUnderBase | go/transkit/api.go:231-242 | a transcription request's URL reads back as the base URL with only its path changed, to the base path joined with the operation's path |
| Client.QueriesRoutedUnderBase | go/transkit/api.go:130-133 | the same for the status request (path then id) and the quota request, for ids without '?', '#' or control characters |
| Client.EmptyIdTargetsStatusPath | go/transkit/api.go:130 | an empty job id is dropped by the join: the status request goes to the status path itself |
| Client.JoinUnderDirectory | go/transkit/api.go:237-241 | on a base URL whose path is a clean directory path made of plain names and ending in "/" (such as "/" or "/a/b/"), joining plain names appends them to the base path text |
| Client.DefaultTargets | go/transkit/api.go:22-28 | after `Init` the four requests go to `https://api.transkit.vicomtech.org/` followed by the operation's path (and "/" and the id for the status call), for a plain-name id; path escaping is not modelled |
| Transport.Headers | go/transkit/api.go:199-200 | exactly two headers: JSON content type, then "Bearer " followed by the key as it stands |
| Transport.NewRequest | go/transkit/api.go:184-197 | fails exactly for a POST whose record cannot be marshalled; otherwise keeps verb and target, and carries the marshalled body exactly for POST |
| Transport.Receive | go/transkit/api.go:202-225 | transport error passed through; 401 is invalid key before any other status; any other non-200 is invalid status without reading the body; at 200 a read or syntax error, else success exactly when decoding reports no mismatch |
| Transport.BodyIgnoredUnlessOk | go/transkit/api.go:209-217 | outside 200 the body makes no difference and the call fails |
| Transport.ReplyErrorsFollowTheNetwork | go/transkit/api.go:203-225 | no reply can produce the argument, key, marshal or URL errors |
| Urls.Parse | go/transkit/api.go:232-235 | a parsed base URL keeps the text after '#' as its fragment and has a lower-case scheme; a control character before '#' is refused |
| Urls.JoinUrl | go/transkit/api.go:231-242 | fails exactly when the base URL does not parse, with that error |
| Urls.ParseRender | go/transkit/api.go:232-241 | re-parsing the text of an absolute URL gives the same URL, with the path read as rooted |
| Urls.JoinUrlTarget | go/transkit/api.go:231-242 | for a base with scheme and host, the joined text re-parses to the base with only its path replaced by the joined path, for segments without '?', '#' or control characters |
| Urls.Render | go/transkit/api.go:241 | the text starts with the scheme and ':' when there is a scheme, ends with '#' and the fragment when there is one, and otherwise ends with '?' and the query when one is set |
| Paths.Clean | go/transkit/api.go:238 | cleaning keeps whether the path is rooted and the names it resolves to; the cleaned text's own components are exactly those names (no empty or "." component, no name followed by "..", ".." only leading an unrooted path), and nothing left is "/" for a rooted path and "." otherwise |
| Paths.CleanIdempotent | go/transkit/api.go:238 | cleaning a clean path changes nothing |
| Paths.CleanShape | go/transkit/api.go:238 | a cleaned path is never empty, is rooted exactly when the input is, and has no doubled separator and no trailing "/" except the root itself |
| Paths.JoinIsClean | go/transkit/api.go:238 | joining with a non-empty argument gives a non-empty clean path |
| Paths.JoinResolves | go/transkit/api.go:238 | joining onto a non-empty path resolves the segment's components on top of the path's names |
| Paths.JoinEmptySegment | go/transkit/api.go:238 | joining an empty segment only cleans the path |
| Paths.Join | go/transkit/api.go:238 | `path.Join` of two elements is empty exactly when both are, is rooted exactly when its first non-empty element is, and is already clean |
| Paths.JoinAll | go/transkit/api.go:237-239 | the join loop on a non-empty base path gives a non-empty path, rooted exactly when the base is, and clean once at least one segment has been joined |
| Paths.JoinAllResolves | go/transkit/api.go:237-239 | on a non-empty base path, the join loop keeps rootedness and resolves all segments' components in order on top of the base path's names |
| Paths.JoinAllNames | go/transkit/api.go:237-239 | on a non-empty base path and at least one segment, segments made of plain names (and empty components) append exactly those names after the base path's names, empty components dropped |
| Paths.JoinAllTrailingEmpty | go/transkit/api.go:237-239 | on a non-empty base path and at least one segment, a further empty segment does not change the joined path |
| Paths.JoinAllChars | go/transkit/api.go:237-239 | the join introduces no character other than '/' and '.' that is not in its inputs |
| Paths.UnsplitSplit | go/transkit/api.go:238 | a fact about the model's component view of a path, not a step of the source: rejoining a path's components with "/" gives back the path, so the view loses nothing |
| Paths.SplitUnsplit | go/transkit/api.go:238 | a fact about the model's component view of a path, not a step of the source: splitting slash-free components joined with "/" gives them back |
| Records.EncodeOnlineRequest | go/transkit/structs.go:13-17 | keys audio, pipeline, tags in that order, with the record's values; tags never omitted |
| Records.EncodeWord | go/transkit/structs.go:26-31 | a word record has exactly the keys confidence, length, start and word, in that order, holding the record's values |
| Records.EncodeQuota | go/transkit/structs.go:37-39 | the quota record has the single key consumedquota, holding the count |
| Records.EncodeOnlineResponse | go/transkit/structs.go:19-24 | `error` and `words` only when non-empty, `text` always, and the quota flattened last as `consumedquota` |
| Records.EncodeOfflineRequest | go/transkit/structs.go:45-50 | fails exactly for an unencodable configuration; `config` present exactly when set; tags null when nil |
| Records.EncodeOfflineResponse | go/transkit/structs.go:52-55 | `id`, then the flattened `consumedquota` |
| Records.EncodeOfflineError | go/transkit/structs.go:64-68 | keys code, message, module |
| Records.EncodeStatus | go/transkit/structs.go:57-62 | `status` and `message` always; `error` exactly when present; `url` exactly when non-empty |
| Decoding.StringField | go/transkit/api.go:225 | a string field accepts a string or null; null keeps the old value |
| Decoding.IntField | go/transkit/api.go:225 | an int field accepts null or an integer literal within 64 bits; anything else is a mismatch that keeps the field |
| Decoding.FloatField | go/transkit/api.go:225 | a float64 field accepts any number or null |
| Decoding.ErrorField | go/transkit/structs.go:60 | the error pointer is nil exactly when the member is null; a value that is neither null nor an object is a mismatch |
| Decoding.DecodeQuota | go/transkit/api.go:225 | decoding into a fresh quota response: null and an empty object leave the zero value with no error; any other non-object document is a type mismatch |
| Decoding.DecodeOnline | go/transkit/api.go:225 | the same for a fresh online response |
| Decoding.DecodeOffline | go/transkit/api.go:225 | the same for a fresh offline response |
| Decoding.DecodeStatus | go/transkit/api.go:225 | the same for a fresh status response |
| Decoding.FoldAppend | go/transkit/api.go:225 | decoding an object's members is decoding a prefix, then the rest over its result, the prefix's error first |
| Decoding.FirstErrorKept | go/transkit/api.go:225 | after a mismatch, later members cannot change the reported error |
| Decoding.WordsRoundTrip | go/transkit/structs.go:26-31 | an encoded word array decodes back to the same words, whatever the slice held before |
| Decoding.QuotaRoundTrip | go/transkit/structs.go:37-39 | the encoded quota decodes back to itself |
| Decoding.ErrorRoundTrip | go/transkit/structs.go:64-68 | the encoded error record decodes back to itself |
| Decoding.OnlineRoundTrip | go/transkit/structs.go:19-24 | every online response decodes back from its JSON, omitted fields included, with no error |
| Decoding.OfflineRoundTrip | go/transkit/structs.go:52-55 | every offline response decodes back from its JSON |
| Decoding.StatusRoundTrip | go/transkit/structs.go:57-62 | every status response decodes back from its JSON, nested error included |
| Decoding.StatusUnknownKey | go/transkit/structs.go:57-62 | a member matching no status field changes nothing |
| Decoding.OnlineUnknownKey | go/transkit/structs.go:19-24 | a member matching no online field changes nothing |
| Decoding.OfflineUnknownKey | go/transkit/structs.go:52-55 | a member matching no offline field changes nothing |
| Decoding.QuotaUnknownKey | go/transkit/structs.go:37-39 | a member other than `consumedquota` changes nothing |
| Decoding.StatusLastMessageWins | go/transkit/structs.go:59 | a later `message`, in any letter case, overrides an earlier one and nothing else |
| Decoding.OnlineNullWords | go/transkit/structs.go:22 | a null `words` member empties the words decoded so far |
| Decoding.StatusErrorMismatch | go/transkit/structs.go:60 | when no error record has been decoded yet, a non-null, non-object `error` member leaves a zero error record and is reported as a mismatch |
| Scenarios.QuotaEndToEnd | go/transkit/api.go:143-158 | with a key and a parseable base, a 200 reply with an encoded quota returns that quota |
| Scenarios.OnlineEndToEnd | go/transkit/api.go:62-84 | with audio, pipeline and a parseable base, a 200 reply with an encoded response returns it |
| Scenarios.OfflineEndToEnd | go/transkit/api.go:90-116 | the same for the offline call with an encodable or absent configuration |
| Scenarios.StatusEndToEnd | go/transkit/api.go:122-137 | the same for the status call with a key |
| Scenarios.DefaultStatusRequest | go/transkit/api.go:122-137 | the default client polls job `job-1` with a GET to the default base plus `offline/status/job-1` |
| Scenarios.FailedJobDecoded | go/transkit/structs.go:57-68 | a failed-job status with a nested error decodes field by field |
| Scenarios.RejectedKey | go/transkit/api.go:209-212 | a 401 is the invalid-key error whatever the body |

## Left out

- URL percent-escaping, user info, `RawPath`, IPv6 hosts and port validation
  in `url.Parse`. The model refuses only control characters, a missing
  scheme before ':' and a colon in a relative first segment.
- The second parse of the joined URL inside `http.NewRequest`. The model
  assumes a joined URL is always accepted.
- Urls.Render: does not percent-escape the path as `URL.String` does. Go
  escapes every path character other than letters, digits and
  `-_.~$&+,/:;=@`; the model writes the path as it stands.
- Client.DefaultTargets: the stated target text is Go's only for job ids
  that need no escaping. An id such as "a b" or "a?b" is sent by Go as
  `a%20b` or `a%3Fb`, and those ids are not covered.
- Urls.JoinUrlTarget: covers only segments without '?', '#' or control
  characters. Go escapes those into the path; in the unescaping model they
  would end the path, so such segments are not covered.
- Client.QueriesRoutedUnderBase: covers only job ids without '?', '#' or
  control characters, for the same reason.
- The HTTP transport itself: connections, redirects, timeouts and TLS. It is
  represented by the `Reply` input.
- Floating-point conversion. A float64 field keeps the JSON number as read,
  so range and rounding are not modelled.
- Unicode case folding of JSON keys. Keys are matched ignoring ASCII case
  only.
- The partially filled response value that Go returns with a decode,
  transport or status error. The model returns only the error.
- The difference between a nil and an empty words slice, and the reuse of
  an existing slice's capacity.
- The evaluation order of `return responseObj, makeHTTPRequest(...)`. Go
  leaves it unspecified. The model returns the decoded value, which is what
  the usual compiler yields.
- The field path inside a decoding type-mismatch error. The model records
  only the member key.
- Marshalling failures of the online request. They cannot happen, because
  that record holds only strings.
- An absent tags list is written as `null`, not as an empty array. The
  code never allocates the slice when no tags are given, and `json.Marshal`
  writes a nil slice as `null`. The model follows the code.
