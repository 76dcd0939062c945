# AQI client: a Dafny model

A model of the Go client library for the World Air Quality Index API
(`github.com/billglover/aqi`). It covers three pieces:

- **The colour scale** (`aqi.go`, module `ColourScale`). `RGB` maps an AQI
  reading to one of six colours. The model follows the code's switch case by
  case, its unreachable `default` included. It is checked against a separate
  table of the published AQI bands, with the colours aqi.go gives them. That
  table is independent of the switch's guards, so the bucket edges are checked
  independently. The colours are the code's own.
- **The API client** (`client.go`, module `ApiClient`). This covers the client
  configuration (`NewClient`, `NewClientWithOptions`), the request builder
  (`NewRequest`) and the response classifier (`Do`).
- **The measurement accessor** (`measurement.go`, module `Measurements`).
  `Latest` builds the station's feed path, composes `NewRequest` and `Do`,
  passes every error through unchanged, and keeps only the envelope's AQI.

Two helper modules support these. `Results` defines Option and Result.
`GoErrors` models Go error values, `errors.Wrap`/`errors.Cause` from
`github.com/pkg/errors`, and the text `Error()` prints.

The code calls libraries whose source is not part of this model: `net/url`,
`net/http` and `encoding/json`. Each one is a function-valued parameter that
reports what the library did:

- `parse(base, ref)` is `base.Parse(ref)`.
- `check(verb, url)` is the error `http.NewRequest` may return. It is asked
  after an empty method has been replaced by `GET`.
- `send(client, request)` is `client.Do(request)`. A failure also carries
  what `ctx.Done()` showed at that moment. A response carries what
  `ioutil.ReadAll` of its body returns.
- `unmarshal(data, dest)` is `json.Unmarshal`. It returns the destination's
  value afterwards and nil, `io.EOF` or another error.
- A non-nil request body is represented by the outcome of JSON-encoding it.

Behaviour worth knowing, all of it as the code does it:

- A negative reading gets the green of the lowest bucket. The `(0,0,0)`
  branch can never be reached.
- `Latest` passes the path `"/feed/" + station + "/"`, with a leading slash,
  although the comment on `NewRequest` (client.go:55-56) asks for a relative
  URL without one. The path is resolved, so it replaces the base URL's path and drops its query.
- The response body is not released on every exit path. See Findings.
- A successful response with an empty body is not an error. `Latest` then
  reports AQI 0.

## Model

| member | source | states |
|---|---|---|
| ColourScale.RGB | aqi.go:5-22 | every integer, negatives included, yields one of the six scale colours, never the default's (0,0,0), with each component in 0..255 |
| ColourScale.DefaultUnreachable | aqi.go:6-21 | the guards before `default` cover every integer, so the default case is never selected |
| ColourScale.LowReadingsAreGood | aqi.go:7-8 | any reading <= 50, negatives included, is (0,152,0); readings above 50 are not; 50 and 51 land in different buckets |
| ColourScale.ScaleIsContiguous | aqi.go:7-18 | the six buckets form a gap-free, overlap-free table whose upper edges are 50, 100, 150, 200 and 300 |
| ColourScale.RgbFollowsScale | aqi.go:7-18 | for a reading in any band of the table of published AQI bands (<=50, 51-100, 101-150, 151-200, 201-300, >300), RGB returns that bucket's colour |
| ColourScale.RgbTotal | aqi.go:6-21 | every reading lies in exactly one bucket, and RGB returns that bucket's colour |
| ColourScale.EdgesSplitBuckets | aqi.go:7-18 | each edge (50, 100, 150, 200, 300) and its successor land in adjacent buckets with different colours |
| ColourScale.ConstantWithinBand | aqi.go:6-18 | readings in the same bucket get the same colour |
| ColourScale.FindBand | aqi.go:6-18 | scanning a contiguous bucket table in order, as the switch does, finds the one bucket holding the reading, and on the AQI table that bucket's colour is RGB's |
| GoErrors.Wrap | client.go:101 | a wrapped error keeps the original as its cause, prefixes its text with the message and ": ", and unwraps back to the original |
| GoErrors.TextEndsWithCause | client.go:114-117 | however many wrappers an error has, its text still ends with its cause's text |
| ApiClient.NewClient | client.go:37-45 | a nil HTTP client is replaced by the default one, a given one is kept; the user agent is the fixed non-empty constant; the base URL is the parsed fixed endpoint |
| ApiClient.NewClientWithOptions | client.go:49-53 | the result differs from NewClient's only in its base URL, which is the option's |
| ApiClient.NewRequest | client.go:58-88 | fails with the resolver's error, else the encoder's error for a non-nil body, else http.NewRequest's error, in that order; on success the method is the one given, or GET when it is empty, the URL is the resolved one, the body the encoded one, Content-Type is set iff the body is non-nil, Accept is always application/json, User-Agent is set iff configured and then equals it, and no other header is set |
| ApiClient.DefaultClientSendsUserAgent | client.go:84-86 | every request built by a NewClient client carries the library's User-Agent |
| ApiClient.StatusError | client.go:108-110 | the status error's text ends with the response's status line |
| ApiClient.Do | client.go:94-134 | transport failure: nil response, error wrapped with the context's reason iff the context had ended; status >= 300: the response and an error, body untouched; read failure: nil response, "unable to read body" error, body left open; the body is read iff the status is below 300, and closed iff that read succeeded; decoding runs iff the destination is non-nil and the body non-empty; when a read body is not decoded, the received response comes back with no error; nil and io.EOF decode results give no error, any other is wrapped as "unable to parse API response"; the destination changes only by decoding |
| ApiClient.DoErrorKinds | client.go:96-133 | the reply's error kind is transport, HTTP status, read or parse exactly under the matching library outcomes, and a response is returned exactly for status errors, parse errors and success |
| ApiClient.CancellationIsVisible | client.go:98-104 | with an ended context the error text starts with the context's reason and its cause is the transport error |
| ApiClient.EmptyBodyLeavesDestination | client.go:113-133 | a 200 response with an empty body succeeds and leaves the destination unchanged |
| ApiClient.ServerErrorKeepsResponse | client.go:107-111 | a 500 response yields the raw response and an error naming "500 Internal Server Error" |
| ApiClient.ReadFailureLeaksBody | client.go:114-118 | as written, a read failure returns no response and never closes the body |
| ApiClient.DoReleasingBody | client.go:113-118 | the corrected Do also closes the body when reading it fails, so it closes exactly the bodies it read; a body returned with a status >= 300 stays open for the caller; response, error and destination are Do's |
| ApiClient.ReleasedBodyNeverLeaks | client.go:113-118 | under the correction, every body that was read is closed, no received body is left open without a response to close it through, an open body comes back only with a status error, and the error kind is unchanged |
| Measurements.FeedPath | measurement.go:18 | the path is "/feed/", then the station verbatim, then "/" |
| Measurements.FeedPathRoundTrip | measurement.go:18 | the station can be recovered from its path, so distinct stations get distinct paths |
| Measurements.FeedRequest | measurement.go:18-21 | Latest's request is a GET of the resolved feed path with no body and no Content-Type, failing with the resolver's error when resolution fails |
| Measurements.Latest | measurement.go:16-32 | any error comes with the zero measurement; a request-building error and Do's error are returned unchanged; on success the AQI is the decoded envelope's Data.AQI |
| Measurements.LatestPassesResolveError | measurement.go:18-21 | an unresolvable feed path gives the zero measurement and the resolver's error |
| Measurements.LatestPassesTransportError | measurement.go:24-27 | a transport error reaches the caller as Do reports it, with no extra translation |
| Measurements.LatestRejectsErrorStatus | measurement.go:24-27 | a status >= 300 gives the zero measurement and Do's status error |
| Measurements.LatestSucceedsExactly | measurement.go:16-32 | Latest succeeds iff the request was built, the status is below 300, the body was read, and decoding (when it ran) did not fail |
| Measurements.LatestEmptyBodyIsZero | measurement.go:23-31 | a successful empty body gives AQI 0 and no error |
| Measurements.LatestKeepsOnlyAqi | measurement.go:29-31 | only Data.AQI of the envelope reaches the caller; the other envelope fields do not affect the reading when both decodes end the same way |
| Measurements.LatestBeijingDaxing | measurement_test.go:43-50 | a 200 response whose body decodes to "aqi":90 gives Measurement{AQI: 90} for "beijing/daxing" with no error |

## Left out

- URL reference resolution (`net/url`) is an uninterpreted `parse` parameter, as is the error `http.NewRequest` may raise. The resolution algorithm of section 5.2 of RFC 3986 is not modelled.
- JSON encoding and decoding are abstract outcomes. Nothing is claimed about the bytes produced, about HTML escaping, or about how `json.Unmarshal` fills a value.
- The HTTP transport, TLS and connection handling are abstract, given as the `send` parameter. So are context timing and concurrency. Only the context's state when the transport fails is modelled, because only that affects control flow.
- `req.WithContext(ctx)` is not modelled separately. The context is whatever `send` observes.
- Measurements.FeedResponse keeps only `Status` and `Data.AQI`. `Latest` never reads the other envelope fields. They are ints (`Idx`, `Pm10`, `Pm25`, `Time.V`), strings (`Attributions`, `City.Name`/`URL`, `Dominentpol`, `Time.S`/`Tz`), floats (the other pollutants, `City.Geo`) and a `time.Time` (`Debug.Sync`). A value in one of them that does not fit its type still makes `json.Unmarshal` fail, and `Latest` then returns the wrapped parse error. The abstract `unmarshal` outcome covers that case.
- ApiClient.NewRequest requires a non-nil base URL. With a nil `BaseURL` from `NewClientWithOptions`, `(*url.URL).Parse` still returns a parse error, or resolves an absolute reference, without touching the receiver. It panics only on a reference that parses and has no scheme. The model does not represent panics, so it leaves every nil-base call out, including those that would not panic.
- ApiClient.NewClient assumes the fixed base URL parses. It is a well-formed constant, and the code discards the parse error.
- The destination `v` is `Option<T>`. A typed nil pointer inside a non-nil interface is not distinguished from nil.
- Header keys are stored as written. They are already canonical, so `http.Header.Set`'s canonicalisation is not modelled.
- Integers are unbounded. RGB does no arithmetic, and the AQI is only copied, so Go's 64-bit `int` makes no difference.
- Building the same request twice gives the same result. This holds trivially because every operation here is a pure function, so no lemma states it.
- The token query check in the test handler (measurement_test.go:36-39) is not modelled. Nothing in `setup()` or in the library adds a token query, so this check cannot pass as written. Tokens are not part of the modelled code.
- Only one colour scale exists in the code, the one in aqi.go. No other palette is modelled.

## Findings

| source | as written | input that shows it | evidently intended | confidence | as-written member | corrected member |
|---|---|---|---|---|---|---|
| client.go:114-118 | the body is closed only after a successful read; a read error returns a nil response and leaves the body open, and no caller can close it | `send` gives `Received(Response(200, "200 OK"), BodyError(e))` | close the body on the read-failure path too (`defer resp.Body.Close()` after the status check) | medium, not executed | ApiClient.ReadFailureLeaksBody | ApiClient.DoReleasingBody |

`Latest` calls `Do` as written, as measurement.go:24 does. `DoReleasingBody`
returns the same response, error and destination as `Do`, so the correction
would change nothing `Latest` returns.
