/** The AQI API client of client.go: its configuration, the request builder
    and the response classifier. The URL, JSON and HTTP libraries the client
    calls are not modelled; each appears as a function-valued parameter that
    reports what the library did. */
module ApiClient {
  import opened Results
  import opened GoErrors

  const DefaultBaseUrl := "https://api.waqi.info/feed"
  const UserAgent := "github.com/billglover/aqi"

  const JsonMediaType := "application/json"
  const ContentTypeHeader := "Content-Type"
  const AcceptHeader := "Accept"
  const UserAgentHeader := "User-Agent"

  /** Messages Do wraps read and decode failures in. */
  const ReadFailureMessage := "unable to read body"
  const ParseFailureMessage := "unable to parse API response"
  const StatusFailurePrefix := "unexpected response code returned: HTTP "

  /** A parsed URL, identified by its serialised form. */
  datatype Url = Url(text: string)

  /** A handle on an *http.Client; the id tells handles apart. */
  datatype HttpClient = HttpClient(id: nat)

  /** http.DefaultClient. */
  const DefaultHttpClient := HttpClient(0)

  /** The Client struct. A nil base URL is None. */
  datatype Client = Client(baseUrl: Option<Url>, userAgent: string, http: HttpClient)

  datatype ClientOptions = ClientOptions(baseUrl: Option<Url>)

  /** NewClient(cc): a client for the public API with the library's user
      agent, using cc or, when cc is nil, the default HTTP client. The fixed
      base URL always parses, so the error url.Parse could report is never
      produced. */
  function NewClient(cc: Option<HttpClient>): (c: Client)
    ensures cc.None? ==> c.http == DefaultHttpClient
    ensures cc.Some? ==> c.http == cc.value
    ensures c.userAgent == UserAgent && c.userAgent != ""
    ensures c.baseUrl == Some(Url(DefaultBaseUrl))
  {
    var http := if cc.None? then DefaultHttpClient else cc.value;
    Client(Some(Url(DefaultBaseUrl)), UserAgent, http)
  }

  /** NewClientWithOptions differs from NewClient only in its base URL. */
  function NewClientWithOptions(cc: Option<HttpClient>, opts: ClientOptions): (c: Client)
    ensures c.baseUrl == opts.baseUrl
    ensures c.userAgent == NewClient(cc).userAgent
    ensures c.http == NewClient(cc).http
  {
    NewClient(cc).(baseUrl := opts.baseUrl)
  }

  /** An unsent *http.Request; header holds one value per canonical key. */
  datatype Request = Request(verb: string, url: Url, body: Option<seq<byte>>, header: map<string, string>)

  /** The headers NewRequest sets, in the order it sets them. */
  function RequestHeaders(userAgent: string, hasBody: bool): map<string, string>
  {
    var typed := if hasBody then map[ContentTypeHeader := JsonMediaType] else map[];
    var accepting := typed[AcceptHeader := JsonMediaType];
    if userAgent != "" then accepting[UserAgentHeader := userAgent] else accepting
  }

  /** The method http.NewRequest puts on the request: an empty one means
      GET. */
  function RequestVerb(verb: string): string
  {
    if verb == "" then "GET" else verb
  }

  /** c.NewRequest(method, urlStr, body).

      `parse(base, ref)` is what base.Parse(ref) returns; `check(verb, u)`
      is the error http.NewRequest reports for the method verb and URL, if any,
      after it has replaced an empty method by "GET".
      `body` is None for a nil body and otherwise the outcome of JSON-encoding
      the body value. Failures are reported in the order the code meets them:
      resolution, then encoding, then request construction. The base URL must
      be non-nil: the Go code dereferences it. */
  function NewRequest(
    c: Client,
    parse: (Url, string) -> Result<Url, Error>,
    check: (string, Url) -> Option<Error>,
    verb: string, urlStr: string, body: Option<Result<seq<byte>, Error>>
  ): (r: Result<Request, Error>)
    requires c.baseUrl.Some?
    ensures var u := parse(c.baseUrl.value, urlStr);
      && (u.Err? ==> r == Err(u.error))
      && (u.Ok? && body.Some? && body.value.Err? ==> r == Err(body.value.error))
      && (u.Ok? && (body.None? || body.value.Ok?) && check(RequestVerb(verb), u.value).Some? ==>
            r == Err(check(RequestVerb(verb), u.value).value))
      && (r.Ok? <==> u.Ok? && (body.None? || body.value.Ok?) && check(RequestVerb(verb), u.value).None?)
      && (r.Ok? ==> r.value.url == u.value)
    ensures r.Ok? && verb != "" ==> r.value.verb == verb
    ensures r.Ok? && verb == "" ==> r.value.verb == "GET"
    ensures r.Ok? ==> (r.value.body.Some? <==> body.Some?)
    ensures r.Ok? && body.Some? ==> r.value.body == Some(body.value.value)
    ensures r.Ok? ==> (ContentTypeHeader in r.value.header <==> body.Some?)
    ensures r.Ok? && body.Some? ==> r.value.header[ContentTypeHeader] == JsonMediaType
    ensures r.Ok? ==> AcceptHeader in r.value.header && r.value.header[AcceptHeader] == JsonMediaType
    ensures r.Ok? ==> (UserAgentHeader in r.value.header <==> c.userAgent != "")
    ensures r.Ok? && c.userAgent != "" ==> r.value.header[UserAgentHeader] == c.userAgent
    ensures r.Ok? ==> r.value.header.Keys <= {ContentTypeHeader, AcceptHeader, UserAgentHeader}
  {
    match parse(c.baseUrl.value, urlStr)
    case Err(e) => Err(e)
    case Ok(u) =>
      if body.Some? && body.value.Err? then Err(body.value.error)
      else
        var payload := if body.Some? then Some(body.value.value) else None;
        var verb' := RequestVerb(verb);
        match check(verb', u)
        case Some(e) => Err(e)
        case None => Ok(Request(verb', u, payload, RequestHeaders(c.userAgent, body.Some?)))
  }

  /** A client from NewClient always identifies itself with the library's
      user agent. */
  lemma DefaultClientSendsUserAgent(
    cc: Option<HttpClient>,
    parse: (Url, string) -> Result<Url, Error>,
    check: (string, Url) -> Option<Error>,
    verb: string, urlStr: string, body: Option<Result<seq<byte>, Error>>)
    ensures var r := NewRequest(NewClient(cc), parse, check, verb, urlStr, body);
      r.Ok? ==> UserAgentHeader in r.value.header && r.value.header[UserAgentHeader] == UserAgent
  {
  }

  // ---------------------------------------------------------------------
  // Do: what the transport, the body reader and the JSON decoder reported,
  // and what the code decides from it.
  // ---------------------------------------------------------------------

  /** What ctx.Done() shows when the transport fails: still live, or ended
      with ctx.Err() being context.Canceled or context.DeadlineExceeded. */
  datatype ContextState = Live | Canceled | DeadlineExceeded

  /** ctx.Err().Error() of an ended context. */
  function ContextErrorText(s: ContextState): string
    requires s != Live
  {
    if s == Canceled then "context canceled" else "context deadline exceeded"
  }

  /** Status line and code of an *http.Response. */
  datatype Response = Response(statusCode: int, status: string)

  /** What ioutil.ReadAll(resp.Body) returns. */
  datatype BodyRead = BodyBytes(data: seq<byte>) | BodyError(err: Error)

  /** What c.client.Do(req) returns: an error together with the state of the
      request's context at that moment, or a response and what reading its
      body would give. */
  datatype Exchange =
    | TransportFailed(err: Error, ctx: ContextState)
    | Received(resp: Response, body: BodyRead)

  /** The error json.Unmarshal returns: nil, io.EOF, or any other error. */
  datatype DecodeStatus = DecodeOk | DecodeEof | DecodeFailed(err: Error)

  /** json.Unmarshal(data, v): the destination's value afterwards (it may be
      partly filled on failure) and the error returned. */
  datatype Decoded<T> = Decoded(into: T, outcome: DecodeStatus)

  /** What happened to the response body during Do. */
  datatype BodyTrace = BodyTrace(read: bool, closed: bool, decoded: bool)

  const Untouched := BodyTrace(false, false, false)

  /** Do's results: the returned response and error, the destination v
      afterwards (None when v is nil), and what was done with the body. */
  datatype Reply<T> = Reply(resp: Option<Response>, err: Option<Error>, dest: Option<T>, body: BodyTrace)

  predicate IsSuccessStatus(code: int)
  {
    code < 300
  }

  /** The error Do builds for a status of 300 or above. */
  function StatusError(status: string): (e: Error)
    ensures e.Failure?
    ensures |Text(e)| >= |status|
    ensures Text(e)[|Text(e)| - |status|..] == status
  {
    var t := StatusFailurePrefix + status;
    assert t[|t| - |status|..] == status;
    Failure(t)
  }

  /** c.Do(ctx, req, v), with `send(h, req)` what HTTP client h did with the
      request and `unmarshal(data, d)` what json.Unmarshal did to a
      destination holding d. */
  function Do<T>(
    c: Client,
    send: (HttpClient, Request) -> Exchange,
    unmarshal: (seq<byte>, T) -> Decoded<T>,
    req: Request, v: Option<T>
  ): (r: Reply<T>)
    // transport failure: no response; the error carries the context's reason
    // when the context had ended, and is passed on untouched otherwise
    ensures var x := send(c.http, req);
      x.TransportFailed? ==>
        && r.resp.None? && r.dest == v && r.body == Untouched
        && (x.ctx == Live ==> r.err == Some(x.err))
        && (x.ctx != Live ==> r.err == Some(Wrap(x.err, ContextErrorText(x.ctx))))
    // status of 300 or more: the response comes back with an error, and the
    // body is neither read nor decoded
    ensures var x := send(c.http, req);
      x.Received? && !IsSuccessStatus(x.resp.statusCode) ==>
        && r.resp == Some(x.resp) && r.err == Some(StatusError(x.resp.status))
        && r.dest == v && r.body == Untouched
    // read failure: no response, a wrapped error, and the body left open
    ensures var x := send(c.http, req);
      x.Received? && IsSuccessStatus(x.resp.statusCode) && x.body.BodyError? ==>
        && r.resp.None? && r.err == Some(Wrap(x.body.err, ReadFailureMessage))
        && r.dest == v && r.body.read && !r.body.closed
    // the body is read exactly when the status is below 300
    ensures var x := send(c.http, req);
      r.body.read <==> x.Received? && IsSuccessStatus(x.resp.statusCode)
    // the body is closed exactly when it was read successfully
    ensures var x := send(c.http, req);
      r.body.closed <==> x.Received? && IsSuccessStatus(x.resp.statusCode) && x.body.BodyBytes?
    // decoding runs exactly when there is a destination and a non-empty body
    ensures var x := send(c.http, req);
      r.body.decoded <==> r.body.closed && v.Some? && |x.body.data| != 0
    // the destination changes only through decoding
    ensures r.dest.Some? <==> v.Some?
    ensures !r.body.decoded ==> r.dest == v
    ensures var x := send(c.http, req);
      r.body.decoded ==> r.dest == Some(unmarshal(x.body.data, v.value).into)
    // a decode error other than io.EOF is wrapped and the response kept
    ensures var x := send(c.http, req);
      r.body.decoded ==>
        var d := unmarshal(x.body.data, v.value);
        && r.resp == Some(x.resp)
        && (d.outcome.DecodeFailed? ==> r.err == Some(Wrap(d.outcome.err, ParseFailureMessage)))
        && (!d.outcome.DecodeFailed? ==> r.err.None?)
    // a body read without decoding: the received response and no error
    ensures var x := send(c.http, req);
      r.body.closed && !r.body.decoded ==> r.resp == Some(x.resp) && r.err.None?
    // success always comes with a response
    ensures r.err.None? ==> r.resp.Some? && r.body.closed
  {
    match send(c.http, req)
    case TransportFailed(err, ctx) =>
      var e := if ctx == Live then err else Wrap(err, ContextErrorText(ctx));
      Reply(None, Some(e), v, Untouched)
    case Received(resp, body) =>
      if !IsSuccessStatus(resp.statusCode) then
        Reply(Some(resp), Some(StatusError(resp.status)), v, Untouched)
      else
        match body
        case BodyError(err) =>
          Reply(None, Some(Wrap(err, ReadFailureMessage)), v, BodyTrace(true, false, false))
        case BodyBytes(data) =>
          if v.Some? && |data| != 0 then
            var d := unmarshal(data, v.value);
            var e := match d.outcome
              case DecodeOk => None
              case DecodeEof => None
              case DecodeFailed(err) => Some(Wrap(err, ParseFailureMessage));
            Reply(Some(resp), e, Some(d.into), BodyTrace(true, true, true))
          else
            Reply(Some(resp), None, v, BodyTrace(true, true, false))
  }

  /** The error taxonomy of a single call. */
  datatype ErrorKind = TransportError | HttpStatusError | ReadError | ParseError

  /** The kind of failure a reply reports, read off the reply alone. */
  function KindOf<T>(r: Reply<T>): Option<ErrorKind>
  {
    if r.err.None? then None
    else if r.resp.None? then (if r.body.read then Some(ReadError) else Some(TransportError))
    else if r.body.read then Some(ParseError)
    else Some(HttpStatusError)
  }

  /** Every call ends in exactly one state of Built -> Sent -> {Succeeded |
      StatusError | TransportError | ReadError | ParseError}, and which one
      is determined by what the libraries reported. */
  lemma DoErrorKinds<T>(
    c: Client,
    send: (HttpClient, Request) -> Exchange,
    unmarshal: (seq<byte>, T) -> Decoded<T>,
    req: Request, v: Option<T>)
    ensures var x := send(c.http, req); var k := KindOf(Do(c, send, unmarshal, req, v));
      && (k == Some(TransportError) <==> x.TransportFailed?)
      && (k == Some(HttpStatusError) <==> x.Received? && !IsSuccessStatus(x.resp.statusCode))
      && (k == Some(ReadError) <==> x.Received? && IsSuccessStatus(x.resp.statusCode) && x.body.BodyError?)
      && (k == Some(ParseError) <==>
            x.Received? && IsSuccessStatus(x.resp.statusCode) && x.body.BodyBytes?
            && v.Some? && |x.body.data| != 0 && unmarshal(x.body.data, v.value).outcome.DecodeFailed?)
    ensures var r := Do(c, send, unmarshal, req, v);
      && (KindOf(r) == Some(HttpStatusError) || KindOf(r) == Some(ParseError) || KindOf(r).None? <==> r.resp.Some?)
  {
  }

  /** A cancelled or expired context shows in the error: its text starts
      with the context's reason and its cause is still the transport's. */
  lemma CancellationIsVisible<T>(
    c: Client,
    send: (HttpClient, Request) -> Exchange,
    unmarshal: (seq<byte>, T) -> Decoded<T>,
    req: Request, v: Option<T>)
    requires send(c.http, req).TransportFailed? && send(c.http, req).ctx != Live
    ensures var r := Do(c, send, unmarshal, req, v); var reason := ContextErrorText(send(c.http, req).ctx);
      && r.err.Some?
      && Cause(r.err.value) == Cause(send(c.http, req).err)
      && |Text(r.err.value)| > |reason|
      && Text(r.err.value)[..|reason|] == reason
  {
    WrapTextPrefix(send(c.http, req).err, ContextErrorText(send(c.http, req).ctx));
  }

  /** A 200 response with an empty body is a success that leaves the
      destination exactly as it was. */
  lemma EmptyBodyLeavesDestination<T>(
    c: Client,
    send: (HttpClient, Request) -> Exchange,
    unmarshal: (seq<byte>, T) -> Decoded<T>,
    req: Request, v: Option<T>)
    requires send(c.http, req) == Received(Response(200, "200 OK"), BodyBytes([]))
    ensures var r := Do(c, send, unmarshal, req, v);
      r.err.None? && r.resp == Some(Response(200, "200 OK")) && r.dest == v && !r.body.decoded
  {
  }

  /** A 500 response yields an error naming the status, and the raw response
      is still returned. */
  lemma ServerErrorKeepsResponse<T>(
    c: Client,
    send: (HttpClient, Request) -> Exchange,
    unmarshal: (seq<byte>, T) -> Decoded<T>,
    req: Request, v: Option<T>, body: BodyRead)
    requires send(c.http, req) == Received(Response(500, "500 Internal Server Error"), body)
    ensures var r := Do(c, send, unmarshal, req, v);
      && r.resp == Some(Response(500, "500 Internal Server Error"))
      && r.err == Some(Failure("unexpected response code returned: HTTP 500 Internal Server Error"))
      && KindOf(r) == Some(HttpStatusError)
  {
    assert StatusFailurePrefix + "500 Internal Server Error"
      == "unexpected response code returned: HTTP 500 Internal Server Error";
  }

  // ---------------------------------------------------------------------
  // Releasing the body.
  // ---------------------------------------------------------------------

  /** As written, Do closes the body only after reading it successfully. On
      a read failure it returns a nil response, so the caller cannot close
      the body either and it is never released. */
  lemma ReadFailureLeaksBody<T>(
    c: Client,
    send: (HttpClient, Request) -> Exchange,
    unmarshal: (seq<byte>, T) -> Decoded<T>,
    req: Request, v: Option<T>, e: Error)
    requires send(c.http, req) == Received(Response(200, "200 OK"), BodyError(e))
    ensures var r := Do(c, send, unmarshal, req, v);
      r.resp.None? && r.body.read && !r.body.closed
  {
  }

  /** Do with the body also released when reading it fails, as a
      `defer resp.Body.Close()` placed after the status check would do. A
      body handed back with a status of 300 or more stays open for the
      caller, as before; the response, error and destination are unchanged. */
  function DoReleasingBody<T>(
    c: Client,
    send: (HttpClient, Request) -> Exchange,
    unmarshal: (seq<byte>, T) -> Decoded<T>,
    req: Request, v: Option<T>
  ): (r: Reply<T>)
    ensures var x := send(c.http, req);
      r.body.closed <==> x.Received? && IsSuccessStatus(x.resp.statusCode)
    ensures r.resp == Do(c, send, unmarshal, req, v).resp
    ensures r.err == Do(c, send, unmarshal, req, v).err
    ensures r.dest == Do(c, send, unmarshal, req, v).dest
    ensures r.body.read == Do(c, send, unmarshal, req, v).body.read
    ensures r.body.decoded == Do(c, send, unmarshal, req, v).body.decoded
  {
    var d := Do(c, send, unmarshal, req, v);
    var x := send(c.http, req);
    d.(body := d.body.(closed := x.Received? && IsSuccessStatus(x.resp.statusCode)))
  }

  /** With the correction, every body Do reads is closed, and a received
      body is never left open without a response the caller could close it
      through. */
  lemma ReleasedBodyNeverLeaks<T>(
    c: Client,
    send: (HttpClient, Request) -> Exchange,
    unmarshal: (seq<byte>, T) -> Decoded<T>,
    req: Request, v: Option<T>)
    ensures var r := DoReleasingBody(c, send, unmarshal, req, v);
      && (r.body.read ==> r.body.closed)
      && (send(c.http, req).Received? && r.resp.None? ==> r.body.closed)
      && (r.resp.Some? && !r.body.closed ==> KindOf(r) == Some(HttpStatusError))
      && KindOf(r) == KindOf(Do(c, send, unmarshal, req, v))
  {
  }
}
