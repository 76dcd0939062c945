/** The measurement accessor of measurement.go: fetch the latest reading for
    a station and keep only its AQI. */
module Measurements {
  import opened Results
  import opened GoErrors
  import opened ApiClient

  /** The public result: an air quality measurement for one location. */
  datatype Measurement = Measurement(aqi: int)

  /** The zero value, returned alongside every error. */
  const NoMeasurement := Measurement(0)

  /** The part of the API's feed envelope that Latest uses. */
  datatype FeedData = FeedData(aqi: int)
  datatype FeedResponse = FeedResponse(status: string, data: FeedData)

  /** The zero value Latest decodes into. */
  const EmptyFeed := FeedResponse("", FeedData(0))

  /** Latest's (Measurement, error) pair. */
  datatype Reading = Reading(m: Measurement, err: Option<Error>)

  const FeedPrefix := "/feed/"

  /** The path of a station's feed: the station, verbatim, between "/feed/"
      and a trailing slash. */
  function FeedPath(station: string): (p: string)
    ensures |p| == |FeedPrefix| + |station| + 1
    ensures p[..|FeedPrefix|] == FeedPrefix
    ensures p[|FeedPrefix|..|p| - 1] == station
    ensures p[|p| - 1] == '/'
  {
    var p := FeedPrefix + station + "/";
    assert p[|FeedPrefix|..|p| - 1] == station;
    p
  }

  /** Recovers the station from a feed path; the partner of FeedPath. */
  function StationOf(path: string): string
    requires |path| >= |FeedPrefix| + 1
  {
    path[|FeedPrefix|..|path| - 1]
  }

  /** FeedPath loses nothing: the station can be read back, so distinct
      stations get distinct paths. */
  lemma FeedPathRoundTrip(station: string, other: string)
    ensures StationOf(FeedPath(station)) == station
    ensures FeedPath(station) == FeedPath(other) ==> station == other
  {
  }

  /** The request Latest builds: a GET of the station's feed path, no body. */
  function FeedRequest(
    c: Client,
    parse: (Url, string) -> Result<Url, Error>,
    check: (string, Url) -> Option<Error>,
    station: string
  ): (r: Result<Request, Error>)
    requires c.baseUrl.Some?
    ensures var u := parse(c.baseUrl.value, FeedPath(station));
      && (u.Err? ==> r == Err(u.error))
      && (r.Ok? <==> u.Ok? && check("GET", u.value).None?)
      && (r.Ok? ==> r.value.url == u.value)
    ensures r.Ok? ==> r.value.verb == "GET" && r.value.body.None?
    ensures r.Ok? ==> ContentTypeHeader !in r.value.header
    ensures r.Ok? ==> AcceptHeader in r.value.header && r.value.header[AcceptHeader] == JsonMediaType
  {
    NewRequest(c, parse, check, "GET", FeedPath(station), None)
  }

  /** c.Latest(ctx, station). The transport and decoder are parameters as
      for Do; the request's context is what `send` sees. Every error from
      building or sending the request is returned unchanged with the zero
      measurement; on success the measurement is the envelope's AQI. */
  function Latest(
    c: Client,
    parse: (Url, string) -> Result<Url, Error>,
    check: (string, Url) -> Option<Error>,
    send: (HttpClient, Request) -> Exchange,
    unmarshal: (seq<byte>, FeedResponse) -> Decoded<FeedResponse>,
    station: string
  ): (r: Reading)
    requires c.baseUrl.Some?
    ensures r.err.Some? ==> r.m == NoMeasurement
    ensures var q := FeedRequest(c, parse, check, station);
      q.Err? ==> r.err == Some(q.error)
    ensures var q := FeedRequest(c, parse, check, station);
      q.Ok? ==>
        var d := Do(c, send, unmarshal, q.value, Some(EmptyFeed));
        && r.err == d.err
        && (d.err.None? ==> r.m.aqi == d.dest.value.data.aqi)
  {
    match FeedRequest(c, parse, check, station)
    case Err(e) => Reading(NoMeasurement, Some(e))
    case Ok(req) =>
      var d := Do(c, send, unmarshal, req, Some(EmptyFeed));
      if d.err.Some? then Reading(NoMeasurement, d.err)
      else Reading(Measurement(d.dest.value.data.aqi), None)
  }

  /** If the station's path does not resolve against the base URL, Latest
      returns the resolver's own error. */
  lemma LatestPassesResolveError(
    c: Client,
    parse: (Url, string) -> Result<Url, Error>,
    check: (string, Url) -> Option<Error>,
    send: (HttpClient, Request) -> Exchange,
    unmarshal: (seq<byte>, FeedResponse) -> Decoded<FeedResponse>,
    station: string, e: Error)
    requires c.baseUrl.Some?
    requires parse(c.baseUrl.value, FeedPath(station)) == Err(e)
    ensures Latest(c, parse, check, send, unmarshal, station) == Reading(NoMeasurement, Some(e))
  {
  }

  /** A transport failure reaches the caller exactly as Do reports it:
      untouched, or wrapped with the context's reason. */
  lemma LatestPassesTransportError(
    c: Client,
    parse: (Url, string) -> Result<Url, Error>,
    check: (string, Url) -> Option<Error>,
    send: (HttpClient, Request) -> Exchange,
    unmarshal: (seq<byte>, FeedResponse) -> Decoded<FeedResponse>,
    station: string, e: Error, ctx: ContextState)
    requires c.baseUrl.Some?
    requires FeedRequest(c, parse, check, station).Ok?
    requires send(c.http, FeedRequest(c, parse, check, station).value) == TransportFailed(e, ctx)
    ensures ctx == Live ==>
      Latest(c, parse, check, send, unmarshal, station) == Reading(NoMeasurement, Some(e))
    ensures ctx != Live ==>
      Latest(c, parse, check, send, unmarshal, station)
        == Reading(NoMeasurement, Some(Wrap(e, ContextErrorText(ctx))))
  {
  }

  /** A status of 300 or more is an error even when the body holds a valid
      envelope; the response itself is dropped. */
  lemma LatestRejectsErrorStatus(
    c: Client,
    parse: (Url, string) -> Result<Url, Error>,
    check: (string, Url) -> Option<Error>,
    send: (HttpClient, Request) -> Exchange,
    unmarshal: (seq<byte>, FeedResponse) -> Decoded<FeedResponse>,
    station: string, resp: Response, body: BodyRead)
    requires c.baseUrl.Some?
    requires FeedRequest(c, parse, check, station).Ok?
    requires send(c.http, FeedRequest(c, parse, check, station).value) == Received(resp, body)
    requires resp.statusCode >= 300
    ensures Latest(c, parse, check, send, unmarshal, station)
      == Reading(NoMeasurement, Some(StatusError(resp.status)))
  {
  }

  /** Success iff the request was built, the status is below 300, the body
      was read, and decoding (if it ran) ended with nil or io.EOF. */
  lemma LatestSucceedsExactly(
    c: Client,
    parse: (Url, string) -> Result<Url, Error>,
    check: (string, Url) -> Option<Error>,
    send: (HttpClient, Request) -> Exchange,
    unmarshal: (seq<byte>, FeedResponse) -> Decoded<FeedResponse>,
    station: string)
    requires c.baseUrl.Some?
    ensures var r := Latest(c, parse, check, send, unmarshal, station);
      var q := FeedRequest(c, parse, check, station);
      r.err.None? <==>
        && q.Ok?
        && var x := send(c.http, q.value);
        && x.Received? && IsSuccessStatus(x.resp.statusCode) && x.body.BodyBytes?
        && (|x.body.data| == 0 || !unmarshal(x.body.data, EmptyFeed).outcome.DecodeFailed?)
  {
  }

  /** A successful empty body is no error: Latest reports the zero AQI. */
  lemma LatestEmptyBodyIsZero(
    c: Client,
    parse: (Url, string) -> Result<Url, Error>,
    check: (string, Url) -> Option<Error>,
    send: (HttpClient, Request) -> Exchange,
    unmarshal: (seq<byte>, FeedResponse) -> Decoded<FeedResponse>,
    station: string, resp: Response)
    requires c.baseUrl.Some?
    requires FeedRequest(c, parse, check, station).Ok?
    requires send(c.http, FeedRequest(c, parse, check, station).value) == Received(resp, BodyBytes([]))
    requires resp.statusCode < 300
    ensures Latest(c, parse, check, send, unmarshal, station) == Reading(NoMeasurement, None)
  {
  }

  /** Only the envelope's AQI reaches the caller: two decoders that agree on
      data.aqi, and on whether they failed, give the same reading however
      the rest of the envelope differs. */
  lemma LatestKeepsOnlyAqi(
    c: Client,
    parse: (Url, string) -> Result<Url, Error>,
    check: (string, Url) -> Option<Error>,
    send: (HttpClient, Request) -> Exchange,
    unmarshal: (seq<byte>, FeedResponse) -> Decoded<FeedResponse>,
    unmarshal': (seq<byte>, FeedResponse) -> Decoded<FeedResponse>,
    station: string)
    requires c.baseUrl.Some?
    requires forall data ::
      unmarshal(data, EmptyFeed).into.data.aqi == unmarshal'(data, EmptyFeed).into.data.aqi
      && unmarshal(data, EmptyFeed).outcome == unmarshal'(data, EmptyFeed).outcome
    ensures Latest(c, parse, check, send, unmarshal, station)
      == Latest(c, parse, check, send, unmarshal', station)
  {
  }

  /** The recorded exchange for station "beijing/daxing": a 200 response
      whose body decodes to an envelope with "aqi":90 gives Measurement{AQI:
      90} and no error. */
  lemma LatestBeijingDaxing(
    parse: (Url, string) -> Result<Url, Error>,
    check: (string, Url) -> Option<Error>,
    send: (HttpClient, Request) -> Exchange,
    unmarshal: (seq<byte>, FeedResponse) -> Decoded<FeedResponse>,
    mock: seq<byte>, envelope: FeedResponse)
    requires parse(Url(DefaultBaseUrl), FeedPath("beijing/daxing")).Ok?
    requires forall u: Url :: check("GET", u).None?
    requires |mock| > 0
    requires forall h, q :: send(h, q) == Received(Response(200, "200 OK"), BodyBytes(mock))
    requires unmarshal(mock, EmptyFeed) == Decoded(envelope, DecodeOk)
    requires envelope.status == "ok" && envelope.data.aqi == 90
    ensures Latest(NewClient(None), parse, check, send, unmarshal, "beijing/daxing")
      == Reading(Measurement(90), None)
  {
    var c := NewClient(None);
    var q := FeedRequest(c, parse, check, "beijing/daxing");
    assert q.Ok?;
    assert send(c.http, q.value) == Received(Response(200, "200 OK"), BodyBytes(mock));
  }
}
