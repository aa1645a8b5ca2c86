/** The parts of an HTTP request the handlers read and of the response they
    build, and Django's If-Modified-Since comparison (section 13.1.3 of
    RFC 9110: a GET of a resource not modified since the given date gets
    304 Not Modified). Dates in headers are whole seconds since the epoch,
    formatted and parsed by given functions. */
module Http {
  import opened Base

  datatype Method = GET | HEAD | POST | DELETE | PUT | OtherMethod

  datatype Request = Request(
    verb: Method,
    /** The Authorization header, if sent. */
    authorization: Option<string>,
    /** The If-Modified-Since header, if sent. */
    ifModifiedSince: Option<string>)

  datatype Body =
    | NoBody
    | EmptyJson                                                  // {}
    | SerialsJson(lastUpdated: string, serialNumbers: set<string>)
    | PkPass(archive: map<string, Bytes>)
    | DetailJson(detail: string)                                 // {"detail": ...}

  datatype Response = Response(status: int, body: Body, headers: map<string, string>)

  const OK := 200
  const CREATED := 201
  const NO_CONTENT := 204
  const FOUND := 302
  const NOT_MODIFIED := 304
  const BAD_REQUEST := 400
  const UNAUTHORIZED := 401
  const NOT_FOUND := 404
  const SERVER_ERROR := 500

  const PKPASS_CONTENT_TYPE := "application/vnd.apple.pkpass"
  const PKPASS_DISPOSITION := "attachment; filename=pass.pkpass"

  /** A response without body or headers. */
  function Status(status: int): (r: Response)
    ensures r.status == status && r.body == NoBody && r.headers == map[]
  {
    Response(status, NoBody, map[])
  }

  /** A DRF Response({}, status=...). */
  function JsonStatus(status: int): (r: Response)
    ensures r.status == status && r.body == EmptyJson && r.headers == map[]
  {
    Response(status, EmptyJson, map[])
  }

  /** The body DRF's exception handler gives an APIException, and the
      Http404 it turns into NotFound. */
  function Detail(status: int, detail: string): (r: Response)
    ensures r.status == status && r.body == DetailJson(detail) && r.headers == map[]
  {
    Response(status, DetailJson(detail), map[])
  }

  /** NotFound's default detail. */
  const NOT_FOUND_DETAIL := "Not found."

  /** What JSONParser puts before the decoder's message in its ParseError. */
  const JSON_PARSE_ERROR_PREFIX := "JSON parse error - "

  /** http_date and parse_http_date_safe. */
  datatype HttpDates = HttpDates(format: int -> string, parse: string -> Option<int>)

  /** Parsing a formatted date gives back its seconds. */
  ghost predicate DatesRoundTrip(d: HttpDates) {
    forall secs :: d.parse(d.format(secs)) == Some(secs)
  }

  /** The header a request carries as the bearer token of a pass:
      "ApplePass " followed by the pass's authentication token. */
  predicate Authorized(req: Request, token: string) {
    req.authorization == Some("ApplePass " + token)
  }

  /** django.utils.cache.get_conditional_response, If-Modified-Since part:
      the date parses to a non-zero time, there is a non-zero
      last-modified time (zero counts as none, as Python's truth test has
      it), and that time is not later than the date. */
  predicate NotModifiedSince(req: Request, dates: HttpDates, lastModified: Option<int>) {
    req.ifModifiedSince.Some? && dates.parse(req.ifModifiedSince.value).Some? &&
    dates.parse(req.ifModifiedSince.value).value != 0 &&
    lastModified.Some? && lastModified.value != 0 &&
    lastModified.value <= dates.parse(req.ifModifiedSince.value).value
  }

  /** The 304 response keeps the Last-Modified header of the response it replaces. */
  function NotModified(headers: map<string, string>): (r: Response)
    ensures r.status == NOT_MODIFIED && r.body == NoBody
    ensures "Last-Modified" in headers ==> r.headers == map["Last-Modified" := headers["Last-Modified"]]
    ensures "Last-Modified" !in headers ==> r.headers == map[]
  {
    Response(NOT_MODIFIED, NoBody,
      if "Last-Modified" in headers then map["Last-Modified" := headers["Last-Modified"]] else map[])
  }

  /** The JSON body of a register request, decoded: json.loads raising,
      a body without "pushToken", or the push token. */
  datatype RegistrationBody = RegistrationBodyUnparseable | NoPushToken | PushToken(token: string)

  /** The JSON body of a log request, decoded: unparseable (with the
      decoder's message), without "logs", or the list of messages. */
  datatype LogBody = LogBodyUnparseable(reason: string) | NoLogs | Logs(messages: seq<string>)
}
