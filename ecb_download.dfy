/** The conditional request for one feed variant and the validators read
    back from the response (euro_converter/ecb/download.py). The HTTP session
    is a function parameter from request to response; headers are maps with
    exact, case-sensitive names. */
module EcbDownload {
  import opened Wrappers
  import opened EcbTypes
  import EcbParser

  const BASE_URL_PREFIX: string := "https://www.ecb.europa.eu/stats/eurofxref/eurofxref-"
  const BASE_URL_SUFFIX: string := ".xml"

  /** The part of the feed name that tells the variants apart. */
  function UrlPart(t: UpdateType): string {
    match t
    case Full => "hist"
    case Incremental90Days => "hist-90d"
    case IncrementalDaily => "daily"
  }

  /** `URLS[update_type]`: the fixed address of each variant of the feed. */
  function Url(t: UpdateType): string {
    BASE_URL_PREFIX + UrlPart(t) + BASE_URL_SUFFIX
  }

  /** Every variant has its own address. */
  lemma UrlsDistinct(t1: UpdateType, t2: UpdateType)
    ensures Url(t1) == Url(t2) <==> t1 == t2
  {
  }

  type Headers = map<string, string>

  datatype Request = Request(url: string, headers: Headers)

  /** A response: its status, its headers and the event stream of its body. */
  datatype Response = Response(status: int, headers: Headers, body: seq<EcbParser.Event>)

  /** `raise_for_status()` of a response that is not `ok`. */
  datatype FetchError = HttpError(status: int)

  /** The raw body handed on to the parser and the validators of the
      response. */
  datatype Fetched = Fetched(response: Response, validators: UpdateTimestamps)

  /** The headers of the conditional request: `If-Modified-Since` and
      `If-None-Match` (sections 3.3 and 3.2 of RFC 7232) exactly for the
      stored validators that are present, and nothing else. */
  predicate ConditionalHeaders(h: Headers, latest: Option<UpdateTimestamps>) {
    && ("If-Modified-Since" in h <==> latest.Some? && Present(latest.value.modifiedSince))
    && ("If-Modified-Since" in h ==> h["If-Modified-Since"] == latest.value.modifiedSince.value)
    && ("If-None-Match" in h <==> latest.Some? && Present(latest.value.etag))
    && ("If-None-Match" in h ==> h["If-None-Match"] == latest.value.etag.value)
    && h.Keys <= {"If-Modified-Since", "If-None-Match"}
  }

  /** The validators a response carries in `Last-Modified` and `ETag`. */
  function ResponseValidators(response: Response): UpdateTimestamps {
    UpdateTimestamps(Get(response.headers, "Last-Modified"), Get(response.headers, "ETag"))
  }

  /** `get_data`: sends the conditional request for the variant's address,
      rejects any status of 400 or more, and reads the new validators from
      the response. `sent` is the request given to the session. */
  method GetData(t: UpdateType, latest: Option<UpdateTimestamps>, session: Request -> Response)
    returns (sent: Request, r: Result<Fetched, FetchError>)
    ensures sent.url == Url(t)
    ensures ConditionalHeaders(sent.headers, latest)
    ensures r.Err? <==> session(sent).status >= 400
    ensures r.Err? ==> r.error == HttpError(session(sent).status)
    ensures r.Ok? ==> r.value.response == session(sent)
    ensures r.Ok? ==> r.value.validators == ResponseValidators(session(sent))
  {
    var requestHeaders: Headers := map[];
    var url := Url(t);
    if latest.Some? {
      if Present(latest.value.modifiedSince) {
        requestHeaders := requestHeaders["If-Modified-Since" := latest.value.modifiedSince.value];
      }
      if Present(latest.value.etag) {
        requestHeaders := requestHeaders["If-None-Match" := latest.value.etag.value];
      }
    }
    sent := Request(url, requestHeaders);
    var response := session(sent);
    if response.status >= 400 {
      return sent, Err(HttpError(response.status));
    }
    var updated := UpdateTimestamps(Get(response.headers, "Last-Modified"), Get(response.headers, "ETag"));
    r := Ok(Fetched(response, updated));
  }
}
