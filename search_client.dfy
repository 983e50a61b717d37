/** How `getImages` in index.js settles its promise: the upstream response is
    sorted into a parsed value or one of three rejections. */
module SearchClient {
  import opened Wrappers
  import opened Js
  import opened UpstreamUrl

  /** What `JSON.parse` made of the response body. */
  datatype BodyParse = Parsed(value: Json) | Malformed

  /** What came back for the request: a transport failure (the request's
      'error' event), or a response with its status code, its content-type
      header and the parse of its body. */
  datatype Upstream =
    | TransportError
    | Received(status: int, contentType: Option<string>, body: BodyParse)

  /** The three reasons getImages rejects. */
  datatype FetchError = RequestFailed | TransportFailed | ParseFailed

  const ExternalApiError: string := "An error occurred while making the request to an external API "

  /** The string each rejection carries. */
  function Message(e: FetchError): string {
    match e
    case RequestFailed => ExternalApiError + "[1]"
    case TransportFailed => ExternalApiError + "[2]"
    case ParseFailed => "An error occurred parsing the return JSON string"
  }

  /** The three rejection messages are pairwise different, so the message alone
      tells a bad response, a transport failure and a malformed body apart. */
  lemma MessagesDistinct(e1: FetchError, e2: FetchError)
    requires e1 != e2
    ensures Message(e1) != Message(e2)
  {
    var m1, m2 := Message(e1), Message(e2);
    var n := |ExternalApiError|;
    if e1 != ParseFailed && e2 != ParseFailed {
      assert m1[n + 1] != m2[n + 1];
    } else {
      assert |m1| != |m2|;
    }
  }

  /** `/^application\/json/.test(contentType)`: the header starts with
      "application/json", compared case-sensitively; a missing header is tested
      as the text "undefined". */
  predicate IsJsonContentType(contentType: Option<string>)
    ensures IsJsonContentType(contentType) ==> contentType.Some?
  {
    var t := ToJsString(contentType);
    |t| >= |JsonMediaType| && t[..|JsonMediaType|] == JsonMediaType
  }

  const JsonMediaType: string := "application/json"

  /** A missing content-type never matches, nor does any text that does not
      start with "application/json"; anything after the prefix is allowed. */
  lemma JsonContentTypeExamples(suffix: string)
    ensures !IsJsonContentType(None)
    ensures IsJsonContentType(Some(JsonMediaType + suffix))
    ensures !IsJsonContentType(Some("Application/json" + suffix))
    ensures !IsJsonContentType(Some("text/html" + suffix))
  {
    assert (JsonMediaType + suffix)[..|JsonMediaType|] == JsonMediaType;
    assert ("Application/json" + suffix)[0] != JsonMediaType[0];
    assert ("text/html" + suffix)[0] != JsonMediaType[0];
    assert "undefined"[0] != JsonMediaType[0];
  }

  /** How getImages settles its promise for an upstream outcome. The status is
      checked before the content-type, and the body is parsed only when both pass. */
  function Classify(u: Upstream): (r: Result<Json, FetchError>)
    ensures r == Failure(TransportFailed) <==> u.TransportError?
    ensures r == Failure(RequestFailed) <==>
      u.Received? && (u.status != 200 || !IsJsonContentType(u.contentType))
    ensures r == Failure(ParseFailed) <==>
      u.Received? && u.status == 200 && IsJsonContentType(u.contentType) && u.body.Malformed?
    ensures r.Success? ==>
      u.Received? && u.status == 200 && IsJsonContentType(u.contentType) && u.body == Parsed(r.value)
  {
    match u
    case TransportError => Failure(TransportFailed)
    case Received(status, contentType, body) =>
      if status != 200 then Failure(RequestFailed)
      else if !IsJsonContentType(contentType) then Failure(RequestFailed)
      else match body
        case Malformed => Failure(ParseFailed)
        case Parsed(v) => Success(v)
  }

  /** getImages(query, page): request the URL for the query and page, and
      settle with the parsed body or reject with a message string. `respond`
      stands for the network: what comes back for a URL. Each message names
      exactly one way of failing. */
  function GetImages(cfg: Config, query: string, page: Option<int>, respond: string -> Upstream)
    : (r: Result<Json, string>)
    ensures var u := respond(SearchUrl(cfg, query, page));
      (r == Failure(Message(RequestFailed)) <==>
        u.Received? && (u.status != 200 || !IsJsonContentType(u.contentType)))
      && (r == Failure(Message(TransportFailed)) <==> u.TransportError?)
      && (r == Failure(Message(ParseFailed)) <==>
        u.Received? && u.status == 200 && IsJsonContentType(u.contentType) && u.body.Malformed?)
      && (r.Success? ==> u == Received(200, u.contentType, Parsed(r.value)))
      && (u.Received? && u.status == 200 && IsJsonContentType(u.contentType) && u.body.Parsed? ==>
        r == Success(u.body.value))
  {
    match Classify(respond(SearchUrl(cfg, query, page)))
    case Success(v) => Success(v)
    case Failure(e) =>
      MessagesDistinct(RequestFailed, TransportFailed);
      MessagesDistinct(RequestFailed, ParseFailed);
      MessagesDistinct(TransportFailed, ParseFailed);
      Failure(Message(e))
  }
}
