/** The `/api/:query` route of index.js and `getPageFromRequest`: which page
    the request asks for, and the reply built from the search outcome. */
module QueryRouter {
  import opened Wrappers
  import opened Js
  import opened JsNumbers
  import opened UpstreamUrl
  import opened SearchClient
  import opened ResultProjector

  /** getPageFromRequest: the `offset` query parameter (None when absent) read
      with parseInt; a value that is not positive, or NaN, gives page 1. Every
      page other than 1 is the number the offset names. */
  function PageFromRequest(offset: Option<string>): (page: int)
    ensures page >= 1
    ensures page == 1 || ParseInt(ToJsString(offset)) == Some(page)
    ensures var n := ParseInt(ToJsString(offset)); n.Some? && n.value > 0 ==> page == n.value
  {
    match ParseInt(ToJsString(offset))
    case Some(n) => if n > 0 then n else 1
    case None => 1
  }

  /** A positive number is the page it names, whatever non-digit text follows
      it and whatever white space precedes it. */
  lemma PositiveOffsetIsPage(ws: string, n: nat, rest: string)
    requires forall k :: 0 <= k < |ws| ==> IsStrWhiteSpace(ws[k])
    requires n >= 1 && EndsNumber(n, rest)
    ensures PageFromRequest(Some(ws + NatToDecimal(n) + rest)) == n
  {
    assert ws + NatToDecimal(n) + rest == ws + (NatToDecimal(n) + rest);
    LeadingWhiteSpaceIgnored(ws, NatToDecimal(n) + rest);
    NatToDecimalThenParse(n, rest);
  }

  /** Negative numbers and zero give page 1. */
  lemma NonPositiveOffsetIsPageOne(n: nat, rest: string, zeroRest: string)
    requires EndsNumber(n, rest) && EndsNumber(0, zeroRest)
    ensures PageFromRequest(Some("-" + (NatToDecimal(n) + rest))) == 1
    ensures PageFromRequest(Some(NatToDecimal(0) + zeroRest)) == 1
  {
    NegatedDecimalThenParse(n, rest);
    NatToDecimalThenParse(0, zeroRest);
  }

  /** An absent offset, and one that does not start with white space, a sign
      or a digit, give page 1. */
  lemma NonNumericOffsetIsPageOne(s: string)
    requires s == [] || !(IsStrWhiteSpace(s[0]) || s[0] == '-' || s[0] == '+' || IsDecimalDigit(s[0]))
    ensures PageFromRequest(Some(s)) == 1
    ensures PageFromRequest(None) == 1
  {
    NonNumericIsNaN(s);
    NonNumericIsNaN("undefined");
  }

  /** The body the route sends: the JSON of the projection, or the rejection
      message as plain text. */
  datatype ReplyBody = JsonBody(value: Projection) | TextBody(text: string)

  datatype Reply = Reply(status: int, body: ReplyBody)

  /** `GET /api/:query`: resolve the page, fetch, and reply 200 with the
      projection or 500 with the rejection message. A payload that does not
      project still gets 200, carrying the error object. */
  method HandleSearch(cfg: Config, query: string, offset: Option<string>, respond: string -> Upstream)
    returns (reply: Reply)
    ensures var u := Classify(respond(SearchUrl(cfg, query, Some(PageFromRequest(offset)))));
      (reply.status == 200 || reply.status == 500)
      && (reply.status == 500 <==> u.Failure?)
      && (reply.status == 500 ==> reply.body == TextBody(Message(u.error)))
      && (reply.status == 200 ==> reply.body == JsonBody(Projected(u.value)))
  {
    var page := PageFromRequest(offset);
    match GetImages(cfg, query, Some(page), respond)
    case Success(json) =>
      var projection := ProjectSearchResult(json);
      reply := Reply(200, JsonBody(projection));
    case Failure(err) =>
      reply := Reply(500, TextBody(err));
  }
}
