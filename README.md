# fcc-image-search: the request/response translation layer

The repository is an Express service (`index.js`) that forwards an image search to a
custom-search API and reshapes the answer. This project models the part of it that
translates between the client and that API:

- **Page resolution** (`getPageFromRequest`): the `offset` query parameter is read with
  `parseInt`; NaN and values that are not positive become page 1.
- **The upstream URL** (`getImages`): the endpoint followed by `cx`, `q`, `searchType=image`,
  `start` and `key`, in that order, with `start = (page - 1) * 10 + 1` and the query text
  inserted without encoding. `page` defaults to 1.
- **Response classification** (`getImages`): a status other than 200, or a content-type that
  does not start with `application/json`, rejects with the "[1]" message; a transport error
  rejects with the "[2]" message; a body that `JSON.parse` refuses rejects with the parse
  message; anything else resolves with the parsed value.
- **Result projection** (`projectSearchResult`): each item becomes `{link, alt: title,
  foundOn: displayLink}`, in order; when the payload has no `items` array, or an item cannot
  be destructured, the result is the single object `{error: ...}`.
- **The search route** (`GET /api/:query`): page, then fetch, then reply 200 with the
  projection or 500 with the rejection message.

Modules, one per concern of `index.js`:

| file | module | contents |
|---|---|---|
| wrappers.dfy | Wrappers | `Option`, `Result` |
| js.dfy | Js | the values `JSON.parse` produces, property reads, `${}` of an optional string |
| js_numbers.dfy | JsNumbers | `parseInt` with one argument, and the decimal text of an integer |
| upstream_url.dfy | UpstreamUrl | the start offset and the URL, and a query-string reader to state its layout |
| search_client.dfy | SearchClient | the upstream outcome, its classification, `getImages` |
| result_projector.dfy | ResultProjector | the projection, as a loop method proved against a recursive function |
| query_router.dfy | QueryRouter | `getPageFromRequest` and the `/api/:query` handler |

The network is a parameter. `https.get` becomes a function `respond` from the URL to an upstream
outcome: a transport error, or a status, an optional content-type and what `JSON.parse` made of
the body. The environment variables `SEARCH_CX` and `SEARCH_KEY` are a `Config` of optional
strings. An unset variable renders as the text `undefined`, as a template literal does.

Two notes on the source text:

- The two "parse" messages differ. A body that does not parse rejects with "An error occurred
  parsing the return JSON string" (index.js:55). The projection's error object says "An error
  occurred while parsing the return JSON string" (index.js:92). The model keeps both as written.
- A projection that fails still goes out with status 200. `res.json` sends the error object as
  the body (index.js:15), so only upstream rejections produce a 500.

## Model

| member | source | states |
|---|---|---|
| `QueryRouter.PageFromRequest` | index.js:65-73 | the resolved page is always at least 1; an offset that parseInt reads as a positive integer (in any form it accepts, such as "+5", "007" or "0x10") gives that integer unchanged; any page other than 1 is exactly the integer parseInt reads from the offset |
| `QueryRouter.PositiveOffsetIsPage` | index.js:67-68 | an offset holding a positive integer in shortest decimal form (after any leading white space, before any non-digit text) resolves to that integer unchanged; other spellings ("+5", "007", "0x10") are covered by the contract of `PageFromRequest` |
| `QueryRouter.NonPositiveOffsetIsPageOne` | index.js:67-68 | a negative offset and zero, each in shortest decimal form, resolve to page 1; other spellings ("-007", "00", " -5") are covered by the contract of `PageFromRequest` |
| `QueryRouter.NonNumericOffsetIsPageOne` | index.js:65-73 | an absent offset (parseInt of "undefined") and one that does not begin with white space, a sign or a digit resolve to page 1 |
| `QueryRouter.HandleSearch` | index.js:10-18 | the route requests the URL for the resolved page; it replies 500 exactly when getImages rejects, with the rejection message as the body, and otherwise 200 with the projection of the parsed payload (an error object included) |
| `JsNumbers.NatToDecimalThenParse` | index.js:67 | parseInt reads a natural number back from its decimal text followed by any text that does not continue it |
| `JsNumbers.NegatedDecimalThenParse` | index.js:67 | a leading minus negates what parseInt reads |
| `JsNumbers.LeadingWhiteSpaceIgnored` | index.js:67 | white space before the number does not change what parseInt reads |
| `JsNumbers.NonNumericIsNaN` | index.js:67 | a text that does not begin with white space, a sign or a digit is NaN |
| `JsNumbers.IntToStringThenParse` | index.js:25 | the decimal text a template literal makes of an integer parses back to that integer (round trip) |
| `UpstreamUrl.StartOffset` | index.js:25 | start is 1 more than a multiple of 10, the page is recovered from it as (start - 1) / 10 + 1, and start is at least 1 exactly when the page is |
| `UpstreamUrl.StartTextExamples` | index.js:20-25 | with no page given (default 1) the URL carries start=1; page 3 carries start=21 |
| `UpstreamUrl.SearchUrlReadsBack` | index.js:21-26 | read back, the URL is the search endpoint with exactly the parameters cx, q, searchType=image, start, key in that order, carrying the secrets and the query text unchanged in the URL text (nothing is percent-decoded), whenever those texts hold no "&" |
| `UpstreamUrl.StartReadsBack` | index.js:20-25 | under the same condition, the fourth parameter read back is start and its value parses to (page - 1) * 10 + 1 |
| `UpstreamUrl.QueryTextNotEncoded` | index.js:23 | since the query text is inserted verbatim, an "&" in the query text splits it in the URL text: a query "a&b" reads back as q=a plus an extra parameter b, six parameters in all |
| `UpstreamUrl.SplitJoin` | index.js:21-26 | splitting the query string at "&" recovers the pieces joined there when none of them holds an "&" |
| `UpstreamUrl.EffectivePage` | index.js:20 | the page getImages uses: the one passed, and 1 when none is |
| `UpstreamUrl.SearchParams` | index.js:22-26 | the five `name=value` pieces cx, q, searchType=image, start and key, in that order, with the query text and the secrets inserted verbatim |
| `UpstreamUrl.SearchUrl` | index.js:21-26 | the endpoint, "?" and the five pieces joined by "&"; read back by `SearchUrlReadsBack` |
| `JsNumbers.ParseInt` | index.js:67 | parseInt with one argument: leading white space skipped, an optional sign, "0x"/"0X" switching to base 16, the longest run of digits, NaN (None) when there is none; its properties are the lemmas on the rows around it |
| `JsNumbers.IntToString` | index.js:25 | the text a template literal makes of an integer is never empty and starts with "-" exactly when the integer is negative; parsed back by `IntToStringThenParse` |
| `SearchClient.IsJsonContentType` | index.js:37 | the case-sensitive prefix test of the content-type against "application/json"; a missing header never matches |
| `SearchClient.Message` | index.js:44-60 | the three rejection strings as written at index.js:44, 55 and 60; shown pairwise different by `MessagesDistinct` |
| `ResultProjector.ProjectItem` | index.js:80-86 | one item destructured into `{link, alt: title, foundOn: displayLink}`; a null item throws (None) |
| `ResultProjector.ProjectAll` | index.js:79-87 | the items projected in order, None when one throws; characterised by `ProjectAllSpec` and `ProjectAllAppend` |
| `ResultProjector.Projected` | index.js:75-94 | the value projectSearchResult returns: the array of projected items, or the error object when `items` cannot be iterated or an item throws; characterised by `ProjectedSpec` |
| `SearchClient.Classify` | index.js:33-56 | a transport error is TransportFailed; a received response is RequestFailed exactly when its status is not 200 or its content-type does not match, whatever the body; ParseFailed exactly when both checks pass and the body does not parse; and success carries the parsed body of a 200 JSON response |
| `SearchClient.GetImages` | index.js:20-62 | the promise for the URL of the query and page rejects with the "[1]" message exactly on a bad status or content-type, with the "[2]" message exactly on a transport error, and with the parse message exactly on an unparsable body of a valid response; a 200 response with a JSON content-type and a body that parses resolves with that parsed payload, and a resolution comes from no other response |
| `SearchClient.MessagesDistinct` | index.js:44-60 | the three rejection messages differ pairwise, so a client can tell request, transport and parse failures apart |
| `SearchClient.JsonContentTypeExamples` | index.js:37 | a missing content-type, a different one or a differently cased one does not match; any text starting with "application/json" does |
| `ResultProjector.ItemsOf` | index.js:79 | forEach over `json.items` runs exactly when the payload is an object whose `items` is an array, over that array's elements |
| `ResultProjector.ProjectSearchResult` | index.js:75-94 | the loop that pushes one record per item returns the value of the projection function for every payload |
| `ResultProjector.ProjectAllSpec` | index.js:79-87 | projecting the items succeeds exactly when no item is null, and then gives one record per item, in order |
| `ResultProjector.ProjectAllAppend` | index.js:79-87 | projecting two runs of items one after the other is projecting each and concatenating |
| `ResultProjector.ProjectedSpec` | index.js:77-93 | the array comes back exactly when the payload has an items array free of null; it has N records for N items, in order, with link from link, alt from title and foundOn from displayLink; otherwise the result is the error object with its fixed message |
| `ResultProjector.MissingItemsFailsSoft` | index.js:79-93 | a payload with no items array (null, a non-object, no items, or a non-array items) projects to the single error object instead of raising |
| `ResultProjector.ProjectedExample` | index.js:77-89 | {items:[{link:"a",title:"b",displayLink:"c"}]} projects to [{link:"a",alt:"b",foundOn:"c"}] |

## Left out

- The Express application, routing setup, `app.listen` and the port (index.js:1-5, 7-8, 96-98): framework plumbing. Only the `/api/:query` handler is modelled, as `HandleSearch`.
- The MongoDB import (index.js:2): it is never used in index.js. There is no query log and no `/latest` route in this file to model.
- `https.get`, the chunked reading of the body, `res.resume()` and console logging (index.js:29-61): network I/O. The response is an input to the model, and a transport error is one kind of response. A transport error that arrives after a response is not modelled.
- How `https.get` parses the URL it is given, and how the API decodes it: the model reads the query string back as raw text and never percent-decodes. Since the query text is inserted without encoding (index.js:23), a "+" (read as a space), a "%" followed by two hex digits (read as the byte it encodes), a "#" (which starts a fragment) or a space in it reaches the API changed; of these, only the raw text is modelled. For example, Express decodes `/api/c%2B%2B` to "c++", and a query-string decoder reads `q=c++` as "c" followed by two spaces.
- `JSON.parse`: its outcome is an input. JSON numbers are exact reals, not doubles.
- Property reads give an object's own fields only. Prototype properties are left out. The one that matters here is `String.prototype.link` (Annex B of ECMAScript): for an item that is a string, `const {link, ...} = i` (index.js:80) binds that function, where `ProjectItem` gives None. The reply is the same either way, because `JSON.stringify` drops a function-valued field just as it drops an undefined one. `items`, `title` and `displayLink` are not prototype properties of any value `JSON.parse` yields.
- `PageFromRequest`: does not model the Number type. Integers are unbounded, so the rounding of numbers above 2^53 and the Infinity `parseInt` gives for very long digit strings are not captured. `start` is exact for the same reason.
- `PageFromRequest`: the offset is absent or a string. A repeated `offset` parameter, which Express delivers as an array that parseInt reads through its string form, is not modelled.
- `PageFromRequest`: the catch branch (index.js:70-72) is not modelled. `parseInt` of an absent or string offset does not throw.
- Strings are sequences of Unicode scalar values, not UTF-16 code units. That is the same for every character that `parseInt`'s white-space and digit tests look at.
- `GetImages`, `HandleSearch`: a request that never gets an answer is not modelled. index.js sets no timeout, so when neither 'response' nor 'error' fires, or a response body's 'end' never fires (index.js:29-61), the promise stays pending and the route never replies. `respond` always yields a transport error or a complete response, so the modelled route always replies with 200 or 500.
- `GetImages`: the page is an integer. The route always passes one, and index.js has no other caller.
