/** The URL `getImages` in index.js requests from the image-search API, and a
    reader of query strings against which its layout is stated. */
module UpstreamUrl {
  import opened Wrappers
  import opened Js
  import opened JsNumbers

  /** The image-search endpoint every request goes to. */
  const BaseUrl: string := "https://www.googleapis.com/customsearch/v1"

  /** SEARCH_CX and SEARCH_KEY as the process environment holds them; None
      when a variable is unset. */
  datatype Config = Config(searchCx: Option<string>, searchKey: Option<string>)

  /** `page = 1`: the default applies when no page is passed. */
  function EffectivePage(page: Option<int>): int {
    match page
    case Some(p) => p
    case None => 1
  }

  /** The 1-based index of the first result of a page of ten. */
  function StartOffset(page: int): (start: int)
    ensures (start - 1) % 10 == 0 && (start - 1) / 10 + 1 == page
    ensures page >= 1 <==> start >= 1
  {
    (page - 1) * 10 + 1
  }

  /** One `name=value` piece of a query string. */
  function Param(name: string, value: string): string {
    name + "=" + value
  }

  /** The five pieces of the query string, in the fixed order cx, q,
      searchType, start, key; the query text is inserted verbatim. */
  function SearchParams(cfg: Config, query: string, page: Option<int>): seq<string> {
    [ Param("cx", ToJsString(cfg.searchCx)),
      Param("q", query),
      Param("searchType", "image"),
      Param("start", IntToString(StartOffset(EffectivePage(page)))),
      Param("key", ToJsString(cfg.searchKey)) ]
  }

  /** The URL requested: the endpoint, "?" and the pieces with "&" between them. */
  function SearchUrl(cfg: Config, query: string, page: Option<int>): string {
    BaseUrl + "?" + Join(SearchParams(cfg, query, page), '&')
  }

  /** The start offset as the URL spells it, for the first and the third page. */
  lemma StartTextExamples()
    ensures SearchParams(Config(None, None), "cats", None)[3] == "start=1"
    ensures SearchParams(Config(None, None), "cats", Some(3))[3] == "start=21"
  {
    assert IntToString(StartOffset(1)) == "1";
    assert IntToString(StartOffset(3)) == "21" by {
      assert NatToDecimal(21) == NatToDecimal(2) + "1";
    }
  }

  // ---- Reading a query string back ----

  /** The pieces of `s` between occurrences of `sep`. */
  function Split(s: string, sep: char): (r: seq<string>)
    ensures |r| >= 1
  {
    if |s| == 0 then [""]
    else
      var rest := Split(s[1..], sep);
      if s[0] == sep then [""] + rest else [[s[0]] + rest[0]] + rest[1..]
  }

  /** The pieces with `sep` between them. */
  function Join(parts: seq<string>, sep: char): string {
    if |parts| == 0 then ""
    else if |parts| == 1 then parts[0]
    else parts[0] + [sep] + Join(parts[1..], sep)
  }

  /** The text before the first `c`, or all of `s` when there is none. */
  function Before(s: string, c: char): string {
    if |s| == 0 || s[0] == c then [] else [s[0]] + Before(s[1..], c)
  }

  /** The text after the first `c`, or nothing when there is none. */
  function After(s: string, c: char): string {
    if |s| == 0 then [] else if s[0] == c then s[1..] else After(s[1..], c)
  }

  /** Each `name=value` piece as a pair, split at its first "=". */
  function Pairs(parts: seq<string>): (r: seq<(string, string)>)
    ensures |r| == |parts|
  {
    if |parts| == 0 then [] else [(Before(parts[0], '='), After(parts[0], '='))] + Pairs(parts[1..])
  }

  /** The name/value pairs of a URL's query string, in order. */
  function QueryParams(url: string): seq<(string, string)> {
    Pairs(Split(After(url, '?'), '&'))
  }

  lemma {:induction false} SplitWithoutSep(a: string, sep: char)
    requires sep !in a
    ensures Split(a, sep) == [a]
  {
    if |a| > 0 {
      SplitWithoutSep(a[1..], sep);
      assert [a[0]] + a[1..] == a;
    }
  }

  lemma {:induction false} SplitAtFirstSep(a: string, b: string, sep: char)
    requires sep !in a
    ensures Split(a + [sep] + b, sep) == [a] + Split(b, sep)
  {
    if |a| == 0 {
      assert a + [sep] + b == [sep] + b;
      assert ([sep] + b)[1..] == b;
    } else {
      assert (a + [sep] + b)[1..] == a[1..] + [sep] + b;
      SplitAtFirstSep(a[1..], b, sep);
      assert [a[0]] + a[1..] == a;
    }
  }

  /** Splitting undoes joining when no piece contains the separator. */
  lemma {:induction false} SplitJoin(parts: seq<string>, sep: char)
    requires |parts| >= 1
    requires forall k :: 0 <= k < |parts| ==> sep !in parts[k]
    ensures Split(Join(parts, sep), sep) == parts
  {
    if |parts| == 1 {
      SplitWithoutSep(parts[0], sep);
    } else {
      SplitJoin(parts[1..], sep);
      SplitAtFirstSep(parts[0], Join(parts[1..], sep), sep);
      assert [parts[0]] + parts[1..] == parts;
    }
  }

  lemma {:induction false} BeforeAfterFirst(a: string, b: string, c: char)
    requires c !in a
    ensures Before(a + [c] + b, c) == a && After(a + [c] + b, c) == b
  {
    if |a| == 0 {
      assert a + [c] + b == [c] + b;
      assert ([c] + b)[1..] == b;
    } else {
      assert (a + [c] + b)[1..] == a[1..] + [c] + b;
      BeforeAfterFirst(a[1..], b, c);
      assert [a[0]] + a[1..] == a;
    }
  }

  lemma {:induction false} PairsAt(parts: seq<string>, k: nat)
    requires k < |parts|
    ensures Pairs(parts)[k] == (Before(parts[k], '='), After(parts[k], '='))
  {
    if k > 0 {
      PairsAt(parts[1..], k - 1);
    }
  }

  /** A piece whose name holds no "=" reads back as its name and value. */
  lemma ParamReadsBack(name: string, value: string)
    requires '=' !in name
    ensures Before(Param(name, value), '=') == name && After(Param(name, value), '=') == value
  {
    BeforeAfterFirst(name, value, '=');
  }

  /** With no "&" in the query text and the secrets, no piece holds one. */
  lemma PiecesFree(cfg: Config, query: string, page: Option<int>)
    requires '&' !in ToJsString(cfg.searchCx) && '&' !in query && '&' !in ToJsString(cfg.searchKey)
    ensures forall k :: 0 <= k < 5 ==> '&' !in SearchParams(cfg, query, page)[k]
  {
    StartTextFree(page);
  }

  lemma InsertedPieceFree(ps: seq<string>, b: string)
    requires |ps| >= 2 && '&' !in b
    requires forall k :: 0 <= k < |ps| ==> '&' !in ps[k]
    ensures forall k :: 0 <= k < |ps| + 1 ==> '&' !in (ps[..2] + [b] + ps[2..])[k]
  {
    var qs := ps[..2] + [b] + ps[2..];
    forall k | 0 <= k < |ps| + 1
      ensures '&' !in qs[k]
    {
      if k > 2 {
        assert qs[k] == ps[k - 1];
      }
    }
  }

  /** An "&" in a piece's value is an "&" between two pieces. */
  lemma ParamWithSep(name: string, a: string, b: string)
    ensures Param(name, a + "&" + b) == Param(name, a) + "&" + b
  {
  }

  /** The endpoint has no query string of its own. */
  lemma BaseUrlHasNoQuery()
    ensures '?' !in BaseUrl
  {
    assert forall k :: 0 <= k < |BaseUrl| ==> BaseUrl[k] != '?';
  }

  /** Read back, the endpoint followed by "?" and pieces joined by "&" gives
      the endpoint and one pair per piece. */
  lemma ReadBackJoined(parts: seq<string>)
    requires |parts| >= 1
    requires forall k :: 0 <= k < |parts| ==> '&' !in parts[k]
    ensures Before(BaseUrl + "?" + Join(parts, '&'), '?') == BaseUrl
    ensures QueryParams(BaseUrl + "?" + Join(parts, '&')) == Pairs(parts)
  {
    BaseUrlHasNoQuery();
    BeforeAfterFirst(BaseUrl, Join(parts, '&'), '?');
    SplitJoin(parts, '&');
  }

  /** The start offset's text holds no "&". */
  lemma StartTextFree(page: Option<int>)
    ensures '&' !in Param("start", IntToString(StartOffset(EffectivePage(page))))
  {
    IntToStringChars(StartOffset(EffectivePage(page)));
  }

  /** Pieces `name=value` with no "&" anywhere and no "=" in the names read
      back, after the endpoint, as their names and values. */
  lemma PiecesReadBack(ps: seq<string>, names: seq<string>, values: seq<string>)
    requires |ps| >= 1 && |names| == |ps| && |values| == |ps|
    requires forall k :: 0 <= k < |ps| ==> ps[k] == Param(names[k], values[k])
    requires forall k :: 0 <= k < |ps| ==> '=' !in names[k] && '&' !in ps[k]
    ensures Before(BaseUrl + "?" + Join(ps, '&'), '?') == BaseUrl
    ensures |QueryParams(BaseUrl + "?" + Join(ps, '&'))| == |ps|
    ensures forall k :: 0 <= k < |ps| ==> QueryParams(BaseUrl + "?" + Join(ps, '&'))[k] == (names[k], values[k])
  {
    ReadBackJoined(ps);
    forall k | 0 <= k < |ps|
      ensures Pairs(ps)[k] == (names[k], values[k])
    {
      ParamReadsBack(names[k], values[k]);
      PairsAt(ps, k);
    }
  }

  /** Read back, the URL names the search endpoint and carries exactly cx, q,
      searchType=image, start and key in that order, with the query text and the
      secrets unchanged and a start that parses to the page's offset, as long as
      none of those texts holds an "&". */
  lemma SearchUrlReadsBack(cfg: Config, query: string, page: Option<int>)
    requires '&' !in ToJsString(cfg.searchCx) && '&' !in query && '&' !in ToJsString(cfg.searchKey)
    ensures Before(SearchUrl(cfg, query, page), '?') == BaseUrl
    ensures QueryParams(SearchUrl(cfg, query, page)) ==
      [ ("cx", ToJsString(cfg.searchCx)),
        ("q", query),
        ("searchType", "image"),
        ("start", IntToString(StartOffset(EffectivePage(page)))),
        ("key", ToJsString(cfg.searchKey)) ]
  {
    var ps := SearchParams(cfg, query, page);
    var start := StartOffset(EffectivePage(page));
    var names := ["cx", "q", "searchType", "start", "key"];
    var values := [ToJsString(cfg.searchCx), query, "image", IntToString(start), ToJsString(cfg.searchKey)];
    assert forall k :: 0 <= k < 5 ==> ps[k] == Param(names[k], values[k]);
    PiecesFree(cfg, query, page);
    PiecesReadBack(ps, names, values);
  }

  /** The start value read back from the URL parses to the page's offset. */
  lemma StartReadsBack(cfg: Config, query: string, page: Option<int>)
    requires '&' !in ToJsString(cfg.searchCx) && '&' !in query && '&' !in ToJsString(cfg.searchKey)
    ensures var pairs := QueryParams(SearchUrl(cfg, query, page));
      |pairs| == 5 && pairs[3].0 == "start" && ParseInt(pairs[3].1) == Some(StartOffset(EffectivePage(page)))
  {
    SearchUrlReadsBack(cfg, query, page);
    IntToStringThenParse(StartOffset(EffectivePage(page)));
  }

  /** Joining a piece in front of at least one more puts a separator after it. */
  lemma JoinCons(x: string, rest: seq<string>, sep: char)
    requires |rest| >= 1
    ensures Join([x] + rest, sep) == x + [sep] + Join(rest, sep)
  {
    assert ([x] + rest)[1..] == rest;
  }

  lemma RegroupSeparators(x: string, y: string, tail: string)
    ensures x + "&" + (y + "&" + tail) == (x + "&" + y) + "&" + tail
  {
  }

  /** Joining is unchanged when a piece `x + "&" + y` is listed as the two
      pieces x and y. */
  lemma JoinSplitsFirst(x: string, y: string, rest: seq<string>)
    requires |rest| >= 1
    ensures Join([x + "&" + y] + rest, '&') == Join([x] + ([y] + rest), '&')
  {
    JoinCons(y, rest, '&');
    JoinCons(x, [y] + rest, '&');
    JoinCons(x + "&" + y, rest, '&');
    RegroupSeparators(x, y, Join(rest, '&'));
  }

  /** The same, for the second piece. */
  lemma JoinSplitsSecond(p0: string, x: string, y: string, rest: seq<string>)
    requires |rest| >= 1
    ensures Join([p0] + ([x + "&" + y] + rest), '&') == Join([p0] + ([x] + ([y] + rest)), '&')
  {
    JoinSplitsFirst(x, y, rest);
    JoinCons(p0, [x] + ([y] + rest), '&');
    JoinCons(p0, [x + "&" + y] + rest, '&');
  }

  /** The URL for a query text `a + "&" + b` is the URL for `a` with `b` as
      a piece of its own after q. */
  lemma SeparatorInQuery(cfg: Config, a: string, b: string, page: Option<int>)
    ensures SearchUrl(cfg, a + "&" + b, page)
      == BaseUrl + "?" + Join(SearchParams(cfg, a, page)[..2] + [b] + SearchParams(cfg, a, page)[2..], '&')
  {
    var ps := SearchParams(cfg, a + "&" + b, page);
    var ps' := SearchParams(cfg, a, page);
    var rest := ps'[2..];
    ParamWithSep("q", a, b);
    assert ps == [ps'[0]] + ([ps'[1] + "&" + b] + rest);
    assert ps'[..2] + [b] + rest == [ps'[0]] + ([ps'[1]] + ([b] + rest));
    JoinSplitsSecond(ps'[0], ps'[1], b, rest);
  }

  /** Five "&"-free pieces with a sixth inserted after the second read back
      as six pairs, the inserted piece third. */
  lemma InsertedReadsBack(ps: seq<string>, a: string, b: string)
    requires |ps| == 5 && ps[1] == Param("q", a) && '&' !in b
    requires forall k :: 0 <= k < 5 ==> '&' !in ps[k]
    ensures |QueryParams(BaseUrl + "?" + Join(ps[..2] + [b] + ps[2..], '&'))| == 6
    ensures QueryParams(BaseUrl + "?" + Join(ps[..2] + [b] + ps[2..], '&'))[1] == ("q", a)
    ensures QueryParams(BaseUrl + "?" + Join(ps[..2] + [b] + ps[2..], '&'))[2] == (Before(b, '='), After(b, '='))
  {
    var qs := ps[..2] + [b] + ps[2..];
    InsertedPieceFree(ps, b);
    ReadBackJoined(qs);
    assert |qs| == 6 && qs[1] == Param("q", a) && qs[2] == b;
    ParamReadsBack("q", a);
    PairsAt(qs, 1);
    PairsAt(qs, 2);
  }

  /** Because the query text is not encoded, an "&" in it ends the q parameter
      there: the search API receives only the text before it as q, and what
      follows becomes a parameter of its own. */
  lemma QueryTextNotEncoded(cfg: Config, a: string, b: string, page: Option<int>)
    requires '&' !in ToJsString(cfg.searchCx) && '&' !in a && '&' !in b && '&' !in ToJsString(cfg.searchKey)
    ensures |QueryParams(SearchUrl(cfg, a + "&" + b, page))| == 6
    ensures QueryParams(SearchUrl(cfg, a + "&" + b, page))[1] == ("q", a)
    ensures QueryParams(SearchUrl(cfg, a + "&" + b, page))[2] == (Before(b, '='), After(b, '='))
  {
    var ps := SearchParams(cfg, a, page);
    SeparatorInQuery(cfg, a, b, page);
    PiecesFree(cfg, a, page);
    InsertedReadsBack(ps, a, b);
  }
}
