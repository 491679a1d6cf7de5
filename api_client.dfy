/** The frontend's API client (frontend/lib/api.ts): the list-URL builders, which interpolate
    their arguments without escaping, and the request interceptor that attaches the stored token.
    The axios calls themselves are not modelled. */
module ApiClient {
  import opened Common
  import opened UrlEncoding

  const DefaultSkip: nat := 0
  const DefaultLimit: nat := 100

  /** The paging pairs every list builder starts with; JS prints the numbers in decimal. */
  function PagePairs(skip: nat, limit: nat): seq<(string, string)> {
    [("skip", NatToString(skip)), ("limit", NatToString(limit))]
  }

  /** The paging pairs, then `key=value` when `value` is truthy. */
  function ListPairs(skip: nat, limit: nat, key: string, value: Option<string>): (ps: seq<(string, string)>)
    ensures |ps| == if Truthy(value) then 3 else 2
    ensures ps[..2] == PagePairs(skip, limit)
    ensures Truthy(value) ==> ps[2] == (key, value.value)
  {
    PagePairs(skip, limit) + (if Truthy(value) then [(key, value.value)] else [])
  }

  /** `url = path + "?skip=S&limit=L"`, then `url += "&key=value"` when `value` is truthy. */
  method ListUrl(path: string, skip: nat, limit: nat, key: string, value: Option<string>) returns (url: string)
    ensures url == path + "?" + QueryOf(ListPairs(skip, limit, key, value))
  {
    url := path + "?skip=" + NatToString(skip) + "&limit=" + NatToString(limit);
    ghost var page := PagePairs(skip, limit);
    PageQuery(skip, limit);
    assert url == path + "?" + QueryOf(page);
    if Truthy(value) {
      url := url + "&" + key + "=" + value.value;
      QueryOfAppend(page, (key, value.value));
    } else {
      assert ListPairs(skip, limit, key, value) == page;
    }
  }

  lemma PageQuery(skip: nat, limit: nat)
    ensures QueryOf(PagePairs(skip, limit)) == "skip=" + NatToString(skip) + "&limit=" + NatToString(limit)
  {
    var ps := PagePairs(skip, limit);
    QueryOfAppend(ps[..1], ps[1]);
    assert ps[..1] + [ps[1]] == ps;
    assert QueryOf(ps[..1]) == Item(ps[0]);
  }

  /** `getMedia`: the media list URL, with `media_type` exactly when a type is given. */
  method GetMediaUrl(skip: nat, limit: nat, mediaType: Option<string>) returns (url: string)
    ensures url == "/media/?" + QueryOf(ListPairs(skip, limit, "media_type", mediaType))
  {
    url := ListUrl("/media/", skip, limit, "media_type", mediaType);
  }

  /** `getDonations`: the donation list URL, with `campaign_id` exactly when an id is given. */
  method GetDonationsUrl(skip: nat, limit: nat, campaignId: Option<string>) returns (url: string)
    ensures url == "/donate/?" + QueryOf(ListPairs(skip, limit, "campaign_id", campaignId))
  {
    url := ListUrl("/donate/", skip, limit, "campaign_id", campaignId);
  }

  /** `getContactMessages`: the message list URL. */
  function ContactMessagesUrl(skip: nat, limit: nat): (url: string)
    ensures url == "/contact/?" + QueryOf(PagePairs(skip, limit))
  {
    PageQuery(skip, limit);
    "/contact/?skip=" + NatToString(skip) + "&limit=" + NatToString(limit)
  }

  /** A list URL reads back as its paging values and, exactly when the filter is truthy, the
      filter: the query splits into two or three `key=value` items with those parts. */
  lemma ListUrlReadsBack(skip: nat, limit: nat, key: string, value: Option<string>)
    requires NoDelimiters(key) && (value.Some? ==> NoDelimiters(value.value))
    ensures var items := Split(QueryOf(ListPairs(skip, limit, key, value)), '&');
      && (|items| == 3 <==> Truthy(value)) && |items| >= 2
      && Split(items[0], '=') == ["skip", NatToString(skip)]
      && Split(items[1], '=') == ["limit", NatToString(limit)]
      && (Truthy(value) ==> Split(items[2], '=') == [key, value.value])
  {
    var ps := ListPairs(skip, limit, key, value);
    DigitsPlain(NatToString(skip));
    DigitsPlain(NatToString(limit));
    PagingKeysPlain();
    QueryOfSplits(ps);
  }

  lemma PagingKeysPlain()
    ensures NoDelimiters("skip") && NoDelimiters("limit")
  {
  }

  lemma DigitsPlain(s: string)
    requires forall i :: 0 <= i < |s| ==> IsDigit(s[i])
    ensures NoDelimiters(s)
  {
  }

  /** Without arguments the list builders ask for the first hundred rows. */
  lemma DefaultPaging()
    ensures PagePairs(DefaultSkip, DefaultLimit) == [("skip", "0"), ("limit", "100")]
  {
    assert NatToString(0) == "0";
    assert NatToString(1) == "1";
    assert NatToString(10) == NatToString(1) + [DigitChar(0)] == "10";
    assert NatToString(100) == NatToString(10) + [DigitChar(0)] == "100";
  }

  /** `getSiteContent`: "?section=X" exactly when a section is given. */
  function SiteContentUrl(section: Option<string>): (url: string)
    ensures Truthy(section) ==> url == "/site-content/?" + Item(("section", section.value))
    ensures !Truthy(section) ==> url == "/site-content/"
  {
    if Truthy(section) then "/site-content/?section=" + section.value else "/site-content/"
  }

  /** `uploadMedia`: not implemented; every call throws. */
  function UploadMedia(): (r: Outcome<()>)
    ensures r.Raise?
  {
    Raise(OtherException)
  }

  // ---------------------------------------------------------------- the interceptor

  /** The headers of an outgoing request. */
  class RequestConfig {
    var headers: map<string, string>

    constructor (headers: map<string, string>)
      ensures this.headers == headers
    {
      this.headers := headers;
    }
  }

  /** The headers after the interceptor: "Authorization: Bearer <token>" when running in a
      browser with a truthy stored token, the headers as they were otherwise. */
  function WithToken(headers: map<string, string>, inBrowser: bool, token: Option<string>): (h: map<string, string>)
    ensures inBrowser && Truthy(token) ==> "Authorization" in h && h["Authorization"] == "Bearer " + token.value
    ensures !(inBrowser && Truthy(token)) ==> h == headers
    ensures forall k :: k in headers && k != "Authorization" ==> k in h && h[k] == headers[k]
    ensures forall k :: k in h && k != "Authorization" ==> k in headers
  {
    if inBrowser && Truthy(token) then headers["Authorization" := "Bearer " + token.value] else headers
  }

  /** The request interceptor. `inBrowser` is `typeof window !== 'undefined'` and `token` what
      `localStorage` holds under "token". */
  method Intercept(config: RequestConfig, inBrowser: bool, token: Option<string>) returns (r: RequestConfig)
    modifies config
    ensures r == config
    ensures config.headers == WithToken(old(config.headers), inBrowser, token)
  {
    if inBrowser && Truthy(token) {
      config.headers := config.headers["Authorization" := "Bearer " + token.value];
    }
    r := config;
  }

  /** The token can be read back from the header it sets, and running the interceptor twice is
      running it once. */
  lemma WithTokenIdempotent(headers: map<string, string>, inBrowser: bool, token: Option<string>)
    ensures WithToken(WithToken(headers, inBrowser, token), inBrowser, token) == WithToken(headers, inBrowser, token)
    ensures inBrowser && Truthy(token) ==>
      WithToken(headers, inBrowser, token)["Authorization"][|"Bearer "|..] == token.value
  {
  }
}
