/** get_streetcheck_data: the request URL for a page kind, postcode and
    optional date, and the page text it yields. The HTTP request itself is
    the parameter `web`: for each URL, the text BeautifulSoup extracted from
    the page, or None when the request raised. */
module Streetcheck {
  import opened Wrappers
  import opened Text
  import PlainText
  import Postcode

  /** The data_type values the function accepts. */
  datatype PageKind = Profile | HousePrices | Crime

  /** The data_type string naming each page kind. */
  function DataTypeName(k: PageKind): string
  {
    match k
    case Profile => "postcode"
    case HousePrices => "houseprices"
    case Crime => "crime"
  }

  /** The page kind a data_type string selects, if any. */
  function KindOf(dataType: string): (k: Option<PageKind>)
    ensures k.Some? ==> DataTypeName(k.value) == dataType
    ensures k.None? <==> dataType != "postcode" && dataType != "houseprices" && dataType != "crime"
  {
    if dataType == "houseprices" then Some(HousePrices)
    else if dataType == "postcode" then Some(Profile)
    else if dataType == "crime" then Some(Crime)
    else None
  }

  /** Every page kind is selected by its own name. */
  lemma KindOfName(k: PageKind)
    ensures KindOf(DataTypeName(k)) == Some(k)
  {
  }

  const BaseUrl: string := "https://www.streetcheck.co.uk/"

  /** The path segment each page kind adds to the base URL. */
  function Segment(k: PageKind): string
  {
    match k
    case Profile => "postcode/"
    case HousePrices => "houseprices/"
    case Crime => "crime/"
  }

  /** The URL requested: base, segment, the cleaned postcode, and
      "/" + date only when the date is neither None nor "". */
  function RequestUrl(postcode: string, k: PageKind, date: Option<string>): string
  {
    UrlFor(k, Postcode.Normalise(postcode), date)
  }

  /** The URL for an already cleaned postcode. */
  function UrlFor(k: PageKind, p: string, date: Option<string>): string
  {
    BaseUrl + Segment(k) + p + DateSuffix(date)
  }

  function DateSuffix(date: Option<string>): string
  {
    if Truthy(date) then "/" + date.value else ""
  }

  /** The parts of a request URL. */
  datatype UrlParts = UrlParts(kind: PageKind, postcode: string, date: Option<string>)

  /** Index of the first '/', or |s| when there is none. */
  function FirstSlash(s: string): (i: nat)
    ensures i <= |s| && (i < |s| ==> s[i] == '/')
    ensures forall j :: 0 <= j < i ==> s[j] != '/'
  {
    if s == [] || s[0] == '/' then 0 else 1 + FirstSlash(s[1..])
  }

  function SplitTail(k: PageKind, tail: string): UrlParts
  {
    var i := FirstSlash(tail);
    if i == |tail| then UrlParts(k, tail, None) else UrlParts(k, tail[..i], Some(tail[i + 1..]))
  }

  /** Reads a request URL back into its parts. */
  function ParseUrl(url: string): Option<UrlParts>
  {
    if |url| < |BaseUrl| || url[..|BaseUrl|] != BaseUrl then None
    else
      var rest := url[|BaseUrl|..];
      if |Segment(Profile)| <= |rest| && rest[..|Segment(Profile)|] == Segment(Profile) then
        Some(SplitTail(Profile, rest[|Segment(Profile)|..]))
      else if |Segment(HousePrices)| <= |rest| && rest[..|Segment(HousePrices)|] == Segment(HousePrices) then
        Some(SplitTail(HousePrices, rest[|Segment(HousePrices)|..]))
      else if |Segment(Crime)| <= |rest| && rest[..|Segment(Crime)|] == Segment(Crime) then
        Some(SplitTail(Crime, rest[|Segment(Crime)|..]))
      else None
  }

  lemma SegmentPicked(k: PageKind, tail: string)
    ensures var rest := Segment(k) + tail;
      ParseUrl(BaseUrl + rest) == Some(SplitTail(k, tail))
  {
    var rest := Segment(k) + tail;
    var url := BaseUrl + rest;
    assert url[..|BaseUrl|] == BaseUrl;
    assert url[|BaseUrl|..] == rest;
    assert rest[..|Segment(k)|] == Segment(k);
    assert rest[|Segment(k)|..] == tail;
    match k
    case Profile =>
    case HousePrices =>
      assert rest[0] != Segment(Profile)[0];
    case Crime =>
      assert rest[0] != Segment(Profile)[0];
      assert rest[0] != Segment(HousePrices)[0];
  }

  /** The first '/' is found wherever it is. */
  lemma {:induction false} FirstSlashIs(s: string, i: nat)
    requires i <= |s| && (i < |s| ==> s[i] == '/')
    requires forall j :: 0 <= j < i ==> s[j] != '/'
    ensures FirstSlash(s) == i
  {
    if i > 0 {
      FirstSlashIs(s[1..], i - 1);
    }
  }

  lemma TailSplits(k: PageKind, p: string, date: Option<string>)
    requires '/' !in p
    ensures SplitTail(k, p + DateSuffix(date)) == UrlParts(k, p, if Truthy(date) then date else None)
  {
    if Truthy(date) {
      assert p + DateSuffix(date) == p + "/" + date.value;
      TailSplitsAtDate(p, date.value);
    } else {
      assert p + DateSuffix(date) == p;
      FirstSlashIs(p, |p|);
    }
  }

  lemma TailSplitsAtDate(p: string, d: string)
    requires '/' !in p
    ensures var tail := p + "/" + d;
      FirstSlash(tail) == |p| && tail[..|p|] == p && tail[|p| + 1..] == d
  {
    var tail := p + "/" + d;
    assert forall j :: 0 <= j < |p| ==> tail[j] == p[j];
    FirstSlashIs(tail, |p|);
    assert tail[..|p|] == p;
    assert tail[|p| + 1..] == d;
  }

  /** The URL carries kind, cleaned postcode and date recoverably, as long
      as the cleaned postcode holds no '/'; a date of "" is not sent. */
  lemma UrlRoundTrip(postcode: string, k: PageKind, date: Option<string>)
    requires '/' !in Postcode.Normalise(postcode)
    ensures ParseUrl(RequestUrl(postcode, k, date)) ==
      Some(UrlParts(k, Postcode.Normalise(postcode), if Truthy(date) then date else None))
  {
    UrlForRoundTrip(k, Postcode.Normalise(postcode), date);
  }

  /** Why the round trip needs a postcode without '/': the postcode goes
      into the URL unescaped, so a '/' in it reads as the date separator and
      two different requests share one URL. */
  lemma SlashPostcodeCollides(k: PageKind, p: string, d: string)
    requires d != ""
    ensures p + "/" + d != p
    ensures UrlFor(k, p + "/" + d, None) == UrlFor(k, p, Some(d))
  {
    assert |p + "/" + d| > |p|;
    assert BaseUrl + Segment(k) + (p + "/" + d) == BaseUrl + Segment(k) + p + ("/" + d);
  }

  lemma UrlForRoundTrip(k: PageKind, p: string, date: Option<string>)
    requires '/' !in p
    ensures ParseUrl(UrlFor(k, p, date)) == Some(UrlParts(k, p, if Truthy(date) then date else None))
  {
    var tail := p + DateSuffix(date);
    Regroup(BaseUrl, Segment(k), p, DateSuffix(date));
    SegmentPicked(k, tail);
    TailSplits(k, p, date);
  }

  lemma Regroup(a: string, b: string, c: string, d: string)
    ensures a + b + c + d == a + (b + (c + d))
  {
  }

  /** The page text for a valid kind: the request's text collapsed by
      html_to_plain_text, or None when the request failed. */
  function FetchPage(postcode: string, k: PageKind, date: Option<string>, web: string -> Option<string>): (r: Option<string>)
    ensures r.Some? ==> PlainText.Collapsed(r.value)
    ensures r.None? <==> web(RequestUrl(postcode, k, date)).None?
    ensures r.Some? ==> r.value == PlainText.Collapse(web(RequestUrl(postcode, k, date)).value)
  {
    match web(RequestUrl(postcode, k, date))
    case None => None
    case Some(text) => Some(PlainText.Collapse(text))
  }

  /** The exception get_streetcheck_data raises for an unknown data_type. */
  datatype Result<T> = Ok(value: T) | ValueError(message: string)

  const DataTypeMessage: string := "data_type must be either 'postcode', 'houseprices', or 'crime'"

  /** get_streetcheck_data(postcode, data_type, data_date). */
  function GetStreetcheckData(postcode: string, dataType: string, dataDate: Option<string>,
                              web: string -> Option<string>): (r: Result<Option<string>>)
    ensures r.ValueError? <==> KindOf(dataType).None?
    ensures r.ValueError? ==> r.message == DataTypeMessage
    ensures r.Ok? ==> r.value == FetchPage(postcode, KindOf(dataType).value, dataDate, web)
  {
    match KindOf(dataType)
    case None => ValueError(DataTypeMessage)
    case Some(k) => Ok(FetchPage(postcode, k, dataDate, web))
  }

  /** An unknown data_type fails before any request: the result is the same
      whatever the web would have answered. */
  lemma UnknownTypeMakesNoRequest(postcode: string, dataType: string, dataDate: Option<string>,
                                  web1: string -> Option<string>, web2: string -> Option<string>)
    requires KindOf(dataType).None?
    ensures GetStreetcheckData(postcode, dataType, dataDate, web1) == GetStreetcheckData(postcode, dataType, dataDate, web2)
    ensures GetStreetcheckData(postcode, dataType, dataDate, web1) == ValueError(DataTypeMessage)
  {
  }

  /** The crime page is fetched whether or not a date is given. */
  lemma CrimeWithoutDate(postcode: string, web: string -> Option<string>)
    ensures GetStreetcheckData(postcode, "crime", None, web) == Ok(FetchPage(postcode, Crime, None, web))
    ensures RequestUrl(postcode, Crime, None) == BaseUrl + "crime/" + Postcode.Normalise(postcode)
  {
  }
}
