/** main: choose the postcode, refuse to overwrite an existing report,
    gather the profile, house-price and crime text into one corpus, ask for a
    summary of it, and write the summary under a heading. */
module Report {
  import opened Wrappers
  import Postcode
  import Streetcheck
  import CrimeData
  import Summary

  /** The corpus main sends for summarising: the profile text and a blank
      line, then the house-price text, then the crime text. Each page is
      left out when its fetch failed or gave "". */
  function Corpus(profile: Option<string>, prices: Option<string>, crime: string): string
  {
    (if Truthy(profile) then profile.value + "\n\n" else "") +
    (if Truthy(prices) then prices.value else "") +
    crime
  }

  /** The corpus is empty exactly when nothing was found. */
  lemma CorpusEmpty(profile: Option<string>, prices: Option<string>, crime: string)
    ensures Corpus(profile, prices, crime) == "" <==> !Truthy(profile) && !Truthy(prices) && crime == ""
  {
    if Truthy(profile) {
      assert |Corpus(profile, prices, crime)| >= 2;
    }
  }

  /** The corpus ends with the crime text, and starts with the profile text
      followed by a blank line when there is a profile. */
  lemma CorpusLayout(profile: Option<string>, prices: Option<string>, crime: string)
    ensures var c := Corpus(profile, prices, crime);
      |crime| <= |c| && c[|c| - |crime|..] == crime
    ensures var c := Corpus(profile, prices, crime);
      Truthy(profile) ==> |profile.value| + 2 <= |c| && c[..|profile.value| + 2] == profile.value + "\n\n"
  {
    var head := if Truthy(profile) then profile.value + "\n\n" else "";
    var mid := if Truthy(prices) then prices.value else "";
    var c := Corpus(profile, prices, crime);
    assert c == head + (mid + crime);
    assert c[|c| - |crime|..] == crime;
    assert c[..|head|] == head;
  }

  /** No separator follows the house-price text: without a profile the
      corpus is the prices immediately followed by the crime text. */
  lemma PricesRunIntoCrime(prices: string, crime: string)
    requires prices != ""
    ensures Corpus(None, Some(prices), crime) == prices + crime
    ensures Corpus(Some(""), Some(prices), crime) == prices + crime
  {
  }

  /** What one run of main ends with. */
  datatype Outcome =
    | AlreadyExists(filename: string)
    | Written(filename: string, corpus: string, request: Summary.ConverseRequest,
              usage: Summary.Usage, body: string)

  /** The postcode main settles on, decided as main does it. */
  method PostcodeFromArgument(arg: Option<string>) returns (postcode: string)
    ensures postcode == Postcode.ChoosePostcode(arg)
  {
    if arg.Some? {
      postcode := Postcode.Normalise(arg.value);
      if postcode == "" {
        postcode := Postcode.DefaultPostcode;
      }
    } else {
      postcode := Postcode.DefaultPostcode;
    }
  }

  /** The three fetches and the `+=` steps that build the corpus. */
  method GatherCorpus(postcode: string, now: CrimeData.YearMonth, web: string -> Option<string>)
    returns (results: string)
    requires CrimeData.ValidNow(now)
    ensures results == Corpus(Streetcheck.FetchPage(postcode, Streetcheck.Profile, None, web),
                              Streetcheck.FetchPage(postcode, Streetcheck.HousePrices, None, web),
                              CrimeData.CrimeText(postcode, now, web))
  {
    Streetcheck.KindOfName(Streetcheck.Profile);
    Streetcheck.KindOfName(Streetcheck.HousePrices);
    var postcodeResult := Streetcheck.GetStreetcheckData(postcode, "postcode", None, web);
    var pricesResult := Streetcheck.GetStreetcheckData(postcode, "houseprices", None, web);
    results := AppendPages(postcodeResult.value, pricesResult.value);
    var crimeText := CrimeData.ThreeMonthsData(postcode, now, web);
    results := results + crimeText;
    CorpusAppendCrime(postcodeResult.value, pricesResult.value, crimeText);
  }

  /** The `+=` steps for the profile and house-price pages: each is added
      only when it is truthy, the profile followed by a blank line. */
  method AppendPages(postcodeHtml: Option<string>, pricesHtml: Option<string>) returns (results: string)
    ensures results == Corpus(postcodeHtml, pricesHtml, "")
  {
    results := "";
    if postcodeHtml.Some? && postcodeHtml.value != "" {
      results := results + postcodeHtml.value + "\n\n";
    }
    if pricesHtml.Some? && pricesHtml.value != "" {
      results := results + pricesHtml.value;
    }
  }

  /** The crime text is added last. */
  lemma CorpusAppendCrime(profile: Option<string>, prices: Option<string>, crime: string)
    ensures Corpus(profile, prices, "") + crime == Corpus(profile, prices, crime)
  {
  }

  /** main, with the command-line argument, the files already present, the
      clock, the web and the model as inputs. `existing` is the set of file
      names os.path.exists finds; `converse` gives the model's reply to a
      request. */
  method Run(arg: Option<string>, existing: set<string>, now: CrimeData.YearMonth,
             web: string -> Option<string>, converse: Summary.ConverseRequest -> string)
    returns (out: Outcome)
    requires CrimeData.ValidNow(now)
    ensures var p := Postcode.ChoosePostcode(arg);
      var filename := Postcode.OutputFilename(p);
      var corpus := Corpus(Streetcheck.FetchPage(p, Streetcheck.Profile, None, web),
                           Streetcheck.FetchPage(p, Streetcheck.HousePrices, None, web),
                           CrimeData.CrimeText(p, now, web));
      var request := Summary.SummaryRequest(corpus);
      var summary := converse(request);
      out == if filename in existing then AlreadyExists(filename)
             else Written(filename, corpus, request, Summary.UsageOf(corpus, summary),
                          Postcode.ReportBody(p, summary))
  {
    var postcode := PostcodeFromArgument(arg);
    var outputFilename := Postcode.OutputFilename(postcode);
    if outputFilename in existing {
      return AlreadyExists(outputFilename);
    }
    var results := GatherCorpus(postcode, now, web);
    var request := Summary.SummaryRequest(results);
    var summary := converse(request);
    var usage := Summary.UsageOf(results, summary);
    var outputText := Postcode.ReportBody(postcode, summary);
    return Written(outputFilename, results, request, usage, outputText);
  }

  /** Without an argument the report is filed under the upper-case default,
      while the pages are fetched for its cleaned, lower-case form. */
  lemma DefaultRun()
    ensures Postcode.OutputFilename(Postcode.ChoosePostcode(None)) == "postcode_summary_SW72BU.md"
    ensures Streetcheck.RequestUrl(Postcode.ChoosePostcode(None), Streetcheck.Profile, None) ==
      Streetcheck.BaseUrl + "postcode/" + "sw72bu"
  {
    DefaultFilename();
    DefaultUrls(Streetcheck.Profile, None);
    ProfileUrl("sw72bu");
  }

  /** Every page main requests without an argument, whatever its kind and
      date, is requested for the cleaned default `sw72bu`. */
  lemma DefaultUrls(k: Streetcheck.PageKind, date: Option<string>)
    ensures Streetcheck.RequestUrl(Postcode.ChoosePostcode(None), k, date) ==
      Streetcheck.UrlFor(k, "sw72bu", date)
  {
    Postcode.DefaultNormalises();
  }

  lemma DefaultFilename()
    ensures Postcode.OutputFilename(Postcode.DefaultPostcode) == "postcode_summary_SW72BU.md"
  {
  }

  lemma ProfileUrl(p: string)
    ensures Streetcheck.UrlFor(Streetcheck.Profile, p, None) == Streetcheck.BaseUrl + "postcode/" + p
  {
  }

  /** Two runs that settle on different postcodes never write the same file,
      and the file of a run is recognised as that postcode's report. */
  lemma DistinctPostcodesDistinctFiles(a1: Option<string>, a2: Option<string>)
    requires Postcode.ChoosePostcode(a1) != Postcode.ChoosePostcode(a2)
    ensures Postcode.OutputFilename(Postcode.ChoosePostcode(a1)) != Postcode.OutputFilename(Postcode.ChoosePostcode(a2))
  {
    Postcode.FilenameRoundTrip(Postcode.ChoosePostcode(a1));
    Postcode.FilenameRoundTrip(Postcode.ChoosePostcode(a2));
  }
}
