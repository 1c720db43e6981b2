# UK postcode area report — a Dafny model

`check_postcode.py` takes a UK postcode and builds a short written profile of
the area around it. It downloads three kinds of page from streetcheck.co.uk for
that postcode: the postcode profile, the house prices, and the crime figures
for three recent months. It turns each page into one line of plain text, joins
the texts into one corpus, and asks a Bedrock model for a summary. It then
writes the summary to `postcode_summary_<postcode>.md`, unless that file
already exists.

This project models the deterministic core of that script:

- `Text` holds the Python string primitives the script relies on:
  `str.isspace`, `str.splitlines` line breaks, `str.strip` and `str.join`.
  It also defines `Visible`, the non-whitespace characters of a string in
  order. `Visible` is the reference for "only whitespace was removed".
- `PlainText` is the whitespace collapse at the end of `html_to_plain_text`.
  Each line is stripped and cut at every two-space run, the pieces are
  stripped, empty pieces are dropped, and the rest are joined with single
  spaces.
- `Postcode` covers the postcode clean-up (`strip().replace(" ", "").lower()`),
  the `SW72BU` fallback, the report file name and the report body.
- `Streetcheck` is `get_streetcheck_data`. It covers the data-type dispatch,
  the request URL, the `ValueError` for an unknown data type, and the fetched
  text. Each fetch is the parameter `web`, which gives for each URL the text
  BeautifulSoup extracted, or `None` when the request raised.
- `CrimeData` is `get_three_months_data`. It covers the month arithmetic of
  `relativedelta`, the `%Y/%m` dates, and the loop that appends one labelled
  block per month that returned text. The loop is a method, and its loop
  invariant ties it to the specification function `CrimeText`.
- `Summary` covers the prompt template around the corpus, the Converse request
  (model id, one user message, temperature 0.0, 2048 maximum tokens, top-p 1),
  and the `len // 4` token estimates with their per-thousand prices.
- `Report` is `main`. The postcode choice is a method proved against the
  function `Postcode.ChoosePostcode`. The conditional `+=` steps that build the
  corpus are methods proved against the function `Corpus`. The run
  either stops because the report file exists, or produces the corpus, the
  request, the usage figures and the file body.

The house-price text is added to the corpus with no separator after it
(check_postcode.py:339-340), while the profile text is followed by a blank
line. The house-price text therefore runs straight into the first `Data for`
label of the crime text. `Report.PricesRunIntoCrime` states this.

The code and its own comments disagree in several places. In each of them the
model follows the code:

- The comment at check_postcode.py:81 says the postcode is converted to upper
  case, but line 82 calls `.lower()`. The cleaned postcode, and so every
  request URL, is lower case (`Postcode.NormaliseIsNormal`,
  `Report.DefaultUrls`).
- The docstring at check_postcode.py:77 names only `"postcode"` and
  `"houseprices"`, but lines 90-91 also accept `"crime"` (`Streetcheck.KindOf`).
- The docstring at check_postcode.py:79 and the comment at line 133 say the
  function returns the page's HTML. Line 134 returns the collapsed plain text,
  and line 138 returns `None` when the request fails (`Streetcheck.FetchPage`).
- The comment at check_postcode.py:295 says the loop covers two months ago,
  one month ago and the current month. The code starts four months back and
  requests the months four, three and two before the current one
  (`CrimeData.PeriodsAreConsecutive`, `CrimeData.January2025`).

## Model

| member | source | states |
|---|---|---|
| `Text.Strip` | check_postcode.py:82 | `str.strip`: the result is the slice of the input left after a whitespace prefix and a whitespace suffix are cut off; it has no whitespace at either end, is empty exactly when the input is all whitespace, and keeps the input's freedom from line breaks and double spaces |
| `Text.StripVisible` | check_postcode.py:82 | stripping removes whitespace only: the visible characters are unchanged |
| `Text.VisibleJoin` | check_postcode.py:58 | joining with a whitespace separator adds no visible character |
| `PlainText.SplitLines` | check_postcode.py:56 | `str.splitlines`: no line contains a line break |
| `PlainText.SplitLinesEmpty` | check_postcode.py:56 | `""` has no lines |
| `PlainText.SplitLinesSingle` | check_postcode.py:56 | a non-empty text without a break is one line |
| `PlainText.SplitLinesBreak` | check_postcode.py:56 | a single break character ends the line before it and the rest is split on its own, unless it is a `\r` followed by `\n` |
| `PlainText.SplitLinesCrLf` | check_postcode.py:56 | `\r\n` is one break: it ends the line before it and opens no empty line |
| `PlainText.SplitDoubleSpace` | check_postcode.py:57 | `str.split("  ")`: at least one piece, joining the pieces with `"  "` gives back the input, and no piece holds two consecutive spaces |
| `PlainText.SplitDoubleSpaceNone` | check_postcode.py:57 | a text with no `"  "` is a single piece |
| `PlainText.SplitDoubleSpaceFirst` | check_postcode.py:57 | the cut is made at the leftmost `"  "`: a first piece with no double space and no trailing space, then the rest split on its own |
| `PlainText.SplitThreeSpaces` | check_postcode.py:57 | cuts do not overlap: `"a   b"` splits into `"a"` and `" b"` |
| `PlainText.Collapse` | check_postcode.py:54-60 | the plain text is a single line, has no double space, and does not start or end with whitespace |
| `PlainText.FinalStripIsNoop` | check_postcode.py:58-60 | the closing `text.strip()` never changes anything, because the joined chunks are already stripped |
| `PlainText.CollapseKeepsVisible` | check_postcode.py:54-60 | the collapse deletes whitespace and nothing else: the non-whitespace characters survive in order |
| `PlainText.CollapseEmpty` | check_postcode.py:54-60 | the plain text is `""` exactly when the extracted text is empty or all whitespace |
| `PlainText.CollapseFixedPoints` | check_postcode.py:54-60 | a text equals its own collapse exactly when it is one line, free of double spaces and stripped |
| `PlainText.CollapseIdempotent` | check_postcode.py:54-60 | collapsing twice gives the same result as collapsing once |
| `PlainText.CollapseJoinsLines` | check_postcode.py:56-58 | two non-empty collapsed texts on consecutive lines come out as one line, separated by a single space |
| `Postcode.Lower` | check_postcode.py:82 | `lower()` keeps the length and maps every character through the ASCII lower-case map |
| `Postcode.RemoveSpaces` | check_postcode.py:82 | `replace(" ", "")` leaves no space and keeps every other character, counted as a multiset |
| `Postcode.RemoveSpacesConcat` | check_postcode.py:82 | removing spaces works part by part, so the kept characters stay in their order |
| `Postcode.RemoveSpacesOne` | check_postcode.py:82 | a single space is removed and any other single character is kept |
| `Postcode.Normalise` | check_postcode.py:82 | `strip().replace(" ", "").lower()`, as in `get_streetcheck_data` and at line 317; `NormaliseIsNormal` and `NormaliseIdempotent` state its properties |
| `Postcode.NormaliseIsNormal` | check_postcode.py:82 | the cleaned postcode has no space, no upper-case letter and nothing `strip` would remove |
| `Postcode.NormaliseIdempotent` | check_postcode.py:82 | cleaning is idempotent, and the strings it leaves unchanged are exactly the cleaned ones |
| `Postcode.ChoosePostcode` | check_postcode.py:313-321 | the postcode used is never empty and has no space; it is the cleaned argument when that is non-empty, and otherwise the default |
| `Postcode.DefaultNotNormalised` | check_postcode.py:313-321 | with no usable argument the postcode is `SW72BU` exactly as written, although cleaning it would give `sw72bu` |
| `Postcode.OutputFilename` | check_postcode.py:324 | `postcode_summary_<postcode>.md`; `FilenameRoundTrip` reads the postcode back |
| `Postcode.ReportBody` | check_postcode.py:365-368 | the heading for the postcode, a blank line, the summary and a newline; `ReportBodyRoundTrip` reads the summary back |
| `Postcode.FilenameRoundTrip` | check_postcode.py:324 | the postcode can be read back from `postcode_summary_<p>.md`, so different postcodes use different files |
| `Postcode.ReportBodyRoundTrip` | check_postcode.py:365-368 | the file body is the heading for the postcode, a blank line, the summary verbatim and a newline, so the summary can be read back |
| `Streetcheck.KindOf` | check_postcode.py:85-93 | exactly `"postcode"`, `"houseprices"` and `"crime"` are accepted, and each selects the page kind of that name |
| `Streetcheck.KindOfName` | check_postcode.py:85-93 | each page kind is selected by its own data-type name |
| `Streetcheck.RequestUrl` | check_postcode.py:82-123 | base URL, the kind's segment, the cleaned postcode and `/<date>` for a truthy date; `UrlRoundTrip`, `SlashPostcodeCollides` and `CrimeWithoutDate` state its properties |
| `Streetcheck.UrlRoundTrip` | check_postcode.py:82-123 | for a cleaned postcode without `/`, the URL determines the page kind, the cleaned postcode and the date; a date of `None` or `""` adds nothing |
| `Streetcheck.SlashPostcodeCollides` | check_postcode.py:123 | the postcode is put into the URL unescaped, so postcode `a/b` without a date and postcode `a` with date `b` request the same URL |
| `Streetcheck.FetchPage` | check_postcode.py:121-138 | a fetched page is the collapse of the text the request returned, and the result is `None` exactly when the request failed |
| `Streetcheck.GetStreetcheckData` | check_postcode.py:85-93 | `ValueError` with its message exactly when the data type is unknown; otherwise the fetched page |
| `Streetcheck.UnknownTypeMakesNoRequest` | check_postcode.py:85-93 | an unknown data type fails before any request, whatever the web would answer |
| `Streetcheck.CrimeWithoutDate` | check_postcode.py:90-91 | `"crime"` without a date is not rejected; it requests `crime/<postcode>` with no date |
| `CrimeData.AddMonths` | check_postcode.py:293 | `relativedelta(months=k)`: a valid month exactly k months later, with the year carried |
| `CrimeData.MonthIndexInjective` | check_postcode.py:293 | a valid month is determined by its month count |
| `CrimeData.PeriodsAreConsecutive` | check_postcode.py:293-298 | the months requested are four, three and two months before now, consecutive and in ascending order |
| `CrimeData.PeriodsHaveFourDigitYears` | check_postcode.py:293-299 | when the current year is between 1001 and 9999, every requested month has a four-digit year |
| `CrimeData.DecimalRoundTrip` | check_postcode.py:299 | a number that fits in w digits can be read back from its zero-padded w-digit form |
| `CrimeData.FormatPeriod` | check_postcode.py:299 | `%Y/%m` is seven characters: four digits, `/`, two digits |
| `CrimeData.FormatRoundTrip` | check_postcode.py:299 | the formatted date can be read back as its year and month |
| `CrimeData.January2025` | check_postcode.py:293-299 | in January 2025 the dates requested are 2024/09, 2024/10 and 2024/11 |
| `CrimeData.Block` | check_postcode.py:304-306 | a month adds a block exactly when its fetch gave non-empty text |
| `CrimeData.CrimeText` | check_postcode.py:290-308 | the labelled blocks of the three months' entries; `ThreeMonthsData` is proved equal to it, and `CrimeTextIsThreeBlocks`, `LabelledEmpty` and `AllFailedGivesEmpty` state its properties |
| `CrimeData.ThreeMonthsData` | check_postcode.py:290-308 | the loop returns the labelled blocks of the three months, concatenated in period order |
| `CrimeData.CrimeTextIsThreeBlocks` | check_postcode.py:296-306 | the crime text is the three months' `Data for <date>:\n<text>\n\n` blocks in order, each present only when its page had text |
| `CrimeData.LabelledAppend` | check_postcode.py:304-306 | appending blocks distributes over the months: later months' blocks follow the earlier ones |
| `CrimeData.LabelledEmpty` | check_postcode.py:304-306 | the crime text is empty exactly when no month's fetch gave non-empty text |
| `CrimeData.BlockInPlace` | check_postcode.py:296-306 | each month's block starts right after the blocks of the months before it |
| `CrimeData.AllFailedGivesEmpty` | check_postcode.py:302-308 | when every fetch fails or is empty, the function returns `""` |
| `Summary.Prompt` | check_postcode.py:149-258 | the template with the corpus in place of `{text}`; its length is the fixed parts plus the corpus, and `PromptRoundTrip` and `PromptInjective` state the rest |
| `Summary.PromptRoundTrip` | check_postcode.py:149-258 | the prompt carries the corpus verbatim between `<area_description>\n` and `\n</area_description>`, and it can be read back |
| `Summary.PromptInjective` | check_postcode.py:149-258 | different corpora give different prompts |
| `Summary.SummaryRequest` | check_postcode.py:260-282 | the Converse call's arguments; `RequestRoundTrip` states its shape and that it carries exactly the corpus |
| `Summary.RequestRoundTrip` | check_postcode.py:260-282 | the request names the model, has one user message with one text item and the fixed settings, and asks about exactly the corpus |
| `Summary.ApproxTokens` | check_postcode.py:353-354 | `len // 4`: the largest t with 4t not above the length |
| `Summary.BilledThousands` | check_postcode.py:355-356 | `tokens // 1000`: the whole thousands, rounded down |
| `Summary.UsageOf` | check_postcode.py:353-356 | the token estimates and prices; `BilledByCharacters`, `ShortInputIsFree` and `UsageMonotone` state their properties |
| `Summary.BilledByCharacters` | check_postcode.py:353-356 | the thousands billed are the character count divided by 4000, rounded down |
| `Summary.ShortInputIsFree` | check_postcode.py:353-355 | a corpus under 4000 characters is priced at zero |
| `Summary.UsageMonotone` | check_postcode.py:353-356 | a longer corpus never gets fewer estimated tokens or a lower price |
| `Report.Corpus` | check_postcode.py:334-344 | the corpus: the truthy profile and a blank line, the truthy house prices, then the crime text; `CorpusEmpty`, `CorpusLayout` and `PricesRunIntoCrime` state its properties |
| `Report.CorpusEmpty` | check_postcode.py:334-344 | the corpus is empty exactly when no profile, no prices and no crime text were found |
| `Report.CorpusLayout` | check_postcode.py:334-344 | the corpus ends with the crime text and, when there is a profile, starts with it followed by a blank line |
| `Report.PricesRunIntoCrime` | check_postcode.py:339-344 | the house-price text is followed by the crime text with no separator |
| `Report.PostcodeFromArgument` | check_postcode.py:316-321 | the branches of `main` choose the postcode `ChoosePostcode` describes |
| `Report.AppendPages` | check_postcode.py:334-340 | the two conditional `+=` steps give `Corpus` of the two pages with no crime text yet: the profile and a blank line when the profile is truthy, then the house prices when they are truthy |
| `Report.GatherCorpus` | check_postcode.py:332-344 | the two page fetches, the `+=` steps and the appended crime text build exactly `Corpus` of the three fetched texts |
| `Report.Run` | check_postcode.py:311-373 | stops at an existing report file; otherwise the corpus, the request for it, the usage figures, and the body holding the model's reply under the postcode heading |
| `Report.DefaultRun` | check_postcode.py:313-332 | with no argument the file is `postcode_summary_SW72BU.md`, while the profile page is requested at `.../postcode/sw72bu` |
| `Report.DefaultUrls` | check_postcode.py:313-321 | with no argument every page, whatever its kind and date, is requested for the cleaned `sw72bu` |
| `Report.DistinctPostcodesDistinctFiles` | check_postcode.py:324-329 | runs that settle on different postcodes write different files |

## Left out

- Parsing HTML with BeautifulSoup (removing scripts, styles and images, unwrapping links, `get_text`) is not modelled. It is part of the `web` parameter, which gives the extracted text for each URL.
- The HTTP request is the `web` parameter. The same is true of the random user agent and headers, the random one-to-three-second delay, the ten-second timeout, status-code errors and the progress messages. An exception other than `requests.RequestException` (for example one raised inside BeautifulSoup) is not modelled.
- The Bedrock client, the AWS profile and region, and the Converse call are not modelled. The model's reply is the parameter `converse`, a function of the request. `Report.Run` takes that reply as a string, so the path where `get_content_summary` returns `None` and `len(summary)` then raises is not modelled.
- The prompt wording is not modelled. `Summary.Introduction` and `Summary.Instructions` stand for the fixed text before and after the corpus. Their content (the analyst instructions and the example report) does not affect any property proved here.
- Summary.UsageOf: prices are exact reals; the float rounding of `* 0.0008` and `* 0.0032`, and the `:.2f` and `:,` formatting of the printed statistics, are not modelled.
- File-system effects are reduced to data. `os.path.exists` is the set `existing`, and `sys.exit(1)` is the `AlreadyExists` outcome. Writing the file is the returned body, and a failed write is not modelled. `sys.argv` is the optional argument.
- `cleanup_temp_file`, the unused imports (`re`, `tempfile`, `timedelta`, MarkItDown) and the warning filter play no part in the run and are not modelled.
- Postcode.Lower: lower-cases the ASCII letters `A`-`Z` only. Python's `str.lower` also maps non-ASCII capitals, which this model leaves unchanged.
- CrimeData.ThreeMonthsData: requires a current year between 1001 and 9999. This keeps every requested month within years 1000 to 9999, where `%Y` is four digits on every platform. Dates near year 1, and years below 1000 (whose `%Y` output depends on the platform), are not modelled.
- Report.Run: requires the same clock range as `CrimeData.ThreeMonthsData`, because it calls it.
- `datetime.now()` is the parameter `now`, reduced to its year and month. The day of the month does not affect the `%Y/%m` result.
