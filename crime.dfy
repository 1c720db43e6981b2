/** get_three_months_data: the crime pages of three calendar months, from
    four months before the current one up to two months before it, each
    labelled with its "%Y/%m" date, concatenated in that order. */
module CrimeData {
  import opened Wrappers
  import Streetcheck

  /** A calendar month, as datetime.now() and relativedelta see it. */
  datatype YearMonth = YearMonth(year: int, month: int)

  predicate ValidMonth(p: YearMonth)
  {
    1 <= p.month <= 12
  }

  /** A current month whose crime periods all have four-digit years. */
  predicate ValidNow(now: YearMonth)
  {
    ValidMonth(now) && 1001 <= now.year <= 9999
  }

  /** Months counted from January of year 0. */
  function MonthIndex(p: YearMonth): int
  {
    12 * p.year + p.month - 1
  }

  function OfMonthIndex(t: int): (p: YearMonth)
    ensures ValidMonth(p) && MonthIndex(p) == t
  {
    YearMonth(t / 12, t % 12 + 1)
  }

  /** A month is determined by its index. */
  lemma MonthIndexInjective(p: YearMonth)
    requires ValidMonth(p)
    ensures OfMonthIndex(MonthIndex(p)) == p
  {
    var t := MonthIndex(p);
    assert t == 12 * p.year + (p.month - 1) && 0 <= p.month - 1 < 12;
    DivModUnique(t, p.year, p.month - 1);
  }

  lemma DivModUnique(t: int, q: int, r: int)
    requires t == 12 * q + r && 0 <= r < 12
    ensures t / 12 == q && t % 12 == r
  {
  }

  /** date + relativedelta(months=k): the year/month k months later. */
  function AddMonths(p: YearMonth, k: int): (q: YearMonth)
    ensures ValidMonth(q) && MonthIndex(q) == MonthIndex(p) + k
  {
    OfMonthIndex(MonthIndex(p) + k)
  }

  /** The month of iteration i: four months back, then i forward. */
  function CrimePeriod(now: YearMonth, i: int): (p: YearMonth)
    ensures ValidMonth(p) && MonthIndex(p) == MonthIndex(now) - 4 + i
  {
    AddMonths(AddMonths(now, -4), i)
  }

  /** The three months requested, in loop order. */
  function CrimePeriods(now: YearMonth): seq<YearMonth>
  {
    [CrimePeriod(now, 0), CrimePeriod(now, 1), CrimePeriod(now, 2)]
  }

  /** The periods are the months four, three and two before now, each one
      month after the previous, with the year rolling over correctly. */
  lemma PeriodsAreConsecutive(now: YearMonth)
    requires ValidMonth(now)
    ensures |CrimePeriods(now)| == 3
    ensures forall i :: 0 <= i < 3 ==> CrimePeriods(now)[i] == AddMonths(now, i - 4)
    ensures MonthIndex(CrimePeriods(now)[0]) == MonthIndex(now) - 4
    ensures forall i :: 0 <= i < 2 ==> MonthIndex(CrimePeriods(now)[i + 1]) == MonthIndex(CrimePeriods(now)[i]) + 1
  {
    forall i | 0 <= i < 3 ensures CrimePeriods(now)[i] == AddMonths(now, i - 4) {
      MonthIndexInjective(CrimePeriods(now)[i]);
      MonthIndexInjective(AddMonths(now, i - 4));
    }
  }

  /** The periods of a valid "now" all have four-digit years. */
  lemma PeriodsHaveFourDigitYears(now: YearMonth, i: int)
    requires ValidNow(now) && 0 <= i < 3
    ensures 1000 <= CrimePeriod(now, i).year <= 9999
  {
    var p := CrimePeriod(now, i);
    MonthIndexInjective(p);
    assert 12 * 1000 <= MonthIndex(p) < 12 * 10000;
  }

  function Digit(d: int): (c: char)
    requires 0 <= d <= 9
    ensures '0' <= c <= '9'
  {
    (48 + d) as char
  }

  function DigitValue(c: char): int
  {
    c as int - 48
  }

  function Pow10(w: nat): (r: nat)
    ensures r >= 1
  {
    if w == 0 then 1 else 10 * Pow10(w - 1)
  }

  /** n written in w decimal digits, zero-padded on the left. */
  function Decimal(n: nat, w: nat): (s: string)
    ensures |s| == w && forall i :: 0 <= i < w ==> '0' <= s[i] <= '9'
  {
    if w == 0 then [] else Decimal(n / 10, w - 1) + [Digit(n % 10)]
  }

  /** The number a string of decimal digits denotes. */
  function DecimalValue(s: string): int
  {
    if s == [] then 0 else 10 * DecimalValue(s[..|s| - 1]) + DigitValue(s[|s| - 1])
  }

  /** A number that fits in w digits is read back from its w-digit form. */
  lemma {:induction false} DecimalRoundTrip(n: nat, w: nat)
    requires n < Pow10(w)
    ensures DecimalValue(Decimal(n, w)) == n
  {
    if w > 0 {
      assert n / 10 < Pow10(w - 1);
      DecimalRoundTrip(n / 10, w - 1);
      var s := Decimal(n, w);
      assert s[..w - 1] == Decimal(n / 10, w - 1);
    }
  }

  /** strftime('%Y/%m'): four-digit year, '/', zero-padded two-digit month. */
  function FormatPeriod(p: YearMonth): (s: string)
    requires ValidMonth(p) && 1000 <= p.year <= 9999
    ensures |s| == 7 && s[4] == '/'
    ensures forall i :: 0 <= i < 7 && i != 4 ==> '0' <= s[i] <= '9'
  {
    Decimal(p.year, 4) + "/" + Decimal(p.month, 2)
  }

  /** Reads a "%Y/%m" date back. */
  function ParsePeriod(s: string): Option<YearMonth>
  {
    if |s| == 7 && s[4] == '/' then Some(YearMonth(DecimalValue(s[..4]), DecimalValue(s[5..]))) else None
  }

  /** The formatted date determines the month. */
  lemma FormatRoundTrip(p: YearMonth)
    requires ValidMonth(p) && 1000 <= p.year <= 9999
    ensures ParsePeriod(FormatPeriod(p)) == Some(p)
  {
    var s := FormatPeriod(p);
    assert Pow10(4) == 10000 && Pow10(2) == 100;
    assert s[..4] == Decimal(p.year, 4);
    assert s[5..] == Decimal(p.month, 2);
    DecimalRoundTrip(p.year, 4);
    DecimalRoundTrip(p.month, 2);
  }

  /** The "%Y/%m" dates requested, in loop order. */
  function CrimeDates(now: YearMonth): (ds: seq<string>)
    requires ValidNow(now)
    ensures |ds| == 3
  {
    seq(3, i requires 0 <= i < 3 => PeriodsHaveFourDigitYears(now, i); FormatPeriod(CrimePeriod(now, i)))
  }

  /** For now = January 2025 the requests go out for 2024/09, 2024/10 and
      2024/11: the year rolls back, and the current month and the month
      before it are not requested. */
  lemma January2025()
    ensures CrimeDates(YearMonth(2025, 1)) == ["2024/09", "2024/10", "2024/11"]
  {
    January2025Periods();
    FormatAutumn2024();
  }

  lemma January2025Periods()
    ensures CrimePeriod(YearMonth(2025, 1), 0) == YearMonth(2024, 9)
    ensures CrimePeriod(YearMonth(2025, 1), 1) == YearMonth(2024, 10)
    ensures CrimePeriod(YearMonth(2025, 1), 2) == YearMonth(2024, 11)
  {
    MonthIndexInjective(YearMonth(2024, 9));
    MonthIndexInjective(YearMonth(2024, 10));
    MonthIndexInjective(YearMonth(2024, 11));
  }

  lemma FormatAutumn2024()
    ensures FormatPeriod(YearMonth(2024, 9)) == "2024/09"
    ensures FormatPeriod(YearMonth(2024, 10)) == "2024/10"
    ensures FormatPeriod(YearMonth(2024, 11)) == "2024/11"
  {
  }

  /** One labelled block: present only when the fetch gave non-empty text. */
  function Block(date: string, text: Option<string>): (b: string)
    ensures b == [] <==> !Truthy(text)
  {
    if Truthy(text) then "Data for " + date + ":\n" + text.value + "\n\n" else ""
  }

  /** The formatted date of each period and what fetching its page gave. */
  datatype Entry = Entry(date: string, text: Option<string>)

  /** The entry of iteration i: its formatted date and its crime page. */
  function EntryAt(postcode: string, now: YearMonth, web: string -> Option<string>, i: int): (e: Entry)
    requires ValidNow(now) && 0 <= i < 3
    ensures e.date == CrimeDates(now)[i]
  {
    var date := CrimeDates(now)[i];
    Entry(date, Streetcheck.FetchPage(postcode, Streetcheck.Crime, Some(date), web))
  }

  /** The entries of the three iterations, in order. */
  function Entries(postcode: string, now: YearMonth, web: string -> Option<string>): (es: seq<Entry>)
    requires ValidNow(now)
    ensures |es| == 3
  {
    seq(3, i requires 0 <= i < 3 => EntryAt(postcode, now, web, i))
  }

  /** The labelled blocks of the entries, one per entry, in order. */
  function Blocks(es: seq<Entry>): (bs: seq<string>)
    ensures |bs| == |es|
  {
    if es == [] then [] else Blocks(es[..|es| - 1]) + [Block(es[|es| - 1].date, es[|es| - 1].text)]
  }

  /** The strings concatenated left to right, as `+=` builds them. */
  function Concat(bs: seq<string>): string
  {
    if bs == [] then "" else Concat(bs[..|bs| - 1]) + bs[|bs| - 1]
  }

  function Labelled(es: seq<Entry>): string
  {
    Concat(Blocks(es))
  }

  lemma {:induction false} ConcatAppend(a: seq<string>, b: seq<string>)
    ensures Concat(a + b) == Concat(a) + Concat(b)
    decreases |b|
  {
    if b == [] {
      assert a + b == a;
    } else {
      var n := |b| - 1;
      assert (a + b)[..|a + b| - 1] == a + b[..n];
      ConcatAppend(a, b[..n]);
    }
  }

  lemma ConcatSnoc(bs: seq<string>, b: string)
    ensures Concat(bs + [b]) == Concat(bs) + b
  {
    assert (bs + [b])[..|bs|] == bs;
  }

  lemma BlocksSnoc(es: seq<Entry>, e: Entry)
    ensures Blocks(es + [e]) == Blocks(es) + [Block(e.date, e.text)]
  {
    assert (es + [e])[..|es|] == es;
  }

  lemma LabelledSnoc(es: seq<Entry>, e: Entry)
    ensures Labelled(es + [e]) == Labelled(es) + Block(e.date, e.text)
  {
    BlocksSnoc(es, e);
    ConcatSnoc(Blocks(es), Block(e.date, e.text));
  }

  lemma {:induction false} BlocksAppend(a: seq<Entry>, b: seq<Entry>)
    ensures Blocks(a + b) == Blocks(a) + Blocks(b)
    decreases |b|
  {
    if b != [] {
      var n := |b| - 1;
      assert a + b == (a + b[..n]) + [b[n]];
      assert b == b[..n] + [b[n]];
      BlocksSnoc(a + b[..n], b[n]);
      BlocksSnoc(b[..n], b[n]);
      BlocksAppend(a, b[..n]);
    } else {
      assert a + b == a;
    }
  }

  lemma LabelledAppend(a: seq<Entry>, b: seq<Entry>)
    ensures Labelled(a + b) == Labelled(a) + Labelled(b)
  {
    BlocksAppend(a, b);
    ConcatAppend(Blocks(a), Blocks(b));
  }

  /** The text is empty exactly when no fetch gave non-empty text. */
  lemma {:induction false} LabelledEmpty(es: seq<Entry>)
    ensures Labelled(es) == "" <==> forall i :: 0 <= i < |es| ==> !Truthy(es[i].text)
  {
    if es != [] {
      var n := |es| - 1;
      assert es == es[..n] + [es[n]];
      LabelledSnoc(es[..n], es[n]);
      LabelledEmpty(es[..n]);
      assert forall i :: 0 <= i < n ==> es[..n][i] == es[i];
    }
  }

  /** Each entry's block sits right after the blocks of the entries before
      it: the blocks appear in the order of the periods. */
  lemma BlockInPlace(es: seq<Entry>, i: nat)
    requires i < |es|
    ensures var start := |Labelled(es[..i])|;
      var b := Block(es[i].date, es[i].text);
      start + |b| <= |Labelled(es)| && Labelled(es)[start..start + |b|] == b
  {
    var x, b := Labelled(es[..i]), Block(es[i].date, es[i].text);
    var z := Labelled(es[i + 1..]);
    assert es == (es[..i] + [es[i]]) + es[i + 1..];
    LabelledAppend(es[..i] + [es[i]], es[i + 1..]);
    LabelledSnoc(es[..i], es[i]);
    assert Labelled(es) == x + b + z;
    assert (x + b + z)[|x|..|x| + |b|] == b;
  }

  lemma LabelledStep(es: seq<Entry>, i: nat)
    requires i < |es|
    ensures Labelled(es[..i + 1]) == Labelled(es[..i]) + Block(es[i].date, es[i].text)
  {
    assert es[..i + 1] == es[..i] + [es[i]];
    LabelledSnoc(es[..i], es[i]);
  }

  /** Appending a block in the two steps of the loop body. */
  lemma AppendBlock(results: string, date: string, text: string)
    requires text != ""
    ensures results + "Data for " + date + ":\n" + text + "\n\n" == results + Block(date, Some(text))
  {
  }

  /** The crime text get_three_months_data returns. */
  function CrimeText(postcode: string, now: YearMonth, web: string -> Option<string>): string
    requires ValidNow(now)
  {
    Labelled(Entries(postcode, now, web))
  }

  /** get_three_months_data, with the clock reading and the web as inputs. */
  method ThreeMonthsData(postcode: string, now: YearMonth, web: string -> Option<string>) returns (results: string)
    requires ValidNow(now)
    ensures results == CrimeText(postcode, now, web)
  {
    ghost var es := Entries(postcode, now, web);
    results := "";
    var fourMonthsAgo := AddMonths(now, -4);
    Streetcheck.KindOfName(Streetcheck.Crime);
    for i := 0 to 3
      invariant results == Labelled(es[..i])
    {
      var targetDate := AddMonths(fourMonthsAgo, i);
      PeriodsHaveFourDigitYears(now, i);
      var formattedDate := FormatPeriod(targetDate);
      var fetched := Streetcheck.GetStreetcheckData(postcode, "crime", Some(formattedDate), web);
      var postcodeHtml := fetched.value;
      assert es[i] == Entry(formattedDate, postcodeHtml);
      LabelledStep(es, i);
      if postcodeHtml.Some? && postcodeHtml.value != "" {
        AppendBlock(results, formattedDate, postcodeHtml.value);
        results := results + "Data for " + formattedDate + ":\n";
        results := results + postcodeHtml.value + "\n\n";
      }
    }
    assert es[..3] == es;
  }

  /** The crime text is the three labelled blocks in period order, each
      present only when its page came back with text. */
  lemma CrimeTextIsThreeBlocks(postcode: string, now: YearMonth, web: string -> Option<string>)
    requires ValidNow(now)
    ensures var es := Entries(postcode, now, web);
      CrimeText(postcode, now, web) ==
        Block(es[0].date, es[0].text) + Block(es[1].date, es[1].text) + Block(es[2].date, es[2].text)
  {
    LabelledThree(Entries(postcode, now, web));
  }

  lemma LabelledThree(es: seq<Entry>)
    requires |es| == 3
    ensures Labelled(es) == Block(es[0].date, es[0].text) + Block(es[1].date, es[1].text) + Block(es[2].date, es[2].text)
  {
    LabelledStep(es, 0);
    LabelledStep(es, 1);
    LabelledStep(es, 2);
    assert es[..0] == [];
    assert es[..3] == es;
  }

  /** When every fetch fails or comes back empty, the crime text is "". */
  lemma AllFailedGivesEmpty(postcode: string, now: YearMonth, web: string -> Option<string>)
    requires ValidNow(now)
    requires forall i :: 0 <= i < 3 ==> !Truthy(Entries(postcode, now, web)[i].text)
    ensures CrimeText(postcode, now, web) == ""
  {
    LabelledEmpty(Entries(postcode, now, web));
  }
}
