/** The postcode as main and get_streetcheck_data clean it, the default used
    when no usable argument is given, and the names and text of the report
    file main writes. */
module Postcode {
  import opened Wrappers
  import opened Text

  /** The fallback postcode; main uses it as written, without lower-casing. */
  const DefaultPostcode: string := "SW72BU"

  predicate IsUpper(c: char)
  {
    'A' <= c <= 'Z'
  }

  /** str.lower() on one character, for the ASCII letters. */
  function LowerChar(c: char): (d: char)
    ensures !IsUpper(d)
    ensures IsSpace(d) == IsSpace(c)
    ensures !IsUpper(c) ==> d == c
  {
    if IsUpper(c) then (c as int + 32) as char else c
  }

  /** str.lower(): every character mapped, none left upper-case. */
  function Lower(s: string): (r: string)
    ensures |r| == |s|
    ensures forall i :: 0 <= i < |s| ==> r[i] == LowerChar(s[i])
  {
    seq(|s|, i requires 0 <= i < |s| => LowerChar(s[i]))
  }

  /** str.replace(" ", ""): the result holds no ' ' and has the same
      characters otherwise, as a multiset. */
  function RemoveSpaces(s: string): (r: string)
    ensures forall i :: 0 <= i < |r| ==> r[i] != ' '
    ensures multiset(r) == multiset(s)[' ' := 0]
  {
    if s == [] then []
    else
      assert s == [s[0]] + s[1..];
      (if s[0] == ' ' then [] else [s[0]]) + RemoveSpaces(s[1..])
  }

  /** Removing spaces works piecewise: the spaces of each part go and the
      rest keeps its order. With RemoveSpacesOne this fixes the result on
      every input. */
  lemma {:induction false} RemoveSpacesConcat(a: string, b: string)
    ensures RemoveSpaces(a + b) == RemoveSpaces(a) + RemoveSpaces(b)
  {
    if a == [] {
      assert a + b == b;
    } else {
      var h := if a[0] == ' ' then [] else [a[0]];
      var ra, rb := RemoveSpaces(a[1..]), RemoveSpaces(b);
      ConsConcat(a, b);
      calc {
        RemoveSpaces(a + b);
        { RemoveSpacesCons(a[0], a[1..] + b); }
        h + RemoveSpaces(a[1..] + b);
        { RemoveSpacesConcat(a[1..], b); }
        h + (ra + rb);
        { AppendAssoc(h, ra, rb); }
        (h + ra) + rb;
        { RemoveSpacesCons(a[0], a[1..]); }
        RemoveSpaces(a) + rb;
      }
    }
  }

  lemma ConsConcat(a: string, b: string)
    requires a != []
    ensures a == [a[0]] + a[1..] && a + b == [a[0]] + (a[1..] + b)
  {
  }

  lemma AppendAssoc(x: string, y: string, z: string)
    ensures x + (y + z) == (x + y) + z
  {
  }

  lemma RemoveSpacesCons(c: char, t: string)
    ensures RemoveSpaces([c] + t) == (if c == ' ' then [] else [c]) + RemoveSpaces(t)
  {
    assert ([c] + t)[1..] == t;
  }

  /** One character is dropped if it is a space and kept otherwise. */
  lemma RemoveSpacesOne(c: char)
    ensures RemoveSpaces([c]) == if c == ' ' then [] else [c]
  {
    assert [c][1..] == [];
  }

  /** A cleaned postcode: no spaces, no upper-case letters, nothing strip
      would remove. */
  predicate IsNormal(p: string)
  {
    (forall i :: 0 <= i < |p| ==> p[i] != ' ' && !IsUpper(p[i])) && Trimmed(p)
  }

  /** postcode.strip().replace(" ", "").lower() */
  function Normalise(s: string): (p: string)
  {
    Lower(RemoveSpaces(Strip(s)))
  }

  /** A string that does not start with a space keeps its first character
      when spaces are removed; likewise for the last character. */
  lemma {:induction false} RemoveSpacesEnds(t: string)
    requires t != [] && t[|t| - 1] != ' '
    ensures RemoveSpaces(t) != [] && RemoveSpaces(t)[|RemoveSpaces(t)| - 1] == t[|t| - 1]
  {
    if |t| > 1 {
      RemoveSpacesEnds(t[1..]);
    }
  }

  lemma {:induction false} RemoveSpacesNone(t: string)
    requires forall i :: 0 <= i < |t| ==> t[i] != ' '
    ensures RemoveSpaces(t) == t
  {
    if t != [] {
      RemoveSpacesNone(t[1..]);
    }
  }

  /** Normalisation yields a cleaned postcode. */
  lemma NormaliseIsNormal(s: string)
    ensures IsNormal(Normalise(s))
  {
    var t := Strip(s);
    RemoveSpacesTrimmed(t);
    LowerNormal(RemoveSpaces(t));
  }

  lemma RemoveSpacesTrimmed(t: string)
    requires Trimmed(t)
    ensures Trimmed(RemoveSpaces(t))
  {
    if t != [] {
      RemoveSpacesEnds(t);
      assert RemoveSpaces(t)[0] == t[0];
    }
  }

  lemma LowerNormal(u: string)
    requires (forall i :: 0 <= i < |u| ==> u[i] != ' ') && Trimmed(u)
    ensures IsNormal(Lower(u))
  {
  }

  /** A cleaned postcode is left alone by normalisation. */
  lemma NormalIsFixed(p: string)
    requires IsNormal(p)
    ensures Normalise(p) == p
  {
    StripTrimmed(p);
    RemoveSpacesNone(p);
  }

  /** Normalisation is idempotent, and its fixed points are exactly the
      cleaned postcodes. */
  lemma NormaliseIdempotent(s: string)
    ensures Normalise(Normalise(s)) == Normalise(s)
    ensures Normalise(s) == s <==> IsNormal(s)
  {
    NormaliseIsNormal(s);
    NormalIsFixed(Normalise(s));
    if IsNormal(s) {
      NormalIsFixed(s);
    }
  }

  /** The postcode main settles on: the cleaned argument, or the default
      when the argument is absent or cleans to "". Either way it is
      non-empty and free of spaces; unless it is the default it is cleaned. */
  function ChoosePostcode(arg: Option<string>): (p: string)
    ensures p != [] && forall i :: 0 <= i < |p| ==> p[i] != ' '
    ensures p == DefaultPostcode || IsNormal(p)
    ensures arg.Some? && Normalise(arg.value) != [] ==> p == Normalise(arg.value)
    ensures arg.None? || Normalise(arg.value) == [] ==> p == DefaultPostcode
  {
    match arg
    case None => DefaultPostcode
    case Some(a) =>
      var p := Normalise(a);
      NormaliseIsNormal(a);
      if p == [] then DefaultPostcode else p
  }

  /** The default is used verbatim, although normalising it would give a
      different, lower-case string. */
  lemma DefaultNotNormalised(arg: Option<string>)
    requires arg.None? || Normalise(arg.value) == []
    ensures ChoosePostcode(arg) == "SW72BU"
    ensures Normalise(ChoosePostcode(arg)) == "sw72bu"
    ensures !IsNormal(ChoosePostcode(arg))
  {
    assert ChoosePostcode(arg) == DefaultPostcode;
    DefaultNormalises();
    assert IsUpper(DefaultPostcode[0]);
  }

  lemma DefaultNormalises()
    ensures Normalise(DefaultPostcode) == "sw72bu"
  {
    var d := DefaultPostcode;
    StripTrimmed(d);
    RemoveSpacesNone(d);
    DefaultLower();
  }

  lemma DefaultLower()
    ensures Lower(DefaultPostcode) == "sw72bu"
  {
    var l := Lower(DefaultPostcode);
    assert l[0] == 's' && l[1] == 'w' && l[2] == '7' && l[3] == '2' && l[4] == 'b' && l[5] == 'u';
  }

  const FilenamePrefix: string := "postcode_summary_"
  const FilenameSuffix: string := ".md"

  /** f"postcode_summary_{postcode}.md" */
  function OutputFilename(p: string): (f: string)
  {
    FilenamePrefix + p + FilenameSuffix
  }

  /** Reads the postcode back out of a report file name. */
  function PostcodeOfFilename(f: string): (p: Option<string>)
  {
    var n := |FilenamePrefix|;
    var m := |FilenameSuffix|;
    if |f| >= n + m && f[..n] == FilenamePrefix && f[|f| - m..] == FilenameSuffix
    then Some(f[n..|f| - m])
    else None
  }

  /** The file name determines the postcode: distinct postcodes get
      distinct files. */
  lemma FilenameRoundTrip(p: string)
    ensures PostcodeOfFilename(OutputFilename(p)) == Some(p)
  {
    var f := OutputFilename(p);
    assert f[..|FilenamePrefix|] == FilenamePrefix;
    assert f[|f| - |FilenameSuffix|..] == FilenameSuffix;
    assert f[|FilenamePrefix|..|f| - |FilenameSuffix|] == p;
  }

  const HeadingPrefix: string := "# Postcode Summary for "

  /** The file body: a heading naming the postcode, a blank line, the
      summary, and a closing newline. */
  function ReportBody(p: string, summary: string): (body: string)
  {
    HeadingPrefix + p + "\n\n" + summary + "\n"
  }

  /** Reads the summary back out of a report body written for p. */
  function SummaryOfBody(p: string, body: string): (summary: Option<string>)
  {
    var head := HeadingPrefix + p + "\n\n";
    if |body| > |head| && body[..|head|] == head && body[|body| - 1] == '\n'
    then Some(body[|head|..|body| - 1])
    else None
  }

  /** The body starts with the heading and keeps the summary verbatim. */
  lemma ReportBodyRoundTrip(p: string, summary: string)
    ensures SummaryOfBody(p, ReportBody(p, summary)) == Some(summary)
  {
    var head := HeadingPrefix + p + "\n\n";
    var body := ReportBody(p, summary);
    assert body == head + summary + "\n";
    assert body[..|head|] == head;
    assert body[|head|..|body| - 1] == summary;
  }
}
