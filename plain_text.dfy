/** The whitespace collapse at the end of html_to_plain_text: the text that
    BeautifulSoup's get_text() extracted is split into lines, each line is
    stripped and cut at every two-space run, the pieces are stripped, empty
    ones dropped, and the rest joined with single spaces. */
module PlainText {
  import opened Text

  /** Index of the first line break, or |s| when there is none. */
  function FirstBreak(s: string): (i: nat)
    ensures i <= |s| && (i < |s| ==> IsLineBreak(s[i]))
    ensures forall j :: 0 <= j < i ==> !IsLineBreak(s[j])
  {
    if s == [] || IsLineBreak(s[0]) then 0 else 1 + FirstBreak(s[1..])
  }

  /** str.splitlines(): "\r\n" is one break, a trailing break opens no
      further line, and "" has no lines. No line holds a break. */
  function SplitLines(s: string): (lines: seq<string>)
    ensures forall k :: 0 <= k < |lines| ==> NoBreaks(lines[k])
    decreases |s|
  {
    if s == [] then []
    else
      var i := FirstBreak(s);
      if i == |s| then [s]
      else
        [s[..i]] + SplitLines(s[NextLine(s, i)..])
  }

  /** "" has no lines. */
  lemma SplitLinesEmpty()
    ensures SplitLines("") == []
  {
  }

  /** The first break is found wherever it is. */
  lemma {:induction false} FirstBreakIs(s: string, i: nat)
    requires i <= |s| && (i < |s| ==> IsLineBreak(s[i]))
    requires forall j :: 0 <= j < i ==> !IsLineBreak(s[j])
    ensures FirstBreak(s) == i
  {
    if i > 0 {
      FirstBreakIs(s[1..], i - 1);
    }
  }

  /** Text without a break is one line. */
  lemma SplitLinesSingle(a: string)
    requires a != [] && NoBreaks(a)
    ensures SplitLines(a) == [a]
  {
    FirstBreakIs(a, |a|);
  }

  /** A single break character ends the line before it; the rest is split
      on its own. A '\r' directly followed by '\n' is the exception. */
  lemma SplitLinesBreak(a: string, c: char, b: string)
    requires NoBreaks(a) && IsLineBreak(c)
    requires !(c == '\r' && b != [] && b[0] == '\n')
    ensures SplitLines(a + [c] + b) == [a] + SplitLines(b)
  {
    var s := a + [c] + b;
    assert s[|a|] == c && s[..|a|] == a && s[|a| + 1..] == b;
    assert forall j :: 0 <= j < |a| ==> s[j] == a[j];
    FirstBreakIs(s, |a|);
    assert NextLine(s, |a|) == |a| + 1;
  }

  /** "\r\n" is one break: it ends the line before it and opens no empty
      line. */
  lemma SplitLinesCrLf(a: string, b: string)
    requires NoBreaks(a)
    ensures SplitLines(a + "\r\n" + b) == [a] + SplitLines(b)
  {
    var s := a + "\r\n" + b;
    assert s[|a|] == '\r' && s[|a| + 1] == '\n' && s[..|a|] == a && s[|a| + 2..] == b;
    assert forall j :: 0 <= j < |a| ==> s[j] == a[j];
    FirstBreakIs(s, |a|);
    assert NextLine(s, |a|) == |a| + 2;
  }

  /** Index where the leftmost "  " starts, or |s| when there is none. */
  function FirstDoubleSpace(s: string): (i: nat)
    ensures i <= |s| && (i < |s| ==> DoubleSpaceAt(s, i))
    ensures forall j :: 0 <= j < i ==> !DoubleSpaceAt(s, j)
  {
    if |s| < 2 then |s|
    else if s[0] == ' ' && s[1] == ' ' then 0
    else
      var i := FirstDoubleSpace(s[1..]);
      assert forall j :: 0 <= j < 1 + i ==> !DoubleSpaceAt(s, j) by {
        forall j | 0 <= j < 1 + i ensures !DoubleSpaceAt(s, j) {
          if j > 0 { assert !DoubleSpaceAt(s[1..], j - 1); }
        }
      }
      1 + i
  }

  /** str.split("  "): cut left to right at non-overlapping occurrences of
      the two-space separator. Joining the pieces back gives the input, and
      no piece holds two consecutive spaces. */
  function SplitDoubleSpace(s: string): (pieces: seq<string>)
    ensures |pieces| >= 1
    ensures JoinWith(pieces, "  ") == s
    ensures forall k :: 0 <= k < |pieces| ==> NoDoubleSpace(pieces[k])
    ensures NoBreaks(s) ==> forall k :: 0 <= k < |pieces| ==> NoBreaks(pieces[k])
    decreases |s|
  {
    var i := FirstDoubleSpace(s);
    if i == |s| then [s]
    else
      var rest := SplitDoubleSpace(s[i + 2..]);
      assert s == s[..i] + "  " + s[i + 2..];
      assert forall j :: 0 <= j < i ==> !DoubleSpaceAt(s[..i], j) by {
        forall j | 0 <= j < i ensures !DoubleSpaceAt(s[..i], j) {
          assert !DoubleSpaceAt(s, j);
        }
      }
      [s[..i]] + rest
  }

  /** The first "  " is found wherever it is. */
  lemma {:induction false} FirstDoubleSpaceIs(s: string, i: nat)
    requires i <= |s| && (i < |s| ==> DoubleSpaceAt(s, i))
    requires forall j :: 0 <= j < i ==> !DoubleSpaceAt(s, j)
    ensures FirstDoubleSpace(s) == i
  {
    if i > 0 && |s| >= 2 {
      forall j | 0 <= j < i - 1
        ensures !DoubleSpaceAt(s[1..], j)
      {
        assert !DoubleSpaceAt(s, j + 1);
      }
      FirstDoubleSpaceIs(s[1..], i - 1);
    }
  }

  /** Text without a double space is a single piece. */
  lemma SplitDoubleSpaceNone(s: string)
    requires NoDoubleSpace(s)
    ensures SplitDoubleSpace(s) == [s]
  {
    FirstDoubleSpaceIs(s, |s|);
  }

  /** The cut is made at the leftmost "  ": the piece before it holds no
      double space and does not end in ' ', and the rest is split on its
      own. */
  lemma SplitDoubleSpaceFirst(a: string, b: string)
    requires NoDoubleSpace(a) && (a == [] || a[|a| - 1] != ' ')
    ensures SplitDoubleSpace(a + "  " + b) == [a] + SplitDoubleSpace(b)
  {
    var s := a + "  " + b;
    assert s[..|a|] == a && s[|a| + 2..] == b;
    assert s[|a|] == ' ' && s[|a| + 1] == ' ';
    forall j | 0 <= j < |a|
      ensures !DoubleSpaceAt(s, j)
    {
      if j + 1 < |a| {
        assert !DoubleSpaceAt(a, j);
      }
    }
    FirstDoubleSpaceIs(s, |a|);
  }

  /** Three spaces are cut at the first two: "a   b" gives "a" and " b". */
  lemma SplitThreeSpaces()
    ensures SplitDoubleSpace("a   b") == ["a", " b"]
  {
    assert "a   b" == "a" + "  " + " b";
    SplitDoubleSpaceFirst("a", " b");
    SplitDoubleSpaceNone(" b");
  }

  /** A chunk that survives the filter: non-empty, on one line, stripped,
      and free of double spaces. */
  predicate Clean(c: string)
  {
    c != [] && NoBreaks(c) && NoDoubleSpace(c) && Trimmed(c)
  }

  predicate AllClean(cs: seq<string>)
  {
    forall k :: 0 <= k < |cs| ==> Clean(cs[k])
  }

  /** Strip every piece and keep the non-empty results, in order. */
  function Phrases(pieces: seq<string>): (chunks: seq<string>)
    ensures (forall k :: 0 <= k < |pieces| ==> NoBreaks(pieces[k]) && NoDoubleSpace(pieces[k])) ==>
      AllClean(chunks)
  {
    if pieces == [] then []
    else
      var c := Strip(pieces[0]);
      (if c == [] then [] else [c]) + Phrases(pieces[1..])
  }

  /** The chunks one line contributes. */
  function LineChunks(line: string): (chunks: seq<string>)
    ensures NoBreaks(line) ==> AllClean(chunks)
  {
    Phrases(SplitDoubleSpace(Strip(line)))
  }

  /** The chunks of all lines, in order. */
  function Chunks(lines: seq<string>): (chunks: seq<string>)
    ensures (forall k :: 0 <= k < |lines| ==> NoBreaks(lines[k])) ==> AllClean(chunks)
  {
    if lines == [] then [] else LineChunks(lines[0]) + Chunks(lines[1..])
  }

  /** The shape of the collapsed text: one line, no double spaces, and no
      whitespace at either end. */
  predicate Collapsed(r: string)
  {
    NoBreaks(r) && NoDoubleSpace(r) && Trimmed(r)
  }

  /** html_to_plain_text from get_text() on, including its final strip. */
  function Collapse(text: string): (r: string)
    ensures Collapsed(r)
  {
    var chunks := Chunks(SplitLines(text));
    JoinClean(chunks);
    Strip(JoinWith(chunks, " "))
  }

  lemma ConcatNoDoubleSpace(a: string, b: string)
    requires NoDoubleSpace(a) && NoDoubleSpace(b)
    requires a == [] || b == [] || a[|a| - 1] != ' ' || b[0] != ' '
    ensures NoDoubleSpace(a + b)
  {
    forall i | 0 <= i < |a + b| ensures !DoubleSpaceAt(a + b, i) {
      if i + 1 < |a| {
        assert !DoubleSpaceAt(a, i);
      } else if i >= |a| {
        assert !DoubleSpaceAt(b, i - |a|);
      }
    }
  }

  /** Clean chunks joined by single spaces form collapsed text, starting with
      the first chunk's first character and ending with the last chunk's
      last character. */
  lemma {:induction false} JoinClean(cs: seq<string>)
    requires AllClean(cs)
    ensures var r := JoinWith(cs, " ");
      NoBreaks(r) && NoDoubleSpace(r) &&
      (cs == [] <==> r == []) &&
      (cs != [] ==> r[0] == cs[0][0] && r[|r| - 1] == cs[|cs| - 1][|cs[|cs| - 1]| - 1])
  {
    if |cs| >= 2 {
      var rest := JoinWith(cs[1..], " ");
      JoinClean(cs[1..]);
      var c := cs[0];
      assert c[|c| - 1] != ' ' by { assert Clean(c); }
      ConcatNoDoubleSpace(c, " ");
      ConcatNoDoubleSpace(c + " ", rest);
      assert JoinWith(cs, " ") == c + " " + rest;
    }
  }

  /** The final strip of html_to_plain_text never changes anything: the
      joined chunks are already stripped. */
  lemma FinalStripIsNoop(text: string)
    ensures Collapse(text) == JoinWith(Chunks(SplitLines(text)), " ")
  {
    var chunks := Chunks(SplitLines(text));
    JoinClean(chunks);
    var joined := JoinWith(chunks, " ");
    if chunks != [] {
      assert Clean(chunks[0]) && Clean(chunks[|chunks| - 1]);
    }
    StripTrimmed(joined);
  }

  // --- The collapse deletes whitespace and nothing else ---

  /** Where the next line starts after the break at i. */
  function NextLine(s: string, i: nat): (next: nat)
    requires i < |s| && IsLineBreak(s[i])
    ensures i < next <= |s|
    ensures forall j :: i <= j < next ==> IsLineBreak(s[j])
  {
    if s[i] == '\r' && i + 1 < |s| && s[i + 1] == '\n' then i + 2 else i + 1
  }

  lemma {:induction false} LinesVisible(s: string)
    ensures VisibleAll(SplitLines(s)) == Visible(s)
    decreases |s|
  {
    if s != [] {
      var i := FirstBreak(s);
      if i == |s| {
        SingleLine(s);
      } else {
        var next := NextLine(s, i);
        SplitLinesStep(s);
        LinesVisible(s[next..]);
        BreakVisible(s, i, next);
      }
    }
  }

  lemma SingleLine(s: string)
    requires s != [] && FirstBreak(s) == |s|
    ensures VisibleAll(SplitLines(s)) == Visible(s)
  {
    assert SplitLines(s) == [s];
    assert VisibleAll([s]) == Visible(s) + VisibleAll([]);
  }

  lemma SplitLinesStep(s: string)
    requires s != [] && FirstBreak(s) < |s|
    ensures var i := FirstBreak(s);
      VisibleAll(SplitLines(s)) == Visible(s[..i]) + VisibleAll(SplitLines(s[NextLine(s, i)..]))
  {
  }

  /** Cutting out a line break loses no visible character. */
  lemma BreakVisible(s: string, i: nat, next: nat)
    requires i < next <= |s|
    requires forall j :: i <= j < next ==> IsLineBreak(s[j])
    ensures Visible(s) == Visible(s[..i]) + Visible(s[next..])
  {
    forall j | 0 <= j < next - i ensures IsSpace(s[i..next][j]) {
      assert s[i..next][j] == s[i + j];
    }
    VisibleDrop(s, i, next);
  }

  lemma {:induction false} PhrasesVisible(pieces: seq<string>)
    ensures VisibleAll(Phrases(pieces)) == VisibleAll(pieces)
  {
    if pieces != [] {
      var c := Strip(pieces[0]);
      PhrasesVisible(pieces[1..]);
      StripVisible(pieces[0]);
      VisibleAllConcat(if c == [] then [] else [c], Phrases(pieces[1..]));
      if c != [] {
        assert [c][1..] == [];
      }
    }
  }

  lemma LineChunksVisible(line: string)
    ensures VisibleAll(LineChunks(line)) == Visible(line)
  {
    var stripped := Strip(line);
    var pieces := SplitDoubleSpace(stripped);
    PhrasesVisible(pieces);
    PiecesVisible(pieces, stripped);
    StripVisible(line);
  }

  /** Cutting at double spaces loses no visible character. */
  lemma PiecesVisible(pieces: seq<string>, s: string)
    requires JoinWith(pieces, "  ") == s
    ensures VisibleAll(pieces) == Visible(s)
  {
    assert AllSpace("  ");
    VisibleJoin(pieces, "  ");
  }

  lemma {:induction false} ChunksVisible(lines: seq<string>)
    ensures VisibleAll(Chunks(lines)) == VisibleAll(lines)
  {
    if lines != [] {
      ChunksVisible(lines[1..]);
      LineChunksVisible(lines[0]);
      VisibleAllConcat(LineChunks(lines[0]), Chunks(lines[1..]));
    }
  }

  /** The collapse only deletes whitespace: the input's non-whitespace
      characters appear in the output, in the same order, and no others. */
  lemma CollapseKeepsVisible(text: string)
    ensures Visible(Collapse(text)) == Visible(text)
  {
    var chunks := Chunks(SplitLines(text));
    StripVisible(JoinWith(chunks, " "));
    VisibleJoin(chunks, " ");
    ChunksVisible(SplitLines(text));
    LinesVisible(text);
  }

  /** The collapse gives "" exactly when its input is empty or all
      whitespace. */
  lemma CollapseEmpty(text: string)
    ensures Collapse(text) == "" <==> AllSpace(text)
  {
    var r := Collapse(text);
    CollapseKeepsVisible(text);
    VisibleEmpty(text);
    VisibleEmpty(r);
  }

  // --- Collapsed text is exactly the collapse's fixed points ---

  lemma CollapseFixesCollapsed(y: string)
    requires Collapsed(y)
    ensures Collapse(y) == y
  {
    if y != [] {
      SplitLinesSingle(y);
      LineChunksCollapsed(y);
      assert Chunks([y]) == [y] + Chunks([]);
      StripTrimmed(y);
    }
  }

  /** Text equals its own collapse exactly when it has the collapsed shape. */
  lemma CollapseFixedPoints(y: string)
    ensures Collapse(y) == y <==> Collapsed(y)
  {
    if Collapsed(y) {
      CollapseFixesCollapsed(y);
    }
  }

  /** A collapsed line contributes itself as its only chunk. */
  lemma LineChunksCollapsed(a: string)
    requires Collapsed(a) && a != []
    ensures LineChunks(a) == [a]
  {
    StripTrimmed(a);
    SplitDoubleSpaceNone(a);
    assert Phrases([a]) == [a] + Phrases([]);
  }

  /** Two collapsed texts on consecutive lines come out separated by a
      single space. */
  lemma CollapseJoinsLines(a: string, b: string)
    requires Collapsed(a) && Collapsed(b) && a != [] && b != []
    ensures Collapse(a + "\n" + b) == a + " " + b
  {
    SplitLinesBreak(a, '\n', b);
    SplitLinesSingle(b);
    var lines := SplitLines(a + "\n" + b);
    assert lines == [a, b];
    LineChunksCollapsed(a);
    LineChunksCollapsed(b);
    assert Chunks(lines) == LineChunks(a) + Chunks([b]);
    assert Chunks([b]) == LineChunks(b) + Chunks([]);
    assert Chunks(lines) == [a, b];
    FinalStripIsNoop(a + "\n" + b);
    assert JoinWith([a, b], " ") == a + " " + JoinWith([b], " ");
  }

  /** Collapsing twice is collapsing once. */
  lemma CollapseIdempotent(text: string)
    ensures Collapse(Collapse(text)) == Collapse(text)
  {
    CollapseFixesCollapsed(Collapse(text));
  }
}
