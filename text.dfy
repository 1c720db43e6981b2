/** Python string primitives the script relies on: the whitespace classes of
    str.isspace and str.splitlines, str.strip, and str.join. */
module Text {

  /** Python's str.isspace(): the characters str.strip() removes. */
  predicate IsSpace(c: char)
  {
    c == ' ' || ('\t' <= c <= '\r') || ('\U{1C}' <= c <= '\U{1F}') ||
    c == '\U{85}' || c == '\U{A0}' || c == '\U{1680}' ||
    ('\U{2000}' <= c <= '\U{200A}') || c == '\U{2028}' || c == '\U{2029}' ||
    c == '\U{202F}' || c == '\U{205F}' || c == '\U{3000}'
  }

  /** The characters at which str.splitlines() breaks a string. */
  predicate IsLineBreak(c: char)
  {
    ('\n' <= c <= '\r') || ('\U{1C}' <= c <= '\U{1E}') ||
    c == '\U{85}' || c == '\U{2028}' || c == '\U{2029}'
  }

  predicate NoBreaks(s: string)
  {
    forall i :: 0 <= i < |s| ==> !IsLineBreak(s[i])
  }

  predicate DoubleSpaceAt(s: string, i: int)
  {
    0 <= i && i + 1 < |s| && s[i] == ' ' && s[i + 1] == ' '
  }

  /** The string holds no two consecutive ' ' characters. */
  predicate NoDoubleSpace(s: string)
  {
    forall i :: 0 <= i < |s| ==> !DoubleSpaceAt(s, i)
  }

  /** Neither the first nor the last character is whitespace. */
  predicate Trimmed(s: string)
  {
    s == [] || (!IsSpace(s[0]) && !IsSpace(s[|s| - 1]))
  }

  predicate AllSpace(s: string)
  {
    forall i :: 0 <= i < |s| ==> IsSpace(s[i])
  }

  /** Where str.lstrip() cuts: the number of leading whitespace characters. */
  function StripStart(s: string): (a: nat)
    ensures a <= |s| && (a < |s| ==> !IsSpace(s[a]))
    ensures forall i :: 0 <= i < a ==> IsSpace(s[i])
  {
    if s != [] && IsSpace(s[0]) then 1 + StripStart(s[1..]) else 0
  }

  /** Where str.rstrip() cuts: everything from here on is whitespace. */
  function StripEnd(s: string): (b: nat)
    ensures b <= |s| && (b > 0 ==> !IsSpace(s[b - 1]))
    ensures forall i :: b <= i < |s| ==> IsSpace(s[i])
  {
    if s != [] && IsSpace(s[|s| - 1]) then StripEnd(s[..|s| - 1]) else |s|
  }

  /** str.strip(): the input with its leading and trailing whitespace cut
      off and nothing else changed. What it keeps is a slice of its input, so
      the slice-stable facts NoBreaks and NoDoubleSpace carry over. */
  function Strip(s: string): (r: string)
    ensures var a := StripStart(s);
      a + |r| <= |s| && r == s[a..a + |r|] && AllSpace(s[..a]) && AllSpace(s[a + |r|..])
    ensures Trimmed(r)
    ensures r == [] <==> AllSpace(s)
    ensures NoBreaks(s) ==> NoBreaks(r)
    ensures NoDoubleSpace(s) ==> NoDoubleSpace(r)
  {
    var a, b := StripStart(s), StripEnd(s);
    StripCutsSpace(s);
    if a < b then SliceKeeps(s, a, b); s[a..b] else []
  }

  lemma SliceKeeps(s: string, a: nat, b: nat)
    requires a <= b <= |s|
    ensures NoBreaks(s) ==> NoBreaks(s[a..b])
    ensures NoDoubleSpace(s) ==> NoDoubleSpace(s[a..b])
  {
    if NoDoubleSpace(s) {
      forall i | 0 <= i < b - a ensures !DoubleSpaceAt(s[a..b], i) {
        assert !DoubleSpaceAt(s, a + i);
      }
    }
  }

  /** A string that is already stripped is left unchanged by Strip. */
  lemma StripTrimmed(s: string)
    requires Trimmed(s)
    ensures Strip(s) == s
  {
  }

  /** str.join: parts separated by sep. */
  function JoinWith(parts: seq<string>, sep: string): string
  {
    if |parts| == 0 then ""
    else if |parts| == 1 then parts[0]
    else parts[0] + sep + JoinWith(parts[1..], sep)
  }

  /** The non-whitespace characters of s, in order. */
  function Visible(s: string): (r: string)
    ensures |r| <= |s|
    ensures forall i :: 0 <= i < |r| ==> !IsSpace(r[i])
  {
    if s == [] then []
    else (if IsSpace(s[0]) then [] else [s[0]]) + Visible(s[1..])
  }

  /** The non-whitespace characters of several strings, in order. */
  function VisibleAll(parts: seq<string>): string
  {
    if parts == [] then [] else Visible(parts[0]) + VisibleAll(parts[1..])
  }

  lemma {:induction false} VisibleConcat(a: string, b: string)
    ensures Visible(a + b) == Visible(a) + Visible(b)
  {
    if a != [] {
      assert (a + b)[0] == a[0];
      assert (a + b)[1..] == a[1..] + b;
      VisibleConcat(a[1..], b);
    } else {
      assert a + b == b;
    }
  }

  /** A string has no visible character exactly when it is all whitespace. */
  lemma {:induction false} VisibleEmpty(s: string)
    ensures Visible(s) == [] <==> AllSpace(s)
  {
    if s != [] {
      VisibleEmpty(s[1..]);
      if AllSpace(s) {
        assert AllSpace(s[1..]);
      }
      if IsSpace(s[0]) && AllSpace(s[1..]) {
        forall i | 0 <= i < |s| ensures IsSpace(s[i]) {
          if i > 0 { assert s[i] == s[1..][i - 1]; }
        }
      }
    }
  }

  lemma Cut3(s: string, i: nat, j: nat)
    requires i <= j <= |s|
    ensures s == s[..i] + s[i..j] + s[j..]
  {
  }

  /** Stripping removes whitespace only. */
  lemma StripVisible(s: string)
    ensures Visible(Strip(s)) == Visible(s)
  {
    var a, b := StripStart(s), StripEnd(s);
    if a < b {
      StripCutsSpace(s);
      VisibleInside(s, a, b);
    } else {
      VisibleEmpty(s);
    }
  }

  /** Dropping whitespace from both ends keeps every visible character. */
  lemma VisibleInside(s: string, a: nat, b: nat)
    requires a <= b <= |s|
    requires AllSpace(s[..a]) && AllSpace(s[b..])
    ensures Visible(s) == Visible(s[a..b])
  {
    Cut3(s, a, b);
    VisibleConcat(s[..a] + s[a..b], s[b..]);
    VisibleConcat(s[..a], s[a..b]);
    VisibleEmpty(s[..a]);
    VisibleEmpty(s[b..]);
  }

  /** Cutting whitespace out of the middle keeps every visible character. */
  lemma VisibleDrop(s: string, i: nat, j: nat)
    requires i <= j <= |s|
    requires AllSpace(s[i..j])
    ensures Visible(s) == Visible(s[..i]) + Visible(s[j..])
  {
    Cut3(s, i, j);
    VisibleConcat(s[..i] + s[i..j], s[j..]);
    VisibleConcat(s[..i], s[i..j]);
    VisibleEmpty(s[i..j]);
  }

  /** What Strip cuts off at either end is whitespace. */
  lemma StripCutsSpace(s: string)
    ensures AllSpace(s[..StripStart(s)]) && AllSpace(s[StripEnd(s)..])
  {
    var a, b := StripStart(s), StripEnd(s);
    forall i | 0 <= i < a ensures IsSpace(s[..a][i]) {
      assert s[..a][i] == s[i];
    }
    forall i | 0 <= i < |s| - b ensures IsSpace(s[b..][i]) {
      assert s[b..][i] == s[b + i];
    }
  }

  lemma {:induction false} VisibleAllConcat(a: seq<string>, b: seq<string>)
    ensures VisibleAll(a + b) == VisibleAll(a) + VisibleAll(b)
  {
    if a != [] {
      assert (a + b)[0] == a[0];
      assert (a + b)[1..] == a[1..] + b;
      VisibleAllConcat(a[1..], b);
    } else {
      assert a + b == b;
    }
  }

  /** Joining with an all-whitespace separator adds no visible character. */
  lemma {:induction false} VisibleJoin(parts: seq<string>, sep: string)
    requires AllSpace(sep)
    ensures Visible(JoinWith(parts, sep)) == VisibleAll(parts)
  {
    if |parts| == 1 {
      assert parts[1..] == [];
    } else if |parts| > 1 {
      VisibleJoin(parts[1..], sep);
      VisibleConcat(parts[0] + sep, JoinWith(parts[1..], sep));
      VisibleConcat(parts[0], sep);
      VisibleEmpty(sep);
    }
  }
}
