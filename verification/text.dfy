/** Character classes and the string primitives the plan parser is built from:
    Python's `str.strip`, `str.strip(chars)` and `str.splitlines`, on `seq<char>`.
    The whitespace and line-break sets are the ones Python 3 uses for `str`. */
module Text {

  /** Python's `str.isspace` for one character, which is the set `str.strip()` removes. */
  predicate IsWhitespace(c: char) {
    var n := c as int;
    || (0x09 <= n <= 0x0D)
    || (0x1C <= n <= 0x20)
    || n == 0x85 || n == 0xA0 || n == 0x1680
    || (0x2000 <= n <= 0x200A)
    || n == 0x2028 || n == 0x2029 || n == 0x202F || n == 0x205F || n == 0x3000
  }

  /** The characters `str.splitlines` breaks at (`"\r\n"` is handled as one break in SplitLines). */
  predicate IsLineBreak(c: char) {
    var n := c as int;
    || (0x0A <= n <= 0x0D)
    || (0x1C <= n <= 0x1E)
    || n == 0x85 || n == 0x2028 || n == 0x2029
  }

  predicate IsLineContent(c: char) {
    !IsLineBreak(c)
  }

  /** The character set `"- "` handed to `strip` by the plan parser. */
  predicate IsBulletMark(c: char) {
    c == '-' || c == ' '
  }

  /** Every character of `s` satisfies `P`. */
  predicate All(s: string, P: char -> bool) {
    forall i :: 0 <= i < |s| ==> P(s[i])
  }

  /** A line is blank when `line.strip()` is empty, i.e. it is whitespace only. */
  predicate IsBlank(s: string) {
    All(s, IsWhitespace)
  }

  /** No whitespace at either end: what `str.strip()` guarantees. */
  predicate IsTrimmed(s: string) {
    s == [] || (!IsWhitespace(s[0]) && !IsWhitespace(s[|s| - 1]))
  }

  /** Python's `sub in s` for strings. */
  predicate IsSubstring(sub: string, s: string) {
    exists i :: 0 <= i <= |s| && sub <= s[i..]
  }

  /** Length of the longest prefix of `s` made of characters satisfying `P`. */
  function LeadingRun(s: string, P: char -> bool): (n: nat)
    ensures n <= |s|
    ensures forall i :: 0 <= i < n ==> P(s[i])
    ensures n < |s| ==> !P(s[n])
  {
    if |s| == 0 || !P(s[0]) then 0 else 1 + LeadingRun(s[1..], P)
  }

  /** Length of the longest suffix of `s` made of characters satisfying `P`. */
  function TrailingRun(s: string, P: char -> bool): (n: nat)
    ensures n <= |s|
    ensures forall i :: |s| - n <= i < |s| ==> P(s[i])
    ensures n < |s| ==> !P(s[|s| - n - 1])
  {
    if |s| == 0 || !P(s[|s| - 1]) then 0 else 1 + TrailingRun(s[..|s| - 1], P)
  }

  /** `s` with the maximal runs of `P`-characters removed from both ends:
      Python's `s.strip(chars)` with `P` the membership test of `chars`. */
  function Strip(s: string, P: char -> bool): (r: string)
    ensures r == [] || (!P(r[0]) && !P(r[|r| - 1]))
    ensures exists a, b :: s == a + r + b && All(a, P) && All(b, P)
    ensures IsSubstring(r, s)
  {
    var lead := LeadingRun(s, P);
    var rest := s[lead..];
    var r := rest[..|rest| - TrailingRun(rest, P)];
    assert s == s[..lead] + r + rest[|r|..];
    assert All(s[..lead], P);
    assert All(rest[|r|..], P);
    assert r <= s[lead..];
    r
  }

  /** Python's `s.strip()`. */
  function Trim(s: string): (r: string)
    ensures IsTrimmed(r)
    ensures exists a, b :: s == a + r + b && IsBlank(a) && IsBlank(b)
    ensures IsSubstring(r, s)
  {
    var r := Strip(s, IsWhitespace);
    BlankEnds(s, r);
    r
  }

  lemma BlankEnds(s: string, r: string)
    requires exists a, b :: s == a + r + b && All(a, IsWhitespace) && All(b, IsWhitespace)
    ensures exists a, b :: s == a + r + b && IsBlank(a) && IsBlank(b)
  {
    var a, b :| s == a + r + b && All(a, IsWhitespace) && All(b, IsWhitespace);
    assert IsBlank(a) && IsBlank(b);
  }

  /** A substring of a substring is a substring. */
  lemma SubstringTransitive(x: string, y: string, z: string)
    requires IsSubstring(x, y) && IsSubstring(y, z)
    ensures IsSubstring(x, z)
  {
    var i :| 0 <= i <= |y| && x <= y[i..];
    var j :| 0 <= j <= |z| && y <= z[j..];
    assert x <= z[j + i..];
  }

  lemma LeadingRunOfPrefix(x: string, y: string, P: char -> bool)
    requires All(x, P)
    requires |y| == 0 || !P(y[0])
    ensures LeadingRun(x + y, P) == |x|
  {
    assert forall i :: 0 <= i < |x| ==> (x + y)[i] == x[i];
    assert |y| > 0 ==> (x + y)[|x|] == y[0];
  }

  lemma TrailingRunOfSuffix(x: string, y: string, P: char -> bool)
    requires All(y, P)
    requires |x| == 0 || !P(x[|x| - 1])
    ensures TrailingRun(x + y, P) == |y|
  {
    assert forall i :: |x| <= i < |x| + |y| ==> (x + y)[i] == y[i - |x|];
    assert |x| > 0 ==> (x + y)[|x| - 1] == x[|x| - 1];
  }

  /** Stripping is unique: any way of writing `s` as boundary runs of `P` around a core
      that neither starts nor ends with a `P`-character gives exactly `Strip(s, P)`. */
  lemma StripIsUnique(s: string, P: char -> bool, a: string, core: string, b: string)
    requires s == a + core + b && All(a, P) && All(b, P)
    requires core == [] || (!P(core[0]) && !P(core[|core| - 1]))
    ensures Strip(s, P) == core
  {
    if core == [] {
      assert All(a + b, P) by {
        assert forall i :: |a| <= i < |a| + |b| ==> (a + b)[i] == b[i - |a|];
      }
      assert s == (a + b) + [];
      LeadingRunOfPrefix(a + b, [], P);
    } else {
      assert s == a + (core + b);
      LeadingRunOfPrefix(a, core + b, P);
      assert s[|a|..] == core + b;
      TrailingRunOfSuffix(core, b, P);
    }
  }

  /** A string that neither starts nor ends with a `P`-character is left alone. */
  lemma StripUnbounded(s: string, P: char -> bool)
    requires s == [] || (!P(s[0]) && !P(s[|s| - 1]))
    ensures Strip(s, P) == s
  {
    assert s == [] + s + [];
    StripIsUnique(s, P, [], s, []);
  }

  /** A leading run of `P`-characters in front of a core is removed. */
  lemma StripLeading(a: string, core: string, P: char -> bool)
    requires All(a, P)
    requires core == [] || (!P(core[0]) && !P(core[|core| - 1]))
    ensures Strip(a + core, P) == core
  {
    assert a + core == a + core + [];
    StripIsUnique(a + core, P, a, core, []);
  }

  /** Stripping twice changes nothing. */
  lemma StripIdempotent(s: string, P: char -> bool)
    ensures Strip(Strip(s, P), P) == Strip(s, P)
  {
    StripUnbounded(Strip(s, P), P);
  }

  /** A string with no whitespace at its ends is left alone by `strip()`. */
  lemma TrimOfTrimmed(s: string)
    requires IsTrimmed(s)
    ensures Trim(s) == s
  {
    StripUnbounded(s, IsWhitespace);
  }

  /** `s.strip(chars)` is empty exactly when every character of `s` is in `chars`. */
  lemma StripEmptyIffAll(s: string, P: char -> bool)
    ensures Strip(s, P) == [] <==> All(s, P)
  {
    var r := Strip(s, P);
    var a, b :| s == a + r + b && All(a, P) && All(b, P);
    if r == [] {
      assert forall i :: |a| <= i < |s| ==> s[i] == b[i - |a|];
      assert forall i :: 0 <= i < |a| ==> s[i] == a[i];
    }
    if All(s, P) {
      assert s == s + [] + [];
      StripIsUnique(s, P, s, [], []);
    }
  }

  /** `if line.strip()` keeps exactly the lines that are not blank. */
  lemma TrimEmptyIffBlank(s: string)
    ensures Trim(s) == [] <==> IsBlank(s)
  {
    StripEmptyIffAll(s, IsWhitespace);
  }

  /** Python's `s.splitlines()`: the lines of `s` without their terminators. A break is one
      IsLineBreak character, or the pair `"\r\n"`; a final terminator does not open an extra
      empty line, and the empty text has no lines. */
  function SplitLines(s: string): (lines: seq<string>)
    ensures |lines| == 0 <==> |s| == 0
    ensures forall k :: 0 <= k < |lines| ==> All(lines[k], IsLineContent)
    decreases |s|
  {
    if |s| == 0 then []
    else
      var k := LeadingRun(s, IsLineContent);
      if k == |s| then [s]
      else
        var width := if s[k] == '\r' && k + 1 < |s| && s[k + 1] == '\n' then 2 else 1;
        [s[..k]] + SplitLines(s[k + width..])
  }

  /** The text that puts each line on its own `"\n"`-terminated row. */
  function JoinLines(lines: seq<string>): string {
    if |lines| == 0 then [] else lines[0] + "\n" + JoinLines(lines[1..])
  }

  /** A non-empty text without line breaks is a single line. */
  lemma SplitOneLine(l: string)
    requires |l| > 0 && All(l, IsLineContent)
    ensures SplitLines(l) == [l]
  {
    assert l == l + [];
    LeadingRunOfPrefix(l, [], IsLineContent);
  }

  /** Two break-free lines joined by one `"\n"` split back into those two lines. */
  lemma SplitTwoLines(l1: string, l2: string)
    requires All(l1, IsLineContent) && All(l2, IsLineContent) && |l2| > 0
    ensures SplitLines(l1 + "\n" + l2) == [l1, l2]
  {
    var text := l1 + "\n" + l2;
    assert text == l1 + ("\n" + l2);
    LeadingRunOfPrefix(l1, "\n" + l2, IsLineContent);
    assert text[|l1|] == '\n' && text[..|l1|] == l1 && text[|l1| + 1..] == l2;
    assert l2 == l2 + [];
    LeadingRunOfPrefix(l2, [], IsLineContent);
  }

  /** Splitting undoes joining, for lines that hold no line break themselves. */
  lemma {:induction false} SplitLinesJoinLines(lines: seq<string>)
    requires forall k :: 0 <= k < |lines| ==> All(lines[k], IsLineContent)
    ensures SplitLines(JoinLines(lines)) == lines
  {
    if |lines| > 0 {
      var head, rest := lines[0], JoinLines(lines[1..]);
      var s := JoinLines(lines);
      assert s == head + ("\n" + rest);
      LeadingRunOfPrefix(head, "\n" + rest, IsLineContent);
      assert s[|head|] == '\n';
      assert s[..|head|] == head;
      assert s[|head| + 1..] == rest;
      SplitLinesJoinLines(lines[1..]);
      assert lines == [head] + lines[1..];
    }
  }

  /** The first line of a text ends at its first line break; a single break character
      (anything but a `'\r'` directly followed by `'\n'`) is dropped and splitting goes on
      after it. A break at the very end opens no further line. */
  lemma SplitLinesAtBreak(l: string, br: char, rest: string)
    requires All(l, IsLineContent) && IsLineBreak(br)
    requires !(br == '\r' && |rest| > 0 && rest[0] == '\n')
    ensures SplitLines(l + [br] + rest) == [l] + SplitLines(rest)
  {
    var s := l + [br] + rest;
    assert s == l + ([br] + rest);
    LeadingRunOfPrefix(l, [br] + rest, IsLineContent);
    assert s[|l|] == br && s[..|l|] == l && s[|l| + 1..] == rest;
  }

  /** The pair `"\r\n"` is one break: both characters are dropped together. */
  lemma SplitLinesAtCrLf(l: string, rest: string)
    requires All(l, IsLineContent)
    ensures SplitLines(l + "\r\n" + rest) == [l] + SplitLines(rest)
  {
    var s := l + "\r\n" + rest;
    assert s == l + ("\r\n" + rest);
    LeadingRunOfPrefix(l, "\r\n" + rest, IsLineContent);
    assert s[|l|] == '\r' && s[|l| + 1] == '\n';
    assert s[..|l|] == l && s[|l| + 2..] == rest;
  }

  /** A suffix of a text occurs in it. */
  lemma SuffixIsSubstring(s: string, j: nat)
    requires j <= |s|
    ensures IsSubstring(s[j..], s)
  {
    assert s[j..] <= s[j..];
  }

  /** Every line of `lines` occurs inside `s`. */
  ghost predicate LinesIn(lines: seq<string>, s: string) {
    forall k :: 0 <= k < |lines| ==> IsSubstring(lines[k], s)
  }

  lemma LinesInWiden(lines: seq<string>, rest: string, s: string)
    requires LinesIn(lines, rest) && IsSubstring(rest, s)
    ensures LinesIn(lines, s)
  {
    forall k | 0 <= k < |lines| ensures IsSubstring(lines[k], s) {
      SubstringTransitive(lines[k], rest, s);
    }
  }

  lemma LinesInCons(line: string, lines: seq<string>, s: string)
    requires IsSubstring(line, s) && LinesIn(lines, s)
    ensures LinesIn([line] + lines, s)
  {
    forall k | 0 <= k < |lines| + 1 ensures IsSubstring(([line] + lines)[k], s) {
      if k > 0 {
        assert ([line] + lines)[k] == lines[k - 1];
      }
    }
  }

  /** One step of `SplitLines`: the first line, then the lines after its break. */
  lemma SplitLinesUnfold(s: string, n: nat, width: nat)
    requires n == LeadingRun(s, IsLineContent) && n < |s|
    requires width == if s[n] == '\r' && n + 1 < |s| && s[n + 1] == '\n' then 2 else 1
    ensures SplitLines(s) == [s[..n]] + SplitLines(s[n + width..])
  {
  }

  /** Every line of a text occurs, unchanged, inside that text. */
  lemma {:induction false} SplitLinesInText(s: string)
    ensures LinesIn(SplitLines(s), s)
    decreases |s|
  {
    if |s| > 0 {
      var n := LeadingRun(s, IsLineContent);
      assert IsSubstring(s[..n], s) by { assert s[..n] <= s[0..]; }
      if n < |s| {
        var width := if s[n] == '\r' && n + 1 < |s| && s[n + 1] == '\n' then 2 else 1;
        var rest := s[n + width..];
        SplitLinesUnfold(s, n, width);
        SplitLinesInText(rest);
        SuffixIsSubstring(s, n + width);
        LinesInWiden(SplitLines(rest), rest, s);
        LinesInCons(s[..n], SplitLines(rest), s);
      } else {
        assert s[..n] == s;
        assert SplitLines(s) == [s];
      }
    }
  }
}
