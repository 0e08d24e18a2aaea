/** The planner's parsing step (app.py line 36): the raw text returned by the planning
    stage becomes the list of questions. The text is split into lines; every line that is
    not whitespace only is kept; a kept line loses its bullet marks (dashes and spaces) at
    both ends and then its whitespace at both ends.
    The blank-line filter looks at the line before any bullet marks are stripped, so a
    line such as "- -" passes the filter and yields an empty question. */
module Planner {
  import opened Text
  import opened Comprehension

  /** A character either strip of a kept line may remove: a bullet mark or whitespace. */
  predicate IsMarkOrSpace(c: char) {
    IsBulletMark(c) || IsWhitespace(c)
  }

  /** One kept line turned into a question: bullet marks (`-` and space) stripped from
      both ends, then whitespace stripped. What is left has no whitespace at either end
      and is the line with only bullet marks and whitespace cut from its two ends. */
  function Question(line: string): (q: string)
    ensures IsTrimmed(q)
    ensures exists a, b :: line == a + q + b && All(a, IsMarkOrSpace) && All(b, IsMarkOrSpace)
    ensures IsSubstring(q, line)
  {
    var unbulleted := Strip(line, IsBulletMark);
    var q := Trim(unbulleted);
    SubstringTransitive(q, unbulleted, line);
    StripThenTrim(line, unbulleted, q);
    q
  }

  /** Cutting bullet marks from the ends of `line` and then whitespace from the ends of the
      result cuts only bullet marks and whitespace from the ends of `line`. */
  lemma StripThenTrim(line: string, unbulleted: string, q: string)
    requires exists a, b :: line == a + unbulleted + b && All(a, IsBulletMark) && All(b, IsBulletMark)
    requires exists c, d :: unbulleted == c + q + d && IsBlank(c) && IsBlank(d)
    ensures exists a, b :: line == a + q + b && All(a, IsMarkOrSpace) && All(b, IsMarkOrSpace)
  {
    var a, b :| line == a + unbulleted + b && All(a, IsBulletMark) && All(b, IsBulletMark);
    var c, d :| unbulleted == c + q + d && IsBlank(c) && IsBlank(d);
    Regroup(a, c, q, d, b);
    MarksThenSpaces(a, c);
    SpacesThenMarks(d, b);
  }

  lemma Regroup(a: string, c: string, q: string, d: string, b: string)
    ensures a + (c + q + d) + b == (a + c) + q + (d + b)
  {
  }

  lemma MarksThenSpaces(a: string, c: string)
    requires All(a, IsBulletMark) && IsBlank(c)
    ensures All(a + c, IsMarkOrSpace)
  {
    forall i | 0 <= i < |a + c| ensures IsMarkOrSpace((a + c)[i]) {
      if i < |a| {
        assert (a + c)[i] == a[i];
      } else {
        assert (a + c)[i] == c[i - |a|];
      }
    }
  }

  lemma SpacesThenMarks(d: string, b: string)
    requires IsBlank(d) && All(b, IsBulletMark)
    ensures All(d + b, IsMarkOrSpace)
  {
    forall i | 0 <= i < |d + b| ensures IsMarkOrSpace((d + b)[i]) {
      if i < |d| {
        assert (d + b)[i] == d[i];
      } else {
        assert (d + b)[i] == b[i - |d|];
      }
    }
  }

  /** The comprehension's filter `if line.strip()`: the line is not blank. */
  predicate IsKept(line: string) {
    !IsBlank(line)
  }

  /** The comprehension over the lines, in line order. */
  function ParseLines(lines: seq<string>): seq<string> {
    Select(lines, IsKept, Question)
  }

  /** `planner_agent`'s result for the planning stage's output `text`. */
  function ParsePlan(text: string): seq<string> {
    ParseLines(SplitLines(text))
  }

  /** Parsing yields exactly one question per line that is not blank, in line order: the
      k-th question is the question of the k-th non-blank line, and every non-blank line
      is among those. Blank lines yield nothing. */
  lemma ParseLinesSelectsNonBlank(lines: seq<string>)
    ensures ImagesAt(ParseLines(lines), lines, Question, KeptIndices(lines, IsKept, 0))
    ensures forall i :: 0 <= i < |lines| && !IsBlank(lines[i]) ==> i in KeptIndices(lines, IsKept, 0)
  {
    SelectPicksKept(lines, IsKept, Question);
    forall i | 0 <= i < |lines| && !IsBlank(lines[i])
      ensures i in KeptIndices(lines, IsKept, 0)
    {
      KeptIndicesComplete(lines, IsKept, 0, i);
    }
  }

  /** Parsing distributes over concatenation of line lists, so questions keep line order. */
  lemma ParseLinesAppend(xs: seq<string>, ys: seq<string>)
    ensures ParseLines(xs + ys) == ParseLines(xs) + ParseLines(ys)
  {
    SelectAppend(xs, ys, IsKept, Question);
  }

  /** No question at all exactly when every line is blank. */
  lemma ParseLinesEmptyIffAllBlank(lines: seq<string>)
    ensures ParseLines(lines) == [] <==> forall k :: 0 <= k < |lines| ==> IsBlank(lines[k])
  {
    SelectEmptyIffNoneKept(lines, IsKept, Question);
  }

  /** A list of one line yields that line's question, or nothing when the line is blank. */
  lemma ParseOneLine(line: string)
    ensures ParseLines([line]) == if IsBlank(line) then [] else [Question(line)]
  {
    assert [line][1..] == [];
  }

  /** `q` occurs inside some non-blank line of `lines`. */
  predicate OccursInNonBlankLine(q: string, lines: seq<string>) {
    exists i :: 0 <= i < |lines| && !IsBlank(lines[i]) && IsSubstring(q, lines[i])
  }

  /** Every parsed question comes from a non-blank line of the text: it has no surrounding
      whitespace, and it occurs inside that line. */
  lemma ParsePlanQuestionsComeFromLines(text: string)
    ensures forall k :: 0 <= k < |ParsePlan(text)| ==>
              IsTrimmed(ParsePlan(text)[k]) && OccursInNonBlankLine(ParsePlan(text)[k], SplitLines(text))
  {
    var lines, qs := SplitLines(text), ParsePlan(text);
    ParseLinesSelectsNonBlank(lines);
    var idx := KeptIndices(lines, IsKept, 0);
    forall k | 0 <= k < |qs|
      ensures IsTrimmed(qs[k]) && OccursInNonBlankLine(qs[k], lines)
    {
      var i := idx[k];
      assert qs[k] == Question(lines[i]);
      assert IsSubstring(qs[k], lines[i]);
    }
  }

  /** Every parsed question occurs, unchanged, inside the planner's answer. */
  lemma ParsePlanQuestionsOccurInText(text: string)
    ensures forall k :: 0 <= k < |ParsePlan(text)| ==> IsSubstring(ParsePlan(text)[k], text)
  {
    var lines, qs := SplitLines(text), ParsePlan(text);
    ParsePlanQuestionsComeFromLines(text);
    SplitLinesInText(text);
    forall k | 0 <= k < |qs| ensures IsSubstring(qs[k], text) {
      var i :| 0 <= i < |lines| && !IsBlank(lines[i]) && IsSubstring(qs[k], lines[i]);
      SubstringTransitive(qs[k], lines[i], text);
    }
  }

  /** The planner's answer is parsed line by line: the first line's question (if the line
      is not blank) comes first, then the questions of the text after its line break. */
  lemma ParsePlanAtBreak(l: string, br: char, rest: string)
    requires All(l, IsLineContent) && IsLineBreak(br)
    requires !(br == '\r' && |rest| > 0 && rest[0] == '\n')
    ensures ParsePlan(l + [br] + rest)
         == (if IsBlank(l) then [] else [Question(l)]) + ParsePlan(rest)
  {
    SplitLinesAtBreak(l, br, rest);
    ParseLinesAppend([l], SplitLines(rest));
    ParseOneLine(l);
  }

  /** The same for a line ended by the pair `"\r\n"`. */
  lemma ParsePlanAtCrLf(l: string, rest: string)
    requires All(l, IsLineContent)
    ensures ParsePlan(l + "\r\n" + rest)
         == (if IsBlank(l) then [] else [Question(l)]) + ParsePlan(rest)
  {
    SplitLinesAtCrLf(l, rest);
    ParseLinesAppend([l], SplitLines(rest));
    ParseOneLine(l);
  }

  /** A non-blank line made only of bullet marks survives the filter as an empty question. */
  lemma BulletOnlyLineGivesEmptyQuestion(line: string)
    requires !IsBlank(line) && All(line, IsBulletMark)
    ensures ParseLines([line]) == [""]
  {
    StripEmptyIffAll(line, IsBulletMark);
    StripEmptyIffAll([], IsWhitespace);
    ParseOneLine(line);
  }

  /** A bullet item "- q" parses to q when q has no bullet marks or whitespace at its ends. */
  lemma BulletedQuestion(q: string)
    requires |q| > 0 && IsTrimmed(q) && !IsBulletMark(q[0]) && !IsBulletMark(q[|q| - 1])
    ensures !IsBlank("- " + q)
    ensures Question("- " + q) == q
  {
    var line := "- " + q;
    assert line[2] == q[0];
    StripBullet(q);
    TrimOfTrimmed(q);
  }

  lemma StripBullet(q: string)
    requires |q| > 0 && !IsBulletMark(q[0]) && !IsBulletMark(q[|q| - 1])
    ensures Strip("- " + q, IsBulletMark) == q
  {
    StripLeading("- ", q, IsBulletMark);
  }

  lemma BulletLineIsOneLine(q: string)
    requires All(q, IsLineContent)
    ensures All("- " + q, IsLineContent)
  {
    var line := "- " + q;
    assert forall i :: 2 <= i < |line| ==> line[i] == q[i - 2];
  }

  lemma BulletLineParses(q: string)
    requires |q| > 0 && IsTrimmed(q) && !IsBulletMark(q[0]) && !IsBulletMark(q[|q| - 1])
    ensures ParseLines(["- " + q]) == [q]
  {
    BulletedQuestion(q);
    ParseOneLine("- " + q);
  }

  /** A plan of two bullet items, one per line, parses to the two items without bullets. */
  lemma TwoBulletedQuestions(q1: string, q2: string)
    requires |q1| > 0 && IsTrimmed(q1) && !IsBulletMark(q1[0]) && !IsBulletMark(q1[|q1| - 1])
    requires |q2| > 0 && IsTrimmed(q2) && !IsBulletMark(q2[0]) && !IsBulletMark(q2[|q2| - 1])
    requires All(q1, IsLineContent) && All(q2, IsLineContent)
    ensures ParsePlan("- " + q1 + "\n" + "- " + q2) == [q1, q2]
  {
    TwoBulletLinesSplit(q1, q2);
    TwoBulletLinesParse(q1, q2);
  }

  lemma TwoBulletLinesSplit(q1: string, q2: string)
    requires All(q1, IsLineContent) && All(q2, IsLineContent)
    ensures SplitLines("- " + q1 + "\n" + "- " + q2) == ["- " + q1, "- " + q2]
  {
    var l1, l2 := "- " + q1, "- " + q2;
    BulletLineIsOneLine(q1);
    BulletLineIsOneLine(q2);
    assert "- " + q1 + "\n" + "- " + q2 == l1 + "\n" + l2;
    SplitTwoLines(l1, l2);
  }

  lemma TwoBulletLinesParse(q1: string, q2: string)
    requires |q1| > 0 && IsTrimmed(q1) && !IsBulletMark(q1[0]) && !IsBulletMark(q1[|q1| - 1])
    requires |q2| > 0 && IsTrimmed(q2) && !IsBulletMark(q2[0]) && !IsBulletMark(q2[|q2| - 1])
    ensures ParseLines(["- " + q1, "- " + q2]) == [q1, q2]
  {
    var l1, l2 := "- " + q1, "- " + q2;
    BulletLineParses(q1);
    BulletLineParses(q2);
    SelectPair(l1, l2, IsKept, Question);
  }

  /** Two questions a planner answer might list. */
  const FreeWillQuestion := "Is free will compatible with determinism?"
  const RealismQuestion := "Does moral realism hold?"

  lemma FreeWillQuestionIsOneLine()
    ensures All(FreeWillQuestion, IsLineContent)
  {
  }

  lemma RealismQuestionIsOneLine()
    ensures All(RealismQuestion, IsLineContent)
  {
  }

  /** The example plan "- Is free will compatible with determinism?\n- Does moral realism
      hold?" parses to exactly its two questions, without the "- " bullets. */
  lemma TwoQuestionExample()
    ensures ParsePlan("- " + FreeWillQuestion + "\n" + "- " + RealismQuestion)
         == [FreeWillQuestion, RealismQuestion]
  {
    FreeWillQuestionIsOneLine();
    RealismQuestionIsOneLine();
    TwoBulletedQuestions(FreeWillQuestion, RealismQuestion);
  }

  /** A text of one non-blank line yields that line's question. */
  lemma ParseSingleLine(line: string)
    requires |line| > 0 && All(line, IsLineContent) && !IsBlank(line)
    ensures ParsePlan(line) == [Question(line)]
  {
    SplitOneLine(line);
    ParseOneLine(line);
  }

  lemma TabLineIsOneLine(q: string)
    requires |q| > 0 && IsTrimmed(q) && All(q, IsLineContent)
    ensures All("\t" + q, IsLineContent) && !IsBlank("\t" + q)
  {
    var line := "\t" + q;
    assert forall i :: 1 <= i < |line| ==> line[i] == q[i - 1];
    assert !IsWhitespace(line[1]);
  }

  lemma TabLineKeepsBullets(q: string)
    requires |q| > 0 && !IsBulletMark(q[|q| - 1])
    ensures Strip("\t" + q, IsBulletMark) == "\t" + q
  {
    var line := "\t" + q;
    assert line[|line| - 1] == q[|q| - 1];
    StripUnbounded(line, IsBulletMark);
  }

  lemma TabLineTrimsToItem(q: string)
    requires IsTrimmed(q)
    ensures Trim("\t" + q) == q
  {
    assert All("\t", IsWhitespace) by { assert IsWhitespace("\t"[0]); }
    StripLeading("\t", q, IsWhitespace);
  }

  /** A tab before a bullet item shields the bullet: the bullet strip stops at the tab and
      the whitespace strip then removes only the tab, so the item keeps its bullet. This
      holds for a line anywhere in the answer. */
  lemma TabLineShieldsBullet(q: string)
    requires |q| > 0 && IsTrimmed(q) && !IsBulletMark(q[|q| - 1]) && All(q, IsLineContent)
    ensures ParseLines(["\t" + q]) == [q]
  {
    TabLineIsOneLine(q);
    TabLineKeepsBullets(q);
    TabLineTrimsToItem(q);
    ParseOneLine("\t" + q);
  }

  /** The same in a whole answer: the answer itself comes back stripped, so a tab can only
      open a later line, such as the one after a first line `l`. */
  lemma TabShieldsBullet(l: string, q: string)
    requires All(l, IsLineContent)
    requires |q| > 0 && IsTrimmed(q) && !IsBulletMark(q[|q| - 1]) && All(q, IsLineContent)
    ensures ParsePlan(l + "\n\t" + q) == (if IsBlank(l) then [] else [Question(l)]) + [q]
  {
    assert l + "\n\t" + q == l + ['\n'] + ("\t" + q);
    ParsePlanAtBreak(l, '\n', "\t" + q);
    TabLineIsOneLine(q);
    TabLineKeepsBullets(q);
    TabLineTrimsToItem(q);
    ParseSingleLine("\t" + q);
  }

  lemma BlankSlices(text: string, j: nat)
    requires IsBlank(text) && j <= |text|
    ensures IsBlank(text[..j]) && IsBlank(text[j..])
  {
    assert forall i :: 0 <= i < |text| - j ==> text[j..][i] == text[j + i];
  }

  /** A text that is whitespace only, line breaks included, yields no questions. */
  lemma {:induction false} BlankTextHasNoQuestions(text: string)
    requires IsBlank(text)
    ensures ParsePlan(text) == []
    decreases |text|
  {
    if |text| > 0 {
      var k := LeadingRun(text, IsLineContent);
      BlankSlices(text, k);
      if k < |text| {
        var width := if text[k] == '\r' && k + 1 < |text| && text[k + 1] == '\n' then 2 else 1;
        var rest := text[k + width..];
        BlankSlices(text, k + width);
        assert SplitLines(text) == [text[..k]] + SplitLines(rest);
        BlankTextHasNoQuestions(rest);
        ParseOneLine(text[..k]);
        ParseLinesAppend([text[..k]], SplitLines(rest));
      } else {
        assert SplitLines(text) == [text];
        ParseOneLine(text);
      }
    }
  }

  /** The blank-line test runs before the bullet strip: "- -" is kept as the empty question. */
  lemma DashLineExample()
    ensures ParsePlan("- -") == [""]
  {
    assert !IsBlank("- -") && All("- -", IsBulletMark) by {
      assert !IsWhitespace("- -"[0]);
    }
    SplitOneLine("- -");
    BulletOnlyLineGivesEmptyQuestion("- -");
  }

  /** A line "\t- foo" after a first line keeps its bullet: the answer parses to "a" and "- foo". */
  lemma TabLineExample()
    ensures ParsePlan("a\n\t- foo") == ["a", "- foo"]
  {
    var l, q := "a", "- foo";
    assert "a\n\t- foo" == l + "\n\t" + q;
    PlainItem(l);
    DashFooItem(q);
    TabLineAfterPlainLine(l, q);
    assert [l, q] == ["a", "- foo"];
  }

  lemma TabLineAfterPlainLine(l: string, q: string)
    requires |l| > 0 && IsTrimmed(l) && !IsBulletMark(l[0]) && !IsBulletMark(l[|l| - 1])
    requires All(l, IsLineContent) && !IsBlank(l)
    requires |q| > 0 && IsTrimmed(q) && !IsBulletMark(q[|q| - 1]) && All(q, IsLineContent)
    ensures ParsePlan(l + "\n\t" + q) == [l, q]
  {
    assert [l] + [q] == [l, q];
    TabShieldsBullet(l, q);
    PlainLineQuestions(l);
  }

  lemma PlainLineQuestions(l: string)
    requires |l| > 0 && IsTrimmed(l) && !IsBulletMark(l[0]) && !IsBulletMark(l[|l| - 1])
    requires !IsBlank(l)
    ensures (if IsBlank(l) then [] else [Question(l)]) == [l]
  {
    PlainQuestion(l);
  }

  lemma PlainItem(l: string)
    requires l == "a"
    ensures All(l, IsLineContent) && !IsBlank(l)
    ensures |l| > 0 && IsTrimmed(l) && !IsBulletMark(l[0]) && !IsBulletMark(l[|l| - 1])
  {
    assert l[0] == 'a';
  }

  /** A line with no bullet mark or whitespace at either end is its own question. */
  lemma PlainQuestion(l: string)
    requires |l| > 0 && IsTrimmed(l) && !IsBulletMark(l[0]) && !IsBulletMark(l[|l| - 1])
    ensures Question(l) == l
  {
    StripUnbounded(l, IsBulletMark);
    TrimOfTrimmed(l);
  }

  lemma DashFooItem(q: string)
    requires q == "- foo"
    ensures |q| > 0 && IsTrimmed(q) && !IsBulletMark(q[|q| - 1]) && All(q, IsLineContent)
  {
  }

  /** Whitespace-only plans, including the empty one, give no questions. */
  lemma BlankPlanExample()
    ensures ParsePlan("") == []
    ensures ParsePlan(" \n\t\r\n") == []
  {
    BlankTextHasNoQuestions(" \n\t\r\n");
  }
}
