/** The verdict of the two judge stages (`evaluation_agent`, app.py line 97, and
    `feedback_agent`, line 136): the judge's answer approves exactly when its lower-cased
    text contains "yes" anywhere. Anything else, the empty answer included, rejects. */
module Judge {
  import opened Text

  /** Lower-casing of one character. Only 'A'..'Z' change; see README for why this loses
      nothing for the "yes" test. */
  function LowerChar(c: char): char {
    if 'A' <= c <= 'Z' then (c as int + 32) as char else c
  }

  /** Python's `s.lower()`, character by character. */
  function Lower(s: string): (r: string)
    ensures |r| == |s|
    ensures forall i :: 0 <= i < |s| ==> r[i] == LowerChar(s[i])
  {
    seq(|s|, i requires 0 <= i < |s| => LowerChar(s[i]))
  }

  /** `"yes" in output.lower()`. */
  predicate Approves(output: string) {
    IsSubstring("yes", Lower(output))
  }

  /** The letters y, e, s, each in either case, start at position `i` of `s`. */
  predicate YesAt(s: string, i: int) {
    && 0 <= i && i + 3 <= |s|
    && (s[i] == 'y' || s[i] == 'Y')
    && (s[i + 1] == 'e' || s[i + 1] == 'E')
    && (s[i + 2] == 's' || s[i + 2] == 'S')
  }

  lemma LowerCharIs(c: char, l: char)
    requires 'a' <= l <= 'z'
    ensures LowerChar(c) == l <==> c == l || c as int == l as int - 32
  {
  }

  lemma ApprovalHasYes(s: string)
    requires Approves(s)
    ensures exists i :: YesAt(s, i)
  {
    var low := Lower(s);
    var i :| 0 <= i <= |low| && "yes" <= low[i..];
    assert low[i] == 'y' && low[i + 1] == 'e' && low[i + 2] == 's';
    LowerCharIs(s[i], 'y');
    LowerCharIs(s[i + 1], 'e');
    LowerCharIs(s[i + 2], 's');
    assert YesAt(s, i);
  }

  lemma YesApproves(s: string, i: int)
    requires YesAt(s, i)
    ensures Approves(s)
  {
    var low := Lower(s);
    assert low[i..][..3] == "yes";
    assert "yes" <= low[i..];
  }

  /** A verdict approves exactly when the answer spells "yes", in any mix of cases, at some
      position. */
  lemma ApprovesIffYesAt(s: string)
    ensures Approves(s) <==> exists i :: YesAt(s, i)
  {
    if Approves(s) {
      ApprovalHasYes(s);
    }
    if exists i :: YesAt(s, i) {
      var i :| YesAt(s, i);
      YesApproves(s, i);
    }
  }

  lemma LowerIdempotent(s: string)
    ensures Lower(Lower(s)) == Lower(s)
  {
  }

  /** The verdict ignores case: lower-casing the answer first changes nothing. */
  lemma ApprovesIgnoresCase(s: string)
    ensures Approves(Lower(s)) <==> Approves(s)
  {
    LowerIdempotent(s);
  }

  /** The verdict is monotone: an answer that contains an approving answer approves. */
  lemma ApprovesMonotone(s: string, t: string)
    requires IsSubstring(s, t) && Approves(s)
    ensures Approves(t)
  {
    ApprovesIffYesAt(s);
    ApprovesIffYesAt(t);
    var i :| YesAt(s, i);
    var j :| 0 <= j <= |t| && s <= t[j..];
    assert t[j + i] == s[i] && t[j + i + 1] == s[i + 1] && t[j + i + 2] == s[i + 2];
    assert YesAt(t, j + i);
  }

  /** An answer without any letter y cannot approve. */
  lemma NoYRejects(s: string)
    requires forall i :: 0 <= i < |s| ==> s[i] != 'y' && s[i] != 'Y'
    ensures !Approves(s)
  {
    ApprovesIffYesAt(s);
  }

  lemma ApprovesYes()
    ensures Approves("Yes") && Approves("YES")
  {
    YesApproves("Yes", 0);
    YesApproves("YES", 0);
  }

  lemma ApprovesSufficient()
    ensures Approves("yes, it is sufficient")
  {
    YesApproves("yes, it is sufficient", 0);
  }

  lemma ApprovesEyes()
    ensures Approves("The eyes have it")
  {
    YesApproves("The eyes have it", 5);
  }

  /** "Yes", "YES" and "yes, it is sufficient" approve; so does "The eyes have it", because
      the test is a plain substring test with no word boundaries. */
  lemma ApprovingExamples()
    ensures Approves("Yes") && Approves("YES") && Approves("yes, it is sufficient")
    ensures Approves("The eyes have it")
  {
    ApprovesYes();
    ApprovesSufficient();
    ApprovesEyes();
  }

  /** The empty answer and "No, it needs more work" reject. */
  lemma RejectingExamples()
    ensures !Approves("")
    ensures !Approves("No, it needs more work")
  {
    NoYRejects("");
    NoYRejects("No, it needs more work");
  }
}
