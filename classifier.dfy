/**
  The five regular expressions with which AsmFormatter classifies a line,
  each written out as a predicate on the line's characters. A line is the
  text of one file line as Python's file iteration yields it, so it may end
  in one '\n'. `^` anchors at the start of the line only, `.` matches any
  character but '\n', and `$` matches at the end or before a final '\n'.
 */
module Classifier {
  import opened Text

  /** `^((?!;).)*$`: the line holds no ';' (a code line without a comment, or a blank line). */
  predicate CodeNoComment(line: string) {
    ';' !in line && '\n' !in Body(line)
  }

  /**
    `^\s*\w+.*;`: after the leading whitespace comes a word character, and a
    ';' follows it before any newline (code with a trailing comment).
   */
  predicate CodeAndComment(line: string)
    ensures CodeAndComment(line) ==> ';' in line
  {
    var k := SpaceEnd(line, 0);
    k < |line| && IsWordChar(line[k]) &&
    var semi := FindFrom(line, ';', k + 1);
    var nl := FindFrom(line, '\n', k + 1);
    semi != -1 && (nl == -1 || semi < nl)
  }

  /** `^\s*;`: only whitespace comes before the first ';' (a comment-only line). */
  predicate NoCodeComment(line: string)
    ensures NoCodeComment(line) ==> |line| > 0 && ';' in line && Find(line, ';') == SpaceEnd(line, 0)
  {
    var k := SpaceEnd(line, 0);
    k < |line| && line[k] == ';'
  }

  /** `^\s*;-*;`: whitespace, ';', a possibly empty run of '-', then ';' (a comment border). */
  predicate CommentBorder(line: string) {
    var k := SpaceEnd(line, 0);
    k < |line| && line[k] == ';' &&
    var e := DashEnd(line, k + 1);
    e < |line| && line[e] == ';'
  }

  /** `^([ \t]*)`: the leading spaces and tabs, the signature by which lines are grouped. */
  function LeadingWhiteSpace(line: string): (r: string)
    ensures |r| <= |line| && r == line[..|r|]
    ensures forall i | 0 <= i < |r| :: IsSpaceOrTab(r[i])
    ensures |r| < |line| ==> !IsSpaceOrTab(line[|r|])
  {
    line[..BlankEnd(line, 0)]
  }

  /** A border line is a comment-only line. */
  lemma {:induction false} BorderIsComment(line: string)
    requires CommentBorder(line)
    ensures NoCodeComment(line)
  {
  }

  /** No line is in two of the three kinds that the feature scan records. */
  lemma {:induction false} KindsDisjoint(line: string)
    ensures !(NoCodeComment(line) && CodeNoComment(line))
    ensures !(NoCodeComment(line) && CodeAndComment(line))
    ensures !(CodeNoComment(line) && CodeAndComment(line))
  {
  }

  /** A word-led line with a ';' and no newline before its end matches `^\s*\w+.*;`. */
  lemma {:induction false} WordLedComment(line: string)
    requires OnlyFinalNewline(line) && ';' in line
    requires SpaceEnd(line, 0) < |line| && IsWordChar(line[SpaceEnd(line, 0)])
    ensures CodeAndComment(line)
  {
    var k := SpaceEnd(line, 0);
    var j := Find(line, ';');
    assert j > k by { assert !IsSpace(line[j]); }
  }

  /**
    The lines the scan records in neither set, for a line whose only newline
    is a final one: they hold a ';', and the first character after the
    leading whitespace is neither ';' nor a word character (`[hl] ; x`).
   */
  lemma {:induction false} UnclassifiedLine(line: string)
    requires OnlyFinalNewline(line)
    ensures (!CodeNoComment(line) && !CodeAndComment(line) && !NoCodeComment(line)) <==>
            (';' in line &&
             var k := SpaceEnd(line, 0);
             k < |line| && line[k] != ';' && !IsWordChar(line[k]))
  {
    var k := SpaceEnd(line, 0);
    BodyHasNoNewline(line);
    if ';' in line {
      assert k < |line| by {
        var j := Find(line, ';');
        assert !IsSpace(line[j]);
      }
      if IsWordChar(line[k]) {
        WordLedComment(line);
      }
    }
  }

  /**
    Whether a line is comment-only, and its leading whitespace, depend only
    on the line up to its first ';': a line that agrees with a comment-only
    line that far is comment-only with the same leading whitespace.
   */
  lemma {:induction false} SamePrefixSameShape(a: string, b: string)
    requires NoCodeComment(a) && Find(a, ';') < |b|
    requires forall j | 0 <= j <= Find(a, ';') :: b[j] == a[j]
    ensures NoCodeComment(b)
    ensures LeadingWhiteSpace(b) == LeadingWhiteSpace(a)
  {
    var i := Find(a, ';');
    SpaceEndUnique(b, 0, i);
    var n := |LeadingWhiteSpace(a)|;
    assert n <= i by {
      assert !IsSpaceOrTab(a[i]);
    }
    BlankEndUnique(b, 0, n);
  }
}
