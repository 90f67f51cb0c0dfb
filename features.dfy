/**
  What `AsmFormatter._find_features` gathers in its one pass over a file:
  the comment-only lines (`commentLines`), the code lines (`codeLines`) and
  the global comment column (`globalLineLen`). The functions here are the
  specification that the imperative scan in module Formatter is proved to
  compute.
 */
module Features {
  import opened Text
  import opened Classifier

  /** Line `i` is recorded in `commentLines` exactly when it is a comment-only line. */
  lemma {:induction false} InCommentLines(lines: seq<string>, i: int)
    ensures i in CommentLinesOf(lines) <==> 0 <= i < |lines| && NoCodeComment(lines[i])
    ensures i in CommentLinesOf(lines) ==> CommentLinesOf(lines)[i] == lines[i]
  {
    InCommentLinesUpTo(lines, |lines|, i);
  }

  /** Line `i` is recorded in `codeLines` exactly when it is a code line. */
  lemma {:induction false} InCodeLines(lines: seq<string>, i: int)
    ensures i in CodeLinesOf(lines) <==> 0 <= i < |lines| && IsCodeLine(lines[i])
    ensures i in CodeLinesOf(lines) ==> CodeLinesOf(lines)[i] == lines[i]
  {
    InCodeLinesUpTo(lines, |lines|, i);
  }

  /** After `n` lines, `commentLines` holds exactly the comment-only lines among them. */
  lemma {:induction false} InCommentLinesUpTo(lines: seq<string>, n: nat, i: int)
    requires n <= |lines|
    ensures i in CommentLinesUpTo(lines, n) <==> 0 <= i < n && NoCodeComment(lines[i])
    ensures i in CommentLinesUpTo(lines, n) ==> CommentLinesUpTo(lines, n)[i] == lines[i]
  {
    InLinesWhere(lines, n, NoCodeComment, i);
  }

  /** After `n` lines, `codeLines` holds exactly the code lines among them. */
  lemma {:induction false} InCodeLinesUpTo(lines: seq<string>, n: nat, i: int)
    requires n <= |lines|
    ensures i in CodeLinesUpTo(lines, n) <==> 0 <= i < n && IsCodeLine(lines[i])
    ensures i in CodeLinesUpTo(lines, n) ==> CodeLinesUpTo(lines, n)[i] == lines[i]
  {
    InLinesWhere(lines, n, IsCodeLine, i);
  }

  /** The lines among the first `n` that satisfy `keep`, keyed by their index. */
  function LinesWhere(lines: seq<string>, n: nat, keep: string -> bool): map<int, string>
    requires n <= |lines|
  {
    if n == 0 then map[]
    else if keep(lines[n - 1]) then LinesWhere(lines, n - 1, keep)[n - 1 := lines[n - 1]]
    else LinesWhere(lines, n - 1, keep)
  }

  /** LinesWhere records line `i` exactly when it is among the first `n` and satisfies `keep`. */
  lemma {:induction false} InLinesWhere(lines: seq<string>, n: nat, keep: string -> bool, i: int)
    requires n <= |lines|
    ensures i in LinesWhere(lines, n, keep) <==> 0 <= i < n && keep(lines[i])
    ensures i in LinesWhere(lines, n, keep) ==> LinesWhere(lines, n, keep)[i] == lines[i]
  {
    if n > 0 {
      InLinesWhere(lines, n - 1, keep, i);
    }
  }

  /** A line the scan records in `codeLines`: it matches regex 39 or regex 41. */
  predicate IsCodeLine(line: string) {
    CodeNoComment(line) || CodeAndComment(line)
  }

  /** `commentLines` after the scan has seen the first `n` lines. */
  function CommentLinesUpTo(lines: seq<string>, n: nat): map<int, string>
    requires n <= |lines|
  {
    LinesWhere(lines, n, NoCodeComment)
  }

  /** `codeLines` after the scan has seen the first `n` lines. */
  function CodeLinesUpTo(lines: seq<string>, n: nat): map<int, string>
    requires n <= |lines|
  {
    LinesWhere(lines, n, IsCodeLine)
  }

  function CommentLinesOf(lines: seq<string>): map<int, string> {
    CommentLinesUpTo(lines, |lines|)
  }

  function CodeLinesOf(lines: seq<string>): map<int, string> {
    CodeLinesUpTo(lines, |lines|)
  }

  /**
    The code length the scan computes for one line: the right-stripped line
    for code without a comment, the right-stripped text before the first ';'
    for code with a comment, and 0 for any other line.
   */
  function CodeLength(line: string): (r: nat)
    ensures r <= |line|
    ensures !IsCodeLine(line) ==> r == 0
    ensures CodeAndComment(line) ==> r <= Find(line, ';')
  {
    var length := if CodeNoComment(line) then |RStrip(line)| else 0;
    if CodeAndComment(line) then |RStrip(line[..Find(line, ';')])| else length
  }

  /** The longest code length among the first `n` lines, or 0 (the running maximum of the scan). */
  function LongestCode(lines: seq<string>, n: nat): nat
    requires n <= |lines|
  {
    if n == 0 then 0 else Max(LongestCode(lines, n - 1), CodeLength(lines[n - 1]))
  }

  /** The largest `size` of the first `n` lines, or 0. */
  function Longest(size: string -> nat, lines: seq<string>, n: nat): nat
    requires n <= |lines|
  {
    if n == 0 then 0 else Max(Longest(size, lines, n - 1), size(lines[n - 1]))
  }

  lemma {:induction false} LongestIsMax(size: string -> nat, lines: seq<string>, n: nat)
    requires n <= |lines|
    ensures forall i | 0 <= i < n :: size(lines[i]) <= Longest(size, lines, n)
    ensures Longest(size, lines, n) == 0 || exists j | 0 <= j < n :: size(lines[j]) == Longest(size, lines, n)
  {
    if n > 0 {
      LongestIsMax(size, lines, n - 1);
    }
  }

  lemma {:induction false} LongestCodeIsLongest(lines: seq<string>, n: nat)
    requires n <= |lines|
    ensures LongestCode(lines, n) == Longest(CodeLength, lines, n)
  {
    if n > 0 {
      LongestCodeIsLongest(lines, n - 1);
    }
  }

  /** The running maximum bounds the code length of every line it has seen and is one of them, or is 0. */
  lemma {:induction false} LongestCodeIsMax(lines: seq<string>, n: nat)
    requires n <= |lines|
    ensures forall i | 0 <= i < n :: CodeLength(lines[i]) <= LongestCode(lines, n)
    ensures LongestCode(lines, n) == 0 || exists j | 0 <= j < n :: CodeLength(lines[j]) == LongestCode(lines, n)
  {
    LongestCodeIsLongest(lines, n);
    LongestIsMax(CodeLength, lines, n);
  }

  /** `globalLineLen` at the end of the scan: one column past the longest code. */
  function GlobalLineLen(lines: seq<string>): nat {
    LongestCode(lines, |lines|) + 1
  }

  /**
    `globalLineLen` is one more than the longest code of any code line, and
    it is 1 when the file has no code line.
   */
  lemma {:induction false} GlobalLineLenIsOnePastLongestCode(lines: seq<string>)
    ensures forall i | 0 <= i < |lines| && IsCodeLine(lines[i]) :: CodeLength(lines[i]) < GlobalLineLen(lines)
    ensures (forall i | 0 <= i < |lines| :: !IsCodeLine(lines[i])) ==> GlobalLineLen(lines) == 1
    ensures (exists i | 0 <= i < |lines| :: IsCodeLine(lines[i])) ==>
              exists j | 0 <= j < |lines| :: IsCodeLine(lines[j]) && GlobalLineLen(lines) == CodeLength(lines[j]) + 1
  {
    LongestCodeIsMax(lines, |lines|);
    var m := LongestCode(lines, |lines|);
    if m > 0 {
      var j :| 0 <= j < |lines| && CodeLength(lines[j]) == m;
      assert IsCodeLine(lines[j]);
    } else if exists i | 0 <= i < |lines| :: IsCodeLine(lines[i]) {
      var i :| 0 <= i < |lines| && IsCodeLine(lines[i]);
      assert CodeLength(lines[i]) == 0;
    }
  }

  /** Every comment-only line and every code line is recorded, and no line is recorded as both. */
  lemma {:induction false} FeatureSetsPartition(lines: seq<string>)
    ensures CommentLinesOf(lines).Keys == set i | 0 <= i < |lines| && NoCodeComment(lines[i])
    ensures CodeLinesOf(lines).Keys == set i | 0 <= i < |lines| && IsCodeLine(lines[i])
    ensures CommentLinesOf(lines).Keys !! CodeLinesOf(lines).Keys
    ensures forall i | i in CommentLinesOf(lines) :: CommentLinesOf(lines)[i] == lines[i]
    ensures forall i | i in CodeLinesOf(lines) :: CodeLinesOf(lines)[i] == lines[i]
  {
    forall i ensures i in CommentLinesOf(lines) <==> 0 <= i < |lines| && NoCodeComment(lines[i])
             ensures i in CodeLinesOf(lines) <==> 0 <= i < |lines| && IsCodeLine(lines[i])
             ensures i in CommentLinesOf(lines) ==> CommentLinesOf(lines)[i] == lines[i]
             ensures i in CodeLinesOf(lines) ==> CodeLinesOf(lines)[i] == lines[i]
    {
      InCommentLines(lines, i);
      InCodeLines(lines, i);
    }
    forall i | 0 <= i < |lines| ensures !(NoCodeComment(lines[i]) && IsCodeLine(lines[i])) {
      KindsDisjoint(lines[i]);
    }
  }
}
