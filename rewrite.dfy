/**
  The per-line rewrites that `format_asm` applies: padding the code before a
  trailing comment (`pad_line_with_spaces`), closing a comment row with a ';'
  (`format_comment`), the two "already formatted" tests, the border string of
  a comment group, and the final-newline check.
 */
module Rewrite {
  import opened Text
  import opened Classifier
  import opened Groups

  /** The tab-stop that a code line's ';' is moved to: the global column or the group's one. */
  function Indent(g: CodeGroup, globalLineLen: int, globalIndent: bool): int {
    if globalIndent then globalLineLen else g.maxSemiColonIdx
  }

  /**
    `pad_line_with_spaces`: spaces are inserted before the first ';' until it
    stands at column `indent`; a ';' already at or right of it stays put.
    `line.index(';')` would raise on a line without ';', which no caller passes.
   */
  function PadLineWithSpaces(line: string, indent: int): (r: string)
    requires ';' in line
    ensures var i := Find(line, ';');
            && |r| == |line| + Max(0, indent - i)
            && r[..i] == line[..i]
            && r[|r| - (|line| - i)..] == line[i..]
            && (forall j | i <= j < i + Max(0, indent - i) :: r[j] == ' ')
            && Find(r, ';') == Max(i, indent)
            && (indent <= i ==> r == line)
  {
    var i := Find(line, ';');
    var code := line[..i];
    SpliceFacts(code, Repeat(' ', indent - |code|), line[i..], ';');
    code + Repeat(' ', indent - |code|) + line[i..]
  }

  /** Splicing `p` between `a` and `b`, where `c` occurs in neither `a` nor `p`. */
  lemma {:induction false} SpliceFacts(a: string, p: string, b: string, c: char)
    requires c !in a && c !in p
    ensures var r := a + p + b;
            && r[..|a|] == a
            && r[|r| - |b|..] == b
            && (forall j | |a| <= j < |a| + |p| :: r[j] == p[j - |a|])
            && Find(r, c) == if Find(b, c) == -1 then -1 else |a| + |p| + Find(b, c)
  {
    assert c !in a + p by {
      forall x | x in a + p ensures x != c {
        var k :| 0 <= k < |a + p| && (a + p)[k] == x;
        if k < |a| { assert a[k] == x; } else { assert p[k - |a|] == x; }
      }
    }
    FindAppend(a + p, b, c);
    assert a + p + b == (a + p) + b;
  }

  /**
    `format_comment`: the line without its final newline, padded with spaces
    and closed by ";\n". With or without a final newline the closing ';' ends
    up at column `length - 1`, unless the text is already longer.
   */
  function FormatComment(line: string, length: int): (r: string)
    requires |line| > 0
    ensures |r| == Max(length + 1, |Body(line)| + 2)
    ensures r[..|Body(line)|] == Body(line)
    ensures forall j | |Body(line)| <= j < |r| - 2 :: r[j] == ' '
    ensures r[|r| - 2..] == ";\n"
  {
    var linePortion := if line[|line| - 1] != '\n' then line else line[..|line| - 1];
    var offset := if line[|line| - 1] != '\n' then length - |line| - 1 else length - |line|;
    assert linePortion == Body(line) && offset == length - |linePortion| - 1;
    PaddedFacts(linePortion, offset);
    linePortion + Repeat(' ', offset) + ";\n"
  }

  /** `b`, then `n` spaces, then ";\n". */
  lemma {:induction false} PaddedFacts(b: string, n: int)
    ensures var r := b + Repeat(' ', n) + ";\n";
            && |r| == |b| + Max(n, 0) + 2
            && r[..|b|] == b
            && (forall j | |b| <= j < |r| - 2 :: r[j] == ' ')
            && r[|r| - 2..] == ";\n"
  {
    var pad := Repeat(' ', n);
    var r := b + pad + ";\n";
    assert forall j | |b| <= j < |r| - 2 :: r[j] == pad[j - |b|];
  }

  /**
    `is_comment_formatted`: the line holds a second ';' after its first one
    (also the escape a writer uses to keep a comment as written: ";;").
   */
  predicate IsCommentFormatted(line: string)
    ensures IsCommentFormatted(line) <==>
              exists i, j | 0 <= i < j < |line| :: line[i] == ';' && line[j] == ';'
  {
    var first := Find(line, ';');
    var second := FindFrom(line, ';', first + 1);
    assert second != -1 ==> first >= 0 && line[first] == ';' && line[second] == ';';
    second != -1
  }

  /** `is_code_formatted`: the first ';' is already at the tab-stop of the mode in use. */
  predicate IsCodeFormatted(line: string, g: CodeGroup, globalLineLen: int, globalIndent: bool) {
    var semi := Find(line, ';');
    if globalIndent then semi == globalLineLen else semi == g.maxSemiColonIdx
  }

  /** What `format_asm` writes for one row of a comment group. */
  function CommentRow(row: string, maxLen: int): string
    requires |row| > 0
  {
    if IsCommentFormatted(row) then row else FormatComment(row, maxLen)
  }

  /** What `format_asm` writes for one row of a code group. */
  function CodeRow(row: string, g: CodeGroup, globalLineLen: int, globalIndent: bool): string {
    if CodeAndComment(row) && !IsCodeFormatted(row, g, globalLineLen, globalIndent) then
      PadLineWithSpaces(row, Indent(g, globalLineLen, globalIndent))
    else row
  }

  /**
    The border string written above and below a comment group whose first row
    is `first`: the whitespace before that row's ';', a ';', dashes, and ";\n".
   */
  function Border(first: string, maxLen: int): (r: string)
    requires ';' in first
    ensures var ws := first[..Find(first, ';')];
            && |r| >= |ws| + 3
            && r[..|ws|] == ws
            && r[|ws|] == ';'
            && (forall j | |ws| < j < |r| - 2 :: r[j] == '-')
            && r[|r| - 2..] == ";\n"
  {
    var ws := first[..Find(first, ';')];
    var newLineOffset := if Find(first, '\n') == -1 then 0 else 1;
    ws + ";" + Repeat('-', maxLen - 1 - newLineOffset - |ws|) + ";\n"
  }

  datatype FormatError = IndexError

  datatype Result<T, E> = Success(value: T) | Failure(error: E)

  /**
    `check_for_final_newline`: true when the last line of the file holds no
    newline. `lines[-1]` raises on an empty file.
   */
  function CheckForFinalNewline(lines: seq<string>): (r: Result<bool, FormatError>)
    ensures r.Failure? <==> |lines| == 0
    ensures r.Success? ==> (r.value <==> '\n' !in lines[|lines| - 1])
  {
    if |lines| == 0 then Failure(IndexError)
    else Success(Find(lines[|lines| - 1], '\n') == -1)
  }

  // ---------------------------------------------------------------------------
  // Properties of the rewrites

  /**
    Rule 1: a code row with a trailing comment leaves with its first ';' at
    the tab-stop, or where it was if that is already to the right; the code
    before it and the comment from the ';' on are unchanged, and only spaces
    are inserted. Any other code row is written as it was read.
   */
  lemma {:induction false} CodeRowAligned(row: string, g: CodeGroup, gl: int, gi: bool)
    ensures var r := CodeRow(row, g, gl, gi);
            var i := Find(row, ';');
            var ind := Indent(g, gl, gi);
            && (!CodeAndComment(row) ==> r == row)
            && (CodeAndComment(row) ==>
                  && Find(r, ';') == Max(i, ind)
                  && |r| == |row| + Max(0, ind - i)
                  && r[..i] == row[..i]
                  && r[|r| - (|row| - i)..] == row[i..]
                  && (forall j | i <= j < i + Max(0, ind - i) :: r[j] == ' '))
  {
    var i := Find(row, ';');
    var ind := Indent(g, gl, gi);
    if CodeAndComment(row) && IsCodeFormatted(row, g, gl, gi) {
      assert i == ind by {
        if gi { assert i == gl; } else { assert i == g.maxSemiColonIdx; }
      }
      assert row[|row| - (|row| - i)..] == row[i..];
    }
  }

  /**
    Rule 2.2: a comment row leaves holding two ';', so it counts as formatted
    and a second pass does not touch it again.
   */
  lemma {:induction false} CommentRowFormatted(row: string, maxLen: int)
    requires NoCodeComment(row)
    ensures IsCommentFormatted(CommentRow(row, maxLen))
    ensures CommentRow(CommentRow(row, maxLen), maxLen) == CommentRow(row, maxLen)
    ensures IsCommentFormatted(row) ==> CommentRow(row, maxLen) == row
  {
    if !IsCommentFormatted(row) {
      var r := FormatComment(row, maxLen);
      var i := Find(row, ';');
      var b := Body(row);
      assert i < |b| by {
        assert row[i] == ';';
        assert b == row || b == row[..|row| - 1];
      }
      assert r[i] == b[i] == ';';
      assert r[|r| - 2] == ';';
      assert i < |r| - 2;
    }
  }

  /** A reformatted comment row keeps the row's text up to and including its first ';'. */
  lemma {:induction false} FormatCommentKeepsPrefix(row: string, maxLen: int)
    requires NoCodeComment(row)
    ensures Find(row, ';') < |FormatComment(row, maxLen)|
    ensures forall j | 0 <= j <= Find(row, ';') :: FormatComment(row, maxLen)[j] == row[j]
  {
    var r := FormatComment(row, maxLen);
    var i := Find(row, ';');
    var b := Body(row);
    assert i < |b| by {
      assert row[i] == ';';
      assert b == row || b == row[..|row| - 1];
    }
    assert forall j | 0 <= j < |b| :: r[..|b|][j] == r[j] && b[j] == row[j];
  }

  /**
    A rewritten comment row is still a comment-only line with the row's
    leading whitespace, so a second pass puts it in the same group.
   */
  lemma {:induction false} CommentRowShape(row: string, maxLen: int)
    requires NoCodeComment(row)
    ensures NoCodeComment(CommentRow(row, maxLen))
    ensures LeadingWhiteSpace(CommentRow(row, maxLen)) == LeadingWhiteSpace(row)
  {
    if !IsCommentFormatted(row) {
      FormatCommentKeepsPrefix(row, maxLen);
      SamePrefixSameShape(row, FormatComment(row, maxLen));
    }
  }

  /**
    Rule 2.1 and 2.3: the border written around a comment group is itself a
    comment border line and a formatted comment, so a second pass recognises
    it as the group's border and leaves it alone.
   */
  lemma {:induction false} BorderRecognized(first: string, maxLen: int)
    requires NoCodeComment(first)
    ensures CommentBorder(Border(first, maxLen))
    ensures IsCommentFormatted(Border(first, maxLen))
  {
    BorderIsCommentBorder(first, maxLen);
    var r := Border(first, maxLen);
    var i := Find(first, ';');
    assert r[i] == ';' && r[|r| - 2] == ';' && i < |r| - 2;
  }

  lemma {:induction false} BorderIsCommentBorder(first: string, maxLen: int)
    requires NoCodeComment(first)
    ensures CommentBorder(Border(first, maxLen))
  {
    var r := Border(first, maxLen);
    var i := Find(first, ';');
    assert forall j | 0 <= j < i :: IsSpace(r[j]) by {
      assert forall j | 0 <= j < i :: r[j] == first[..i][j] == first[j];
    }
    SpaceEndUnique(r, 0, i);
    DashEndUnique(r, i + 1, |r| - 2);
  }

  /** The border keeps the leading whitespace of the group's first row, so it joins the group. */
  lemma {:induction false} BorderSignature(first: string, maxLen: int)
    requires NoCodeComment(first)
    ensures LeadingWhiteSpace(Border(first, maxLen)) == LeadingWhiteSpace(first)
  {
    var r := Border(first, maxLen);
    var i := Find(first, ';');
    var n := |LeadingWhiteSpace(first)|;
    assert n <= i by {
      assert first[i] == ';';
    }
    assert forall j | 0 <= j < n :: r[j] == first[j] by {
      assert forall j | 0 <= j < i :: r[j] == first[..i][j] == first[j];
    }
    assert n < |r| ==> !IsSpaceOrTab(r[n]) by {
      if n < i { assert r[n] == first[n]; } else { assert r[n] == ';'; }
    }
    BlankEndUnique(r, 0, n);
  }

  /**
    The box of rule 2: for a group whose rows are at most `maxLen` long, the
    border (when the first row ends in a newline) and every reformatted row
    that ends in a newline are `maxLen + 1` characters long, so their closing
    ';' all stand at column `maxLen - 1`.
   */
  lemma {:induction false} BoxAligned(first: string, row: string, maxLen: int)
    requires NoCodeComment(first) && OnlyFinalNewline(first) && '\n' in first && |first| <= maxLen
    requires |row| > 0 && row[|row| - 1] == '\n' && |row| <= maxLen
    ensures |Border(first, maxLen)| == maxLen + 1
    ensures |FormatComment(row, maxLen)| == maxLen + 1
  {
    var i := Find(first, ';');
    assert first[|first| - 1] == '\n';
    assert i < |first| - 1;
  }
}
