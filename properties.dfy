/**
  What `format_asm` does to a file, stated line by line on the groups that
  the builders derive from it: the groups tile the file, so the output is
  the per-line output of every line in order; code rows with a trailing
  comment are aligned to one column per group (or one column per file);
  comment rows come out as formatted comments with the group's indentation;
  lines that are neither code nor comment-only are dropped.
 */
module Properties {
  import opened Text
  import opened Classifier
  import opened Features
  import opened Groups
  import opened Rewrite
  import opened Output

  /** The groups derived from a file do not overlap. */
  lemma {:induction false} FilePlanTiles(lines: seq<string>, gi: bool)
    ensures Tiles(lines, FilePlan(lines, gi))
  {
    var c := CommentLinesOf(lines);
    var k := CodeLinesOf(lines);
    var p := FilePlan(lines, gi);
    FilePlanFits(lines, gi);
    forall s, t | InComment(p, s, t) && t in p.comments ensures s == t {
      CommentGroupsOfKeys(c, t);
      CommentGroupsCover(c, t);
    }
    forall s, t | InCode(p, s, t) && t in p.code ensures s == t {
      CodeGroupsOfKeys(k, t);
      CodeGroupsCover(k, t);
    }
    forall s, t | InComment(p, s, t) ensures t !in p.code {
      CommentGroupExtent(c, s);
      InCommentLines(lines, t);
      InCodeLines(lines, t);
      CodeGroupsOfKeys(k, t);
      KindsDisjoint(lines[t]);
    }
    forall s, t | InCode(p, s, t) ensures t !in p.comments {
      CodeGroupExtent(k, s);
      InCodeLines(lines, t);
      InCommentLines(lines, t);
      CommentGroupsOfKeys(c, t);
      KindsDisjoint(lines[t]);
    }
  }

  /**
    `format_asm` writes the per-line output of every line of the file, in
    order, and one more "\n" when the last line already ends in a newline;
    on an empty file it raises an IndexError.
   */
  lemma {:induction false} FormatFileIsPerLine(lines: seq<string>, gi: bool)
    ensures Fits(lines, FilePlan(lines, gi))
    ensures |lines| == 0 ==> FormatFile(lines, gi) == Failure(IndexError)
    ensures |lines| > 0 ==>
              FormatFile(lines, gi) ==
                Success(Flat(lines, FilePlan(lines, gi), 0, |lines|) +
                        (if '\n' in lines[|lines| - 1] then ["\n"] else []))
  {
    FilePlanTiles(lines, gi);
    WrittenIsFlat(lines, FilePlan(lines, gi));
  }

  /** The comment group that holds comment-only line `i`. */
  function CommentGroupOf(lines: seq<string>, i: int): (s: int)
    requires 0 <= i < |lines| && NoCodeComment(lines[i])
    ensures var cg := CommentGroupsOf(CommentLinesOf(lines));
            s in cg && 0 <= s <= i < s + cg[s].numRows
  {
    var c := CommentLinesOf(lines);
    InCommentLines(lines, i);
    var s := RunStart(c, i, false);
    InCommentLines(lines, s);
    CommentGroupsOfKeys(c, s);
    RunCovers(c, i, false);
    s
  }

  /** The code group that holds code line `i`. */
  function CodeGroupOf(lines: seq<string>, i: int): (s: int)
    requires 0 <= i < |lines| && IsCodeLine(lines[i])
    ensures var kg := CodeGroupsOf(CodeLinesOf(lines));
            s in kg && 0 <= s <= i < s + kg[s].numRows
  {
    var k := CodeLinesOf(lines);
    InCodeLines(lines, i);
    var s := RunStart(k, i, true);
    InCodeLines(lines, s);
    CodeGroupsOfKeys(k, s);
    RunCovers(k, i, true);
    s
  }

  /**
    A comment-only line is written as its rewritten row, preceded by the
    group's border when it opens a group that has no top border, and
    followed by it when it closes a group that has no bottom border.
   */
  lemma {:induction false} CommentLineWritten(lines: seq<string>, gi: bool, i: int)
    requires 0 <= i < |lines| && NoCodeComment(lines[i])
    ensures var p := FilePlan(lines, gi);
            var s := CommentGroupOf(lines, i);
            var g := p.comments[s];
            Fits(lines, p) && InComment(p, s, i) && NoCodeComment(lines[s]) &&
            var border := Border(lines[s], g.maxLen);
            LineOutput(lines, p, i) ==
              Framed(i == s, i == s + g.numRows - 1, Missing(g.hasTopBorder, border),
                     CommentRow(lines[i], g.maxLen), Missing(g.hasBottomBorder, border))
  {
    var p := FilePlan(lines, gi);
    var s := CommentGroupOf(lines, i);
    FilePlanTiles(lines, gi);
    SpecCommentGroupsFit(lines);
    assert InComment(p, s, i);
    CommentLineOutput(lines, p, s, i);
  }

  /** A code line is written as its rewritten row, aligned with its group. */
  lemma {:induction false} CodeLineWritten(lines: seq<string>, gi: bool, i: int)
    requires 0 <= i < |lines| && IsCodeLine(lines[i])
    ensures var p := FilePlan(lines, gi);
            Fits(lines, p) && InCode(p, CodeGroupOf(lines, i), i) &&
            LineOutput(lines, p, i) == [CodeRow(lines[i], p.code[CodeGroupOf(lines, i)], GlobalLineLen(lines), gi)]
  {
    var p := FilePlan(lines, gi);
    var s := CodeGroupOf(lines, i);
    FilePlanTiles(lines, gi);
    assert InCode(p, s, i);
    CodeLineOutput(lines, p, s, i);
  }

  /**
    A line that is neither a code line nor a comment-only line (one such as
    `[hl] ; x`) belongs to no group, and the main loop writes nothing for it.
   */
  lemma {:induction false} UnclassifiedLineDropped(lines: seq<string>, gi: bool, i: int)
    requires 0 <= i < |lines| && !NoCodeComment(lines[i]) && !IsCodeLine(lines[i])
    ensures Fits(lines, FilePlan(lines, gi)) && LineOutput(lines, FilePlan(lines, gi), i) == []
  {
    var p := FilePlan(lines, gi);
    FilePlanFits(lines, gi);
    forall s ensures !InComment(p, s, i) && !InCode(p, s, i) {
      if InComment(p, s, i) {
        CommentGroupExtent(CommentLinesOf(lines), s);
        InCommentLines(lines, i);
      }
      if InCode(p, s, i) {
        CodeGroupExtent(CodeLinesOf(lines), s);
        InCodeLines(lines, i);
      }
    }
    UngroupedLineOutput(lines, p, i);
  }

  /**
    Local alignment: with `globalIndent` off, the ';' of a code line with a
    trailing comment is written at its group's `maxSemiColonIdx`, the
    largest ';' column among the group's rows; the code before it is not
    changed.
   */
  lemma {:induction false} LocalAlignment(lines: seq<string>, i: int)
    requires 0 <= i < |lines| && CodeAndComment(lines[i])
    ensures Fits(lines, FilePlan(lines, false))
    ensures var p := FilePlan(lines, false);
            var g := p.code[CodeGroupOf(lines, i)];
            var out := LineOutput(lines, p, i);
            var semi := Find(lines[i], ';');
            && |out| == 1
            && Find(out[0], ';') == g.maxSemiColonIdx
            && semi <= g.maxSemiColonIdx
            && out[0][..semi] == lines[i][..semi]
  {
    var s := CodeGroupOf(lines, i);
    var k := CodeLinesOf(lines);
    CodeLineWritten(lines, false, i);
    CodeGroupSemicolon(k, s);
    InCodeLines(lines, i);
    CodeRowAligned(lines[i], CodeGroupsOf(k)[s], GlobalLineLen(lines), false);
  }

  /**
    Two code lines of the same group that both carry a trailing comment have
    their ';' in the same column after formatting with `globalIndent` off.
   */
  lemma {:induction false} GroupCommentsAligned(lines: seq<string>, i: int, j: int)
    requires 0 <= i < |lines| && CodeAndComment(lines[i])
    requires 0 <= j < |lines| && CodeAndComment(lines[j])
    requires CodeGroupOf(lines, i) == CodeGroupOf(lines, j)
    ensures Fits(lines, FilePlan(lines, false))
    ensures var p := FilePlan(lines, false);
            |LineOutput(lines, p, i)| == 1 && |LineOutput(lines, p, j)| == 1 &&
            Find(LineOutput(lines, p, i)[0], ';') == Find(LineOutput(lines, p, j)[0], ';')
  {
    LocalAlignment(lines, i);
    LocalAlignment(lines, j);
  }

  /**
    Global alignment: with `globalIndent` on, the ';' of a code line with a
    trailing comment is written at `globalLineLen`, one column past the
    longest code of the file, or stays where it is if it is already further
    right; the code before it is not changed.
   */
  lemma {:induction false} GlobalAlignment(lines: seq<string>, i: int)
    requires 0 <= i < |lines| && CodeAndComment(lines[i])
    ensures Fits(lines, FilePlan(lines, true))
    ensures var out := LineOutput(lines, FilePlan(lines, true), i);
            var semi := Find(lines[i], ';');
            && |out| == 1
            && Find(out[0], ';') == Max(semi, GlobalLineLen(lines))
            && CodeLength(lines[i]) < GlobalLineLen(lines)
            && out[0][..semi] == lines[i][..semi]
  {
    var p := FilePlan(lines, true);
    CodeLineWritten(lines, true, i);
    GlobalLineLenIsOnePastLongestCode(lines);
    CodeRowAligned(lines[i], p.code[CodeGroupOf(lines, i)], GlobalLineLen(lines), true);
  }

  /**
    Everything written for a comment-only line is a formatted comment-only
    line with that line's leading whitespace: the row itself, and any border
    around it.
   */
  lemma {:induction false} CommentOutputFormatted(lines: seq<string>, gi: bool, i: int)
    requires 0 <= i < |lines| && NoCodeComment(lines[i])
    ensures Fits(lines, FilePlan(lines, gi))
    ensures forall x | x in LineOutput(lines, FilePlan(lines, gi), i) ::
              NoCodeComment(x) && IsCommentFormatted(x) && LeadingWhiteSpace(x) == LeadingWhiteSpace(lines[i])
  {
    var s := CommentGroupOf(lines, i);
    var g := CommentGroupsOf(CommentLinesOf(lines))[s];
    CommentLineWritten(lines, gi, i);
    var row := CommentRow(lines[i], g.maxLen);
    var border := Border(lines[s], g.maxLen);
    FramedElements(i == s, i == s + g.numRows - 1, g.hasTopBorder, g.hasBottomBorder, row, border);
    SameGroupSameSignature(lines, s, i);
    CommentPiecesFormatted(lines[s], lines[i], g.maxLen);
    EachFormatted(LineOutput(lines, FilePlan(lines, gi), i), row, border, LeadingWhiteSpace(lines[i]));
  }

  /** Facts shared by the only two strings a sequence holds hold for all its elements. */
  lemma {:induction false} EachFormatted(out: seq<string>, row: string, border: string, ws: string)
    requires forall x | x in out :: x == row || x == border
    requires NoCodeComment(row) && IsCommentFormatted(row) && LeadingWhiteSpace(row) == ws
    requires NoCodeComment(border) && IsCommentFormatted(border) && LeadingWhiteSpace(border) == ws
    ensures forall x | x in out :: NoCodeComment(x) && IsCommentFormatted(x) && LeadingWhiteSpace(x) == ws
  {
  }

  /** The rows of a comment group are comment-only lines with the signature of its first row. */
  lemma {:induction false} SameGroupSameSignature(lines: seq<string>, s: int, i: int)
    requires var cg := CommentGroupsOf(CommentLinesOf(lines));
             s in cg && s <= i < s + cg[s].numRows
    ensures 0 <= s <= i < |lines| && NoCodeComment(lines[s]) && NoCodeComment(lines[i])
    ensures LeadingWhiteSpace(lines[s]) == LeadingWhiteSpace(lines[i])
  {
    var c := CommentLinesOf(lines);
    CommentGroupExtent(c, s);
    InCommentLines(lines, s);
    InCommentLines(lines, i);
  }

  /** The border of a group and a rewritten row of it are formatted comments with the row's indentation. */
  lemma {:induction false} CommentPiecesFormatted(first: string, row: string, maxLen: int)
    requires NoCodeComment(first) && NoCodeComment(row)
    requires LeadingWhiteSpace(first) == LeadingWhiteSpace(row)
    ensures var r := CommentRow(row, maxLen);
            NoCodeComment(r) && IsCommentFormatted(r) && LeadingWhiteSpace(r) == LeadingWhiteSpace(row)
    ensures var b := Border(first, maxLen);
            NoCodeComment(b) && IsCommentFormatted(b) && LeadingWhiteSpace(b) == LeadingWhiteSpace(row)
  {
    CommentRowFormatted(row, maxLen);
    CommentRowShape(row, maxLen);
    BorderRecognized(first, maxLen);
    BorderSignature(first, maxLen);
    BorderIsComment(Border(first, maxLen));
  }

  /**
    The box of a comment group: when the group's first row and a
    reformatted row end in a newline, the border and that row are both
    `maxLen + 1` characters long, `maxLen` being the longest row of the
    group, so their closing ';' stand in one column.
   */
  lemma {:induction false} CommentBoxAligned(lines: seq<string>, i: int)
    requires 0 <= i < |lines| && NoCodeComment(lines[i]) && !IsCommentFormatted(lines[i])
    requires var s := CommentGroupOf(lines, i);
             OnlyFinalNewline(lines[s]) && '\n' in lines[s] && lines[i][|lines[i]| - 1] == '\n'
    ensures var s := CommentGroupOf(lines, i);
            var g := FilePlan(lines, false).comments[s];
            NoCodeComment(lines[s]) &&
            |Border(lines[s], g.maxLen)| == g.maxLen + 1 &&
            |CommentRow(lines[i], g.maxLen)| == g.maxLen + 1
  {
    var c := CommentLinesOf(lines);
    var s := CommentGroupOf(lines, i);
    InCommentLines(lines, s);
    InCommentLines(lines, i);
    CommentGroupWidth(c, s);
    CommentGroupExtent(c, s);
    BoxAligned(lines[s], lines[i], CommentGroupsOf(c)[s].maxLen);
  }

  // ---------------------------------------------------------------------------
  // Formatting twice

  /**
    A file of code lines without comments (blank lines included) is written
    unchanged, followed by one more "\n" when its last line already ends in
    a newline (the inverted test of `check_for_final_newline`).
   */
  lemma {:induction false} PlainCodeFileKept(lines: seq<string>, gi: bool)
    requires |lines| > 0 && forall i | 0 <= i < |lines| :: CodeNoComment(lines[i])
    ensures FormatFile(lines, gi) == Success(lines + if '\n' in lines[|lines| - 1] then ["\n"] else [])
  {
    var p := FilePlan(lines, gi);
    forall k | 0 <= k < |lines| ensures Out(lines, p)(k) == [lines[k]] {
      PlainCodeLineKept(lines, gi, k);
    }
    FilePlanTiles(lines, gi);
    WrittenUnchanged(lines, p);
  }

  /** When every line writes itself, the file is written unchanged, then the final-newline quirk. */
  lemma {:induction false} WrittenUnchanged(lines: seq<string>, p: Plan)
    requires |lines| > 0 && Tiles(lines, p)
    requires forall k | 0 <= k < |lines| :: Out(lines, p)(k) == [lines[k]]
    ensures Written(lines, p) == Success(lines + if '\n' in lines[|lines| - 1] then ["\n"] else [])
  {
    var out := Out(lines, p);
    forall k | 0 <= k < |lines| ensures out(0 + k) == [lines[k]] {
    }
    JoinRows(out, 0, lines);
    WrittenIsFlat(lines, p);
  }

  /** A code line without a comment writes itself. */
  lemma {:induction false} PlainCodeLineKept(lines: seq<string>, gi: bool, k: int)
    requires 0 <= k < |lines| && CodeNoComment(lines[k])
    ensures Out(lines, FilePlan(lines, gi))(k) == [lines[k]]
  {
    assert IsCodeLine(lines[k]);
    KindsDisjoint(lines[k]);
    CodeLineWritten(lines, gi, k);
  }

  /**
    Formatting is not idempotent: a second pass over the output of a file
    of plain code lines ending in a newline adds yet another "\n", so no
    such file reaches a fixed point. The second pass reads the written
    strings back as the lines of a file, which they are here: each is an
    input line or "\n".
   */
  lemma {:induction false} FormatTwiceGrows(lines: seq<string>, gi: bool)
    requires |lines| > 0 && forall i | 0 <= i < |lines| :: CodeNoComment(lines[i])
    requires '\n' in lines[|lines| - 1]
    ensures FormatFile(lines, gi).Success?
    ensures var once := FormatFile(lines, gi).value;
            |once| == |lines| + 1 && FormatFile(once, gi) == Success(once + ["\n"])
    ensures FormatFile(FormatFile(lines, gi).value, gi) != FormatFile(lines, gi)
  {
    PlainCodeFileKept(lines, gi);
    PlainWithNewline(lines);
    PlainCodeFileKept(lines + ["\n"], gi);
  }

  /** Appending the extra "\n" keeps a file of plain code lines, and its last line ends in a newline. */
  lemma {:induction false} PlainWithNewline(lines: seq<string>)
    requires forall i | 0 <= i < |lines| :: CodeNoComment(lines[i])
    ensures var once := lines + ["\n"];
            (forall i | 0 <= i < |once| :: CodeNoComment(once[i])) && '\n' in once[|once| - 1]
  {
    assert Body("\n") == "";
  }
}
