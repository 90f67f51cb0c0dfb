/**
  The class `AsmFormatter` of asmfmt.py with its per-file state, and its
  methods as the loops that fill and use that state: the feature scan, the
  two group builders, the streaming rewrite of `format_asm`, and
  `format_files` with its reset between files. Each method is proved to
  compute the specification function of the module it relies on.

  Files are given by their lines, as Python's file iteration yields them;
  what `format_asm` writes to its output file is returned as the sequence
  of strings passed to `o.write`.
 */
module Formatter {
  import opened Text
  import opened Classifier
  import opened Features
  import opened Groups
  import opened Rewrite
  import opened Output
  import opened Builders

  /**
    Recording line `n` (under its index, when it satisfies `keep`) into a
    map that holds `base` merged with the lines before `n` gives `base`
    merged with the lines up to `n`.
   */
  lemma {:induction false} RecordStep(base: map<int, string>, lines: seq<string>, n: nat, keep: string -> bool,
                                      before: map<int, string>, after: map<int, string>)
    requires n < |lines| && before == base + LinesWhere(lines, n, keep)
    requires after == if keep(lines[n]) then before[n := lines[n]] else before
    ensures after == base + LinesWhere(lines, n + 1, keep)
  {
    if keep(lines[n]) {
      var m := LinesWhere(lines, n, keep);
      assert (base + m)[n := lines[n]] == base + m[n := lines[n]];
    }
  }

  /** RecordStep for `commentLines`. */
  lemma {:induction false} CommentStep(base: map<int, string>, lines: seq<string>, n: nat, isComment: bool,
                                       before: map<int, string>, after: map<int, string>)
    requires n < |lines| && before == base + CommentLinesUpTo(lines, n) && isComment == NoCodeComment(lines[n])
    requires after == if isComment then before[n := lines[n]] else before
    ensures after == base + CommentLinesUpTo(lines, n + 1)
  {
    RecordStep(base, lines, n, NoCodeComment, before, after);
  }

  /** RecordStep for `codeLines`. */
  lemma {:induction false} CodeStep(base: map<int, string>, lines: seq<string>, n: nat, isCode: bool,
                                    before: map<int, string>, after: map<int, string>)
    requires n < |lines| && before == base + CodeLinesUpTo(lines, n) && isCode == IsCodeLine(lines[n])
    requires after == if isCode then before[n := lines[n]] else before
    ensures after == base + CodeLinesUpTo(lines, n + 1)
  {
    RecordStep(base, lines, n, IsCodeLine, before, after);
  }

  /** Raising the running maximum that started from `base` by the code length of line `n`. */
  lemma {:induction false} LongestStep(base: int, lines: seq<string>, n: nat, length: nat, before: int, after: int)
    requires n < |lines| && before == Max(base, LongestCode(lines, n)) && length == CodeLength(lines[n])
    requires after == if length > before then length else before
    ensures after == Max(base, LongestCode(lines, n + 1))
  {
  }

  /**
    The state of `_find_features` after `n` lines, from the maps and the
    running maximum it started with.
   */
  predicate Scanned(lines: seq<string>, n: nat, commentLines: map<int, string>, codeLines: map<int, string>,
                    globalLineLen: nat, comments: map<int, string>, code: map<int, string>, longest: nat)
    requires n <= |lines|
  {
    && comments == commentLines + CommentLinesUpTo(lines, n)
    && code == codeLines + CodeLinesUpTo(lines, n)
    && longest == Max(globalLineLen, LongestCode(lines, n))
  }

  /** Before the first line, the scan holds what it started with. */
  lemma {:induction false} ScannedStart(lines: seq<string>, commentLines: map<int, string>, codeLines: map<int, string>,
                                        globalLineLen: nat)
    ensures Scanned(lines, 0, commentLines, codeLines, globalLineLen, commentLines, codeLines, globalLineLen)
  {
    assert CommentLinesUpTo(lines, 0) == map[] && CodeLinesUpTo(lines, 0) == map[] && LongestCode(lines, 0) == 0;
    assert commentLines + map[] == commentLines && codeLines + map[] == codeLines;
  }

  /** After the last line, the scan holds the features of the whole file. */
  lemma {:induction false} ScannedEnd(lines: seq<string>, commentLines: map<int, string>, codeLines: map<int, string>,
                                      globalLineLen: nat, comments: map<int, string>, code: map<int, string>, longest: nat)
    requires Scanned(lines, |lines|, commentLines, codeLines, globalLineLen, comments, code, longest)
    ensures comments == commentLines + CommentLinesOf(lines)
    ensures code == codeLines + CodeLinesOf(lines)
    ensures longest == Max(globalLineLen, LongestCode(lines, |lines|))
  {
  }

  /** One pass of the scan over line `n`, with the tests of ScanLine, moves the state to line `n + 1`. */
  lemma {:induction false} ScannedStep(lines: seq<string>, n: nat, commentLines: map<int, string>, codeLines: map<int, string>,
                                       globalLineLen: nat, comments: map<int, string>, code: map<int, string>, longest: nat,
                                       isComment: bool, isCode: bool, length: nat,
                                       comments': map<int, string>, code': map<int, string>, longest': nat)
    requires n < |lines| && Scanned(lines, n, commentLines, codeLines, globalLineLen, comments, code, longest)
    requires isComment == NoCodeComment(lines[n]) && isCode == IsCodeLine(lines[n]) && length == CodeLength(lines[n])
    requires comments' == (if isComment then comments[n := lines[n]] else comments)
    requires code' == (if isCode then code[n := lines[n]] else code)
    requires longest' == (if length > longest then length else longest)
    ensures Scanned(lines, n + 1, commentLines, codeLines, globalLineLen, comments', code', longest')
  {
    CommentStep(commentLines, lines, n, isComment, comments, comments');
    CodeStep(codeLines, lines, n, isCode, code, code');
    LongestStep(globalLineLen, lines, n, length, longest, longest');
  }

  /**
    The tests of one pass of `_find_features`: whether the line is a
    comment-only line, whether it is a code line, and its code length.
   */
  method ScanLine(line: string) returns (isComment: bool, isCode: bool, length: nat)
    ensures isComment == NoCodeComment(line) && isCode == IsCodeLine(line)
    ensures length == CodeLength(line)
  {
    isComment := NoCodeComment(line);
    isCode := false;
    length := 0;
    if CodeNoComment(line) {
      length := |RStrip(line)|;
      isCode := true;
    }
    if CodeAndComment(line) {
      length := |RStrip(line[..Find(line, ';')])|;
      isCode := true;
    }
  }

  /**
    The loop of `_find_features` over one file, from the feature maps and
    the running maximum it starts with: every comment-only line and every
    code line is recorded under its index, and the maximum is raised to the
    longest code length seen.
   */
  method ScanLines(lines: seq<string>, commentLines: map<int, string>, codeLines: map<int, string>, globalLineLen: nat)
    returns (comments: map<int, string>, code: map<int, string>, longest: nat)
    ensures comments == commentLines + CommentLinesOf(lines)
    ensures code == codeLines + CodeLinesOf(lines)
    ensures longest == Max(globalLineLen, LongestCode(lines, |lines|))
  {
    comments, code, longest := commentLines, codeLines, globalLineLen;
    var idx := 0;
    ScannedStart(lines, commentLines, codeLines, globalLineLen);
    while idx < |lines|
      invariant 0 <= idx <= |lines|
      invariant Scanned(lines, idx, commentLines, codeLines, globalLineLen, comments, code, longest)
    {
      var line := lines[idx];
      var isComment, isCode, length := ScanLine(line);
      ghost var before := (comments, code, longest);
      if isComment {
        comments := comments[idx := line];
      }
      if isCode {
        code := code[idx := line];
      }
      if length > longest {
        longest := length;
      }
      ScannedStep(lines, idx, commentLines, codeLines, globalLineLen, before.0, before.1, before.2,
                  isComment, isCode, length, comments, code, longest);
      idx := idx + 1;
    }
    ScannedEnd(lines, commentLines, codeLines, globalLineLen, comments, code, longest);
  }

  /**
    The border string of a comment group whose first row is `line`: the
    whitespace before its ';', then ';', dashes and ";\n", one dash fewer
    when the row ends in a newline.
   */
  method BorderString(line: string, maxLen: int) returns (borderString: string)
    requires ';' in line
    ensures borderString == Border(line, maxLen)
  {
    var whiteSpace := line[..Find(line, ';')];
    var newLineOffset := 1;
    if Find(line, '\n') == -1 {
      newLineOffset := 0;
    }
    borderString := whiteSpace + ";" + Repeat('-', maxLen - 1 - newLineOffset - |whiteSpace|) + ";\n";
  }

  /** One row of a comment group as written: closed by `format_comment` unless already formatted. */
  method FormatCommentRow(line: string, maxLen: int) returns (groupLine: string)
    requires |line| > 0
    ensures groupLine == CommentRow(line, maxLen)
  {
    groupLine := line;
    if !IsCommentFormatted(groupLine) {
      groupLine := FormatComment(groupLine, maxLen);
    }
  }

  /** One row of a code group as written: padded to the tab-stop when it has a comment that is not there yet. */
  method FormatCodeRow(line: string, g: CodeGroup, globalLineLen: int, globalIndent: bool) returns (cGroupLine: string)
    ensures cGroupLine == CodeRow(line, g, globalLineLen, globalIndent)
  {
    cGroupLine := line;
    if CodeAndComment(cGroupLine) && !IsCodeFormatted(cGroupLine, g, globalLineLen, globalIndent) {
      var indentType := if globalIndent then globalLineLen else g.maxSemiColonIdx;
      cGroupLine := PadLineWithSpaces(cGroupLine, indentType);
    }
  }

  /** The rows of the comment group of `numRows` lines from line `s`, each as FormatCommentRow writes it. */
  method WriteCommentRows(lines: seq<string>, s: nat, numRows: nat, maxLen: int) returns (rows: seq<string>)
    requires s + numRows <= |lines|
    requires forall j | s <= j < s + numRows :: |lines[j]| > 0
    ensures |rows| == numRows
    ensures forall k | 0 <= k < numRows :: rows[k] == CommentRow(lines[s + k], maxLen)
  {
    rows := [];
    var i := 0;
    while i < numRows
      invariant 0 <= i <= numRows && |rows| == i
      invariant forall k | 0 <= k < i :: rows[k] == CommentRow(lines[s + k], maxLen)
    {
      var groupLine := FormatCommentRow(lines[s + i], maxLen);
      rows := rows + [groupLine];
      i := i + 1;
    }
  }

  /** The rows of the code group `g` from line `s`, each as FormatCodeRow writes it. */
  method WriteCodeRows(lines: seq<string>, s: nat, g: CodeGroup, globalLineLen: int, globalIndent: bool)
    returns (rows: seq<string>)
    requires 0 <= g.numRows && s + g.numRows <= |lines|
    ensures |rows| == g.numRows
    ensures forall k | 0 <= k < g.numRows :: rows[k] == CodeRow(lines[s + k], g, globalLineLen, globalIndent)
  {
    rows := [];
    var i := 0;
    while i < g.numRows
      invariant 0 <= i <= g.numRows && |rows| == i
      invariant forall k | 0 <= k < i :: rows[k] == CodeRow(lines[s + k], g, globalLineLen, globalIndent)
    {
      var cGroupLine := FormatCodeRow(lines[s + i], g, globalLineLen, globalIndent);
      rows := rows + [cGroupLine];
      i := i + 1;
    }
  }

  /**
    Rule 2 of `format_asm` at the first line `s` of a comment group: the
    border above when the group has no top border, its rows, and the border
    below when it has no bottom border.
   */
  method WriteCommentGroup(lines: seq<string>, s: int, group: CommentGroup, globalIndent: bool) returns (block: seq<string>)
    requires s in CommentGroupsOf(CommentLinesOf(lines)) && group == CommentGroupsOf(CommentLinesOf(lines))[s]
    ensures block == Block(lines, FilePlan(lines, globalIndent), s)
    ensures s + group.numRows == Next(FilePlan(lines, globalIndent), s)
  {
    FilePlanCommentBlock(lines, globalIndent, s);
    var borderString := BorderString(lines[s], group.maxLen);
    block := [];
    if !group.hasTopBorder {
      block := block + [borderString];
    }
    assert block == Missing(group.hasTopBorder, borderString);
    var rows := WriteCommentRows(lines, s, group.numRows, group.maxLen);
    assert rows == CommentRows(lines, FilePlan(lines, globalIndent), s, group);
    ghost var top := block;
    block := block + rows;
    if !group.hasBottomBorder {
      block := block + [borderString];
    }
    assert block == top + rows + Missing(group.hasBottomBorder, borderString);
  }

  /** Rule 1 of `format_asm` at the first line `s` of a code group (where no comment group starts): its rows. */
  method WriteCodeGroup(lines: seq<string>, s: int, cGroup: CodeGroup, globalLineLen: int, globalIndent: bool)
    returns (block: seq<string>)
    requires s in CodeGroupsOf(CodeLinesOf(lines)) && s !in CommentGroupsOf(CommentLinesOf(lines))
    requires cGroup == CodeGroupsOf(CodeLinesOf(lines))[s] && globalLineLen == GlobalLineLen(lines)
    ensures block == Block(lines, FilePlan(lines, globalIndent), s)
    ensures s + cGroup.numRows == Next(FilePlan(lines, globalIndent), s)
  {
    FilePlanCodeBlock(lines, globalIndent, s);
    block := WriteCodeRows(lines, s, cGroup, globalLineLen, globalIndent);
    assert block == CodeRows(lines, FilePlan(lines, globalIndent), s, cGroup);
  }

  /**
    A run over `files` that applies `format` to each in turn, until the
    first file on which it fails, which ends the run.
   */
  function RunFiles(format: seq<string> -> Result<seq<string>, FormatError>, files: seq<seq<string>>):
    seq<Result<seq<string>, FormatError>>
    decreases |files|
  {
    if files == [] then []
    else
      var r := format(files[0]);
      if r.Failure? then [r] else [r] + RunFiles(format, files[1..])
  }

  /** The per-file formatting of `format_files`, as a function of the file. */
  function FileFormatter(gi: bool): seq<string> -> Result<seq<string>, FormatError> {
    lines => FormatFile(lines, gi)
  }

  /** `format_files` over `files`: FormatFile on each file, until the first one that raises. */
  function FormatAll(files: seq<seq<string>>, gi: bool): seq<Result<seq<string>, FormatError>> {
    RunFiles(FileFormatter(gi), files)
  }

  /** Formatting a file raises exactly when the file is empty. */
  lemma {:induction false} FormatFileFails(lines: seq<string>, gi: bool)
    ensures FormatFile(lines, gi).Failure? <==> lines == []
  {
    var c := CheckForFinalNewline(lines);
    assert c.Failure? <==> |lines| == 0;
  }

  /**
    A sequence of results is the run over `files` when each is the result of
    its file, every one before the last succeeded, and it stops early only at
    a failure.
   */
  lemma {:induction false} RunFilesIs(format: seq<string> -> Result<seq<string>, FormatError>, files: seq<seq<string>>,
                                      results: seq<Result<seq<string>, FormatError>>)
    requires |results| <= |files|
    requires forall k | 0 <= k < |results| :: results[k] == format(files[k])
    requires forall k | 0 <= k < |results| - 1 :: results[k].Success?
    requires |results| == |files| || (|results| > 0 && results[|results| - 1].Failure?)
    ensures RunFiles(format, files) == results
    decreases |files|
  {
    if files != [] {
      if format(files[0]).Failure? {
        assert |results| == 1;
      } else {
        var rest := results[1..];
        forall k | 0 <= k < |rest| ensures rest[k] == format(files[1..][k]) {
          assert rest[k] == results[k + 1] && files[1..][k] == files[k + 1];
        }
        forall k | 0 <= k < |rest| - 1 ensures rest[k].Success? {
          assert rest[k] == results[k + 1];
        }
        RunFilesIs(format, files[1..], rest);
        assert results == [results[0]] + rest;
      }
    }
  }

  /** The first `|results|` files were formatted, in order, and each succeeded. */
  predicate RunPrefix(format: seq<string> -> Result<seq<string>, FormatError>, files: seq<seq<string>>,
                      results: seq<Result<seq<string>, FormatError>>) {
    |results| <= |files| &&
    forall k | 0 <= k < |results| :: results[k] == format(files[k]) && results[k].Success?
  }

  /** Formatting the next file successfully extends the prefix. */
  lemma {:induction false} RunPrefixStep(format: seq<string> -> Result<seq<string>, FormatError>, files: seq<seq<string>>,
                                         results: seq<Result<seq<string>, FormatError>>, r: Result<seq<string>, FormatError>)
    requires RunPrefix(format, files, results) && |results| < |files|
    requires r == format(files[|results|]) && r.Success?
    ensures RunPrefix(format, files, results + [r])
  {
    var next := results + [r];
    forall k | 0 <= k < |next| ensures next[k] == format(files[k]) && next[k].Success? {
      if k < |results| { assert next[k] == results[k]; }
    }
  }

  /** A prefix that covers every file, or that a failure `r` ends, is the whole run. */
  lemma {:induction false} RunPrefixEnds(format: seq<string> -> Result<seq<string>, FormatError>, files: seq<seq<string>>,
                                         results: seq<Result<seq<string>, FormatError>>, r: Result<seq<string>, FormatError>)
    requires RunPrefix(format, files, results)
    requires |results| < |files| ==> r == format(files[|results|]) && r.Failure?
    ensures |results| == |files| ==> RunFiles(format, files) == results
    ensures |results| < |files| ==> RunFiles(format, files) == results + [r]
  {
    var run := if |results| == |files| then results else results + [r];
    forall k | 0 <= k < |run| ensures run[k] == format(files[k]) {
      if k < |results| { assert run[k] == results[k]; }
    }
    forall k | 0 <= k < |run| - 1 ensures run[k].Success? {
      assert run[k] == results[k];
    }
    RunFilesIs(format, files, run);
  }

  /** The results of a run are those of its files, in order, and every one before the last succeeded. */
  lemma {:induction false} RunFilesInOrder(format: seq<string> -> Result<seq<string>, FormatError>, files: seq<seq<string>>)
    ensures var r := RunFiles(format, files);
            && |r| <= |files|
            && (forall i | 0 <= i < |r| :: r[i] == format(files[i]))
            && (forall i | 0 <= i < |r| - 1 :: r[i].Success?)
            && (|r| < |files| ==> |r| > 0 && r[|r| - 1].Failure?)
            && ((forall i | 0 <= i < |files| :: format(files[i]).Success?) ==> |r| == |files|)
    decreases |files|
  {
    if files != [] && format(files[0]).Success? {
      var rest := files[1..];
      RunFilesInOrder(format, rest);
      var r := RunFiles(format, files);
      forall i | 0 <= i < |r| ensures r[i] == format(files[i]) {
        if i > 0 { assert r[i] == RunFiles(format, rest)[i - 1] && files[i] == rest[i - 1]; }
      }
      if forall i | 0 <= i < |files| :: format(files[i]).Success? {
        forall i | 0 <= i < |rest| ensures format(rest[i]).Success? {
          assert rest[i] == files[i + 1];
        }
      }
    }
  }

  /**
    A run of `format_files` formats the files in order and stops right after
    the first empty file: every file before it is non-empty, and every file
    is formatted when none is empty.
   */
  lemma {:induction false} FormatAllStopsAtEmptyFile(files: seq<seq<string>>, gi: bool)
    ensures var r := FormatAll(files, gi);
            && |r| <= |files|
            && (forall i | 0 <= i < |r| :: r[i] == FormatFile(files[i], gi))
            && (forall i | 0 <= i < |r| - 1 :: files[i] != [])
            && (|r| < |files| ==> |r| > 0 && files[|r| - 1] == [])
            && ((forall i | 0 <= i < |files| :: files[i] != []) ==> |r| == |files|)
  {
    var format := FileFormatter(gi);
    RunFilesInOrder(format, files);
    forall lines ensures format(lines).Failure? <==> lines == [] {
      FormatFileFails(lines, gi);
    }
  }

  class AsmFormatter {
    /** The files to format, each as its lines (`self.input`). */
    var input: seq<seq<string>>
    var globalIndent: bool
    var globalLineLen: nat
    var commentLines: map<int, string>
    var codeLines: map<int, string>
    var commentGroups: map<int, CommentGroup>
    var codeGroups: map<int, CodeGroup>

    /** The per-file state as the constructor sets it up and `format_files` resets it. */
    predicate Clean()
      reads this
    {
      globalLineLen == 0 && commentLines == map[] && codeLines == map[] &&
      commentGroups == map[] && codeGroups == map[]
    }

    constructor (files: seq<seq<string>>, globalIndent: bool)
      ensures input == files && this.globalIndent == globalIndent && Clean()
    {
      input := files;
      this.globalIndent := globalIndent;
      globalLineLen := 0;
      commentLines := map[];
      codeLines := map[];
      commentGroups := map[];
      codeGroups := map[];
    }

    /**
      `_find_features`: one pass over the lines records every comment-only
      line and every code line under its index, and raises `globalLineLen`
      to the longest code length seen; then adds one.
     */
    method FindFeatures(lines: seq<string>)
      modifies this
      ensures commentLines == old(commentLines) + CommentLinesOf(lines)
      ensures codeLines == old(codeLines) + CodeLinesOf(lines)
      ensures globalLineLen == Max(old(globalLineLen), LongestCode(lines, |lines|)) + 1
      ensures input == old(input) && globalIndent == old(globalIndent)
      ensures commentGroups == old(commentGroups) && codeGroups == old(codeGroups)
    {
      commentLines, codeLines, globalLineLen := ScanLines(lines, commentLines, codeLines, globalLineLen);
      globalLineLen := globalLineLen + 1;
    }

    /**
      `_get_candidate_comment_groups`: the comment builder adds its groups to
      `commentGroups`; from an empty `commentGroups` it leaves exactly the
      comment groups of `commentLines`.
     */
    method GetCandidateCommentGroups()
      modifies this
      ensures commentGroups == CommentGroupsBuilt(old(commentLines), old(commentGroups))
      ensures old(commentGroups) == map[] ==> commentGroups == CommentGroupsOf(commentLines)
      ensures input == old(input) && globalIndent == old(globalIndent) && globalLineLen == old(globalLineLen)
      ensures commentLines == old(commentLines) && codeLines == old(codeLines) && codeGroups == old(codeGroups)
    {
      commentGroups := BuildCommentGroups(commentLines, commentGroups);
    }

    /**
      `_get_candidate_code_groups`: the code builder adds its groups to
      `codeGroups`; from an empty `codeGroups` it leaves exactly the code
      groups of `codeLines`.
     */
    method GetCandidateCodeGroups()
      modifies this
      ensures codeGroups == CodeGroupsBuilt(old(codeLines), old(codeGroups))
      ensures old(codeGroups) == map[] ==> codeGroups == CodeGroupsOf(codeLines)
      ensures input == old(input) && globalIndent == old(globalIndent) && globalLineLen == old(globalLineLen)
      ensures commentLines == old(commentLines) && codeLines == old(codeLines) && commentGroups == old(commentGroups)
    {
      codeGroups := BuildCodeGroups(codeLines, codeGroups);
    }

    /**
      The main loop of `format_asm` over the file's lines, with the groups
      of that file: at a comment group it writes the group's box and moves
      past its rows, at a code group it writes its rows and moves past them,
      and it passes over any other line.
     */
    method WriteGroups(lines: seq<string>) returns (out: seq<string>)
      requires commentGroups == CommentGroupsOf(CommentLinesOf(lines))
      requires codeGroups == CodeGroupsOf(CodeLinesOf(lines)) && globalLineLen == GlobalLineLen(lines)
      ensures out == Stream(lines, FilePlan(lines, globalIndent), 0)
    {
      ghost var p := FilePlan(lines, globalIndent);
      FilePlanFits(lines, globalIndent);
      out := [];
      var idx := 0;
      while idx < |lines|
        invariant 0 <= idx <= |lines|
        invariant out + Stream(lines, p, idx) == Stream(lines, p, 0)
      {
        StreamStep(lines, p, idx);
        var block: seq<string>;
        var next: int;
        if idx in commentGroups {
          var group := commentGroups[idx];
          block := WriteCommentGroup(lines, idx, group, globalIndent);
          next := idx + group.numRows;
        } else if idx in codeGroups {
          var cGroup := codeGroups[idx];
          block := WriteCodeGroup(lines, idx, cGroup, globalLineLen, globalIndent);
          next := idx + cGroup.numRows;
        } else {
          block := [];
          next := idx + 1;
        }
        assert block == Block(lines, p, idx) && next == Next(p, idx);
        AppendAssoc(out, block, Stream(lines, p, next));
        out := out + block;
        idx := next;
      }
      assert Stream(lines, p, idx) == [];
      assert out + [] == out;
    }

    /**
      `format_asm` on a file, from the clean state: the feature scan, the two
      builders, the main loop, and a final "\n" when the last line already
      ends in one. An empty file raises an IndexError in that last check.
      Afterwards the per-file state holds that file's features and groups.
     */
    method FormatAsm(lines: seq<string>) returns (written: Result<seq<string>, FormatError>)
      requires Clean()
      modifies this
      ensures written == FormatFile(lines, globalIndent)
      ensures commentLines == CommentLinesOf(lines) && codeLines == CodeLinesOf(lines)
      ensures globalLineLen == GlobalLineLen(lines)
      ensures commentGroups == CommentGroupsOf(commentLines) && codeGroups == CodeGroupsOf(codeLines)
      ensures input == old(input) && globalIndent == old(globalIndent)
    {
      FindFeatures(lines);
      assert commentLines == CommentLinesOf(lines) && codeLines == CodeLinesOf(lines);
      GetCandidateCommentGroups();
      GetCandidateCodeGroups();
      var out := WriteGroups(lines);
      var finalCheck := CheckForFinalNewline(lines);
      match finalCheck
      case Failure(e) =>
        written := Failure(e);
      case Success(noFinalNewline) =>
        if !noFinalNewline {
          out := out + ["\n"];
        }
        written := Success(out);
    }

    /**
      One round of the `format_files` loop: format the file, and when that
      succeeds clear the five fields that `format_asm` filled.
     */
    method FormatNext(lines: seq<string>) returns (r: Result<seq<string>, FormatError>)
      requires Clean()
      modifies this
      ensures r == FormatFile(lines, globalIndent)
      ensures input == old(input) && globalIndent == old(globalIndent)
      ensures r.Success? ==> Clean()
    {
      r := FormatAsm(lines);
      if r.Success? {
        globalLineLen := 0;
        commentLines := map[];
        commentGroups := map[];
        codeLines := map[];
        codeGroups := map[];
      }
    }

    /**
      `format_files`: each input file is formatted in turn, and the per-file
      state is reset after each one; the first file whose formatting raises
      ends the run, leaving that file's state in place.
     */
    method FormatFiles() returns (results: seq<Result<seq<string>, FormatError>>)
      requires Clean()
      modifies this
      ensures results == FormatAll(input, globalIndent)
      ensures input == old(input) && globalIndent == old(globalIndent)
      ensures (forall k | 0 <= k < |results| :: results[k].Success?) ==> Clean()
    {
      results := [];
      var i := 0;
      ghost var format := FileFormatter(globalIndent);
      while i < |input|
        invariant 0 <= i <= |input| && Clean() && |results| == i
        invariant input == old(input) && globalIndent == old(globalIndent)
        invariant RunPrefix(format, input, results)
      {
        var r := FormatNext(input[i]);
        assert r == format(input[|results|]);
        if r.Failure? {
          RunPrefixEnds(format, input, results, r);
          results := results + [r];
          assert results[|results| - 1].Failure?;
          return;
        }
        RunPrefixStep(format, input, results, r);
        results := results + [r];
        i := i + 1;
      }
      RunPrefixEnds(format, input, results, Failure(IndexError));
    }
  }
}
