# asmfmt in Dafny

This project models `AsmFormatter`, the core of the assembly source formatter
`asmfmt`. The formatter reads a file as a list of lines and sorts each line into
one of three kinds: a comment-only line, a line of code without a comment, or a
line of code that ends in a comment. A line of a fourth kind, which holds a `;`
but starts with neither `;` nor a word character (such as `[hl] ; x`), is in no
group and is not written (`Classifier.UnclassifiedLine`,
`Properties.UnclassifiedLineDropped`). It then does the following:

- It builds groups of consecutive comment lines that share a leading-whitespace
  signature. Each group is boxed between `;---;` border lines, and each row is
  padded to the group's width and closed with a `;`.
- It builds groups of consecutive code lines in the same way. Within a group,
  the trailing comments are aligned: by default to the group's right-most `;`,
  and in global mode to one column past the longest code in the file.
- `format_files` formats every file in turn and clears the per-file state
  between files.

The modules follow the stages of the program:

| module | file | models |
|---|---|---|
| `Text` | text.dfy | `str.find`, `rstrip`, repeated characters, ASCII `\s` / `\w`, the scans behind the regular expressions |
| `Classifier` | classifier.dfy | the five regular expressions of the constructor, as predicates on a line |
| `Features` | features.dfy | what `_find_features` records: `commentLines`, `codeLines`, `globalLineLen` (specification functions) |
| `Groups` | groups.dfy | the `CodeGroup` / `CommentGroup` records and the groups the builders produce, defined as maximal runs of a map (specification) |
| `Builders` | builders.dfy | the two imperative group builders, proved equal to the run definition |
| `Rewrite` | rewrite.dfy | the pure helpers `pad_line_with_spaces`, `format_comment`, `is_code_formatted`, `is_comment_formatted`, `check_for_final_newline`, and the border string |
| `Output` | output.dfy | the sequence of strings `format_asm` passes to `o.write`, as a function `FormatFile`, and its line-by-line reading |
| `Properties` | properties.dfy | theorems about `FormatFile`: what each input line becomes, comment alignment, boxes |
| `Formatter` | formatter.dfy | the class `AsmFormatter`: fields, `_find_features`, the builders on the fields, `format_asm`, `format_files` |

Each imperative method of the class is proved against a specification function
in one of the modules above. It either computes the function's value or
leaves the fields in the state the function describes. The properties the
formatter promises are lemmas about those functions.

## Model

| member | source | states |
|---|---|---|
| Text.Find | asmfmt/asmfmt.py:287 | the result is -1 exactly when the character is absent, otherwise the index of its first occurrence (Python `str.find`) |
| Text.FindFrom | asmfmt/asmfmt.py:304-306 | `find(c, start)`: -1 exactly when no occurrence at or after `start`, otherwise the first such index |
| Text.RStrip | asmfmt/asmfmt.py:356-361 | `rstrip()` yields the longest prefix that does not end in whitespace, and everything it removes is whitespace |
| Text.Repeat | asmfmt/asmfmt.py:256 | `' ' * n` has `max(n, 0)` characters, all equal to the given one |
| Text.SpaceEnd | asmfmt/asmfmt.py:41-43 | the end of the `\s*` prefix that the regular expressions skip: all whitespace before it, no whitespace at it |
| Text.Body | asmfmt/asmfmt.py:269-274 | a line with its trailing newline removed, or unchanged when it has none |
| Classifier.NoCodeComment | asmfmt/asmfmt.py:42 | a line matching `^\s*;` is non-empty, and its first `;` comes right after its leading whitespace |
| Classifier.CodeAndComment | asmfmt/asmfmt.py:41 | a line matching `^\s*\w+.*;` contains a `;` |
| Classifier.LeadingWhiteSpace | asmfmt/asmfmt.py:44 | the `[ \t]*` prefix of a line: a prefix made of spaces and tabs that cannot be extended |
| Classifier.BorderIsComment | asmfmt/asmfmt.py:42-43 | every line matching the border expression `^\s*;-*;` also matches `^\s*;` |
| Classifier.KindsDisjoint | asmfmt/asmfmt.py:39-42 | no line matches two of the three kind expressions, so the branches at 344-362 never overlap |
| Classifier.WordLedComment | asmfmt/asmfmt.py:41 | a single line whose first non-blank character is a word character and that contains `;` matches `^\s*\w+.*;` |
| Classifier.UnclassifiedLine | asmfmt/asmfmt.py:39-42 | a single line matches none of the three kind expressions exactly when it holds a `;` and its first non-blank character is neither `;` nor a word character |
| Classifier.SamePrefixSameShape | asmfmt/asmfmt.py:42-44 | a line that agrees with a comment-only line up to its first `;` is comment-only too and has the same signature |
| Features.InLinesWhere | asmfmt/asmfmt.py:344-362 | line `i` is recorded exactly when it is among the lines scanned and passes the test, and it is recorded with its own text |
| Features.InCommentLines | asmfmt/asmfmt.py:344-348 | `commentLines` holds exactly the comment-only lines, each under its own index |
| Features.InCodeLines | asmfmt/asmfmt.py:353-362 | `codeLines` holds exactly the lines matching 39 or 41, each under its own index |
| Features.InCommentLinesUpTo | asmfmt/asmfmt.py:344-348 | after `n` lines, `commentLines` holds exactly the comment-only lines among them |
| Features.InCodeLinesUpTo | asmfmt/asmfmt.py:353-362 | after `n` lines, `codeLines` holds exactly the code lines among them |
| Features.CodeLength | asmfmt/asmfmt.py:353-362 | the code length of a line is at most its length, 0 for a line that is not code, and no further than its first `;` for code with a comment |
| Features.LongestIsMax | asmfmt/asmfmt.py:364-365 | a running maximum bounds every value it has seen and equals one of them, or it is 0 |
| Features.LongestCodeIsLongest | asmfmt/asmfmt.py:364-365 | the scan's running maximum of code lengths is the generic running maximum |
| Features.LongestCodeIsMax | asmfmt/asmfmt.py:364-365 | the running maximum bounds the code length of every line seen and is attained, or it is 0 |
| Features.GlobalLineLenIsOnePastLongestCode | asmfmt/asmfmt.py:364-369 | `globalLineLen` is one more than the longest code of any code line, and it is 1 when there is no code line |
| Features.FeatureSetsPartition | asmfmt/asmfmt.py:344-362 | the two index sets are exactly the comment-only lines and the code lines, they are disjoint, and each entry holds its line |
| Groups.RunEnd | asmfmt/asmfmt.py:400-422 | a group extended from its first row ends at a recorded row, every row up to the end joins its predecessor, and the row after the end does not |
| Groups.RunStart | asmfmt/asmfmt.py:400-450 | the group start of a recorded row is a run start at or before it, with every row in between joining its predecessor |
| Groups.MaxRowLenIsMax | asmfmt/asmfmt.py:413-414 | a comment group's `maxLen` bounds the length of each of its rows and equals one of them |
| Groups.MaxSemicolonIsMax | asmfmt/asmfmt.py:507-509 | a code group's `maxSemiColonIdx` bounds `find(';')` of each of its rows and equals one of them |
| Groups.SignatureNeverNewline | asmfmt/asmfmt.py:502 | the `[ \t]*` prefix is never `"\n"`, so the second disjunct at 502 never holds; a blank line has signature `""` (the expression at 44 has no newline) |
| Groups.RunEndOfRow | asmfmt/asmfmt.py:400-422 | every row reached by joining lies in the same group and leads to the same end |
| Groups.RunStartOfRow | asmfmt/asmfmt.py:400-450 | every row of a group has that group's start as its start |
| Groups.RunCovers | asmfmt/asmfmt.py:400-450 | every recorded row lies between its group's start and end |
| Groups.RunsDisjoint | asmfmt/asmfmt.py:430-450 | a group ends before the next group starts |
| Groups.RunSignature | asmfmt/asmfmt.py:405 | all rows of a comment run share the first row's signature |
| Groups.RunFinalIffLast | asmfmt/asmfmt.py:453-464 | a run reaches the last recorded row exactly when no run starts after it |
| Groups.UnionRowsMember | asmfmt/asmfmt.py:400-464 | a row covered by a list of groups lies in one of them |
| Groups.UnionRowsContains | asmfmt/asmfmt.py:400-464 | every row of a listed group is covered |
| Groups.UnionRowsDisjoint | asmfmt/asmfmt.py:430-450 | an unlisted group shares no row with the listed ones |
| Groups.UnionRowsSize | asmfmt/asmfmt.py:400-464 | distinct groups cover as many rows as their lengths add up to |
| Groups.RunLengthsSum | asmfmt/asmfmt.py:400-464 | the lengths of all groups add up to the number of recorded rows |
| Groups.CommentGroupsOfKeys | asmfmt/asmfmt.py:439-450 | the keys of `commentGroups` are exactly the first rows of the runs |
| Groups.CodeGroupsOfKeys | asmfmt/asmfmt.py:520-527 | the keys of `codeGroups` are exactly the first rows of the runs |
| Groups.CommentGroupExtent | asmfmt/asmfmt.py:386-464 | a comment group is a maximal run of consecutive indices with one signature: the row before it and the row after it, when recorded, have a different signature |
| Groups.CommentGroupWidth | asmfmt/asmfmt.py:391-417 | `maxLen` is the largest row length in the group, newline included |
| Groups.CommentGroupFlags | asmfmt/asmfmt.py:394-462 | `hasTopBorder` holds iff the first row is a border; `hasBottomBorder` holds iff the last row is a border, except for a non-final, one-row group that is already a top border |
| Groups.LastCommentGroup | asmfmt/asmfmt.py:453-464 | the group stored after the loop is the one that no other group follows |
| Groups.CodeGroupExtent | asmfmt/asmfmt.py:479-530 | a code group is a maximal run of consecutive indices with one signature |
| Groups.CodeGroupSemicolon | asmfmt/asmfmt.py:482-508 | `maxSemiColonIdx` is the largest `find(';')` over the rows, and it is -1 exactly when no row has a `;` |
| Groups.CommentGroupsCover | asmfmt/asmfmt.py:386-464 | every comment line lies in exactly one comment group |
| Groups.CodeGroupsCover | asmfmt/asmfmt.py:479-530 | every code line lies in exactly one code group |
| Groups.SumRowsIsRunLengths | asmfmt/asmfmt.py:400-464 | stored `numRows` values add up like the run lengths they record |
| Groups.CommentRowsTotal | asmfmt/asmfmt.py:386-464 | the `numRows` of all comment groups add up to `len(commentLines)` |
| Groups.CodeRowsTotal | asmfmt/asmfmt.py:479-530 | the `numRows` of all code groups add up to `len(codeLines)` |
| Builders.SortedKeys | asmfmt/asmfmt.py:377-386 | `sorted(d.keys())` is strictly increasing and holds exactly the keys |
| Builders.CommentGroupsUpToAll | asmfmt/asmfmt.py:400-464 | the groups closed after all indices are the full set of runs, and an index not yet reached has no group |
| Builders.CodeGroupsUpToAll | asmfmt/asmfmt.py:485-530 | the same for code groups |
| Builders.CommentRound | asmfmt/asmfmt.py:400-450 | one loop round of the comment builder: join, or close the group (with the one-row border exception) and open a new one |
| Builders.CommentOpen | asmfmt/asmfmt.py:440-450 | a new comment group has one row, the row's length, and a top flag iff the row is a border (as also at 391-397) |
| Builders.CommentStoreLast | asmfmt/asmfmt.py:453-464 | the last group gets its bottom flag without the one-row exception and is stored unless its key is already present |
| Builders.CommentLoop | asmfmt/asmfmt.py:400-450 | the loop over sorted indices computes the scan function from the second index on |
| Builders.CommentGroupsBuiltCorrect | asmfmt/asmfmt.py:371-467 | starting from no groups, the builder's result is exactly the set of maximal runs with their widths and flags |
| Builders.BuildCommentGroups | asmfmt/asmfmt.py:371-467 | the builder computes its scan function, and from an empty map it yields exactly the maximal comment runs |
| Builders.CodeRound | asmfmt/asmfmt.py:485-527 | one loop round of the code builder: join (same signature or a blank line) and raise `maxSemiColonIdx`, or store the group and open a new one |
| Builders.CodeLoop | asmfmt/asmfmt.py:485-527 | the loop over sorted code indices computes the scan function from the second index on |
| Builders.CodeGroupsBuiltCorrect | asmfmt/asmfmt.py:469-530 | starting from no groups, the builder's result is exactly the set of maximal code runs with their semicolon columns |
| Builders.BuildCodeGroups | asmfmt/asmfmt.py:469-530 | the builder computes its scan function, and from an empty map it yields exactly the maximal code runs |
| Rewrite.PadLineWithSpaces | asmfmt/asmfmt.py:253-259 | the text before the first `;` and the text from it on are kept, only spaces go between, the first `;` lands at `max(index, indent)`, and the line is unchanged when `indent <= index` |
| Rewrite.SpliceFacts | asmfmt/asmfmt.py:253-259 | splicing a piece between two parts keeps both parts and moves the first `;` by the piece's length |
| Rewrite.FormatComment | asmfmt/asmfmt.py:261-277 | the line without its newline, then spaces, then `";\n"`; its length is `max(length + 1, len(body) + 2)` |
| Rewrite.PaddedFacts | asmfmt/asmfmt.py:277 | `body + ' ' * n + ";\n"` keeps the body, has only spaces after it and ends in `";\n"` |
| Rewrite.IsCommentFormatted | asmfmt/asmfmt.py:294-306 | true iff the line holds two `;`, the second after the first |
| Rewrite.CodeRowAligned | asmfmt/asmfmt.py:188-194 | a code row without comment is written unchanged; a row with a comment is padded so its first `;` sits at `max(index, globalLineLen or maxSemiColonIdx)`, with code and comment kept (the test of 279-292) |
| Rewrite.CommentRowFormatted | asmfmt/asmfmt.py:143-148 | every written comment row is formatted, formatting twice changes nothing, and an already formatted row is written unchanged (the test of 294-306) |
| Rewrite.FormatCommentKeepsPrefix | asmfmt/asmfmt.py:261-277 | formatting a comment row keeps everything up to its first `;` |
| Rewrite.CommentRowShape | asmfmt/asmfmt.py:143-148 | a written comment row is still comment-only and keeps its signature |
| Rewrite.Border | asmfmt/asmfmt.py:125-137 | the border is the row's leading whitespace, `;`, dashes and `";\n"` |
| Rewrite.BorderRecognized | asmfmt/asmfmt.py:125-137 | a written border matches the border expression and counts as formatted (the expression at 43) |
| Rewrite.BorderIsCommentBorder | asmfmt/asmfmt.py:125-137 | a written border matches `^\s*;-*;` (the expression at 43) |
| Rewrite.BorderSignature | asmfmt/asmfmt.py:125-137 | a written border has the group's signature |
| Rewrite.BoxAligned | asmfmt/asmfmt.py:125-148 | for a one-newline first row and a newline-terminated row no longer than `maxLen`, the border and the formatted row both have length `maxLen + 1` (with `format_comment`, 261-277) |
| Rewrite.CheckForFinalNewline | asmfmt/asmfmt.py:228-241 | an empty file fails like `lines[-1]`; otherwise the result is true exactly when the last line has no `'\n'` |
| Output.CommentRowsAt | asmfmt/asmfmt.py:143-148 | row `k` of a comment block is the formatted input row `s + k` |
| Output.CodeRowsAt | asmfmt/asmfmt.py:188-194 | row `k` of a code block is the written input row `s + k` |
| Output.FramedElements | asmfmt/asmfmt.py:139-171 | every line written for a comment row is the row itself or the group's border |
| Output.StreamStep | asmfmt/asmfmt.py:115-212 | each step of the main loop moves forward and writes the current block followed by the rest of the stream |
| Output.SpecCommentGroupsFit | asmfmt/asmfmt.py:143-168 | every comment group's rows are existing comment-only lines, so the `StopIteration` handler is unreachable |
| Output.SpecCodeGroupsFit | asmfmt/asmfmt.py:188-212 | every code group's rows are existing lines, so the `StopIteration` handler is unreachable |
| Output.FilePlanFits | asmfmt/asmfmt.py:115-212 | both group maps of a file fit within its lines |
| Output.FilePlanCommentBlock | asmfmt/asmfmt.py:121-174 | at a comment-group start, the output is the border iff no top border, the `numRows` formatted rows, and the border iff no bottom border |
| Output.FilePlanCodeBlock | asmfmt/asmfmt.py:181-194 | at a code-group start that is not a comment start, the output is the `numRows` written code rows |
| Output.OneOwner | asmfmt/asmfmt.py:115-212 | in a tiling plan, a line belongs to at most one group |
| Output.CommentLineOutput | asmfmt/asmfmt.py:121-174 | what a line inside a comment group contributes: its formatted row, with the top border before the first row and the bottom border after the last |
| Output.CodeLineOutput | asmfmt/asmfmt.py:181-194 | what a line inside a code group contributes: its written code row |
| Output.UngroupedLineOutput | asmfmt/asmfmt.py:115-212 | a line in no group contributes nothing |
| Output.JoinSplit | asmfmt/asmfmt.py:115-212 | the per-line outputs of a range split at any midpoint |
| Output.JoinRows | asmfmt/asmfmt.py:143-148 | lines that each contribute one row contribute those rows in order (and likewise the code rows at 188-194) |
| Output.FramedAppend | asmfmt/asmfmt.py:139-171 | adding one framed row extends a box prefix by that row |
| Output.JoinBoxPrefix | asmfmt/asmfmt.py:139-171 | the first `m` rows of a comment group contribute the first `m` rows of its box |
| Output.JoinBox | asmfmt/asmfmt.py:139-171 | the rows of a comment group together contribute top border, rows, bottom border |
| Output.WalkIsJoin | asmfmt/asmfmt.py:115-212 | a loop that jumps from group start to group start writes the same lines as visiting every line |
| Output.CommentRowOutput | asmfmt/asmfmt.py:139-171 | row `k` of a comment group contributes its framed formatted row |
| Output.CommentBlockIsFlat | asmfmt/asmfmt.py:121-174 | the comment block written at a group start equals the lines its rows contribute |
| Output.CodeBlockIsFlat | asmfmt/asmfmt.py:181-194 | the code block written at a group start equals the lines its rows contribute |
| Output.BoundaryAfter | asmfmt/asmfmt.py:115-212 | after a group the loop is again at a group boundary, further on |
| Output.BlockIsFlat | asmfmt/asmfmt.py:115-212 | the block written at a boundary equals the lines from it to the next boundary |
| Output.StreamIsFlat | asmfmt/asmfmt.py:115-212 | the whole stream is the per-line outputs in order |
| Output.WrittenIsFlat | asmfmt/asmfmt.py:106-218 | an empty file fails; otherwise the output is the per-line outputs in order, plus `"\n"` when the last input line already ends in a newline |
| Properties.FilePlanTiles | asmfmt/asmfmt.py:106-212 | the groups of a file do not overlap: no line lies in two groups, and no comment group shares a line with a code group |
| Properties.FormatFileIsPerLine | asmfmt/asmfmt.py:106-218 | formatting a file writes, line by line, what each input line contributes, then the final-newline quirk; an empty file fails |
| Properties.CommentGroupOf | asmfmt/asmfmt.py:371-467 | every comment-only line has a comment group containing it |
| Properties.CodeGroupOf | asmfmt/asmfmt.py:469-530 | every code line has a code group containing it |
| Properties.CommentLineWritten | asmfmt/asmfmt.py:121-174 | a comment-only line is written as its formatted row, framed by the border at the group's ends when the group lacks it |
| Properties.CodeLineWritten | asmfmt/asmfmt.py:181-194 | a code line is written as its code row, padded when it has an unaligned comment |
| Properties.UnclassifiedLineDropped | asmfmt/asmfmt.py:115-212 | a line that matches none of the kind expressions is not written at all |
| Properties.LocalAlignment | asmfmt/asmfmt.py:188-194 | with local indent, each commented code line has its `;` moved right to the group's `maxSemiColonIdx`, and its code is kept (the test of 279-292) |
| Properties.GroupCommentsAligned | asmfmt/asmfmt.py:188-194 | with local indent, all commented code lines of one group have their `;` in the same column |
| Properties.GlobalAlignment | asmfmt/asmfmt.py:188-194 | with global indent, each commented code line has its `;` in column `max(index, globalLineLen)`, which is past all of its code (`globalLineLen` from 364-369) |
| Properties.CommentOutputFormatted | asmfmt/asmfmt.py:121-174 | every line written for a comment line is comment-only, formatted and keeps the line's signature; each such line is left unchanged when its row is formatted again (`Rewrite.CommentRowFormatted`) |
| Properties.EachFormatted | asmfmt/asmfmt.py:139-171 | (helper) if both the row and the border are formatted comment lines with a signature, so is every framed line |
| Properties.SameGroupSameSignature | asmfmt/asmfmt.py:405 | all rows of a comment group share its first row's signature |
| Properties.CommentPiecesFormatted | asmfmt/asmfmt.py:125-148 | the formatted row and the border of a group are formatted comment lines with the group's signature |
| Properties.CommentBoxAligned | asmfmt/asmfmt.py:121-174 | an unformatted newline-terminated comment row and the border of its group have the same length `maxLen + 1`, so the box's right edge is straight (with `format_comment`, 261-277) |
| Formatter.RecordStep | asmfmt/asmfmt.py:344-362 | recording one more line keeps the record equal to the lines that pass the test so far |
| Formatter.CommentStep | asmfmt/asmfmt.py:344-348 | one more round keeps `commentLines` equal to the comment-only lines scanned |
| Formatter.CodeStep | asmfmt/asmfmt.py:353-362 | one more round keeps `codeLines` equal to the code lines scanned |
| Formatter.LongestStep | asmfmt/asmfmt.py:364-365 | one more round keeps the running maximum |
| Formatter.ScannedStep | asmfmt/asmfmt.py:334-365 | one round of the scan loop keeps all three parts of the loop invariant |
| Formatter.ScanLine | asmfmt/asmfmt.py:344-362 | one line is classified by the three expressions and its code length computed |
| Formatter.ScanLines | asmfmt/asmfmt.py:334-365 | the scan loop adds exactly the comment-only lines and code lines and leaves the running maximum of the code lengths |
| Formatter.BorderString | asmfmt/asmfmt.py:125-137 | builds the comment group's border line |
| Formatter.FormatCommentRow | asmfmt/asmfmt.py:143-148 | writes a comment row unchanged when formatted, else through `format_comment` |
| Formatter.FormatCodeRow | asmfmt/asmfmt.py:188-194 | pads a commented code row only when it is not yet aligned |
| Formatter.WriteCommentRows | asmfmt/asmfmt.py:143-148 | the loop writes row `k` of the group as the formatted input row `s + k` |
| Formatter.WriteCodeRows | asmfmt/asmfmt.py:188-194 | the loop writes row `k` of the group as the code row of input row `s + k` |
| Formatter.WriteCommentGroup | asmfmt/asmfmt.py:121-174 | writes exactly the comment block the stream specifies and consumes `numRows` lines |
| Formatter.WriteCodeGroup | asmfmt/asmfmt.py:181-212 | writes exactly the code block the stream specifies and consumes `numRows` lines |
| Formatter.FormatFileFails | asmfmt/asmfmt.py:228-241 | formatting a file fails exactly when it has no lines (the call at 216) |
| Formatter.RunFilesInOrder | asmfmt/asmfmt.py:53-74 | files are formatted in order; every result before the last succeeded; if processing stopped early, the last result is the failure |
| Formatter.FormatAllStopsAtEmptyFile | asmfmt/asmfmt.py:53-74 | `format_files` formats every file in order and stops at the first empty file, which raises (the raise comes from 228-241) |
| Classifier.CodeNoComment | asmfmt/asmfmt.py:39 | `^((?!;).)*$`: the line holds no `;` and no newline before its end (definition; `KindsDisjoint` separates it from the other kinds) |
| Classifier.CommentBorder | asmfmt/asmfmt.py:43 | `^\s*;-*;`: after the leading whitespace come `;`, dashes and another `;` (definition; `BorderIsComment` shows each border is a comment-only line) |
| Rewrite.Indent | asmfmt/asmfmt.py:191 | the column a commented code row is padded to: `globalLineLen` in global mode, the group's `maxSemiColonIdx` otherwise (definition; used by `CodeRowAligned`) |
| Rewrite.IsCodeFormatted | asmfmt/asmfmt.py:279-292 | the first `;` of the row is already at that column (definition; `CodeRowAligned` shows such a row is kept and every other commented row is moved to the column) |
| Rewrite.CommentRow | asmfmt/asmfmt.py:143-148 | a comment row is kept when already formatted and otherwise goes through `format_comment` (definition; `CommentRowFormatted` and `CommentRowShape` state its result) |
| Rewrite.CodeRow | asmfmt/asmfmt.py:188-194 | only commented code rows that are not aligned are padded; all others are written verbatim (definition; `CodeRowAligned` states its result) |
| Features.CommentLinesOf | asmfmt/asmfmt.py:344-348 | `commentLines` after the scan (definition; `InCommentLines` and `FeatureSetsPartition` state its contents) |
| Features.CodeLinesOf | asmfmt/asmfmt.py:353-362 | `codeLines` after the scan (definition; `InCodeLines` and `FeatureSetsPartition` state its contents) |
| Features.LongestCode | asmfmt/asmfmt.py:364-365 | the running maximum of code lengths over the first `n` lines (definition; `LongestCodeIsMax` states it is the attained maximum) |
| Features.GlobalLineLen | asmfmt/asmfmt.py:364-369 | `globalLineLen` after the scan (definition; `GlobalLineLenIsOnePastLongestCode` states its value) |
| Groups.CommentGroupAt | asmfmt/asmfmt.py:388-464 | the comment group of a run: its length, widest row and border flags (definition; `CommentGroupExtent`, `CommentGroupWidth` and `CommentGroupFlags` state them) |
| Groups.CommentGroupsOf | asmfmt/asmfmt.py:386-464 | the intended result of the comment builder, one group per maximal run (definition; `CommentGroupsOfKeys`, `CommentGroupsCover` and `CommentRowsTotal` state it, `Builders.CommentGroupsBuiltCorrect` ties the builder to it) |
| Groups.CodeGroupAt | asmfmt/asmfmt.py:479-530 | the code group of a run: its length and right-most `;` (definition; `CodeGroupExtent` and `CodeGroupSemicolon` state them) |
| Groups.CodeGroupsOf | asmfmt/asmfmt.py:477-530 | the intended result of the code builder, one group per maximal run (definition; `CodeGroupsOfKeys`, `CodeGroupsCover` and `CodeRowsTotal` state it, `Builders.CodeGroupsBuiltCorrect` ties the builder to it) |
| Builders.CommentScanStep | asmfmt/asmfmt.py:400-450 | one round of the comment loop on its local variables (definition; `CommentRound` is proved to compute it and `CommentGroupsBuiltCorrect` proves the scan yields `CommentGroupsOf`) |
| Builders.CodeScanStep | asmfmt/asmfmt.py:485-527 | one round of the code loop on its local variables (definition; `CodeRound` is proved to compute it and `CodeGroupsBuiltCorrect` proves the scan yields `CodeGroupsOf`) |
| Output.Stream | asmfmt/asmfmt.py:115-212 | the lines the main loop writes, jumping from group start to group start (definition; `StreamIsFlat` states them line by line) |
| Output.Written | asmfmt/asmfmt.py:115-218 | the stream followed by the final-newline write (definition; `WrittenIsFlat` states it) |
| Output.FormatFile | asmfmt/asmfmt.py:106-218 | what `format_asm` writes for a file, as the specification `FormatAsm` is proved against (definition; `FormatFileIsPerLine` and the `Properties` lemmas state it) |
| Properties.PlainCodeLineKept | asmfmt/asmfmt.py:186-194 | a code line without a comment is written as itself |
| Properties.WrittenUnchanged | asmfmt/asmfmt.py:115-218 | when every line writes itself, the output is the input, plus `"\n"` when its last line ends in a newline |
| Properties.PlainCodeFileKept | asmfmt/asmfmt.py:106-218 | a file of code lines without comments is written unchanged, plus one `"\n"` when its last line already ends in a newline |
| Properties.FormatTwiceGrows | asmfmt/asmfmt.py:216-218 | formatting the output of such a file again adds one more `"\n"`, so the second result differs from the first: formatting is not idempotent |
| Properties.PlainWithNewline | asmfmt/asmfmt.py:217-218 | the appended `"\n"` is itself a plain code line, so the output is again such a file |
| Formatter.AsmFormatter.Clean | asmfmt/asmfmt.py:46-50 | the per-file state is empty, as the constructor sets it and `format_files` resets it at 68-72 (definition; established by the constructor and `FormatNext`) |
| Formatter.AsmFormatter.constructor | asmfmt/asmfmt.py:31-50 | stores the files and the indent mode with empty per-file state |
| Formatter.AsmFormatter.FindFeatures | asmfmt/asmfmt.py:310-369 | adds the comment-only and code lines to the two maps and sets `globalLineLen` to one past the longest code (or the old value), touching nothing else |
| Formatter.AsmFormatter.GetCandidateCommentGroups | asmfmt/asmfmt.py:371-467 | builds `commentGroups` from `commentLines`, exactly the maximal runs when it starts empty, touching nothing else |
| Formatter.AsmFormatter.GetCandidateCodeGroups | asmfmt/asmfmt.py:469-530 | builds `codeGroups` from `codeLines`, exactly the maximal runs when it starts empty, touching nothing else |
| Formatter.AsmFormatter.WriteGroups | asmfmt/asmfmt.py:115-212 | the main loop writes exactly the specified sequence of strings |
| Formatter.AsmFormatter.FormatAsm | asmfmt/asmfmt.py:77-226 | formats one file as `FormatFile` describes and leaves the fields holding that file's features and groups |
| Formatter.AsmFormatter.FormatNext | asmfmt/asmfmt.py:64-74 | formats one file and, when it succeeds, clears the per-file state |
| Formatter.AsmFormatter.FormatFiles | asmfmt/asmfmt.py:53-74 | the results are those of formatting the files in order up to the first failure, and the state is clean afterwards when all files succeed |

## Left out

- Command-line handling (`parse_args`, `__main__`, 533-545): argument plumbing.
- File handles, `tempfile.mkstemp`, `os.close`, `shutil.move` and `rename_and_remove_tempfile` (97-103, 111-112, 232-234, 244-250): operating-system I/O. A file comes in as the sequence of its lines. What goes out is the sequence of strings `format_asm` passes to `o.write`, not the lines of the output file. A written string need not end in `'\n'`: an already formatted last comment row without a newline is followed directly by the bottom border. Reading that output back as the lines of a file, as `Properties.FormatTwiceGrows` does, is exact only when every written string except the last ends in its only `'\n'`. For a file of plain code lines that each end in their only `'\n'`, the output is those lines plus `"\n"`, so reading it back is exact.
- The `output`, `currentInputFile` and `currentOutputFile` fields: they only name files for that I/O.
- `deepcopy` (437, 464, 520) and the unused imports: the groups are immutable records, so a copy is the value itself.
- Unicode semantics of `\s` and `\w`: the model uses the ASCII classes (`\s` is tab to carriage return, 28-31 and space; `\w` is letters, digits and `_`).
- `CommentGroup.whiteSpaceSig` (27): it is never assigned and never read, so the record leaves it out.
- The `StopIteration` handlers (150-168, 197-212): they are not modelled as branches; `Output.SpecCommentGroupsFit` and `Output.SpecCodeGroupsFit` prove that every group row is an existing line, so they cannot be reached.
- Python's sort: `sorted(...keys())` is modelled by `Builders.SortedKeys`, which is specified, not implemented as a sorting algorithm.
- Exceptions other than the `IndexError` of an empty file: the only other reachable one is the `IndexError` of `self.output[i]` (60) when fewer output names than input files are given, which belongs to the output naming left out above.
- Formatter.AsmFormatter.FormatAsm: requires empty per-file state on entry. The source relies on `format_files` clearing it (see the comment at 67); with stale state its builders would merge old and new lines.
- Formatter.AsmFormatter.FormatFiles: states the clean final state only when every file succeeded, because in the source the exception from an empty file escapes before the reset.
- Formatter.AsmFormatter.GetCandidateCommentGroups: states the exact groups only when `commentGroups` starts empty; for leftover groups it states the result as the builder's scan function.
- Formatter.AsmFormatter.GetCandidateCodeGroups: states the exact groups only when `codeGroups` starts empty; for leftover groups it states the result as the builder's scan function.
- A fixed point of formatting: formatting is not idempotent, so no such lemma is stated. With the test at 217 inverted relative to `check_for_final_newline` (236-241), every pass adds one more `"\n"` line to a file whose last line ends in a newline. `Properties.FormatTwiceGrows` proves this for every file of plain code lines, for example `["a\n"]`, which becomes `["a\n", "\n"]` and then `["a\n", "\n", "\n"]`.
- Lines in no group are written by neither branch of the main loop, so the model drops them (`Properties.UnclassifiedLineDropped`), as the code does.
