/**
  What `format_asm` writes for a whole file. Output is the sequence of
  strings passed to `o.write`, in order. `Stream` follows the loop of
  `format_asm`: at a comment group it writes the group's box and skips its
  rows, at a code group it writes the group's rows and skips them, and any
  other line is passed over without being written. `FormatFile` adds the
  final-newline step and is the specification that `AsmFormatter.FormatAsm`
  is proved to meet.

  `LineOutput` gives the same output line by line, and `StreamIsFlat`
  proves that the two agree for any set of groups that do not overlap.
 */
module Output {
  import opened Classifier
  import opened Features
  import opened Groups
  import opened Rewrite

  /**
    What the main loop of `format_asm` works from: the comment groups and
    the code groups keyed by their first line, and the three rewrites it
    applies (a code row given its group, a comment row given the group's
    `maxLen`, and the border built from a group's first row).
   */
  datatype Plan = Plan(comments: map<int, CommentGroup>, code: map<int, CodeGroup>,
                       codeRow: (string, CodeGroup) -> string,
                       commentRow: (string, int) -> string,
                       border: (string, int) -> string)

  /** Every comment group lies inside the file and has a row. */
  predicate CommentGroupsFit(lines: seq<string>, cg: map<int, CommentGroup>) {
    forall s | s in cg :: 0 <= s && cg[s].numRows >= 1 && s + cg[s].numRows <= |lines|
  }

  /** Every code group lies inside the file and has a row. */
  predicate CodeGroupsFit(lines: seq<string>, kg: map<int, CodeGroup>) {
    forall s | s in kg :: 0 <= s && kg[s].numRows >= 1 && s + kg[s].numRows <= |lines|
  }

  predicate Fits(lines: seq<string>, p: Plan) {
    CommentGroupsFit(lines, p.comments) && CodeGroupsFit(lines, p.code)
  }

  /** The rows of the comment group `g` starting at line `s`, as written. */
  function CommentRows(lines: seq<string>, p: Plan, s: nat, g: CommentGroup): seq<string>
    requires 0 <= g.numRows && s + g.numRows <= |lines|
  {
    seq(g.numRows, k requires 0 <= k < g.numRows => p.commentRow(lines[s + k], g.maxLen))
  }

  /** Row `k` of a comment group is its line `s + k` as the plan closes it. */
  lemma {:induction false} CommentRowsAt(lines: seq<string>, p: Plan, s: nat, g: CommentGroup, k: int)
    requires 0 <= g.numRows && s + g.numRows <= |lines| && 0 <= k < g.numRows
    ensures |CommentRows(lines, p, s, g)| == g.numRows
    ensures CommentRows(lines, p, s, g)[k] == p.commentRow(lines[s + k], g.maxLen)
  {
  }

  /** The rows of the code group `g` starting at line `s`, as written. */
  function CodeRows(lines: seq<string>, p: Plan, s: nat, g: CodeGroup): seq<string>
    requires 0 <= g.numRows && s + g.numRows <= |lines|
  {
    seq(g.numRows, k requires 0 <= k < g.numRows => p.codeRow(lines[s + k], g))
  }

  /** Row `k` of a code group is its line `s + k` as the plan rewrites it. */
  lemma {:induction false} CodeRowsAt(lines: seq<string>, p: Plan, s: nat, g: CodeGroup, k: int)
    requires 0 <= g.numRows && s + g.numRows <= |lines| && 0 <= k < g.numRows
    ensures |CodeRows(lines, p, s, g)| == g.numRows
    ensures CodeRows(lines, p, s, g)[k] == p.codeRow(lines[s + k], g)
  {
  }

  /** The border, when the group does not already have it. */
  function Missing(present: bool, border: string): seq<string> {
    if present then [] else [border]
  }

  /** A row, preceded by `top` when it is the first of its group and followed by `bottom` when it is the last. */
  function Framed(first: bool, last: bool, top: seq<string>, row: string, bottom: seq<string>): seq<string> {
    (if first then top else []) + [row] + (if last then bottom else [])
  }

  /** What a framed row writes is the row itself or the border. */
  lemma {:induction false} FramedElements(first: bool, last: bool, top: bool, bottom: bool, row: string, border: string)
    ensures forall x | x in Framed(first, last, Missing(top, border), row, Missing(bottom, border)) ::
              x == row || x == border
  {
    var out := Framed(first, last, Missing(top, border), row, Missing(bottom, border));
    forall x | x in out ensures x == row || x == border {
      var k :| 0 <= k < |out| && out[k] == x;
    }
  }

  /** Rule 2 for one comment group: the missing borders around its rows. */
  function CommentBlock(lines: seq<string>, p: Plan, s: nat, g: CommentGroup): seq<string>
    requires g.numRows >= 1 && s + g.numRows <= |lines|
  {
    var border := p.border(lines[s], g.maxLen);
    Missing(g.hasTopBorder, border) + CommentRows(lines, p, s, g) + Missing(g.hasBottomBorder, border)
  }

  /**
    What the main loop writes when it reaches line `i`: the box of the
    comment group starting there, the rows of the code group starting there,
    or nothing. A plan whose groups do not fit the file writes nothing; the
    plans the builders derive always fit (`FilePlanFits`).
   */
  function Block(lines: seq<string>, p: Plan, i: int): seq<string> {
    if !Fits(lines, p) then []
    else if i in p.comments then CommentBlock(lines, p, i, p.comments[i])
    else if i in p.code then CodeRows(lines, p, i, p.code[i])
    else []
  }

  /** The line the main loop moves to after line `i`: past the group starting there, or the next line. */
  function Next(p: Plan, i: int): int {
    if i in p.comments then i + p.comments[i].numRows
    else if i in p.code then i + p.code[i].numRows
    else i + 1
  }

  /**
    A loop that, at line `i`, writes `block(i)` and moves on to `next(i)`,
    until it reaches `hi` (or stops moving forward).
   */
  function Walk(next: int -> int, block: int -> seq<string>, i: int, hi: int): seq<string>
    decreases hi - i
  {
    if i >= hi || next(i) <= i then [] else block(i) + Walk(next, block, next(i), hi)
  }

  /** The moves of the main loop, as a function of the line it is at. */
  function Moves(p: Plan): int -> int {
    i => Next(p, i)
  }

  /** The writes of the main loop, as a function of the line it is at. */
  function Blocks(lines: seq<string>, p: Plan): int -> seq<string> {
    i => Block(lines, p, i)
  }

  /** The writes of the main loop of `format_asm` from line `i` on. */
  function Stream(lines: seq<string>, p: Plan, i: int): seq<string> {
    Walk(Moves(p), Blocks(lines, p), i, |lines|)
  }

  /** One turn of the main loop: the block at line `i`, then the rest of the loop from `Next(p, i)`. */
  lemma {:induction false} StreamStep(lines: seq<string>, p: Plan, i: int)
    requires Fits(lines, p) && 0 <= i < |lines|
    ensures i < Next(p, i) && Stream(lines, p, i) == Block(lines, p, i) + Stream(lines, p, Next(p, i))
  {
    assert Moves(p)(i) == Next(p, i);
  }

  /**
    The groups that the builders derive from a file, and the rewrites of
    `format_asm` with the scan's `globalLineLen` and the `globalIndent`
    flag. The comment rewrites are made total by passing through a string
    they do not apply to (an empty one, one without ';'); the rows of a
    comment group are never such strings.
   */
  function FilePlan(lines: seq<string>, gi: bool): Plan {
    var gl := GlobalLineLen(lines);
    Plan(CommentGroupsOf(CommentLinesOf(lines)), CodeGroupsOf(CodeLinesOf(lines)),
         (row, g) => CodeRow(row, g, gl, gi),
         (row, maxLen) => if |row| > 0 then CommentRow(row, maxLen) else row,
         (first, maxLen) => if ';' in first then Border(first, maxLen) else first)
  }

  /** The comment groups that the builder derives from a file fit it, and their rows are comment-only lines. */
  lemma {:induction false} SpecCommentGroupsFit(lines: seq<string>)
    ensures CommentGroupsFit(lines, CommentGroupsOf(CommentLinesOf(lines)))
    ensures forall s, j | s in CommentGroupsOf(CommentLinesOf(lines)) &&
                          s <= j < s + CommentGroupsOf(CommentLinesOf(lines))[s].numRows ::
              0 <= j < |lines| && NoCodeComment(lines[j])
  {
    var c := CommentLinesOf(lines);
    var cg := CommentGroupsOf(c);
    forall s | s in cg
      ensures 0 <= s && cg[s].numRows >= 1 && s + cg[s].numRows <= |lines|
      ensures forall j | s <= j < s + cg[s].numRows :: 0 <= j < |lines| && NoCodeComment(lines[j])
    {
      CommentGroupExtent(c, s);
      var e := s + cg[s].numRows - 1;
      InCommentLines(lines, s);
      InCommentLines(lines, e);
      forall j | s <= j <= e ensures NoCodeComment(lines[j]) {
        InCommentLines(lines, j);
      }
    }
  }

  /** The code groups that the builder derives from a file fit it. */
  lemma {:induction false} SpecCodeGroupsFit(lines: seq<string>)
    ensures CodeGroupsFit(lines, CodeGroupsOf(CodeLinesOf(lines)))
  {
    var k := CodeLinesOf(lines);
    var kg := CodeGroupsOf(k);
    forall s | s in kg
      ensures 0 <= s && kg[s].numRows >= 1 && s + kg[s].numRows <= |lines|
    {
      CodeGroupExtent(k, s);
      InCodeLines(lines, s);
      InCodeLines(lines, s + kg[s].numRows - 1);
    }
  }

  lemma {:induction false} FilePlanFits(lines: seq<string>, gi: bool)
    ensures Fits(lines, FilePlan(lines, gi))
  {
    SpecCommentGroupsFit(lines);
    SpecCodeGroupsFit(lines);
  }

  /**
    What the main loop writes at the start `s` of a comment group that the
    builder derives: the rows closed by CommentRow, between the borders the
    group lacks, built by Border from its first row.
   */
  lemma {:induction false} FilePlanCommentBlock(lines: seq<string>, gi: bool, s: int)
    requires s in CommentGroupsOf(CommentLinesOf(lines))
    ensures var g := CommentGroupsOf(CommentLinesOf(lines))[s];
            && 0 <= s && g.numRows >= 1 && s + g.numRows <= |lines| && ';' in lines[s]
            && (forall j | s <= j < s + g.numRows :: |lines[j]| > 0)
            && var rows := CommentRows(lines, FilePlan(lines, gi), s, g);
               && |rows| == g.numRows
               && (forall k | 0 <= k < g.numRows :: rows[k] == CommentRow(lines[s + k], g.maxLen))
               && Block(lines, FilePlan(lines, gi), s) ==
                    Missing(g.hasTopBorder, Border(lines[s], g.maxLen)) + rows +
                    Missing(g.hasBottomBorder, Border(lines[s], g.maxLen))
  {
    var c := CommentGroupsOf(CommentLinesOf(lines));
    var p := FilePlan(lines, gi);
    var g := c[s];
    SpecCommentGroupsFit(lines);
    FilePlanFits(lines, gi);
    assert 0 <= s && g.numRows >= 1 && s + g.numRows <= |lines| && NoCodeComment(lines[s]);
    var rows := CommentRows(lines, p, s, g);
    forall k | 0 <= k < g.numRows ensures rows[k] == CommentRow(lines[s + k], g.maxLen) {
      assert NoCodeComment(lines[s + k]);
      CommentRowsAt(lines, p, s, g, k);
    }
    assert Block(lines, p, s) == CommentBlock(lines, p, s, g);
  }

  /**
    What the main loop writes at the start `s` of a code group that the
    builder derives (and no comment group starts there): the rows rewritten
    by CodeRow with the file's `globalLineLen`.
   */
  lemma {:induction false} FilePlanCodeBlock(lines: seq<string>, gi: bool, s: int)
    requires s in CodeGroupsOf(CodeLinesOf(lines)) && s !in CommentGroupsOf(CommentLinesOf(lines))
    ensures var g := CodeGroupsOf(CodeLinesOf(lines))[s];
            && 0 <= s && g.numRows >= 1 && s + g.numRows <= |lines|
            && var rows := CodeRows(lines, FilePlan(lines, gi), s, g);
               && |rows| == g.numRows
               && (forall k | 0 <= k < g.numRows :: rows[k] == CodeRow(lines[s + k], g, GlobalLineLen(lines), gi))
               && Block(lines, FilePlan(lines, gi), s) == rows
  {
    var p := FilePlan(lines, gi);
    var g := CodeGroupsOf(CodeLinesOf(lines))[s];
    FilePlanFits(lines, gi);
    assert 0 <= s && g.numRows >= 1 && s + g.numRows <= |lines|;
    var rows := CodeRows(lines, p, s, g);
    forall k | 0 <= k < g.numRows ensures rows[k] == CodeRow(lines[s + k], g, GlobalLineLen(lines), gi) {
      CodeRowsAt(lines, p, s, g, k);
    }
    assert Block(lines, p, s) == rows;
  }

  /**
    `format_asm` on a whole file: the writes of the main loop, then a "\n"
    when `check_for_final_newline` returns False, which is when the last
    line already ends in a newline. An empty file makes that check raise.
   */
  function FormatFile(lines: seq<string>, gi: bool): Result<seq<string>, FormatError> {
    Written(lines, FilePlan(lines, gi))
  }

  /** What `format_asm` writes for a file with the groups and rewrites of `p`. */
  function Written(lines: seq<string>, p: Plan): Result<seq<string>, FormatError> {
    var body := Stream(lines, p, 0);
    match CheckForFinalNewline(lines)
    case Failure(e) => Failure(e)
    case Success(noFinalNewline) => Success(if noFinalNewline then body else body + ["\n"])
  }

  // ---------------------------------------------------------------------------
  // Line by line

  /** Line `i` is a row of the comment group that starts at line `s`. */
  predicate InComment(p: Plan, s: int, i: int) {
    s in p.comments && s <= i < s + p.comments[s].numRows
  }

  /** Line `i` is a row of the code group that starts at line `s`. */
  predicate InCode(p: Plan, s: int, i: int) {
    s in p.code && s <= i < s + p.code[s].numRows
  }

  /** The groups fit the file and do not overlap: no group starts inside another one. */
  ghost predicate Tiles(lines: seq<string>, p: Plan) {
    && Fits(lines, p)
    && (forall s, t | InComment(p, s, t) && t in p.comments :: s == t)
    && (forall s, t | InCode(p, s, t) && t in p.code :: s == t)
    && (forall s, t | InComment(p, s, t) :: t !in p.code)
    && (forall s, t | InCode(p, s, t) :: t !in p.comments)
  }

  /** With groups that do not overlap, a line lies in at most one of them. */
  lemma {:induction false} OneOwner(lines: seq<string>, p: Plan, i: int)
    requires Tiles(lines, p)
    ensures forall s, t | InComment(p, s, i) && InComment(p, t, i) :: s == t
    ensures forall s, t | InCode(p, s, i) && InCode(p, t, i) :: s == t
    ensures forall s, t | InComment(p, s, i) :: !InCode(p, t, i)
  {
    forall s, t | InComment(p, s, i) && InComment(p, t, i) ensures s == t {
      if s < t { assert InComment(p, s, t); } else if t < s { assert InComment(p, t, s); }
    }
    forall s, t | InCode(p, s, i) && InCode(p, t, i) ensures s == t {
      if s < t { assert InCode(p, s, t); } else if t < s { assert InCode(p, t, s); }
    }
    forall s, t | InComment(p, s, i) ensures !InCode(p, t, i) {
      if InCode(p, t, i) {
        if s <= t {
          var overlap := InComment(p, s, t);
        } else {
          assert InCode(p, t, s);
        }
      }
    }
  }

  /**
    What line `i` turns into: a row of a comment group becomes its rewritten
    row, with the group's border before it when it opens a group without a
    top border and after it when it closes one without a bottom border; a
    row of a code group becomes its rewritten row; any other line is not
    written.
   */
  ghost function LineOutput(lines: seq<string>, p: Plan, i: int): seq<string> {
    if !Fits(lines, p) || !(0 <= i < |lines|) then []
    else if exists s :: InComment(p, s, i) then
      var s :| InComment(p, s, i);
      var g := p.comments[s];
      var border := p.border(lines[s], g.maxLen);
      Framed(i == s, i == s + g.numRows - 1, Missing(g.hasTopBorder, border),
             p.commentRow(lines[i], g.maxLen), Missing(g.hasBottomBorder, border))
    else if exists s :: InCode(p, s, i) then
      var s :| InCode(p, s, i);
      [p.codeRow(lines[i], p.code[s])]
    else []
  }

  /** The output of row `j` of the comment group that starts at line `s`. */
  lemma {:induction false} CommentLineOutput(lines: seq<string>, p: Plan, s: nat, j: nat)
    requires Tiles(lines, p) && InComment(p, s, j)
    ensures var g := p.comments[s];
            j < |lines| &&
            var border := p.border(lines[s], g.maxLen);
            LineOutput(lines, p, j) ==
              Framed(j == s, j == s + g.numRows - 1, Missing(g.hasTopBorder, border),
                     p.commentRow(lines[j], g.maxLen), Missing(g.hasBottomBorder, border))
  {
    OneOwner(lines, p, j);
  }

  /** The output of row `j` of the code group that starts at line `s`. */
  lemma {:induction false} CodeLineOutput(lines: seq<string>, p: Plan, s: nat, j: nat)
    requires Tiles(lines, p) && InCode(p, s, j)
    ensures j < |lines| && LineOutput(lines, p, j) == [p.codeRow(lines[j], p.code[s])]
  {
    OneOwner(lines, p, j);
  }

  /** A line in no group leaves no output. */
  lemma {:induction false} UngroupedLineOutput(lines: seq<string>, p: Plan, i: nat)
    requires Fits(lines, p) && i < |lines|
    requires forall s :: !InComment(p, s, i) && !InCode(p, s, i)
    ensures LineOutput(lines, p, i) == []
  {
  }

  // ---------------------------------------------------------------------------
  // Joining the output of consecutive lines

  /** The writes for lines `lo .. hi - 1`, one after the other, where line `j` writes `out(j)`. */
  function Join(out: int -> seq<string>, lo: int, hi: int): seq<string>
    decreases hi - lo
  {
    if hi <= lo then [] else Join(out, lo, hi - 1) + out(hi - 1)
  }

  lemma {:induction false} JoinSplit(out: int -> seq<string>, lo: int, mid: int, hi: int)
    requires lo <= mid <= hi
    ensures Join(out, lo, hi) == Join(out, lo, mid) + Join(out, mid, hi)
    decreases hi - mid
  {
    if mid == hi {
      assert Join(out, lo, mid) + [] == Join(out, lo, mid);
    } else {
      JoinSplit(out, lo, mid, hi - 1);
      var a, b, c := Join(out, lo, mid), Join(out, mid, hi - 1), out(hi - 1);
      assert (a + b) + c == a + (b + c);
    }
  }

  /** Lines that each write one row write those rows. */
  lemma {:induction false} JoinRows(out: int -> seq<string>, lo: int, rows: seq<string>)
    requires forall k | 0 <= k < |rows| :: out(lo + k) == [rows[k]]
    ensures Join(out, lo, lo + |rows|) == rows
  {
    if rows != [] {
      var n := |rows|;
      var init := rows[..n - 1];
      forall k | 0 <= k < |init| ensures out(lo + k) == [init[k]] {
        assert init[k] == rows[k];
      }
      JoinRows(out, lo, init);
      assert rows == init + [rows[n - 1]];
    }
  }

  /** The first `m` rows of a box: the top border, the rows, and the bottom border once all rows are in. */
  function BoxPrefix(top: seq<string>, rows: seq<string>, bottom: seq<string>, m: nat): seq<string>
    requires m <= |rows|
  {
    if m == 0 then [] else top + rows[..m] + (if m == |rows| then bottom else [])
  }

  /** Appending framed row `m - 1` to the first `m - 1` rows of a box gives its first `m` rows. */
  lemma {:induction false} FramedAppend(top: seq<string>, rows: seq<string>, bottom: seq<string>, m: nat)
    requires 1 <= m <= |rows|
    ensures BoxPrefix(top, rows, bottom, m - 1) + Framed(m - 1 == 0, m - 1 == |rows| - 1, top, rows[m - 1], bottom) ==
            BoxPrefix(top, rows, bottom, m)
  {
    var b: seq<string> := if m == |rows| then bottom else [];
    var x := Framed(m - 1 == 0, m - 1 == |rows| - 1, top, rows[m - 1], bottom);
    assert rows[..m] == rows[..m - 1] + [rows[m - 1]];
    if m == 1 {
      assert rows[..m] == [rows[0]];
      assert [] + x == x;
    } else {
      assert x == [rows[m - 1]] + b;
      assert BoxPrefix(top, rows, bottom, m - 1) == top + rows[..m - 1];
    }
  }

  /** Lines that each write one row of a box, framed, write the first rows of the box. */
  lemma {:induction false} JoinBoxPrefix(out: int -> seq<string>, lo: int, top: seq<string>, rows: seq<string>,
                                         bottom: seq<string>, m: nat)
    requires m <= |rows|
    requires forall k | 0 <= k < |rows| :: out(lo + k) == Framed(k == 0, k == |rows| - 1, top, rows[k], bottom)
    ensures Join(out, lo, lo + m) == BoxPrefix(top, rows, bottom, m)
  {
    if m > 0 {
      JoinBoxPrefix(out, lo, top, rows, bottom, m - 1);
      FramedAppend(top, rows, bottom, m);
      assert out(lo + (m - 1)) == Framed(m - 1 == 0, m - 1 == |rows| - 1, top, rows[m - 1], bottom);
    }
  }

  /** Lines that each write one row of a box, framed, write the whole box. */
  lemma {:induction false} JoinBox(out: int -> seq<string>, lo: int, top: seq<string>, rows: seq<string>,
                                   bottom: seq<string>)
    requires |rows| >= 1
    requires forall k | 0 <= k < |rows| :: out(lo + k) == Framed(k == 0, k == |rows| - 1, top, rows[k], bottom)
    ensures Join(out, lo, lo + |rows|) == top + rows + bottom
  {
    JoinBoxPrefix(out, lo, top, rows, bottom, |rows|);
    assert rows[..|rows|] == rows;
  }

  /**
    A loop that starts at a boundary, and at every boundary before `hi`
    moves forward to a boundary no later than `hi` while writing the output
    of the lines it moves over, writes the output of all lines up to `hi`.
   */
  lemma {:induction false} WalkIsJoin(next: int -> int, block: int -> seq<string>, out: int -> seq<string>,
                                      bound: int -> bool, i: int, hi: int)
    requires i <= hi && bound(i)
    requires forall j | i <= j < hi && bound(j) ::
               j < next(j) <= hi && bound(next(j)) && block(j) == Join(out, j, next(j))
    ensures Walk(next, block, i, hi) == Join(out, i, hi)
    decreases hi - i
  {
    if i < hi {
      WalkIsJoin(next, block, out, bound, next(i), hi);
      JoinSplit(out, i, next(i), hi);
    }
  }

  // ---------------------------------------------------------------------------
  // The output of the groups, line by line

  /** What each line turns into, as a function of the line's index. */
  ghost function Out(lines: seq<string>, p: Plan): int -> seq<string> {
    i => LineOutput(lines, p, i)
  }

  /** The output of lines `lo .. hi - 1`, one line after the other. */
  ghost function Flat(lines: seq<string>, p: Plan, lo: int, hi: int): seq<string> {
    Join(Out(lines, p), lo, hi)
  }

  /** Row `k` of the comment group starting at `s`, framed by the borders it opens or closes. */
  lemma {:induction false} CommentRowOutput(lines: seq<string>, p: Plan, s: nat, k: nat)
    requires Tiles(lines, p) && s in p.comments && k < p.comments[s].numRows
    ensures var g := p.comments[s];
            var border := p.border(lines[s], g.maxLen);
            s + g.numRows <= |lines| &&
            Out(lines, p)(s + k) ==
              Framed(k == 0, k == g.numRows - 1, Missing(g.hasTopBorder, border),
                     CommentRows(lines, p, s, g)[k], Missing(g.hasBottomBorder, border))
  {
    var g := p.comments[s];
    var j := s + k;
    CommentLineOutput(lines, p, s, j);
    assert (j == s) == (k == 0) && (j == s + g.numRows - 1) == (k == g.numRows - 1);
  }

  /** The box that `format_asm` writes for a comment group is the output of its rows. */
  lemma {:induction false} CommentBlockIsFlat(lines: seq<string>, p: Plan, s: nat)
    requires Tiles(lines, p) && s in p.comments
    ensures var g := p.comments[s];
            g.numRows >= 1 && s + g.numRows <= |lines| &&
            CommentBlock(lines, p, s, g) == Flat(lines, p, s, s + g.numRows)
  {
    var g := p.comments[s];
    var border := p.border(lines[s], g.maxLen);
    var rows := CommentRows(lines, p, s, g);
    forall k | 0 <= k < |rows|
      ensures Out(lines, p)(s + k) ==
                Framed(k == 0, k == |rows| - 1, Missing(g.hasTopBorder, border), rows[k], Missing(g.hasBottomBorder, border))
    {
      CommentRowOutput(lines, p, s, k);
    }
    JoinBox(Out(lines, p), s, Missing(g.hasTopBorder, border), rows, Missing(g.hasBottomBorder, border));
  }

  /** The rows that `format_asm` writes for a code group are the output of its rows. */
  lemma {:induction false} CodeBlockIsFlat(lines: seq<string>, p: Plan, s: nat)
    requires Tiles(lines, p) && s in p.code
    ensures var g := p.code[s];
            g.numRows >= 1 && s + g.numRows <= |lines| &&
            CodeRows(lines, p, s, g) == Flat(lines, p, s, s + g.numRows)
  {
    var g := p.code[s];
    var rows := CodeRows(lines, p, s, g);
    forall k | 0 <= k < |rows| ensures Out(lines, p)(s + k) == [rows[k]] {
      CodeLineOutput(lines, p, s, s + k);
    }
    JoinRows(Out(lines, p), s, rows);
  }

  /** Every group that holds line `i` starts at `i`: the main loop is not inside a group there. */
  ghost predicate Boundary(p: Plan, i: int) {
    (forall s | InComment(p, s, i) :: s == i) && (forall s | InCode(p, s, i) :: s == i)
  }

  /** The boundaries, as a function of the line. */
  ghost function Boundaries(p: Plan): int -> bool {
    i => Boundary(p, i)
  }

  /**
    After the main loop has handled line `i` (a whole group from `i`, or the
    single line `i` when no group holds it), it is again at a boundary.
   */
  lemma {:induction false} BoundaryAfter(lines: seq<string>, p: Plan, i: int)
    requires Tiles(lines, p) && Boundary(p, i) && 0 <= i < |lines|
    ensures i < Next(p, i) <= |lines| && Boundary(p, Next(p, i))
  {
    var e := Next(p, i);
    forall s | InComment(p, s, e) ensures s == e {
      if s < e {
        if s <= i {
          assert InComment(p, s, i);
        } else if i in p.comments {
          assert InComment(p, i, s);
        } else if i in p.code {
          assert InCode(p, i, s);
        }
      }
    }
    forall s | InCode(p, s, e) ensures s == e {
      if s < e {
        if s <= i {
          assert InCode(p, s, i);
        } else if i in p.comments {
          var overlap := InComment(p, i, s);
        } else if i in p.code {
          assert InCode(p, i, s);
        }
      }
    }
  }

  /** At a boundary, what the main loop writes for line `i` is the output of the lines it moves over. */
  lemma {:induction false} BlockIsFlat(lines: seq<string>, p: Plan, i: int)
    requires Tiles(lines, p) && Boundary(p, i) && 0 <= i < |lines|
    ensures Block(lines, p, i) == Flat(lines, p, i, Next(p, i))
  {
    if i in p.comments {
      CommentBlockIsFlat(lines, p, i);
    } else if i in p.code {
      CodeBlockIsFlat(lines, p, i);
    } else {
      UngroupedLineOutput(lines, p, i);
      assert Join(Out(lines, p), i, i + 1) == [] + Out(lines, p)(i);
    }
  }

  /** From the first line, the main loop writes exactly the per-line output of every line. */
  lemma {:induction false} StreamIsFlat(lines: seq<string>, p: Plan)
    requires Tiles(lines, p)
    ensures Stream(lines, p, 0) == Flat(lines, p, 0, |lines|)
  {
    var bound := Boundaries(p);
    forall j | 0 <= j < |lines| && bound(j)
      ensures j < Moves(p)(j) <= |lines| && bound(Moves(p)(j)) &&
              Blocks(lines, p)(j) == Join(Out(lines, p), j, Moves(p)(j))
    {
      BoundaryAfter(lines, p, j);
      BlockIsFlat(lines, p, j);
    }
    assert bound(0);
    WalkIsJoin(Moves(p), Blocks(lines, p), Out(lines, p), bound, 0, |lines|);
  }

  /**
    With groups that tile the file, `format_asm` writes the per-line output
    of every line in order, then one more "\n" when the last line already
    ends in a newline; an empty file raises an IndexError.
   */
  lemma {:induction false} WrittenIsFlat(lines: seq<string>, p: Plan)
    requires Tiles(lines, p)
    ensures |lines| == 0 ==> Written(lines, p) == Failure(IndexError)
    ensures |lines| > 0 ==>
              Written(lines, p) ==
                Success(Flat(lines, p, 0, |lines|) + (if '\n' in lines[|lines| - 1] then ["\n"] else []))
  {
    StreamIsFlat(lines, p);
    if |lines| > 0 && '\n' !in lines[|lines| - 1] {
      var body := Stream(lines, p, 0);
      assert body + [] == body;
    }
  }
}
