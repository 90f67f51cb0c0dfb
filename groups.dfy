/**
  The group records of asmfmt and the runs they describe.

  `_get_candidate_comment_groups` and `_get_candidate_code_groups` walk the
  sorted keys of `commentLines` (resp. `codeLines`) and merge a line into the
  current group when it directly follows the previous recorded line and has
  the group's leading-whitespace signature. The functions below describe the
  outcome without the walk: a run starts at every recorded line that does not
  join its predecessor, and extends as far as the following lines keep joining.
  CommentGroupsOf and CodeGroupsOf are the specifications that the imperative
  builders in module Formatter are proved to compute.
 */
module Groups {
  import opened Text
  import opened Classifier

  /** `CodeGroup` (asmfmt.py:12-16): a run of code lines and the largest ';' index among them. */
  datatype CodeGroup = CodeGroup(numRows: int, maxSemiColonIdx: int)

  /**
    `CommentGroup` (asmfmt.py:18-27). Its `whiteSpaceSig` attribute is never
    assigned after construction, so it is not part of the record.
   */
  datatype CommentGroup = CommentGroup(numRows: int, maxLen: int, hasTopBorder: bool, hasBottomBorder: bool)

  /**
    Recorded line `i` continues the run of recorded line `i - 1`: the two have
    the same leading-whitespace signature, or (for code, `blankJoins`) the
    signature of line `i` is "\n".
   */
  predicate Joins(m: map<int, string>, i: int, blankJoins: bool) {
    i in m && i - 1 in m &&
    (LeadingWhiteSpace(m[i]) == LeadingWhiteSpace(m[i - 1]) ||
     (blankJoins && LeadingWhiteSpace(m[i]) == "\n"))
  }

  predicate IsRunStart(m: map<int, string>, s: int, blankJoins: bool) {
    s in m && !Joins(m, s, blankJoins)
  }

  /** The recorded lines after `s`, and before `i`: the measures by which runs are walked. */
  function Above(m: map<int, string>, s: int): set<int> { set j | j in m && j > s }

  function Below(m: map<int, string>, i: int): set<int> { set j | j in m && j < i }

  lemma {:induction false} AboveShrinks(m: map<int, string>, s: int)
    requires s + 1 in m
    ensures Above(m, s + 1) < Above(m, s)
  {
    assert s + 1 in Above(m, s);
    assert s + 1 !in Above(m, s + 1);
  }

  lemma {:induction false} BelowShrinks(m: map<int, string>, i: int)
    requires i - 1 in m
    ensures Below(m, i - 1) < Below(m, i)
  {
    assert i - 1 in Below(m, i);
    assert i - 1 !in Below(m, i - 1);
  }

  /** The last line of the run through `s`: lines after `s` join up to it, and the next does not. */
  function RunEnd(m: map<int, string>, s: int, blankJoins: bool): (e: int)
    requires s in m
    ensures s <= e && e in m
    ensures forall j | s < j <= e :: Joins(m, j, blankJoins)
    ensures forall j | s <= j <= e :: j in m
    ensures !Joins(m, e + 1, blankJoins)
    decreases Above(m, s)
  {
    if Joins(m, s + 1, blankJoins) then
      AboveShrinks(m, s);
      RunEnd(m, s + 1, blankJoins)
    else s
  }

  /** The first line of the run that contains recorded line `i`. */
  function RunStart(m: map<int, string>, i: int, blankJoins: bool): (s: int)
    requires i in m
    ensures s <= i && IsRunStart(m, s, blankJoins)
    ensures forall j | s < j <= i :: Joins(m, j, blankJoins)
    decreases Below(m, i)
  {
    if Joins(m, i, blankJoins) then
      BelowShrinks(m, i);
      RunStart(m, i - 1, blankJoins)
    else i
  }

  /** The largest `len(line)` among recorded lines `s..e`. */
  function MaxRowLen(m: map<int, string>, s: int, e: int): nat
    requires s <= e && forall j | s <= j <= e :: j in m
    decreases e - s
  {
    if e == s then |m[s]| else Max(MaxRowLen(m, s, e - 1), |m[e]|)
  }

  /** MaxRowLen bounds the length of every line of `s..e` and is the length of one of them. */
  lemma {:induction false} MaxRowLenIsMax(m: map<int, string>, s: int, e: int)
    requires s <= e && forall j | s <= j <= e :: j in m
    ensures forall j | s <= j <= e :: |m[j]| <= MaxRowLen(m, s, e)
    ensures exists j | s <= j <= e :: |m[j]| == MaxRowLen(m, s, e)
    decreases e - s
  {
    if e > s {
      MaxRowLenIsMax(m, s, e - 1);
      if MaxRowLen(m, s, e - 1) < |m[e]| {
        assert |m[e]| == MaxRowLen(m, s, e);
      } else {
        var j :| s <= j <= e - 1 && |m[j]| == MaxRowLen(m, s, e - 1);
        assert |m[j]| == MaxRowLen(m, s, e);
      }
    } else {
      assert |m[s]| == MaxRowLen(m, s, e);
    }
  }

  /** The largest `line.find(';')` among recorded lines `s..e`. */
  function MaxSemicolon(m: map<int, string>, s: int, e: int): int
    requires s <= e && forall j | s <= j <= e :: j in m
    decreases e - s
  {
    if e == s then Find(m[s], ';') else Max(MaxSemicolon(m, s, e - 1), Find(m[e], ';'))
  }

  /** MaxSemicolon bounds the ';' column of every line of `s..e` and is the column of one of them. */
  lemma {:induction false} MaxSemicolonIsMax(m: map<int, string>, s: int, e: int)
    requires s <= e && forall j | s <= j <= e :: j in m
    ensures forall j | s <= j <= e :: Find(m[j], ';') <= MaxSemicolon(m, s, e)
    ensures exists j | s <= j <= e :: Find(m[j], ';') == MaxSemicolon(m, s, e)
    decreases e - s
  {
    if e > s {
      MaxSemicolonIsMax(m, s, e - 1);
      if MaxSemicolon(m, s, e - 1) < Find(m[e], ';') {
        assert Find(m[e], ';') == MaxSemicolon(m, s, e);
      } else {
        var j :| s <= j <= e - 1 && Find(m[j], ';') == MaxSemicolon(m, s, e - 1);
        assert Find(m[j], ';') == MaxSemicolon(m, s, e);
      }
    } else {
      assert Find(m[s], ';') == MaxSemicolon(m, s, e);
    }
  }

  /** No recorded line comes after line `e`: the group ending at `e` is the one closed after the loop. */
  predicate IsFinal(m: map<int, string>, e: int) {
    forall j | j in m :: j <= e
  }

  /**
    The comment group that starts at `s`. The bottom-border flag follows the
    last row, except that a group closed inside the loop (not the final one)
    with a single row that is already a top border does not get it.
   */
  function CommentGroupAt(c: map<int, string>, s: int): CommentGroup
    requires s in c
  {
    var e := RunEnd(c, s, false);
    var top := CommentBorder(c[s]);
    CommentGroup(e - s + 1, MaxRowLen(c, s, e), top,
                 CommentBorder(c[e]) && (IsFinal(c, e) || !(e - s + 1 == 1 && top)))
  }

  /** `commentGroups` as the builder leaves it: one group per run start, keyed by it. */
  function CommentGroupsOf(c: map<int, string>): map<int, CommentGroup> {
    map s | s in c && !Joins(c, s, false) :: CommentGroupAt(c, s)
  }

  /** The code group that starts at `s`. */
  function CodeGroupAt(k: map<int, string>, s: int): CodeGroup
    requires s in k
  {
    var e := RunEnd(k, s, true);
    CodeGroup(e - s + 1, MaxSemicolon(k, s, e))
  }

  /** `codeGroups` as the builder leaves it: one group per run start, keyed by it. */
  function CodeGroupsOf(k: map<int, string>): map<int, CodeGroup> {
    map s | s in k && !Joins(k, s, true) :: CodeGroupAt(k, s)
  }

  // ---------------------------------------------------------------------------
  // Runs

  /**
    A leading-whitespace signature is made of spaces and tabs, so it is never
    "\n": the `whiteSpaceSig == '\n'` test of the code builder never holds,
    and a blank line (signature "") joins only an unindented run.
   */
  lemma {:induction false} SignatureNeverNewline(line: string)
    ensures LeadingWhiteSpace(line) != "\n"
    ensures LeadingWhiteSpace("\n") == ""
  {
    var r := LeadingWhiteSpace(line);
    if |r| == 1 { assert IsSpaceOrTab(r[0]); }
  }

  lemma {:induction false} RunEndOfRow(m: map<int, string>, s: int, j: int, b: bool)
    requires s in m && s <= j
    requires forall k | s < k <= j :: Joins(m, k, b)
    ensures j in m && RunEnd(m, s, b) == RunEnd(m, j, b)
    decreases j - s
  {
    if j > s {
      assert Joins(m, s + 1, b);
      RunEndOfRow(m, s + 1, j, b);
    }
  }

  lemma {:induction false} RunStartOfRow(m: map<int, string>, s: int, j: int, b: bool)
    requires IsRunStart(m, s, b) && s <= j <= RunEnd(m, s, b)
    ensures j in m && RunStart(m, j, b) == s
    decreases j - s
  {
    if j > s {
      assert Joins(m, j, b);
      RunStartOfRow(m, s, j - 1, b);
    }
  }

  /** Every recorded line lies in the run of its run start. */
  lemma {:induction false} RunCovers(m: map<int, string>, i: int, b: bool)
    requires i in m
    ensures RunStart(m, i, b) <= i <= RunEnd(m, RunStart(m, i, b), b)
  {
    RunEndOfRow(m, RunStart(m, i, b), i, b);
  }

  /** Two runs do not overlap. */
  lemma {:induction false} RunsDisjoint(m: map<int, string>, s: int, t: int, b: bool)
    requires IsRunStart(m, s, b) && IsRunStart(m, t, b) && s < t
    ensures RunEnd(m, s, b) < t
  {
  }

  /** All lines of a run have the signature of its first line. */
  lemma {:induction false} RunSignature(m: map<int, string>, s: int, b: bool)
    requires s in m
    ensures forall j | s <= j <= RunEnd(m, s, b) :: j in m && LeadingWhiteSpace(m[j]) == LeadingWhiteSpace(m[s])
    decreases Above(m, s)
  {
    if Joins(m, s + 1, b) {
      AboveShrinks(m, s);
      SignatureNeverNewline(m[s + 1]);
      RunSignature(m, s + 1, b);
    }
  }

  /** The final run is the one that no later run start follows. */
  lemma {:induction false} RunFinalIffLast(m: map<int, string>, s: int, b: bool)
    requires IsRunStart(m, s, b)
    ensures IsFinal(m, RunEnd(m, s, b)) <==> forall t | IsRunStart(m, t, b) :: t <= s
  {
    var e := RunEnd(m, s, b);
    if !IsFinal(m, e) {
      var j :| j in m && j > e;
      var r := RunStart(m, j, b);
      RunCovers(m, j, b);
      if r < s {
        RunsDisjoint(m, r, s, b);
      } else if r == s {
      }
      assert r > s;
    }
  }

  // ---------------------------------------------------------------------------
  // Row counts

  /** The recorded lines numbered `a..e`. */
  function Interval(m: map<int, string>, a: int, e: int): set<int> {
    set j | j in m && a <= j <= e
  }

  lemma {:induction false} IntervalSize(m: map<int, string>, a: int, e: int)
    requires a <= e + 1 && forall j | a <= j <= e :: j in m
    ensures |Interval(m, a, e)| == e - a + 1
    decreases e - a
  {
    if a <= e {
      assert Interval(m, a, e) == Interval(m, a, e - 1) + {e};
      IntervalSize(m, a, e - 1);
    } else {
      assert Interval(m, a, e) == {};
    }
  }

  /** The lines of the runs that start at the elements of `ks`. */
  function UnionRows(m: map<int, string>, b: bool, ks: seq<int>): set<int>
    requires forall i | 0 <= i < |ks| :: ks[i] in m && !Joins(m, ks[i], b)
  {
    if ks == [] then {} else UnionRows(m, b, ks[..|ks| - 1]) + Interval(m, ks[|ks| - 1], RunEnd(m, ks[|ks| - 1], b))
  }

  /** The sum of the run lengths of the runs starting at the elements of `ks`. */
  function SumRunLengths(m: map<int, string>, b: bool, ks: seq<int>): int
    requires forall i | 0 <= i < |ks| :: ks[i] in m && !Joins(m, ks[i], b)
  {
    if ks == [] then 0 else SumRunLengths(m, b, ks[..|ks| - 1]) + (RunEnd(m, ks[|ks| - 1], b) - ks[|ks| - 1] + 1)
  }

  predicate Distinct(ks: seq<int>) {
    forall i, j | 0 <= i < j < |ks| :: ks[i] != ks[j]
  }

  /** A line of UnionRows lies in the run of some element of `ks`. */
  lemma {:induction false} UnionRowsMember(m: map<int, string>, b: bool, ks: seq<int>, j: int)
    requires forall i | 0 <= i < |ks| :: ks[i] in m && !Joins(m, ks[i], b)
    requires j in UnionRows(m, b, ks)
    ensures exists i | 0 <= i < |ks| :: ks[i] <= j <= RunEnd(m, ks[i], b)
  {
    var pre := ks[..|ks| - 1];
    if j !in Interval(m, ks[|ks| - 1], RunEnd(m, ks[|ks| - 1], b)) {
      UnionRowsMember(m, b, pre, j);
      var i :| 0 <= i < |pre| && pre[i] <= j <= RunEnd(m, pre[i], b);
      assert ks[i] == pre[i];
    }
  }

  /** Every line of every listed run is in UnionRows. */
  lemma {:induction false} UnionRowsContains(m: map<int, string>, b: bool, ks: seq<int>, i: int, j: int)
    requires forall i | 0 <= i < |ks| :: ks[i] in m && !Joins(m, ks[i], b)
    requires 0 <= i < |ks| && ks[i] <= j <= RunEnd(m, ks[i], b)
    ensures j in UnionRows(m, b, ks)
  {
    if i < |ks| - 1 {
      var pre := ks[..|ks| - 1];
      assert pre[i] == ks[i];
      UnionRowsContains(m, b, pre, i, j);
    }
  }

  /** A run that is not listed in `ks` shares no line with the listed ones. */
  lemma {:induction false} UnionRowsDisjoint(m: map<int, string>, b: bool, ks: seq<int>, t: int)
    requires forall i | 0 <= i < |ks| :: ks[i] in m && !Joins(m, ks[i], b)
    requires IsRunStart(m, t, b) && t !in ks
    ensures UnionRows(m, b, ks) !! Interval(m, t, RunEnd(m, t, b))
  {
    forall j | j in UnionRows(m, b, ks) ensures j !in Interval(m, t, RunEnd(m, t, b)) {
      UnionRowsMember(m, b, ks, j);
      var i :| 0 <= i < |ks| && ks[i] <= j <= RunEnd(m, ks[i], b);
      if t <= j <= RunEnd(m, t, b) {
        RunStartOfRow(m, t, j, b);
        RunStartOfRow(m, ks[i], j, b);
      }
    }
  }

  lemma {:induction false} UnionRowsSize(m: map<int, string>, b: bool, ks: seq<int>)
    requires forall i | 0 <= i < |ks| :: ks[i] in m && !Joins(m, ks[i], b)
    requires Distinct(ks)
    ensures |UnionRows(m, b, ks)| == SumRunLengths(m, b, ks)
  {
    if ks != [] {
      var pre := ks[..|ks| - 1];
      var t := ks[|ks| - 1];
      UnionRowsSize(m, b, pre);
      assert t !in pre by {
        forall i | 0 <= i < |pre| ensures pre[i] != t { assert pre[i] == ks[i]; }
      }
      UnionRowsDisjoint(m, b, pre, t);
      IntervalSize(m, t, RunEnd(m, t, b));
    }
  }

  /**
    The runs partition the recorded lines: listing every run start once, the
    run lengths add up to the number of recorded lines.
   */
  lemma {:induction false} RunLengthsSum(m: map<int, string>, b: bool, ks: seq<int>)
    requires forall i | 0 <= i < |ks| :: ks[i] in m && !Joins(m, ks[i], b)
    requires forall s | IsRunStart(m, s, b) :: s in ks
    requires Distinct(ks)
    ensures SumRunLengths(m, b, ks) == |m|
  {
    UnionRowsSize(m, b, ks);
    forall j | j in m ensures j in UnionRows(m, b, ks) {
      var s := RunStart(m, j, b);
      RunCovers(m, j, b);
      var i :| 0 <= i < |ks| && ks[i] == s;
      UnionRowsContains(m, b, ks, i, j);
    }
    forall j | j in UnionRows(m, b, ks) ensures j in m {
      UnionRowsMember(m, b, ks, j);
    }
    assert UnionRows(m, b, ks) == m.Keys;
  }

  // ---------------------------------------------------------------------------
  // The groups

  lemma {:induction false} CommentGroupsOfKeys(c: map<int, string>, s: int)
    ensures s in CommentGroupsOf(c) <==> IsRunStart(c, s, false)
    ensures s in CommentGroupsOf(c) ==> CommentGroupsOf(c)[s] == CommentGroupAt(c, s)
  {
  }

  lemma {:induction false} CodeGroupsOfKeys(k: map<int, string>, s: int)
    ensures s in CodeGroupsOf(k) <==> IsRunStart(k, s, true)
    ensures s in CodeGroupsOf(k) ==> CodeGroupsOf(k)[s] == CodeGroupAt(k, s)
  {
  }

  /**
    A comment group covers recorded lines `s .. s + numRows - 1`, all with the
    signature of its first line, and neither the line before it nor the line
    after it continues it.
   */
  lemma {:induction false} CommentGroupExtent(c: map<int, string>, s: int)
    requires s in CommentGroupsOf(c)
    ensures var e := s + CommentGroupsOf(c)[s].numRows - 1;
            && s <= e
            && (forall j | s <= j <= e :: j in c && LeadingWhiteSpace(c[j]) == LeadingWhiteSpace(c[s]))
            && (s - 1 in c ==> LeadingWhiteSpace(c[s - 1]) != LeadingWhiteSpace(c[s]))
            && (e + 1 in c ==> LeadingWhiteSpace(c[e + 1]) != LeadingWhiteSpace(c[s]))
  {
    CommentGroupsOfKeys(c, s);
    var e := RunEnd(c, s, false);
    RunSignature(c, s, false);
    if e + 1 in c {
      assert LeadingWhiteSpace(c[e]) == LeadingWhiteSpace(c[s]);
    }
  }

  /** `maxLen` is the longest row of the group. */
  lemma {:induction false} CommentGroupWidth(c: map<int, string>, s: int)
    requires s in CommentGroupsOf(c)
    ensures var g := CommentGroupsOf(c)[s];
            var e := s + g.numRows - 1;
            && (forall j | s <= j <= e :: j in c && |c[j]| <= g.maxLen)
            && (exists j | s <= j <= e :: j in c && |c[j]| == g.maxLen)
  {
    CommentGroupsOfKeys(c, s);
    MaxRowLenIsMax(c, s, RunEnd(c, s, false));
  }

  /**
    `hasTopBorder` says that the group's first row is a border, and
    `hasBottomBorder` that its last row is one, except for a lone border row
    of a group that another comment group follows.
   */
  lemma {:induction false} CommentGroupFlags(c: map<int, string>, s: int)
    requires s in CommentGroupsOf(c)
    ensures var g := CommentGroupsOf(c)[s];
            var e := s + g.numRows - 1;
            && (g.hasTopBorder <==> CommentBorder(c[s]))
            && (g.hasBottomBorder <==>
                  e in c && CommentBorder(c[e]) &&
                  (g.numRows > 1 || !g.hasTopBorder || forall t | t in CommentGroupsOf(c) :: t <= s))
  {
    CommentGroupsOfKeys(c, s);
    LastCommentGroup(c, s);
  }

  /** The run of comment group `s` reaches the last recorded line exactly when no group starts after `s`. */
  lemma {:induction false} LastCommentGroup(c: map<int, string>, s: int)
    requires s in CommentGroupsOf(c)
    ensures s in c && (IsFinal(c, RunEnd(c, s, false)) <==> forall t | t in CommentGroupsOf(c) :: t <= s)
  {
    CommentGroupsOfKeys(c, s);
    RunFinalIffLast(c, s, false);
    forall t ensures t in CommentGroupsOf(c) <==> IsRunStart(c, t, false) {
      CommentGroupsOfKeys(c, t);
    }
  }

  /**
    A code group covers recorded lines `s .. s + numRows - 1`, all with the
    signature of its first line, and the lines before and after it have
    another signature: a blank line does not bridge indented code.
   */
  lemma {:induction false} CodeGroupExtent(k: map<int, string>, s: int)
    requires s in CodeGroupsOf(k)
    ensures var e := s + CodeGroupsOf(k)[s].numRows - 1;
            && s <= e
            && (forall j | s <= j <= e :: j in k && LeadingWhiteSpace(k[j]) == LeadingWhiteSpace(k[s]))
            && (s - 1 in k ==> LeadingWhiteSpace(k[s - 1]) != LeadingWhiteSpace(k[s]))
            && (e + 1 in k ==> LeadingWhiteSpace(k[e + 1]) != LeadingWhiteSpace(k[s]))
  {
    CodeGroupsOfKeys(k, s);
    var e := RunEnd(k, s, true);
    RunSignature(k, s, true);
    SignatureNeverNewline(k[s]);
    if e + 1 in k {
      assert LeadingWhiteSpace(k[e]) == LeadingWhiteSpace(k[s]);
    }
  }

  /**
    `maxSemiColonIdx` is the largest `find(';')` among the group's rows, and
    so -1 exactly when none of them holds a ';'.
   */
  lemma {:induction false} CodeGroupSemicolon(k: map<int, string>, s: int)
    requires s in CodeGroupsOf(k)
    ensures var g := CodeGroupsOf(k)[s];
            var e := s + g.numRows - 1;
            && (forall j | s <= j <= e :: j in k && Find(k[j], ';') <= g.maxSemiColonIdx)
            && (exists j | s <= j <= e :: j in k && Find(k[j], ';') == g.maxSemiColonIdx)
            && (g.maxSemiColonIdx == -1 <==> forall j | s <= j <= e :: j in k && ';' !in k[j])
  {
    CodeGroupsOfKeys(k, s);
    MaxSemicolonIsMax(k, s, RunEnd(k, s, true));
  }

  /** Every recorded comment line belongs to exactly one comment group. */
  lemma {:induction false} CommentGroupsCover(c: map<int, string>, i: int)
    requires i in c
    ensures exists s | s in CommentGroupsOf(c) :: s <= i < s + CommentGroupsOf(c)[s].numRows
    ensures forall s | s in CommentGroupsOf(c) && s <= i < s + CommentGroupsOf(c)[s].numRows ::
              s == RunStart(c, i, false)
  {
    var r := RunStart(c, i, false);
    RunCovers(c, i, false);
    CommentGroupsOfKeys(c, r);
    forall s | s in CommentGroupsOf(c) && s <= i < s + CommentGroupsOf(c)[s].numRows
      ensures s == RunStart(c, i, false)
    {
      CommentGroupsOfKeys(c, s);
      RunStartOfRow(c, s, i, false);
    }
  }

  /** Every recorded code line belongs to exactly one code group. */
  lemma {:induction false} CodeGroupsCover(k: map<int, string>, i: int)
    requires i in k
    ensures exists s | s in CodeGroupsOf(k) :: s <= i < s + CodeGroupsOf(k)[s].numRows
    ensures forall s | s in CodeGroupsOf(k) && s <= i < s + CodeGroupsOf(k)[s].numRows ::
              s == RunStart(k, i, true)
  {
    var r := RunStart(k, i, true);
    RunCovers(k, i, true);
    CodeGroupsOfKeys(k, r);
    forall s | s in CodeGroupsOf(k) && s <= i < s + CodeGroupsOf(k)[s].numRows
      ensures s == RunStart(k, i, true)
    {
      CodeGroupsOfKeys(k, s);
      RunStartOfRow(k, s, i, true);
    }
  }

  /** The sum of `rows[ks[i]]`. */
  function SumRows(rows: map<int, int>, ks: seq<int>): int
    requires forall i | 0 <= i < |ks| :: ks[i] in rows
  {
    if ks == [] then 0 else SumRows(rows, ks[..|ks| - 1]) + rows[ks[|ks| - 1]]
  }

  lemma {:induction false} SumRowsIsRunLengths(m: map<int, string>, b: bool, rows: map<int, int>, ks: seq<int>)
    requires forall i | 0 <= i < |ks| :: ks[i] in m && !Joins(m, ks[i], b)
    requires forall i | 0 <= i < |ks| :: ks[i] in rows && rows[ks[i]] == RunEnd(m, ks[i], b) - ks[i] + 1
    ensures SumRows(rows, ks) == SumRunLengths(m, b, ks)
  {
    if ks != [] {
      SumRowsIsRunLengths(m, b, rows, ks[..|ks| - 1]);
    }
  }

  /** The `numRows` of every comment group, by its first line. */
  function CommentRowCounts(c: map<int, string>): map<int, int> {
    var g := CommentGroupsOf(c);
    map s | s in g :: g[s].numRows
  }

  /** The `numRows` of every code group, by its first line. */
  function CodeRowCounts(k: map<int, string>): map<int, int> {
    var g := CodeGroupsOf(k);
    map s | s in g :: g[s].numRows
  }

  /** Listing each comment group once, their `numRows` add up to the number of comment lines. */
  lemma {:induction false} CommentRowsTotal(c: map<int, string>, ks: seq<int>)
    requires Distinct(ks)
    requires forall i | 0 <= i < |ks| :: ks[i] in CommentGroupsOf(c)
    requires forall s | s in CommentGroupsOf(c) :: s in ks
    ensures SumRows(CommentRowCounts(c), ks) == |c|
  {
    forall i | 0 <= i < |ks|
      ensures ks[i] in c && !Joins(c, ks[i], false)
      ensures ks[i] in CommentRowCounts(c) && CommentRowCounts(c)[ks[i]] == RunEnd(c, ks[i], false) - ks[i] + 1
    {
      CommentGroupsOfKeys(c, ks[i]);
    }
    SumRowsIsRunLengths(c, false, CommentRowCounts(c), ks);
    forall s | IsRunStart(c, s, false) ensures s in ks {
      CommentGroupsOfKeys(c, s);
    }
    RunLengthsSum(c, false, ks);
  }

  /** Listing each code group once, their `numRows` add up to the number of code lines. */
  lemma {:induction false} CodeRowsTotal(k: map<int, string>, ks: seq<int>)
    requires Distinct(ks)
    requires forall i | 0 <= i < |ks| :: ks[i] in CodeGroupsOf(k)
    requires forall s | s in CodeGroupsOf(k) :: s in ks
    ensures SumRows(CodeRowCounts(k), ks) == |k|
  {
    forall i | 0 <= i < |ks|
      ensures ks[i] in k && !Joins(k, ks[i], true)
      ensures ks[i] in CodeRowCounts(k) && CodeRowCounts(k)[ks[i]] == RunEnd(k, ks[i], true) - ks[i] + 1
    {
      CodeGroupsOfKeys(k, ks[i]);
    }
    SumRowsIsRunLengths(k, true, CodeRowCounts(k), ks);
    forall s | IsRunStart(k, s, true) ensures s in ks {
      CodeGroupsOfKeys(k, s);
    }
    RunLengthsSum(k, true, ks);
  }
}
