/**
  The two group builders of `AsmFormatter`, `_get_candidate_comment_groups`
  and `_get_candidate_code_groups`: the sorted walk over the recorded lines
  that opens, extends and closes groups, and the proof that it yields the
  groups that module Groups describes.
 */
module Builders {
  import opened Text
  import opened Classifier
  import opened Groups

  /** A non-empty finite set of line indices has a largest element. */
  lemma {:induction false} MaxExists(s: set<int>)
    requires s != {}
    ensures exists x | x in s :: forall y | y in s :: y <= x
    decreases |s|
  {
    if forall z :: z !in s {
      assert false;
    }
    var y :| y in s;
    var rest := s - {y};
    if forall z :: z !in rest {
      forall z | z in s ensures z <= y {
        assert z !in rest;
      }
    } else {
      MaxExists(rest);
      var m :| m in rest && forall z | z in rest :: z <= m;
      var top := if m < y then y else m;
      forall z | z in s ensures z <= top {
        if z != y { assert z in rest; }
      }
      assert top in s;
    }
  }

  /** The largest element of a non-empty set of line indices. */
  function MaxKey(s: set<int>): (x: int)
    requires s != {}
    ensures x in s && forall y | y in s :: y <= x
  {
    MaxExists(s);
    var x :| x in s && forall y | y in s :: y <= x;
    x
  }

  /** Each element of `ks` is smaller than the next. */
  ghost predicate Increasing(ks: seq<int>)
    decreases |ks|
  {
    |ks| < 2 || (ks[|ks| - 2] < ks[|ks| - 1] && Increasing(ks[..|ks| - 1]))
  }

  lemma {:induction false} IncreasingPairs(ks: seq<int>)
    requires Increasing(ks)
    ensures forall a, b | 0 <= a < b < |ks| :: ks[a] < ks[b]
    decreases |ks|
  {
    if |ks| >= 2 {
      var init := ks[..|ks| - 1];
      IncreasingPairs(init);
      forall a, b | 0 <= a < b < |ks| ensures ks[a] < ks[b] {
        assert ks[a] == init[a];
        if b < |ks| - 1 {
          assert ks[b] == init[b];
        } else if a < |ks| - 2 {
          assert ks[a] < ks[|ks| - 2];
        }
      }
    }
  }

  lemma {:induction false} PairsIncreasing(ks: seq<int>)
    requires forall a, b | 0 <= a < b < |ks| :: ks[a] < ks[b]
    ensures Increasing(ks)
    decreases |ks|
  {
    if |ks| >= 2 {
      var init := ks[..|ks| - 1];
      forall a, b | 0 <= a < b < |init| ensures init[a] < init[b] {
        assert init[a] == ks[a] && init[b] == ks[b];
      }
      PairsIncreasing(init);
    }
  }

  /** The elements of `ks`. */
  ghost function KeySet(ks: seq<int>): set<int>
    decreases |ks|
  {
    if ks == [] then {} else KeySet(ks[..|ks| - 1]) + {ks[|ks| - 1]}
  }

  lemma {:induction false} InKeySet(ks: seq<int>)
    ensures forall x :: x in KeySet(ks) <==> x in ks
    decreases |ks|
  {
    if ks != [] {
      var init := ks[..|ks| - 1];
      InKeySet(init);
      assert ks == init + [ks[|ks| - 1]];
    }
  }

  /** `ks` lists the keys of `m` in strictly increasing order. */
  ghost predicate SortedKeysOf(m: map<int, string>, ks: seq<int>) {
    Increasing(ks) && m.Keys == KeySet(ks)
  }

  /** Every sorted key is a key. */
  lemma {:induction false} SortedKeyIn(m: map<int, string>, ks: seq<int>, t: int)
    requires SortedKeysOf(m, ks) && 0 <= t < |ks|
    ensures ks[t] in m
  {
    InKeySet(ks);
    var x := ks[t];
    assert x in ks;
  }

  /** `sorted(keys)`: the line indices of `keys` in increasing order. */
  function SortedKeys(keys: set<int>): (ks: seq<int>)
    ensures Increasing(ks) && KeySet(ks) == keys
    decreases |keys|
  {
    if keys == {} then []
    else
      var x := MaxKey(keys);
      var rest := SortedKeys(keys - {x});
      assert (rest + [x])[..|rest|] == rest;
      assert rest != [] ==> rest[|rest| - 1] in KeySet(rest);
      rest + [x]
  }

  /** In a strictly increasing sequence, nothing lies strictly between two neighbours. */
  lemma {:induction false} SortedGap(ks: seq<int>, t: int, x: int)
    requires Increasing(ks)
    requires 0 < t < |ks| && ks[t - 1] < x < ks[t]
    ensures x !in ks
  {
    IncreasingPairs(ks);
    forall a | 0 <= a < |ks| ensures ks[a] != x {
      if a < t - 1 {
        assert ks[a] < ks[t - 1];
      } else if t < a {
        assert ks[t] < ks[a];
      }
    }
  }

  /** The last element of a strictly increasing sequence is its largest. */
  lemma {:induction false} SortedStep(ks: seq<int>, t: int)
    requires Increasing(ks) && 0 < t < |ks|
    ensures ks[t - 1] < ks[t]
  {
    IncreasingPairs(ks);
  }

  lemma {:induction false} SortedLast(ks: seq<int>, x: int)
    requires Increasing(ks)
    requires x in ks
    ensures x <= ks[|ks| - 1]
  {
    IncreasingPairs(ks);
    var a :| 0 <= a < |ks| && ks[a] == x;
    if a < |ks| - 1 {
      assert ks[a] < ks[|ks| - 1];
    }
  }

  /** Recorded lines `s..e` are consecutive and each after `s` joins its predecessor. */
  ghost predicate RunTo(m: map<int, string>, b: bool, s: int, e: int)
    decreases e - s
  {
    s <= e && e in m && (s == e || (Joins(m, e, b) && RunTo(m, b, s, e - 1)))
  }

  lemma {:induction false} RunToFacts(m: map<int, string>, b: bool, s: int, e: int)
    requires RunTo(m, b, s, e)
    ensures forall j | s < j <= e :: Joins(m, j, b)
    ensures forall j | s <= j <= e :: j in m
    decreases e - s
  {
    if s < e {
      RunToFacts(m, b, s, e - 1);
    }
  }

  /** MaxRowLen over a run the builder is walking, with the run itself as the precondition. */
  ghost function RunMaxLen(m: map<int, string>, b: bool, s: int, e: int): nat
    requires RunTo(m, b, s, e)
    decreases e - s
  {
    if s == e then |m[e]| else Max(RunMaxLen(m, b, s, e - 1), |m[e]|)
  }

  /** MaxSemicolon over a run the builder is walking. */
  ghost function RunMaxSemicolon(m: map<int, string>, b: bool, s: int, e: int): int
    requires RunTo(m, b, s, e)
    decreases e - s
  {
    if s == e then Find(m[e], ';') else Max(RunMaxSemicolon(m, b, s, e - 1), Find(m[e], ';'))
  }

  lemma {:induction false} RunMaxima(m: map<int, string>, b: bool, s: int, e: int)
    requires RunTo(m, b, s, e)
    ensures forall j | s <= j <= e :: j in m
    ensures RunMaxLen(m, b, s, e) == MaxRowLen(m, s, e)
    ensures RunMaxSemicolon(m, b, s, e) == MaxSemicolon(m, s, e)
    decreases e - s
  {
    if s < e {
      RunMaxima(m, b, s, e - 1);
    }
  }

  /**
    The test by which the builders extend the current group with the next
    sorted key `ks[t]` (it directly follows the previous key, and its
    signature is the group's, or "\n" where blank lines join) is Joins.
   */
  lemma {:induction false} JoinTest(m: map<int, string>, b: bool, ks: seq<int>, t: int, prevIdx: int, prevSig: string)
    requires SortedKeysOf(m, ks) && 0 < t < |ks| && prevIdx == ks[t - 1]
    requires prevIdx in m && LeadingWhiteSpace(m[prevIdx]) == prevSig
    ensures ks[t] in m
    ensures Joins(m, ks[t], b) <==>
              ks[t] == prevIdx + 1 && (LeadingWhiteSpace(m[ks[t]]) == prevSig || (b && LeadingWhiteSpace(m[ks[t]]) == "\n"))
  {
    InKeySet(ks);
    assert ks[t] in ks;
    if ks[t] != prevIdx + 1 {
      IncreasingPairs(ks);
      assert prevIdx < ks[t];
      SortedGap(ks, t, ks[t] - 1);
    }
  }

  /** The first sorted key starts a run, and no recorded line comes before it. */
  lemma {:induction false} FirstRun(m: map<int, string>, b: bool, ks: seq<int>)
    requires SortedKeysOf(m, ks) && |ks| > 0
    ensures IsRunStart(m, ks[0], b)
    ensures forall x | x in m :: ks[0] <= x
  {
    InKeySet(ks);
    IncreasingPairs(ks);
    assert ks[0] in ks;
    forall x | x in m ensures ks[0] <= x {
      assert x in ks;
      var a :| 0 <= a < |ks| && ks[a] == x;
      if a > 0 { assert ks[0] < ks[a]; }
    }
  }

  /**
    When the builder closes the group that starts at `s` on reaching key
    `ks[t]` (or on running out of keys, `t == |ks|`), the group's run ends at
    the previous key `ks[t - 1]`, it is the final run exactly when the keys
    have run out, and no run starts strictly between `s` and the next key.
   */
  lemma {:induction false} CloseRun(m: map<int, string>, b: bool, ks: seq<int>, t: int, s: int)
    requires SortedKeysOf(m, ks) && 0 < t <= |ks|
    requires IsRunStart(m, s, b) && RunTo(m, b, s, ks[t - 1])
    requires t < |ks| ==> !Joins(m, ks[t], b)
    ensures RunEnd(m, s, b) == ks[t - 1]
    ensures IsFinal(m, ks[t - 1]) <==> t == |ks|
    ensures t < |ks| ==> IsRunStart(m, ks[t], b)
    ensures forall x | s < x && (t < |ks| ==> x < ks[t]) :: !IsRunStart(m, x, b)
  {
    var e := ks[t - 1];
    InKeySet(ks);
    RunToFacts(m, b, s, e);
    assert e in ks;
    if t < |ks| {
      assert ks[t] in ks;
      IncreasingPairs(ks);
      assert e < ks[t];
      if ks[t] != e + 1 {
        SortedGap(ks, t, e + 1);
      }
      forall x | e < x < ks[t] ensures x !in m {
        SortedGap(ks, t, x);
      }
    } else {
      forall x | x in m ensures x <= e {
        assert x in ks;
        SortedLast(ks, x);
      }
    }
    assert !Joins(m, e + 1, b);
    RunEndOfRow(m, s, e, b);
  }

  /**
    The comment groups of the run starts among the first `n` sorted keys:
    what the comment builder has closed once its group start is `ks[n]`.
   */
  function CommentGroupsUpTo(c: map<int, string>, ks: seq<int>, n: nat): map<int, CommentGroup>
    requires n <= |ks|
  {
    if n == 0 then map[]
    else if IsRunStart(c, ks[n - 1], false) then CommentGroupsUpTo(c, ks, n - 1)[ks[n - 1] := CommentGroupAt(c, ks[n - 1])]
    else CommentGroupsUpTo(c, ks, n - 1)
  }

  /** The code groups of the run starts among the first `n` sorted keys. */
  function CodeGroupsUpTo(k: map<int, string>, ks: seq<int>, n: nat): map<int, CodeGroup>
    requires n <= |ks|
  {
    if n == 0 then map[]
    else if IsRunStart(k, ks[n - 1], true) then CodeGroupsUpTo(k, ks, n - 1)[ks[n - 1] := CodeGroupAt(k, ks[n - 1])]
    else CodeGroupsUpTo(k, ks, n - 1)
  }

  /** CommentGroupsUpTo holds the comment group of every run start among the first `n` keys, and nothing else. */
  lemma {:induction false} CommentGroupsUpToIs(c: map<int, string>, ks: seq<int>, n: nat)
    requires n <= |ks|
    ensures CommentGroupsUpTo(c, ks, n) ==
              map s | s in KeySet(ks[..n]) && IsRunStart(c, s, false) :: CommentGroupAt(c, s)
  {
    if n > 0 {
      CommentGroupsUpToIs(c, ks, n - 1);
      assert ks[..n][..n - 1] == ks[..n - 1];
    }
  }

  /** CodeGroupsUpTo holds the code group of every run start among the first `n` keys, and nothing else. */
  lemma {:induction false} CodeGroupsUpToIs(k: map<int, string>, ks: seq<int>, n: nat)
    requires n <= |ks|
    ensures CodeGroupsUpTo(k, ks, n) ==
              map s | s in KeySet(ks[..n]) && IsRunStart(k, s, true) :: CodeGroupAt(k, s)
  {
    if n > 0 {
      CodeGroupsUpToIs(k, ks, n - 1);
      assert ks[..n][..n - 1] == ks[..n - 1];
    }
  }

  /** Over all the sorted keys, CommentGroupsUpTo is CommentGroupsOf, and key `ks[n]` is not yet in it. */
  lemma {:induction false} CommentGroupsUpToAll(c: map<int, string>, ks: seq<int>, n: nat)
    requires SortedKeysOf(c, ks) && n <= |ks|
    ensures n == |ks| ==> CommentGroupsUpTo(c, ks, n) == CommentGroupsOf(c)
    ensures n < |ks| ==> ks[n] !in CommentGroupsUpTo(c, ks, n)
  {
    CommentGroupsUpToIs(c, ks, n);
    if n == |ks| {
      assert ks[..n] == ks;
    } else {
      InKeySet(ks[..n]);
      IncreasingPairs(ks);
      forall u | 0 <= u < n ensures ks[..n][u] != ks[n] {
        assert ks[u] < ks[n];
      }
    }
  }

  /** Over all the sorted keys, CodeGroupsUpTo is CodeGroupsOf, and key `ks[n]` is not yet in it. */
  lemma {:induction false} CodeGroupsUpToAll(k: map<int, string>, ks: seq<int>, n: nat)
    requires SortedKeysOf(k, ks) && n <= |ks|
    ensures n == |ks| ==> CodeGroupsUpTo(k, ks, n) == CodeGroupsOf(k)
    ensures n < |ks| ==> ks[n] !in CodeGroupsUpTo(k, ks, n)
  {
    CodeGroupsUpToIs(k, ks, n);
    if n == |ks| {
      assert ks[..n] == ks;
    } else {
      InKeySet(ks[..n]);
      IncreasingPairs(ks);
      forall u | 0 <= u < n ensures ks[..n][u] != ks[n] {
        assert ks[u] < ks[n];
      }
    }
  }

  /**
    A builder extends the group that starts at `s` and ends at the previous
    key with the next key `ks[t]`, which joins it: the run grows by one
    line, and its row maxima take in the new line.
   */
  lemma {:induction false} ExtendRun(m: map<int, string>, b: bool, ks: seq<int>, t: int, s: int)
    requires 0 < t < |ks| && RunTo(m, b, s, ks[t - 1])
    requires ks[t] == ks[t - 1] + 1 && Joins(m, ks[t], b)
    ensures RunTo(m, b, s, ks[t])
    ensures RunMaxLen(m, b, s, ks[t]) == Max(RunMaxLen(m, b, s, ks[t - 1]), |m[ks[t]]|)
    ensures RunMaxSemicolon(m, b, s, ks[t]) == Max(RunMaxSemicolon(m, b, s, ks[t - 1]), Find(m[ks[t]], ';'))
  {
  }

  /**
    The comment builder closes the group that starts at `startIdx` and ends
    at the previous key, on reaching key `ks[t]` that does not join it, or
    (`t == |ks|`) after the last key: with its bottom border flag set, the
    group is the comment group at `startIdx`, and the next key starts a run.
   */
  lemma {:induction false} CloseCommentGroup(c: map<int, string>, ks: seq<int>, t: int, startIdx: int, group: CommentGroup)
    requires SortedKeysOf(c, ks) && 0 < t <= |ks|
    requires IsRunStart(c, startIdx, false) && RunTo(c, false, startIdx, ks[t - 1])
    requires t < |ks| ==> !Joins(c, ks[t], false)
    requires group == CommentGroup(ks[t - 1] - startIdx + 1, RunMaxLen(c, false, startIdx, ks[t - 1]), CommentBorder(c[startIdx]), false)
    ensures t < |ks| ==> IsRunStart(c, ks[t], false)
    ensures var bottom := CommentBorder(c[ks[t - 1]]) && (t == |ks| || !(group.numRows == 1 && group.hasTopBorder));
            group.(hasBottomBorder := bottom) == CommentGroupAt(c, startIdx)
  {
    CloseRun(c, false, ks, t, startIdx);
    RunMaxima(c, false, startIdx, ks[t - 1]);
  }

  /**
    The code builder closes the group that starts at `startIdx` and ends at
    the previous key: the group is the code group at `startIdx`, and the
    next key starts a run.
   */
  lemma {:induction false} CloseCodeGroup(k: map<int, string>, ks: seq<int>, t: int, startIdx: int, group: CodeGroup)
    requires SortedKeysOf(k, ks) && 0 < t <= |ks|
    requires IsRunStart(k, startIdx, true) && RunTo(k, true, startIdx, ks[t - 1])
    requires t < |ks| ==> !Joins(k, ks[t], true)
    requires group == CodeGroup(ks[t - 1] - startIdx + 1, RunMaxSemicolon(k, true, startIdx, ks[t - 1]))
    ensures t < |ks| ==> IsRunStart(k, ks[t], true)
    ensures group == CodeGroupAt(k, startIdx)
  {
    CloseRun(k, true, ks, t, startIdx);
    RunMaxima(k, true, startIdx, ks[t - 1]);
  }

  // ---------------------------------------------------------------------------
  // The comment builder

  /** A recorded line, or "" for an index that is not recorded. */
  function Row(m: map<int, string>, i: int): string {
    if i in m then m[i] else ""
  }

  /** The local variables of the loop of `_get_candidate_comment_groups`, and `commentGroups`. */
  datatype CommentScan = CommentScan(startIdx: int, prevIdx: int, prevLine: string, prevSig: string,
                                     group: CommentGroup, groups: map<int, CommentGroup>)

  /** A new comment group of one row, with its top border flag when the row is a border. */
  function OpenCommentGroup(line: string): CommentGroup {
    var group := CommentGroup(1, |line|, false, false);
    if CommentBorder(line) then group.(hasTopBorder := true) else group
  }

  /**
    One round of the comment builder's loop for sorted key `i` and its line:
    extend the group when the line directly follows and has the group's
    signature, and otherwise close the group (with its bottom border flag
    when the previous row is a border and the group is not a lone top
    border) and open a new one.
   */
  function CommentScanStep(s: CommentScan, i: int, line: string): CommentScan {
    var sig := LeadingWhiteSpace(line);
    if i == s.prevIdx + 1 && sig == s.prevSig then
      var grown := s.group.(numRows := s.group.numRows + 1);
      var group := if |line| > grown.maxLen then grown.(maxLen := |line|) else grown;
      s.(group := group, prevIdx := i, prevLine := line)
    else
      var closed := if CommentBorder(s.prevLine) && !(s.group.numRows == 1 && s.group.hasTopBorder)
                    then s.group.(hasBottomBorder := true) else s.group;
      CommentScan(i, i, line, sig, OpenCommentGroup(line), s.groups[s.startIdx := closed])
  }

  /** The comment builder's loop over the sorted keys from `ks[t]` on. */
  function CommentScanFrom(c: map<int, string>, ks: seq<int>, t: nat, s: CommentScan): CommentScan
    requires t <= |ks|
    decreases |ks| - t
  {
    if t == |ks| then s else CommentScanFrom(c, ks, t + 1, CommentScanStep(s, ks[t], Row(c, ks[t])))
  }

  /** After the loop, the last group is stored unless its start is already a key, with the bottom border test alone. */
  function CommentScanFinish(s: CommentScan): map<int, CommentGroup> {
    if s.startIdx !in s.groups then
      s.groups[s.startIdx := if CommentBorder(s.prevLine) then s.group.(hasBottomBorder := true) else s.group]
    else s.groups
  }

  /** `commentGroups` after `_get_candidate_comment_groups`, given `commentLines` and `commentGroups` before it. */
  function CommentGroupsBuilt(c: map<int, string>, groups: map<int, CommentGroup>): map<int, CommentGroup> {
    var ks := SortedKeys(c.Keys);
    if |ks| == 0 then groups
    else
      var first := Row(c, ks[0]);
      CommentScanFinish(CommentScanFrom(c, ks, 1, CommentScan(ks[0], ks[0], first, LeadingWhiteSpace(first),
                                                              OpenCommentGroup(first), groups)))
  }
  /**
    CommentGroupsBuilt from the sorted keys `ks`, the way the builder starts its loop on
    them, and the map it describes when the builder starts from an empty one.
   */
  lemma {:induction false} CommentGroupsBuiltUnfold(c: map<int, string>, groups: map<int, CommentGroup>, ks: seq<int>)
    requires ks == SortedKeys(c.Keys)
    ensures |ks| == 0 ==> CommentGroupsBuilt(c, groups) == groups
    ensures |ks| > 0 ==>
              CommentGroupsBuilt(c, groups) ==
              CommentScanFinish(CommentScanFrom(c, ks, 1, CommentScan(ks[0], ks[0], Row(c, ks[0]), LeadingWhiteSpace(Row(c, ks[0])),
                                                OpenCommentGroup(Row(c, ks[0])), groups)))
    ensures groups == map[] ==> CommentGroupsBuilt(c, groups) == CommentGroupsOf(c)
  {
    if groups == map[] {
      CommentGroupsBuiltCorrect(c);
    }
  }


  /**
    What holds each time the comment builder's loop reaches sorted key
    `ks[t]`: the open group starts a run that reaches the previous key and
    has that run's size, widest row and top border; the groups closed so
    far, with the open one's comment group, are those of the first `t` keys.
   */
  ghost predicate CommentScanInv(c: map<int, string>, ks: seq<int>, t: nat, s: CommentScan) {
    SortedKeysOf(c, ks) && 1 <= t <= |ks| &&
    s.prevIdx == ks[t - 1] && s.prevIdx in c && s.prevLine == c[s.prevIdx] &&
    IsRunStart(c, s.startIdx, false) && RunTo(c, false, s.startIdx, s.prevIdx) &&
    LeadingWhiteSpace(s.prevLine) == s.prevSig &&
    s.group == CommentGroup(s.prevIdx - s.startIdx + 1, RunMaxLen(c, false, s.startIdx, s.prevIdx),
                            CommentBorder(c[s.startIdx]), false) &&
    s.startIdx !in s.groups &&
    s.groups[s.startIdx := CommentGroupAt(c, s.startIdx)] == CommentGroupsUpTo(c, ks, t)
  }

  /** The state before the loop satisfies the invariant. */
  lemma {:induction false} CommentScanStart(c: map<int, string>, ks: seq<int>)
    requires SortedKeysOf(c, ks) && |ks| > 0
    ensures var first := Row(c, ks[0]);
            CommentScanInv(c, ks, 1, CommentScan(ks[0], ks[0], first, LeadingWhiteSpace(first), OpenCommentGroup(first), map[]))
  {
    FirstRun(c, false, ks);
  }

  /** One round of the loop keeps the invariant. */
  lemma {:induction false} CommentScanStepInv(c: map<int, string>, ks: seq<int>, t: nat, s: CommentScan)
    requires CommentScanInv(c, ks, t, s) && t < |ks|
    ensures CommentScanInv(c, ks, t + 1, CommentScanStep(s, ks[t], Row(c, ks[t])))
  {
    JoinTest(c, false, ks, t, s.prevIdx, s.prevSig);
    if Joins(c, ks[t], false) {
      CommentScanJoinInv(c, ks, t, s);
    } else {
      CommentScanCloseInv(c, ks, t, s);
    }
  }

  /** A round that extends the open group keeps the invariant. */
  lemma {:induction false} CommentScanJoinInv(c: map<int, string>, ks: seq<int>, t: nat, s: CommentScan)
    requires CommentScanInv(c, ks, t, s) && t < |ks| && ks[t] in c && Joins(c, ks[t], false)
    requires ks[t] == s.prevIdx + 1 && LeadingWhiteSpace(c[ks[t]]) == s.prevSig
    ensures CommentScanInv(c, ks, t + 1, CommentScanStep(s, ks[t], Row(c, ks[t])))
  {
    ExtendRun(c, false, ks, t, s.startIdx);
  }

  /** A round that closes the open group and opens a new one keeps the invariant. */
  lemma {:induction false} CommentScanCloseInv(c: map<int, string>, ks: seq<int>, t: nat, s: CommentScan)
    requires CommentScanInv(c, ks, t, s) && t < |ks| && ks[t] in c && !Joins(c, ks[t], false)
    requires !(ks[t] == s.prevIdx + 1 && LeadingWhiteSpace(c[ks[t]]) == s.prevSig)
    ensures CommentScanInv(c, ks, t + 1, CommentScanStep(s, ks[t], Row(c, ks[t])))
  {
    CloseCommentGroup(c, ks, t, s.startIdx, s.group);
    CommentGroupsUpToAll(c, ks, t);
  }

  /** Once the keys have run out, the final store completes the comment groups. */
  lemma {:induction false} CommentScanEnd(c: map<int, string>, ks: seq<int>, s: CommentScan)
    requires CommentScanInv(c, ks, |ks|, s)
    ensures CommentScanFinish(s) == CommentGroupsOf(c)
  {
    CloseCommentGroup(c, ks, |ks|, s.startIdx, s.group);
    CommentGroupsUpToAll(c, ks, |ks|);
  }

  /** From any state that satisfies the invariant, the loop and the final store yield the comment groups. */
  lemma {:induction false} CommentScanFromCorrect(c: map<int, string>, ks: seq<int>, t: nat, s: CommentScan)
    requires CommentScanInv(c, ks, t, s)
    ensures CommentScanFinish(CommentScanFrom(c, ks, t, s)) == CommentGroupsOf(c)
    decreases |ks| - t
  {
    if t == |ks| {
      CommentScanEnd(c, ks, s);
    } else {
      CommentScanStepInv(c, ks, t, s);
      CommentScanFromCorrect(c, ks, t + 1, CommentScanStep(s, ks[t], Row(c, ks[t])));
    }
  }

  /**
    Starting from an empty `commentGroups`, `_get_candidate_comment_groups`
    leaves exactly the comment groups: one per run of consecutive comment
    lines with a common signature, keyed by its first line.
   */
  lemma {:induction false} CommentGroupsBuiltCorrect(c: map<int, string>)
    ensures CommentGroupsBuilt(c, map[]) == CommentGroupsOf(c)
  {
    var ks := SortedKeys(c.Keys);
    if |ks| == 0 {
      assert c.Keys == {};
    } else {
      CommentScanStart(c, ks);
      var first := Row(c, ks[0]);
      CommentScanFromCorrect(c, ks, 1, CommentScan(ks[0], ks[0], first, LeadingWhiteSpace(first), OpenCommentGroup(first), map[]));
    }
  }

  /** The body of the comment builder's loop, on its local variables, for sorted key `i` and its line. */
  method CommentRound(startIdx0: int, prevIdx0: int, prevLine0: string, prevSig0: string, group0: CommentGroup,
                      groups0: map<int, CommentGroup>, i: int, currentLine: string)
    returns (startIdx: int, prevIdx: int, prevLine: string, prevSig: string, group: CommentGroup, groups: map<int, CommentGroup>)
    ensures CommentScan(startIdx, prevIdx, prevLine, prevSig, group, groups) ==
            CommentScanStep(CommentScan(startIdx0, prevIdx0, prevLine0, prevSig0, group0, groups0), i, currentLine)
  {
    startIdx, prevIdx, prevLine, prevSig, group, groups := startIdx0, prevIdx0, prevLine0, prevSig0, group0, groups0;
    var whiteSpaceSig := LeadingWhiteSpace(currentLine);
    if i == prevIdx + 1 && whiteSpaceSig == prevSig {
      group := group.(numRows := group.numRows + 1);
      var currentLineLen := |currentLine|;
      if currentLineLen > group.maxLen {
        group := group.(maxLen := currentLineLen);
      }
      prevIdx := i;
      prevLine := currentLine;
      return;
    }
    var bottomBorder := CommentBorder(prevLine);
    if bottomBorder && !(group.numRows == 1 && group.hasTopBorder) {
      group := group.(hasBottomBorder := true);
    }
    groups := groups[startIdx := group];
    startIdx := i;
    group := CommentGroup(1, |currentLine|, false, false);
    prevIdx := i;
    prevLine := currentLine;
    prevSig := whiteSpaceSig;
    if CommentBorder(prevLine) {
      group := group.(hasTopBorder := true);
    }
  }

  /** The group that the comment builder opens on `line`, and the line's signature. */
  method CommentOpen(line: string) returns (group: CommentGroup, whiteSpaceSig: string)
    ensures group == OpenCommentGroup(line) && whiteSpaceSig == LeadingWhiteSpace(line)
  {
    group := CommentGroup(1, |line|, false, false);
    whiteSpaceSig := LeadingWhiteSpace(line);
    if CommentBorder(line) {
      group := group.(hasTopBorder := true);
    }
  }

  /** The store of the last group after the comment builder's loop. */
  method CommentStoreLast(startIdx: int, prevIdx: int, prevLine: string, prevSig: string, group0: CommentGroup,
                          groups0: map<int, CommentGroup>) returns (groups: map<int, CommentGroup>)
    ensures groups == CommentScanFinish(CommentScan(startIdx, prevIdx, prevLine, prevSig, group0, groups0))
  {
    groups := groups0;
    var group := group0;
    if startIdx !in groups {
      if CommentBorder(prevLine) {
        group := group.(hasBottomBorder := true);
      }
      groups := groups[startIdx := group];
    }
  }

  /** The loop of the comment builder over the sorted keys after the first. */
  method CommentLoop(c: map<int, string>, indices: seq<int>, startIdx0: int, prevIdx0: int, prevLine0: string, prevSig0: string,
                 group0: CommentGroup, groups0: map<int, CommentGroup>)
    returns (startIdx: int, prevIdx: int, prevLine: string, prevSig: string, group: CommentGroup, groups: map<int, CommentGroup>)
    requires 1 <= |indices| && SortedKeysOf(c, indices)
    ensures CommentScan(startIdx, prevIdx, prevLine, prevSig, group, groups) ==
            CommentScanFrom(c, indices, 1, CommentScan(startIdx0, prevIdx0, prevLine0, prevSig0, group0, groups0))
  {
    startIdx, prevIdx, prevLine, prevSig, group, groups := startIdx0, prevIdx0, prevLine0, prevSig0, group0, groups0;
    ghost var start := CommentScan(startIdx, prevIdx, prevLine, prevSig, group, groups);
    var t := 1;
    while t < |indices|
      invariant 1 <= t <= |indices|
      invariant CommentScanFrom(c, indices, t, CommentScan(startIdx, prevIdx, prevLine, prevSig, group, groups)) ==
                CommentScanFrom(c, indices, 1, start)
    {
      var i := indices[t];
      assert i in c by {
        SortedKeyIn(c, indices, t);
      }
      var currentLine := c[i];
      startIdx, prevIdx, prevLine, prevSig, group, groups :=
        CommentRound(startIdx, prevIdx, prevLine, prevSig, group, groups, i, currentLine);
      t := t + 1;
    }
  }

  /**
    `_get_candidate_comment_groups` on `commentLines` `c`, adding to
    `commentGroups` `groups0`: the sorted walk, then the store of the last group.
   */
  method BuildCommentGroups(c: map<int, string>, groups0: map<int, CommentGroup>) returns (groups: map<int, CommentGroup>)
    ensures groups == CommentGroupsBuilt(c, groups0)
    ensures groups0 == map[] ==> groups == CommentGroupsOf(c)
  {
    groups := groups0;
    var indices := SortedKeys(c.Keys);
    CommentGroupsBuiltUnfold(c, groups0, indices);
    if |indices| == 0 {
      return;
    }
    assert indices[0] in c by {
      SortedKeyIn(c, indices, 0);
    }
    var startIdx := indices[0];
    var prevIdx := indices[0];
    var prevLine := c[prevIdx];
    var group, prevSig := CommentOpen(prevLine);
    assert Row(c, indices[0]) == prevLine;
    startIdx, prevIdx, prevLine, prevSig, group, groups :=
      CommentLoop(c, indices, startIdx, prevIdx, prevLine, prevSig, group, groups);
    groups := CommentStoreLast(startIdx, prevIdx, prevLine, prevSig, group, groups);
  }


  // ---------------------------------------------------------------------------
  // The code builder

  /** The local variables of the loop of `_get_candidate_code_groups`, and `codeGroups`. */
  datatype CodeScan = CodeScan(startIdx: int, prevIdx: int, prevLine: string, prevSig: string,
                               group: CodeGroup, groups: map<int, CodeGroup>)

  /** A new code group of one row, with the index of the row's first ';' (-1 when it has none). */
  function OpenCodeGroup(line: string): CodeGroup {
    CodeGroup(1, Find(line, ';'))
  }

  /**
    One round of the code builder's loop for sorted key `i` and its line:
    extend the group when the line directly follows and has the group's
    signature or the signature "\n", and otherwise store the group and open
    a new one.
   */
  function CodeScanStep(s: CodeScan, i: int, line: string): CodeScan {
    var sig := LeadingWhiteSpace(line);
    if i == s.prevIdx + 1 && (sig == s.prevSig || sig == "\n") then
      var grown := s.group.(numRows := s.group.numRows + 1);
      var semicolon := Find(line, ';');
      var group := if semicolon > grown.maxSemiColonIdx then grown.(maxSemiColonIdx := semicolon) else grown;
      s.(group := group, prevIdx := i, prevLine := line)
    else
      CodeScan(i, i, line, sig, OpenCodeGroup(line), s.groups[s.startIdx := s.group])
  }

  /** The code builder's loop over the sorted keys from `ks[t]` on. */
  function CodeScanFrom(k: map<int, string>, ks: seq<int>, t: nat, s: CodeScan): CodeScan
    requires t <= |ks|
    decreases |ks| - t
  {
    if t == |ks| then s else CodeScanFrom(k, ks, t + 1, CodeScanStep(s, ks[t], Row(k, ks[t])))
  }

  /** After the loop, the last group is stored unless its start is already a key. */
  function CodeScanFinish(s: CodeScan): map<int, CodeGroup> {
    if s.startIdx !in s.groups then s.groups[s.startIdx := s.group] else s.groups
  }

  /** `codeGroups` after `_get_candidate_code_groups`, given `codeLines` and `codeGroups` before it. */
  function CodeGroupsBuilt(k: map<int, string>, groups: map<int, CodeGroup>): map<int, CodeGroup> {
    var ks := SortedKeys(k.Keys);
    if |ks| == 0 then groups
    else
      var first := Row(k, ks[0]);
      CodeScanFinish(CodeScanFrom(k, ks, 1, CodeScan(ks[0], ks[0], first, LeadingWhiteSpace(first),
                                                     OpenCodeGroup(first), groups)))
  }
  /**
    CodeGroupsBuilt from the sorted keys `ks`, the way the builder starts its loop on
    them, and the map it describes when the builder starts from an empty one.
   */
  lemma {:induction false} CodeGroupsBuiltUnfold(k: map<int, string>, groups: map<int, CodeGroup>, ks: seq<int>)
    requires ks == SortedKeys(k.Keys)
    ensures |ks| == 0 ==> CodeGroupsBuilt(k, groups) == groups
    ensures |ks| > 0 ==>
              CodeGroupsBuilt(k, groups) ==
              CodeScanFinish(CodeScanFrom(k, ks, 1, CodeScan(ks[0], ks[0], Row(k, ks[0]), LeadingWhiteSpace(Row(k, ks[0])),
                                                OpenCodeGroup(Row(k, ks[0])), groups)))
    ensures groups == map[] ==> CodeGroupsBuilt(k, groups) == CodeGroupsOf(k)
  {
    if groups == map[] {
      CodeGroupsBuiltCorrect(k);
    }
  }


  /**
    What holds each time the code builder's loop reaches sorted key `ks[t]`:
    the open group starts a run that reaches the previous key and has that
    run's size and largest ';' index; the groups stored so far, with the
    open one's code group, are those of the first `t` keys.
   */
  ghost predicate CodeScanInv(k: map<int, string>, ks: seq<int>, t: nat, s: CodeScan) {
    SortedKeysOf(k, ks) && 1 <= t <= |ks| &&
    s.prevIdx == ks[t - 1] && s.prevIdx in k && s.prevLine == k[s.prevIdx] &&
    IsRunStart(k, s.startIdx, true) && RunTo(k, true, s.startIdx, s.prevIdx) &&
    LeadingWhiteSpace(s.prevLine) == s.prevSig &&
    s.group == CodeGroup(s.prevIdx - s.startIdx + 1, RunMaxSemicolon(k, true, s.startIdx, s.prevIdx)) &&
    s.startIdx !in s.groups &&
    s.groups[s.startIdx := CodeGroupAt(k, s.startIdx)] == CodeGroupsUpTo(k, ks, t)
  }

  /** The state before the loop satisfies the invariant. */
  lemma {:induction false} CodeScanStart(k: map<int, string>, ks: seq<int>)
    requires SortedKeysOf(k, ks) && |ks| > 0
    ensures var first := Row(k, ks[0]);
            CodeScanInv(k, ks, 1, CodeScan(ks[0], ks[0], first, LeadingWhiteSpace(first), OpenCodeGroup(first), map[]))
  {
    FirstRun(k, true, ks);
  }

  /** One round of the loop keeps the invariant. */
  lemma {:induction false} CodeScanStepInv(k: map<int, string>, ks: seq<int>, t: nat, s: CodeScan)
    requires CodeScanInv(k, ks, t, s) && t < |ks|
    ensures CodeScanInv(k, ks, t + 1, CodeScanStep(s, ks[t], Row(k, ks[t])))
  {
    JoinTest(k, true, ks, t, s.prevIdx, s.prevSig);
    if Joins(k, ks[t], true) {
      CodeScanJoinInv(k, ks, t, s);
    } else {
      CodeScanCloseInv(k, ks, t, s);
    }
  }

  /** A round that extends the open group keeps the invariant: a joining line has the group's signature. */
  lemma {:induction false} CodeScanJoinInv(k: map<int, string>, ks: seq<int>, t: nat, s: CodeScan)
    requires CodeScanInv(k, ks, t, s) && t < |ks| && ks[t] in k && Joins(k, ks[t], true)
    requires ks[t] == s.prevIdx + 1 && (LeadingWhiteSpace(k[ks[t]]) == s.prevSig || LeadingWhiteSpace(k[ks[t]]) == "\n")
    ensures CodeScanInv(k, ks, t + 1, CodeScanStep(s, ks[t], Row(k, ks[t])))
  {
    SignatureNeverNewline(k[ks[t]]);
    ExtendRun(k, true, ks, t, s.startIdx);
  }

  /** A round that stores the open group and opens a new one keeps the invariant. */
  lemma {:induction false} CodeScanCloseInv(k: map<int, string>, ks: seq<int>, t: nat, s: CodeScan)
    requires CodeScanInv(k, ks, t, s) && t < |ks| && ks[t] in k && !Joins(k, ks[t], true)
    requires !(ks[t] == s.prevIdx + 1 && (LeadingWhiteSpace(k[ks[t]]) == s.prevSig || LeadingWhiteSpace(k[ks[t]]) == "\n"))
    ensures CodeScanInv(k, ks, t + 1, CodeScanStep(s, ks[t], Row(k, ks[t])))
  {
    CloseCodeGroup(k, ks, t, s.startIdx, s.group);
    CodeGroupsUpToAll(k, ks, t);
  }

  /** Once the keys have run out, the final store completes the code groups. */
  lemma {:induction false} CodeScanEnd(k: map<int, string>, ks: seq<int>, s: CodeScan)
    requires CodeScanInv(k, ks, |ks|, s)
    ensures CodeScanFinish(s) == CodeGroupsOf(k)
  {
    CloseCodeGroup(k, ks, |ks|, s.startIdx, s.group);
    CodeGroupsUpToAll(k, ks, |ks|);
  }

  /** From any state that satisfies the invariant, the loop and the final store yield the code groups. */
  lemma {:induction false} CodeScanFromCorrect(k: map<int, string>, ks: seq<int>, t: nat, s: CodeScan)
    requires CodeScanInv(k, ks, t, s)
    ensures CodeScanFinish(CodeScanFrom(k, ks, t, s)) == CodeGroupsOf(k)
    decreases |ks| - t
  {
    if t == |ks| {
      CodeScanEnd(k, ks, s);
    } else {
      CodeScanStepInv(k, ks, t, s);
      CodeScanFromCorrect(k, ks, t + 1, CodeScanStep(s, ks[t], Row(k, ks[t])));
    }
  }

  /**
    Starting from an empty `codeGroups`, `_get_candidate_code_groups` leaves
    exactly the code groups: one per run of consecutive code lines with a
    common signature, keyed by its first line.
   */
  lemma {:induction false} CodeGroupsBuiltCorrect(k: map<int, string>)
    ensures CodeGroupsBuilt(k, map[]) == CodeGroupsOf(k)
  {
    var ks := SortedKeys(k.Keys);
    if |ks| == 0 {
      assert k.Keys == {};
    } else {
      CodeScanStart(k, ks);
      var first := Row(k, ks[0]);
      CodeScanFromCorrect(k, ks, 1, CodeScan(ks[0], ks[0], first, LeadingWhiteSpace(first), OpenCodeGroup(first), map[]));
    }
  }

  /** The body of the code builder's loop, on its local variables, for sorted key `i` and its line. */
  method CodeRound(startIdx0: int, prevIdx0: int, prevLine0: string, prevSig0: string, group0: CodeGroup,
                   groups0: map<int, CodeGroup>, i: int, currentLine: string)
    returns (startIdx: int, prevIdx: int, prevLine: string, prevSig: string, group: CodeGroup, groups: map<int, CodeGroup>)
    ensures CodeScan(startIdx, prevIdx, prevLine, prevSig, group, groups) ==
            CodeScanStep(CodeScan(startIdx0, prevIdx0, prevLine0, prevSig0, group0, groups0), i, currentLine)
  {
    startIdx, prevIdx, prevLine, prevSig, group, groups := startIdx0, prevIdx0, prevLine0, prevSig0, group0, groups0;
    var whiteSpaceSig := LeadingWhiteSpace(currentLine);
    if i == prevIdx + 1 && (whiteSpaceSig == prevSig || whiteSpaceSig == "\n") {
      group := group.(numRows := group.numRows + 1);
      var currentLineIdx := Find(currentLine, ';');
      if currentLineIdx > group.maxSemiColonIdx {
        group := group.(maxSemiColonIdx := currentLineIdx);
      }
      prevIdx := i;
      prevLine := currentLine;
      return;
    }
    groups := groups[startIdx := group];
    startIdx := i;
    group := CodeGroup(1, Find(currentLine, ';'));
    prevIdx := i;
    prevLine := currentLine;
    prevSig := whiteSpaceSig;
  }

  /** The loop of the code builder over the sorted keys after the first. */
  method CodeLoop(k: map<int, string>, indices: seq<int>, startIdx0: int, prevIdx0: int, prevLine0: string, prevSig0: string,
                 group0: CodeGroup, groups0: map<int, CodeGroup>)
    returns (startIdx: int, prevIdx: int, prevLine: string, prevSig: string, group: CodeGroup, groups: map<int, CodeGroup>)
    requires 1 <= |indices| && SortedKeysOf(k, indices)
    ensures CodeScan(startIdx, prevIdx, prevLine, prevSig, group, groups) ==
            CodeScanFrom(k, indices, 1, CodeScan(startIdx0, prevIdx0, prevLine0, prevSig0, group0, groups0))
  {
    startIdx, prevIdx, prevLine, prevSig, group, groups := startIdx0, prevIdx0, prevLine0, prevSig0, group0, groups0;
    ghost var start := CodeScan(startIdx, prevIdx, prevLine, prevSig, group, groups);
    var t := 1;
    while t < |indices|
      invariant 1 <= t <= |indices|
      invariant CodeScanFrom(k, indices, t, CodeScan(startIdx, prevIdx, prevLine, prevSig, group, groups)) ==
                CodeScanFrom(k, indices, 1, start)
    {
      var i := indices[t];
      assert i in k by {
        SortedKeyIn(k, indices, t);
      }
      var currentLine := k[i];
      startIdx, prevIdx, prevLine, prevSig, group, groups :=
        CodeRound(startIdx, prevIdx, prevLine, prevSig, group, groups, i, currentLine);
      t := t + 1;
    }
  }

  /**
    `_get_candidate_code_groups` on `codeLines` `k`, adding to `codeGroups`
    `groups0`: the sorted walk, then the store of the last group.
   */
  method BuildCodeGroups(k: map<int, string>, groups0: map<int, CodeGroup>) returns (groups: map<int, CodeGroup>)
    ensures groups == CodeGroupsBuilt(k, groups0)
    ensures groups0 == map[] ==> groups == CodeGroupsOf(k)
  {
    groups := groups0;
    var indices := SortedKeys(k.Keys);
    CodeGroupsBuiltUnfold(k, groups0, indices);
    if |indices| == 0 {
      return;
    }
    assert indices[0] in k by {
      SortedKeyIn(k, indices, 0);
    }
    var startIdx := indices[0];
    var prevIdx := indices[0];
    var prevLine := k[prevIdx];
    var group := CodeGroup(1, Find(prevLine, ';'));
    var prevSig := LeadingWhiteSpace(prevLine);
    assert Row(k, indices[0]) == prevLine && group == OpenCodeGroup(prevLine);
    startIdx, prevIdx, prevLine, prevSig, group, groups :=
      CodeLoop(k, indices, startIdx, prevIdx, prevLine, prevSig, group, groups);
    if startIdx !in groups {
      groups := groups[startIdx := group];
    }
  }
}
