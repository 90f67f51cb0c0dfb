/**
  String primitives that the formatter borrows from Python's `str`:
  `find`, `rstrip`, repetition `c * n`, and the length of a leading run of
  characters of one class (what a `^[...]*` regex prefix consumes).
  Characters are compared as code points; only the ASCII members of the
  whitespace and word classes are modelled.
 */
module Text {

  function Max(a: int, b: int): int { if a < b then b else a }

  /** Python's `str.find(c, start)`: the first index at or after `start` holding `c`, or -1. */
  function FindFrom(s: string, c: char, start: nat): (r: int)
    ensures r == -1 || start <= r < |s|
    ensures r == -1 <==> forall j | start <= j < |s| :: s[j] != c
    ensures r != -1 ==> s[r] == c && forall j | start <= j < r :: s[j] != c
    decreases |s| - start
  {
    if start >= |s| then -1
    else if s[start] == c then start
    else FindFrom(s, c, start + 1)
  }

  /** Python's `str.find(c)`: the first index of `c` in `s`, or -1. */
  function Find(s: string, c: char): (r: int)
    ensures -1 <= r < |s|
    ensures r == -1 <==> c !in s
    ensures r >= 0 ==> s[r] == c && forall j | 0 <= j < r :: s[j] != c
  {
    FindFrom(s, c, 0)
  }

  /** Where `c` is absent from `a`, searching `a + b` is searching `b`, shifted. */
  lemma {:induction false} FindAppend(a: string, b: string, c: char)
    requires c !in a
    ensures Find(a + b, c) == if Find(b, c) == -1 then -1 else |a| + Find(b, c)
  {
    if Find(b, c) == -1 {
      assert forall x | x in a + b :: x in a || x in b;
    } else {
      var r := |a| + Find(b, c);
      assert (a + b)[r] == c;
      assert (a + b)[..r] == a + b[..Find(b, c)];
    }
  }

  /** Concatenation is associative. */
  lemma AppendAssoc<T>(a: seq<T>, b: seq<T>, c: seq<T>)
    ensures (a + b) + c == a + (b + c)
  {
  }

  /** Python's `ch * n`: `n` copies of `ch`, and the empty string when `n <= 0`. */
  function Repeat(ch: char, n: int): (r: string)
    ensures |r| == Max(n, 0)
    ensures forall i | 0 <= i < |r| :: r[i] == ch
    decreases n
  {
    if n <= 0 then "" else [ch] + Repeat(ch, n - 1)
  }

  /** The ASCII characters that are both `\s` in a regex and stripped by `str.rstrip()`. */
  predicate IsSpace(c: char) {
    c == ' ' || ('\t' <= c <= '\r') || ((28 as char) <= c <= (31 as char))
  }

  /** The ASCII members of the regex class `\w`. */
  predicate IsWordChar(c: char) {
    ('a' <= c <= 'z') || ('A' <= c <= 'Z') || ('0' <= c <= '9') || c == '_'
  }

  /** The class `[ \t]` of the leading-whitespace regex. */
  predicate IsSpaceOrTab(c: char) { c == ' ' || c == '\t' }

  /** The end of the run of `\s` characters (IsSpace) that starts at `start`. */
  function SpaceEnd(s: string, start: nat): (r: nat)
    requires start <= |s|
    ensures start <= r <= |s|
    ensures forall i | start <= i < r :: IsSpace(s[i])
    ensures r < |s| ==> !IsSpace(s[r])
    decreases |s| - start
  {
    if start == |s| || !IsSpace(s[start]) then start else SpaceEnd(s, start + 1)
  }

  /** The ensures of SpaceEnd determine it. */
  lemma {:induction false} SpaceEndUnique(s: string, start: nat, n: nat)
    requires start <= n <= |s|
    requires forall i | start <= i < n :: IsSpace(s[i])
    requires n < |s| ==> !IsSpace(s[n])
    ensures SpaceEnd(s, start) == n
  {
  }

  /** The end of the run of spaces and tabs that starts at `start`. */
  function BlankEnd(s: string, start: nat): (r: nat)
    requires start <= |s|
    ensures start <= r <= |s|
    ensures forall i | start <= i < r :: IsSpaceOrTab(s[i])
    ensures r < |s| ==> !IsSpaceOrTab(s[r])
    decreases |s| - start
  {
    if start == |s| || !IsSpaceOrTab(s[start]) then start else BlankEnd(s, start + 1)
  }

  /** The ensures of BlankEnd determine it. */
  lemma {:induction false} BlankEndUnique(s: string, start: nat, n: nat)
    requires start <= n <= |s|
    requires forall i | start <= i < n :: IsSpaceOrTab(s[i])
    requires n < |s| ==> !IsSpaceOrTab(s[n])
    ensures BlankEnd(s, start) == n
  {
  }

  /** The end of the run of '-' that starts at `start`. */
  function DashEnd(s: string, start: nat): (r: nat)
    requires start <= |s|
    ensures start <= r <= |s|
    ensures forall i | start <= i < r :: s[i] == '-'
    ensures r < |s| ==> s[r] != '-'
    decreases |s| - start
  {
    if start == |s| || s[start] != '-' then start else DashEnd(s, start + 1)
  }

  /** The ensures of DashEnd determine it. */
  lemma {:induction false} DashEndUnique(s: string, start: nat, n: nat)
    requires start <= n <= |s|
    requires forall i | start <= i < n :: s[i] == '-'
    requires n < |s| ==> s[n] != '-'
    ensures DashEnd(s, start) == n
  {
  }

  /** Python's `str.rstrip()`: `s` without its trailing whitespace. */
  function RStrip(s: string): (r: string)
    ensures |r| <= |s| && r == s[..|r|]
    ensures |r| > 0 ==> !IsSpace(r[|r| - 1])
    ensures forall i | |r| <= i < |s| :: IsSpace(s[i])
  {
    if |s| == 0 || !IsSpace(s[|s| - 1]) then s else RStrip(s[..|s| - 1])
  }

  /** A line read from a text file without its trailing newline, if it has one. */
  function Body(line: string): (r: string)
    ensures r == line || (r + "\n" == line)
  {
    if |line| > 0 && line[|line| - 1] == '\n' then line[..|line| - 1] else line
  }

  /** A line as file iteration yields it: a '\n' can only be its last character. */
  predicate OnlyFinalNewline(line: string) {
    forall p | 0 <= p < |line| - 1 :: line[p] != '\n'
  }

  lemma {:induction false} BodyHasNoNewline(line: string)
    requires OnlyFinalNewline(line)
    ensures '\n' !in Body(line)
  {
  }
}
