/**
 * The operations on Python `str` that the scrapers use: `strip`, `lower`, `upper`,
 * `in`, `find`, `startswith`, `split(sep)[0]`, `split(sep, 1)[1]` and `splitlines`.
 * Strings are sequences of Unicode scalar values; case mapping covers ASCII letters.
 */
module Text {

  /** The characters for which Python's `str.isspace()` holds: what `strip()` removes. */
  predicate IsSpace(c: char) {
    || c == ' '
    || '\t' <= c <= '\r'
    || '\U{1C}' <= c <= '\U{1F}'
    || c == '\U{85}' || c == '\U{A0}' || c == '\U{1680}'
    || '\U{2000}' <= c <= '\U{200A}'
    || c == '\U{2028}' || c == '\U{2029}' || c == '\U{202F}' || c == '\U{205F}' || c == '\U{3000}'
  }

  /** The line boundaries recognised by Python's `str.splitlines()`. */
  predicate IsLineBreak(c: char) {
    || c == '\n' || c == '\r'
    || c == '\U{B}' || c == '\U{C}'
    || '\U{1C}' <= c <= '\U{1E}'
    || c == '\U{85}' || c == '\U{2028}' || c == '\U{2029}'
  }

  /** `s.lstrip()`: drops the leading white space and nothing else. */
  function LStrip(s: string): (r: string)
    ensures |r| <= |s|
  {
    if s != [] && IsSpace(s[0]) then LStrip(s[1..]) else s
  }

  /** What `lstrip()` returns is a suffix; the characters it drops are spaces, the next is not. */
  lemma {:induction false} LStripSpec(s: string)
    ensures LStrip(s) == s[|s| - |LStrip(s)|..]
    ensures forall i :: 0 <= i < |s| - |LStrip(s)| ==> IsSpace(s[i])
    ensures LStrip(s) == [] || !IsSpace(LStrip(s)[0])
    decreases |s|
  {
    if s != [] && IsSpace(s[0]) {
      LStripSpec(s[1..]);
      assert forall i :: 1 <= i < |s| ==> s[i] == s[1..][i - 1];
    }
  }

  /** What `lstrip()` returns is a suffix of its argument. */
  lemma {:induction false} LStripSuffix(s: string)
    ensures LStrip(s) == s[|s| - |LStrip(s)|..]
    decreases |s|
  {
    if s != [] && IsSpace(s[0]) {
      LStripSuffix(s[1..]);
      assert s[1..][|s| - 1 - |LStrip(s)|..] == s[|s| - |LStrip(s)|..];
    }
  }

  /** `s.rstrip()`: drops the trailing white space and nothing else. */
  function RStrip(s: string): (r: string)
    ensures |r| <= |s|
  {
    if s != [] && IsSpace(s[|s| - 1]) then RStrip(s[..|s| - 1]) else s
  }

  /** What `rstrip()` returns is a prefix; the characters it drops are spaces, the last kept is not. */
  lemma {:induction false} RStripSpec(s: string)
    ensures RStrip(s) == s[..|RStrip(s)|]
    ensures forall i :: |RStrip(s)| <= i < |s| ==> IsSpace(s[i])
    ensures RStrip(s) == [] || !IsSpace(RStrip(s)[|RStrip(s)| - 1])
    decreases |s|
  {
    if s != [] && IsSpace(s[|s| - 1]) {
      RStripSpec(s[..|s| - 1]);
      assert forall i :: 0 <= i < |s| - 1 ==> s[i] == s[..|s| - 1][i];
    }
  }

  /** What `rstrip()` returns is a prefix of its argument. */
  lemma {:induction false} RStripPrefix(s: string)
    ensures RStrip(s) == s[..|RStrip(s)|]
    decreases |s|
  {
    if s != [] && IsSpace(s[|s| - 1]) {
      RStripPrefix(s[..|s| - 1]);
      assert s[..|s| - 1][..|RStrip(s)|] == s[..|RStrip(s)|];
    }
  }

  /** `s.strip()`. */
  function Strip(s: string): string {
    RStrip(LStrip(s))
  }

  /** A string Python treats as blank: `s.strip()` is empty. */
  predicate IsBlank(s: string) {
    forall i :: 0 <= i < |s| ==> IsSpace(s[i])
  }

  function LowerChar(c: char): char {
    if 'A' <= c <= 'Z' then (c as int - 'A' as int + 'a' as int) as char else c
  }

  function UpperChar(c: char): char {
    if 'a' <= c <= 'z' then (c as int - 'a' as int + 'A' as int) as char else c
  }

  /** `s.lower()` on ASCII letters; it keeps the length, so indices into it index `s`. */
  function Lower(s: string): (r: string)
    ensures |r| == |s|
  {
    seq(|s|, i requires 0 <= i < |s| => LowerChar(s[i]))
  }

  /** `s.upper()` on ASCII letters. */
  function Upper(s: string): (r: string)
    ensures |r| == |s|
  {
    seq(|s|, i requires 0 <= i < |s| => UpperChar(s[i]))
  }

  predicate HasNoUpper(s: string) {
    forall i :: 0 <= i < |s| ==> !('A' <= s[i] <= 'Z')
  }

  /** `pat` occurs in `s` starting at index `i`. */
  predicate OccursAt(s: string, pat: string, i: nat) {
    i + |pat| <= |s| && s[i..i + |pat|] == pat
  }

  /** `s.find(pat, start)`: the least index from `start` on where `pat` occurs, or -1. */
  function FindFrom(s: string, pat: string, start: nat): (r: int)
    decreases |s| - start
    ensures r == -1 || (start <= r && r + |pat| <= |s|)
  {
    if start + |pat| > |s| then -1
    else if s[start..start + |pat|] == pat then start
    else FindFrom(s, pat, start + 1)
  }

  /** `find` answers an occurrence, and no occurrence lies between `start` and its answer. */
  lemma {:induction false} FindFromSpec(s: string, pat: string, start: nat)
    ensures FindFrom(s, pat, start) == -1 || OccursAt(s, pat, FindFrom(s, pat, start))
    ensures forall j :: start <= j && (FindFrom(s, pat, start) == -1 || j < FindFrom(s, pat, start)) ==>
      !OccursAt(s, pat, j)
    decreases |s| - start
  {
    if start + |pat| <= |s| && s[start..start + |pat|] != pat {
      FindFromSpec(s, pat, start + 1);
    }
  }

  /** `s.find(pat)`. */
  function Find(s: string, pat: string): int {
    FindFrom(s, pat, 0)
  }

  /** `pat in s`. */
  predicate Contains(s: string, pat: string) {
    Find(s, pat) >= 0
  }

  /** `s.startswith(prefix)`. */
  predicate StartsWith(s: string, prefix: string) {
    |prefix| <= |s| && s[..|prefix|] == prefix
  }

  /** An occurrence anywhere makes `in` true, and `find` answers no later than it. */
  lemma {:induction false} OccursContains(s: string, pat: string, i: nat)
    requires OccursAt(s, pat, i)
    ensures Contains(s, pat) && 0 <= Find(s, pat) <= i
  {
    FindFromSpec(s, pat, 0);
  }

  /** An occurrence inside a slice is an occurrence in the whole string. */
  lemma {:induction false} SliceOccurrences(s: string, a: nat, b: nat, pat: string)
    requires a <= b <= |s|
    ensures forall j: nat :: OccursAt(s[a..b], pat, j) ==> OccursAt(s, pat, a + j)
  {
    forall j: nat | OccursAt(s[a..b], pat, j)
      ensures OccursAt(s, pat, a + j)
    {
      var u, v := s[a..b][j..j + |pat|], s[a + j..a + j + |pat|];
      forall k | 0 <= k < |u|
        ensures u[k] == v[k]
      {
      }
      assert u == v;
    }
  }

  /** A string that does not contain `pat` has no slice that contains it. */
  lemma {:induction false} SliceKeepsAbsence(s: string, a: nat, b: nat, pat: string)
    requires a <= b <= |s|
    requires !Contains(s, pat)
    ensures !Contains(s[a..b], pat)
  {
    SliceOccurrences(s, a, b, pat);
    FindFromSpec(s, pat, 0);
    FindFromSpec(s[a..b], pat, 0);
    assert forall j: nat :: !OccursAt(s, pat, j);
    assert forall j: nat :: !OccursAt(s[a..b], pat, j);
  }

  /** `s.split(sep)[0]`: the part of `s` before the first `sep`, all of `s` when there is none. */
  function Before(s: string, sep: string): (r: string)
    requires sep != []
    ensures |r| <= |s| && r == s[..|r|]
    ensures !Contains(r, sep)
    ensures Contains(s, sep) ==> |r| == Find(s, sep) && OccursAt(s, sep, |r|)
    ensures !Contains(s, sep) ==> r == s
  {
    var k := Find(s, sep);
    FindFromSpec(s, sep, 0);
    if k >= 0 then
      PrefixBeforeFirst(s, sep);
      s[..k]
    else
      s
  }

  /** The part before the first occurrence holds no occurrence. */
  lemma {:induction false} PrefixBeforeFirst(s: string, sep: string)
    requires sep != [] && Contains(s, sep)
    ensures !Contains(s[..Find(s, sep)], sep)
  {
    var k := Find(s, sep);
    FindFromSpec(s, sep, 0);
    FindFromSpec(s[..k], sep, 0);
    SliceOccurrences(s, 0, k, sep);
    assert s[0..k] == s[..k];
    forall j: nat
      ensures !OccursAt(s[..k], sep, j)
    {
      if j < k {
        assert !OccursAt(s, sep, j);
      }
    }
  }

  /**
   * `s.split(sep, 1)[1]`: what follows the first `sep`. `s` is a head, `sep` and the
   * result, and `sep` occurs nowhere before the end of the head.
   */
  function After(s: string, sep: string): (r: string)
    requires Contains(s, sep)
    ensures |r| + |sep| <= |s|
    ensures s == s[..|s| - |r| - |sep|] + sep + r
    ensures forall j :: 0 <= j < |s| - |r| - |sep| ==> !OccursAt(s, sep, j)
  {
    var k := Find(s, sep);
    FindFromSpec(s, sep, 0);
    assert s[..k] + sep + s[k + |sep|..] == s by {
      assert s[k..k + |sep|] == sep;
      assert s[..k] + s[k..k + |sep|] + s[k + |sep|..] == s;
    }
    s[k + |sep|..]
  }

  /** `strip()` returns a slice of its argument. */
  lemma {:induction false} StripIsSlice(s: string)
    ensures |s| - |LStrip(s)| + |Strip(s)| <= |s|
    ensures Strip(s) == s[|s| - |LStrip(s)|..|s| - |LStrip(s)| + |Strip(s)|]
  {
    var l := LStrip(s);
    var k := |s| - |l|;
    var r := RStrip(l);
    LStripSuffix(s);
    RStripPrefix(l);
    assert l == s[k..] && r == l[..|r|];
    assert s[k..][..|r|] == s[k..k + |r|];
  }

  /**
   * `r` is `t` with blank text trimmed from both ends: a slice of `t` starting at `a`,
   * with only white space around it and none at its own ends.
   */
  predicate TrimmedAt(t: string, a: nat, r: string) {
    && a + |r| <= |t| && t[a..a + |r|] == r
    && (forall i :: 0 <= i < a ==> IsSpace(t[i]))
    && (forall i :: a + |r| <= i < |t| ==> IsSpace(t[i]))
    && (r == [] || (!IsSpace(r[0]) && !IsSpace(r[|r| - 1])))
  }

  predicate Trimmed(t: string, r: string) {
    exists a: nat :: a <= |t| && TrimmedAt(t, a, r)
  }

  /** `strip()` trims exactly the blank ends. */
  lemma {:induction false} StripTrimmed(s: string)
    ensures TrimmedAt(s, |s| - |LStrip(s)|, Strip(s))
    ensures Trimmed(s, Strip(s))
  {
    var l := LStrip(s);
    var a := |s| - |l|;
    var r := RStrip(l);
    LStripSpec(s);
    RStripSpec(l);
    StripIsSlice(s);
    assert forall i :: a + |r| <= i < |s| ==> s[i] == l[i - a];
    if r != [] {
      assert r[0] == l[0];
    }
    assert TrimmedAt(s, a, r);
  }

  /** There is one way to trim a string: `Trimmed` determines its result. */
  lemma {:induction false} TrimmedUnique(t: string, r1: string, r2: string)
    requires Trimmed(t, r1) && Trimmed(t, r2)
    ensures r1 == r2
  {
    var a1: nat :| a1 <= |t| && TrimmedAt(t, a1, r1);
    var a2: nat :| a2 <= |t| && TrimmedAt(t, a2, r2);
    if r1 != [] && r2 != [] {
      assert t[a1] == r1[0] && t[a2] == r2[0];
      assert a1 == a2;
      assert t[a1 + |r1| - 1] == r1[|r1| - 1] && t[a2 + |r2| - 1] == r2[|r2| - 1];
      assert |r1| == |r2|;
    }
  }

  /** Stripping cannot create an occurrence of a pattern. */
  lemma {:induction false} StripKeepsAbsence(s: string, pat: string)
    requires !Contains(s, pat)
    ensures !Contains(Strip(s), pat)
  {
    StripIsSlice(s);
    SliceKeepsAbsence(s, |s| - |LStrip(s)|, |s| - |LStrip(s)| + |Strip(s)|, pat);
  }

  /** A string that starts with `prefix` finds it at index 0. */
  lemma {:induction false} StartsWithFinds(s: string, prefix: string)
    requires StartsWith(s, prefix)
    ensures Contains(s, prefix) && Find(s, prefix) == 0
  {
    assert OccursAt(s, prefix, 0);
    FindFromSpec(s, prefix, 0);
  }

  /** `strip()` returns a substring of its argument. */
  lemma {:induction false} StripContained(s: string)
    ensures Contains(s, Strip(s))
  {
    StripIsSlice(s);
    OccursContains(s, Strip(s), |s| - |LStrip(s)|);
  }

  /** A substring of a substring is a substring. */
  lemma {:induction false} ContainsTrans(s: string, t: string, u: string)
    requires Contains(s, t) && Contains(t, u)
    ensures Contains(s, u)
  {
    var i, j := Find(s, t), Find(t, u);
    FindFromSpec(s, t, 0);
    FindFromSpec(t, u, 0);
    SliceOccurrences(s, i, i + |t|, u);
    assert s[i..i + |t|] == t;
    OccursContains(s, u, i + j);
  }

  /** `s.strip()` is empty exactly when `s` is blank. */
  lemma {:induction false} StripEmptyIffBlank(s: string)
    ensures Strip(s) == [] <==> IsBlank(s)
  {
    var l := LStrip(s);
    LStripSpec(s);
    RStripSpec(l);
    assert forall i :: |s| - |l| <= i < |s| ==> s[i] == l[i - (|s| - |l|)];
  }

  /** A string none of whose characters starts `pat` does not contain `pat`. */
  lemma {:induction false} MissingFirstChar(s: string, pat: string)
    requires pat != [] && pat[0] !in s
    ensures !Contains(s, pat)
  {
    FindFromSpec(s, pat, 0);
    forall j: nat | j + |pat| <= |s|
      ensures !OccursAt(s, pat, j)
    {
      assert s[j..j + |pat|][0] == s[j];
    }
  }

  /** Lower-casing leaves no upper-case letter; slicing and stripping keep that. */
  lemma {:induction false} LowerHasNoUpper(s: string)
    ensures HasNoUpper(Lower(s))
  {
  }

  lemma {:induction false} StripKeepsNoUpper(s: string)
    requires HasNoUpper(s)
    ensures HasNoUpper(Strip(s))
  {
    StripIsSlice(s);
  }

  /** Index of the first line break at or after `i`, or `|s|` when there is none. */
  function LineEnd(s: string, i: nat): (k: nat)
    requires i <= |s|
    decreases |s| - i
    ensures i <= k <= |s|
  {
    if i == |s| || IsLineBreak(s[i]) then i else LineEnd(s, i + 1)
  }

  /** The characters before the end are no boundary; the end, unless it is `|s|`, is one. */
  lemma {:induction false} LineEndSpec(s: string, i: nat)
    requires i <= |s|
    ensures forall j :: i <= j < LineEnd(s, i) ==> !IsLineBreak(s[j])
    ensures LineEnd(s, i) < |s| ==> IsLineBreak(s[LineEnd(s, i)])
    decreases |s| - i
  {
    if i < |s| && !IsLineBreak(s[i]) {
      LineEndSpec(s, i + 1);
    }
  }

  /** Where the next line starts after a boundary at `k`: "\r\n" is one boundary. */
  function NextLine(s: string, k: nat): (next: nat)
    requires k < |s|
    ensures k < next <= |s| && next <= k + 2
  {
    if s[k] == '\r' && k + 1 < |s| && s[k + 1] == '\n' then k + 2 else k + 1
  }

  /**
   * `s.splitlines()`: the pieces between line boundaries, "\r\n" counting as one
   * boundary; a final boundary does not start an empty last line.
   */
  function SplitLines(s: string): seq<string>
    decreases |s|
  {
    if s == [] then []
    else
      var k := LineEnd(s, 0);
      if k == |s| then [s] else [s[..k]] + SplitLines(s[NextLine(s, k)..])
  }

  function Concat(parts: seq<string>): string {
    if parts == [] then [] else parts[0] + Concat(parts[1..])
  }

  /** `s` with every line-boundary character removed. */
  function WithoutBreaks(s: string): string {
    if s == [] then []
    else (if IsLineBreak(s[0]) then [] else [s[0]]) + WithoutBreaks(s[1..])
  }

  lemma {:induction false} WithoutBreaksAppend(a: string, b: string)
    ensures WithoutBreaks(a + b) == WithoutBreaks(a) + WithoutBreaks(b)
  {
    if a != [] {
      assert (a + b)[0] == a[0];
      assert (a + b)[1..] == a[1..] + b;
      WithoutBreaksAppend(a[1..], b);
    } else {
      assert a + b == b;
    }
  }

  lemma {:induction false} WithoutBreaksNone(a: string)
    requires forall j :: 0 <= j < |a| ==> !IsLineBreak(a[j])
    ensures WithoutBreaks(a) == a
  {
    if a != [] {
      WithoutBreaksNone(a[1..]);
    }
  }

  lemma {:induction false} WithoutBreaksAll(a: string)
    requires forall j :: 0 <= j < |a| ==> IsLineBreak(a[j])
    ensures WithoutBreaks(a) == []
  {
    if a != [] {
      WithoutBreaksAll(a[1..]);
    }
  }

  /** Removing boundaries from a line, its boundary and the rest. */
  lemma {:induction false} WithoutBreaksAtBoundary(line: string, boundary: string, rest: string)
    requires forall j :: 0 <= j < |line| ==> !IsLineBreak(line[j])
    requires forall j :: 0 <= j < |boundary| ==> IsLineBreak(boundary[j])
    ensures WithoutBreaks(line + (boundary + rest)) == line + WithoutBreaks(rest)
  {
    WithoutBreaksAppend(line, boundary + rest);
    assert WithoutBreaks(boundary + rest) == WithoutBreaks(rest) by {
      WithoutBreaksAppend(boundary, rest);
      WithoutBreaksAll(boundary);
    }
    assert WithoutBreaks(line) == line by {
      WithoutBreaksNone(line);
    }
  }

  /** A string is its part before `k`, its part from `k` to `next`, and the rest. */
  lemma {:induction false} ThreeParts(s: string, k: nat, next: nat)
    requires k <= next <= |s|
    ensures s == s[..k] + (s[k..next] + s[next..])
  {
    assert s[k..next] + s[next..] == s[k..];
    assert s[..k] + s[k..] == s;
  }

  lemma {:induction false} FirstLineHasNoBreak(s: string)
    requires s != [] && LineEnd(s, 0) < |s|
    ensures forall j :: 0 <= j < LineEnd(s, 0) ==> !IsLineBreak(s[..LineEnd(s, 0)][j])
  {
    LineEndSpec(s, 0);
  }

  lemma {:induction false} BoundaryIsBreaks(s: string)
    requires s != [] && LineEnd(s, 0) < |s|
    ensures var k := LineEnd(s, 0);
      forall j :: 0 <= j < NextLine(s, k) - k ==> IsLineBreak(s[k..NextLine(s, k)][j])
  {
    LineEndSpec(s, 0);
  }

  lemma {:induction false} WithoutBreaksFirstLine(s: string)
    requires s != [] && LineEnd(s, 0) < |s|
    ensures WithoutBreaks(s) == s[..LineEnd(s, 0)] + WithoutBreaks(s[NextLine(s, LineEnd(s, 0))..])
  {
    var k := LineEnd(s, 0);
    var next := NextLine(s, k);
    ThreeParts(s, k, next);
    FirstLineHasNoBreak(s);
    BoundaryIsBreaks(s);
    WithoutBreaksAtBoundary(s[..k], s[k..next], s[next..]);
  }

  lemma {:induction false} ConcatCons(line: string, more: seq<string>)
    ensures Concat([line] + more) == line + Concat(more)
  {
    assert ([line] + more)[1..] == more;
  }

  /**
   * The lines hold no boundary character, and together they are exactly the
   * characters of `s` that are not boundaries, in order.
   */
  lemma {:induction false} SplitLinesSound(s: string)
    ensures forall l, j :: l in SplitLines(s) && 0 <= j < |l| ==> !IsLineBreak(l[j])
    ensures Concat(SplitLines(s)) == WithoutBreaks(s)
    decreases |s|
  {
    if s != [] {
      var k := LineEnd(s, 0);
      LineEndSpec(s, 0);
      if k == |s| {
        assert SplitLines(s) == [s];
        ConcatCons(s, []);
        WithoutBreaksNone(s);
      } else {
        var rest := s[NextLine(s, k)..];
        assert SplitLines(s) == [s[..k]] + SplitLines(rest);
        SplitLinesSound(rest);
        WithoutBreaksFirstLine(s);
        ConcatCons(s[..k], SplitLines(rest));
      }
    }
  }

  /**
   * Where line `k` of `s` starts: line 0 at index 0, each later one just past the
   * boundary that ends the one before; `|s|` once the lines run out.
   */
  function LineStart(s: string, k: nat): (a: nat)
    ensures a <= |s|
  {
    if k == 0 then 0 else StartAfter(s, LineStart(s, k - 1))
  }

  /** Where the line after the one starting at `a` starts; `|s|` when that line is the last. */
  function StartAfter(s: string, a: nat): (next: nat)
    requires a <= |s|
    ensures next <= |s|
  {
    var e := LineEnd(s, a);
    if e < |s| then NextLine(s, e) else |s|
  }

  /** Looking for a boundary in a suffix of `s` is looking for it in `s`, shifted. */
  lemma {:induction false} LineEndShift(s: string, n: nat, i: nat)
    requires n + i <= |s|
    ensures LineEnd(s[n..], i) + n == LineEnd(s, n + i)
    decreases |s| - n - i
  {
    if n + i < |s| && !IsLineBreak(s[n + i]) {
      assert s[n..][i] == s[n + i];
      LineEndShift(s, n, i + 1);
    }
  }

  /** A boundary in a suffix of `s` is followed by the same next line, shifted. */
  lemma {:induction false} NextLineShift(s: string, n: nat, e: nat)
    requires n + e < |s|
    ensures NextLine(s[n..], e) + n == NextLine(s, n + e)
  {
    assert s[n..][e] == s[n + e];
    if n + e + 1 < |s| {
      assert s[n..][e + 1] == s[n + e + 1];
    }
  }

  lemma {:induction false} StartAfterShift(s: string, n: nat, a: nat)
    requires n + a <= |s|
    ensures StartAfter(s[n..], a) + n == StartAfter(s, n + a)
  {
    var e := LineEnd(s[n..], a);
    LineEndShift(s, n, a);
    if e < |s| - n {
      NextLineShift(s, n, e);
    }
  }

  /** After the first line, the lines of `s` start where those of the rest start, shifted. */
  lemma {:induction false} LineStartShift(s: string, n: nat, k: nat)
    requires n == StartAfter(s, 0)
    ensures LineStart(s, k + 1) == n + LineStart(s[n..], k)
  {
    if k == 0 {
      assert LineStart(s, 1) == StartAfter(s, 0);
    } else {
      var rest := s[n..];
      var a := LineStart(rest, k - 1);
      var b := LineStart(s, k);
      LineStartShift(s, n, k - 1);
      assert b == n + a;
      StartAfterShift(s, n, a);
      assert LineStart(s, k + 1) == StartAfter(s, b);
      assert LineStart(rest, k) == StartAfter(rest, a);
    }
  }

  /** `line` is line `k` of `s`: the slice from where that line starts to the next boundary. */
  predicate IsLine(s: string, k: nat, line: string) {
    LineStart(s, k) < |s| && line == s[LineStart(s, k)..LineEnd(s, LineStart(s, k))]
  }

  /** A line of the rest after the first boundary is the same slice of `s`, shifted. */
  lemma {:induction false} LaterLine(s: string, n: nat, k: nat, line: string)
    requires s != [] && LineEnd(s, 0) < |s| && n == NextLine(s, LineEnd(s, 0))
    requires IsLine(s[n..], k, line)
    ensures IsLine(s, k + 1, line)
  {
    var rest := s[n..];
    var a := LineStart(rest, k);
    var e := LineEnd(rest, a);
    assert n == StartAfter(s, 0);
    LineStartShift(s, n, k);
    LineEndShift(s, n, a);
    SliceOfSuffix(s, n, a, e);
    var b := LineStart(s, k + 1);
    assert b == n + a && LineEnd(s, b) == n + e;
    assert line == s[b..n + e];
  }

  /** Every line of the rest after the first boundary is a line of `s`, one further on. */
  lemma {:induction false} LaterLines(s: string, n: nat, more: seq<string>)
    requires s != [] && LineEnd(s, 0) < |s| && n == NextLine(s, LineEnd(s, 0))
    requires forall j :: 0 <= j < |more| ==> IsLine(s[n..], j, more[j])
    ensures forall j :: 0 <= j < |more| ==> IsLine(s, j + 1, more[j])
  {
    forall j | 0 <= j < |more|
      ensures IsLine(s, j + 1, more[j])
    {
      LaterLine(s, n, j, more[j]);
    }
  }

  /** A first line followed by lines each one further on are the lines of `s` from 0. */
  lemma {:induction false} LinesCons(s: string, first: string, more: seq<string>)
    requires IsLine(s, 0, first)
    requires forall j :: 0 <= j < |more| ==> IsLine(s, j + 1, more[j])
    ensures forall k :: 0 <= k < |[first] + more| ==> IsLine(s, k, ([first] + more)[k])
  {
    forall k | 0 <= k < |[first] + more|
      ensures IsLine(s, k, ([first] + more)[k])
    {
      if k > 0 {
        assert ([first] + more)[k] == more[k - 1];
      }
    }
  }

  lemma {:induction false} SliceOfSuffix(s: string, n: nat, i: nat, j: nat)
    requires n <= |s| && i <= j <= |s| - n
    ensures s[n..][i..j] == s[n + i..n + j]
  {
  }

  /** The lines of `s` end where `s` does, given that those of the rest do. */
  lemma {:induction false} SplitLinesEnd(s: string)
    requires s != [] && LineEnd(s, 0) < |s|
    requires var rest := s[NextLine(s, LineEnd(s, 0))..]; LineStart(rest, |SplitLines(rest)|) == |rest|
    ensures LineStart(s, |SplitLines(s)|) == |s|
  {
    var n := NextLine(s, LineEnd(s, 0));
    var m := |SplitLines(s[n..])|;
    assert |SplitLines(s)| == m + 1;
    assert n == StartAfter(s, 0);
    LineStartShift(s, n, m);
  }

  /**
   * `splitlines()` cuts `s` at its boundaries and nowhere else: line `k` is the slice
   * from where it starts to the next boundary, and the lines end where `s` does.
   */
  lemma {:induction false} SplitLinesSlices(s: string)
    ensures LineStart(s, |SplitLines(s)|) == |s|
    ensures forall k :: 0 <= k < |SplitLines(s)| ==> IsLine(s, k, SplitLines(s)[k])
    decreases |s|
  {
    if s != [] {
      var k0 := LineEnd(s, 0);
      if k0 < |s| {
        var n := NextLine(s, k0);
        var lines, more := SplitLines(s), SplitLines(s[n..]);
        assert lines == [s[..k0]] + more;
        assert LineStart(s, |lines|) == |s| && forall j :: 0 <= j < |more| ==> IsLine(s, j + 1, more[j]) by {
          SplitLinesSlices(s[n..]);
          SplitLinesEnd(s);
          LaterLines(s, n, more);
        }
        assert IsLine(s, 0, s[..k0]) by {
          assert s[..k0] == s[0..k0];
        }
        LinesCons(s, s[..k0], more);
      }
    }
  }
}
