/**
 * The operations of Python's `str` type that the pipeline relies on:
 * `find`, `in`, `strip`, `split('\n')`, `'\n'.join`, `replace` and
 * `split(sep, 1)`. Strings are sequences of characters; whitespace is the
 * part in the ASCII range of the whitespace that `str.strip()` and the
 * regex class `\s` share.
 */
module Text {

  /**
   * Python's whitespace in the ASCII range: space, \t, \n, \r, \v, \f and
   * the four separators U+001C to U+001F.
   */
  predicate IsSpace(c: char) {
    || c == ' ' || c == '\t' || c == '\n' || c == '\r' || c == '\U{0B}' || c == '\U{0C}'
    || ('\U{1C}' <= c <= '\U{1F}')
  }

  /** A character of the regex class `\w`, restricted to ASCII. */
  predicate IsWordChar(c: char) {
    ('a' <= c <= 'z') || ('A' <= c <= 'Z') || ('0' <= c <= '9') || c == '_'
  }

  /** `pat` occurs in `s` starting at index `i`. */
  predicate OccursAt(s: string, pat: string, i: int) {
    0 <= i && i + |pat| <= |s| && s[i..i + |pat|] == pat
  }

  /** One mismatching character rules out an occurrence. */
  lemma MismatchNotAt(s: string, pat: string, j: nat, k: nat)
    requires k < |pat| && j + k < |s| && s[j + k] != pat[k]
    ensures !OccursAt(s, pat, j)
  {
    if j + |pat| <= |s| {
      assert s[j..j + |pat|][k] == s[j + k];
    }
  }

  /** Python's `pat in s`. */
  predicate Contains(s: string, pat: string) {
    exists i | 0 <= i <= |s| :: OccursAt(s, pat, i)
  }

  /** Python's `s.find(pat, from)`: the first occurrence at or after `from`, or -1. */
  function FindFrom(s: string, pat: string, from: nat): (r: int)
    ensures r == -1 || (from <= r && OccursAt(s, pat, r))
    ensures forall j :: from <= j && (r == -1 || j < r) ==> !OccursAt(s, pat, j)
    decreases |s| - from
  {
    if from + |pat| > |s| then -1
    else if s[from..from + |pat|] == pat then from
    else FindFrom(s, pat, from + 1)
  }

  /** Python's `s.find(pat)`. */
  function Find(s: string, pat: string): (r: int)
    ensures r >= 0 <==> Contains(s, pat)
    ensures r >= 0 ==> OccursAt(s, pat, r)
    ensures r == -1 || r >= 0
    ensures forall j :: 0 <= j && (r == -1 || j < r) ==> !OccursAt(s, pat, j)
  {
    FindFrom(s, pat, 0)
  }

  /** An occurrence inside a slice of `t` is an occurrence in `t`. */
  lemma ContainsInSlice(t: string, a: nat, b: nat, pat: string)
    requires a <= b <= |t| && Contains(t[a..b], pat)
    ensures Contains(t, pat)
  {
    var i :| 0 <= i <= b - a && OccursAt(t[a..b], pat, i);
    assert a + i + |pat| <= b;
    forall k | 0 <= k < |pat| ensures t[a + i + k] == pat[k] {
      assert t[a..b][i..i + |pat|][k] == pat[k];
    }
    assert t[a + i..a + i + |pat|] == pat;
    assert OccursAt(t, pat, a + i);
  }

  /** A slice of a slice is a slice of the whole text. */
  lemma SliceOfSlice(s: string, a: nat, b: nat, i: nat, j: nat)
    requires a <= b <= |s| && i <= j <= b - a
    ensures s[a..b][i..j] == s[a + i..a + j]
  {
    forall k | 0 <= k < j - i ensures s[a..b][i..j][k] == s[a + i..a + j][k] {
      assert s[a..b][i..j][k] == s[a..b][i + k] == s[a + i + k];
    }
  }

  /** The middle part of a concatenation occurs where it was put. */
  lemma InfixOfConcat(a: string, b: string, c: string)
    ensures OccursAt(a + b + c, b, |a|)
  {
    var s := a + b + c;
    forall i | 0 <= i < |b| ensures s[|a| + i] == b[i] {}
    assert s[|a|..|a| + |b|] == b;
  }

  /** An occurrence of a longer text is an occurrence of each of its prefixes. */
  lemma ContainsPrefixOf(s: string, long: string, short: string)
    requires Contains(s, long) && |short| <= |long| && long[..|short|] == short
    ensures Contains(s, short)
  {
    var i :| 0 <= i <= |s| && OccursAt(s, long, i);
    assert s[i..i + |short|] == s[i..i + |long|][..|short|];
    assert OccursAt(s, short, i);
  }

  /** Python's `s.lstrip()`: leading whitespace dropped. */
  function TrimStart(s: string): (r: string)
    ensures |r| <= |s| && r == s[|s| - |r|..]
    ensures r == [] || !IsSpace(r[0])
    ensures forall k :: 0 <= k < |s| - |r| ==> IsSpace(s[k])
  {
    if |s| > 0 && IsSpace(s[0]) then TrimStart(s[1..]) else s
  }

  /** Python's `s.rstrip()`: trailing whitespace dropped. */
  function TrimEnd(s: string): (r: string)
    ensures |r| <= |s| && r == s[..|r|]
    ensures r == [] || !IsSpace(r[|r| - 1])
    ensures forall k :: |r| <= k < |s| ==> IsSpace(s[k])
  {
    if |s| > 0 && IsSpace(s[|s| - 1]) then TrimEnd(s[..|s| - 1]) else s
  }

  /**
   * Python's `s.strip()`: the result is a slice of `s` that neither starts
   * nor ends with whitespace, and only whitespace lies outside it.
   */
  function Strip(s: string): (r: string)
    ensures r == [] || (!IsSpace(r[0]) && !IsSpace(r[|r| - 1]))
    ensures exists a :: StrippedAt(s, r, a)
  {
    var t := TrimStart(s);
    var r := TrimEnd(t);
    assert StrippedAt(s, r, |s| - |t|) by {
      assert s[|s| - |t|..|s| - |t| + |r|] == t[..|r|];
    }
    r
  }

  /** `r` is `s` with whitespace `s[..a]` and whitespace `s[a + |r|..]` removed. */
  predicate StrippedAt(s: string, r: string, a: int) {
    && 0 <= a && a + |r| <= |s| && s[a..a + |r|] == r
    && (forall k :: 0 <= k < a ==> IsSpace(s[k]))
    && (forall k :: a + |r| <= k < |s| ==> IsSpace(s[k]))
  }

  /** Stripping never creates an occurrence. */
  lemma StripKeepsAbsence(s: string, pat: string)
    requires !Contains(s, pat)
    ensures !Contains(Strip(s), pat)
  {
    var r := Strip(s);
    var a :| StrippedAt(s, r, a);
    if Contains(r, pat) {
      assert s[a..a + |r|] == r;
      ContainsInSlice(s, a, a + |r|, pat);
    }
  }

  /** Stripping a text that starts with a non-space keeps its start. */
  lemma StripKeepsNonSpaceStart(s: string)
    requires |s| > 0 && !IsSpace(s[0])
    ensures Strip(s) == TrimEnd(s)
  {
  }

  /** Stripping text that neither starts nor ends with whitespace changes nothing. */
  lemma StripOfTrimmed(r: string)
    requires r == [] || (!IsSpace(r[0]) && !IsSpace(r[|r| - 1]))
    ensures Strip(r) == r
  {
  }

  /** Stripping drops two trailing newlines from stripped text. */
  lemma StripDropsNewlines(x: string)
    requires Strip(x) == x
    ensures Strip(x + "\n\n") == x
  {
    var t := x + "\n\n";
    TrimEndDropsSpace(x + "\n", '\n');
    assert x + "\n\n" == (x + "\n") + ['\n'];
    TrimEndDropsSpace(x, '\n');
    if x == [] {
      assert TrimStart(t) == TrimStart(t[1..]) == TrimStart(t[2..]) == [];
    } else {
      assert TrimStart(t) == t;
      assert TrimEnd(x) == x;
    }
  }

  /** A trailing whitespace character makes no difference to `rstrip`. */
  lemma TrimEndDropsSpace(x: string, c: char)
    requires IsSpace(c)
    ensures TrimEnd(x + [c]) == TrimEnd(x)
  {
    assert (x + [c])[..|x|] == x;
  }

  /** The index of the first `c` in `s`, or -1. */
  function IndexOf(s: string, c: char): (r: int)
    ensures -1 <= r < |s|
    ensures r >= 0 ==> s[r] == c && c !in s[..r]
    ensures r == -1 ==> c !in s
  {
    if |s| == 0 then -1
    else if s[0] == c then 0
    else
      var k := IndexOf(s[1..], c);
      if k < 0 then -1 else k + 1
  }

  /** Python's `s.split('\n')`: never empty, and no piece holds a newline. */
  function Lines(s: string): (r: seq<string>)
    ensures |r| >= 1
    ensures forall i :: 0 <= i < |r| ==> '\n' !in r[i]
    decreases |s|
  {
    var i := IndexOf(s, '\n');
    if i < 0 then [s] else [s[..i]] + Lines(s[i + 1..])
  }

  /** Python's `'\n'.join(ls)`. */
  function JoinLines(ls: seq<string>): string {
    if |ls| == 0 then ""
    else if |ls| == 1 then ls[0]
    else ls[0] + "\n" + JoinLines(ls[1..])
  }

  /** A text is its part before a newline, the newline and its part after. */
  lemma SplitAtNewline(s: string, i: nat)
    requires i < |s| && s[i] == '\n'
    ensures s[..i] + "\n" + s[i + 1..] == s
  {
    assert s == s[..i] + [s[i]] + s[i + 1..];
  }

  lemma JoinLinesCons(line: string, ls: seq<string>)
    requires |ls| >= 1
    ensures JoinLines([line] + ls) == line + "\n" + JoinLines(ls)
  {
    assert ([line] + ls)[1..] == ls;
  }

  /** Splitting on newlines and joining again gives back the text. */
  lemma {:induction false} JoinLinesOfLines(s: string)
    ensures JoinLines(Lines(s)) == s
    decreases |s|
  {
    var i := IndexOf(s, '\n');
    if i >= 0 {
      var rest := s[i + 1..];
      LinesAtNewline(s, i);
      JoinLinesCons(s[..i], Lines(rest));
      JoinLinesOfLines(rest);
      SplitAtNewline(s, i);
    } else {
      assert Lines(s) == [s];
    }
  }

  /** Splitting at the first newline: the piece before it, then the rest split. */
  lemma LinesAtNewline(s: string, i: nat)
    requires i == IndexOf(s, '\n')
    ensures Lines(s) == [s[..i]] + Lines(s[i + 1..])
  {
  }

  /** Joining newline-free pieces and splitting again gives back the pieces. */
  lemma {:induction false} LinesOfJoinLines(ls: seq<string>)
    requires |ls| >= 1
    requires forall i :: 0 <= i < |ls| ==> '\n' !in ls[i]
    ensures Lines(JoinLines(ls)) == ls
  {
    if |ls| > 1 {
      var s := JoinLines(ls);
      var rest := JoinLines(ls[1..]);
      assert s == ls[0] + "\n" + rest;
      assert s[..|ls[0]|] == ls[0];
      assert s[|ls[0]|] == '\n';
      assert IndexOf(s, '\n') == |ls[0]|;
      assert s[|ls[0]| + 1..] == rest;
      LinesOfJoinLines(ls[1..]);
    } else {
      assert IndexOf(ls[0], '\n') == -1;
    }
  }

  /** An occurrence of a newline-free pattern in `a + "\n" + b` lies in `a` or in `b`. */
  lemma ContainsAcrossNewline(a: string, b: string, pat: string)
    requires '\n' !in pat
    requires !Contains(a, pat) && !Contains(b, pat)
    ensures !Contains(a + "\n" + b, pat)
  {
    var s := a + "\n" + b;
    forall i | 0 <= i <= |s| ensures !OccursAt(s, pat, i) {
      if i + |pat| <= |s| {
        if i + |pat| <= |a| {
          assert s[i..i + |pat|] == a[i..i + |pat|];
          assert !OccursAt(a, pat, i);
        } else if i > |a| {
          assert s[i..i + |pat|] == b[i - |a| - 1..i - |a| - 1 + |pat|];
          assert !OccursAt(b, pat, i - |a| - 1);
        } else {
          assert s[i..i + |pat|][|a| - i] == '\n';
        }
      }
    }
  }

  /** Joining pieces none of which holds a newline-free pattern does not create one. */
  lemma {:induction false} JoinLinesKeepsAbsence(ls: seq<string>, pat: string)
    requires |pat| > 0 && '\n' !in pat
    requires forall i :: 0 <= i < |ls| ==> !Contains(ls[i], pat)
    ensures !Contains(JoinLines(ls), pat)
  {
    if |ls| == 0 {
      assert !OccursAt("", pat, 0);
    } else if |ls| > 1 {
      JoinLinesKeepsAbsence(ls[1..], pat);
      ContainsAcrossNewline(ls[0], JoinLines(ls[1..]), pat);
    }
  }

  /** No line of a text holds a pattern the text does not hold. */
  lemma {:induction false} LinesKeepAbsence(s: string, pat: string)
    requires !Contains(s, pat)
    ensures forall i :: 0 <= i < |Lines(s)| ==> !Contains(Lines(s)[i], pat)
    decreases |s|
  {
    var i := IndexOf(s, '\n');
    if i >= 0 {
      if Contains(s[..i], pat) {
        ContainsInSlice(s, 0, i, pat);
      }
      if Contains(s[i + 1..], pat) {
        assert s[i + 1..|s|] == s[i + 1..];
        ContainsInSlice(s, i + 1, |s|, pat);
      }
      LinesKeepAbsence(s[i + 1..], pat);
    }
  }

  /**
   * Python's `s.replace(pat, rep)`: one left-to-right pass that replaces
   * non-overlapping occurrences; text created by a replacement is not
   * looked at again.
   */
  function ReplaceAll(s: string, pat: string, rep: string): (r: string)
    requires |pat| > 0
    ensures |rep| <= |pat| ==> |r| <= |s|
    decreases |s|
  {
    if |s| < |pat| then s
    else if s[..|pat|] == pat then rep + ReplaceAll(s[|pat|..], pat, rep)
    else [s[0]] + ReplaceAll(s[1..], pat, rep)
  }

  /** Text without an occurrence of the pattern comes back unchanged. */
  lemma {:induction false} ReplaceAllWithout(s: string, pat: string, rep: string)
    requires |pat| > 0 && !Contains(s, pat)
    ensures ReplaceAll(s, pat, rep) == s
    decreases |s|
  {
    if |s| >= |pat| {
      assert !OccursAt(s, pat, 0);
      assert !Contains(s[1..], pat) by {
        if Contains(s[1..], pat) {
          assert s[1..|s|] == s[1..];
          ContainsInSlice(s, 1, |s|, pat);
        }
      }
      ReplaceAllWithout(s[1..], pat, rep);
      assert [s[0]] + s[1..] == s;
    }
  }

  /** A prefix that cannot start an occurrence passes through a replacement unchanged. */
  lemma {:induction false} ReplaceAllSkips(a: string, t: string, pat: string, rep: string)
    requires |pat| > 0 && pat[0] !in a
    ensures ReplaceAll(a + t, pat, rep) == a + ReplaceAll(t, pat, rep)
  {
    if |a| > 0 {
      var s := a + t;
      assert s[1..] == a[1..] + t;
      ReplaceAllSkips(a[1..], t, pat, rep);
      if |s| >= |pat| {
        var r := ReplaceAll(t, pat, rep);
        calc {
          ReplaceAll(s, pat, rep);
          { ReplaceAllSkipsOne(s, pat, rep); }
          [s[0]] + ReplaceAll(s[1..], pat, rep);
          [a[0]] + (a[1..] + r);
          ([a[0]] + a[1..]) + r;
          { assert [a[0]] + a[1..] == a; }
          a + r;
        }
      } else {
        assert ReplaceAll(t, pat, rep) == t;
      }
    } else {
      assert a + t == t;
    }
  }

  /** A first character that differs from the pattern's passes through a replacement. */
  lemma ReplaceAllSkipsOne(s: string, pat: string, rep: string)
    requires 0 < |pat| <= |s| && s[0] != pat[0]
    ensures ReplaceAll(s, pat, rep) == [s[0]] + ReplaceAll(s[1..], pat, rep)
  {
    assert s[..|pat|] != pat by { assert s[..|pat|][0] == s[0]; }
  }

  /**
   * The leftmost occurrence is replaced, the text before it is kept, and
   * the pass goes on after it. With `!Contains(s, pat) ==> r == s` this
   * determines `ReplaceAll` completely.
   */
  lemma {:induction false} ReplaceAllAt(s: string, pat: string, rep: string, i: nat)
    requires |pat| > 0 && OccursAt(s, pat, i)
    requires forall j :: 0 <= j < i ==> !OccursAt(s, pat, j)
    ensures ReplaceAll(s, pat, rep) == s[..i] + rep + ReplaceAll(s[i + |pat|..], pat, rep)
    decreases i
  {
    if i == 0 {
      ReplaceAllAtStart(s, pat, rep);
    } else {
      var t := s[1..];
      var tail := t[i - 1 + |pat|..];
      var rest := ReplaceAll(tail, pat, rep);
      ShiftBack(s, i, |pat|, rep, rest);
      assert tail == s[i + |pat|..];
      OccurrenceShifts(s, pat, i);
      ReplaceAllAt(t, pat, rep, i - 1);
      ReplaceAllNotAtStart(s, pat, rep);
      ConsRegroup(s[0], t[..i - 1], s[..i], rep, rest, ReplaceAll(t, pat, rep));
    }
  }

  /** An occurrence at the start is replaced, and the pass goes on after it. */
  lemma ReplaceAllAtStart(s: string, pat: string, rep: string)
    requires |pat| > 0 && OccursAt(s, pat, 0)
    ensures ReplaceAll(s, pat, rep) == s[..0] + rep + ReplaceAll(s[|pat|..], pat, rep)
  {
    assert s[..|pat|] == pat;
    assert s[..0] + rep == rep;
  }

  /** The first occurrence at `i` in `s` is the first occurrence at `i - 1` in `s[1..]`. */
  lemma OccurrenceShifts(s: string, pat: string, i: nat)
    requires 1 <= i && OccursAt(s, pat, i)
    requires forall j :: 0 <= j < i ==> !OccursAt(s, pat, j)
    ensures OccursAt(s[1..], pat, i - 1)
    ensures forall j :: 0 <= j < i - 1 ==> !OccursAt(s[1..], pat, j)
  {
    OccursShift(s, pat, i);
    forall j | 0 <= j < i - 1 ensures !OccursAt(s[1..], pat, j) {
      OccursShift(s, pat, j + 1);
    }
  }

  /** Putting the first character back in front of the text after it. */
  lemma ShiftBack(s: string, i: nat, n: nat, rep: string, rest: string)
    requires 1 <= i && i + n <= |s|
    ensures s[1..][i - 1 + n..] == s[i + n..]
    ensures [s[0]] + s[1..][..i - 1] == s[..i]
  {
  }

  /** Putting one character in front of a three-part text regroups with the first part. */
  lemma ConsRegroup(c: char, head: string, pre: string, rep: string, rest: string, whole: string)
    requires [c] + head == pre
    requires whole == head + rep + rest
    ensures [c] + whole == pre + rep + rest
  {
  }

  /** Occurrences in `s[1..]` are those in `s`, one place earlier. */
  lemma OccursShift(s: string, pat: string, j: nat)
    requires 1 <= j && |s| >= 1
    ensures OccursAt(s, pat, j) <==> OccursAt(s[1..], pat, j - 1)
  {
    if j + |pat| <= |s| {
      assert s[1..][j - 1..j - 1 + |pat|] == s[j..j + |pat|];
    }
  }

  /** Without an occurrence at the start, the first character passes through. */
  lemma ReplaceAllNotAtStart(s: string, pat: string, rep: string)
    requires 0 < |pat| <= |s| && !OccursAt(s, pat, 0)
    ensures ReplaceAll(s, pat, rep) == [s[0]] + ReplaceAll(s[1..], pat, rep)
  {
  }

  /** An occurrence at the very start is replaced, and the pass goes on after it. */
  lemma ReplaceAllLeading(t: string, pat: string, rep: string)
    requires |pat| > 0
    ensures ReplaceAll(pat + t, pat, rep) == rep + ReplaceAll(t, pat, rep)
  {
    var s := pat + t;
    assert s[..|pat|] == pat && s[|pat|..] == t;
  }

  /** Python's `s.split(sep, 1)[1]` when `sep` occurs: the text after its first occurrence. */
  function AfterFirst(s: string, sep: string): (r: string)
    requires Contains(s, sep)
    ensures |r| <= |s| && r == s[|s| - |r|..]
    ensures OccursAt(s, sep, |s| - |r| - |sep|)
    ensures forall j :: 0 <= j < |s| - |r| - |sep| ==> !OccursAt(s, sep, j)
  {
    s[Find(s, sep) + |sep|..]
  }
}
