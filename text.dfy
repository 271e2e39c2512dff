/** Python string and list primitives the memory scripts rely on, over Dafny strings
    (sequences of Unicode scalar values, as Python's str is a sequence of code points). */
module Text {

  datatype Option<T> = None | Some(value: T) {
    function GetOr(default: T): T {
      match this
      case Some(v) => v
      case None => default
    }
  }

  function Min(a: int, b: int): int { if a <= b then a else b }

  function Max(a: int, b: int): int { if a <= b then b else a }

  /** Python's str.isspace(), which is also what `\s` matches in a str pattern. */
  predicate IsSpace(c: char) {
    var n := c as int;
    (9 <= n <= 13) || (28 <= n <= 32) || n == 0x85 || n == 0xA0 || n == 0x1680 ||
    (0x2000 <= n <= 0x200A) || n == 0x2028 || n == 0x2029 || n == 0x202F || n == 0x205F || n == 0x3000
  }

  predicate IsAsciiLetter(c: char) { ('a' <= c <= 'z') || ('A' <= c <= 'Z') }

  predicate IsAsciiDigit(c: char) { '0' <= c <= '9' }

  /** A word character for `\b`, restricted to ASCII. */
  predicate IsWordChar(c: char) { IsAsciiLetter(c) || IsAsciiDigit(c) || c == '_' }

  function LowerChar(c: char): char {
    if 'A' <= c <= 'Z' then (c as int + 32) as char else c
  }

  function UpperChar(c: char): char {
    if 'a' <= c <= 'z' then (c as int - 32) as char else c
  }

  /** str.lower() on ASCII letters; every other character is kept. */
  function Lower(s: string): (r: string)
    ensures |r| == |s|
    ensures forall i :: 0 <= i < |s| ==> r[i] == LowerChar(s[i])
  {
    seq(|s|, i requires 0 <= i < |s| => LowerChar(s[i]))
  }

  /** str.upper() on ASCII letters; every other character is kept. */
  function Upper(s: string): (r: string)
    ensures |r| == |s|
    ensures forall i :: 0 <= i < |s| ==> r[i] == UpperChar(s[i])
  {
    seq(|s|, i requires 0 <= i < |s| => UpperChar(s[i]))
  }

  predicate StartsWith(s: string, prefix: string) {
    |prefix| <= |s| && s[..|prefix|] == prefix
  }

  predicate EndsWith(s: string, suffix: string) {
    |suffix| <= |s| && s[|s| - |suffix|..] == suffix
  }

  predicate OccursAt(s: string, pat: string, i: nat) {
    i + |pat| <= |s| && s[i..i + |pat|] == pat
  }

  /** Python's `pat in s`. */
  predicate Contains(s: string, pat: string) {
    exists i: nat :: i <= |s| && OccursAt(s, pat, i)
  }

  predicate IsSuffix<T(==)>(t: seq<T>, s: seq<T>) {
    |t| <= |s| && s[|s| - |t|..] == t
  }

  /** The k-th element of a suffix is the element that many places from the end. */
  lemma SuffixAt<T>(t: seq<T>, s: seq<T>)
    requires IsSuffix(t, s)
    ensures forall k :: 0 <= k < |t| ==> t[k] == s[|s| - |t| + k]
  {
    forall k | 0 <= k < |t| ensures t[k] == s[|s| - |t| + k] {
      assert t[k] == s[|s| - |t|..][k];
    }
  }

  /** Python's `s[start:]` for any integer `start`: a negative start counts from the end,
      and both kinds are clamped to the bounds of `s`. */
  function PySliceFrom<T(==)>(s: seq<T>, start: int): (r: seq<T>)
    ensures IsSuffix(r, s)
    ensures start >= 0 ==> |r| == |s| - Min(start, |s|)
    ensures start < 0 ==> |r| == Min(-start, |s|)
  {
    if start >= 0 then s[Min(start, |s|)..] else s[Max(0, |s| + start)..]
  }

  /** Python's `s[:n]` for n >= 0. */
  function PyPrefix<T(==)>(s: seq<T>, n: nat): (r: seq<T>)
    ensures |r| == Min(n, |s|)
    ensures r == s[..|r|]
    ensures |s| <= n ==> r == s
  {
    s[..Min(n, |s|)]
  }

  /** The step of TrimStart: a leading space followed by the trimmed-off spaces of the rest. */
  lemma TrimmedSpaces(s: string, r: string)
    requires |s| > 0 && IsSpace(s[0]) && IsSuffix(r, s[1..])
    requires forall k :: 0 <= k < |s| - 1 - |r| ==> IsSpace(s[1..][k])
    ensures IsSuffix(r, s)
    ensures forall k :: 0 <= k < |s| - |r| ==> IsSpace(s[k])
  {
    assert s[1..][|s| - 1 - |r|..] == s[|s| - |r|..];
    forall k | 0 < k < |s| - |r| ensures IsSpace(s[k]) {
      assert s[k] == s[1..][k - 1];
    }
  }

  /** str.lstrip() with no argument. */
  function TrimStart(s: string): (r: string)
    ensures IsSuffix(r, s)
    ensures forall k :: 0 <= k < |s| - |r| ==> IsSpace(s[k])
    ensures r == [] || !IsSpace(r[0])
  {
    if |s| > 0 && IsSpace(s[0]) then
      var r := TrimStart(s[1..]);
      TrimmedSpaces(s, r);
      r
    else s
  }

  /** str.rstrip() with no argument. */
  function TrimEnd(s: string): (r: string)
    ensures |r| <= |s| && r == s[..|r|]
    ensures forall k :: |r| <= k < |s| ==> IsSpace(s[k])
    ensures r == [] || !IsSpace(r[|r| - 1])
  {
    if |s| > 0 && IsSpace(s[|s| - 1]) then TrimEnd(s[..|s| - 1]) else s
  }

  /** str.strip() with no argument. */
  function Strip(s: string): (r: string)
    ensures IsStripped(r) && |r| <= |s|
  {
    var t := TrimStart(s);
    var r := TrimEnd(t);
    assert r != [] ==> r[0] == t[0];
    r
  }

  predicate IsStripped(s: string) {
    s == [] || (!IsSpace(s[0]) && !IsSpace(s[|s| - 1]))
  }

  /** Strip removes exactly the leading and trailing white space: the result is the
      slice s[i..j] where everything before i and from j on is white space, and the
      result neither starts nor ends with white space. */
  lemma StripSpec(s: string) returns (i: nat)
    ensures var r := Strip(s);
      IsStripped(r) && i + |r| <= |s| && r == s[i..i + |r|] &&
      (forall k :: 0 <= k < i ==> IsSpace(s[k])) &&
      (forall k :: i + |r| <= k < |s| ==> IsSpace(s[k]))
  {
    var t := TrimStart(s);
    var r := TrimEnd(t);
    i := |s| - |t|;
    assert Strip(s) == r;
    SliceOfSuffix(s, t, r, i);
  }

  /** A prefix r of the suffix t that starts at i, with only white space after r in t. */
  lemma SliceOfSuffix(s: string, t: string, r: string, i: nat)
    requires i + |t| == |s| && t == s[i..] && |r| <= |t| && r == t[..|r|]
    requires forall k :: |r| <= k < |t| ==> IsSpace(t[k])
    ensures r == s[i..i + |r|]
    ensures forall k :: i + |r| <= k < |s| ==> IsSpace(s[k])
  {
    forall k | i + |r| <= k < |s| ensures IsSpace(s[k]) {
      assert s[k] == t[k - i];
    }
  }

  lemma StripIdempotent(s: string)
    ensures Strip(Strip(s)) == Strip(s)
  {
    var _ := StripSpec(s);
    StripOfStripped(Strip(s));
  }

  /** A string that neither starts nor ends with white space is its own strip. */
  lemma StripOfStripped(s: string)
    requires IsStripped(s)
    ensures Strip(s) == s
  {
    assert TrimStart(s) == s;
  }

  /** Every character of Strip(s) is a character of s. */
  lemma StripChars(s: string, P: char -> bool)
    requires forall k :: 0 <= k < |s| ==> P(s[k])
    ensures forall k :: 0 <= k < |Strip(s)| ==> P(Strip(s)[k])
  {
    var t := TrimStart(s);
    var r := TrimEnd(t);
    assert Strip(s) == r;
    assert t == s[|s| - |t|..] && r == t[..|r|];
    forall k | 0 <= k < |r| ensures P(r[k]) {
      assert r[k] == s[|s| - |t| + k];
    }
  }

  /** str.join: `sep.join(parts)`. */
  function Join(parts: seq<string>, sep: string): (r: string)
    ensures parts == [] ==> r == ""
    ensures |parts| == 1 ==> r == parts[0]
  {
    if |parts| == 0 then ""
    else if |parts| == 1 then parts[0]
    else parts[0] + sep + Join(parts[1..], sep)
  }

  /** Two or three parts, joined, written out in full. */
  lemma JoinShort(parts: seq<string>, sep: string)
    ensures |parts| == 2 ==> Join(parts, sep) == parts[0] + sep + parts[1]
    ensures |parts| == 3 ==> Join(parts, sep) == parts[0] + sep + parts[1] + sep + parts[2]
  {
    if |parts| == 2 {
      assert parts[1..] == [parts[1]];
    } else if |parts| == 3 {
      assert parts[1..][1..] == [parts[2]];
      assert Join(parts, sep) == parts[0] + sep + (parts[1] + sep + parts[2]);
    }
  }

  lemma {:induction false} JoinSnoc(parts: seq<string>, p: string, sep: string)
    requires parts != []
    ensures Join(parts + [p], sep) == Join(parts, sep) + sep + p
  {
    if |parts| == 1 {
      assert parts + [p] == [parts[0], p];
    } else {
      assert (parts + [p])[1..] == parts[1..] + [p];
      JoinSnoc(parts[1..], p, sep);
    }
  }

  /** A join of several parts is at least as long as the separators it places. */
  lemma {:induction false} JoinLength(parts: seq<string>, sep: string)
    requires parts != []
    ensures |Join(parts, sep)| >= (|parts| - 1) * |sep| + |parts[0]|
  {
    if |parts| > 1 {
      JoinLength(parts[1..], sep);
    }
  }

  /** A join of nonempty parts starts with the first part. */
  lemma JoinStartsWithFirst(parts: seq<string>, sep: string)
    requires parts != []
    ensures StartsWith(Join(parts, sep), parts[0])
  {
    if |parts| > 1 {
      assert Join(parts, sep) == parts[0] + (sep + Join(parts[1..], sep));
    }
  }

  /** A join of two or more parts opens with the first part and a separator, and closes
      with a separator and the last part. */
  lemma {:induction false} JoinEnds(parts: seq<string>, sep: string)
    requires |parts| >= 2
    ensures StartsWith(Join(parts, sep), parts[0] + sep)
    ensures EndsWith(Join(parts, sep), sep + parts[|parts| - 1])
  {
    var rest := Join(parts[1..], sep);
    assert Join(parts, sep) == (parts[0] + sep) + rest;
    StartsWithConcat(parts[0] + sep, rest);
    if |parts| == 2 {
      assert Join(parts, sep) == parts[0] + (sep + parts[1]);
      EndsWithConcat(parts[0], sep + parts[1]);
    } else {
      JoinEnds(parts[1..], sep);
      EndsWithAfter(parts[0] + sep, rest, sep + parts[|parts| - 1]);
    }
  }

  lemma EndsWithAfter(a: string, t: string, b: string)
    requires EndsWith(t, b)
    ensures EndsWith(a + t, b)
  {
    assert (a + t)[|a + t| - |b|..] == t[|t| - |b|..];
  }

  /** Three pieces in a row: the text opens with the first, and with the first two, and
      closes with the third. */
  lemma ConcatThree(a: string, b: string, c: string)
    ensures StartsWith(a + b + c, a) && StartsWith(a + b + c, a + b) && EndsWith(a + b + c, c)
  {
    assert (a + b + c)[..|a|] == a;
    assert (a + b + c)[..|a + b|] == a + b;
    assert (a + b + c)[|a + b|..] == c;
  }

  /** A string that starts with a + b starts with a. */
  lemma StartsStill(r: string, a: string, b: string)
    requires StartsWith(r, a + b)
    ensures StartsWith(r, a)
  {
    assert r[..|a|] == (a + b)[..|a|];
  }

  lemma StartsWithConcat(a: string, b: string)
    ensures StartsWith(a + b, a)
  {
    assert (a + b)[..|a|] == a;
  }

  lemma EndsWithConcat(a: string, b: string)
    ensures EndsWith(a + b, b)
  {
    assert (a + b)[|a|..] == b;
  }

  /** A shared head does not change whether one string starts with another. */
  lemma CommonPrefix(a: string, t: string, b: string)
    ensures StartsWith(a + t, a + b) <==> StartsWith(t, b)
  {
    if StartsWith(a + t, a + b) {
      assert t[..|b|] == (a + t)[..|a + b|][|a|..];
    }
    if StartsWith(t, b) {
      assert (a + t)[..|a + b|] == a + t[..|b|];
    }
  }

  /** A join with a nonempty separator is empty exactly when there is nothing to join or
      only one empty part. */
  lemma JoinEmpty(parts: seq<string>, sep: string)
    requires sep != []
    ensures Join(parts, sep) == "" <==> parts == [] || (|parts| == 1 && parts[0] == "")
  {
    if |parts| > 1 {
      JoinLength(parts, sep);
    }
  }

  /** Two prefixes that differ at some position cannot both start the same string. */
  lemma PrefixesExclude(s: string, a: string, b: string, k: nat)
    requires k < |a| && k < |b| && a[k] != b[k]
    requires StartsWith(s, a)
    ensures !StartsWith(s, b)
  {
    assert s[k] == s[..|a|][k];
  }

  /** str.replace(pat, "") for a nonempty pattern: occurrences are removed left to right,
      without overlap. */
  function RemoveAll(s: string, pat: string): (r: string)
    requires pat != []
    ensures |r| <= |s|
    decreases |s|
  {
    if |s| < |pat| then s
    else if s[..|pat|] == pat then RemoveAll(s[|pat|..], pat)
    else [s[0]] + RemoveAll(s[1..], pat)
  }

  /** Text in which the pattern does not occur is left as it is. */
  lemma {:induction false} RemoveAllAbsent(s: string, pat: string)
    requires pat != [] && !Contains(s, pat)
    ensures RemoveAll(s, pat) == s
    decreases |s|
  {
    if |s| >= |pat| {
      assert !OccursAt(s, pat, 0);
      assert !Contains(s[1..], pat) by {
        if i: nat :| i <= |s[1..]| && OccursAt(s[1..], pat, i) {
          assert s[i + 1..i + 1 + |pat|] == s[1..][i..i + |pat|];
          assert OccursAt(s, pat, i + 1);
        }
      }
      RemoveAllAbsent(s[1..], pat);
      assert s == [s[0]] + s[1..];
    }
  }

  /** A leading occurrence of the pattern is removed and the rest is processed as usual. */
  lemma RemoveAllLeading(pat: string, x: string)
    requires pat != []
    ensures RemoveAll(pat + x, pat) == RemoveAll(x, pat)
  {
    assert (pat + x)[..|pat|] == pat;
    assert (pat + x)[|pat|..] == x;
  }

  /** Text without the pattern has none after its first character either. */
  lemma NotContainedTail(t: string, pat: string)
    requires t != [] && !Contains(t, pat)
    ensures !Contains(t[1..], pat)
  {
    if i: nat :| i <= |t[1..]| && OccursAt(t[1..], pat, i) {
      assert t[i + 1..i + 1 + |pat|] == t[1..][i..i + |pat|];
      assert OccursAt(t, pat, i + 1);
    }
  }

  /** An occurrence after text x where no occurrence begins (none lies in x or straddles
      the join) is the first one: x is kept, the occurrence removed, and the rest processed
      as usual. With RemoveAllLeading and RemoveAllAbsent this gives the value of every
      removal, one occurrence at a time. */
  lemma {:induction false} RemoveAllSplit(x: string, pat: string, y: string)
    requires pat != [] && !Contains(x + pat[..|pat| - 1], pat)
    ensures RemoveAll(x + pat + y, pat) == x + RemoveAll(y, pat)
    decreases |x|
  {
    if x == [] {
      assert x + pat + y == pat + y;
      RemoveAllLeading(pat, y);
    } else {
      NoStartAfterFirst(x, pat);
      RemoveAllSplit(x[1..], pat, y);
      RemoveAllKeepsFirst(x, pat, y);
      assert [x[0]] + (x[1..] + RemoveAll(y, pat)) == x + RemoveAll(y, pat);
    }
  }

  /** No occurrence begins at x's first character, nor in what follows it. */
  lemma NoStartAfterFirst(x: string, pat: string)
    requires pat != [] && x != [] && !Contains(x + pat[..|pat| - 1], pat)
    ensures !OccursAt(x + pat[..|pat| - 1], pat, 0)
    ensures !Contains(x[1..] + pat[..|pat| - 1], pat)
  {
    var t := x + pat[..|pat| - 1];
    assert !OccursAt(t, pat, 0);
    NotContainedTail(t, pat);
    assert t[1..] == x[1..] + pat[..|pat| - 1];
  }

  /** Where x + pat + y does not open with the pattern, its first character is kept. */
  lemma RemoveAllKeepsFirst(x: string, pat: string, y: string)
    requires pat != [] && x != [] && !OccursAt(x + pat[..|pat| - 1], pat, 0)
    ensures RemoveAll(x + pat + y, pat) == [x[0]] + RemoveAll(x[1..] + pat + y, pat)
  {
    var s := x + pat + y;
    assert s[..|pat|] == (x + pat[..|pat| - 1])[..|pat|];
    assert s[1..] == x[1..] + pat + y;
    RemoveAllUnmatched(s, pat);
  }

  lemma RemoveAllUnmatched(s: string, pat: string)
    requires pat != [] && |s| >= |pat| && s[..|pat|] != pat
    ensures RemoveAll(s, pat) == [s[0]] + RemoveAll(s[1..], pat)
  {
  }

  /** str.replace("\n", " "). */
  function NewlinesToSpaces(s: string): (r: string)
    ensures |r| == |s|
    ensures forall i :: 0 <= i < |s| ==> (s[i] == '\n' ==> r[i] == ' ') && (s[i] != '\n' ==> r[i] == s[i])
    ensures forall i :: 0 <= i < |r| ==> r[i] != '\n'
  {
    seq(|s|, i requires 0 <= i < |s| => if s[i] == '\n' then ' ' else s[i])
  }

  /** The line boundaries of str.splitlines(). */
  predicate IsLineBreak(c: char) {
    var n := c as int;
    (10 <= n <= 13) || (28 <= n <= 30) || n == 0x85 || n == 0x2028 || n == 0x2029
  }

  function FirstBreak(s: string, i: nat): (j: nat)
    requires i <= |s|
    ensures i <= j <= |s|
    ensures j < |s| ==> IsLineBreak(s[j])
    decreases |s| - i
  {
    if i == |s| || IsLineBreak(s[i]) then i else FirstBreak(s, i + 1)
  }

  /** No line break comes before the first one. */
  lemma {:induction false} FirstBreakIsFirst(s: string, i: nat)
    requires i <= |s|
    ensures forall k :: i <= k < FirstBreak(s, i) ==> !IsLineBreak(s[k])
    decreases |s| - i
  {
    if i < |s| && !IsLineBreak(s[i]) {
      FirstBreakIsFirst(s, i + 1);
    }
  }

  /** str.splitlines(): lines without their terminators; "\r\n" is one terminator and a
      final terminator does not start another line. */
  function SplitLines(s: string): (lines: seq<string>)
    ensures s == [] <==> lines == []
  {
    LinesFrom(s, 0)
  }

  /** The lines of the text from position i on. */
  function LinesFrom(s: string, i: nat): (lines: seq<string>)
    requires i <= |s|
    ensures i == |s| <==> lines == []
    decreases |s| - i
  {
    if i == |s| then []
    else
      var j := FirstBreak(s, i);
      if j == |s| then [s[i..]]
      else [s[i..j]] + LinesFrom(s, j + BreakLength(s, j))
  }

  /** The length of the line terminator at j: 2 for "\r\n", 1 for any other break. */
  function BreakLength(s: string, j: nat): (n: nat)
    requires j < |s|
    ensures 1 <= n <= |s| - j
  {
    if s[j] == '\r' && j + 1 < |s| && s[j + 1] == '\n' then 2 else 1
  }

  /** No line holds a line break. */
  lemma SplitLinesHaveNoBreaks(s: string)
    ensures var lines := SplitLines(s);
      forall i, k :: 0 <= i < |lines| && 0 <= k < |lines[i]| ==> !IsLineBreak(lines[i][k])
  {
    LinesFromHaveNoBreaks(s, 0);
    assert SplitLines(s) == LinesFrom(s, 0);
  }

  lemma {:induction false} LinesFromHaveNoBreaks(s: string, i: nat)
    requires i <= |s|
    ensures var lines := LinesFrom(s, i);
      forall a, k :: 0 <= a < |lines| && 0 <= k < |lines[a]| ==> !IsLineBreak(lines[a][k])
    decreases |s| - i
  {
    if i < |s| {
      var j := FirstBreak(s, i);
      FirstBreakIsFirst(s, i);
      forall k | 0 <= k < j - i ensures !IsLineBreak(s[i..j][k]) {
        assert s[i..j][k] == s[i + k];
      }
      if j < |s| {
        LinesFromHaveNoBreaks(s, j + BreakLength(s, j));
        LinesFromStep(s, i);
      } else {
        assert s[i..] == s[i..j];
      }
    }
  }

  /** The first line from i on, and the lines after its terminator. */
  lemma LinesFromStep(s: string, i: nat)
    requires i < |s| && FirstBreak(s, i) < |s|
    ensures var j := FirstBreak(s, i);
      LinesFrom(s, i) == [s[i..j]] + LinesFrom(s, j + BreakLength(s, j))
  {
  }

  /** The text less one final line feed, if it ends with one. */
  function DropFinalNewline(s: string): string {
    if s != [] && s[|s| - 1] == '\n' then s[..|s| - 1] else s
  }

  /** For text whose only line breaks are line feeds, joining its lines with "\n" gives the
      text back, except for a final line feed, which ends the last line without starting
      another. */
  lemma SplitLinesJoin(s: string)
    requires forall k :: 0 <= k < |s| && IsLineBreak(s[k]) ==> s[k] == '\n'
    ensures Join(SplitLines(s), "\n") == DropFinalNewline(s)
  {
    LinesFromJoin(s, 0);
    assert s[0..] == s;
  }

  lemma {:induction false} LinesFromJoin(s: string, i: nat)
    requires i <= |s|
    requires forall k :: 0 <= k < |s| && IsLineBreak(s[k]) ==> s[k] == '\n'
    ensures Join(LinesFrom(s, i), "\n") == DropFinalNewline(s[i..])
    decreases |s| - i
  {
    if i < |s| {
      var j := FirstBreak(s, i);
      if j < |s| {
        assert s[j] == '\n';
        LinesFromJoin(s, j + 1);
        LinesFromJoinStep(s, i, j);
      } else {
        LinesFromLastLine(s, i);
      }
    }
  }

  /** With no break after i, the text from i is one line, and it does not end in a line feed. */
  lemma LinesFromLastLine(s: string, i: nat)
    requires i < |s| && FirstBreak(s, i) == |s|
    ensures Join(LinesFrom(s, i), "\n") == DropFinalNewline(s[i..])
  {
    FirstBreakIsFirst(s, i);
    assert LinesFrom(s, i) == [s[i..]];
    assert s[i..][|s| - i - 1] == s[|s| - 1];
    assert !IsLineBreak(s[|s| - 1]);
  }

  /** The step of LinesFromJoin: the line up to the line feed at j, then the lines after it. */
  lemma LinesFromJoinStep(s: string, i: nat, j: nat)
    requires i < |s| && j == FirstBreak(s, i) && j < |s| && s[j] == '\n'
    requires Join(LinesFrom(s, j + 1), "\n") == DropFinalNewline(s[j + 1..])
    ensures Join(LinesFrom(s, i), "\n") == DropFinalNewline(s[i..])
  {
    LinesFromAtLineFeed(s, i, j);
    AroundLineFeed(s, i, j);
    JoinRewritten(LinesFrom(s, i), s[i..], s[i..j], s[j + 1..], LinesFrom(s, j + 1));
  }

  /** Where the first break after i is a line feed at j, the lines from i are the one
      before j and those after it. */
  lemma LinesFromAtLineFeed(s: string, i: nat, j: nat)
    requires i < |s| && j == FirstBreak(s, i) && j < |s| && s[j] == '\n'
    ensures LinesFrom(s, i) == [s[i..j]] + LinesFrom(s, j + 1)
    ensures s[j + 1..] == [] <==> LinesFrom(s, j + 1) == []
  {
    assert BreakLength(s, j) == 1;
    LinesFromStep(s, i);
  }

  lemma AroundLineFeed(s: string, i: nat, j: nat)
    requires i <= j < |s| && s[j] == '\n'
    ensures s[i..] == s[i..j] + "\n" + s[j + 1..]
  {
    assert s[i..] == s[i..j] + [s[j]] + s[j + 1..];
  }

  /** JoinLineStep, for lines and text already known to be built from head and rest. */
  lemma JoinRewritten(lines: seq<string>, text: string, head: string, rest: string, ls: seq<string>)
    requires lines == [head] + ls && text == head + "\n" + rest
    requires rest == [] <==> ls == []
    requires Join(ls, "\n") == DropFinalNewline(rest)
    ensures Join(lines, "\n") == DropFinalNewline(text)
  {
    JoinLineStep(head, rest, ls);
  }

  /** One line, a line feed, and the rest of the text rejoined. */
  lemma JoinLineStep(head: string, rest: string, ls: seq<string>)
    requires rest == [] <==> ls == []
    requires Join(ls, "\n") == DropFinalNewline(rest)
    ensures Join([head] + ls, "\n") == DropFinalNewline(head + "\n" + rest)
  {
    var s := head + "\n" + rest;
    if rest == [] {
      assert s[..|s| - 1] == head;
    } else {
      assert Join([head] + ls, "\n") == head + "\n" + Join(ls, "\n");
      assert s[|s| - 1] == rest[|rest| - 1];
      if rest[|rest| - 1] == '\n' {
        assert s[..|s| - 1] == head + "\n" + rest[..|rest| - 1];
      }
    }
  }

  function DigitChar(d: nat): char
    requires d < 10
  {
    ('0' as int + d) as char
  }

  /** Decimal rendering of a natural number, as str(n) or an f-string prints it. */
  function NatToString(n: nat): (r: string)
    ensures |r| >= 1
    ensures forall k :: 0 <= k < |r| ==> IsAsciiDigit(r[k])
    ensures (r[0] == '0') <==> n == 0
    decreases n
  {
    if n < 10 then [DigitChar(n)] else NatToString(n / 10) + [DigitChar(n % 10)]
  }

  /** The value of a string of decimal digits. */
  function DigitsValue(s: string): int
    requires forall k :: 0 <= k < |s| ==> IsAsciiDigit(s[k])
  {
    if s == [] then 0 else DigitsValue(s[..|s| - 1]) * 10 + (s[|s| - 1] as int - '0' as int)
  }

  /** Reading back the printed number gives the number. */
  lemma {:induction false} NatToStringRoundTrip(n: nat)
    ensures DigitsValue(NatToString(n)) == n
  {
    if n >= 10 {
      var r := NatToString(n);
      assert r[..|r| - 1] == NatToString(n / 10);
      NatToStringRoundTrip(n / 10);
    }
  }
}
