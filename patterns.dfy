/** Hand-written scanners for the five case-insensitive regular expressions the memory
    scripts search with. Each scanner decides, for one start position, whether the
    expression matches there and where its capture group lies; `Search` is `re.search`
    (the first position that matches) and `FindAll` is `re.findall` (matches left to
    right, each search resuming where the previous match ended). Letters, digits and
    word boundaries are ASCII; white space is Python's. */
module Patterns {
  import opened Text

  datatype Pattern =
    | MyNameIs        // boundary, "my name is " with single spaces, then a name (Day 3)
    | MyNameIsSpaced  // boundary, "my", "name", "is" each followed by white space, then a name (Day 4)
    | IAm             // boundary, "i'm" or "i am", white space, then a name (Day 4)
    | Likes           // boundary, "i " and like / love / prefer, white space, then an item (Day 3)
    | Tools           // boundary, "i " and use / "work with", white space, then an item (Day 3)

  /** The bounds of the capture group; every one of these expressions ends with its group,
      so `end` is also where the whole match ends. */
  datatype Hit = Hit(start: nat, end: nat)

  /** What a name capture may hold after its first letter: ASCII letters and white space. */
  predicate IsNameChar(c: char) { IsAsciiLetter(c) || IsSpace(c) }

  /** What an item capture holds: ASCII letters and digits, '-', '_' and the space character. */
  predicate IsItemChar(c: char) { IsAsciiLetter(c) || IsAsciiDigit(c) || c == '-' || c == '_' || c == ' ' }

  datatype Class = NameChars | ItemChars | Spaces

  predicate In(c: char, cls: Class) {
    match cls
    case NameChars => IsNameChar(c)
    case ItemChars => IsItemChar(c)
    case Spaces => IsSpace(c)
  }

  /** The end of the longest run of `cls` characters starting at i (a greedy `+` or `*`). */
  function RunEnd(s: string, i: nat, cls: Class): (e: nat)
    requires i <= |s|
    ensures i <= e <= |s|
    ensures forall k :: i <= k < e ==> In(s[k], cls)
    ensures e == |s| || !In(s[e], cls)
    decreases |s| - i
  {
    if i < |s| && In(s[i], cls) then RunEnd(s, i + 1, cls) else i
  }

  /** `\b` before a word character at position i. */
  predicate AtBoundary(s: string, i: nat)
    requires i <= |s|
  {
    i == 0 || !IsWordChar(s[i - 1])
  }

  /** The lower-case literal `lit` occurs at i, ignoring the case of ASCII letters. */
  predicate LiteralAt(s: string, i: nat, lit: string) {
    i + |lit| <= |s| && Lower(s[i..i + |lit|]) == lit
  }

  /** The name group: one ASCII letter followed by at least one letter or white-space
      character, taken greedily. */
  function NameCapture(s: string, p: nat): (h: Option<Hit>)
    requires p <= |s|
    ensures h.Some? ==> h.value.start == p && p + 2 <= h.value.end <= |s|
    ensures h.Some? ==> IsAsciiLetter(s[p]) && forall k :: p < k < h.value.end ==> IsNameChar(s[k])
    ensures h.Some? ==> h.value.end == |s| || !IsNameChar(s[h.value.end])
  {
    if p < |s| && IsAsciiLetter(s[p]) then
      var e := RunEnd(s, p + 1, NameChars);
      if e >= p + 2 then Some(Hit(p, e)) else None
    else None
  }

  /** The greatest position j in (a, k] whose character can start an item. */
  function LastItemStart(s: string, a: nat, k: nat): (r: Option<nat>)
    requires a < k <= |s|
    ensures r.Some? ==> a < r.value <= k && r.value < |s| && IsItemChar(s[r.value])
    ensures r.Some? ==> forall j :: r.value < j <= k && j < |s| ==> !IsItemChar(s[j])
    ensures r.None? ==> forall j :: a < j <= k && j < |s| ==> !IsItemChar(s[j])
    decreases k
  {
    if k < |s| && IsItemChar(s[k]) then Some(k)
    else if k - 1 > a then LastItemStart(s, a, k - 1)
    else None
  }

  /** White space (at least one character) and then the item group, taken greedily. The
      group may itself start with a space, so when the character after the whole white
      run cannot start an item the white run gives characters back, one at a time, until
      a space can start the group: the group starts at the greatest such position. */
  function ItemCapture(s: string, a: nat): (h: Option<Hit>)
    requires a <= |s|
    ensures h.Some? ==> a < h.value.start < h.value.end <= |s|
    ensures h.Some? ==> forall k :: a <= k < h.value.start ==> IsSpace(s[k])
    ensures h.Some? ==> forall k :: h.value.start <= k < h.value.end ==> IsItemChar(s[k])
    ensures h.Some? ==> h.value.end == |s| || !IsItemChar(s[h.value.end])
  {
    var q := RunEnd(s, a, Spaces);
    if q == a then None
    else
      match LastItemStart(s, a, q)
      case Some(k) => Some(Hit(k, RunEnd(s, k, ItemChars)))
      case None => None
  }

  /** The end of the first of `verbs` (tried in order) that occurs at a. */
  function VerbEnd(s: string, a: nat, verbs: seq<string>): (e: Option<nat>)
    requires forall k :: 0 <= k < |verbs| ==> verbs[k] != []
    ensures e.Some? ==> a < e.value <= |s|
  {
    if verbs == [] then None
    else if LiteralAt(s, a, verbs[0]) then Some(a + |verbs[0]|)
    else VerbEnd(s, a, verbs[1..])
  }

  /** The name group after at least one white-space character starting at a. */
  function SpacedNameCapture(s: string, a: nat): (h: Option<Hit>)
    requires a <= |s|
    ensures h.Some? ==> a < h.value.start && h.value.start + 2 <= h.value.end <= |s|
  {
    var b := RunEnd(s, a, Spaces);
    if b > a then NameCapture(s, b) else None
  }

  /** Whether `p` matches at position i, and if so the bounds of its capture. */
  function MatchAt(p: Pattern, s: string, i: nat): (h: Option<Hit>)
    requires i <= |s|
    ensures h.Some? ==> i < h.value.start < h.value.end <= |s|
  {
    if !AtBoundary(s, i) then None
    else
      match p
      case MyNameIs =>
        if LiteralAt(s, i, "my name is ") then NameCapture(s, i + 11) else None
      case MyNameIsSpaced =>
        if LiteralAt(s, i, "my") then
          var a := RunEnd(s, i + 2, Spaces);
          if a > i + 2 && LiteralAt(s, a, "name") then
            var b := RunEnd(s, a + 4, Spaces);
            if b > a + 4 && LiteralAt(s, b, "is") then SpacedNameCapture(s, b + 2) else None
          else None
        else None
      case IAm =>
        if LiteralAt(s, i, "i'm") then SpacedNameCapture(s, i + 3)
        else if LiteralAt(s, i, "i am") then SpacedNameCapture(s, i + 4)
        else None
      case Likes =>
        if LiteralAt(s, i, "i ") then
          match VerbEnd(s, i + 2, ["like", "love", "prefer"])
          case Some(a) => ItemCapture(s, a)
          case None => None
        else None
      case Tools =>
        if LiteralAt(s, i, "i ") then
          match VerbEnd(s, i + 2, ["use", "work with"])
          case Some(a) => ItemCapture(s, a)
          case None => None
        else None
  }

  predicate IsNamePattern(p: Pattern) { p.MyNameIs? || p.MyNameIsSpaced? || p.IAm? }

  /** What a capture of `p` is made of: a name is an ASCII letter followed by letters and
      white space, an item is a run of item characters. */
  predicate CaptureShape(p: Pattern, s: string, h: Hit)
    requires h.start < h.end <= |s|
  {
    if IsNamePattern(p) then
      IsAsciiLetter(s[h.start]) && forall k :: h.start < k < h.end ==> IsNameChar(s[k])
    else
      forall k :: h.start <= k < h.end ==> IsItemChar(s[k])
  }

  lemma MatchShape(p: Pattern, s: string, i: nat)
    requires i <= |s| && MatchAt(p, s, i).Some?
    ensures CaptureShape(p, s, MatchAt(p, s, i).value)
  {
  }

  /** A name as the scripts keep it: starts with an ASCII letter, holds only letters and
      white space, and neither starts nor ends with white space. */
  predicate IsNameValue(n: string) {
    n != [] && IsAsciiLetter(n[0]) && IsStripped(n) && forall k :: 0 <= k < |n| ==> IsNameChar(n[k])
  }

  /** The stripped capture of a name pattern is a name value. */
  lemma NameCaptureIsName(p: Pattern, s: string, h: Hit)
    requires IsNamePattern(p) && h.start < h.end <= |s| && CaptureShape(p, s, h)
    ensures IsNameValue(Strip(Captured(s, h)))
  {
    var c := Captured(s, h);
    assert !IsSpace(c[0]);
    assert TrimStart(c) == c;
    var r := Strip(c);
    assert r != [] && r[0] == c[0] by {
      assert r == c[..|r|];
    }
    var _ := StripSpec(c);
    StripChars(c, ch => IsNameChar(ch));
  }

  /** Every hit recorded at position j lies after j and ends within the table. */
  predicate HitsAhead(t: seq<Option<Hit>>) {
    forall j :: 0 <= j < |t| && t[j].Some? ==> j < t[j].value.start < t[j].value.end < |t|
  }

  /** A table of hits of `p` over `s`: one entry per position, the end included, each hit
      inside `s` and shaped as a capture of `p`. */
  predicate Shaped(p: Pattern, s: string, t: seq<Option<Hit>>) {
    |t| == |s| + 1 && HitsAhead(t) &&
    forall j :: 0 <= j < |t| && t[j].Some? ==> CaptureShape(p, s, t[j].value)
  }

  lemma MatchesShaped(p: Pattern, s: string)
    ensures forall j :: 0 <= j <= |s| && MatchAt(p, s, j).Some? ==> CaptureShape(p, s, MatchAt(p, s, j).value)
  {
    forall j | 0 <= j <= |s| && MatchAt(p, s, j).Some?
      ensures CaptureShape(p, s, MatchAt(p, s, j).value)
    {
      MatchShape(p, s, j);
    }
  }

  /** Whether `p` matches, and where its capture lies, at every position of `s`. */
  function Matches(p: Pattern, s: string): (t: seq<Option<Hit>>)
    ensures Shaped(p, s, t)
    ensures forall j :: 0 <= j <= |s| ==> t[j] == MatchAt(p, s, j)
  {
    MatchesShaped(p, s);
    seq(|s| + 1, j requires 0 <= j <= |s| => MatchAt(p, s, j))
  }

  /** The first hit in the table from position `from` on. */
  function FirstHit(t: seq<Option<Hit>>, from: nat): (h: Option<Hit>)
    requires from < |t|
    ensures h.Some? ==> exists j :: from <= j < |t| && t[j] == h
    decreases |t| - from
  {
    if t[from].Some? || from + 1 == |t| then t[from] else FirstHit(t, from + 1)
  }

  /** Every hit in the table from `from` on, each scan resuming where the previous hit ended. */
  function AllHits(t: seq<Option<Hit>>, from: nat): (hits: seq<Hit>)
    requires HitsAhead(t) && from < |t|
    ensures forall h :: h in hits ==> exists j :: from <= j < |t| && t[j] == Some(h)
    decreases |t| - from
  {
    match t[from]
    case Some(h) => [h] + AllHits(t, h.end)
    case None => if from + 1 < |t| then AllHits(t, from + 1) else []
  }

  /** `re.search`: the capture of the match at the first position from `from` on. */
  function Search(p: Pattern, s: string, from: nat): (h: Option<Hit>)
    requires from <= |s|
    ensures h.Some? ==> from < h.value.start < h.value.end <= |s| && CaptureShape(p, s, h.value)
  {
    FirstHit(Matches(p, s), from)
  }

  /** `re.findall`: every match, left to right; after a match the search resumes where it
      ended, so matches never overlap. */
  function FindAll(p: Pattern, s: string, from: nat): (hits: seq<Hit>)
    requires from <= |s|
    ensures forall h :: h in hits ==> from < h.start < h.end <= |s| && CaptureShape(p, s, h)
  {
    AllHits(Matches(p, s), from)
  }

  /** The text a hit captured. */
  function Captured(s: string, h: Hit): string
    requires h.start <= h.end <= |s|
  {
    s[h.start..h.end]
  }

  /** The first hit is the entry at the first position that holds one; it is missing
      exactly when no position from `from` on holds one. */
  lemma {:induction false} FirstHitIsFirst(t: seq<Option<Hit>>, from: nat) returns (i: nat)
    requires from < |t|
    ensures from <= i < |t| && t[i] == FirstHit(t, from)
    ensures forall j :: from <= j < i ==> t[j].None?
    ensures FirstHit(t, from).None? <==> forall j :: from <= j < |t| ==> t[j].None?
    decreases |t| - from
  {
    i := from;
    if t[from].None? && from + 1 < |t| {
      i := FirstHitIsFirst(t, from + 1);
    }
  }

  /** Collecting every hit is taking the first hit and collecting again from its end. */
  lemma {:induction false} AllHitsIsRepeatedFirst(t: seq<Option<Hit>>, from: nat)
    requires HitsAhead(t) && from < |t|
    ensures FirstHit(t, from).None? ==> AllHits(t, from) == []
    ensures FirstHit(t, from).Some? ==>
      FirstHit(t, from).value.end < |t| &&
      AllHits(t, from) == [FirstHit(t, from).value] + AllHits(t, FirstHit(t, from).value.end)
    decreases |t| - from
  {
    if t[from].None? && from + 1 < |t| {
      AllHitsIsRepeatedFirst(t, from + 1);
    }
  }

  /** Each hit ends before the next one starts. */
  predicate InTextOrder(hits: seq<Hit>) {
    forall j, k :: 0 <= j < k < |hits| ==> hits[j].end < hits[k].start
  }

  lemma ConsInTextOrder(h: Hit, rest: seq<Hit>)
    requires InTextOrder(rest)
    requires forall r :: r in rest ==> h.end < r.start
    ensures InTextOrder([h] + rest)
  {
    var hits := [h] + rest;
    forall j, k | 0 <= j < k < |hits| ensures hits[j].end < hits[k].start {
      assert hits[k] == rest[k - 1];
      if j > 0 {
        assert hits[j] == rest[j - 1];
      }
    }
  }

  lemma {:induction false} AllHitsOrdered(t: seq<Option<Hit>>, from: nat)
    requires HitsAhead(t) && from < |t|
    ensures InTextOrder(AllHits(t, from))
    decreases |t| - from
  {
    match t[from]
    case Some(h) =>
      AllHitsOrdered(t, h.end);
      ConsInTextOrder(h, AllHits(t, h.end));
    case None =>
      if from + 1 < |t| {
        AllHitsOrdered(t, from + 1);
      }
  }

  /** Search finds a match exactly when some position from `from` on matches, and then it is
      the match at the first such position. */
  lemma SearchIsFirstMatch(p: Pattern, s: string, from: nat) returns (i: nat)
    requires from <= |s|
    ensures Search(p, s, from).None? <==> forall j :: from <= j <= |s| ==> MatchAt(p, s, j).None?
    ensures Search(p, s, from).Some? ==>
      from <= i <= |s| && MatchAt(p, s, i) == Search(p, s, from) &&
      forall j :: from <= j < i ==> MatchAt(p, s, j).None?
  {
    i := FirstHitIsFirst(Matches(p, s), from);
  }

  /** findall is search repeated: its first hit is what search finds, and the rest is
      findall from where that match ended. */
  lemma FindAllIsRepeatedSearch(p: Pattern, s: string, from: nat)
    requires from <= |s|
    ensures Search(p, s, from).None? ==> FindAll(p, s, from) == []
    ensures Search(p, s, from).Some? ==>
      FindAll(p, s, from) == [Search(p, s, from).value] + FindAll(p, s, Search(p, s, from).value.end)
  {
    AllHitsIsRepeatedFirst(Matches(p, s), from);
  }

  /** findall finds nothing exactly when no position matches. */
  lemma FindAllEmpty(p: Pattern, s: string, from: nat)
    requires from <= |s|
    ensures FindAll(p, s, from) == [] <==> forall j :: from <= j <= |s| ==> MatchAt(p, s, j).None?
  {
    var _ := SearchIsFirstMatch(p, s, from);
    FindAllIsRepeatedSearch(p, s, from);
  }

  /** findall's hits come in text order and do not overlap. */
  lemma FindAllOrdered(p: Pattern, s: string, from: nat)
    requires from <= |s|
    ensures InTextOrder(FindAll(p, s, from))
  {
    AllHitsOrdered(Matches(p, s), from);
  }
}
