/** A model of Python's `textwrap.shorten(text, width, placeholder=...)`: white space is
    collapsed to single spaces; text that then fits is returned as it is; otherwise the
    longest run of leading words that leaves room for the placeholder is kept and the
    placeholder appended, and when not even one word fits the placeholder alone (without
    its leading white space) is returned. Widths below the stripped placeholder's length
    raise ValueError, which is `None` here. */
module TextWrap {
  import opened Text

  /** The end of the word that starts at i: the first white-space position from i on. */
  function WordEnd(t: string, i: nat): (e: nat)
    requires i <= |t|
    ensures i <= e <= |t|
    ensures forall k :: i <= k < e ==> !IsSpace(t[k])
    ensures e == |t| || IsSpace(t[e])
    decreases |t| - i
  {
    if i == |t| || IsSpace(t[i]) then i else WordEnd(t, i + 1)
  }

  predicate IsWord(w: string) {
    w != [] && forall k :: 0 <= k < |w| ==> !IsSpace(w[k])
  }

  /** str.split() with no argument: the maximal runs of characters that are not white space. */
  function Words(s: string): (ws: seq<string>)
    ensures forall k :: 0 <= k < |ws| ==> IsWord(ws[k])
    decreases |s|
  {
    var t := TrimStart(s);
    if t == [] then []
    else
      var e := WordEnd(t, 0);
      [t[..e]] + Words(t[e..])
  }

  /** There are no words exactly when the text is all white space. */
  lemma WordsEmptyIffBlank(s: string)
    ensures Words(s) == [] <==> forall k :: 0 <= k < |s| ==> IsSpace(s[k])
  {
    var t := TrimStart(s);
    if t != [] {
      assert t[0] == s[|s| - |t|];
      assert Words(s) == [t[..WordEnd(t, 0)]] + Words(t[WordEnd(t, 0)..]);
    }
  }

  /** Leading white space, then a word that runs to white space or to the end: that word is
      the first piece and the rest of the text gives the others. With WordsEmptyIffBlank
      this fixes every piece: the maximal runs without white space, in text order. */
  lemma WordsCons(sp: string, w: string, rest: string)
    requires forall k :: 0 <= k < |sp| ==> IsSpace(sp[k])
    requires IsWord(w)
    requires rest == [] || IsSpace(rest[0])
    ensures Words(sp + w + rest) == [w] + Words(rest)
  {
    assert sp + w + rest == sp + (w + rest);
    WordsAfterSpace(sp, w + rest);
    WordsWordFirst(w, rest);
  }

  /** Leading white space adds no piece. */
  lemma {:induction false} WordsAfterSpace(sp: string, t: string)
    requires forall k :: 0 <= k < |sp| ==> IsSpace(sp[k])
    ensures Words(sp + t) == Words(t)
    decreases |sp|
  {
    if sp == [] {
      assert sp + t == t;
    } else {
      assert IsSpace(sp[0]);
      WordsSpaceFirst(sp, t);
      assert forall k :: 0 <= k < |sp[1..]| ==> IsSpace(sp[1..][k]);
      WordsAfterSpace(sp[1..], t);
    }
  }

  lemma WordsSpaceFirst(sp: string, t: string)
    requires sp != [] && IsSpace(sp[0])
    ensures Words(sp + t) == Words(sp[1..] + t)
  {
    assert (sp + t)[1..] == sp[1..] + t;
    WordsSkipSpace(sp + t);
  }

  lemma WordsWordFirst(w: string, rest: string)
    requires IsWord(w)
    requires rest == [] || IsSpace(rest[0])
    ensures Words(w + rest) == [w] + Words(rest)
  {
    var s := w + rest;
    assert forall k :: 0 <= k < |w| ==> s[k] == w[k];
    WordEndAt(s, 0, |w|);
    WordsHead(s);
    assert s[..|w|] == w && s[|w|..] == rest;
  }

  /** `' '.join(text.split())`, the first step of shorten. */
  function Collapse(s: string): (r: string)
    ensures Normalised(r)
  {
    JoinNormalised(Words(s));
    Join(Words(s), " ")
  }

  /** Collapsing keeps the first word and, unless only white space follows it, a single
      space and the collapsed rest: every word, in order, and nothing else. */
  lemma CollapseCons(sp: string, w: string, rest: string)
    requires forall k :: 0 <= k < |sp| ==> IsSpace(sp[k])
    requires IsWord(w)
    requires rest == [] || IsSpace(rest[0])
    ensures (forall k :: 0 <= k < |rest| ==> IsSpace(rest[k])) ==> Collapse(sp + w + rest) == w
    ensures (exists k :: 0 <= k < |rest| && !IsSpace(rest[k])) ==>
      Collapse(sp + w + rest) == w + " " + Collapse(rest)
  {
    WordsCons(sp, w, rest);
    WordsEmptyIffBlank(rest);
    if Words(rest) != [] {
      JoinCons(w, Words(rest), " ");
    }
  }

  /** Collapsing twice is the same as collapsing once. */
  lemma CollapseIdempotent(s: string)
    ensures Collapse(Collapse(s)) == Collapse(s)
  {
    CollapseNormalised(Collapse(s));
  }

  /** A word followed by white space or the end of the text ends where it is followed. */
  lemma {:induction false} WordEndAt(t: string, i: nat, j: nat)
    requires i <= j <= |t|
    requires forall k :: i <= k < j ==> !IsSpace(t[k])
    requires j == |t| || IsSpace(t[j])
    ensures WordEnd(t, i) == j
    decreases j - i
  {
    if i < j {
      WordEndAt(t, i + 1, j);
    }
  }

  /** Words joined by single spaces are normalised text. */
  lemma {:induction false} JoinNormalised(ws: seq<string>)
    requires forall k :: 0 <= k < |ws| ==> IsWord(ws[k])
    ensures Normalised(Join(ws, " "))
    decreases |ws|
  {
    if |ws| == 1 {
      WordEndAt(ws[0], 0, |ws[0]|);
    } else if |ws| > 1 {
      var w := ws[0];
      var rest := Join(ws[1..], " ");
      var s := w + " " + rest;
      JoinNormalised(ws[1..]);
      JoinStartsWithFirst(ws[1..], " ");
      assert rest[0] == ws[1][0];
      assert forall k :: 0 <= k < |w| ==> s[k] == w[k];
      assert s[|w|] == ' ';
      WordEndAt(s, 0, |w|);
      assert s[|w| + 1..] == rest;
      assert Join(ws, " ") == s;
    }
  }

  /** Text in the form Collapse produces: empty, or a word, then either the end or a single
      space followed by more such text that is not empty. */
  predicate Normalised(s: string)
    decreases |s|
  {
    s == [] ||
    var e := WordEnd(s, 0);
    e > 0 && (e == |s| || (s[e] == ' ' && e + 1 < |s| && Normalised(s[e + 1..])))
  }

  lemma WordsSkipSpace(t: string)
    requires t != [] && IsSpace(t[0])
    ensures Words(t) == Words(t[1..])
  {
  }

  lemma WordsHead(s: string)
    requires s != [] && !IsSpace(s[0])
    ensures Words(s) == [s[..WordEnd(s, 0)]] + Words(s[WordEnd(s, 0)..])
  {
    assert TrimStart(s) == s;
  }

  lemma JoinCons(w: string, ws: seq<string>, sep: string)
    requires ws != []
    ensures Join([w] + ws, sep) == w + sep + Join(ws, sep)
  {
    assert ([w] + ws)[1..] == ws;
  }

  /** Collapsing normalised text gives it back unchanged. */
  lemma {:induction false} CollapseNormalised(s: string)
    requires Normalised(s)
    ensures Collapse(s) == s
    decreases |s|
  {
    if s != [] {
      var e := WordEnd(s, 0);
      if e < |s| {
        CollapseNormalised(s[e + 1..]);
        CollapseStep(s, e);
      } else {
        WordsHead(s);
        assert s[..e] == s && s[e..] == [];
        assert Words(s[e..]) == [];
      }
    }
  }

  /** One word, one space, then text that collapses to itself. */
  lemma CollapseStep(s: string, e: nat)
    requires s != [] && !IsSpace(s[0]) && e == WordEnd(s, 0) && e + 1 < |s|
    requires s[e] == ' ' && !IsSpace(s[e + 1])
    requires Collapse(s[e + 1..]) == s[e + 1..]
    ensures Collapse(s) == s
  {
    var rest := s[e + 1..];
    WordsHead(s);
    WordsSkipSpace(s[e..]);
    assert s[e..][1..] == rest;
    WordsHead(rest);
    JoinCons(s[..e], Words(rest), " ");
    SplitAround(s, e);
  }

  lemma SplitAround(s: string, e: nat)
    requires e < |s|
    ensures s == s[..e] + [s[e]] + s[e + 1..]
  {
  }

  /** The number of leading words whose join with single spaces is at most `room` long;
      with fewer than one such word, 0. */
  function FittingCount(ws: seq<string>, room: int): (k: nat)
    ensures k <= |ws|
    ensures k > 0 ==> |Join(ws[..k], " ")| <= room
    ensures forall j :: k < j <= |ws| ==> |Join(ws[..j], " ")| > room
    decreases |ws|
  {
    if ws == [] then 0
    else if |Join(ws, " ")| <= room then (assert ws[..|ws|] == ws; |ws|)
    else
      var k := FittingCount(ws[..|ws| - 1], room);
      assert forall j :: 0 <= j <= |ws| - 1 ==> ws[..|ws| - 1][..j] == ws[..j];
      assert ws[..|ws|] == ws;
      k
  }

  /** `textwrap.shorten(text, width=width, placeholder=placeholder)`. */
  function Shorten(text: string, width: int, placeholder: string): (r: Option<string>)
    ensures r.Some? <==> width > 0 && |TrimStart(placeholder)| <= width
    ensures r.Some? ==> |r.value| <= width
    ensures r.Some? && |Collapse(text)| <= width ==> r.value == Collapse(text)
  {
    if width <= 0 || |TrimStart(placeholder)| > width then None
    else
      var c := Collapse(text);
      if |c| <= width then Some(c)
      else
        var ws := Words(text);
        var k := FittingCount(ws, width - |placeholder|);
        if k == 0 then Some(TrimStart(placeholder))
        else Some(Join(ws[..k], " ") + placeholder)
  }

  /** When the text does not fit, shorten keeps as many leading words as leave room for the
      placeholder and ends with it; when none does, only the stripped placeholder is left. */
  lemma ShortenDropsTrailingWords(text: string, width: int, placeholder: string) returns (k: nat)
    requires width > 0 && |TrimStart(placeholder)| <= width
    requires |Collapse(text)| > width
    ensures k <= |Words(text)|
    ensures k == 0 ==> Shorten(text, width, placeholder) == Some(TrimStart(placeholder))
    ensures k > 0 ==> Shorten(text, width, placeholder) == Some(Join(Words(text)[..k], " ") + placeholder)
    ensures forall j :: k < j <= |Words(text)| ==> |Join(Words(text)[..j], " ") + placeholder| > width
  {
    k := FittingCount(Words(text), width - |placeholder|);
  }

  /** Shortening the empty text gives the empty text. */
  lemma ShortenEmpty(width: int, placeholder: string)
    requires width > 0 && |TrimStart(placeholder)| <= width
    ensures Shorten("", width, placeholder) == Some("")
  {
    assert Words("") == [];
  }
}
